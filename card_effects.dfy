/**
 * Card-effect enrichment (frontend/src/utils/cardEffects.ts): building cards
 * with effects, the name-keyed effects table filled once from the example
 * catalogue, and the lookup that copies a catalogue entry onto a card.
 * The catalogue's own records are a parameter here.
 */
module CardEffects {
  import opened Common
  import opened JsText
  import opened DeckTypes

  /** `SpellEffect | SpellEffect[]`. */
  datatype EffectsArg = OneEffect(effect: SpellEffect) | ManyEffects(effects: seq<SpellEffect>)

  function EffectList(e: EffectsArg): (r: seq<SpellEffect>)
    ensures e.OneEffect? ==> r == [e.effect]
    ensures e.ManyEffects? ==> r == e.effects
  {
    match e
    case OneEffect(x) => [x]
    case ManyEffects(xs) => xs
  }

  /** `addEffectsToCard`: the card with its effects replaced. */
  function AddEffectsToCard(card: Card, effects: EffectsArg): (r: Card)
    ensures r.effects == Some(EffectList(effects))
    ensures r.(effects := card.effects) == card
  {
    card.(effects := Some(EffectList(effects)))
  }

  /** `[...(xs || []), ...more]`. */
  function AppendTo<T>(xs: Option<seq<T>>, more: seq<T>): seq<T>
  {
    OrElse(xs, []) + more
  }

  /**
   * `createCardWithEffects`: effects replaced (a single one wrapped in a list),
   * keywords and abilities appended to the existing lists, each omitted
   * argument leaving its field alone.
   */
  function CreateCardWithEffects(base: Card, effects: Option<EffectsArg>, keywords: Option<seq<string>>,
                                 abilities: Option<seq<ActivatedAbility>>): (r: Card)
    ensures effects.Some? ==> r.effects == Some(EffectList(effects.value))
    ensures effects.None? ==> r.effects == base.effects
    ensures keywords.Some? ==> r.keywords == Some(OrElse(base.keywords, []) + keywords.value)
    ensures keywords.None? ==> r.keywords == base.keywords
    ensures abilities.Some? ==> r.activatedAbilities == Some(OrElse(base.activatedAbilities, []) + abilities.value)
    ensures abilities.None? ==> r.activatedAbilities == base.activatedAbilities
    ensures r.(effects := base.effects, keywords := base.keywords, activatedAbilities := base.activatedAbilities) == base
  {
    base.(effects := if effects.Some? then Some(EffectList(effects.value)) else base.effects,
          keywords := if keywords.Some? then Some(AppendTo(base.keywords, keywords.value)) else base.keywords,
          activatedAbilities := if abilities.Some? then Some(AppendTo(base.activatedAbilities, abilities.value))
                                else base.activatedAbilities)
  }

  /** What the table stores per name: the three effect fields of a catalogue card. */
  datatype Entry = Entry(keywords: Option<seq<string>>, effects: Option<seq<SpellEffect>>,
                         activatedAbilities: Option<seq<ActivatedAbility>>)

  function EntryOf(c: Card): Entry
  {
    Entry(c.keywords, c.effects, c.activatedAbilities)
  }

  /** `name.toLowerCase().trim()`. */
  function NormalizedName(name: string): string
  {
    Trim(ToLower(name))
  }

  /** The (key, entry) pair `initializeCardEffectsMap` sets for a catalogue card. */
  function KeyedEntry(c: Card): (string, Entry)
  {
    (NormalizedName(c.name), EntryOf(c))
  }

  /** The table after `set` for every catalogue card in order. */
  function BuildMap(catalogue: seq<Card>): map<string, Entry>
  {
    SetAll(seq(|catalogue|, i requires 0 <= i < |catalogue| => KeyedEntry(catalogue[i])))
  }

  /** A map built by `set` of each pair in turn. */
  function SetAll(pairs: seq<(string, Entry)>): map<string, Entry>
  {
    if pairs == [] then map[]
    else SetAll(pairs[..|pairs| - 1])[pairs[|pairs| - 1].0 := pairs[|pairs| - 1].1]
  }

  lemma {:induction false} SetAllKeys(pairs: seq<(string, Entry)>, k: string)
    ensures k in SetAll(pairs) <==> exists i :: 0 <= i < |pairs| && pairs[i].0 == k
    decreases |pairs|
  {
    if pairs != [] {
      var front := pairs[..|pairs| - 1];
      SetAllKeys(front, k);
      assert forall i :: 0 <= i < |front| ==> front[i] == pairs[i];
    }
  }

  lemma {:induction false} SetAllLastWins(pairs: seq<(string, Entry)>, i: nat)
    requires i < |pairs|
    requires forall j :: i < j < |pairs| ==> pairs[j].0 != pairs[i].0
    ensures pairs[i].0 in SetAll(pairs) && SetAll(pairs)[pairs[i].0] == pairs[i].1
    decreases |pairs|
  {
    SetAllKeys(pairs, pairs[i].0);
    if i < |pairs| - 1 {
      var front := pairs[..|pairs| - 1];
      assert front[i] == pairs[i];
      forall j | i < j < |front| ensures front[j].0 != front[i].0 {
        assert front[j] == pairs[j];
      }
      SetAllLastWins(front, i);
    }
  }

  /** The table's keys are exactly the normalized catalogue names. */
  lemma BuildMapKeys(catalogue: seq<Card>, k: string)
    ensures k in BuildMap(catalogue) <==> exists i :: 0 <= i < |catalogue| && NormalizedName(catalogue[i].name) == k
  {
    var pairs := seq(|catalogue|, i requires 0 <= i < |catalogue| => KeyedEntry(catalogue[i]));
    SetAllKeys(pairs, k);
    assert forall i :: 0 <= i < |catalogue| ==> pairs[i].0 == NormalizedName(catalogue[i].name);
  }

  /** A later catalogue card with the same normalized name overwrites an earlier one. */
  lemma BuildMapLastWins(catalogue: seq<Card>, i: nat)
    requires i < |catalogue|
    requires forall j :: i < j < |catalogue| ==> NormalizedName(catalogue[j].name) != NormalizedName(catalogue[i].name)
    ensures NormalizedName(catalogue[i].name) in BuildMap(catalogue)
    ensures BuildMap(catalogue)[NormalizedName(catalogue[i].name)] == EntryOf(catalogue[i])
  {
    var pairs := seq(|catalogue|, i requires 0 <= i < |catalogue| => KeyedEntry(catalogue[i]));
    forall j | i < j < |pairs| ensures pairs[j].0 != pairs[i].0 {
      assert pairs[j].0 == NormalizedName(catalogue[j].name);
    }
    SetAllLastWins(pairs, i);
  }

  /** `enhanceCardWithEffects` against a filled table. */
  function Enhance(m: map<string, Entry>, card: Card): (r: Card)
    ensures NormalizedName(card.name) !in m ==> r == card
    ensures NormalizedName(card.name) in m ==>
      var e := m[NormalizedName(card.name)];
      && r.keywords == (if e.keywords.Some? then e.keywords else card.keywords)
      && r.effects == (if e.effects.Some? then e.effects else card.effects)
      && r.activatedAbilities == (if e.activatedAbilities.Some? then e.activatedAbilities else card.activatedAbilities)
    ensures r.(keywords := card.keywords, effects := card.effects, activatedAbilities := card.activatedAbilities) == card
  {
    var key := NormalizedName(card.name);
    if key in m then
      var e := m[key];
      card.(keywords := if e.keywords.Some? then e.keywords else card.keywords,
            effects := if e.effects.Some? then e.effects else card.effects,
            activatedAbilities := if e.activatedAbilities.Some? then e.activatedAbilities else card.activatedAbilities)
    else card
  }

  /** `enhanceCardsWithEffects`: the same cards, in the same order, each enhanced. */
  function EnhanceAll(m: map<string, Entry>, cards: seq<Card>): (r: seq<Card>)
    ensures |r| == |cards|
    ensures forall i :: 0 <= i < |cards| ==> r[i] == Enhance(m, cards[i])
  {
    seq(|cards|, i requires 0 <= i < |cards| => Enhance(m, cards[i]))
  }

  /** `hasCustomEffects`. */
  predicate HasCustomEffects(m: map<string, Entry>, name: string)
  {
    NormalizedName(name) in m
  }

  /** Enhancing changes a card only when its name has custom effects. */
  lemma EnhanceChangesOnlyCustom(m: map<string, Entry>, card: Card)
    requires Enhance(m, card) != card
    ensures HasCustomEffects(m, card.name)
  {
  }

  /** A catalogue card's name always has custom effects once the table is built. */
  lemma CatalogueNamesAreCustom(catalogue: seq<Card>, i: nat)
    requires i < |catalogue|
    ensures HasCustomEffects(BuildMap(catalogue), catalogue[i].name)
  {
    BuildMapKeys(catalogue, NormalizedName(catalogue[i].name));
  }

  /** Name lookup ignores case and surrounding whitespace. */
  lemma HasCustomEffectsIgnoresPadding(m: map<string, Entry>, name: string)
    ensures HasCustomEffects(m, name) <==> HasCustomEffects(m, Trim(ToLower(name)))
  {
    LowerOfTrimmedLower(name);
    TrimIdempotent(ToLower(name));
  }

  /** Lower-casing an already trimmed, lower-cased name changes nothing. */
  lemma LowerOfTrimmedLower(name: string)
    ensures ToLower(Trim(ToLower(name))) == Trim(ToLower(name))
  {
    var l := ToLower(name);
    var t := Trim(l);
    TrimIsPiece(l);
    forall i | 0 <= i < |t| ensures LowerChar(t[i]) == t[i] {
      assert t[i] in l;
      LowerStaysLower(name, t[i]);
    }
  }

  /** A lower-cased name holds only lower-case characters. */
  lemma LowerStaysLower(name: string, c: char)
    requires c in ToLower(name)
    ensures LowerChar(c) == c
  {
    var k :| 0 <= k < |ToLower(name)| && ToLower(name)[k] == c;
  }

  /** Trim keeps a contiguous piece of its input. */
  lemma TrimIsPiece(s: string)
    ensures forall c :: c in Trim(s) ==> c in s
  {
    var a := TrimStart(s);
    var b := TrimEnd(a);
    assert a == s[|s| - |a|..];
    assert b == a[..|b|];
    forall c | c in b ensures c in s {
      var k :| 0 <= k < |b| && b[k] == c;
      assert a[k] == c;
      assert s[|s| - |a| + k] == c;
    }
  }

  /** `getExampleCardsByType`: the catalogue cards whose lower-cased type contains the lower-cased query. */
  predicate TypeMatches(query: string, c: Card)
  {
    c.typeLine.Some? && Contains(ToLower(c.typeLine.value), ToLower(query))
  }

  function ExampleCardsByType(catalogue: seq<Card>, query: string): (r: seq<Card>)
    ensures forall c :: c in r <==> c in catalogue && TypeMatches(query, c)
    ensures |r| <= |catalogue|
  {
    Filter(catalogue, c => TypeMatches(query, c))
  }

  /** The matching cards come out in catalogue order: a catalogue split in two gives the two results joined. */
  lemma ExampleCardsInOrder(front: seq<Card>, back: seq<Card>, query: string)
    ensures ExampleCardsByType(front + back, query) == ExampleCardsByType(front, query) + ExampleCardsByType(back, query)
  {
    FilterAppend(front, back, c => TypeMatches(query, c));
  }

  /**
   * The module-level `CARD_EFFECTS_MAP` and the functions that fill it on
   * first use (cardEffects.ts:859-908).
   */
  class EffectsRegistry {
    var effectsMap: map<string, Entry>

    constructor()
      ensures effectsMap == map[]
    {
      effectsMap := map[];
    }

    /** `initializeCardEffectsMap`: fills the table from the catalogue once; later calls keep it. */
    method Initialize(catalogue: seq<Card>)
      modifies this
      ensures old(effectsMap) != map[] ==> effectsMap == old(effectsMap)
      ensures old(effectsMap) == map[] ==> effectsMap == BuildMap(catalogue)
    {
      if |effectsMap| > 0 {
        return;
      }
      ghost var pairs := seq(|catalogue|, i requires 0 <= i < |catalogue| => KeyedEntry(catalogue[i]));
      var i := 0;
      while i < |catalogue|
        invariant 0 <= i <= |catalogue|
        invariant effectsMap == SetAll(pairs[..i])
      {
        var card := catalogue[i];
        var normalizedName := NormalizedName(card.name);
        effectsMap := effectsMap[normalizedName := EntryOf(card)];
        assert pairs[..i + 1][..i] == pairs[..i];
        i := i + 1;
      }
      assert pairs[..i] == pairs;
    }

    /** `enhanceCardWithEffects`, initializing the table first. */
    method EnhanceCard(catalogue: seq<Card>, card: Card) returns (r: Card)
      modifies this
      ensures old(effectsMap) != map[] ==> effectsMap == old(effectsMap)
      ensures old(effectsMap) == map[] ==> effectsMap == BuildMap(catalogue)
      ensures r == Enhance(effectsMap, card)
    {
      Initialize(catalogue);
      r := Enhance(effectsMap, card);
    }

    /** `hasCustomEffects`, initializing the table first. */
    method HasCustom(catalogue: seq<Card>, name: string) returns (b: bool)
      modifies this
      ensures old(effectsMap) != map[] ==> effectsMap == old(effectsMap)
      ensures old(effectsMap) == map[] ==> effectsMap == BuildMap(catalogue)
      ensures b <==> HasCustomEffects(effectsMap, name)
    {
      Initialize(catalogue);
      b := NormalizedName(name) in effectsMap;
    }
  }
}
