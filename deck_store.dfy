/**
 * The deck store of the Flask back end (backend/app.py): the decks saved
 * in `decks.json`, keyed by their integer id, and the endpoints that create,
 * read, update and delete them. The file itself becomes the `decks` field of
 * a `DeckStore` object: loading it is reading the field, and a successful
 * `save_decks` is assigning it. Whether a save succeeds, the clock and the
 * card database are parameters.
 */
module DeckStore {
  import opened Common
  import opened JsText
  import opened PyJson
  import MtgApi

  /** What an endpoint sends back. */
  datatype Reply =
    | Ok(status: int, body: Json)             // `jsonify(body), status`
    | Refused(status: int, message: string)   // `jsonify({'error': message}), status`
    | Crashed                                 // an exception caught by the handler: status 500 with its text

  const NameRequired := "Name is required"
  const DeckListRequired := "Deck list is required"
  const NotFound := "Deck not found"
  const SaveFailed := "Failed to save deck"
  const DeleteFailed := "Failed to delete deck"
  const BadDeck := "Invalid deck data structure"
  const NotInDatabase := "Card not found in database"
  const DeletedMessage := "Deck deleted successfully"

  // ----- get_next_id (37-41) -----

  /** A non-empty set of ids has a largest one. */
  lemma {:induction false} MaxExists(ids: set<int>)
    requires ids != {}
    ensures exists m :: m in ids && forall k :: k in ids ==> k <= m
    decreases |ids|
  {
    if forall y :: y !in ids {
      assert false;
    }
    var x :| x in ids;
    if ids != {x} {
      var rest := ids - {x};
      MaxExists(rest);
      var m :| m in rest && forall k :: k in rest ==> k <= m;
      var top := if x > m then x else m;
      assert forall k :: k in ids ==> k <= top by {
        forall k | k in ids ensures k <= top {
          if k != x {
            assert k in rest;
          }
        }
      }
    }
  }

  /** `max(int(k) for k in decks.keys())`. */
  function MaxId(ids: set<int>): (m: int)
    requires ids != {}
    ensures m in ids && forall k :: k in ids ==> k <= m
  {
    MaxExists(ids);
    var m :| m in ids && forall k :: k in ids ==> k <= m;
    m
  }

  /**
   * The id of the next deck: 1 for an empty store, otherwise one more than
   * the largest id, so it is larger than every id in use and never collides.
   */
  function NextId(ids: set<int>): (r: int)
    ensures ids == {} ==> r == 1
    ensures ids != {} ==> r - 1 in ids
    ensures forall k :: k in ids ==> k < r
    ensures r !in ids
  {
    if ids == {} then 1 else MaxId(ids) + 1
  }

  // ----- Python's `in` and `for` on decoded JSON -----

  /** `needle in hay`: substring, list element or dict key; None where Python raises TypeError. */
  function PyIn(needle: string, hay: Json): (r: Option<bool>)
    ensures hay.JStr? ==> r == Some(Contains(hay.s, needle))
    ensures hay.JNull? || hay.JBool? || hay.JNum? ==> r.None?
  {
    match hay
    case JStr(s) => Some(Contains(s, needle))
    case JArr(items) => Some(JStr(needle) in items)
    case JObj(fields) => Some(needle in fields)
    case _ => None
  }

  /** `'Legendary' in t and 'Creature' in t`, left to right. */
  function LegendaryCreatureType(t: Json): Option<bool>
  {
    match PyIn("Legendary", t)
    case None => None
    case Some(legendary) => if legendary then PyIn("Creature", t) else Some(false)
  }

  /** On a string type line the upload check agrees with the client's `isLegendaryCreature`. */
  lemma LegendaryCreatureTypeAgrees(t: string)
    ensures LegendaryCreatureType(JStr(t)) == Some(MtgApi.IsLegendaryCreature(Some(t)))
  {
  }

  /**
   * The elements a `for` loop visits when its body starts with `element.get`:
   * a list's items. Iterating a non-empty string or dict yields strings,
   * on which `.get` raises, and any other value is not iterable; both give
   * None, since the loop then raises whichever element comes first.
   */
  function DictLoopItems(v: Json): (r: Option<seq<Json>>)
    ensures v.JArr? ==> r == Some(v.items)
    ensures r.Some? && !v.JArr? ==> r == Some([])
  {
    match v
    case JArr(items) => Some(items)
    case JStr(s) => if s == "" then Some([]) else None
    case JObj(fields) => if fields == map[] then Some([]) else None
    case _ => None
  }

  /** `{'id': card.get('id', ''), 'name': card.get('name', ''), 'mana_cost': card.get('mana_cost', '')}`. */
  function Summary(card: Dict): (r: Dict)
    ensures r.Keys == {"id", "name", "mana_cost"}
  {
    map["id" := Get(card, "id", JStr("")), "name" := Get(card, "name", JStr("")),
        "mana_cost" := Get(card, "mana_cost", JStr(""))]
  }

  // ----- create_deck, optimized path: the legendary creatures (102-108) -----

  /** One pass of the loop over the uploaded cards. */
  function LegendaryStep(found: seq<Json>, card: Json): Option<seq<Json>>
  {
    if !card.JObj? then None
    else
      var t := Get(card.fields, "type", JNull);
      if !Truthy(t) then Some(found)
      else
        match LegendaryCreatureType(t)
        case None => None
        case Some(b) => Some(if b then found + [JObj(Summary(card.fields))] else found)
  }

  /** The loop over the uploaded cards: the legendary creatures found, or None when the loop raises. */
  function LegendariesOf(cards: seq<Json>): Option<seq<Json>>
    decreases |cards|
  {
    if cards == [] then Some([])
    else
      match LegendariesOf(cards[..|cards| - 1])
      case None => None
      case Some(found) => LegendaryStep(found, cards[|cards| - 1])
  }

  method ExtractLegendaries(cards: seq<Json>) returns (r: Option<seq<Json>>)
    ensures r == LegendariesOf(cards)
  {
    var found: seq<Json> := [];
    var i := 0;
    while i < |cards|
      invariant 0 <= i <= |cards|
      invariant LegendariesOf(cards[..i]) == Some(found)
    {
      assert cards[..i + 1][..i] == cards[..i];
      var card := cards[i];
      if !card.JObj? {
        r := None;
        LegendariesStuck(cards, i + 1);
        return;
      }
      var t := Get(card.fields, "type", JNull);
      if Truthy(t) {
        var b := LegendaryCreatureType(t);
        if b.None? {
          r := None;
          LegendariesStuck(cards, i + 1);
          return;
        }
        if b.value {
          found := found + [JObj(Summary(card.fields))];
        }
      }
      i := i + 1;
    }
    assert cards[..i] == cards;
    r := Some(found);
  }

  /** Once the loop has raised, it has raised for the whole list. */
  lemma {:induction false} LegendariesStuck(cards: seq<Json>, n: nat)
    requires n <= |cards| && LegendariesOf(cards[..n]).None?
    ensures LegendariesOf(cards).None?
    decreases |cards| - n
  {
    if n < |cards| {
      assert cards[..n + 1][..n] == cards[..n];
      LegendariesStuck(cards, n + 1);
    } else {
      assert cards[..n] == cards;
    }
  }

  /** A card the loop accepts: a dict whose type, if set, is a string. */
  predicate PlainCard(card: Json)
  {
    card.JObj? && ("type" in card.fields ==> card.fields["type"].JStr? || !Truthy(card.fields["type"]))
  }

  /** A card whose type line names it a legendary creature. */
  predicate IsLegendaryCreatureCard(card: Json)
    requires card.JObj?
  {
    "type" in card.fields && card.fields["type"].JStr?
    && Contains(card.fields["type"].s, "Legendary") && Contains(card.fields["type"].s, "Creature")
  }

  /** What one card contributes to the summaries. */
  function SummaryIfLegendary(card: Json): seq<Json>
    requires card.JObj?
  {
    if IsLegendaryCreatureCard(card) then [JObj(Summary(card.fields))] else []
  }

  /** The summaries of the legendary creatures, front to back. */
  function LegendarySummaries(cards: seq<Json>): seq<Json>
    requires forall i :: 0 <= i < |cards| ==> cards[i].JObj?
  {
    if cards == [] then [] else SummaryIfLegendary(cards[0]) + LegendarySummaries(cards[1..])
  }

  lemma {:induction false} LegendarySummariesSnoc(cards: seq<Json>, card: Json)
    requires forall i :: 0 <= i < |cards| ==> cards[i].JObj?
    requires card.JObj?
    ensures LegendarySummaries(cards + [card]) == LegendarySummaries(cards) + SummaryIfLegendary(card)
    decreases |cards|
  {
    if cards == [] {
      assert [card][1..] == [];
    } else {
      assert (cards + [card])[1..] == cards[1..] + [card];
      LegendarySummariesSnoc(cards[1..], card);
      var h := SummaryIfLegendary(cards[0]);
      var t := LegendarySummaries(cards[1..]);
      assert h + (t + SummaryIfLegendary(card)) == (h + t) + SummaryIfLegendary(card);
    }
  }

  /**
   * When every card is a dict with a string type, the loop never raises and
   * collects, in card order, exactly the cards whose type contains both
   * "Legendary" and "Creature".
   */
  lemma {:induction false} LegendariesExact(cards: seq<Json>)
    requires forall i :: 0 <= i < |cards| ==> PlainCard(cards[i])
    ensures forall i :: 0 <= i < |cards| ==> cards[i].JObj?
    ensures LegendariesOf(cards) == Some(LegendarySummaries(cards))
    decreases |cards|
  {
    if cards != [] {
      var front := cards[..|cards| - 1];
      var card := cards[|cards| - 1];
      assert forall i :: 0 <= i < |front| ==> PlainCard(front[i]) by {
        forall i | 0 <= i < |front| ensures PlainCard(front[i]) {
          assert front[i] == cards[i];
        }
      }
      LegendariesExact(front);
      assert PlainCard(card);
      LegendaryStepPlain(LegendarySummaries(front), card);
      LegendarySummariesSnoc(front, card);
      assert front + [card] == cards;
    }
  }

  /** On a card with a string type, a pass adds the card's summary exactly when it is a legendary creature. */
  lemma LegendaryStepPlain(found: seq<Json>, card: Json)
    requires PlainCard(card)
    ensures LegendaryStep(found, card) == Some(found + SummaryIfLegendary(card))
  {
    var t := Get(card.fields, "type", JNull);
    if !Truthy(t) {
      if "type" in card.fields && card.fields["type"].JStr? {
        assert card.fields["type"].s == "";
        assert !Contains("", "Legendary");
      }
      assert SummaryIfLegendary(card) == [];
      assert found + [] == found;
    }
  }

  /** A card that is not a dict makes the loop raise, whatever the other cards are. */
  lemma LegendariesRejectNonDict(cards: seq<Json>, i: nat)
    requires i < |cards| && !cards[i].JObj?
    ensures LegendariesOf(cards).None?
  {
    if LegendariesOf(cards[..i]).None? {
      LegendariesStuck(cards, i);
    } else {
      assert cards[..i + 1][..i] == cards[..i];
      LegendariesStuck(cards, i + 1);
    }
  }

  // ----- create_deck, legacy path: processing a deck list (130-183) -----

  /** The processed cards and the legendary creatures found so far. */
  datatype Processed = Processed(cards: seq<Json>, legendaries: seq<Json>)

  /**
   * One `deck_list` entry: a blank name is skipped, a name the card database
   * does not know is kept with an error, and a known card is copied with its
   * quantity and, when legendary, summarised. `lookup` is the first match of
   * `Card.where(name=...)`, as a dict of the card's attributes.
   */
  function EntryStep(acc: Processed, entry: Json, lookup: string -> Option<Dict>): Option<Processed>
  {
    if !entry.JObj? then None
    else
      var quantity := Get(entry.fields, "quantity", JNum(1));
      var given := Get(entry.fields, "name", JStr(""));
      if !given.JStr? then None
      else
        var name := Trim(given.s);
        if name == "" then Some(acc) else NamedStep(acc, quantity, name, lookup(name))
  }

  /** An entry with a name, once the card database has answered. */
  function NamedStep(acc: Processed, quantity: Json, name: string, found: Option<Dict>): (r: Option<Processed>)
    ensures r.Some? ==> acc.cards <= r.value.cards && |r.value.cards| == |acc.cards| + 1
    ensures r.Some? ==> acc.legendaries <= r.value.legendaries && |r.value.legendaries| <= |acc.legendaries| + 1
  {
    match found
    case None =>
      Some(acc.(cards := acc.cards + [JObj(map["quantity" := quantity, "name" := JStr(name), "error" := JStr(NotInDatabase)])]))
    case Some(card) =>
      match LegendaryCreatureType(Get(card, "type", JNull))
      case None => None
      case Some(b) =>
        Some(Processed(acc.cards + [JObj(card["quantity" := quantity])],
                       if b then acc.legendaries + [JObj(Summary(card))] else acc.legendaries))
  }

  /** The loop over the deck list, or None when it raises. */
  function ProcessedOf(entries: seq<Json>, lookup: string -> Option<Dict>): Option<Processed>
    decreases |entries|
  {
    if entries == [] then Some(Processed([], []))
    else
      match ProcessedOf(entries[..|entries| - 1], lookup)
      case None => None
      case Some(acc) => EntryStep(acc, entries[|entries| - 1], lookup)
  }

  method ProcessDeckList(entries: seq<Json>, lookup: string -> Option<Dict>) returns (r: Option<Processed>)
    ensures r == ProcessedOf(entries, lookup)
  {
    var acc := Processed([], []);
    var i := 0;
    while i < |entries|
      invariant 0 <= i <= |entries|
      invariant ProcessedOf(entries[..i], lookup) == Some(acc)
    {
      ProcessedOfNext(entries, i, lookup);
      var next := EntryStep(acc, entries[i], lookup);
      if next.None? {
        r := None;
        ProcessedStuck(entries, i + 1, lookup);
        return;
      }
      acc := next.value;
      i := i + 1;
    }
    assert entries[..i] == entries;
    r := Some(acc);
  }

  lemma ProcessedOfNext(entries: seq<Json>, i: nat, lookup: string -> Option<Dict>)
    requires i < |entries| && ProcessedOf(entries[..i], lookup).Some?
    ensures ProcessedOf(entries[..i + 1], lookup) == EntryStep(ProcessedOf(entries[..i], lookup).value, entries[i], lookup)
  {
    assert entries[..i + 1][..i] == entries[..i];
  }

  lemma {:induction false} ProcessedStuck(entries: seq<Json>, n: nat, lookup: string -> Option<Dict>)
    requires n <= |entries| && ProcessedOf(entries[..n], lookup).None?
    ensures ProcessedOf(entries, lookup).None?
    decreases |entries| - n
  {
    if n < |entries| {
      assert entries[..n + 1][..n] == entries[..n];
      ProcessedStuck(entries, n + 1, lookup);
    } else {
      assert entries[..n] == entries;
    }
  }

  /** An entry whose name is not blank once stripped. */
  predicate Named(entry: Json)
  {
    entry.JObj? && "name" in entry.fields && entry.fields["name"].JStr? && Trim(entry.fields["name"].s) != ""
  }

  /** How many entries name a card, front to back. */
  function NamedCount(entries: seq<Json>): nat
  {
    if entries == [] then 0 else (if Named(entries[0]) then 1 else 0) + NamedCount(entries[1..])
  }

  lemma {:induction false} NamedCountSnoc(entries: seq<Json>, e: Json)
    ensures NamedCount(entries + [e]) == NamedCount(entries) + (if Named(e) then 1 else 0)
    decreases |entries|
  {
    if entries == [] {
      assert [e][1..] == [];
    } else {
      assert (entries + [e])[1..] == entries[1..] + [e];
      NamedCountSnoc(entries[1..], e);
    }
  }

  lemma EntryStepCounts(acc: Processed, e: Json, lookup: string -> Option<Dict>)
    requires EntryStep(acc, e, lookup).Some?
    ensures var next := EntryStep(acc, e, lookup).value;
      |next.cards| == |acc.cards| + (if Named(e) then 1 else 0)
      && |next.legendaries| - |acc.legendaries| <= |next.cards| - |acc.cards|
      && acc.cards <= next.cards && acc.legendaries <= next.legendaries
  {
    if Named(e) {
      var given := e.fields["name"];
      assert EntryStep(acc, e, lookup) == NamedStep(acc, Get(e.fields, "quantity", JNum(1)), Trim(given.s), lookup(Trim(given.s)));
    } else {
      if "name" !in e.fields {
        assert Trim("") == "";
      }
      assert EntryStep(acc, e, lookup) == Some(acc);
    }
  }

  /**
   * A deck list processed without raising yields one card per named entry,
   * found or not, in entry order, and at most as many legendary creatures
   * as cards.
   */
  lemma {:induction false} ProcessedCounts(entries: seq<Json>, lookup: string -> Option<Dict>)
    requires ProcessedOf(entries, lookup).Some?
    ensures |ProcessedOf(entries, lookup).value.cards| == NamedCount(entries)
    ensures |ProcessedOf(entries, lookup).value.legendaries| <= |ProcessedOf(entries, lookup).value.cards|
    decreases |entries|
  {
    if entries != [] {
      var front := entries[..|entries| - 1];
      var e := entries[|entries| - 1];
      ProcessedCounts(front, lookup);
      var acc := ProcessedOf(front, lookup).value;
      assert ProcessedOf(entries, lookup) == EntryStep(acc, e, lookup);
      EntryStepCounts(acc, e, lookup);
      NamedCountLast(entries);
    }
  }

  lemma NamedCountLast(entries: seq<Json>)
    requires entries != []
    ensures NamedCount(entries) == NamedCount(entries[..|entries| - 1]) + (if Named(entries[|entries| - 1]) then 1 else 0)
  {
    NamedCountSnoc(entries[..|entries| - 1], entries[|entries| - 1]);
    assert entries[..|entries| - 1] + [entries[|entries| - 1]] == entries;
  }

  // ----- the deck record -----

  /** The deck dict create_deck saves (110-119, 186-195). */
  function NewDeck(id: int, name: Json, description: Json, commander: Json, cards: Json, legendaries: seq<Json>,
                   created: string, updated: string): Dict
  {
    map["id" := JNum(id), "name" := name, "description" := description, "commander_id" := commander,
        "cards" := cards, "legendary_creatures" := JArr(legendaries),
        "created_at" := JStr(created), "updated_at" := JStr(updated)]
  }

  /** The fields get_deck fills in when a stored deck lacks them. */
  const DefaultKeys: set<string> := {"id", "cards", "legendary_creatures", "created_at", "updated_at"}

  /** `if key not in deck: deck[key] = value`. */
  function Fill(deck: Dict, key: string, value: Json): (r: Dict)
    ensures r.Keys == deck.Keys + {key}
    ensures forall k :: k in deck ==> r[k] == deck[k]
    ensures key !in deck ==> r[key] == value
  {
    if key in deck then deck else deck[key := value]
  }

  /** get_deck's repairs (224-233), one field at a time, in the source's order. */
  function WithDefaults(deck: Dict, id: int, created: string, updated: string): Dict
  {
    var d1 := Fill(deck, "id", JNum(id));
    var d2 := Fill(d1, "cards", JArr([]));
    var d3 := Fill(d2, "legendary_creatures", JArr([]));
    var d4 := Fill(d3, "created_at", JStr(created));
    Fill(d4, "updated_at", JStr(updated))
  }

  /** The repaired deck has the default fields added, and every field it had keeps its value. */
  lemma WithDefaultsKeeps(deck: Dict, id: int, created: string, updated: string)
    ensures WithDefaults(deck, id, created, updated).Keys == deck.Keys + DefaultKeys
    ensures forall k :: k in deck ==> WithDefaults(deck, id, created, updated)[k] == deck[k]
  {
  }

  /** Each field the stored deck lacks gets its default. */
  lemma WithDefaultsFills(deck: Dict, id: int, created: string, updated: string)
    ensures var r := WithDefaults(deck, id, created, updated);
      && ("id" !in deck ==> r["id"] == JNum(id))
      && ("cards" !in deck ==> r["cards"] == JArr([]))
      && ("legendary_creatures" !in deck ==> r["legendary_creatures"] == JArr([]))
      && ("created_at" !in deck ==> r["created_at"] == JStr(created))
      && ("updated_at" !in deck ==> r["updated_at"] == JStr(updated))
  {
  }

  /** A deck create_deck saved already has every field get_deck would fill in. */
  lemma NewDeckNeedsNoDefaults(id: int, name: Json, description: Json, commander: Json, cards: Json,
                               legendaries: seq<Json>, created: string, updated: string, c2: string, u2: string)
    ensures var d := NewDeck(id, name, description, commander, cards, legendaries, created, updated);
      WithDefaults(d, id, c2, u2) == d
  {
    var d := NewDeck(id, name, description, commander, cards, legendaries, created, updated);
    assert DefaultKeys <= d.Keys;
  }

  /** The fields update_deck copies from the request when present (259-264). */
  const Editable: seq<string> := ["name", "description", "commander_id"]

  /** `key in data` then `data[key]`: the value, absent, or None where Python raises. */
  datatype Probe = Missing | Found(value: Json) | Raises

  function ProbeField(data: Json, key: string): (r: Probe)
    ensures data.JObj? ==> (r == if key in data.fields then Found(data.fields[key]) else Missing)
  {
    match data
    case JObj(fields) => if key in fields then Found(fields[key]) else Missing
    // `key in data` holds, then indexing a list or string with a string raises
    case JArr(items) => if JStr(key) in items then Raises else Missing
    case JStr(s) => if Contains(s, key) then Raises else Missing
    case _ => Raises
  }

  /** The request can be merged: no probe of an editable field raises. */
  predicate Mergeable(data: Json)
  {
    forall k :: k in Editable ==> !ProbeField(data, k).Raises?
  }

  lemma MergeableByProbes(data: Json)
    requires !ProbeField(data, "name").Raises? && !ProbeField(data, "description").Raises?
    requires !ProbeField(data, "commander_id").Raises?
    ensures Mergeable(data)
  {
  }

  /** `if key in data: deck[key] = data[key]`, once the probe has not raised. */
  function Overwrite(deck: Dict, key: string, p: Probe): (r: Dict)
    requires !p.Raises?
    ensures r.Keys == deck.Keys + (if p.Found? then {key} else {})
    ensures p.Found? ==> r[key] == p.value
    ensures forall k :: k in deck && k != key ==> r[k] == deck[k]
    ensures p.Missing? ==> r == deck
  {
    if p.Found? then deck[key := p.value] else deck
  }

  /** The deck after update_deck, built as the source does: three conditional overwrites, then the new `updated_at`. */
  function Merged(deck: Dict, data: Json, now: string): Dict
    requires Mergeable(data)
  {
    assert Editable[0] == "name" && Editable[1] == "description" && Editable[2] == "commander_id";
    var d1 := Overwrite(deck, "name", ProbeField(data, "name"));
    var d2 := Overwrite(d1, "description", ProbeField(data, "description"));
    var d3 := Overwrite(d2, "commander_id", ProbeField(data, "commander_id"));
    d3["updated_at" := JStr(now)]
  }

  /** The fields the updated deck has: the old ones, `updated_at`, and the editable fields the request sets. */
  lemma MergedKeys(deck: Dict, data: Json, now: string)
    requires Mergeable(data)
    ensures Merged(deck, data, now).Keys == deck.Keys + {"updated_at"} + (set k | k in Editable && ProbeField(data, k).Found?)
  {
  }

  /** What each field of the updated deck holds. */
  lemma MergedFields(deck: Dict, data: Json, now: string)
    requires Mergeable(data)
    ensures var r := Merged(deck, data, now);
      && r["updated_at"] == JStr(now)
      && (forall k :: k in Editable && ProbeField(data, k).Found? ==> r[k] == ProbeField(data, k).value)
      && (forall k :: k in deck && k !in Editable && k != "updated_at" ==> r[k] == deck[k])
      && (forall k :: k in Editable && ProbeField(data, k).Missing? && k in deck ==> r[k] == deck[k])
  {
  }

  /** An update whose request names no editable field only stamps the time. */
  lemma MergedOnlyStamps(deck: Dict, data: Json, now: string)
    requires forall k :: k in Editable ==> ProbeField(data, k).Missing?
    ensures Merged(deck, data, now) == deck["updated_at" := JStr(now)]
  {
    assert Editable[0] == "name" && Editable[1] == "description" && Editable[2] == "commander_id";
  }

  lemma MergedTwiceKeys(deck: Dict, data: Json, t1: string, t2: string)
    requires Mergeable(data)
    ensures Merged(Merged(deck, data, t1), data, t2).Keys == Merged(deck, data, t2).Keys
  {
    MergedKeys(deck, data, t1);
    MergedKeys(Merged(deck, data, t1), data, t2);
    MergedKeys(deck, data, t2);
  }

  /** Updating twice with the same request is updating once, up to the later time stamp. */
  lemma MergedTwice(deck: Dict, data: Json, t1: string, t2: string)
    requires Mergeable(data)
    ensures Merged(Merged(deck, data, t1), data, t2) == Merged(deck, data, t2)
  {
    var once := Merged(deck, data, t1);
    var a := Merged(once, data, t2);
    var b := Merged(deck, data, t2);
    MergedTwiceKeys(deck, data, t1, t2);
    MergedFields(deck, data, t1);
    MergedFields(once, data, t2);
    MergedFields(deck, data, t2);
    forall k | k in a ensures a[k] == b[k] {
      if k != "updated_at" && !(k in Editable && ProbeField(data, k).Found?) {
        assert k in deck;
      }
    }
  }

  // ----- the endpoints -----

  class DeckStore {
    /** The decks saved in `decks.json`, by id (`decks[str(deck_id)]`). */
    var decks: map<int, Json>

    constructor(saved: map<int, Json>)
      ensures decks == saved
    {
      decks := saved;
    }

    /**
     * POST /api/decks (81-201). `lookup` stands for the card database the
     * legacy path queries, `created` and `updated` for the two clock
     * readings, and `saved` for whether `save_decks` succeeds.
     */
    method CreateDeck(data: Json, lookup: string -> Option<Dict>, created: string, updated: string, saved: bool)
      returns (reply: Reply)
      modifies this
      ensures !data.JObj? ==> reply == Crashed && decks == old(decks)
      ensures data.JObj? && !Truthy(Get(data.fields, "name", JNull)) ==> reply == Refused(400, NameRequired) && decks == old(decks)
      ensures data.JObj? && Truthy(Get(data.fields, "name", JNull)) ==>
        var newId := NextId(old(decks).Keys);
        var built := BuildDeck(data.fields, newId, lookup, created, updated);
        if !built.Ok? then reply == built && decks == old(decks)
        else if !saved then reply == Refused(500, SaveFailed) && decks == old(decks)
        else reply == built && newId !in old(decks) && decks == old(decks)[newId := built.body]
    {
      if !data.JObj? {
        return Crashed;
      }
      var f := data.fields;
      var name := Get(f, "name", JNull);
      if !Truthy(name) {
        return Refused(400, NameRequired);
      }
      var deckId := NextId(decks.Keys);
      var built := BuildDeckLoop(f, deckId, lookup, created, updated);
      if !built.Ok? {
        return built;
      }
      if !saved {
        return Refused(500, SaveFailed);
      }
      decks := decks[deckId := built.body];
      reply := built;
    }

    /** GET /api/decks/<id> (221-245): the stored deck with missing fields filled in; the store is not written. */
    method GetDeck(id: int, created: string, updated: string) returns (reply: Reply)
      ensures id !in decks || !Truthy(decks[id]) ==> reply == Refused(404, NotFound)
      ensures id in decks && Truthy(decks[id]) && !decks[id].JObj? ==> reply == Refused(500, BadDeck)
      ensures id in decks && Truthy(decks[id]) && decks[id].JObj? ==>
        reply == Ok(200, JObj(WithDefaults(decks[id].fields, id, created, updated)))
    {
      var deck := if id in decks then decks[id] else JNull;
      if !Truthy(deck) {
        return Refused(404, NotFound);
      }
      if !deck.JObj? {
        return Refused(500, BadDeck);
      }
      var d := deck.fields;
      if "id" !in d { d := d["id" := JNum(id)]; }
      if "cards" !in d { d := d["cards" := JArr([])]; }
      if "legendary_creatures" !in d { d := d["legendary_creatures" := JArr([])]; }
      if "created_at" !in d { d := d["created_at" := JStr(created)]; }
      if "updated_at" !in d { d := d["updated_at" := JStr(updated)]; }
      reply := Ok(200, JObj(d));
    }

    /** PUT /api/decks/<id> (247-275). */
    method UpdateDeck(id: int, data: Json, now: string, saved: bool) returns (reply: Reply)
      modifies this
      ensures id !in old(decks) || !Truthy(old(decks)[id]) ==> reply == Refused(404, NotFound)
      ensures !reply.Ok? ==> decks == old(decks)
      ensures id in old(decks) && Truthy(old(decks)[id]) && (!old(decks)[id].JObj? || !Mergeable(data)) ==> reply == Crashed
      ensures id in old(decks) && Truthy(old(decks)[id]) && old(decks)[id].JObj? && Mergeable(data) ==>
        if saved then reply == Ok(200, JObj(Merged(old(decks)[id].fields, data, now))) && decks == old(decks)[id := reply.body]
        else reply == Refused(500, SaveFailed)
    {
      var deck := if id in decks then decks[id] else JNull;
      if !Truthy(deck) {
        return Refused(404, NotFound);
      }
      if !deck.JObj? {
        // item assignment on a list, string or number raises
        return Crashed;
      }
      var d := deck.fields;
      var name := ProbeField(data, "name");
      if name.Raises? { return Crashed; }
      if name.Found? { d := d["name" := name.value]; }
      var description := ProbeField(data, "description");
      if description.Raises? { return Crashed; }
      if description.Found? { d := d["description" := description.value]; }
      var commander := ProbeField(data, "commander_id");
      if commander.Raises? { return Crashed; }
      if commander.Found? { d := d["commander_id" := commander.value]; }
      MergeableByProbes(data);
      d := d["updated_at" := JStr(now)];
      if !saved {
        return Refused(500, SaveFailed);
      }
      decks := decks[id := JObj(d)];
      reply := Ok(200, JObj(d));
    }

    /** DELETE /api/decks/<id> (277-296). */
    method DeleteDeck(id: int, saved: bool) returns (reply: Reply)
      modifies this
      ensures id !in old(decks) || !Truthy(old(decks)[id]) ==> reply == Refused(404, NotFound) && decks == old(decks)
      ensures id in old(decks) && Truthy(old(decks)[id]) && !saved ==> reply == Refused(500, DeleteFailed) && decks == old(decks)
      ensures id in old(decks) && Truthy(old(decks)[id]) && saved ==>
        reply == Ok(200, JObj(map["message" := JStr(DeletedMessage)])) && decks == old(decks) - {id}
    {
      var deck := if id in decks then decks[id] else JNull;
      if !Truthy(deck) {
        return Refused(404, NotFound);
      }
      if !saved {
        return Refused(500, DeleteFailed);
      }
      decks := decks - {id};
      reply := Ok(200, JObj(map["message" := JStr(DeletedMessage)]));
    }
  }

  /** The deck create_deck would save, before saving: either path, or why it stops (97-195). */
  function BuildDeck(f: Dict, deckId: int, lookup: string -> Option<Dict>, created: string, updated: string): (r: Reply)
    ensures r.Ok? ==>
      r.status == 201 && r.body.JObj? && "cards" in r.body.fields && "legendary_creatures" in r.body.fields
    ensures r.Ok? ==> r.body.fields["legendary_creatures"].JArr?
    ensures !r.Ok? ==> r == Crashed || r == Refused(400, DeckListRequired)
    ensures r == Refused(400, DeckListRequired) ==> "cards" !in f && !Truthy(Get(f, "deck_list", JArr([])))
  {
    var name := Get(f, "name", JNull);
    var description := Get(f, "description", JStr(""));
    var commander := Get(f, "commander_id", JNull);
    if "cards" in f then
      match DictLoopItems(f["cards"])
      case None => Crashed
      case Some(items) =>
        match LegendariesOf(items)
        case None => Crashed
        case Some(legs) => Ok(201, JObj(NewDeck(deckId, name, description, commander, f["cards"], legs, created, updated)))
    else
      var deckList := Get(f, "deck_list", JArr([]));
      if !Truthy(deckList) then Refused(400, DeckListRequired)
      else
        match DictLoopItems(deckList)
        case None => Crashed
        case Some(entries) =>
          match ProcessedOf(entries, lookup)
          case None => Crashed
          case Some(p) => Ok(201, JObj(NewDeck(deckId, name, description, commander, JArr(p.cards), p.legendaries, created, updated)))
  }

  /** BuildDeck, running the two loops. */
  method BuildDeckLoop(f: Dict, deckId: int, lookup: string -> Option<Dict>, created: string, updated: string)
    returns (r: Reply)
    ensures r == BuildDeck(f, deckId, lookup, created, updated)
  {
    var name := Get(f, "name", JNull);
    var description := Get(f, "description", JStr(""));
    var commander := Get(f, "commander_id", JNull);
    if "cards" in f {
      var items := DictLoopItems(f["cards"]);
      if items.None? {
        return Crashed;
      }
      var legs := ExtractLegendaries(items.value);
      if legs.None? {
        return Crashed;
      }
      return Ok(201, JObj(NewDeck(deckId, name, description, commander, f["cards"], legs.value, created, updated)));
    }
    var deckList := Get(f, "deck_list", JArr([]));
    if !Truthy(deckList) {
      return Refused(400, DeckListRequired);
    }
    var entries := DictLoopItems(deckList);
    if entries.None? {
      return Crashed;
    }
    var p := ProcessDeckList(entries.value, lookup);
    if p.None? {
      return Crashed;
    }
    return Ok(201, JObj(NewDeck(deckId, name, description, commander, JArr(p.value.cards), p.value.legendaries, created, updated)));
  }
}
