/**
 * Card classification and keyword tests of the engine
 * (frontend/src/contexts/DeckProvider.tsx:330-417, 1511-1515): substring tests on
 * the lower-cased type line and rules text, and `parseInt(x) || 0` for power
 * and toughness.
 */
module CardRules {
  import opened Common
  import opened JsText
  import opened DeckTypes
  import opened Players

  /** `card.type?.toLowerCase().includes(word) || false`. */
  predicate TypeIncludes(c: Card, word: string)
  {
    c.typeLine.Some? && Contains(ToLower(c.typeLine.value), word)
  }

  predicate IsLand(c: Card) { TypeIncludes(c, "land") }
  predicate IsCreature(c: Card) { TypeIncludes(c, "creature") }
  predicate IsEnchantment(c: Card) { TypeIncludes(c, "enchantment") }
  predicate IsArtifact(c: Card) { TypeIncludes(c, "artifact") }
  predicate IsInstant(c: Card) { TypeIncludes(c, "instant") }
  predicate IsSorcery(c: Card) { TypeIncludes(c, "sorcery") }

  predicate IsPermanent(c: Card)
  {
    IsLand(c) || IsCreature(c) || IsEnchantment(c) || IsArtifact(c)
  }

  /**
   * `hasKeyword`: a listed keyword equal to `keyword` ignoring case, or the
   * lower-cased rules text containing the lower-cased keyword.
   */
  predicate HasKeyword(c: Card, keyword: string)
  {
    (c.keywords.Some? && exists k :: k in c.keywords.value && ToLower(k) == ToLower(keyword))
    || (c.text.Some? && Contains(ToLower(c.text.value), ToLower(keyword)))
  }

  predicate HasVigilance(c: Card) { HasKeyword(c, "vigilance") }
  predicate HasHaste(c: Card) { HasKeyword(c, "haste") }
  predicate HasLifelink(c: Card) { HasKeyword(c, "lifelink") }
  predicate HasDeathtouch(c: Card) { HasKeyword(c, "deathtouch") }
  predicate HasFirstStrike(c: Card) { HasKeyword(c, "first_strike") || HasKeyword(c, "first strike") }

  /** The combat pass reads double strike from the rules text only (DeckProvider.tsx:1534). */
  predicate HasDoubleStrikeText(c: Card)
  {
    c.text.Some? && Contains(ToLower(c.text.value), "double strike")
  }

  /** `hasFirstStrikeAbility`: the rules text only, never the keyword list. */
  predicate HasFirstStrikeAbility(c: Card)
  {
    c.text.Some? && Contains(ToLower(c.text.value), "first strike")
  }

  /** `creature.keywords?.includes('indestructible')`: exact, case-sensitive, list only. */
  predicate ListsIndestructible(c: Card)
  {
    c.keywords.Some? && "indestructible" in c.keywords.value
  }

  /** `hasSummoningSickness`. */
  predicate HasSummoningSickness(x: Inst)
  {
    !HasHaste(x.card) && x.enteredThisTurn
  }

  /** `parseInt(creature.toughness || '0') || 0`. */
  function Toughness(c: Card): int
  {
    ParseIntOrZero(OrElse(c.toughness, "0"))
  }

  /** `parseInt(creature.power || '0') || 0`. */
  function Power(c: Card): int
  {
    ParseIntOrZero(OrElse(c.power, "0"))
  }

  lemma LowerCharIdempotent(c: char)
    ensures LowerChar(LowerChar(c)) == LowerChar(c)
  {
  }

  lemma ToLowerIdempotent(s: string)
    ensures ToLower(ToLower(s)) == ToLower(s)
  {
    forall i | 0 <= i < |s| ensures ToLower(ToLower(s))[i] == ToLower(s)[i] {
      LowerCharIdempotent(s[i]);
    }
  }

  /** Keyword tests ignore the case of the keyword asked for. */
  lemma HasKeywordIgnoresCase(c: Card, keyword: string)
    ensures HasKeyword(c, keyword) == HasKeyword(c, ToLower(keyword))
  {
    ToLowerIdempotent(keyword);
  }

  /** A keyword on the list is found whatever the case it is written in. */
  lemma ListedKeywordFound(c: Card, k: string, keyword: string)
    requires c.keywords.Some? && k in c.keywords.value && ToLower(k) == ToLower(keyword)
    ensures HasKeyword(c, keyword)
  {
  }

  /** Mentioning the keyword anywhere in the rules text is enough too. */
  lemma TextMentionFound(c: Card, keyword: string, at: nat)
    requires c.text.Some?
    requires at + |keyword| <= |c.text.value|
    requires ToLower(c.text.value)[at..at + |keyword|] == ToLower(keyword)
    ensures HasKeyword(c, keyword)
  {
    ContainsAt(ToLower(c.text.value), ToLower(keyword), at);
  }

  /** A card with no type line is no kind of card at all. */
  lemma UntypedCardHasNoKind(c: Card)
    requires c.typeLine.None?
    ensures !IsPermanent(c) && !IsInstant(c) && !IsSorcery(c)
  {
  }

  /** Haste keeps a creature from being summoning sick; otherwise sickness is `enteredThisTurn`. */
  lemma SummoningSickness(x: Inst)
    ensures HasHaste(x.card) ==> !HasSummoningSickness(x)
    ensures !HasHaste(x.card) ==> (HasSummoningSickness(x) <==> x.enteredThisTurn)
  {
  }

  /** A missing or unreadable toughness counts as 0; a numeral counts as its value. */
  lemma ToughnessOfNumeral(c: Card, n: int)
    requires c.toughness == Some(IntToString(n))
    ensures Toughness(c) == n
  {
    ParseIntOfIntToString(n);
  }

  lemma PowerOfNumeral(c: Card, n: int)
    requires c.power == Some(IntToString(n))
    ensures Power(c) == n
  {
    ParseIntOfIntToString(n);
  }

  lemma MissingPowerIsZero(c: Card)
    requires c.power.None? && c.toughness.None?
    ensures Power(c) == 0 && Toughness(c) == 0
  {
    assert ParseUnsigned("0") == Some(0);
    TrimStartUnchanged("0");
    ParseIntUnsigned("0");
  }
}
