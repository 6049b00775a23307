/**
 * The effect generator of the back end (backend/ai_effects_generator.py):
 * it asks a language model for a card's effects, cuts the JSON object out of
 * the reply, falls back to a keyword scan of the reply when that fails, and
 * falls back to fixed rules on the card's type and colours when the call
 * itself fails. The model call, `json.loads` and the clock are parameters.
 */
module AiEffects {
  import opened Common
  import opened JsText
  import opened PyJson

  /**
   * A spell effect the fallbacks write: a DAMAGE effect aimed at a creature
   * or player, or a DRAW of one card.
   */
  datatype SpellEffect = Damage(value: int) | DrawOne

  /** The effects and keywords a fallback finds; its `activated_abilities` list is always empty. */
  datatype Effects = Effects(spellEffects: seq<SpellEffect>, keywords: seq<string>)

  /** The three fixed description texts a fallback writes. */
  datatype Texts = Texts(description: string, strategicValue: string, comboPotential: string)

  /** `self.keywords`, in table order. */
  const Keywords: seq<string> := [
    "FLYING", "FIRST_STRIKE", "DOUBLE_STRIKE", "TRAMPLE", "VIGILANCE",
    "HASTE", "LIFELINK", "DEATHTOUCH", "REACH", "HEXPROOF",
    "INDESTRUCTIBLE", "MENACE", "PROWESS", "FLASH"]

  const AiModel := "gpt-3.5-turbo"

  /** The effect as the dictionary the Python code appends. */
  function EffectJson(e: SpellEffect): Json
  {
    match e
    case Damage(v) =>
      JObj(map["type" := JStr("DAMAGE"), "value" := JNum(v), "targetType" := JStr("creature_or_player"),
               "description" := JStr("Deal " + IntToString(v) + " damage to target creature or player"),
               "requiresTarget" := JBool(true)])
    case DrawOne =>
      JObj(map["type" := JStr("DRAW"), "value" := JNum(1), "description" := JStr("Draw a card"),
               "requiresTarget" := JBool(false)])
  }

  /** The texts of the keyword scan of a reply. */
  const ScanTexts := Texts("AI-generated effects based on card analysis", "Provides utility and board presence",
                           "Synergizes with similar card types")

  /** The texts of the rules on type and colour. */
  const RuleTexts := Texts("Fallback effects based on card colors and type", "Standard utility for its type and cost",
                           "Basic synergies with cards of similar type")

  /** The effects as the list of dictionaries the fallback returns, one per effect, in order. */
  function EffectsJson(effects: seq<SpellEffect>): (r: seq<Json>)
    ensures |r| == |effects|
    ensures forall i :: 0 <= i < |r| ==> r[i] == EffectJson(effects[i])
  {
    if effects == [] then [] else [EffectJson(effects[0])] + EffectsJson(effects[1..])
  }

  /** The strings as a JSON list of strings, in order. */
  function StringsJson(ss: seq<string>): (r: seq<Json>)
    ensures |r| == |ss|
    ensures forall i :: 0 <= i < |r| ==> r[i] == JStr(ss[i])
  {
    if ss == [] then [] else [JStr(ss[0])] + StringsJson(ss[1..])
  }

  /** The dictionary a fallback returns for `e`, with its description texts. */
  function EffectsDict(e: Effects, texts: Texts): (d: Dict)
    ensures d.Keys == {"spell_effects", "keywords", "activated_abilities",
                       "ai_effect_description", "ai_strategic_value", "ai_combo_potential"}
    ensures d["activated_abilities"] == JArr([])
    ensures d["ai_effect_description"] == JStr(texts.description)
  {
    map[
      "spell_effects" := JArr(EffectsJson(e.spellEffects)),
      "keywords" := JArr(StringsJson(e.keywords)),
      "activated_abilities" := JArr([]),
      "ai_effect_description" := JStr(texts.description),
      "ai_strategic_value" := JStr(texts.strategicValue),
      "ai_combo_potential" := JStr(texts.comboPotential)]
  }

  // ----- _parse_ai_response (135-151) -----

  /** `s.find(c)`: the first position of `c`, or -1. */
  function FindChar(s: string, c: char): (r: int)
    ensures -1 <= r < |s|
    ensures r >= 0 ==> s[r] == c && forall k :: 0 <= k < r ==> s[k] != c
    ensures r == -1 ==> forall k :: 0 <= k < |s| ==> s[k] != c
  {
    if s == [] then -1
    else if s[0] == c then 0
    else
      var t := FindChar(s[1..], c);
      if t == -1 then -1 else t + 1
  }

  /** `s.rfind(c)`: the last position of `c`, or -1. */
  function RFindChar(s: string, c: char): (r: int)
    ensures -1 <= r < |s|
    ensures r >= 0 ==> s[r] == c && forall k :: r < k < |s| ==> s[k] != c
    ensures r == -1 ==> forall k :: 0 <= k < |s| ==> s[k] != c
  {
    if s == [] then -1
    else if s[|s| - 1] == c then |s| - 1
    else RFindChar(s[..|s| - 1], c)
  }

  /** The candidate JSON text: from the first '{' through the last '}', when the last comes after the first. */
  function JsonSlice(s: string): Option<string>
  {
    var start := FindChar(s, '{');
    var end := RFindChar(s, '}') + 1;
    if start >= 0 && end > start then Some(s[start..end]) else None
  }

  /** There is a candidate exactly when some '{' comes before some '}'. */
  lemma JsonSliceExists(s: string)
    ensures JsonSlice(s).Some? <==> exists i, j :: 0 <= i < j < |s| && s[i] == '{' && s[j] == '}'
  {
    var start := FindChar(s, '{');
    var last := RFindChar(s, '}');
    if exists i, j :: 0 <= i < j < |s| && s[i] == '{' && s[j] == '}' {
      var i, j :| 0 <= i < j < |s| && s[i] == '{' && s[j] == '}';
      assert start <= i && j <= last;
    }
    if JsonSlice(s).Some? {
      assert 0 <= start < last < |s| && s[start] == '{' && s[last] == '}';
    }
  }

  /** The candidate starts at the first '{', ends with the last '}', and nothing outside it is a brace of that kind. */
  lemma JsonSliceSpan(s: string)
    requires JsonSlice(s).Some?
    ensures var j := JsonSlice(s).value; var a := FindChar(s, '{');
      0 <= a && a + |j| <= |s| && j == s[a..a + |j|] && j[0] == '{' && j[|j| - 1] == '}'
      && (forall k :: 0 <= k < a ==> s[k] != '{')
      && (forall k :: a + |j| <= k < |s| ==> s[k] != '}')
  {
  }

  /**
   * _parse_ai_response: the decoded candidate when there is one and it
   * decodes, otherwise the keyword scan of the whole reply. `loads` stands
   * for `json.loads`; a text that starts with '{' and ends with '}' decodes,
   * if at all, to an object.
   */
  function ParseAiResponse(content: string, loads: string -> Option<Dict>, table: seq<string>): Dict
  {
    var decoded := match JsonSlice(content) case Some(j) => loads(j) case None => None;
    match decoded
    case Some(d) => d
    case None => EffectsDict(AnalyzeText(content, table), ScanTexts)
  }

  /** A reply is decoded exactly when it has a candidate that `loads` accepts; otherwise the scan decides. */
  lemma ParseFallsBack(content: string, loads: string -> Option<Dict>, table: seq<string>)
    ensures (JsonSlice(content).Some? && loads(JsonSlice(content).value).Some?) ==>
      ParseAiResponse(content, loads, table) == loads(JsonSlice(content).value).value
    ensures (JsonSlice(content).None? || loads(JsonSlice(content).value).None?) ==>
      ParseAiResponse(content, loads, table) == EffectsDict(AnalyzeText(content, table), ScanTexts)
  {
  }

  // ----- _analyze_text_response (153-193) -----

  const DamageWords: seq<string> := ["damage", "deal", "burn"]
  const DrawWords: seq<string> := ["draw", "card"]

  /** `any(word in text for word in words)`. */
  predicate AnyWord(text: string, words: seq<string>)
  {
    exists i :: 0 <= i < |words| && Contains(text, words[i])
  }

  /** The two conditional appends: damage first, then draw. */
  function ScanEffects(damage: bool, draw: bool): (r: seq<SpellEffect>)
    ensures Damage(2) in r <==> damage
    ensures DrawOne in r <==> draw
    ensures forall k :: 0 <= k < |r| ==> r[k] == Damage(2) || r[k] == DrawOne
    ensures damage && draw ==> r == [Damage(2), DrawOne]
  {
    (if damage then [Damage(2)] else []) + (if draw then [DrawOne] else [])
  }

  /** The table keywords whose lower-case form occurs in `lower`, in table order. */
  function KeywordsIn(lower: string, table: seq<string>): (r: seq<string>)
    ensures |r| <= |table|
  {
    if table == [] then []
    else
      var k := table[|table| - 1];
      KeywordsIn(lower, table[..|table| - 1]) + (if Contains(lower, ToLower(k)) then [k] else [])
  }

  /** A keyword is found exactly when it is in the table and its lower-case form occurs in the text. */
  lemma {:induction false} KeywordsInMember(lower: string, table: seq<string>, k: string)
    ensures k in KeywordsIn(lower, table) <==> k in table && Contains(lower, ToLower(k))
  {
    if table != [] {
      var init := table[..|table| - 1];
      KeywordsInMember(lower, init, k);
      assert table == init + [table[|table| - 1]];
    }
  }

  /** What the keyword scan returns for `text`, with `table` the generator's keyword list. */
  function AnalyzeText(text: string, table: seq<string>): Effects
  {
    var lower := ToLower(text);
    Effects(ScanEffects(AnyWord(lower, DamageWords), AnyWord(lower, DrawWords)), Take(KeywordsIn(lower, table), 3))
  }

  /** _analyze_text_response, with its conditional appends and its loop over the keyword table. */
  method AnalyzeTextResponse(text: string, table: seq<string>) returns (e: Effects)
    ensures e == AnalyzeText(text, table)
  {
    var textLower := ToLower(text);
    var damage := AnyWord(textLower, DamageWords);
    var draw := AnyWord(textLower, DrawWords);
    var effects: seq<SpellEffect> := [];
    if damage {
      effects := effects + [Damage(2)];
    }
    if draw {
      effects := effects + [DrawOne];
    }
    assert effects == ScanEffects(damage, draw);
    var keywords := ScanKeywords(textLower, table);
    e := Effects(effects, Take(keywords, 3));
  }

  /** The `for keyword in self.keywords` loop. */
  method ScanKeywords(textLower: string, table: seq<string>) returns (keywords: seq<string>)
    ensures keywords == KeywordsIn(textLower, table)
  {
    keywords := [];
    var i := 0;
    while i < |table|
      invariant i <= |table|
      invariant keywords == KeywordsIn(textLower, table[..i])
    {
      var keyword := table[i];
      assert table[..i + 1][..i] == table[..i];
      if Contains(textLower, ToLower(keyword)) {
        keywords := keywords + [keyword];
      }
      i := i + 1;
    }
    assert table[..i] == table;
  }

  /** The scan's effects: a damage effect exactly when a damage word occurs, a draw effect exactly when a draw word occurs. */
  lemma AnalyzeEffects(text: string, table: seq<string>)
    ensures var r := AnalyzeText(text, table).spellEffects; var lower := ToLower(text);
      (Damage(2) in r <==> AnyWord(lower, DamageWords)) && (DrawOne in r <==> AnyWord(lower, DrawWords))
  {
  }

  /** The scan's keywords: at most three, each from the table and occurring in the text, the earliest ones in table order. */
  lemma AnalyzeKeywords(text: string, table: seq<string>)
    ensures var r := AnalyzeText(text, table).keywords; var all := KeywordsIn(ToLower(text), table);
      |r| <= 3
      && (forall k :: k in r ==> k in table && Contains(ToLower(text), ToLower(k)))
      && |r| == Min(3, |all|)
      && r == all[..|r|]
  {
    var all := KeywordsIn(ToLower(text), table);
    var r := AnalyzeText(text, table).keywords;
    forall k | k in r ensures k in table && Contains(ToLower(text), ToLower(k)) {
      var t :| 0 <= t < |r| && r[t] == k;
      assert all[t] == k;
      KeywordsInMember(ToLower(text), table, k);
    }
  }

  /** Lower-casing neither creates nor removes an underscore. */
  lemma UnderscoreSurvivesLower(s: string)
    ensures '_' in ToLower(s) <==> '_' in s
  {
    var l := ToLower(s);
    if '_' in l {
      var t :| 0 <= t < |l| && l[t] == '_';
      assert s[t] == '_';
    }
    if '_' in s {
      var t :| 0 <= t < |s| && s[t] == '_';
      assert l[t] == '_';
    }
  }

  /**
   * A keyword spelled with an underscore is found only in a text containing
   * one: a reply that writes "first strike" with a space never yields
   * FIRST_STRIKE.
   */
  lemma UnderscoreKeywordNeedsUnderscore(text: string, table: seq<string>, k: string)
    requires '_' in k && '_' !in text
    ensures k !in AnalyzeText(text, table).keywords
  {
    UnderscoreSurvivesLower(text);
    UnderscoreSurvivesLower(k);
    AnalyzeKeywords(text, table);
    if Contains(ToLower(text), ToLower(k)) {
      ContainsChar(ToLower(text), ToLower(k), '_');
    }
  }

  /** The generator's two strike keywords are spelled with an underscore. */
  lemma StrikeKeywordsHaveUnderscore()
    ensures "FIRST_STRIKE" in Keywords && '_' in "FIRST_STRIKE"
    ensures "DOUBLE_STRIKE" in Keywords && '_' in "DOUBLE_STRIKE"
  {
    assert Keywords[1] == "FIRST_STRIKE" && "FIRST_STRIKE"[5] == '_';
    assert Keywords[2] == "DOUBLE_STRIKE" && "DOUBLE_STRIKE"[6] == '_';
  }

  // ----- _get_fallback_effects (195-235) -----

  /**
   * The card fields the fallback reads, with the `get` defaults. `colors` is
   * None when `[c.lower() for c in colors]` raises: the value is not
   * iterable, or it holds something other than a string. `cmc` is None when
   * `min(cmc, 4)` cannot compare it with 4.
   */
  datatype CardFacts = CardFacts(typeLine: string, colors: Option<set<string>>, cmc: Option<int>)

  /** The strings a `for c in colors` loop visits: list items, one-character strings of a string, the keys of a dict. */
  function ColorsOf(j: Json): Option<set<string>>
  {
    match j
    case JArr(items) =>
      if forall i :: 0 <= i < |items| ==> items[i].JStr? then Some(set i | 0 <= i < |items| :: items[i].s) else None
    case JStr(s) => Some(set i | 0 <= i < |s| :: [s[i]])
    case JObj(fields) => Some(fields.Keys)
    case _ => None
  }

  /** `min(cmc, 4)` needs a number; Python's booleans count as 0 and 1. */
  function CmcOf(j: Json): Option<int>
  {
    match j
    case JNum(n) => Some(n)
    case JBool(b) => Some(if b then 1 else 0)
    case _ => None
  }

  /** The facts of a card, or None when `card_data.get('type_line', '').lower()` raises. */
  function FactsOf(card: Dict): (r: Option<CardFacts>)
    ensures r.None? <==> "type_line" in card && !card["type_line"].JStr?
    ensures r.Some? ==> (r.value.colors == ColorsOf(Get(card, "colors", JArr([])))
                         && r.value.cmc == CmcOf(Get(card, "cmc", JNum(0))))
  {
    match Get(card, "type_line", JStr(""))
    case JStr(t) => Some(CardFacts(t, ColorsOf(Get(card, "colors", JArr([]))), CmcOf(Get(card, "cmc", JNum(0)))))
    case _ => None
  }

  /** A list of strings has a colour exactly when one of its items lower-cases to it. */
  lemma ColorsOfList(items: seq<Json>, name: string)
    requires forall i :: 0 <= i < |items| ==> items[i].JStr?
    ensures ColorsOf(JArr(items)).Some?
    ensures HasColor(ColorsOf(JArr(items)).value, name) <==> exists i :: 0 <= i < |items| && ToLower(items[i].s) == name
  {
    var cs := ColorsOf(JArr(items)).value;
    if HasColor(cs, name) {
      var c :| c in cs && ToLower(c) == name;
      var i :| 0 <= i < |items| && items[i].s == c;
    }
    if exists i :: 0 <= i < |items| && ToLower(items[i].s) == name {
      var i :| 0 <= i < |items| && ToLower(items[i].s) == name;
      assert items[i].s in cs;
    }
  }

  /** `name in [c.lower() for c in colors]`. */
  predicate HasColor(colors: set<string>, name: string)
  {
    exists c :: c in colors && ToLower(c) == name
  }

  /** The colour each creature keyword stands for, in the order the fallback tests them. */
  const ColorKeywords: seq<(string, string)> := [
    ("red", "HASTE"), ("white", "VIGILANCE"), ("blue", "FLYING"), ("black", "DEATHTOUCH"), ("green", "TRAMPLE")]

  /** The keywords of the table rows whose colour the card has, in table order. */
  function TableKeywords(table: seq<(string, string)>, colors: set<string>): seq<string>
  {
    if table == [] then []
    else
      var last := table[|table| - 1];
      TableKeywords(table[..|table| - 1], colors) + (if HasColor(colors, last.0) then [last.1] else [])
  }

  lemma {:induction false} TableKeywordsIff(table: seq<(string, string)>, colors: set<string>, k: string)
    ensures k in TableKeywords(table, colors) <==> exists i :: 0 <= i < |table| && table[i].1 == k && HasColor(colors, table[i].0)
  {
    if table != [] {
      var init := table[..|table| - 1];
      TableKeywordsIff(init, colors, k);
      if exists i :: 0 <= i < |init| && init[i].1 == k && HasColor(colors, init[i].0) {
        var i :| 0 <= i < |init| && init[i].1 == k && HasColor(colors, init[i].0);
        assert table[i] == init[i];
      }
      if exists i :: 0 <= i < |table| && table[i].1 == k && HasColor(colors, table[i].0) {
        var i :| 0 <= i < |table| && table[i].1 == k && HasColor(colors, table[i].0);
        if i < |init| {
          assert init[i] == table[i];
        }
      }
    }
  }

  function Min4(cmc: int): int { if cmc < 4 then cmc else 4 }

  /** The creature keywords of the fallback, checked colour by colour as the source does. */
  function CreatureKeywords(colors: set<string>): seq<string>
  {
    (if HasColor(colors, "red") then ["HASTE"] else [])
    + (if HasColor(colors, "white") then ["VIGILANCE"] else [])
    + (if HasColor(colors, "blue") then ["FLYING"] else [])
    + (if HasColor(colors, "black") then ["DEATHTOUCH"] else [])
    + (if HasColor(colors, "green") then ["TRAMPLE"] else [])
  }

  lemma TableKeywordsSnoc(init: seq<(string, string)>, row: (string, string), colors: set<string>)
    ensures TableKeywords(init + [row], colors) == TableKeywords(init, colors) + (if HasColor(colors, row.0) then [row.1] else [])
  {
    assert (init + [row])[..|init|] == init;
  }

  /** The colour tests agree with the colour table. */
  lemma CreatureKeywordsTable(colors: set<string>)
    ensures CreatureKeywords(colors) == TableKeywords(ColorKeywords, colors)
  {
    var r1, r2, r3, r4, r5 := ("red", "HASTE"), ("white", "VIGILANCE"), ("blue", "FLYING"), ("black", "DEATHTOUCH"), ("green", "TRAMPLE");
    var t1, t2, t3, t4 := [r1], [r1, r2], [r1, r2, r3], [r1, r2, r3, r4];
    assert t1 == [] + [r1] && t2 == t1 + [r2] && t3 == t2 + [r3] && t4 == t3 + [r4] && ColorKeywords == t4 + [r5];
    TableKeywordsSnoc([], r1, colors);
    assert TableKeywords(t1, colors) == if HasColor(colors, "red") then ["HASTE"] else [];
    TableKeywordsSnoc(t1, r2, colors);
    TableKeywordsSnoc(t2, r3, colors);
    TableKeywordsSnoc(t3, r4, colors);
    TableKeywordsSnoc(t4, r5, colors);
  }

  /**
   * _get_fallback_effects, or None when it raises: a creature, instant or
   * sorcery reads its colours, and a red instant or sorcery reads its cmc.
   */
  function FallbackEffects(card: CardFacts): (e: Option<Effects>)
    ensures var t := ToLower(card.typeLine); var creature := Contains(t, "creature");
      var spell := Contains(t, "instant") || Contains(t, "sorcery");
      (e.None? <==> ((creature || spell) && card.colors.None?)
                    || (spell && card.colors.Some? && HasColor(card.colors.value, "red") && card.cmc.None?))
      && (e.Some? && !creature ==> e.value.keywords == [])
      && (e.Some? ==> (e.value.spellEffects != [] <==> spell && card.colors.Some? && HasColor(card.colors.value, "red")))
      && (e.Some? && e.value.spellEffects != [] ==> card.cmc.Some? && e.value.spellEffects == [Damage(Min4(card.cmc.value))])
    ensures e.Some? ==> forall k :: 0 <= k < |e.value.spellEffects| ==>
      e.value.spellEffects[k].Damage? && e.value.spellEffects[k].value <= 4
  {
    var typeLine := ToLower(card.typeLine);
    var creature := Contains(typeLine, "creature");
    var spell := Contains(typeLine, "instant") || Contains(typeLine, "sorcery");
    if (creature || spell) && card.colors.None? then None
    else
      var keywords := if creature then CreatureKeywords(card.colors.value) else [];
      var red := spell && HasColor(card.colors.value, "red");
      if red && card.cmc.None? then None
      else Some(Effects(if red then [Damage(Min4(card.cmc.value))] else [], keywords))
  }

  /** A creature gets each colour keyword exactly when it has that colour; other cards get none. */
  lemma FallbackKeyword(card: CardFacts, i: nat)
    requires i < |ColorKeywords|
    ensures var e := FallbackEffects(card);
      e.Some? ==> (ColorKeywords[i].1 in e.value.keywords <==>
        Contains(ToLower(card.typeLine), "creature") && HasColor(card.colors.value, ColorKeywords[i].0))
  {
    var e := FallbackEffects(card);
    if e.Some? && Contains(ToLower(card.typeLine), "creature") {
      var k := ColorKeywords[i].1;
      CreatureKeywordsTable(card.colors.value);
      TableKeywordsIff(ColorKeywords, card.colors.value, k);
      forall j | 0 <= j < |ColorKeywords| && ColorKeywords[j].1 == k ensures j == i {
        ColorKeywordsDistinct(i, j);
      }
    }
  }

  /** No two rows of the colour table grant the same keyword. */
  lemma ColorKeywordsDistinct(i: nat, j: nat)
    requires i < |ColorKeywords| && j < |ColorKeywords| && ColorKeywords[i].1 == ColorKeywords[j].1
    ensures i == j
  {
  }

  // ----- generate_card_effects (34-71) -----

  const Metadata: set<string> := {"generation_time", "ai_model", "raw_response"}

  /** The three entries generate_card_effects adds to a parsed reply. */
  function WithMetadata(parsed: Dict, content: string, generationTime: Json): (d: Dict)
    ensures d.Keys == parsed.Keys + Metadata
    ensures d["generation_time"] == generationTime && d["ai_model"] == JStr(AiModel) && d["raw_response"] == JStr(content)
    ensures forall k :: k in parsed && k !in Metadata ==> d[k] == parsed[k]
  {
    parsed["generation_time" := generationTime]["ai_model" := JStr(AiModel)]["raw_response" := JStr(content)]
  }

  /**
   * Whether `_create_effect_prompt` can build its text: `', '.join(colors)`
   * runs only on truthy colours and needs them to be strings.
   */
  predicate PromptBuilds(card: Dict)
  {
    var colors := Get(card, "colors", JArr([]));
    !Truthy(colors) || ColorsOf(colors).Some?
  }

  /**
   * generate_card_effects, or None when an exception escapes it. `reply` is
   * the stripped text of the model's answer, or None when the call raised;
   * the call is made only once the prompt is built. `generationTime` is the
   * elapsed time the clock reports; `table` is the generator's keyword list.
   * An exception in the `try` block leads to the fallback, whose own
   * exceptions escape.
   */
  function GenerateCardEffects(card: Dict, reply: Option<string>, loads: string -> Option<Dict>, table: seq<string>,
                               generationTime: Json): Option<Dict>
  {
    if PromptBuilds(card) && reply.Some? then
      Some(WithMetadata(ParseAiResponse(reply.value, loads, table), reply.value, generationTime))
    else
      match FactsOf(card)
      case None => None
      case Some(facts) =>
        match FallbackEffects(facts)
        case None => None
        case Some(e) => Some(EffectsDict(e, RuleTexts))
  }

  /**
   * An answered call always records the model, the elapsed time and the raw
   * reply. Otherwise the fallback decides: it raises exactly when the type
   * line is not a string, or when the colours or the cmc it reads raise, and
   * it otherwise yields the six fallback entries and no metadata.
   */
  lemma GenerateCardEffectsKeys(card: Dict, reply: Option<string>, loads: string -> Option<Dict>, table: seq<string>,
                                generationTime: Json)
    ensures var d := GenerateCardEffects(card, reply, loads, table, generationTime);
      var answered := PromptBuilds(card) && reply.Some?;
      (answered ==> d.Some? && Metadata <= d.value.Keys && d.value["ai_model"] == JStr(AiModel)
                    && d.value["raw_response"] == JStr(reply.value))
      && (!answered ==> (d.None? <==> FactsOf(card).None? || FallbackEffects(FactsOf(card).value).None?))
      && (!answered && d.Some? ==> "ai_model" !in d.value && d.value["activated_abilities"] == JArr([])
                                   && d.value == EffectsDict(FallbackEffects(FactsOf(card).value).value, RuleTexts))
  {
  }

  /**
   * A creature whose colours are None still gets its prompt, but when the
   * call fails the fallback raises and the exception leaves
   * generate_card_effects.
   */
  lemma NullColorsRaise(loads: string -> Option<Dict>, table: seq<string>, generationTime: Json)
    ensures GenerateCardEffects(map["type_line" := JStr("Creature"), "colors" := JNull], None, loads, table, generationTime).None?
  {
    var card := map["type_line" := JStr("Creature"), "colors" := JNull];
    assert Contains(ToLower("Creature"), "creature") by {
      assert ToLower("Creature") == "creature";
      assert StartsWith("creature", "creature");
    }
  }

  // ----- generate_batch_effects (237-264) -----

  const AiKeys: set<string> := {"ai_generated_effects", "ai_generated_abilities", "ai_generated_keywords",
                                 "ai_effect_description", "ai_strategic_value", "ai_combo_potential"}

  /** `{**card}` updated with the six `ai_*` entries read from the effects, `[]` or '' when missing. */
  function Enhanced(card: Dict, effects: Dict): (r: Dict)
    ensures r.Keys == card.Keys + AiKeys
    ensures forall k :: k in card && k !in AiKeys ==> r[k] == card[k]
    ensures r["ai_generated_keywords"] == Get(effects, "keywords", JArr([]))
    ensures r["ai_generated_effects"] == Get(effects, "spell_effects", JArr([]))
  {
    card["ai_generated_effects" := Get(effects, "spell_effects", JArr([]))]
        ["ai_generated_abilities" := Get(effects, "activated_abilities", JArr([]))]
        ["ai_generated_keywords" := Get(effects, "keywords", JArr([]))]
        ["ai_effect_description" := Get(effects, "ai_effect_description", JStr(""))]
        ["ai_strategic_value" := Get(effects, "ai_strategic_value", JStr(""))]
        ["ai_combo_potential" := Get(effects, "ai_combo_potential", JStr(""))]
  }

  /**
   * The enhanced cards, one per input card, in order, or None when a
   * generate_card_effects call raises, which ends the loop and the call.
   */
  function EnhanceAll(cards: seq<Dict>, generate: Dict -> Option<Dict>): (r: Option<seq<Dict>>)
    ensures r.Some? ==> |r.value| == |cards|
  {
    if cards == [] then Some([])
    else
      match EnhanceAll(cards[..|cards| - 1], generate)
      case None => None
      case Some(front) =>
        match generate(cards[|cards| - 1])
        case None => None
        case Some(effects) => Some(front + [Enhanced(cards[|cards| - 1], effects)])
  }

  /** The batch raises exactly when generating the effects of one of its cards raises. */
  lemma {:induction false} EnhanceAllRaises(cards: seq<Dict>, generate: Dict -> Option<Dict>)
    ensures EnhanceAll(cards, generate).None? <==> exists i :: 0 <= i < |cards| && generate(cards[i]).None?
  {
    if cards != [] {
      var front := cards[..|cards| - 1];
      EnhanceAllRaises(front, generate);
      if exists i :: 0 <= i < |front| && generate(front[i]).None? {
        var i :| 0 <= i < |front| && generate(front[i]).None?;
        assert generate(cards[i]).None?;
      }
      if exists i :: 0 <= i < |cards| && generate(cards[i]).None? {
        var i :| 0 <= i < |cards| && generate(cards[i]).None?;
        if i < |front| {
          assert generate(front[i]).None?;
        }
      }
    }
  }

  /** Each result is its own card enhanced with that card's generated effects. */
  lemma {:induction false} EnhanceAllAt(cards: seq<Dict>, generate: Dict -> Option<Dict>, i: nat)
    requires i < |cards|
    ensures EnhanceAll(cards, generate).Some? ==>
      generate(cards[i]).Some? && EnhanceAll(cards, generate).value[i] == Enhanced(cards[i], generate(cards[i]).value)
  {
    if EnhanceAll(cards, generate).Some? && i < |cards| - 1 {
      EnhanceAllAt(cards[..|cards| - 1], generate, i);
    }
  }

  /** One more card generated without an exception extends the batch by its enhanced card. */
  lemma EnhanceAllStep(cards: seq<Dict>, generate: Dict -> Option<Dict>, i: nat, done: seq<Dict>)
    requires i < |cards| && EnhanceAll(cards[..i], generate) == Some(done) && generate(cards[i]).Some?
    ensures EnhanceAll(cards[..i + 1], generate) == Some(done + [Enhanced(cards[i], generate(cards[i]).value)])
  {
    assert cards[..i + 1][..i] == cards[..i];
  }

  /**
   * generate_batch_effects: `generate` stands for one generate_card_effects
   * call; an exception from it leaves the loop.
   */
  method GenerateBatchEffects(cards: seq<Dict>, generate: Dict -> Option<Dict>) returns (results: Option<seq<Dict>>)
    ensures results == EnhanceAll(cards, generate)
  {
    var done: seq<Dict> := [];
    var i := 0;
    while i < |cards|
      invariant i <= |cards|
      invariant EnhanceAll(cards[..i], generate) == Some(done)
    {
      var card := cards[i];
      var effects := generate(card);
      if effects.None? {
        EnhanceAllRaises(cards, generate);
        return None;
      }
      EnhanceAllStep(cards, generate, i, done);
      var enhancedCard := Enhanced(card, effects.value);
      done := done + [enhancedCard];
      i := i + 1;
    }
    assert cards[..i] == cards;
    results := Some(done);
  }
}
