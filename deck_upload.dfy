/**
 * The deck-list reader of the upload form
 * (frontend/src/components/DeckUpload.tsx): `parseDeckList` (45-72) turns
 * the text of an uploaded file into (quantity, name) entries, and
 * `processCardsForData` (130-143) collects the legendary creatures among
 * the cards Scryfall found, each id once.
 */
module DeckUpload {
  import opened Common
  import opened JsText
  import opened MtgApi

  datatype ListEntry = ListEntry(quantity: nat, name: string)

  /** A string with no whitespace at either end, as `trim()` leaves it. */
  predicate Trimmed(t: string)
  {
    t == [] || (!IsSpace(t[0]) && !IsSpace(t[|t| - 1]))
  }

  lemma TrimIsTrimmed(s: string)
    ensures Trimmed(Trim(s))
  {
    var a := TrimStart(s);
    var t := TrimEnd(a);
    if t != [] {
      assert t[0] == a[0];
    }
  }

  lemma TrimmedTrim(t: string)
    requires Trimmed(t)
    ensures Trim(t) == t
  {
    assert TrimStart(t) == t;
  }

  predicate NoLineTerminator(s: string)
  {
    forall i :: 0 <= i < |s| ==> !IsLineTerminator(s[i])
  }

  /**
   * `/^(\d+)\s+(.+)$/` on a trimmed line: the leading digits, at least one
   * whitespace character, and a non-empty rest containing no line
   * terminator. The whitespace run is as long as it can be, so the second
   * group starts at the first non-whitespace character after the digits.
   */
  function LineMatch(t: string): (r: Option<(string, string)>)
    ensures r.Some? ==> r.value.0 != "" && AllDigits(r.value.0) && StartsWith(t, r.value.0)
  {
    var d := LeadingDigits(t);
    if |d| == 0 || |d| == |t| || !IsSpace(t[|d|]) then None
    else
      var rest := TrimStart(t[|d|..]);
      if rest == [] || !NoLineTerminator(rest) then None else Some((d, rest))
  }

  /** The regular expression as an existence claim: some split into digits, spaces, and a rest without line terminators. */
  ghost predicate RegexMatches(t: string)
  {
    exists k: nat, m: nat :: 0 < k < m < |t| && AllDigits(t[..k]) && AllSpace(t[k..m]) && NoLineTerminator(t[m..])
  }

  /** On a trimmed line, `LineMatch` succeeds exactly when the regular expression matches. */
  lemma LineMatchExact(t: string)
    requires Trimmed(t)
    ensures LineMatch(t).Some? <==> RegexMatches(t)
  {
    if LineMatch(t).Some? {
      LineMatchSound(t);
    }
    if RegexMatches(t) {
      LineMatchComplete(t);
    }
  }

  lemma LineMatchSound(t: string)
    requires LineMatch(t).Some?
    ensures RegexMatches(t)
  {
    var d := LeadingDigits(t);
    {
      var rest := TrimStart(t[|d|..]);
      var k := |d|;
      var m := |t| - |rest|;
      assert t[..k] == d;
      assert t[k..m] == t[|d|..][..|t[|d|..]| - |rest|];
      assert t[m..] == rest;
      assert AllSpace(t[k..m]);
      assert 0 < k < m < |t|;
    }
  }

  lemma LineMatchComplete(t: string)
    requires Trimmed(t) && RegexMatches(t)
    ensures LineMatch(t).Some?
  {
    var k: nat, m: nat :| 0 < k < m < |t| && AllDigits(t[..k]) && AllSpace(t[k..m]) && NoLineTerminator(t[m..]);
    MatchSplit(t, k, m);
  }

  /** With the digits ending at `k` and the spaces at `m`, the function finds the same split. */
  lemma MatchSplit(t: string, k: nat, m: nat)
    requires Trimmed(t) && 0 < k < m < |t|
    requires AllDigits(t[..k]) && AllSpace(t[k..m]) && NoLineTerminator(t[m..])
    ensures LineMatch(t).Some?
  {
    assert t[k..m][0] == t[k];
    LeadingDigitsStop(t, k);
    var tail := t[k..];
    assert tail[..m - k] == t[k..m];
    TrimStartSkips(tail, m - k);
    var rest := TrimStart(tail);
    RestNotEmpty(t, k);
    assert rest == t[|t| - |rest|..];
    SuffixNoTerminator(t, m, |t| - |rest|);
  }

  /** A trimmed line never trims to nothing from a position inside it. */
  lemma RestNotEmpty(t: string, k: nat)
    requires Trimmed(t) && k < |t|
    ensures TrimStart(t[k..]) != []
  {
    var tail := t[k..];
    assert tail[..|tail|] == tail;
    assert !IsSpace(tail[|tail| - 1]);
  }

  lemma SuffixNoTerminator(t: string, m: nat, p: nat)
    requires m <= p <= |t| && NoLineTerminator(t[m..])
    ensures NoLineTerminator(t[p..])
  {
    forall i | 0 <= i < |t| - p ensures !IsLineTerminator(t[p..][i]) {
      assert t[p..][i] == t[m..][p - m + i];
    }
  }

  /** The leading digits stop at the first non-digit. */
  lemma {:induction false} LeadingDigitsStop(s: string, k: nat)
    requires k < |s| && AllDigits(s[..k]) && !IsDigit(s[k])
    ensures |LeadingDigits(s)| == k
    decreases k
  {
    if k > 0 {
      assert s[..k][0] == s[0];
      assert s[1..][..k - 1] == s[..k][1..];
      LeadingDigitsStop(s[1..], k - 1);
    }
  }

  /** `trimStart` strips at least a leading run of whitespace. */
  lemma {:induction false} TrimStartSkips(s: string, p: nat)
    requires p <= |s| && AllSpace(s[..p])
    ensures |TrimStart(s)| <= |s| - p
    decreases p
  {
    if p > 0 {
      assert s[..p][0] == s[0];
      assert s[1..][..p - 1] == s[..p][1..];
      TrimStartSkips(s[1..], p - 1);
    }
  }

  /** One trimmed line: a counted entry when the pattern matches, otherwise one copy of the whole line. */
  function ParseLine(t: string): ListEntry
  {
    match LineMatch(t)
    case Some(m) => ListEntry(Decimal(m.0), Trim(m.1))
    case None => ListEntry(1, t)
  }

  /** Every entry of a non-blank trimmed line has a non-empty name; a counted one names the rest of the line. */
  lemma ParseLineShape(t: string)
    requires Trimmed(t) && t != []
    ensures ParseLine(t).name != ""
    ensures LineMatch(t).Some? ==>
      ParseLine(t) == ListEntry(Decimal(LineMatch(t).value.0), LineMatch(t).value.1)
    ensures LineMatch(t).None? ==> ParseLine(t) == ListEntry(1, t)
  {
    match LineMatch(t)
    case None =>
    case Some((d, rest)) =>
      var tail := t[|d|..];
      assert rest == tail[|tail| - |rest|..];
      assert rest[|rest| - 1] == t[|t| - 1];
      assert Trimmed(rest);
      TrimmedTrim(rest);
  }

  lemma ParseLineNamed(l: string)
    requires Trim(l) != ""
    ensures ParseLine(Trim(l)).name != ""
  {
    TrimIsTrimmed(l);
    ParseLineShape(Trim(l));
  }

  /** A count, one space and a name read back as that count of that name. */
  lemma CountedLine(d: string, name: string)
    requires d != [] && AllDigits(d)
    requires name != [] && Trimmed(name) && NoLineTerminator(name)
    ensures ParseLine(d + " " + name) == ListEntry(Decimal(d), name)
  {
    CountedMatch(d, name);
    TrimmedTrim(name);
  }

  lemma CountedMatch(d: string, name: string)
    requires d != [] && AllDigits(d)
    requires name != [] && Trimmed(name) && NoLineTerminator(name)
    ensures LineMatch(d + " " + name) == Some((d, name))
  {
    var t := d + " " + name;
    CountedDigits(d, name);
    CountedRest(d, name);
    assert t[|d|] == ' ';
  }

  lemma CountedDigits(d: string, name: string)
    requires AllDigits(d) && name != [] && Trimmed(name)
    ensures LeadingDigits(d + " " + name) == d
  {
    var t := d + " " + name;
    assert t[..|d|] == d;
    LeadingDigitsStop(t, |d|);
  }

  lemma CountedRest(d: string, name: string)
    requires name != [] && Trimmed(name)
    ensures TrimStart((d + " " + name)[|d|..]) == name
  {
    var tail := (d + " " + name)[|d|..];
    assert tail == " " + name;
    assert tail[1..] == name;
    assert TrimStart(name) == name;
  }

  /** A line that does not start with a digit is one copy of the whole line. */
  lemma UncountedLine(t: string)
    requires t != [] && !IsDigit(t[0])
    ensures ParseLine(t) == ListEntry(1, t)
  {
    LeadingDigitsStop(t, 0);
  }

  /** A bare number has no name after it, so it is one copy of a card named by the number. */
  lemma BareNumber(t: string)
    requires AllDigits(t)
    ensures ParseLine(t) == ListEntry(1, t)
  {
    assert |LeadingDigits(t)| == |t|;
  }

  /** `content.split('\n').filter(line => line.trim())`. */
  function Lines(content: string): seq<string>
  {
    Filter(Split(content, '\n'), (l: string) => Trim(l) != "")
  }

  /** The entries of `lines`, each line trimmed and parsed, in order. */
  function ParseAll(lines: seq<string>): (r: seq<ListEntry>)
    ensures |r| == |lines|
  {
    if lines == [] then [] else ParseAll(lines[..|lines| - 1]) + [ParseLine(Trim(lines[|lines| - 1]))]
  }

  /** The entry at each position comes from the line at that position. */
  lemma {:induction false} ParseAllAt(lines: seq<string>, k: nat)
    requires k < |lines|
    ensures ParseAll(lines)[k] == ParseLine(Trim(lines[k]))
  {
    if k < |lines| - 1 {
      ParseAllAt(lines[..|lines| - 1], k);
    }
  }

  /** Every entry of a deck list names a card: blank lines never reach the parser. */
  lemma DeckListNamed(content: string, k: nat)
    requires k < |Lines(content)|
    ensures ParseAll(Lines(content))[k].name != ""
  {
    var lines := Lines(content);
    assert lines[k] in lines;
    ParseAllAt(lines, k);
    ParseLineNamed(lines[k]);
  }

  /** parseDeckList: one entry for each non-blank line, in file order. */
  method ParseDeckList(content: string) returns (deckList: seq<ListEntry>)
    ensures deckList == ParseAll(Lines(content))
  {
    var lines := Lines(content);
    deckList := ParseLines(lines);
  }

  /** The `for (const line of lines)` loop. */
  method ParseLines(lines: seq<string>) returns (deckList: seq<ListEntry>)
    ensures deckList == ParseAll(lines)
  {
    deckList := [];
    var i := 0;
    while i < |lines|
      invariant i <= |lines|
      invariant deckList == ParseAll(lines[..i])
    {
      assert lines[..i + 1][..i] == lines[..i];
      var trimmedLine := Trim(lines[i]);
      var entry := ParseLine(trimmedLine);
      deckList := deckList + [entry];
      i := i + 1;
    }
    assert lines[..i] == lines;
  }

  // ----- the legendary creatures among the found cards (130-143) -----

  /** The fields of a Scryfall card the collection reads (`colors`, `cmc` and `image_uris` are copied along unread). */
  datatype ScryCard = ScryCard(id: string, name: string, manaCost: Option<string>, typeLine: Option<string>)

  datatype Legend = Legend(id: string, name: string, manaCost: Option<string>, typeLine: Option<string>)

  function LegendOf(c: ScryCard): Legend
  {
    Legend(c.id, c.name, c.manaCost, c.typeLine)
  }

  predicate HasId(ls: seq<Legend>, id: string)
  {
    exists k :: 0 <= k < |ls| && ls[k].id == id
  }

  /** The list after the cards `cards`, one card at a time. */
  function Legends(cards: seq<ScryCard>): seq<Legend>
    decreases |cards|
  {
    if cards == [] then []
    else
      var prev := Legends(cards[..|cards| - 1]);
      var c := cards[|cards| - 1];
      if IsLegendaryCreature(c.typeLine) && !HasId(prev, c.id) then prev + [LegendOf(c)] else prev
  }

  /** The loop over the found cards with its `findIndex(lc => lc.id === card.id) === -1` check. */
  method CollectLegends(found: seq<ScryCard>) returns (legends: seq<Legend>)
    ensures legends == Legends(found)
  {
    legends := [];
    for i := 0 to |found|
      invariant legends == Legends(found[..i])
    {
      var card := found[i];
      assert found[..i + 1][..i] == found[..i];
      if IsLegendaryCreature(card.typeLine) && !HasId(legends, card.id) {
        legends := legends + [LegendOf(card)];
      }
    }
    assert found[..|found|] == found;
  }

  /** A legendary creature is the first card with its id among the legendary creatures. */
  predicate FirstLegendary(cards: seq<ScryCard>, i: nat)
    requires i < |cards|
  {
    IsLegendaryCreature(cards[i].typeLine)
    && forall j :: 0 <= j < i ==> !(IsLegendaryCreature(cards[j].typeLine) && cards[j].id == cards[i].id)
  }

  /** One card more either leaves the list alone or appends that card, exactly when it is a legendary creature with a new id. */
  lemma LegendsSnoc(cards: seq<ScryCard>)
    requires cards != []
    ensures var prev := Legends(cards[..|cards| - 1]); var c := cards[|cards| - 1];
      Legends(cards) == if IsLegendaryCreature(c.typeLine) && !HasId(prev, c.id) then prev + [LegendOf(c)] else prev
  {
  }

  /** The collected list holds no id twice. */
  lemma {:induction false} LegendsDistinct(cards: seq<ScryCard>)
    ensures forall k1, k2 :: 0 <= k1 < k2 < |Legends(cards)| ==> Legends(cards)[k1].id != Legends(cards)[k2].id
    decreases |cards|
  {
    if cards != [] {
      var front := cards[..|cards| - 1];
      LegendsDistinct(front);
      LegendsSnoc(cards);
    }
  }

  /** The id of every legendary creature among the cards is in the list. */
  lemma {:induction false} LegendsComplete(cards: seq<ScryCard>)
    ensures forall i :: 0 <= i < |cards| && IsLegendaryCreature(cards[i].typeLine) ==> HasId(Legends(cards), cards[i].id)
    decreases |cards|
  {
    if cards != [] {
      var front := cards[..|cards| - 1];
      var c := cards[|cards| - 1];
      var prev := Legends(front);
      LegendsComplete(front);
      LegendsSnoc(cards);
      var r := Legends(cards);
      forall i | 0 <= i < |cards| && IsLegendaryCreature(cards[i].typeLine)
        ensures HasId(r, cards[i].id)
      {
        if i < |front| {
          assert front[i] == cards[i];
          assert HasId(prev, front[i].id);
          var k :| 0 <= k < |prev| && prev[k].id == front[i].id;
          assert r[k] == prev[k];
        } else if !HasId(prev, c.id) {
          assert r[|prev|].id == c.id;
        }
      }
    }
  }

  /** Each entry of the list is the earliest legendary creature with its id. */
  lemma {:induction false} LegendsEarliest(cards: seq<ScryCard>, k: nat)
    requires k < |Legends(cards)|
    ensures exists i :: 0 <= i < |cards| && FirstLegendary(cards, i) && Legends(cards)[k] == LegendOf(cards[i])
    decreases |cards|
  {
    var front := cards[..|cards| - 1];
    var c := cards[|cards| - 1];
    var prev := Legends(front);
    LegendsSnoc(cards);
    var r := Legends(cards);
    if k < |prev| {
      LegendsEarliest(front, k);
      var i :| 0 <= i < |front| && FirstLegendary(front, i) && prev[k] == LegendOf(front[i]);
      assert forall j :: 0 <= j <= i ==> front[j] == cards[j];
      assert FirstLegendary(cards, i);
      assert r[k] == prev[k];
      assert 0 <= i < |cards| && FirstLegendary(cards, i) && r[k] == LegendOf(cards[i]);
    } else {
      var last := |cards| - 1;
      assert r == prev + [LegendOf(c)];
      assert r[k] == LegendOf(c);
      LegendsComplete(front);
      forall j | 0 <= j < last
        ensures !(IsLegendaryCreature(cards[j].typeLine) && cards[j].id == c.id)
      {
        assert front[j] == cards[j];
      }
      assert FirstLegendary(cards, last);
      assert 0 <= last < |cards| && FirstLegendary(cards, last) && r[k] == LegendOf(cards[last]);
    }
  }

  /** A first occurrence in the cards before the last one is still a first occurrence. */
  lemma FirstLegendaryPrefix(cards: seq<ScryCard>, i: nat)
    requires i < |cards| - 1 && FirstLegendary(cards[..|cards| - 1], i)
    ensures FirstLegendary(cards, i)
  {
    assert forall j :: 0 <= j <= i ==> cards[..|cards| - 1][j] == cards[j];
  }

  /** The legends are listed in the order their cards first appear in the upload. */
  lemma {:induction false} LegendsOrdered(cards: seq<ScryCard>, k1: nat, k2: nat)
    requires k1 < k2 < |Legends(cards)|
    ensures exists i1, i2 ::
      (0 <= i1 < i2 < |cards| && FirstLegendary(cards, i1) && FirstLegendary(cards, i2)
       && Legends(cards)[k1] == LegendOf(cards[i1]) && Legends(cards)[k2] == LegendOf(cards[i2]))
    decreases |cards|
  {
    var front := cards[..|cards| - 1];
    var prev := Legends(front);
    LegendsSnoc(cards);
    var r := Legends(cards);
    if k2 < |prev| {
      LegendsOrdered(front, k1, k2);
      var i1, i2 :| 0 <= i1 < i2 < |front| && FirstLegendary(front, i1) && FirstLegendary(front, i2)
        && prev[k1] == LegendOf(front[i1]) && prev[k2] == LegendOf(front[i2]);
      FirstLegendaryPrefix(cards, i1);
      FirstLegendaryPrefix(cards, i2);
      assert r[k1] == prev[k1] && r[k2] == prev[k2];
      assert front[i1] == cards[i1] && front[i2] == cards[i2];
    } else {
      var last := |cards| - 1;
      var c := cards[last];
      assert r == prev + [LegendOf(c)];
      LegendsComplete(front);
      forall j | 0 <= j < last
        ensures !(IsLegendaryCreature(cards[j].typeLine) && cards[j].id == c.id)
      {
        assert front[j] == cards[j];
      }
      LegendsEarliest(front, k1);
      var i1 :| 0 <= i1 < |front| && FirstLegendary(front, i1) && prev[k1] == LegendOf(front[i1]);
      FirstLegendaryPrefix(cards, i1);
      assert r[k1] == prev[k1];
      assert front[i1] == cards[i1];
      assert 0 <= i1 < last && FirstLegendary(cards, i1) && FirstLegendary(cards, last)
        && r[k1] == LegendOf(cards[i1]) && r[k2] == LegendOf(cards[last]);
    }
  }
}
