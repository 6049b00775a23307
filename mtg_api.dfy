/**
 * The two pure helpers of the Scryfall client (frontend/src/services/mtgApi.ts):
 * the legendary-creature test and the mana-symbol extractor, which runs the
 * global regular expression `/\{([^}]+)\}/g` with `exec` until it fails.
 */
module MtgApi {
  import opened Common
  import opened JsText

  /** `type_line?.includes('Legendary') && type_line?.includes('Creature') || false`. */
  predicate IsLegendaryCreature(typeLine: Option<string>)
  {
    typeLine.Some? && Contains(typeLine.value, "Legendary") && Contains(typeLine.value, "Creature")
  }

  /**
   * A type line makes a legendary creature exactly when both words occur in
   * it, anywhere and in either order; a missing type line never does.
   */
  lemma LegendaryCreatureIff(typeLine: Option<string>)
    ensures IsLegendaryCreature(typeLine) <==>
      typeLine.Some? && (exists i: nat :: OccursAt(typeLine.value, "Legendary", i))
                     && (exists j: nat :: OccursAt(typeLine.value, "Creature", j))
  {
    if typeLine.Some? {
      var t := typeLine.value;
      if IsLegendaryCreature(typeLine) {
        ContainsOccurs(t, "Legendary");
        ContainsOccurs(t, "Creature");
      }
      if (exists i: nat :: OccursAt(t, "Legendary", i)) && (exists j: nat :: OccursAt(t, "Creature", j)) {
        var i: nat :| OccursAt(t, "Legendary", i);
        var j: nat :| OccursAt(t, "Creature", j);
        ContainsAt(t, "Legendary", i);
        ContainsAt(t, "Creature", j);
      }
    }
  }

  /** The test is case-sensitive: without a capital 'L' or a capital 'C' no card qualifies. */
  lemma LegendaryCreatureCapitals(t: string)
    requires 'L' !in t || 'C' !in t
    ensures !IsLegendaryCreature(Some(t))
  {
    if IsLegendaryCreature(Some(t)) {
      ContainsChar(t, "Legendary", 'L');
      ContainsChar(t, "Creature", 'C');
    }
  }

  /** The first '}' at or after `k`. */
  function NextClose(s: string, k: nat): (r: Option<nat>)
    ensures r.Some? ==> k <= r.value < |s| && s[r.value] == '}'
    ensures r.Some? ==> forall j :: k <= j < r.value ==> s[j] != '}'
    ensures r.None? ==> forall j :: k <= j < |s| ==> s[j] != '}'
    decreases |s| - k
  {
    if k >= |s| then None else if s[k] == '}' then Some(k) else NextClose(s, k + 1)
  }

  /**
   * Whether the pattern matches starting at `i`: a '{', then one or more
   * characters other than '}', then the first '}' after them. The result
   * is the position of that '}'.
   */
  function MatchAt(s: string, i: nat): (r: Option<nat>)
    requires i < |s|
    ensures r.Some? ==> i + 1 < r.value < |s| && s[i] == '{' && s[r.value] == '}'
    ensures r.Some? ==> forall j :: i < j < r.value ==> s[j] != '}'
  {
    if s[i] != '{' then None
    else match NextClose(s, i + 1)
      case Some(j) => if j > i + 1 then Some(j) else None
      case None => None
  }

  /** `regex.exec` with `lastIndex == from`: the first match at or after `from`, as (start, closing brace). */
  function Exec(s: string, from: nat): (r: Option<(nat, nat)>)
    ensures r.Some? ==> from <= r.value.0 && r.value.0 + 1 < r.value.1 < |s|
    ensures r.Some? ==> s[r.value.0] == '{' && s[r.value.1] == '}'
    ensures r.Some? ==> forall j :: r.value.0 < j < r.value.1 ==> s[j] != '}'
    decreases |s| - from
  {
    if from >= |s| then None
    else match MatchAt(s, from)
      case Some(j) => Some((from, j))
      case None => Exec(s, from + 1)
  }

  /** The groups of every match from `from` on, left to right. */
  function SymbolsFrom(s: string, from: nat): seq<string>
    decreases |s| - from
  {
    var m := Exec(s, from);
    if m.None? then [] else [s[m.value.0 + 1..m.value.1]] + SymbolsFrom(s, m.value.1 + 1)
  }

  lemma SymbolsStep(s: string, from: nat, a: nat, j: nat)
    requires Exec(s, from) == Some((a, j))
    ensures SymbolsFrom(s, from) == [s[a + 1..j]] + SymbolsFrom(s, j + 1)
  {
  }

  /** getManaSymbols (197-210): nothing for a missing or empty cost, else every group in turn. */
  method GetManaSymbols(manaCost: Option<string>) returns (symbols: seq<string>)
    ensures symbols == if manaCost.None? then [] else SymbolsFrom(manaCost.value, 0)
    ensures forall k :: 0 <= k < |symbols| ==> symbols[k] != "" && '}' !in symbols[k]
    ensures manaCost.Some? ==> |symbols| <= ClosesFrom(manaCost.value, 0)
  {
    if manaCost.None? || |manaCost.value| == 0 {
      return [];
    }
    symbols := ExecAll(manaCost.value);
    SymbolsShape(manaCost.value, 0);
  }

  /** The `while ((match = symbolRegex.exec(manaCost)) !== null)` loop. */
  method ExecAll(s: string) returns (symbols: seq<string>)
    ensures symbols == SymbolsFrom(s, 0)
  {
    ghost var all := SymbolsFrom(s, 0);
    symbols := [];
    var lastIndex: nat := 0;
    var m := Exec(s, lastIndex);
    assert [] + all == all;
    while m.Some?
      invariant lastIndex <= |s| && m == Exec(s, lastIndex)
      invariant symbols + SymbolsFrom(s, lastIndex) == all
      decreases |s| - lastIndex
    {
      var a, j := m.value.0, m.value.1;
      ExecAllStep(s, lastIndex, a, j, symbols, all);
      symbols := symbols + [s[a + 1..j]];
      lastIndex := j + 1;
      m := Exec(s, lastIndex);
    }
    ExecAllDone(s, lastIndex, symbols, all);
  }

  /** One turn of the loop keeps its invariant. */
  lemma ExecAllStep(s: string, from: nat, a: nat, j: nat, done: seq<string>, all: seq<string>)
    requires Exec(s, from) == Some((a, j)) && done + SymbolsFrom(s, from) == all
    ensures (done + [s[a + 1..j]]) + SymbolsFrom(s, j + 1) == all
  {
    SymbolsStep(s, from, a, j);
    assert (done + [s[a + 1..j]]) + SymbolsFrom(s, j + 1) == done + ([s[a + 1..j]] + SymbolsFrom(s, j + 1));
  }

  /** When `exec` fails the symbols found so far are all of them. */
  lemma ExecAllDone(s: string, from: nat, done: seq<string>, all: seq<string>)
    requires Exec(s, from).None? && done + SymbolsFrom(s, from) == all
    ensures done == all
  {
    assert SymbolsFrom(s, from) == [];
    assert done + [] == done;
  }

  /** The number of '}' at or after `from`. */
  function ClosesFrom(s: string, from: nat): nat
    decreases |s| - from
  {
    if from >= |s| then 0 else (if s[from] == '}' then 1 else 0) + ClosesFrom(s, from + 1)
  }

  lemma {:induction false} ClosesFromMonotone(s: string, a: nat, b: nat)
    requires a <= b
    ensures ClosesFrom(s, b) <= ClosesFrom(s, a)
    decreases b - a
  {
    if a < b {
      ClosesFromMonotone(s, a + 1, b);
    }
  }

  /** Every symbol is non-empty and holds no '}'. */
  predicate Braceless(symbols: seq<string>)
  {
    forall k :: 0 <= k < |symbols| ==> symbols[k] != "" && '}' !in symbols[k]
  }

  /** Every symbol is non-empty and holds no '}', and there are no more symbols than '}' characters. */
  lemma {:induction false} SymbolsShape(s: string, from: nat)
    ensures Braceless(SymbolsFrom(s, from))
    ensures |SymbolsFrom(s, from)| <= ClosesFrom(s, from)
    decreases |s| - from
  {
    var m := Exec(s, from);
    if m.Some? {
      var a, j := m.value.0, m.value.1;
      SymbolsShape(s, j + 1);
      SymbolsShapeStep(s, from, a, j);
    }
  }

  /** The symbol a match yields is non-empty, holds no '}', and uses up one '}'. */
  lemma SymbolsShapeStep(s: string, from: nat, a: nat, j: nat)
    requires Exec(s, from) == Some((a, j))
    requires Braceless(SymbolsFrom(s, j + 1)) && |SymbolsFrom(s, j + 1)| <= ClosesFrom(s, j + 1)
    ensures Braceless(SymbolsFrom(s, from))
    ensures |SymbolsFrom(s, from)| <= ClosesFrom(s, from)
  {
    SymbolsStep(s, from, a, j);
    ClosesFromMonotone(s, from, j);
    assert ClosesFrom(s, j) == 1 + ClosesFrom(s, j + 1);
    var sym := s[a + 1..j];
    assert forall c :: c in sym ==> c != '}' by {
      forall c | c in sym ensures c != '}' {
        var t :| 0 <= t < |sym| && sym[t] == c;
        assert sym[t] == s[a + 1 + t];
      }
    }
    var rest := SymbolsFrom(s, j + 1);
    forall k | 0 <= k < |SymbolsFrom(s, from)| ensures SymbolsFrom(s, from)[k] != "" && '}' !in SymbolsFrom(s, from)[k] {
      if k > 0 {
        assert SymbolsFrom(s, from)[k] == rest[k - 1];
      }
    }
  }

  /** The example of the source's comment: "{1}{U}{B}" gives "1", "U", "B". */
  lemma SymbolsExample()
    ensures SymbolsFrom("{1}{U}{B}", 0) == ["1", "U", "B"]
  {
    var s := "{1}{U}{B}";
    assert MatchAt(s, 0) == Some(2);
    assert Exec(s, 0) == Some((0, 2));
    assert MatchAt(s, 3) == Some(5);
    assert Exec(s, 3) == Some((3, 5));
    assert MatchAt(s, 6) == Some(8);
    assert Exec(s, 6) == Some((6, 8));
    assert Exec(s, 9) == None;
    assert SymbolsFrom(s, 9) == [];
    assert s[7..8] == "B" && s[4..5] == "U" && s[1..2] == "1";
    assert SymbolsFrom(s, 6) == ["B"];
    assert SymbolsFrom(s, 3) == ["U", "B"];
  }

  /** Text outside braces and an empty "{}" contribute nothing. */
  lemma EmptyBracesIgnored()
    ensures SymbolsFrom("x{}{G}", 0) == ["G"]
  {
    var s := "x{}{G}";
    assert MatchAt(s, 0) == None;
    assert MatchAt(s, 1) == None;
    assert MatchAt(s, 2) == None;
    assert MatchAt(s, 3) == Some(5);
    assert Exec(s, 0) == Some((3, 5));
    assert Exec(s, 6) == None;
    assert SymbolsFrom(s, 6) == [];
    assert s[4..5] == "G";
  }
}
