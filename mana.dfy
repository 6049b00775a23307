/**
 * The six-bucket mana pool and the land mana sources of one player
 * (frontend/src/contexts/DeckProvider.tsx:501-570, 1066-1129, 2021-2034,
 * 2863-2889): tapping and untapping a land, the cost check, and the payment
 * that drains colorless first and then white, blue, black, red and green.
 */
module Mana {
  import opened Common
  import opened JsText
  import opened DeckTypes

  /** tapLand's bucket: the first basic land type named in the lower-cased land name. */
  function LandColor(name: string): Color
  {
    var n := ToLower(name);
    if Contains(n, "plains") then White
    else if Contains(n, "island") then Blue
    else if Contains(n, "swamp") then Black
    else if Contains(n, "mountain") then Red
    else if Contains(n, "forest") then Green
    else Colorless
  }

  // ----- manaSources: an insertion-ordered object keyed by land instance id -----

  /** `manaSources[id]`. */
  function SourceAt(src: seq<ManaSource>, id: InstId): (r: Option<ManaSource>)
    ensures r.Some? ==> r.value in src && r.value.landId == id
    ensures r.None? ==> forall s :: s in src ==> s.landId != id
  {
    if src == [] then None
    else if src[0].landId == id then Some(src[0])
    else SourceAt(src[1..], id)
  }

  /** `{...manaSources, [s.landId]: s}`: an existing key keeps its place. */
  function PutSource(src: seq<ManaSource>, s: ManaSource): (r: seq<ManaSource>)
    ensures SourceAt(r, s.landId) == Some(s)
    ensures forall t :: t in r ==> t == s || t in src
  {
    if src == [] then [s]
    else if src[0].landId == s.landId then [s] + src[1..]
    else [src[0]] + PutSource(src[1..], s)
  }

  /** The entries whose key is not `id` (`Object.fromEntries(... filter ...)`). */
  function RemoveSource(src: seq<ManaSource>, id: InstId): (r: seq<ManaSource>)
    ensures SourceAt(r, id).None?
    ensures forall t :: t in r <==> t in src && t.landId != id
  {
    if src == [] then []
    else (if src[0].landId == id then [] else [src[0]]) + RemoveSource(src[1..], id)
  }

  /** Removing a key that was just added gives back the object it was added to. */
  lemma {:induction false} RemovePutNew(src: seq<ManaSource>, s: ManaSource)
    requires SourceAt(src, s.landId).None?
    ensures RemoveSource(PutSource(src, s), s.landId) == src
  {
    if src != [] {
      RemovePutNew(src[1..], s);
    }
  }

  /** `ids.filter(x => x !== id)`. */
  function Without(ids: seq<InstId>, id: InstId): (r: seq<InstId>)
    ensures forall x :: x in r <==> x in ids && x != id
  {
    if ids == [] then [] else (if ids[0] == id then [] else [ids[0]]) + Without(ids[1..], id)
  }

  lemma {:induction false} WithoutAppended(ids: seq<InstId>, id: InstId)
    requires id !in ids
    ensures Without(ids + [id], id) == ids
  {
    if ids == [] {
      assert [] + [id] == [id];
    } else {
      assert (ids + [id])[1..] == ids[1..] + [id];
      WithoutAppended(ids[1..], id);
      assert ids == [ids[0]] + ids[1..];
    }
  }

  // ----- tapLand / untapLand -----

  /** The turn state tapLand writes: one more mana of the land's color, the land recorded. */
  function TapLandTurn(ts: TurnState, landId: int, name: string, index: nat): TurnState
  {
    var c := LandColor(name);
    var id := InstId(landId, index);
    ts.(manaPool := WithBucket(ts.manaPool, c, Bucket(ts.manaPool, c) + 1),
        tappedLands := ts.tappedLands + [id],
        manaSources := PutSource(ts.manaSources, ManaSource(id, c, true)))
  }

  /**
   * The turn state untapLand writes, or None when it returns early: the land's
   * mana was spent, or there is no source for it.
   */
  function UntapLandTurn(ts: TurnState, landId: int, index: nat): Option<TurnState>
  {
    var id := InstId(landId, index);
    if id in ts.landManaUsed then None
    else match SourceAt(ts.manaSources, id)
      case None => None
      case Some(s) =>
        var b := Bucket(ts.manaPool, s.manaType);
        Some(ts.(manaPool := WithBucket(ts.manaPool, s.manaType, if b >= 1 then b - 1 else 0),
                 tappedLands := Without(ts.tappedLands, id),
                 manaSources := RemoveSource(ts.manaSources, id)))
  }

  /** Tapping adds exactly one mana, to the land's bucket, and records an available source. */
  lemma TapLandAddsOne(ts: TurnState, landId: int, name: string, index: nat)
    ensures var r := TapLandTurn(ts, landId, name, index);
      && Bucket(r.manaPool, LandColor(name)) == Bucket(ts.manaPool, LandColor(name)) + 1
      && (forall c :: c != LandColor(name) ==> Bucket(r.manaPool, c) == Bucket(ts.manaPool, c))
      && Total(r.manaPool) == Total(ts.manaPool) + 1
      && r.tappedLands == ts.tappedLands + [InstId(landId, index)]
      && SourceAt(r.manaSources, InstId(landId, index)) == Some(ManaSource(InstId(landId, index), LandColor(name), true))
      && r.landManaUsed == ts.landManaUsed
  {
    TotalWithBucket(ts.manaPool, LandColor(name), Bucket(ts.manaPool, LandColor(name)) + 1);
  }

  /** Untapping is refused exactly when the land's mana was spent or it has no source. */
  lemma UntapLandRefusal(ts: TurnState, landId: int, index: nat)
    ensures UntapLandTurn(ts, landId, index).None?
        <==> (InstId(landId, index) in ts.landManaUsed || SourceAt(ts.manaSources, InstId(landId, index)).None?)
  {
  }

  /** Otherwise it takes one mana back from the source's bucket, floored at 0, and forgets the land. */
  lemma UntapLandTakesBack(ts: TurnState, landId: int, index: nat)
    requires UntapLandTurn(ts, landId, index).Some?
    ensures var id := InstId(landId, index);
      var s := SourceAt(ts.manaSources, id).value;
      var r := UntapLandTurn(ts, landId, index).value;
      && Bucket(r.manaPool, s.manaType) == (if Bucket(ts.manaPool, s.manaType) > 0 then Bucket(ts.manaPool, s.manaType) - 1 else 0)
      && (forall c :: c != s.manaType ==> Bucket(r.manaPool, c) == Bucket(ts.manaPool, c))
      && id !in r.tappedLands
      && SourceAt(r.manaSources, id).None?
  {
  }

  /**
   * Untapping a land right after tapping it (its mana unspent, the land not
   * tapped before) restores the turn state exactly.
   */
  lemma UntapUndoesTap(ts: TurnState, landId: int, name: string, index: nat)
    requires InstId(landId, index) !in ts.landManaUsed
    requires InstId(landId, index) !in ts.tappedLands
    requires SourceAt(ts.manaSources, InstId(landId, index)).None?
    ensures UntapLandTurn(TapLandTurn(ts, landId, name, index), landId, index) == Some(ts)
  {
    var c := LandColor(name);
    var id := InstId(landId, index);
    var t := TapLandTurn(ts, landId, name, index);
    assert SourceAt(t.manaSources, id) == Some(ManaSource(id, c, true));
    WithoutAppended(ts.tappedLands, id);
    RemovePutNew(ts.manaSources, ManaSource(id, c, true));
    var p := WithBucket(t.manaPool, c, Bucket(ts.manaPool, c));
    PoolExtensional(p, ts.manaPool);
  }

  // ----- spendMana -----

  /** `spendMana(color)`: one mana less in that bucket, floored at 0. */
  function SpendOne(pool: ManaPool, c: Color): (r: ManaPool)
    ensures Bucket(r, c) == if Bucket(pool, c) > 0 then Bucket(pool, c) - 1 else 0
    ensures forall d :: d != c ==> Bucket(r, d) == Bucket(pool, d)
  {
    WithBucket(pool, c, if Bucket(pool, c) > 0 then Bucket(pool, c) - 1 else 0)
  }

  // ----- paying a generic cost -----

  /** `checkManaCost`: the pool holds at least the card's converted cost. */
  predicate CanPay(pool: ManaPool, cost: nat)
  {
    Total(pool) >= cost
  }

  /** What a payment has written so far. */
  datatype Payment = Payment(pool: ManaPool, sources: seq<ManaSource>, landsUsed: seq<InstId>)

  /** Colorless first, then `['white', 'blue', 'black', 'red', 'green']`. */
  const PayOrder: seq<Color> := [Colorless, White, Blue, Black, Red, Green]

  /**
   * Mark the first `n` available sources of color `c` as used, returning the
   * new sources and the ids marked, in order (`filter`, `slice(0, n)`, `forEach`).
   */
  function MarkFirst(src: seq<ManaSource>, c: Color, n: nat): (r: (seq<ManaSource>, seq<InstId>))
    ensures |r.0| == |src| && |r.1| <= n
    ensures forall i :: 0 <= i < |src| ==> r.0[i].landId == src[i].landId && r.0[i].manaType == src[i].manaType
    ensures forall i :: 0 <= i < |src| ==> (r.0[i].available ==> src[i].available)
  {
    if src == [] || n == 0 then (src, [])
    else
      var rest := MarkFirst(src[1..], c, if src[0].manaType == c && src[0].available then n - 1 else n);
      if src[0].manaType == c && src[0].available then
        ([src[0].(available := false)] + rest.0, [src[0].landId] + rest.1)
      else ([src[0]] + rest.0, rest.1)
  }

  /** Every id MarkFirst reports is an available source of that color that it marked used. */
  lemma {:induction false} MarkFirstMarks(src: seq<ManaSource>, c: Color, n: nat, id: InstId)
    requires id in MarkFirst(src, c, n).1
    ensures exists i :: (0 <= i < |src| && src[i].landId == id && src[i].manaType == c && src[i].available
                         && !MarkFirst(src, c, n).0[i].available)
  {
    if src != [] && n != 0 {
      var hit := src[0].manaType == c && src[0].available;
      var k := if hit then n - 1 else n;
      var rest := MarkFirst(src[1..], c, k);
      var m := MarkFirst(src, c, n);
      MarkFirstCons(src, c, n);
      if hit && id == src[0].landId {
        assert m.0[0] == src[0].(available := false);
        assert src[0].landId == id && src[0].manaType == c && src[0].available && !m.0[0].available;
      } else {
        assert id in rest.1;
        MarkFirstMarks(src[1..], c, k, id);
        MarkFirstMarksLater(src, c, n, id);
      }
    }
  }

  /** The step from the rest of the sources to all of them, when the first source is not the one. */
  lemma MarkFirstMarksLater(src: seq<ManaSource>, c: Color, n: nat, id: InstId)
    requires src != [] && n != 0
    requires var k := if src[0].manaType == c && src[0].available then n - 1 else n;
      exists i :: 0 <= i < |src[1..]| && src[1..][i].landId == id && src[1..][i].manaType == c && src[1..][i].available
        && !MarkFirst(src[1..], c, k).0[i].available
    ensures exists i :: (0 <= i < |src| && src[i].landId == id && src[i].manaType == c && src[i].available
                         && !MarkFirst(src, c, n).0[i].available)
  {
    var k := if src[0].manaType == c && src[0].available then n - 1 else n;
    var rest := MarkFirst(src[1..], c, k);
    MarkFirstCons(src, c, n);
    var i :| 0 <= i < |src[1..]| && src[1..][i].landId == id && src[1..][i].manaType == c && src[1..][i].available
      && !rest.0[i].available;
    assert src[i + 1] == src[1..][i] && MarkFirst(src, c, n).0[i + 1] == rest.0[i];
  }

  lemma MarkFirstCons(src: seq<ManaSource>, c: Color, n: nat)
    requires src != [] && n != 0
    ensures var hit := src[0].manaType == c && src[0].available;
      var rest := MarkFirst(src[1..], c, if hit then n - 1 else n);
      (hit ==> MarkFirst(src, c, n).0 == [src[0].(available := false)] + rest.0
               && MarkFirst(src, c, n).1 == [src[0].landId] + rest.1)
      && (!hit ==> MarkFirst(src, c, n).0 == [src[0]] + rest.0 && MarkFirst(src, c, n).1 == rest.1)
  {
  }

  /** One round of the payment loop for color `c`, with `rem` still to pay. */
  function PayStep(st: Payment, rem: nat, c: Color): (Payment, nat)
  {
    var b := Bucket(st.pool, c);
    var toSpend := Min(b, rem);
    var marked := MarkFirst(st.sources, c, toSpend);
    (Payment(WithBucket(st.pool, c, b - toSpend), marked.0, st.landsUsed + marked.1), rem - toSpend)
  }

  /** The payment rounds over the colors `cs`, left to right. */
  function PayOver(st: Payment, rem: nat, cs: seq<Color>): (Payment, nat)
    decreases |cs|
  {
    if cs == [] then (st, rem)
    else
      var next := PayStep(st, rem, cs[0]);
      PayOver(next.0, next.1, cs[1..])
  }

  /** spendManaForCard's (and castCommander's) payment of `cost` generic mana. */
  function Pay(pool: ManaPool, sources: seq<ManaSource>, cost: nat): Payment
  {
    PayOver(Payment(pool, sources, []), cost, PayOrder).0
  }

  /** The sum of the buckets of the colors `cs`. */
  function SumOver(pool: ManaPool, cs: seq<Color>): nat
  {
    if cs == [] then 0 else Bucket(pool, cs[0]) + SumOver(pool, cs[1..])
  }

  lemma {:induction false} SumOverUnchanged(p: ManaPool, q: ManaPool, cs: seq<Color>)
    requires forall c :: c in cs ==> Bucket(p, c) == Bucket(q, c)
    ensures SumOver(p, cs) == SumOver(q, cs)
  {
    if cs != [] {
      SumOverUnchanged(p, q, cs[1..]);
    }
  }

  /**
   * Over distinct colors, the rounds pay `min(rem, buckets)` in all, and the
   * pool total falls by exactly what was paid.
   */
  lemma {:induction false} PayOverTotals(st: Payment, rem: nat, cs: seq<Color>)
    requires forall i, j :: 0 <= i < j < |cs| ==> cs[i] != cs[j]
    ensures var r := PayOver(st, rem, cs);
      && r.1 == rem - Min(rem, SumOver(st.pool, cs))
      && Total(r.0.pool) == Total(st.pool) - (rem - r.1)
    decreases |cs|
  {
    if cs != [] {
      var next := PayStep(st, rem, cs[0]);
      var b := Bucket(st.pool, cs[0]);
      TotalWithBucket(st.pool, cs[0], b - Min(b, rem));
      forall c | c in cs[1..] ensures Bucket(next.0.pool, c) == Bucket(st.pool, c) {
        var k :| 1 <= k < |cs| && cs[k] == c;
      }
      SumOverUnchanged(next.0.pool, st.pool, cs[1..]);
      PayOverTotals(next.0, next.1, cs[1..]);
    }
  }

  lemma SumOverPayOrder(pool: ManaPool)
    ensures SumOver(pool, PayOrder) == Total(pool)
  {
    assert SumOver(pool, [Green]) == pool.green by {
      assert [Green][1..] == [];
    }
    assert SumOver(pool, [Red, Green]) == pool.red + pool.green by {
      assert [Red, Green][1..] == [Green];
    }
    assert SumOver(pool, [Black, Red, Green]) == pool.black + pool.red + pool.green by {
      assert [Black, Red, Green][1..] == [Red, Green];
    }
    assert SumOver(pool, [Blue, Black, Red, Green]) == pool.blue + pool.black + pool.red + pool.green by {
      assert [Blue, Black, Red, Green][1..] == [Black, Red, Green];
    }
    assert SumOver(pool, [White, Blue, Black, Red, Green]) == pool.white + pool.blue + pool.black + pool.red + pool.green by {
      assert [White, Blue, Black, Red, Green][1..] == [Blue, Black, Red, Green];
    }
    assert PayOrder[1..] == [White, Blue, Black, Red, Green];
  }

  lemma PayOrderDistinct()
    ensures forall i, j :: 0 <= i < j < |PayOrder| ==> PayOrder[i] != PayOrder[j]
  {
  }

  /** The pool total falls by min(cost, total): no bucket can go below 0. */
  lemma PayTotal(pool: ManaPool, sources: seq<ManaSource>, cost: nat)
    ensures Total(Pay(pool, sources, cost).pool) == Total(pool) - Min(cost, Total(pool))
  {
    PayOrderDistinct();
    PayOverTotals(Payment(pool, sources, []), cost, PayOrder);
    SumOverPayOrder(pool);
  }

  /** When the pool covers the cost, exactly `cost` mana leaves it. */
  lemma PayCovered(pool: ManaPool, sources: seq<ManaSource>, cost: nat)
    requires CanPay(pool, cost)
    ensures Total(Pay(pool, sources, cost).pool) == Total(pool) - cost
  {
    PayTotal(pool, sources, cost);
  }

  /**
   * The buckets drain in PayOrder: the k-th color gives
   * min(its bucket, what the earlier colors left unpaid).
   */
  function Unpaid(pool: ManaPool, cost: nat, k: nat): nat
    requires k <= |PayOrder|
  {
    var before := SumOver(pool, PayOrder[..k]);
    if cost > before then cost - before else 0
  }

  lemma {:induction false} PayOverDrains(st: Payment, rem: nat, cs: seq<Color>, k: nat)
    requires forall i, j :: 0 <= i < j < |cs| ==> cs[i] != cs[j]
    requires k < |cs|
    ensures var before := SumOver(st.pool, cs[..k]);
      var left := if rem > before then rem - before else 0;
      Bucket(PayOver(st, rem, cs).0.pool, cs[k]) == Bucket(st.pool, cs[k]) - Min(Bucket(st.pool, cs[k]), left)
    decreases |cs|
  {
    var next := PayStep(st, rem, cs[0]);
    var b := Bucket(st.pool, cs[0]);
    forall c | c in cs[1..] ensures Bucket(next.0.pool, c) == Bucket(st.pool, c) {
      var i :| 1 <= i < |cs| && cs[i] == c;
    }
    if k == 0 {
      PayOverKeeps(next.0, next.1, cs[1..], cs[0]);
    } else {
      assert cs[1..][..k - 1] == cs[..k][1..];
      SumOverUnchanged(next.0.pool, st.pool, cs[1..][..k - 1]);
      PayOverDrains(next.0, next.1, cs[1..], k - 1);
    }
  }

  /** Rounds over other colors leave a bucket alone. */
  lemma {:induction false} PayOverKeeps(st: Payment, rem: nat, cs: seq<Color>, c: Color)
    requires c !in cs
    ensures Bucket(PayOver(st, rem, cs).0.pool, c) == Bucket(st.pool, c)
    decreases |cs|
  {
    if cs != [] {
      var next := PayStep(st, rem, cs[0]);
      PayOverKeeps(next.0, next.1, cs[1..], c);
    }
  }

  /** Colorless pays first, then white, blue, black, red and green in turn. */
  lemma PayDrainsInOrder(pool: ManaPool, sources: seq<ManaSource>, cost: nat, k: nat)
    requires k < |PayOrder|
    ensures var c := PayOrder[k];
      Bucket(Pay(pool, sources, cost).pool, c) == Bucket(pool, c) - Min(Bucket(pool, c), Unpaid(pool, cost, k))
  {
    PayOrderDistinct();
    PayOverDrains(Payment(pool, sources, []), cost, PayOrder, k);
  }

  /** In particular colorless mana is used before any colored mana. */
  lemma PayColorlessFirst(pool: ManaPool, sources: seq<ManaSource>, cost: nat)
    ensures Pay(pool, sources, cost).pool.colorless == pool.colorless - Min(pool.colorless, cost)
  {
    PayDrainsInOrder(pool, sources, cost, 0);
    assert PayOrder[..0] == [];
  }

  /**
   * The payment loop of spendManaForCard and castCommander (DeckProvider.tsx:516-559,
   * 1324-1367): colorless first, then the colored buckets until nothing remains.
   */
  method PayCost(pool: ManaPool, sources: seq<ManaSource>, cost: nat) returns (paid: Payment)
    ensures paid == Pay(pool, sources, cost)
  {
    var manaToSpend := pool;
    var manaSourcesToUpdate := sources;
    var landsUsed: seq<InstId> := [];
    var remainingCost := cost;

    var colorlessToSpend := Min(manaToSpend.colorless, remainingCost);
    manaToSpend := manaToSpend.(colorless := manaToSpend.colorless - colorlessToSpend);
    remainingCost := remainingCost - colorlessToSpend;
    if colorlessToSpend > 0 {
      var marked := MarkFirst(manaSourcesToUpdate, Colorless, colorlessToSpend);
      manaSourcesToUpdate := marked.0;
      landsUsed := landsUsed + marked.1;
    }
    StepIsPayStep(Payment(pool, sources, []), cost, Colorless,
      Payment(manaToSpend, manaSourcesToUpdate, landsUsed), remainingCost);

    var coloredMana := [White, Blue, Black, Red, Green];
    assert coloredMana == PayOrder[1..];
    if remainingCost > 0 {
      paid := PayColors(Payment(manaToSpend, manaSourcesToUpdate, landsUsed), remainingCost, coloredMana);
    } else {
      PayOverNothingLeft(Payment(manaToSpend, manaSourcesToUpdate, landsUsed), coloredMana);
      paid := Payment(manaToSpend, manaSourcesToUpdate, landsUsed);
    }
  }

  /** The `for (const color of coloredMana)` loop, which stops once nothing remains to be paid. */
  method PayColors(start: Payment, cost: nat, coloredMana: seq<Color>) returns (paid: Payment)
    ensures paid == PayOver(start, cost, coloredMana).0
  {
    ghost var goal := PayOver(start, cost, coloredMana).0;
    var manaToSpend := start.pool;
    var manaSourcesToUpdate := start.sources;
    var landsUsed := start.landsUsed;
    var remainingCost := cost;
    var i := 0;
    while i < |coloredMana|
      invariant 0 <= i <= |coloredMana|
      invariant PayOver(Payment(manaToSpend, manaSourcesToUpdate, landsUsed), remainingCost, coloredMana[i..]).0 == goal
    {
      if remainingCost == 0 {
        PayOverNothingLeft(Payment(manaToSpend, manaSourcesToUpdate, landsUsed), coloredMana[i..]);
        break;
      }
      ghost var before := Payment(manaToSpend, manaSourcesToUpdate, landsUsed);
      ghost var beforeRem := remainingCost;
      var color := coloredMana[i];
      var toSpend := Min(Bucket(manaToSpend, color), remainingCost);
      manaToSpend := WithBucket(manaToSpend, color, Bucket(manaToSpend, color) - toSpend);
      remainingCost := remainingCost - toSpend;
      if toSpend > 0 {
        var marked := MarkFirst(manaSourcesToUpdate, color, toSpend);
        manaSourcesToUpdate := marked.0;
        landsUsed := landsUsed + marked.1;
      }
      StepIsPayStep(before, beforeRem, color, Payment(manaToSpend, manaSourcesToUpdate, landsUsed), remainingCost);
      assert coloredMana[i..][1..] == coloredMana[i + 1..];
      i := i + 1;
    }
    if i == |coloredMana| {
      assert coloredMana[i..] == [];
    }
    paid := Payment(manaToSpend, manaSourcesToUpdate, landsUsed);
  }

  /** Two pools that agree with `base` outside `c` and with each other on `c` are the same pool. */
  lemma SameBuckets(p: ManaPool, q: ManaPool, base: ManaPool, c: Color)
    requires Bucket(p, c) == Bucket(q, c)
    requires forall d :: d != c ==> Bucket(p, d) == Bucket(base, d)
    requires forall d :: d != c ==> Bucket(q, d) == Bucket(base, d)
    ensures p == q
  {
    PoolExtensional(p, q);
  }

  /** One round as the method writes it: unmarked when nothing is spent, the colorless bucket by field. */
  lemma StepIsPayStep(st: Payment, rem: nat, c: Color, after: Payment, afterRem: nat)
    requires afterRem == rem - Min(Bucket(st.pool, c), rem)
    requires Bucket(after.pool, c) == Bucket(st.pool, c) - Min(Bucket(st.pool, c), rem)
    requires forall d :: d != c ==> Bucket(after.pool, d) == Bucket(st.pool, d)
    requires Min(Bucket(st.pool, c), rem) > 0 ==>
      after.sources == MarkFirst(st.sources, c, Min(Bucket(st.pool, c), rem)).0
      && after.landsUsed == st.landsUsed + MarkFirst(st.sources, c, Min(Bucket(st.pool, c), rem)).1
    requires Min(Bucket(st.pool, c), rem) == 0 ==> after.sources == st.sources && after.landsUsed == st.landsUsed
    ensures PayStep(st, rem, c) == (after, afterRem)
  {
    var toSpend := Min(Bucket(st.pool, c), rem);
    var pool := WithBucket(st.pool, c, Bucket(st.pool, c) - toSpend);
    var marked := MarkFirst(st.sources, c, toSpend);
    assert PayStep(st, rem, c) == (Payment(pool, marked.0, st.landsUsed + marked.1), rem - toSpend);
    assert pool == after.pool by {
      SameBuckets(pool, after.pool, st.pool, c);
    }
    assert marked.0 == after.sources && st.landsUsed + marked.1 == after.landsUsed by {
      if toSpend == 0 {
        assert marked == (st.sources, []);
        assert st.landsUsed + [] == st.landsUsed;
      }
    }
  }

  /** Once nothing remains to be paid, the remaining rounds change nothing. */
  lemma {:induction false} PayOverNothingLeft(st: Payment, cs: seq<Color>)
    ensures PayOver(st, 0, cs) == (st, 0)
    decreases |cs|
  {
    if cs != [] {
      var c := cs[0];
      PoolExtensional(WithBucket(st.pool, c, Bucket(st.pool, c)), st.pool);
      assert st.landsUsed + [] == st.landsUsed;
      PayOverNothingLeft(st, cs[1..]);
    }
  }

  /**
   * activateAbility's payment (DeckProvider.tsx:2863-2889): the same rounds
   * with no sources to mark. A negative `parseInt(cost)` makes the colorless
   * step add mana instead.
   */
  function AbilityPayment(pool: ManaPool, cost: int): ManaPool
  {
    if cost < 0 then pool.(colorless := pool.colorless - cost)
    else Pay(pool, [], cost).pool
  }

  /** `ability.cost` read as a number: `parseInt(cost) || 0`. */
  function AbilityCost(cost: string): int
  {
    ParseIntOrZero(cost)
  }

  /** activateAbility's MANA effect bucket, from the ability description. */
  function DescriptionColor(description: string): Color
  {
    if Contains(description, "{W}") then White
    else if Contains(description, "{U}") then Blue
    else if Contains(description, "{B}") then Black
    else if Contains(description, "{R}") then Red
    else if Contains(description, "{G}") then Green
    else Colorless
  }
}
