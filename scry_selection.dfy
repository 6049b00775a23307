/**
 * The index bookkeeping of a scry decision
 * (frontend/src/contexts/DeckProvider.tsx:1860-1908): the cards the player
 * ordered, picked out by index, and the cards left unselected, filtered in
 * their scry order; together they are exactly the scry cards.
 */
module ScrySelection {
  /** `orderedCards.map(index => scryCards[index])`. */
  function Picked<T>(scry: seq<T>, ordered: seq<nat>): (r: seq<T>)
    requires forall i :: 0 <= i < |ordered| ==> ordered[i] < |scry|
    ensures |r| == |ordered| && forall i :: 0 <= i < |ordered| ==> r[i] == scry[ordered[i]]
  {
    seq(|ordered|, i requires 0 <= i < |ordered| => scry[ordered[i]])
  }

  /** `scryCards.filter((_, index) => !selectedIndices.has(index))`, from index k on. */
  function UnselectedFrom<T>(scry: seq<T>, selected: set<nat>, k: nat): seq<T>
    decreases |scry| - k
  {
    if k >= |scry| then [] else (if k in selected then [] else [scry[k]]) + UnselectedFrom(scry, selected, k + 1)
  }

  /** `new Set(orderedCards)`. */
  function Indices(ordered: seq<nat>): set<nat>
  {
    set i | i in ordered
  }

  function Unselected<T>(scry: seq<T>, ordered: seq<nat>): seq<T>
  {
    UnselectedFrom(scry, Indices(ordered), 0)
  }

  lemma {:induction false} UnselectedNothing<T>(scry: seq<T>, selected: set<nat>, k: nat)
    requires forall j :: k <= j < |scry| ==> j !in selected
    requires k <= |scry|
    ensures UnselectedFrom(scry, selected, k) == scry[k..]
    decreases |scry| - k
  {
    if k < |scry| {
      UnselectedNothing(scry, selected, k + 1);
    }
  }

  /** Past `o`, leaving `o` out as well changes nothing. */
  lemma {:induction false} UnselectedPast<T>(scry: seq<T>, rest: set<nat>, o: nat, k: nat)
    requires o < k
    ensures UnselectedFrom(scry, rest, k) == UnselectedFrom(scry, rest + {o}, k)
    decreases |scry| - k
  {
    if k < |scry| {
      UnselectedPast(scry, rest, o, k + 1);
      assert (k in rest) == (k in rest + {o});
    }
  }

  /** The unselected cards from `k` on are those before `o`, then those from `o` on. */
  lemma {:induction false} UnselectedSplit<T>(scry: seq<T>, selected: set<nat>, k: nat, o: nat)
    requires k <= o <= |scry|
    ensures UnselectedFrom(scry, selected, k) == UnselectedFrom(scry[..o], selected, k) + UnselectedFrom(scry, selected, o)
    decreases o - k
  {
    if k < o {
      UnselectedSplit(scry, selected, k + 1, o);
      assert scry[..o][k] == scry[k];
    }
  }

  /** Before `o`, whether `o` is selected makes no difference. */
  lemma {:induction false} UnselectedBefore<T>(front: seq<T>, rest: set<nat>, o: nat, k: nat)
    requires |front| <= o
    ensures UnselectedFrom(front, rest, k) == UnselectedFrom(front, rest + {o}, k)
    decreases |front| - k
  {
    if k < |front| {
      UnselectedBefore(front, rest, o, k + 1);
      assert (k in rest) == (k in rest + {o});
    }
  }

  /** Leaving `o` out as well takes exactly its card away. */
  lemma UnselectedFromOneMore<T>(scry: seq<T>, rest: set<nat>, o: nat, k: nat)
    requires k <= o < |scry| && o !in rest
    ensures multiset(UnselectedFrom(scry, rest, k)) == multiset(UnselectedFrom(scry, rest + {o}, k)) + multiset{scry[o]}
  {
    var front := UnselectedFrom(scry[..o], rest, k);
    var back := UnselectedFrom(scry, rest, o + 1);
    UnselectedSplit(scry, rest, k, o);
    UnselectedSplit(scry, rest + {o}, k, o);
    UnselectedBefore(scry[..o], rest, o, k);
    UnselectedPast(scry, rest, o, o + 1);
    assert UnselectedFrom(scry, rest, o) == [scry[o]] + back;
    assert UnselectedFrom(scry, rest + {o}, o) == back;
    MultisetMiddle(front, scry[o], back);
  }

  lemma MultisetMiddle<T>(front: seq<T>, x: T, back: seq<T>)
    ensures multiset(front + ([x] + back)) == multiset(front + back) + multiset{x}
  {
    assert multiset(front + ([x] + back)) == multiset(front) + multiset([x] + back);
  }

  lemma FirstNotInRest(ordered: seq<nat>)
    requires ordered != []
    requires forall i, j :: 0 <= i < j < |ordered| ==> ordered[i] != ordered[j]
    ensures ordered[0] !in ordered[1..]
  {
    forall j | 0 <= j < |ordered| - 1
      ensures ordered[1..][j] != ordered[0]
    {
      assert ordered[1..][j] == ordered[j + 1];
    }
  }

  /** With distinct in-range indices, the chosen and the unselected cards are all the scry cards. */
  lemma {:induction false} PickedAndUnselected<T>(scry: seq<T>, ordered: seq<nat>)
    requires forall i :: 0 <= i < |ordered| ==> ordered[i] < |scry|
    requires forall i, j :: 0 <= i < j < |ordered| ==> ordered[i] != ordered[j]
    ensures multiset(Picked(scry, ordered)) + multiset(UnselectedFrom(scry, Indices(ordered), 0)) == multiset(scry)
    decreases |ordered|
  {
    if ordered == [] {
      UnselectedNothing(scry, Indices(ordered), 0);
    } else {
      var o := ordered[0];
      var rest := ordered[1..];
      var pr := multiset(Picked(scry, rest));
      var ur := multiset(UnselectedFrom(scry, Indices(rest), 0));
      var uo := multiset(UnselectedFrom(scry, Indices(ordered), 0));
      assert pr + ur == multiset(scry) by {
        PickedAndUnselected(scry, rest);
      }
      assert ur == uo + multiset{scry[o]} by {
        FirstNotInRest(ordered);
        assert Indices(ordered) == Indices(rest) + {o};
        UnselectedFromOneMore(scry, Indices(rest), o, 0);
      }
      assert multiset(Picked(scry, ordered)) == multiset{scry[o]} + pr by {
        assert Picked(scry, ordered) == [scry[o]] + Picked(scry, rest);
      }
    }
  }
}
