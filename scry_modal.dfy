/**
 * The scry dialog (frontend/src/components/game/ScryModal.tsx): the player
 * clicks the revealed cards to build `scryOrder`, the order in which they go
 * back on top, and then confirms it, sends every card to the bottom, clears
 * the selection or closes the dialog; the dialog's only effect on the game
 * is the list it hands to `onDecision`.
 */
module ScryModal {
  import opened Common

  /** What the player does in the dialog. */
  datatype Action =
    | ToggleCard(index: nat)
    | Confirm
    | PutAllOnBottom
    | ClearSelection
    | CloseModal

  /** The callback an action fires, if any. */
  datatype Output = NoCall | Decision(ordered: seq<nat>) | Closed

  /** The dialog's response to one action: the new `scryOrder` and the callback it fires. */
  function Step(order: seq<nat>, a: Action): (r: (seq<nat>, Output))
    ensures a.ToggleCard? ==> r.1 == NoCall && (a.index in r.0 <==> a.index !in order)
    ensures !a.ToggleCard? && !(a.Confirm? && order == []) ==> r.0 == []
    ensures r.1.Decision? ==> (a.Confirm? && r.1.ordered == order != []) || (a.PutAllOnBottom? && r.1.ordered == [])
    ensures r.1.Closed? <==> a.CloseModal?
  {
    match a
    case ToggleCard(i) => ToggleFlips(order, i); (Toggle(order, i), NoCall)
    // the Confirm button is disabled while the order is empty
    case Confirm => if order == [] then (order, NoCall) else ([], Decision(order))
    case PutAllOnBottom => ([], Decision([]))
    case ClearSelection => ([], NoCall)
    case CloseModal => ([], Closed)
  }

  /** An action the dialog offers with `n` cards revealed: it only shows cards 0 .. n-1. */
  predicate Offered(a: Action, n: nat)
  {
    a.ToggleCard? ==> a.index < n
  }

  /** A well-formed order: each revealed card at most once. */
  predicate ValidOrder(order: seq<nat>, n: nat)
  {
    Distinct(order) && forall k :: 0 <= k < |order| ==> order[k] < n
  }

  /** Every step keeps the order well-formed. */
  lemma StepKeepsValid(order: seq<nat>, a: Action, n: nat)
    requires ValidOrder(order, n) && Offered(a, n)
    ensures ValidOrder(Step(order, a).0, n)
  {
    match a
    case ToggleCard(i) =>
      ToggleKeepsDistinct(order, i);
      var r := Toggle(order, i);
      forall k | 0 <= k < |r| ensures r[k] < n {
        assert r[k] in r;
        ToggleFlips(order, i);
        if r[k] != i {
          assert r[k] in order;
        }
      }
    case _ =>
  }

  /** The dialog's run over a sequence of actions: the final order and every callback fired, in order. */
  function Run(order: seq<nat>, actions: seq<Action>): (seq<nat>, seq<Output>)
    decreases |actions|
  {
    if actions == [] then (order, [])
    else
      var s := Step(order, actions[0]);
      var rest := Run(s.0, actions[1..]);
      (rest.0, (if s.1 == NoCall then [] else [s.1]) + rest.1)
  }

  /**
   * From a well-formed order, every decision the dialog sends names each
   * revealed card at most once and only cards that exist, which is what
   * handleScryDecision needs of its argument.
   */
  lemma {:induction false} RunSendsValidDecisions(order: seq<nat>, actions: seq<Action>, n: nat)
    requires ValidOrder(order, n)
    requires forall k :: 0 <= k < |actions| ==> Offered(actions[k], n)
    ensures ValidOrder(Run(order, actions).0, n)
    ensures forall k :: 0 <= k < |Run(order, actions).1| ==>
      var o := Run(order, actions).1[k]; o.Decision? ==> ValidOrder(o.ordered, n)
    decreases |actions|
  {
    if actions != [] {
      var s := Step(order, actions[0]);
      StepKeepsValid(order, actions[0], n);
      assert forall k :: 0 <= k < |actions[1..]| ==> Offered(actions[1..][k], n) by {
        forall k | 0 <= k < |actions[1..]| ensures Offered(actions[1..][k], n) {
          assert actions[1..][k] == actions[k + 1];
        }
      }
      RunSendsValidDecisions(s.0, actions[1..], n);
      var outs := Run(order, actions).1;
      var rest := Run(s.0, actions[1..]).1;
      var head: seq<Output> := if s.1 == NoCall then [] else [s.1];
      assert outs == head + rest;
      forall k | 0 <= k < |outs| ensures outs[k].Decision? ==> ValidOrder(outs[k].ordered, n) {
        if k < |head| {
          assert outs[k] == s.1;
        } else {
          assert outs[k] == rest[k - |head|];
        }
      }
    }
  }

  /** Clicking the same card twice leaves the order as it was when the card was not chosen. */
  lemma ToggleTwiceRestores(order: seq<nat>, i: nat)
    requires i !in order
    ensures Step(Step(order, ToggleCard(i)).0, ToggleCard(i)).0 == order
  {
    ToggleTwiceAbsent(order, i);
  }

  /** Choosing cards 2, 0 in that order and confirming sends exactly [2, 0]. */
  lemma ConfirmExample()
    ensures Run([], [ToggleCard(2), ToggleCard(0), Confirm]) == ([], [Decision([2, 0])])
  {
    var acts := [ToggleCard(2), ToggleCard(0), Confirm];
    assert Step([], ToggleCard(2)).0 == [2];
    assert Step([2], ToggleCard(0)).0 == [2, 0];
    assert acts[1..] == [ToggleCard(0), Confirm];
    assert acts[1..][1..] == [Confirm];
    assert Step([2, 0], Confirm) == ([], Decision([2, 0]));
    assert [Confirm][1..] == [];
    assert Run([], []) == ([], []);
    var sent: seq<Output> := [Decision([2, 0])];
    assert sent + [] == sent;
    assert Run([2, 0], [Confirm]) == ([], sent);
    assert [ToggleCard(0), Confirm][1..] == [Confirm];
    assert [] + sent == sent;
    assert Run([2], [ToggleCard(0), Confirm]) == ([], sent);
  }
}
