/**
 * The phase bar (frontend/src/components/PhaseSystem.tsx, 127-156): a phase
 * button is clickable only when the phase is the current one or comes later
 * in the turn, and a click on a disabled button never reaches
 * `onPhaseChange`.
 */
module PhaseSystem {
  import opened Common
  import opened DeckTypes

  /** `phaseOrder`, the five phases of a turn in order. */
  const PhaseOrder: seq<Phase> := [Beginning, PrecombatMain, Combat, PostcombatMain, Ending]

  /** `Array.prototype.indexOf`: the first position holding `x`, or -1. */
  function IndexOf(s: seq<Phase>, x: Phase): (r: int)
    ensures -1 <= r < |s|
    ensures r >= 0 ==> s[r] == x && forall j :: 0 <= j < r ==> s[j] != x
    ensures r == -1 ==> x !in s
  {
    if s == [] then -1
    else if s[0] == x then 0
    else
      var t := IndexOf(s[1..], x);
      if t == -1 then -1 else t + 1
  }

  /** Every phase is in the order, at exactly one position. */
  lemma PhaseOrderComplete(ph: Phase)
    ensures 0 <= IndexOf(PhaseOrder, ph) < 5 && PhaseOrder[IndexOf(PhaseOrder, ph)] == ph
  {
    assert ph in PhaseOrder by {
      match ph
      case Beginning => assert PhaseOrder[0] == ph;
      case PrecombatMain => assert PhaseOrder[1] == ph;
      case Combat => assert PhaseOrder[2] == ph;
      case PostcombatMain => assert PhaseOrder[3] == ph;
      case Ending => assert PhaseOrder[4] == ph;
    }
  }

  /** The order holds each phase once, so positions and phases determine each other. */
  lemma PhaseIndexInjective(a: Phase, b: Phase)
    ensures IndexOf(PhaseOrder, a) == IndexOf(PhaseOrder, b) <==> a == b
  {
    PhaseOrderComplete(a);
    PhaseOrderComplete(b);
  }

  /** `isClickable`: the phase's index is at least the current phase's. */
  predicate Clickable(current: Phase, ph: Phase)
  {
    IndexOf(PhaseOrder, ph) >= IndexOf(PhaseOrder, current)
  }

  /** The button's `onClick`: the phase handed to `onPhaseChange`, if any. */
  function Click(current: Phase, ph: Phase): (r: Option<Phase>)
    ensures r.Some? <==> Clickable(current, ph)
    ensures r.Some? ==> r.value == ph
  {
    if Clickable(current, ph) then Some(ph) else None
  }

  /** The position of each phase in the turn. */
  lemma PhasePositions()
    ensures IndexOf(PhaseOrder, Beginning) == 0
    ensures IndexOf(PhaseOrder, PrecombatMain) == 1
    ensures IndexOf(PhaseOrder, Combat) == 2
    ensures IndexOf(PhaseOrder, PostcombatMain) == 3
    ensures IndexOf(PhaseOrder, Ending) == 4
  {
    assert PhaseOrder[1..][1..][1..][1..] == [Ending];
  }

  /** The current phase and the ending phase are always clickable. */
  lemma CurrentAndEndingClickable(current: Phase)
    ensures Clickable(current, current)
    ensures Clickable(current, Ending)
  {
    PhasePositions();
    PhaseOrderComplete(current);
  }

  /** The beginning phase is clickable only while it is the current phase. */
  lemma BeginningClickable(current: Phase)
    ensures Clickable(current, Beginning) <==> current == Beginning
  {
    PhasePositions();
    PhaseIndexInjective(current, Beginning);
  }

  /** A click never goes backwards: the phase it hands on is not earlier than the current one. */
  lemma ClickMovesForward(current: Phase, ph: Phase)
    ensures Click(current, ph).Some? ==>
      IndexOf(PhaseOrder, Click(current, ph).value) >= IndexOf(PhaseOrder, current)
    ensures IndexOf(PhaseOrder, ph) < IndexOf(PhaseOrder, current) ==> Click(current, ph).None?
  {
  }

  /** The clickable phases are closed upwards: a phase after a clickable one is clickable too. */
  lemma ClickableUpward(current: Phase, a: Phase, b: Phase)
    requires Clickable(current, a) && IndexOf(PhaseOrder, a) <= IndexOf(PhaseOrder, b)
    ensures Clickable(current, b)
  {
  }

  /** Advancing the current phase only removes clickable phases. */
  lemma ClickableShrinks(c1: Phase, c2: Phase, ph: Phase)
    requires IndexOf(PhaseOrder, c1) <= IndexOf(PhaseOrder, c2)
    ensures Clickable(c2, ph) ==> Clickable(c1, ph)
  {
  }
}
