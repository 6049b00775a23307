/**
 * The combat steps (frontend/src/contexts/DeckProvider.tsx): clearing the
 * combat state (1633-1652), the first-strike check (1481-1509), advancing
 * through the combat steps (1427-1479) and declaring attackers (2128-2192)
 * and blockers (2194-2252).
 */
module CombatSteps {
  import opened Common
  import opened DeckTypes
  import opened Players
  import opened CardRules
  import opened Turns
  import opened Combat

  // ----- clearCombatState -----

  /** Damage wiped from every creature and no attack or block left. */
  function ClearCombatPatch(p: PlayerState): Patch
  {
    Keep.(creatures := Some(DamageCleared(p.creatures)), combatState := Some(NoCombat))
  }

  /** Every creature stays where it is with no damage; nothing else but the combat state changes. */
  lemma ClearCombatEffect(p: PlayerState)
    ensures var q := Merge(p, ClearCombatPatch(p));
      && |q.creatures| == |p.creatures|
      && (forall i :: 0 <= i < |q.creatures| ==> q.creatures[i] == p.creatures[i].(damage := 0))
      && q.combatState.attackers == [] && q.combatState.blockers == map[]
      && q == p.(creatures := q.creatures, combatState := NoCombat)
  {
  }

  /** Clearing twice is clearing once. */
  lemma ClearCombatTwice(p: PlayerState)
    ensures var q := Merge(p, ClearCombatPatch(p)); Merge(q, ClearCombatPatch(q)) == q
  {
    var q := Merge(p, ClearCombatPatch(p));
    assert DamageCleared(q.creatures) == q.creatures;
  }

  // ----- checkForFirstStrike -----

  /** `creatures[parseInt(index)] && hasFirstStrikeAbility(...)`. */
  predicate FirstStrikerAt(row: seq<Inst>, id: InstId)
  {
    id.slot < |row| && HasFirstStrikeAbility(row[id.slot].card)
  }

  predicate AttackingFirstStriker(p: PlayerState)
  {
    exists a :: a in p.combatState.attackers && FirstStrikerAt(p.creatures, a)
  }

  /** Some blocker, of any attacker in the blockers record, has first strike. */
  predicate BlockingFirstStriker(d: PlayerState)
  {
    exists a, b :: a in d.combatState.blockers && b in d.combatState.blockers[a] && FirstStrikerAt(d.creatures, b)
  }

  /** checkForFirstStrike: only the rules text counts, and double strike does not. */
  predicate CheckForFirstStrike(ps: seq<PlayerState>, pid: string)
  {
    match GetPlayer(ps, pid)
    case None => false
    case Some(p) =>
      AttackingFirstStriker(p) || (Defender(ps, pid).Some? && BlockingFirstStriker(Defender(ps, pid).value))
  }

  /**
   * Skipping the first-strike step loses nothing when no attacker has
   * double strike: without a first striker among the attackers, the
   * first-strike pass would have written nothing.
   */
  lemma SkippedFirstStrikeQuiet(ps: seq<PlayerState>, pid: string, p: PlayerState)
    requires GetPlayer(ps, pid) == Some(p) && !CheckForFirstStrike(ps, pid)
    requires forall i :: 0 <= i < |p.combatState.attackers| && At(p.creatures, p.combatState.attackers[i]).Some? ==>
      !HasDoubleStrikeText(At(p.creatures, p.combatState.attackers[i]).value.card)
    ensures ResolveCombatDamageWrites(ps, pid, true) == []
  {
    var attackers := p.combatState.attackers;
    forall i | 0 <= i < |attackers| && At(p.creatures, attackers[i]).Some?
      ensures !StrikesFirst(At(p.creatures, attackers[i]).value.card)
    {
      assert !FirstStrikerAt(p.creatures, attackers[i]);
    }
    match Defender(ps, pid)
    case None =>
    case Some(d) =>
      NoFirstStrikersQuiet(p, d, attackers);
  }

  /**
   * An unblocked attacker whose text says double strike but not first
   * strike does not make the check succeed, so the first-strike step it
   * would have dealt damage in is skipped.
   */
  lemma DoubleStrikerSkipsFirstStep(ps: seq<PlayerState>, pid: string, p: PlayerState, d: PlayerState, a: InstId, ac: Inst)
    requires GetPlayer(ps, pid) == Some(p) && Defender(ps, pid) == Some(d)
    requires p.combatState.attackers == [a] && At(p.creatures, a) == Some(ac)
    requires HasDoubleStrikeText(ac.card) && !HasFirstStrikeAbility(ac.card)
    requires d.combatState.blockers == map[]
    ensures !CheckForFirstStrike(ps, pid)
    ensures ResolveCombatDamageWrites(ps, pid, true) != []
  {
    assert !AttackingFirstStriker(p);
    DamageWritesOne(p, d, a, true);
    assert PassWrites(p, d, true) == DirectWrites(p, d, ac);
  }

  /**
   * A plain attacker blocked only by a creature with first strike (and not
   * double strike): neither deals damage in either pass, since the
   * first-strike pass skips the attacker and the regular pass its blocker.
   */
  lemma PlainAttackerMeetsFirstStriker(p: PlayerState, d: PlayerState, a: InstId, ac: Inst, b: InstId, bc: Inst)
    requires At(p.creatures, a) == Some(ac) && !StrikesFirst(ac.card)
    requires BlockersOf(d, a) == [b] && At(d.creatures, b) == Some(bc)
    requires HasFirstStrikeAbility(bc.card) && !HasDoubleStrikeText(bc.card)
    ensures AttackerWrites(p, d, a, true) == [] && AttackerWrites(p, d, a, false) == []
  {
    BlockWritesSkipped(p, d, ac, [b], false);
  }

  // ----- advanceCombatStep -----

  predicate IsCombatStep(s: Step)
  {
    s.BeginningOfCombat? || s.DeclareAttackers? || s.DeclareBlockers? || s.FirstStrikeDamage? || s.CombatDamage? || s.EndOfCombat?
  }

  /** The order of the combat steps. */
  function CombatRank(s: Step): nat
  {
    match s
    case BeginningOfCombat => 0
    case DeclareAttackers => 1
    case DeclareBlockers => 2
    case FirstStrikeDamage => 3
    case CombatDamage => 4
    case _ => 5
  }

  /** The step advanceCombatStep moves to; None where it leaves combat or does nothing. */
  function NextCombatStep(ps: seq<PlayerState>, pid: string, p: PlayerState): (r: Option<Step>)
    ensures r.Some? <==> IsCombatStep(p.turnState.currentStep) && !p.turnState.currentStep.EndOfCombat?
    ensures r.Some? ==> IsCombatStep(r.value) && CombatRank(r.value) > CombatRank(p.turnState.currentStep)
  {
    match p.turnState.currentStep
    case BeginningOfCombat => Some(DeclareAttackers)
    case DeclareAttackers => Some(if p.combatState.attackers == [] then EndOfCombat else DeclareBlockers)
    case DeclareBlockers => Some(if CheckForFirstStrike(ps, pid) then FirstStrikeDamage else CombatDamage)
    case FirstStrikeDamage => Some(CombatDamage)
    case CombatDamage => Some(EndOfCombat)
    case _ => None
  }

  /** `turnState: { ...player.turnState, currentStep: nextStep }`. */
  function StepPatch(p: PlayerState, s: Step): Patch
  {
    Keep.(turnState := Some(p.turnState.(currentStep := s)))
  }

  /** The damage a step resolves before moving on. */
  function StepDamageWrites(ps: seq<PlayerState>, pid: string, s: Step): seq<Write>
  {
    match s
    case FirstStrikeDamage => ResolveCombatDamageWrites(ps, pid, true)
    case CombatDamage => ResolveCombatDamageWrites(ps, pid, false)
    case _ => []
  }

  /** advanceCombatStep. */
  function AdvanceCombatStepWrites(ps: seq<PlayerState>, pid: string): seq<Write>
  {
    match GetPlayer(ps, pid)
    case None => []
    case Some(p) =>
      if p.turnState.currentPhase != Combat then []
      else if p.turnState.currentStep == EndOfCombat then
        [Write(pid, ClearCombatPatch(p)), Write(pid, ChangePhasePatch(p, PostcombatMain))]
      else
        match NextCombatStep(ps, pid, p)
        case None => []
        case Some(s) => StepDamageWrites(ps, pid, p.turnState.currentStep) + [Write(pid, StepPatch(p, s))]
  }

  /**
   * Outside combat, for a missing player, and in a step that is not a
   * combat step, advancing does nothing.
   */
  lemma AdvanceCombatStepRefused(ps: seq<PlayerState>, pid: string)
    requires GetPlayer(ps, pid).None? || GetPlayer(ps, pid).value.turnState.currentPhase != Combat
      || !IsCombatStep(GetPlayer(ps, pid).value.turnState.currentStep)
    ensures AdvanceCombatStepWrites(ps, pid) == []
  {
  }

  /**
   * Advancing from a combat step before the end of combat first resolves
   * that step's damage (first-strike damage in the first-strike step,
   * regular damage in the damage step, none otherwise) and then sets the
   * next step on the player's snapshot turn state, which always lies
   * further along.
   */
  lemma AdvanceCombatStepMoves(ps: seq<PlayerState>, pid: string, p: PlayerState, s: Step)
    requires GetPlayer(ps, pid) == Some(p) && p.turnState.currentPhase == Combat
    requires NextCombatStep(ps, pid, p) == Some(s)
    ensures Commit(ps, AdvanceCombatStepWrites(ps, pid)) ==
      Update(Commit(ps, StepDamageWrites(ps, pid, p.turnState.currentStep)), pid, StepPatch(p, s))
    ensures CombatRank(s) > CombatRank(p.turnState.currentStep)
  {
    assert p.turnState.currentStep != EndOfCombat;
    var dmg := StepDamageWrites(ps, pid, p.turnState.currentStep);
    assert AdvanceCombatStepWrites(ps, pid) == dmg + [Write(pid, StepPatch(p, s))];
    CommitSnoc(ps, dmg, Write(pid, StepPatch(p, s)));
  }

  /** After the step is set, the player's turn state is the snapshot's with the new step. */
  lemma AdvanceCombatStepTurnState(ps: seq<PlayerState>, pid: string, p: PlayerState, s: Step)
    requires GetPlayer(ps, pid) == Some(p) && p.turnState.currentPhase == Combat
    requires NextCombatStep(ps, pid, p) == Some(s)
    ensures GetPlayer(Commit(ps, AdvanceCombatStepWrites(ps, pid)), pid).Some?
    ensures GetPlayer(Commit(ps, AdvanceCombatStepWrites(ps, pid)), pid).value.turnState == p.turnState.(currentStep := s)
  {
    AdvanceCombatStepMoves(ps, pid, p, s);
    var mid := Commit(ps, StepDamageWrites(ps, pid, p.turnState.currentStep));
    CommitGet(ps, StepDamageWrites(ps, pid, p.turnState.currentStep), pid);
    GetUpdated(mid, pid, StepPatch(p, s));
  }

  /** The two end-of-combat writes merged into the snapshot player. */
  lemma EndCombatPatches(p: PlayerState)
    ensures MergeAll(p, [ClearCombatPatch(p), ChangePhasePatch(p, PostcombatMain)]) ==
      p.(creatures := DamageCleared(p.creatures), combatState := NoCombat,
         turnState := p.turnState.(currentPhase := PostcombatMain), showDeckActions := false)
  {
    MergeTwo(p, ClearCombatPatch(p), ChangePhasePatch(p, PostcombatMain));
    var c := Merge(p, ClearCombatPatch(p));
    assert c == p.(creatures := DamageCleared(p.creatures), combatState := NoCombat);
    assert StepFor(PostcombatMain, p.turnState.currentStep) == p.turnState.currentStep;
  }

  lemma AdvanceEndWrites(ps: seq<PlayerState>, pid: string, p: PlayerState)
    requires GetPlayer(ps, pid) == Some(p) && p.turnState.currentPhase == Combat
    requires p.turnState.currentStep == EndOfCombat
    ensures AdvanceCombatStepWrites(ps, pid) == WritesTo(pid, [ClearCombatPatch(p), ChangePhasePatch(p, PostcombatMain)])
  {
  }

  /**
   * The end of combat clears damage and combat and moves to the
   * postcombat main phase; the step stays the end-of-combat step, since a
   * main phase keeps the current step.
   */
  lemma AdvanceCombatStepEnds(ps: seq<PlayerState>, pid: string, p: PlayerState)
    requires GetPlayer(ps, pid) == Some(p) && p.turnState.currentPhase == Combat
    requires p.turnState.currentStep == EndOfCombat
    ensures GetPlayer(Commit(ps, AdvanceCombatStepWrites(ps, pid)), pid) ==
      Some(p.(creatures := DamageCleared(p.creatures), combatState := NoCombat,
              turnState := p.turnState.(currentPhase := PostcombatMain), showDeckActions := false))
  {
    var us := [ClearCombatPatch(p), ChangePhasePatch(p, PostcombatMain)];
    AdvanceEndWrites(ps, pid, p);
    CommitOwn(ps, pid, us);
    EndCombatPatches(p);
  }

  /** The end of combat touches no other player. */
  lemma AdvanceCombatStepEndsAlone(ps: seq<PlayerState>, pid: string, p: PlayerState, x: string)
    requires GetPlayer(ps, pid) == Some(p) && p.turnState.currentPhase == Combat
    requires p.turnState.currentStep == EndOfCombat && x != pid
    ensures GetPlayer(Commit(ps, AdvanceCombatStepWrites(ps, pid)), x) == GetPlayer(ps, x)
  {
    AdvanceEndWrites(ps, pid, p);
    CommitOther(ps, pid, [ClearCombatPatch(p), ChangePhasePatch(p, PostcombatMain)], x);
  }

  /** Through end of combat from the first combat step: at most six advances, each moving strictly forward. */
  lemma CombatStepsTerminate(ps: seq<PlayerState>, pid: string, p: PlayerState, s: Step)
    requires NextCombatStep(ps, pid, p) == Some(s)
    ensures CombatRank(s) <= 5 && CombatRank(p.turnState.currentStep) < 5
  {
  }

  // ----- declareAttacker -----

  /** The checks of declareAttacker, by creature index. */
  predicate MayDeclareAttacker(p: PlayerState, activeId: string, idx: int)
  {
    && p.turnState.currentPhase == Combat && p.turnState.currentStep == DeclareAttackers
    && p.id == activeId
    && 0 <= idx < |p.creatures| && IsCreature(p.creatures[idx].card)
    && AttackerId(p, idx) !in p.tappedCreatures
    && !HasSummoningSickness(p.creatures[idx])
  }

  /** `combatState: { ...player.combatState, attackers }`. */
  function WithAttackers(p: PlayerState, attackers: seq<InstId>): Patch
  {
    Keep.(combatState := Some(p.combatState.(attackers := attackers)))
  }

  /** `tappedCreatures: new Set(tapped)`. */
  function WithTapped(tapped: set<InstId>): Patch
  {
    Keep.(tappedCreatures := Some(tapped))
  }

  lemma MergeWithAttackers(p: PlayerState, attackers: seq<InstId>)
    ensures Merge(p, WithAttackers(p, attackers)) == p.(combatState := p.combatState.(attackers := attackers))
  {
  }

  lemma MergeWithTapped(p: PlayerState, tapped: set<InstId>)
    ensures Merge(p, WithTapped(tapped)) == p.(tappedCreatures := tapped)
  {
  }

  /**
   * Toggling the attacker `id`: a creature not yet attacking is added (and
   * tapped unless it has vigilance); one already attacking is withdrawn
   * (and its tap forgotten if it has vigilance).
   */
  function AttackerToggle(p: PlayerState, id: InstId, vigilant: bool): seq<Patch>
  {
    if id in p.combatState.attackers then
      [WithAttackers(p, Filter(p.combatState.attackers, (x: InstId) => x != id))]
      + (if vigilant then [WithTapped(p.tappedCreatures - {id})] else [])
    else
      [WithAttackers(p, p.combatState.attackers + [id])]
      + (if !vigilant then [WithTapped(p.tappedCreatures + {id})] else [])
  }

  /** declareAttacker. */
  function DeclareAttackerPatches(p: PlayerState, activeId: string, idx: int): seq<Patch>
  {
    if !MayDeclareAttacker(p, activeId, idx) then []
    else AttackerToggle(p, InstId(p.creatures[idx].card.id, idx), HasVigilance(p.creatures[idx].card))
  }

  /** declareAttacker writes exactly when every check passes. */
  lemma DeclareAttackerActs(p: PlayerState, activeId: string, idx: int)
    ensures DeclareAttackerPatches(p, activeId, idx) != [] <==> MayDeclareAttacker(p, activeId, idx)
  {
  }

  /** A new attacker goes to the end of the attackers and is tapped unless it has vigilance. */
  lemma AttackerToggleAdds(p: PlayerState, id: InstId, vigilant: bool)
    requires id !in p.combatState.attackers
    ensures MergeAll(p, AttackerToggle(p, id, vigilant)) ==
      p.(combatState := p.combatState.(attackers := p.combatState.attackers + [id]),
         tappedCreatures := if vigilant then p.tappedCreatures else p.tappedCreatures + {id})
  {
    var us := AttackerToggle(p, id, vigilant);
    var added := p.combatState.attackers + [id];
    MergeWithAttackers(p, added);
    if vigilant {
      MergeOne(p, us[0]);
    } else {
      MergeTwo(p, us[0], us[1]);
      MergeWithTapped(p.(combatState := p.combatState.(attackers := added)), p.tappedCreatures + {id});
    }
  }

  /** Toggling an attacker again withdraws every entry of it; with vigilance it is also untapped. */
  lemma AttackerToggleWithdraws(p: PlayerState, id: InstId, vigilant: bool)
    requires id in p.combatState.attackers
    ensures var left := Filter(p.combatState.attackers, (x: InstId) => x != id);
      && id !in left
      && (forall x :: x != id ==> (x in left <==> x in p.combatState.attackers))
      && MergeAll(p, AttackerToggle(p, id, vigilant)) ==
           p.(combatState := p.combatState.(attackers := left),
              tappedCreatures := if vigilant then p.tappedCreatures - {id} else p.tappedCreatures)
  {
    var us := AttackerToggle(p, id, vigilant);
    var left := Filter(p.combatState.attackers, (x: InstId) => x != id);
    MergeWithAttackers(p, left);
    if vigilant {
      MergeTwo(p, us[0], us[1]);
      MergeWithTapped(p.(combatState := p.combatState.(attackers := left)), p.tappedCreatures - {id});
    } else {
      MergeOne(p, us[0]);
    }
  }

  /** The declared creature's id: `${creature.id}-${creatureIndex}`. */
  function AttackerId(p: PlayerState, idx: int): InstId
    requires 0 <= idx < |p.creatures|
  {
    InstId(p.creatures[idx].card.id, idx)
  }

  /** A new attacker goes to the end of the attackers and is tapped unless it has vigilance. */
  lemma DeclareAttackerAdds(p: PlayerState, activeId: string, idx: int)
    requires MayDeclareAttacker(p, activeId, idx) && AttackerId(p, idx) !in p.combatState.attackers
    ensures var id := AttackerId(p, idx);
      MergeAll(p, DeclareAttackerPatches(p, activeId, idx)) ==
        p.(combatState := p.combatState.(attackers := p.combatState.attackers + [id]),
           tappedCreatures := if HasVigilance(p.creatures[idx].card) then p.tappedCreatures else p.tappedCreatures + {id})
  {
    AttackerToggleAdds(p, AttackerId(p, idx), HasVigilance(p.creatures[idx].card));
  }

  /** Declaring an attacker again withdraws every entry of it; with vigilance it is also untapped. */
  lemma DeclareAttackerWithdraws(p: PlayerState, activeId: string, idx: int)
    requires MayDeclareAttacker(p, activeId, idx) && AttackerId(p, idx) in p.combatState.attackers
    ensures var id := AttackerId(p, idx);
      var q := MergeAll(p, DeclareAttackerPatches(p, activeId, idx));
      && id !in q.combatState.attackers
      && (forall x :: x != id ==> (x in q.combatState.attackers <==> x in p.combatState.attackers))
      && q == p.(combatState := p.combatState.(attackers := q.combatState.attackers),
                 tappedCreatures := if HasVigilance(p.creatures[idx].card) then p.tappedCreatures - {id} else p.tappedCreatures)
  {
    AttackerToggleWithdraws(p, AttackerId(p, idx), HasVigilance(p.creatures[idx].card));
  }

  /**
   * A creature without vigilance, once declared, is tapped, so declaring it
   * again is refused: it cannot be withdrawn.
   */
  lemma AttackerWithoutVigilanceStays(p: PlayerState, activeId: string, idx: int)
    requires MayDeclareAttacker(p, activeId, idx) && !HasVigilance(p.creatures[idx].card)
    requires AttackerId(p, idx) !in p.combatState.attackers
    ensures var q := MergeAll(p, DeclareAttackerPatches(p, activeId, idx));
      !MayDeclareAttacker(q, activeId, idx) && DeclareAttackerPatches(q, activeId, idx) == []
  {
    DeclareAttackerAdds(p, activeId, idx);
  }

  /** Toggling a vigilant creature twice leaves the player exactly as it was. */
  lemma VigilantToggleTwice(p: PlayerState, id: InstId)
    requires id !in p.combatState.attackers && id !in p.tappedCreatures
    ensures MergeAll(MergeAll(p, AttackerToggle(p, id, true)), AttackerToggle(MergeAll(p, AttackerToggle(p, id, true)), id, true)) == p
  {
    AttackerToggleAdds(p, id, true);
    var q := p.(combatState := p.combatState.(attackers := p.combatState.attackers + [id]));
    AttackerToggleWithdraws(q, id, true);
    var keep := (x: InstId) => x != id;
    FilterAppend(p.combatState.attackers, [id], keep);
    FilterKeepsAll(p.combatState.attackers, keep);
    assert Filter([id], keep) == [];
    assert p.tappedCreatures - {id} == p.tappedCreatures;
    assert p.combatState.(attackers := p.combatState.attackers) == p.combatState;
  }

  /** A vigilant creature declared twice leaves the player exactly as it was. */
  lemma VigilantAttackerToggles(p: PlayerState, activeId: string, idx: int)
    requires MayDeclareAttacker(p, activeId, idx) && HasVigilance(p.creatures[idx].card)
    requires AttackerId(p, idx) !in p.combatState.attackers
    ensures var q := MergeAll(p, DeclareAttackerPatches(p, activeId, idx));
      MergeAll(q, DeclareAttackerPatches(q, activeId, idx)) == p
  {
    var id := AttackerId(p, idx);
    var q := MergeAll(p, DeclareAttackerPatches(p, activeId, idx));
    AttackerToggleAdds(p, id, true);
    assert q.creatures == p.creatures && q.turnState == p.turnState && q.tappedCreatures == p.tappedCreatures;
    assert MayDeclareAttacker(q, activeId, idx);
    VigilantToggleTwice(p, id);
  }

  // ----- declareBlocker -----

  /**
   * The checks of declareBlocker: the active player is in the declare
   * blockers step, the blocker index names an untapped creature of the
   * defender, and the attacking player has declared an attacker.
   */
  predicate MayDeclareBlocker(d: PlayerState, a: PlayerState, active: PlayerState, idx: int)
  {
    && active.turnState.currentPhase == Combat && active.turnState.currentStep == DeclareBlockers
    && 0 <= idx < |d.creatures| && IsCreature(d.creatures[idx].card)
    && BlockerId(d, idx) !in d.tappedCreatures
    && a.combatState.attackers != []
  }

  /** `blockers[attacker] || []`. */
  function ListOf(m: map<InstId, seq<InstId>>, k: InstId): seq<InstId>
  {
    if k in m then m[k] else []
  }

  /** The blockers record with `blocker` toggled in the list of the attacker `first`. */
  function ToggleIn(m: map<InstId, seq<InstId>>, first: InstId, blocker: InstId): map<InstId, seq<InstId>>
  {
    var current := ListOf(m, first);
    m[first := if blocker in current then Filter(current, (x: InstId) => x != blocker) else current + [blocker]]
  }

  /** `combatState: { ...defender.combatState, blockers }`. */
  function WithBlockers(d: PlayerState, blockers: map<InstId, seq<InstId>>): Patch
  {
    Keep.(combatState := Some(d.combatState.(blockers := blockers)))
  }

  lemma MergeWithBlockers(d: PlayerState, blockers: map<InstId, seq<InstId>>)
    ensures Merge(d, WithBlockers(d, blockers)) == d.(combatState := d.combatState.(blockers := blockers))
  {
  }

  /** The blocker's id: `${blocker.id}-${blockerIndex}`. */
  function BlockerId(d: PlayerState, idx: int): InstId
    requires 0 <= idx < |d.creatures|
  {
    InstId(d.creatures[idx].card.id, idx)
  }

  /**
   * declareBlocker: the blocker always blocks the attacking player's FIRST
   * attacker, whatever attacker index the caller named.
   */
  function DeclareBlockerPatches(d: PlayerState, a: PlayerState, active: PlayerState, attackerIndex: int, idx: int): seq<Patch>
  {
    if !MayDeclareBlocker(d, a, active, idx) then []
    else [WithBlockers(d, ToggleIn(d.combatState.blockers, a.combatState.attackers[0], BlockerId(d, idx)))]
  }

  /** The toggled list holds the blocker exactly when the old one did not, and keeps every other entry. */
  lemma ToggleInEffect(m: map<InstId, seq<InstId>>, first: InstId, blocker: InstId)
    ensures var r := ToggleIn(m, first, blocker);
      && first in r
      && (blocker in r[first] <==> blocker !in ListOf(m, first))
      && (forall x :: x != blocker ==> (x in r[first] <==> x in ListOf(m, first)))
      && (forall k :: k != first ==> ListOf(r, k) == ListOf(m, k))
  {
  }

  /**
   * A declared blocker joins or leaves the first attacker's blocker list,
   * and nothing else about the defender changes.
   */
  lemma DeclareBlockerToggles(d: PlayerState, a: PlayerState, active: PlayerState, attackerIndex: int, idx: int)
    requires MayDeclareBlocker(d, a, active, idx)
    ensures var m := ToggleIn(d.combatState.blockers, a.combatState.attackers[0], BlockerId(d, idx));
      MergeAll(d, DeclareBlockerPatches(d, a, active, attackerIndex, idx)) == d.(combatState := d.combatState.(blockers := m))
  {
    var m := ToggleIn(d.combatState.blockers, a.combatState.attackers[0], BlockerId(d, idx));
    MergeOne(d, WithBlockers(d, m));
    MergeWithBlockers(d, m);
  }

  /** Which attacker is blocked does not depend on the attacker index. */
  lemma DeclareBlockerIgnoresAttackerIndex(d: PlayerState, a: PlayerState, active: PlayerState, i: int, j: int, idx: int)
    ensures DeclareBlockerPatches(d, a, active, i, idx) == DeclareBlockerPatches(d, a, active, j, idx)
  {
  }

  /** Toggling a new blocker twice gives back the old list, now always present in the record. */
  lemma ToggleInTwice(m: map<InstId, seq<InstId>>, first: InstId, blocker: InstId)
    requires blocker !in ListOf(m, first)
    ensures ToggleIn(ToggleIn(m, first, blocker), first, blocker) == m[first := ListOf(m, first)]
  {
    var cur := ListOf(m, first);
    var once := ToggleIn(m, first, blocker);
    assert ListOf(once, first) == cur + [blocker];
    assert blocker in ListOf(once, first);
    var keep := (x: InstId) => x != blocker;
    FilterAppend(cur, [blocker], keep);
    FilterKeepsAll(cur, keep);
    assert Filter([blocker], keep) == [];
    assert Filter(cur + [blocker], keep) == cur;
    assert once[first := cur] == m[first := cur];
  }

  /**
   * Declaring a new blocker twice restores the first attacker's list; the
   * record keeps an entry for it even if it had none before.
   */
  lemma DeclareBlockerTwice(d: PlayerState, a: PlayerState, active: PlayerState, attackerIndex: int, idx: int)
    requires MayDeclareBlocker(d, a, active, idx)
    requires BlockerId(d, idx) !in ListOf(d.combatState.blockers, a.combatState.attackers[0])
    ensures var q := MergeAll(d, DeclareBlockerPatches(d, a, active, attackerIndex, idx));
      var first := a.combatState.attackers[0];
      var m := d.combatState.blockers;
      MergeAll(q, DeclareBlockerPatches(q, a, active, attackerIndex, idx)) ==
        d.(combatState := d.combatState.(blockers := m[first := ListOf(m, first)]))
  {
    var first := a.combatState.attackers[0];
    var blocker := BlockerId(d, idx);
    var q := d.(combatState := d.combatState.(blockers := ToggleIn(d.combatState.blockers, first, blocker)));
    DeclareBlockerToggles(d, a, active, attackerIndex, idx);
    assert q.creatures == d.creatures && q.tappedCreatures == d.tappedCreatures;
    assert MayDeclareBlocker(q, a, active, idx);
    DeclareBlockerToggles(q, a, active, attackerIndex, idx);
    ToggleInTwice(d.combatState.blockers, first, blocker);
  }
}
