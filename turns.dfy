/**
 * Turn and phase bookkeeping (frontend/src/contexts/DeckProvider.tsx:1396-1425,
 * 1654-1756, 1911-2019, 2115-2124): changing phase, untapping, passing the
 * turn, the small toggles of the player panel, and adding and removing
 * players.
 */
module Turns {
  import opened Common
  import opened DeckTypes
  import opened Players

  // ----- changePhase -----

  /** The step a new phase starts in; the main phases keep the current step (1402-1415). */
  function StepFor(phase: Phase, current: Step): Step
  {
    match phase
    case Beginning => Untap
    case Combat => BeginningOfCombat
    case Ending => EndStep
    case _ => current
  }

  /** changePhase (1397-1425). It does not itself refuse going back to an earlier phase. */
  function ChangePhasePatch(p: PlayerState, phase: Phase): Patch
  {
    Keep.(turnState := Some(p.turnState.(currentPhase := phase, currentStep := StepFor(phase, p.turnState.currentStep))),
          showDeckActions := Some(if phase == Beginning then p.showDeckActions else false))
  }

  /**
   * The new phase is entered at its first step (untap, beginning of combat,
   * end step) or, for a main phase, at the step the player was in; the deck
   * actions stay open only when entering the beginning phase.
   */
  lemma ChangePhaseEffect(p: PlayerState, phase: Phase)
    ensures var q := Merge(p, ChangePhasePatch(p, phase));
      && q.turnState.currentPhase == phase
      && (phase == Beginning ==> q.turnState.currentStep == Untap && q.showDeckActions == p.showDeckActions)
      && (phase == Combat ==> q.turnState.currentStep == BeginningOfCombat)
      && (phase == Ending ==> q.turnState.currentStep == EndStep)
      && (phase == PrecombatMain || phase == PostcombatMain ==> q.turnState.currentStep == p.turnState.currentStep)
      && (phase != Beginning ==> !q.showDeckActions)
      && q == p.(turnState := p.turnState.(currentPhase := phase, currentStep := q.turnState.currentStep),
                 showDeckActions := q.showDeckActions)
  {
  }

  /** Changing to the phase one is already in, from a main phase, changes nothing but closing the deck actions. */
  lemma ChangePhaseSameMain(p: PlayerState)
    requires p.turnState.currentPhase == PrecombatMain || p.turnState.currentPhase == PostcombatMain
    ensures Merge(p, ChangePhasePatch(p, p.turnState.currentPhase)) == p.(showDeckActions := false)
  {
    assert p.turnState.(currentPhase := p.turnState.currentPhase, currentStep := p.turnState.currentStep) == p.turnState;
  }

  // ----- untapAllPermanents -----

  /** untapAllPermanents (1654-1681). */
  function UntapAllPatch(p: PlayerState): Patch
  {
    Keep.(tappedCreatures := Some({}),
          turnState := Some(p.turnState.(tappedLands := [], manaSources := [], hasUntappedThisTurn := true)))
  }

  /**
   * Nothing stays tapped and every mana source is forgotten, but the pool
   * keeps its mana and the spent lands stay recorded.
   */
  lemma UntapAllEffect(p: PlayerState)
    ensures var q := Merge(p, UntapAllPatch(p));
      && q.tappedCreatures == {} && q.turnState.tappedLands == [] && q.turnState.manaSources == []
      && q.turnState.hasUntappedThisTurn
      && q.turnState.manaPool == p.turnState.manaPool
      && q.turnState.landManaUsed == p.turnState.landManaUsed
      && q == p.(tappedCreatures := {}, turnState := q.turnState)
  {
  }

  /** Untapping everything twice is the same as once. */
  lemma UntapAllIdempotent(p: PlayerState)
    ensures var q := Merge(p, UntapAllPatch(p));
      Merge(q, UntapAllPatch(q)) == q
  {
    var q := Merge(p, UntapAllPatch(p));
    assert q.turnState.(tappedLands := [], manaSources := [], hasUntappedThisTurn := true) == q.turnState;
  }

  // ----- nextTurn -----

  /** Every creature with its damage set to 0. */
  function DamageCleared(cs: seq<Inst>): (r: seq<Inst>)
    ensures |r| == |cs| && forall i :: 0 <= i < |cs| ==> r[i] == cs[i].(damage := 0)
  {
    seq(|cs|, i requires 0 <= i < |cs| => cs[i].(damage := 0))
  }

  /** Every creature no longer summoning sick; its damage is kept. */
  function Refreshed(cs: seq<Inst>): (r: seq<Inst>)
    ensures |r| == |cs| && forall i :: 0 <= i < |cs| ==> r[i] == cs[i].(enteredThisTurn := false)
  {
    seq(|cs|, i requires 0 <= i < |cs| => cs[i].(enteredThisTurn := false))
  }

  /** clearDamageFromCreatures (487-499) as the player with the id reads it. */
  function ClearDamageFor(all: seq<PlayerState>, pid: string): Patch
  {
    match GetPlayer(all, pid)
    case Some(q) => Keep.(creatures := Some(DamageCleared(q.creatures)))
    case None => Keep
  }

  /** `players.forEach(p => clearDamageFromCreatures(p.id))` over the players `rest`. */
  function ClearFrom(all: seq<PlayerState>, rest: seq<PlayerState>): seq<Write>
    decreases |rest|
  {
    if rest == [] then [] else [Write(rest[0].id, ClearDamageFor(all, rest[0].id))] + ClearFrom(all, rest[1..])
  }

  /** The active id after nextTurn (1755): the next player's, unless the turn did not pass. */
  function ActiveAfterNextTurn(ps: seq<PlayerState>, active: string, pid: string): string
  {
    match GetPlayer(ps, pid)
    case None => active
    case Some(p) =>
      if MustDiscard(p) then active
      else match NextPlayerId(ps, pid)
        case None => active
        case Some(n) => n
  }

  /**
   * When the turn passes, the new active player is the one after the first
   * player with that id, cyclically, and is a player of the list; when the
   * hand is too big, or the player is unknown, the active id stays.
   */
  lemma NextTurnRotates(ps: seq<PlayerState>, active: string, pid: string, k: nat)
    requires k < |ps| && ps[k].id == pid && (forall j :: 0 <= j < k ==> ps[j].id != pid)
    ensures MustDiscard(ps[k]) ==> ActiveAfterNextTurn(ps, active, pid) == active
    ensures !MustDiscard(ps[k]) ==> ActiveAfterNextTurn(ps, active, pid) == ps[(k + 1) % |ps|].id
    ensures GetPlayer(ps, ActiveAfterNextTurn(ps, active, pid)).Some? || ActiveAfterNextTurn(ps, active, pid) == active
  {
    FindFirst(ps, pid, k);
    var n := ps[(k + 1) % |ps|].id;
    assert Find(ps, n).Some?;
  }

  /** The turn state nextTurn gives the player whose turn begins (1725-1748). */
  function StartTurn(ts: TurnState): TurnState
  {
    TurnState(ts.turnNumber + 1, Beginning, Untap, true, false, false, ts.maxHandSize, EmptyPool, false,
              [], [], [], true, false, false)
  }

  /** nextTurn's hand-size rule (1688-1692). */
  predicate MustDiscard(p: PlayerState)
  {
    |p.drawnCards| > p.turnState.maxHandSize
  }

  /** `players[(currentPlayerIndex + 1) % players.length].id`. */
  function NextPlayerId(ps: seq<PlayerState>, pid: string): Option<string>
  {
    match Find(ps, pid)
    case None => None
    case Some(k) => Some(ps[(k + 1) % |ps|].id)
  }

  /** The patch nextTurn uses to start the next player's turn. */
  function StartPatch(np: PlayerState): Patch
  {
    Keep.(creatures := Some(Refreshed(np.creatures)), turnState := Some(StartTurn(np.turnState)), tappedCreatures := Some({}))
  }

  /**
   * nextTurn (1683-1756): every player's damage cleared, the current player
   * no longer active, then the next player untapped and started, all read
   * from the players as they were when the call began.
   */
  function NextTurnWrites(ps: seq<PlayerState>, pid: string): seq<Write>
  {
    match GetPlayer(ps, pid)
    case None => []
    case Some(p) =>
      if MustDiscard(p) then []
      else match NextPlayerId(ps, pid)
        case None => []
        case Some(n) =>
          match GetPlayer(ps, n)
          case None => []
          case Some(np) =>
            ClearFrom(ps, ps)
            + [Write(pid, Keep.(turnState := Some(p.turnState.(isActivePlayer := false))))]
            + [Write(n, UntapAllPatch(np)), Write(n, StartPatch(np))]
  }

  /** The players whose ids are `pid` get the same clearing patch, once for each of them. */
  lemma {:induction false} ClearFromPatches(all: seq<PlayerState>, rest: seq<PlayerState>, pid: string)
    ensures forall u :: u in PatchesFor(ClearFrom(all, rest), pid) ==> u == ClearDamageFor(all, pid)
    ensures (exists i :: 0 <= i < |rest| && rest[i].id == pid) ==> PatchesFor(ClearFrom(all, rest), pid) != []
    decreases |rest|
  {
    if rest != [] {
      ClearFromPatches(all, rest[1..], pid);
      var ws := ClearFrom(all, rest);
      assert ws[1..] == ClearFrom(all, rest[1..]);
      assert PatchesFor(ws, pid) == (if rest[0].id == pid then [ClearDamageFor(all, pid)] else []) + PatchesFor(ws[1..], pid);
      if exists i :: 0 <= i < |rest| && rest[i].id == pid {
        var i :| 0 <= i < |rest| && rest[i].id == pid;
        if i > 0 {
          assert rest[1..][i - 1].id == pid;
        }
      }
    }
  }

  /** Merging the same patch once or many times gives the same player. */
  lemma {:induction false} MergeAllSame(p: PlayerState, us: seq<Patch>, u: Patch)
    requires us != [] && forall v :: v in us ==> v == u
    ensures MergeAll(p, us) == Merge(p, u)
    decreases |us|
  {
    assert us[0] in us;
    if |us| == 1 {
      assert us == [u];
      MergeOne(p, u);
    } else {
      assert forall v :: v in us[1..] ==> v in us;
      assert MergeAll(p, us) == MergeAll(Merge(p, u), us[1..]);
      MergeAllSame(Merge(p, u), us[1..], u);
      assert Merge(Merge(p, u), u) == Merge(p, u);
    }
  }

  /** What nextTurn's clearing does to a present player. */
  lemma ClearedPlayer(ps: seq<PlayerState>, pid: string)
    requires GetPlayer(ps, pid).Some?
    ensures var q := GetPlayer(ps, pid).value;
      MergeAll(q, PatchesFor(ClearFrom(ps, ps), pid)) == q.(creatures := DamageCleared(q.creatures))
  {
    var k := Find(ps, pid).value;
    ClearFromPatches(ps, ps, pid);
    assert ps[k].id == pid;
    MergeAllSame(GetPlayer(ps, pid).value, PatchesFor(ClearFrom(ps, ps), pid), ClearDamageFor(ps, pid));
  }

  /** A single write is addressed to one player. */
  lemma PatchesForOne(w: Write, x: string)
    ensures PatchesFor([w], x) == if w.pid == x then [w.patch] else []
  {
    assert [w][1..] == [];
  }

  /** The patches one player receives from nextTurn, in order. */
  lemma NextTurnPatchesFor(ps: seq<PlayerState>, pid: string, p: PlayerState, n: string, np: PlayerState, x: string)
    requires GetPlayer(ps, pid) == Some(p) && !MustDiscard(p)
    requires NextPlayerId(ps, pid) == Some(n) && GetPlayer(ps, n) == Some(np)
    ensures PatchesFor(NextTurnWrites(ps, pid), x) ==
      PatchesFor(ClearFrom(ps, ps), x)
      + (if x == pid then [Keep.(turnState := Some(p.turnState.(isActivePlayer := false)))] else [])
      + (if x == n then [UntapAllPatch(np), StartPatch(np)] else [])
  {
    var off := Write(pid, Keep.(turnState := Some(p.turnState.(isActivePlayer := false))));
    var untap := Write(n, UntapAllPatch(np));
    var start := Write(n, StartPatch(np));
    assert NextTurnWrites(ps, pid) == ClearFrom(ps, ps) + [off] + ([untap] + [start]);
    PatchesForAppend(ClearFrom(ps, ps) + [off], [untap] + [start], x);
    PatchesForAppend(ClearFrom(ps, ps), [off], x);
    PatchesForAppend([untap], [start], x);
    PatchesForOne(off, x);
    PatchesForOne(untap, x);
    PatchesForOne(start, x);
  }

  /**
   * The next player's turn begins: turn number one higher, the beginning
   * phase at its untap step, no draw or land played yet, an empty pool,
   * nothing tapped, no creature summoning sick, the hand limit kept. The
   * creatures are written from the snapshot, so the damage clearing of the
   * same call is lost for this player.
   */
  lemma NextTurnStartsNext(ps: seq<PlayerState>, pid: string)
    requires GetPlayer(ps, pid).Some? && !MustDiscard(GetPlayer(ps, pid).value)
    ensures NextPlayerId(ps, pid).Some? && GetPlayer(ps, NextPlayerId(ps, pid).value).Some?
    ensures var n := NextPlayerId(ps, pid).value;
      var np := GetPlayer(ps, n).value;
      GetPlayer(Commit(ps, NextTurnWrites(ps, pid)), n) ==
        Some(np.(creatures := Refreshed(np.creatures), turnState := StartTurn(np.turnState), tappedCreatures := {}))
  {
    var p := GetPlayer(ps, pid).value;
    var k := Find(ps, pid).value;
    var n := ps[(k + 1) % |ps|].id;
    assert ps[(k + 1) % |ps|].id == n;
    var np := GetPlayer(ps, n).value;
    var offs := if n == pid then [Keep.(turnState := Some(p.turnState.(isActivePlayer := false)))] else [];
    var tail := [UntapAllPatch(np), StartPatch(np)];
    NextPlayerPatches(ps, pid, p, n, np);
    ClearedThen(ps, n, np, offs + tail);
    StartAfterOff(np, DamageCleared(np.creatures), offs, p.turnState.(isActivePlayer := false));
  }

  /** The patches the next player receives from nextTurn, in order. */
  lemma NextPlayerPatches(ps: seq<PlayerState>, pid: string, p: PlayerState, n: string, np: PlayerState)
    requires GetPlayer(ps, pid) == Some(p) && !MustDiscard(p)
    requires NextPlayerId(ps, pid) == Some(n) && GetPlayer(ps, n) == Some(np)
    ensures var offs := if n == pid then [Keep.(turnState := Some(p.turnState.(isActivePlayer := false)))] else [];
      GetPlayer(Commit(ps, NextTurnWrites(ps, pid)), n) ==
        Some(MergeAll(np, PatchesFor(ClearFrom(ps, ps), n) + (offs + [UntapAllPatch(np), StartPatch(np)])))
  {
    var cleared := PatchesFor(ClearFrom(ps, ps), n);
    var offs := if n == pid then [Keep.(turnState := Some(p.turnState.(isActivePlayer := false)))] else [];
    var tail := [UntapAllPatch(np), StartPatch(np)];
    assert PatchesFor(NextTurnWrites(ps, pid), n) == cleared + (offs + tail) by {
      NextTurnPatchesFor(ps, pid, p, n, np, n);
      assert cleared + offs + tail == cleared + (offs + tail);
    }
    CommitPatches(ps, NextTurnWrites(ps, pid), n, np, cleared + (offs + tail));
  }

  /** A present player after a commit, given the patches addressed to it. */
  lemma CommitPatches(ps: seq<PlayerState>, ws: seq<Write>, x: string, q: PlayerState, us: seq<Patch>)
    requires GetPlayer(ps, x) == Some(q) && PatchesFor(ws, x) == us
    ensures GetPlayer(Commit(ps, ws), x) == Some(MergeAll(q, us))
  {
    CommitGet(ps, ws, x);
  }

  /** nextTurn's clearing, followed by any further patches. */
  lemma ClearedThen(ps: seq<PlayerState>, x: string, q: PlayerState, rest: seq<Patch>)
    requires GetPlayer(ps, x) == Some(q)
    ensures MergeAll(q, PatchesFor(ClearFrom(ps, ps), x) + rest) == MergeAll(q.(creatures := DamageCleared(q.creatures)), rest)
  {
    ClearedPlayer(ps, x);
    MergeAllAppend(q, PatchesFor(ClearFrom(ps, ps), x), rest);
  }

  /** Whatever the clearing and the end-of-turn write did, untapping and starting decide the next player's state. */
  lemma StartAfterOff(np: PlayerState, cc: seq<Inst>, offs: seq<Patch>, ts: TurnState)
    requires offs == [] || offs == [Keep.(turnState := Some(ts))]
    ensures MergeAll(np.(creatures := cc), offs + [UntapAllPatch(np), StartPatch(np)]) ==
      np.(creatures := Refreshed(np.creatures), turnState := StartTurn(np.turnState), tappedCreatures := {})
  {
    var c := np.(creatures := cc);
    var tail := [UntapAllPatch(np), StartPatch(np)];
    if offs == [] {
      assert offs + tail == tail;
      StartedPlayer(np, c);
    } else {
      assert (offs + tail)[1..] == tail;
      assert Merge(c, offs[0]) == c.(turnState := ts);
      StartedPlayer(np, c.(turnState := ts));
    }
  }

  /** Untapping and starting override whatever the earlier writes did to the creatures and the turn state. */
  lemma StartedPlayer(np: PlayerState, y: PlayerState)
    requires y == np.(creatures := y.creatures, turnState := y.turnState)
    ensures MergeAll(y, [UntapAllPatch(np), StartPatch(np)]) ==
      np.(creatures := Refreshed(np.creatures), turnState := StartTurn(np.turnState), tappedCreatures := {})
  {
    MergeTwo(y, UntapAllPatch(np), StartPatch(np));
  }

  /** The player who passed the turn (if someone else is next) only loses the active flag and the damage. */
  lemma NextTurnEndsCurrent(ps: seq<PlayerState>, pid: string)
    requires GetPlayer(ps, pid).Some? && !MustDiscard(GetPlayer(ps, pid).value)
    requires NextPlayerId(ps, pid) != Some(pid)
    ensures var p := GetPlayer(ps, pid).value;
      GetPlayer(Commit(ps, NextTurnWrites(ps, pid)), pid) ==
        Some(p.(creatures := DamageCleared(p.creatures), turnState := p.turnState.(isActivePlayer := false)))
  {
    var p := GetPlayer(ps, pid).value;
    var off := Keep.(turnState := Some(p.turnState.(isActivePlayer := false)));
    var cleared := PatchesFor(ClearFrom(ps, ps), pid);
    var k := Find(ps, pid).value;
    var n := ps[(k + 1) % |ps|].id;
    assert ps[(k + 1) % |ps|].id == n;
    assert PatchesFor(NextTurnWrites(ps, pid), pid) == cleared + [off] by {
      NextTurnPatchesFor(ps, pid, p, n, GetPlayer(ps, n).value, pid);
    }
    CommitPatches(ps, NextTurnWrites(ps, pid), pid, p, cleared + [off]);
    ClearedPlayer(ps, pid);
    MergeAllAppend(p, cleared, [off]);
    MergeOne(p.(creatures := DamageCleared(p.creatures)), off);
  }

  /** Every other player only has its creatures' damage cleared. */
  lemma NextTurnClearsOthers(ps: seq<PlayerState>, pid: string, x: string)
    requires GetPlayer(ps, pid).Some? && !MustDiscard(GetPlayer(ps, pid).value)
    requires x != pid && NextPlayerId(ps, pid) != Some(x) && GetPlayer(ps, x).Some?
    ensures var q := GetPlayer(ps, x).value;
      GetPlayer(Commit(ps, NextTurnWrites(ps, pid)), x) == Some(q.(creatures := DamageCleared(q.creatures)))
  {
    var k := Find(ps, pid).value;
    var n := ps[(k + 1) % |ps|].id;
    assert ps[(k + 1) % |ps|].id == n;
    assert PatchesFor(NextTurnWrites(ps, pid), x) == PatchesFor(ClearFrom(ps, ps), x) by {
      NextTurnPatchesFor(ps, pid, GetPlayer(ps, pid).value, n, GetPlayer(ps, n).value, x);
    }
    CommitPatches(ps, NextTurnWrites(ps, pid), x, GetPlayer(ps, x).value, PatchesFor(ClearFrom(ps, ps), x));
    ClearedPlayer(ps, x);
  }

  /** While the hand is over the limit, nextTurn writes nothing and the turn does not pass. */
  lemma NextTurnRefused(ps: seq<PlayerState>, pid: string)
    requires GetPlayer(ps, pid).Some? && MustDiscard(GetPlayer(ps, pid).value)
    ensures Commit(ps, NextTurnWrites(ps, pid)) == ps
  {
  }

  // ----- the player panel -----

  /** updateMaxHandSize (2115-2124). */
  function UpdateMaxHandSizePatch(p: PlayerState, newSize: int): Patch
  {
    Keep.(turnState := Some(p.turnState.(maxHandSize := newSize)))
  }

  /** After setting the hand limit, nextTurn is refused exactly when the hand holds more cards than it. */
  lemma MaxHandSizeGovernsNextTurn(p: PlayerState, newSize: int)
    ensures var q := Merge(p, UpdateMaxHandSizePatch(p, newSize));
      && (MustDiscard(q) <==> |p.drawnCards| > newSize)
      && q == p.(turnState := p.turnState.(maxHandSize := newSize))
  {
  }

  /** toggleShowDeckActions (1989-1996). */
  function ToggleShowDeckActionsPatch(p: PlayerState): Patch
  {
    Keep.(showDeckActions := Some(!p.showDeckActions))
  }

  lemma ToggleShowDeckActionsTwice(p: PlayerState)
    ensures var q := Merge(p, ToggleShowDeckActionsPatch(p));
      && q.showDeckActions == !p.showDeckActions
      && Merge(q, ToggleShowDeckActionsPatch(q)) == p
  {
  }

  /** toggleSearch (1998-2006): closing the search drops its results. */
  function ToggleSearchPatch(p: PlayerState): Patch
  {
    Keep.(isSearching := Some(!p.isSearching), searchResults := Some(if p.isSearching then [] else p.searchResults))
  }

  /** closeScry (2008-2012). */
  function CloseScryPatch(): Patch
  {
    Keep.(scryCards := Some([]))
  }

  /** closeSearch (2014-2019). */
  function CloseSearchPatch(): Patch
  {
    Keep.(isSearching := Some(false), searchResults := Some([]))
  }

  /**
   * Toggling the search open and then shut is closeSearch: unlike the deck
   * actions toggle, it does not give back the results held before.
   */
  lemma ToggleSearchOpenThenShut(p: PlayerState)
    requires !p.isSearching
    ensures var q := Merge(p, ToggleSearchPatch(p));
      && q.isSearching && q.searchResults == p.searchResults
      && Merge(q, ToggleSearchPatch(q)) == Merge(p, CloseSearchPatch())
  {
  }

  /** Closing the search or the scry view leaves everything else as it was. */
  lemma ClosingLeavesTheRest(p: PlayerState)
    ensures Merge(p, CloseSearchPatch()) == p.(isSearching := false, searchResults := [])
    ensures Merge(p, CloseScryPatch()) == p.(scryCards := [])
  {
  }

  // ----- adding and removing players -----

  /** addPlayer (1911-1975): a new inactive player at the end. */
  function AddPlayer(ps: seq<PlayerState>, pid: string, name: string): seq<PlayerState>
  {
    ps + [NewPlayer(pid, name, false)]
  }

  /** A new id is found as the new player, and the players already there are found as before. */
  lemma AddPlayerFound(ps: seq<PlayerState>, pid: string, name: string, x: string)
    requires GetPlayer(ps, pid).None?
    ensures GetPlayer(AddPlayer(ps, pid, name), pid) == Some(NewPlayer(pid, name, false))
    ensures x != pid ==> GetPlayer(AddPlayer(ps, pid, name), x) == GetPlayer(ps, x)
  {
    var r := AddPlayer(ps, pid, name);
    FindFirst(r, pid, |ps|);
    if x != pid {
      match Find(ps, x)
      case Some(k) => FindFirst(r, x, k);
      case None => assert Find(r, x).None?;
    }
  }

  /** removePlayer (1977-1982): the players without that id. */
  function RemovePlayer(ps: seq<PlayerState>, pid: string): (r: seq<PlayerState>)
  {
    Filter(ps, (q: PlayerState) => q.id != pid)
  }

  /**
   * The active id after removePlayer: if the active player was removed, the
   * first id of the list as it was BEFORE the removal (`players[0]?.id || ''`).
   */
  function ActiveAfterRemove(ps: seq<PlayerState>, active: string, pid: string): string
  {
    if active != pid then active else if ps == [] then "" else ps[0].id
  }

  /** `getPlayer` on a list with one more player in front. */
  lemma GetPlayerCons(a: PlayerState, s: seq<PlayerState>, x: string)
    ensures GetPlayer([a] + s, x) == if a.id == x then Some(a) else GetPlayer(s, x)
  {
    assert ([a] + s)[1..] == s;
  }

  lemma RemovedPlayerGone(ps: seq<PlayerState>, pid: string)
    ensures GetPlayer(RemovePlayer(ps, pid), pid).None?
  {
    var r := RemovePlayer(ps, pid);
    assert forall j :: 0 <= j < |r| ==> r[j] in r;
  }

  lemma {:induction false} RemoveKeepsOthers(ps: seq<PlayerState>, pid: string, x: string)
    requires x != pid
    ensures GetPlayer(RemovePlayer(ps, pid), x) == GetPlayer(ps, x)
    decreases |ps|
  {
    if ps != [] {
      var f := (q: PlayerState) => q.id != pid;
      RemoveKeepsOthers(ps[1..], pid, x);
      assert RemovePlayer(ps, pid) == (if f(ps[0]) then [ps[0]] else []) + RemovePlayer(ps[1..], pid);
      assert ps == [ps[0]] + ps[1..];
      GetPlayerCons(ps[0], ps[1..], x);
      if f(ps[0]) {
        GetPlayerCons(ps[0], RemovePlayer(ps[1..], pid), x);
      } else {
        assert RemovePlayer(ps, pid) == RemovePlayer(ps[1..], pid);
      }
    }
  }

  /**
   * When the removed player was active and first in the list, the active id
   * still names the removed player: the first id is read before the removal.
   */
  lemma RemoveFirstActiveKeepsItsId(ps: seq<PlayerState>, pid: string)
    requires ps != [] && ps[0].id == pid
    ensures ActiveAfterRemove(ps, pid, pid) == pid
    ensures GetPlayer(RemovePlayer(ps, pid), ActiveAfterRemove(ps, pid, pid)).None?
  {
    RemovedPlayerGone(ps, pid);
  }
}
