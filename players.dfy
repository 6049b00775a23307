/**
 * The engine's per-player record (frontend/src/contexts/DeckProvider.tsx:8-79),
 * the zone records that carry a card around, and the two helpers every
 * operation goes through: `getPlayer` (first player with the id) and
 * `updatePlayer` (merge a patch into every player with the id).
 */
module Players {
  import opened Common
  import opened DeckTypes

  /**
   * A card in some zone. TypeScript spreads carry every stamp from zone to
   * zone, so one record holds them all: `placedAt` (set on entering the
   * battlefield), `damage` (`damage || 0`), `enteredThisTurn` (`=== true`) and
   * `originalIndex` (the library stamp). `drawnAt` and `discardedAt` are never
   * read and are not modelled.
   */
  datatype Inst = Inst(card: Card, placedAt: nat, damage: int, enteredThisTurn: bool, originalIndex: int)

  datatype CombatState = CombatState(
    isDeclaringAttackers: bool,
    isDeclaringBlockers: bool,
    attackers: seq<InstId>,
    /** attacker instance id -> blocker instance ids */
    blockers: map<InstId, seq<InstId>>)

  /** A listed target; `isValid` is always true and is not modelled. */
  datatype Target = Target(id: TargetId, kind: TargetType, controller: string)

  datatype TargetingState = TargetingState(
    isTargeting: bool,
    currentSpell: Option<Inst>,
    requiredTargets: int,
    selectedTargets: seq<TargetId>,
    validTargets: seq<Target>,
    targetType: Option<TargetType>)

  datatype StackKind = SpellItem | AbilityItem

  /** A stack entry; its display id and description are not modelled. */
  datatype StackItem = StackItem(kind: StackKind, card: Inst, controller: string)

  datatype PlayerState = PlayerState(
    id: string,
    name: string,
    deck: Option<Deck>,
    shuffledDeck: seq<Inst>,
    currentDeckIndex: nat,
    drawnCards: seq<Inst>,
    creatures: seq<Inst>,
    lands: seq<Inst>,
    graveyard: seq<Inst>,
    exile: seq<Inst>,
    tappedCreatures: set<InstId>,
    tappedLands: seq<InstId>,
    isShuffling: bool,
    showDeckActions: bool,
    isDrawingCard: bool,
    drawingCard: Option<Inst>,
    scryCards: seq<Inst>,
    searchResults: seq<Inst>,
    isSearching: bool,
    turnState: TurnState,
    commanderTax: nat,
    lifeTotal: int,
    combatState: CombatState,
    targetingState: TargetingState)

  const NoCombat := CombatState(false, false, [], map[])

  const NoTargeting := TargetingState(false, None, 0, [], [], None)

  /** The turn state a new player starts with. */
  function FreshTurnState(active: bool): TurnState
  {
    TurnState(1, Beginning, Untap, active, false, false, 7, EmptyPool, false, [], [], [], false, false, false)
  }

  /** addPlayer's record (and each of the two default players). */
  function NewPlayer(id: string, name: string, active: bool): PlayerState
  {
    PlayerState(id, name, None, [], 0, [], [], [], [], [], {}, [], false, false, false, None,
                [], [], false, FreshTurnState(active), 0, 40, NoCombat, NoTargeting)
  }

  /** The players the provider starts with (DeckProvider.tsx:184-310). */
  const DefaultPlayers := [NewPlayer("player1", "Player 1", true), NewPlayer("player2", "Player 2", false)]

  /** Index of the first player with the id (`players.find`). */
  function Find(ps: seq<PlayerState>, pid: string): (r: Option<nat>)
    ensures r.Some? ==> r.value < |ps| && ps[r.value].id == pid
    ensures r.Some? ==> forall j :: 0 <= j < r.value ==> ps[j].id != pid
    ensures r.None? ==> forall j :: 0 <= j < |ps| ==> ps[j].id != pid
  {
    if ps == [] then None
    else if ps[0].id == pid then Some(0)
    else match Find(ps[1..], pid)
      case None => None
      case Some(k) => Some(k + 1)
  }

  /** `getPlayer(playerId)`. */
  function GetPlayer(ps: seq<PlayerState>, pid: string): Option<PlayerState>
  {
    match Find(ps, pid)
    case None => None
    case Some(k) => Some(ps[k])
  }

  /**
   * `Partial<PlayerState>`: the fields an `updatePlayer` call sets. The id and
   * name are never patched.
   */
  datatype Patch = Patch(
    deck: Option<Option<Deck>>,
    shuffledDeck: Option<seq<Inst>>,
    currentDeckIndex: Option<nat>,
    drawnCards: Option<seq<Inst>>,
    creatures: Option<seq<Inst>>,
    lands: Option<seq<Inst>>,
    graveyard: Option<seq<Inst>>,
    exile: Option<seq<Inst>>,
    tappedCreatures: Option<set<InstId>>,
    tappedLands: Option<seq<InstId>>,
    isShuffling: Option<bool>,
    showDeckActions: Option<bool>,
    isDrawingCard: Option<bool>,
    drawingCard: Option<Option<Inst>>,
    scryCards: Option<seq<Inst>>,
    searchResults: Option<seq<Inst>>,
    isSearching: Option<bool>,
    turnState: Option<TurnState>,
    commanderTax: Option<nat>,
    lifeTotal: Option<int>,
    combatState: Option<CombatState>,
    targetingState: Option<TargetingState>)

  /** A patch that sets nothing. */
  const Keep := Patch(None, None, None, None, None, None, None, None, None, None, None, None, None, None, None, None, None, None, None, None, None, None)

  /** `{ ...p, ...updates }`. */
  function Merge(p: PlayerState, u: Patch): (r: PlayerState)
    ensures r.id == p.id && r.name == p.name
  {
    PlayerState(p.id, p.name,
      OrElse(u.deck, p.deck),
      OrElse(u.shuffledDeck, p.shuffledDeck),
      OrElse(u.currentDeckIndex, p.currentDeckIndex),
      OrElse(u.drawnCards, p.drawnCards),
      OrElse(u.creatures, p.creatures),
      OrElse(u.lands, p.lands),
      OrElse(u.graveyard, p.graveyard),
      OrElse(u.exile, p.exile),
      OrElse(u.tappedCreatures, p.tappedCreatures),
      OrElse(u.tappedLands, p.tappedLands),
      OrElse(u.isShuffling, p.isShuffling),
      OrElse(u.showDeckActions, p.showDeckActions),
      OrElse(u.isDrawingCard, p.isDrawingCard),
      OrElse(u.drawingCard, p.drawingCard),
      OrElse(u.scryCards, p.scryCards),
      OrElse(u.searchResults, p.searchResults),
      OrElse(u.isSearching, p.isSearching),
      OrElse(u.turnState, p.turnState),
      OrElse(u.commanderTax, p.commanderTax),
      OrElse(u.lifeTotal, p.lifeTotal),
      OrElse(u.combatState, p.combatState),
      OrElse(u.targetingState, p.targetingState))
  }

  /** `updatePlayer(playerId, updates)`: merge the patch into every player with the id. */
  function Update(ps: seq<PlayerState>, pid: string, u: Patch): (r: seq<PlayerState>)
    ensures |r| == |ps|
    ensures forall j :: 0 <= j < |ps| ==> r[j] == if ps[j].id == pid then Merge(ps[j], u) else ps[j]
  {
    seq(|ps|, j requires 0 <= j < |ps| => if ps[j].id == pid then Merge(ps[j], u) else ps[j])
  }

  /** The provider's whole state: `players`, `activePlayerId` and `stack` (DeckProvider.tsx:177-179). */
  datatype Board = Board(players: seq<PlayerState>, activePlayerId: string, stack: seq<StackItem>)

  /** A plain card record spread into a zone record: no stamps yet. */
  function FromCard(c: Card): Inst
  {
    Inst(c, 0, 0, false, 0)
  }

  /** `${id}-${placedAt.getTime()}`, the id targeting uses for a permanent. */
  function PermanentTarget(x: Inst): TargetId
  {
    PermanentRef(x.card.id, x.placedAt)
  }

  /** `s.filter(c => c !== card)` for the card object held at position `at`; a stale position removes nothing. */
  function RemoveAt<T>(s: seq<T>, at: nat): (r: seq<T>)
    ensures at < |s| ==> r == s[..at] + s[at + 1..] && |r| == |s| - 1
    ensures at >= |s| ==> r == s
  {
    if at < |s| then s[..at] + s[at + 1..] else s
  }

  /** `at` names the object `x` in `s`, or no longer names anything. */
  predicate RefersTo<T(==)>(s: seq<T>, at: nat, x: T)
  {
    at < |s| ==> s[at] == x
  }

  /** `updatePlayer` of a present player is seen by `getPlayer`. */
  lemma GetUpdated(ps: seq<PlayerState>, pid: string, u: Patch)
    requires GetPlayer(ps, pid).Some?
    ensures GetPlayer(Update(ps, pid, u), pid) == Some(Merge(GetPlayer(ps, pid).value, u))
  {
    var k := Find(ps, pid).value;
    var r := Update(ps, pid, u);
    FindFirst(r, pid, k);
  }

  /** The first index whose player has the id is the one `Find` reports. */
  lemma FindFirst(ps: seq<PlayerState>, pid: string, k: nat)
    requires k < |ps| && ps[k].id == pid
    requires forall j :: 0 <= j < k ==> ps[j].id != pid
    ensures Find(ps, pid) == Some(k)
  {
    match Find(ps, pid)
    case None =>
    case Some(m) =>
  }

  /** The other players are untouched by `updatePlayer`. */
  lemma GetUpdatedOther(ps: seq<PlayerState>, pid: string, u: Patch, other: string)
    requires other != pid
    ensures GetPlayer(Update(ps, pid, u), other) == GetPlayer(ps, other)
  {
    var r := Update(ps, pid, u);
    assert forall j :: 0 <= j < |ps| ==> (r[j].id == other <==> ps[j].id == other);
    match Find(ps, other)
    case None =>
      assert Find(r, other).None?;
    case Some(k) =>
      FindFirst(r, other, k);
  }

  /** `updatePlayer` of an id nobody has changes nothing. */
  lemma UpdateMissing(ps: seq<PlayerState>, pid: string, u: Patch)
    requires GetPlayer(ps, pid).None?
    ensures Update(ps, pid, u) == ps
  {
  }

  /**
   * One queued `updatePlayer(pid, patch)` call. An operation reads the
   * players it saw when it started and queues its writes; React then applies
   * the queued updaters in order, so a later write to a field wins.
   */
  datatype Write = Write(pid: string, patch: Patch)

  /** The queued writes applied in order. */
  function Commit(ps: seq<PlayerState>, ws: seq<Write>): (r: seq<PlayerState>)
    ensures |r| == |ps|
    decreases |ws|
  {
    if ws == [] then ps else Commit(Update(ps, ws[0].pid, ws[0].patch), ws[1..])
  }

  /** The patches queued for one player, in order. */
  function PatchesFor(ws: seq<Write>, pid: string): seq<Patch>
    decreases |ws|
  {
    if ws == [] then [] else (if ws[0].pid == pid then [ws[0].patch] else []) + PatchesFor(ws[1..], pid)
  }

  /** Patches merged one after the other. */
  function MergeAll(p: PlayerState, us: seq<Patch>): (r: PlayerState)
    ensures r.id == p.id
    decreases |us|
  {
    if us == [] then p else MergeAll(Merge(p, us[0]), us[1..])
  }

  /** What `getPlayer` sees after a commit: its player with that player's patches merged in order. */
  lemma {:induction false} CommitGet(ps: seq<PlayerState>, ws: seq<Write>, pid: string)
    ensures GetPlayer(Commit(ps, ws), pid) ==
      match GetPlayer(ps, pid)
      case None => None
      case Some(p) => Some(MergeAll(p, PatchesFor(ws, pid)))
    decreases |ws|
  {
    if ws != [] {
      var next := Update(ps, ws[0].pid, ws[0].patch);
      CommitGet(next, ws[1..], pid);
      if ws[0].pid == pid {
        assert PatchesFor(ws, pid) == [ws[0].patch] + PatchesFor(ws[1..], pid);
        if GetPlayer(ps, pid).Some? {
          GetUpdated(ps, pid, ws[0].patch);
          assert ([ws[0].patch] + PatchesFor(ws[1..], pid))[1..] == PatchesFor(ws[1..], pid);
        } else {
          UpdateMissing(ps, pid, ws[0].patch);
        }
      } else {
        GetUpdatedOther(ps, ws[0].pid, ws[0].patch, pid);
        assert PatchesFor(ws, pid) == PatchesFor(ws[1..], pid);
      }
    }
  }

  lemma {:induction false} PatchesForAppend(a: seq<Write>, b: seq<Write>, pid: string)
    ensures PatchesFor(a + b, pid) == PatchesFor(a, pid) + PatchesFor(b, pid)
    decreases |a|
  {
    if a != [] {
      assert (a + b)[1..] == a[1..] + b;
      PatchesForAppend(a[1..], b, pid);
    } else {
      assert a + b == b;
    }
  }

  lemma {:induction false} MergeAllAppend(p: PlayerState, a: seq<Patch>, b: seq<Patch>)
    ensures MergeAll(p, a + b) == MergeAll(MergeAll(p, a), b)
    decreases |a|
  {
    if a != [] {
      assert (a + b)[1..] == a[1..] + b;
      MergeAllAppend(Merge(p, a[0]), a[1..], b);
    } else {
      assert a + b == b;
    }
  }

  /** A player nobody writes to is unchanged by a commit. */
  lemma CommitUntouched(ps: seq<PlayerState>, ws: seq<Write>, pid: string)
    requires PatchesFor(ws, pid) == []
    ensures GetPlayer(Commit(ps, ws), pid) == GetPlayer(ps, pid)
  {
    CommitGet(ps, ws, pid);
  }

  /** `updatePlayer(pid, u)` for each patch of `us`, in order. */
  function WritesTo(pid: string, us: seq<Patch>): (r: seq<Write>)
    ensures |r| == |us|
    ensures forall i :: 0 <= i < |us| ==> r[i] == Write(pid, us[i])
  {
    seq(|us|, i requires 0 <= i < |us| => Write(pid, us[i]))
  }

  lemma {:induction false} PatchesForWritesTo(pid: string, us: seq<Patch>, other: string)
    ensures PatchesFor(WritesTo(pid, us), other) == if other == pid then us else []
    decreases |us|
  {
    if us != [] {
      assert WritesTo(pid, us)[1..] == WritesTo(pid, us[1..]);
      PatchesForWritesTo(pid, us[1..], other);
    }
  }

  /** The patches of one player's writes, merged in order into that player. */
  lemma CommitOwn(ps: seq<PlayerState>, pid: string, us: seq<Patch>)
    requires GetPlayer(ps, pid).Some?
    ensures GetPlayer(Commit(ps, WritesTo(pid, us)), pid) == Some(MergeAll(GetPlayer(ps, pid).value, us))
  {
    CommitGet(ps, WritesTo(pid, us), pid);
    PatchesForWritesTo(pid, us, pid);
  }

  /** One player's writes leave every other player as it was. */
  lemma CommitOther(ps: seq<PlayerState>, pid: string, us: seq<Patch>, other: string)
    requires other != pid
    ensures GetPlayer(Commit(ps, WritesTo(pid, us)), other) == GetPlayer(ps, other)
  {
    CommitGet(ps, WritesTo(pid, us), other);
    PatchesForWritesTo(pid, us, other);
  }

  lemma MergeTwo(p: PlayerState, a: Patch, b: Patch)
    ensures MergeAll(p, [a, b]) == Merge(Merge(p, a), b)
  {
    assert [a, b][1..] == [b];
    assert MergeAll(Merge(p, a), [b]) == MergeAll(Merge(Merge(p, a), b), []);
  }

  lemma MergeOne(p: PlayerState, a: Patch)
    ensures MergeAll(p, [a]) == Merge(p, a)
  {
    assert [a][1..] == [];
  }

  /** A write queued last is applied last. */
  lemma {:induction false} CommitSnoc(ps: seq<PlayerState>, ws: seq<Write>, w: Write)
    ensures Commit(ps, ws + [w]) == Update(Commit(ps, ws), w.pid, w.patch)
    decreases |ws|
  {
    if ws == [] {
      assert [w][1..] == [];
    } else {
      assert (ws + [w])[1..] == ws[1..] + [w];
      CommitSnoc(Update(ps, ws[0].pid, ws[0].patch), ws[1..], w);
    }
  }
}
