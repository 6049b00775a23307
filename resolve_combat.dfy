/**
 * resolveCombat (frontend/src/contexts/DeckProvider.tsx:2254-2364): the
 * one-shot combat the player panel offers. Unblocked attackers hit the
 * defending player; blocked ones trade with each blocker by comparing power
 * with toughness, destroying through destroyPermanent; no damage is marked.
 * Then both combat states are cleared, the attackers are tapped and the
 * active player moves to the postcombat main phase. Every write is computed
 * from the players as they were when the call began.
 */
module CombatResolution {
  import opened Common
  import opened JsText
  import opened DeckTypes
  import opened Players
  import opened CardRules
  import opened Zones
  import opened Turns
  import opened Combat

  /** `text || '0'`: a missing or empty text counts as "0". */
  function TextOr(s: Option<string>, d: string): string
  {
    if s.None? || s.value == "" then d else s.value
  }

  /** `parseInt(text || '0')` without a fallback: None is NaN. */
  function NumberOf(s: Option<string>): Option<int>
  {
    ParseInt(TextOr(s, "0"))
  }

  /** `x >= y` on numbers that may be NaN: false whenever either is. */
  predicate AtLeast(x: Option<int>, y: Option<int>)
  {
    x.Some? && y.Some? && x.value >= y.value
  }

  /** `power >= toughness`: the first creature destroys the second. */
  predicate Kills(c: Card, victim: Card)
  {
    AtLeast(NumberOf(c.power), NumberOf(victim.toughness))
  }

  /** One fight: each creature whose toughness the other's power reaches is destroyed. */
  function TradeWrites(p: PlayerState, d: PlayerState, ac: Inst, bc: Inst): seq<Write>
  {
    (if Kills(ac.card, bc.card) then WritesTo(d.id, DestroyPermanentPatches(d, bc)) else [])
    + (if Kills(bc.card, ac.card) then WritesTo(p.id, DestroyPermanentPatches(p, ac)) else [])
  }

  /** `blockers.forEach(...)`, skipping entries that name no creature. */
  function BlockedWrites(p: PlayerState, d: PlayerState, ac: Inst, bs: seq<InstId>): seq<Write>
    decreases |bs|
  {
    if bs == [] then []
    else
      (match At(d.creatures, bs[0])
       case None => []
       case Some(bc) => TradeWrites(p, d, ac, bc))
      + BlockedWrites(p, d, ac, bs[1..])
  }

  /** An unblocked attacker: the defender's life goes down by its power, floored at 0. */
  function UnblockedWrites(d: PlayerState, ac: Inst): seq<Write>
  {
    match NumberOf(ac.card.power)
    case Some(n) => [Write(d.id, LifePatch(Max0(d.lifeTotal - n)))]
    case None => []
  }

  /** `attacker.combatState.attackers.forEach(...)`. */
  function FightWritesAll(p: PlayerState, d: PlayerState, attackers: seq<InstId>): seq<Write>
    decreases |attackers|
  {
    if attackers == [] then []
    else
      (match At(p.creatures, attackers[0])
       case None => []
       case Some(ac) =>
         if BlockersOf(d, attackers[0]) == [] then UnblockedWrites(d, ac)
         else BlockedWrites(p, d, ac, BlockersOf(d, attackers[0])))
      + FightWritesAll(p, d, attackers[1..])
  }

  /** `combatState: { isDeclaringAttackers: false, ..., blockers: {} }`. */
  const ClearCombat := Keep.(combatState := Some(NoCombat))

  /** `changePhase(activePlayerId, Phase.POSTCOMBAT_MAIN)`. */
  function PostcombatWrites(ps: seq<PlayerState>, activeId: string): seq<Write>
  {
    match GetPlayer(ps, activeId)
    case None => []
    case Some(ap) => [Write(activeId, ChangePhasePatch(ap, PostcombatMain))]
  }

  /** resolveCombat. */
  function ResolveCombatWrites(ps: seq<PlayerState>, activeId: string, attId: string, defId: string): seq<Write>
  {
    match GetPlayer(ps, attId)
    case None => []
    case Some(p) =>
      match GetPlayer(ps, defId)
      case None => []
      case Some(d) =>
        FightWritesAll(p, d, p.combatState.attackers) + AfterFightWrites(ps, activeId, attId, defId, p)
  }

  /** Clearing both combat states, tapping the attackers and moving the active player on. */
  function AfterFightWrites(ps: seq<PlayerState>, activeId: string, attId: string, defId: string, p: PlayerState): seq<Write>
  {
    [Write(attId, ClearCombat), Write(defId, ClearCombat)] + TapWrites(p, p.combatState.attackers) + PostcombatWrites(ps, activeId)
  }

  // ----- where resolveCombat writes -----

  /** A fight write goes to one of the two players and leaves the combat state alone. */
  predicate FightShaped(w: Write, aid: string, did: string)
  {
    (w.pid == aid || w.pid == did) && w.patch.combatState.None?
  }

  lemma FightShapedAppend(a: seq<Write>, b: seq<Write>, aid: string, did: string)
    requires forall w :: w in a ==> FightShaped(w, aid, did)
    requires forall w :: w in b ==> FightShaped(w, aid, did)
    ensures forall w :: w in a + b ==> FightShaped(w, aid, did)
  {
  }

  lemma LeaveKeepsCombat(q: PlayerState, cardId: int, spot: Spot)
    ensures LeavePatch(q, cardId, spot).combatState.None?
  {
  }

  /** destroyPermanent writes only to its own player and never to the combat state. */
  lemma DestroyShaped(q: PlayerState, card: Inst, aid: string, did: string)
    requires q.id == aid || q.id == did
    ensures forall w :: w in WritesTo(q.id, DestroyPermanentPatches(q, card)) ==> FightShaped(w, aid, did)
  {
    var us := DestroyPermanentPatches(q, card);
    LeaveKeepsCombat(q, card.card.id, DestroySpot(q, card));
    assert forall u :: u in us ==> u.combatState.None?;
    var ws := WritesTo(q.id, us);
    forall w | w in ws ensures FightShaped(w, aid, did)
    {
      var i :| 0 <= i < |ws| && ws[i] == w;
      assert w.patch == us[i];
    }
  }

  lemma TradeShaped(p: PlayerState, d: PlayerState, ac: Inst, bc: Inst)
    ensures forall w :: w in TradeWrites(p, d, ac, bc) ==> FightShaped(w, p.id, d.id)
  {
    DestroyShaped(d, bc, p.id, d.id);
    DestroyShaped(p, ac, p.id, d.id);
    var a := if Kills(ac.card, bc.card) then WritesTo(d.id, DestroyPermanentPatches(d, bc)) else [];
    var b := if Kills(bc.card, ac.card) then WritesTo(p.id, DestroyPermanentPatches(p, ac)) else [];
    FightShapedAppend(a, b, p.id, d.id);
  }

  lemma {:induction false} BlockedShaped(p: PlayerState, d: PlayerState, ac: Inst, bs: seq<InstId>)
    ensures forall w :: w in BlockedWrites(p, d, ac, bs) ==> FightShaped(w, p.id, d.id)
    decreases |bs|
  {
    if bs != [] {
      BlockedShaped(p, d, ac, bs[1..]);
      match At(d.creatures, bs[0])
      case None =>
        assert BlockedWrites(p, d, ac, bs) == BlockedWrites(p, d, ac, bs[1..]);
      case Some(bc) =>
        TradeShaped(p, d, ac, bc);
        FightShapedAppend(TradeWrites(p, d, ac, bc), BlockedWrites(p, d, ac, bs[1..]), p.id, d.id);
    }
  }

  lemma {:induction false} FightWritesAllShaped(p: PlayerState, d: PlayerState, attackers: seq<InstId>)
    ensures forall w :: w in FightWritesAll(p, d, attackers) ==> FightShaped(w, p.id, d.id)
    decreases |attackers|
  {
    if attackers != [] {
      FightWritesAllShaped(p, d, attackers[1..]);
      var rest := FightWritesAll(p, d, attackers[1..]);
      match At(p.creatures, attackers[0])
      case None =>
        assert FightWritesAll(p, d, attackers) == rest;
      case Some(ac) =>
        var a := attackers[0];
        if BlockersOf(d, a) == [] {
          FightShapedAppend(UnblockedWrites(d, ac), rest, p.id, d.id);
        } else {
          BlockedShaped(p, d, ac, BlockersOf(d, a));
          FightShapedAppend(BlockedWrites(p, d, ac, BlockersOf(d, a)), rest, p.id, d.id);
        }
    }
  }

  /** Missing either player, resolveCombat does nothing at all. */
  lemma ResolveCombatRefused(ps: seq<PlayerState>, activeId: string, attId: string, defId: string)
    requires GetPlayer(ps, attId).None? || GetPlayer(ps, defId).None?
    ensures ResolveCombatWrites(ps, activeId, attId, defId) == []
  {
  }

  /** The four parts of resolveCombat's writes. */
  lemma ResolveCombatParts(ps: seq<PlayerState>, activeId: string, attId: string, defId: string, p: PlayerState, d: PlayerState)
    requires GetPlayer(ps, attId) == Some(p) && GetPlayer(ps, defId) == Some(d)
    ensures p.id == attId && d.id == defId
    ensures ResolveCombatWrites(ps, activeId, attId, defId) ==
      FightWritesAll(p, d, p.combatState.attackers) + AfterFightWrites(ps, activeId, attId, defId, p)
  {
  }

  /** A player other than the two combatants and the active player is untouched. */
  lemma ResolveCombatFrame(ps: seq<PlayerState>, activeId: string, attId: string, defId: string, x: string)
    requires x != attId && x != defId && x != activeId
    ensures GetPlayer(Commit(ps, ResolveCombatWrites(ps, activeId, attId, defId)), x) == GetPlayer(ps, x)
  {
    if GetPlayer(ps, attId).Some? && GetPlayer(ps, defId).Some? {
      var p := GetPlayer(ps, attId).value;
      var d := GetPlayer(ps, defId).value;
      ResolveCombatParts(ps, activeId, attId, defId, p, d);
      var f := FightWritesAll(p, d, p.combatState.attackers);
      var c := [Write(attId, ClearCombat), Write(defId, ClearCombat)];
      var t := TapWrites(p, p.combatState.attackers);
      var e := PostcombatWrites(ps, activeId);
      FightWritesAllShaped(p, d, p.combatState.attackers);
      PatchesForNone(f, x);
      TapWritesShaped(p, p.combatState.attackers);
      PatchesForNone(t, x);
      PatchesForAppend(f, c + t + e, x);
      PatchesForAppend(c + t, e, x);
      PatchesForAppend(c, t, x);
      CommitUntouched(ps, f + (c + t + e), x);
    }
  }

  // ----- both combat states are cleared -----

  /** The cleared combat state or nothing. */
  predicate KeepsCleared(u: Patch)
  {
    u.combatState.None? || u.combatState == Some(NoCombat)
  }

  lemma {:induction false} MergeAllKeepsCleared(q: PlayerState, us: seq<Patch>)
    requires q.combatState == NoCombat
    requires forall u :: u in us ==> KeepsCleared(u)
    ensures MergeAll(q, us).combatState == NoCombat
    decreases |us|
  {
    if us != [] {
      assert us[0] in us;
      assert forall u :: u in us[1..] ==> u in us;
      MergeAllKeepsCleared(Merge(q, us[0]), us[1..]);
    }
  }

  lemma ClearsFor(attId: string, defId: string, x: string)
    requires x == attId || x == defId
    ensures PatchesFor([Write(attId, ClearCombat), Write(defId, ClearCombat)], x) ==
      [ClearCombat] + (if attId == defId then [ClearCombat] else [])
  {
    var c := [Write(attId, ClearCombat), Write(defId, ClearCombat)];
    assert c == [c[0]] + [c[1]];
    PatchesForAppend([c[0]], [c[1]], x);
    PatchesForOne(c[0], x);
    PatchesForOne(c[1], x);
  }

  /** The patches after the fights: a clearing first, then nothing that sets another combat state. */
  lemma AfterFightPatches(ps: seq<PlayerState>, activeId: string, attId: string, defId: string, p: PlayerState, x: string)
    requires x == attId || x == defId
    ensures var rest := PatchesFor(AfterFightWrites(ps, activeId, attId, defId, p), x);
      rest != [] && rest[0] == ClearCombat && forall u :: u in rest[1..] ==> KeepsCleared(u)
  {
    TapsAndPhaseKeepCleared(ps, activeId, p, x);
    ClearedRest(attId, defId, TapWrites(p, p.combatState.attackers), PostcombatWrites(ps, activeId), x);
  }

  lemma ClearedRest(attId: string, defId: string, t: seq<Write>, e: seq<Write>, x: string)
    requires x == attId || x == defId
    requires forall u :: u in PatchesFor(t, x) ==> KeepsCleared(u)
    requires forall u :: u in PatchesFor(e, x) ==> KeepsCleared(u)
    ensures var rest := PatchesFor([Write(attId, ClearCombat), Write(defId, ClearCombat)] + t + e, x);
      rest != [] && rest[0] == ClearCombat && forall u :: u in rest[1..] ==> KeepsCleared(u)
  {
    var c := [Write(attId, ClearCombat), Write(defId, ClearCombat)];
    ClearsFor(attId, defId, x);
    PatchesForAppend(c + t, e, x);
    PatchesForAppend(c, t, x);
    HeadThenKept(PatchesFor(c, x), PatchesFor(t, x), PatchesFor(e, x));
  }

  lemma HeadThenKept(cs: seq<Patch>, a: seq<Patch>, b: seq<Patch>)
    requires cs != [] && cs[0] == ClearCombat && forall u :: u in cs[1..] ==> u == ClearCombat
    requires forall u :: u in a ==> KeepsCleared(u)
    requires forall u :: u in b ==> KeepsCleared(u)
    ensures var rest := cs + a + b;
      rest != [] && rest[0] == ClearCombat && forall u :: u in rest[1..] ==> KeepsCleared(u)
  {
    var rest := cs + a + b;
    assert rest[1..] == cs[1..] + a + b;
  }

  lemma TapsAndPhaseKeepCleared(ps: seq<PlayerState>, activeId: string, p: PlayerState, x: string)
    ensures forall u :: u in PatchesFor(TapWrites(p, p.combatState.attackers), x) ==> KeepsCleared(u)
    ensures forall u :: u in PatchesFor(PostcombatWrites(ps, activeId), x) ==> KeepsCleared(u)
  {
    TapWritesShaped(p, p.combatState.attackers);
    PatchesForAll(TapWrites(p, p.combatState.attackers), x, (u: Patch) => KeepsCleared(u));
    PatchesForAll(PostcombatWrites(ps, activeId), x, (u: Patch) => KeepsCleared(u));
  }

  /** Merging a clearing and then patches that keep it cleared leaves no combat. */
  lemma ClearedThenKept(q: PlayerState, pre: seq<Patch>, rest: seq<Patch>)
    requires rest != [] && rest[0] == ClearCombat && forall u :: u in rest[1..] ==> KeepsCleared(u)
    ensures MergeAll(q, pre + rest).combatState == NoCombat
  {
    MergeAllAppend(q, pre, rest);
    var m := MergeAll(q, pre);
    assert MergeAll(m, rest) == MergeAll(Merge(m, ClearCombat), rest[1..]);
    MergeAllKeepsCleared(Merge(m, ClearCombat), rest[1..]);
  }

  /** After resolveCombat neither combatant has attackers or blockers left. */
  lemma ResolveCombatClears(ps: seq<PlayerState>, activeId: string, attId: string, defId: string, x: string)
    requires GetPlayer(ps, attId).Some? && GetPlayer(ps, defId).Some?
    requires x == attId || x == defId
    ensures GetPlayer(Commit(ps, ResolveCombatWrites(ps, activeId, attId, defId)), x).Some?
    ensures GetPlayer(Commit(ps, ResolveCombatWrites(ps, activeId, attId, defId)), x).value.combatState == NoCombat
  {
    var p := GetPlayer(ps, attId).value;
    var d := GetPlayer(ps, defId).value;
    ResolveCombatParts(ps, activeId, attId, defId, p, d);
    var f := FightWritesAll(p, d, p.combatState.attackers);
    var after := AfterFightWrites(ps, activeId, attId, defId, p);
    var ws := f + after;
    var q := GetPlayer(ps, x).value;
    PatchesForAppend(f, after, x);
    CommitPatches(ps, ws, x, q, PatchesFor(ws, x));
    AfterFightPatches(ps, activeId, attId, defId, p, x);
    ClearedThenKept(q, PatchesFor(f, x), PatchesFor(after, x));
  }

  // ----- the active player moves on -----

  /**
   * The active player ends in the postcombat main phase: its turn state is
   * its snapshot's with only the phase changed, whatever the fights wrote.
   */
  lemma ResolveCombatMovesOn(ps: seq<PlayerState>, activeId: string, attId: string, defId: string, ap: PlayerState)
    requires GetPlayer(ps, attId).Some? && GetPlayer(ps, defId).Some? && GetPlayer(ps, activeId) == Some(ap)
    ensures GetPlayer(Commit(ps, ResolveCombatWrites(ps, activeId, attId, defId)), activeId).Some?
    ensures var q := GetPlayer(Commit(ps, ResolveCombatWrites(ps, activeId, attId, defId)), activeId).value;
      q.turnState == ap.turnState.(currentPhase := PostcombatMain) && !q.showDeckActions
  {
    var p := GetPlayer(ps, attId).value;
    var d := GetPlayer(ps, defId).value;
    ResolveCombatParts(ps, activeId, attId, defId, p, d);
    var before := FightWritesAll(p, d, p.combatState.attackers)
      + [Write(attId, ClearCombat), Write(defId, ClearCombat)] + TapWrites(p, p.combatState.attackers);
    assert ResolveCombatWrites(ps, activeId, attId, defId) == before + [Write(activeId, ChangePhasePatch(ap, PostcombatMain))];
    PhaseWriteLast(ps, before, activeId, ap);
  }

  /** A phase change queued last decides the active player's phase whatever came before it. */
  lemma PhaseWriteLast(ps: seq<PlayerState>, before: seq<Write>, activeId: string, ap: PlayerState)
    requires GetPlayer(ps, activeId) == Some(ap)
    ensures GetPlayer(Commit(ps, before + [Write(activeId, ChangePhasePatch(ap, PostcombatMain))]), activeId).Some?
    ensures var q := GetPlayer(Commit(ps, before + [Write(activeId, ChangePhasePatch(ap, PostcombatMain))]), activeId).value;
      q.turnState == ap.turnState.(currentPhase := PostcombatMain) && !q.showDeckActions
  {
    var w := Write(activeId, ChangePhasePatch(ap, PostcombatMain));
    CommitSnoc(ps, before, w);
    CommitGet(ps, before, activeId);
    GetUpdated(Commit(ps, before), activeId, w.patch);
  }

  // ----- what the fights do -----

  /** A patch that writes no life total. */
  predicate Lifeless(u: Patch)
  {
    u.lifeTotal.None?
  }

  /** Everything written after the fights leaves the board and the life totals alone. */
  lemma AfterFightQuiet(ps: seq<PlayerState>, activeId: string, attId: string, defId: string, p: PlayerState, x: string)
    ensures forall u :: u in PatchesFor(AfterFightWrites(ps, activeId, attId, defId, p), x) ==> Boardless(u)
    ensures forall u :: u in PatchesFor(AfterFightWrites(ps, activeId, attId, defId, p), x) ==> Lifeless(u)
  {
    var c := [Write(attId, ClearCombat), Write(defId, ClearCombat)];
    var t := TapWrites(p, p.combatState.attackers);
    var e := PostcombatWrites(ps, activeId);
    TapWritesShaped(p, p.combatState.attackers);
    QuietParts(c, t, e, x);
  }

  lemma QuietParts(c: seq<Write>, t: seq<Write>, e: seq<Write>, x: string)
    requires forall w :: w in c ==> w.patch == ClearCombat
    requires forall w :: w in t ==> Boardless(w.patch) && Lifeless(w.patch)
    requires forall w :: w in e ==> Boardless(w.patch) && Lifeless(w.patch)
    ensures forall u :: u in PatchesFor(c + t + e, x) ==> Boardless(u)
    ensures forall u :: u in PatchesFor(c + t + e, x) ==> Lifeless(u)
  {
    PatchesForAll(c + t + e, x, (u: Patch) => Boardless(u));
    PatchesForAll(c + t + e, x, (u: Patch) => Lifeless(u));
  }

  /** The patches a combatant receives: its fight patches, then the quiet rest. */
  lemma CombatantPatches(ps: seq<PlayerState>, activeId: string, attId: string, defId: string, p: PlayerState, d: PlayerState,
                         x: string, q: PlayerState)
    requires GetPlayer(ps, attId) == Some(p) && GetPlayer(ps, defId) == Some(d) && GetPlayer(ps, x) == Some(q)
    ensures var ws := ResolveCombatWrites(ps, activeId, attId, defId);
      var rest := PatchesFor(AfterFightWrites(ps, activeId, attId, defId, p), x);
      GetPlayer(Commit(ps, ws), x) == Some(MergeAll(q, PatchesFor(FightWritesAll(p, d, p.combatState.attackers), x) + rest))
  {
    ResolveCombatParts(ps, activeId, attId, defId, p, d);
    var f := FightWritesAll(p, d, p.combatState.attackers);
    var after := AfterFightWrites(ps, activeId, attId, defId, p);
    PatchesForAppend(f, after, x);
    CommitPatches(ps, f + after, x, q, PatchesFor(f + after, x));
  }

  /** An unblocked attacker with a numeric power: the defender's life drops by it, floored at 0. */
  lemma ResolveCombatUnblocked(ps: seq<PlayerState>, activeId: string, attId: string, defId: string, p: PlayerState, d: PlayerState,
                               a: InstId, ac: Inst, n: int)
    requires GetPlayer(ps, attId) == Some(p) && GetPlayer(ps, defId) == Some(d) && attId != defId
    requires p.combatState.attackers == [a] && At(p.creatures, a) == Some(ac) && BlockersOf(d, a) == []
    requires NumberOf(ac.card.power) == Some(n)
    ensures GetPlayer(Commit(ps, ResolveCombatWrites(ps, activeId, attId, defId)), defId).Some?
    ensures GetPlayer(Commit(ps, ResolveCombatWrites(ps, activeId, attId, defId)), defId).value.lifeTotal == Max0(d.lifeTotal - n)
  {
    var hit := Write(defId, LifePatch(Max0(d.lifeTotal - n)));
    UnblockedFight(p, d, defId, a, ac, n);
    PatchesForOne(hit, defId);
    CombatantPatches(ps, activeId, attId, defId, p, d, defId, d);
    AfterFightQuiet(ps, activeId, attId, defId, p, defId);
    var rest := PatchesFor(AfterFightWrites(ps, activeId, attId, defId, p), defId);
    LifeFirst(d, hit.patch, rest);
  }
  /** resolveCombat's fight of a lone unblocked attacker is one hit on the defender. */
  lemma UnblockedFight(p: PlayerState, d: PlayerState, defId: string, a: InstId, ac: Inst, n: int)
    requires d.id == defId && At(p.creatures, a) == Some(ac) && BlockersOf(d, a) == []
    requires NumberOf(ac.card.power) == Some(n)
    ensures FightWritesAll(p, d, [a]) == [Write(defId, LifePatch(Max0(d.lifeTotal - n)))]
  {
    assert FightWritesAll(p, d, [a][1..]) == [];
  }


  /** The life a player ends with when only the first patch writes one. */
  lemma LifeFirst(q: PlayerState, first: Patch, rest: seq<Patch>)
    requires first.lifeTotal.Some? && forall u :: u in rest ==> Lifeless(u)
    ensures MergeAll(q, [first] + rest).lifeTotal == first.lifeTotal.value
  {
    assert ([first] + rest)[1..] == rest;
    MergeAllLife(Merge(q, first), rest);
    LatestLifeUntouched(rest, Merge(q, first).lifeTotal);
  }

  /** The board a player ends with when the patches after `first` leave it alone. */
  lemma BoardAfter(q: PlayerState, first: seq<Patch>, rest: seq<Patch>)
    requires forall u :: u in rest ==> Boardless(u)
    ensures MergeAll(q, first + rest).creatures == MergeAll(q, first).creatures
    ensures MergeAll(q, first + rest).graveyard == MergeAll(q, first).graveyard
  {
    MergeAllAppend(q, first, rest);
    MergeAllBoardless(MergeAll(q, first), rest);
  }

  /** A fight with one blocker, as writes. */
  lemma OneBlockerWrites(p: PlayerState, d: PlayerState, a: InstId, ac: Inst, b: InstId, bc: Inst)
    requires At(p.creatures, a) == Some(ac) && BlockersOf(d, a) == [b] && At(d.creatures, b) == Some(bc)
    ensures FightWritesAll(p, d, [a]) == TradeWrites(p, d, ac, bc)
  {
    assert [a][1..] == [] && [b][1..] == [];
    assert BlockedWrites(p, d, ac, [b]) == TradeWrites(p, d, ac, bc) + BlockedWrites(p, d, ac, []);
  }

  /** The patches each side of a trade receives. */
  lemma TradePatches(p: PlayerState, d: PlayerState, ac: Inst, bc: Inst)
    requires p.id != d.id && Kills(ac.card, bc.card) && Kills(bc.card, ac.card)
    ensures PatchesFor(TradeWrites(p, d, ac, bc), d.id) == DestroyPermanentPatches(d, bc)
    ensures PatchesFor(TradeWrites(p, d, ac, bc), p.id) == DestroyPermanentPatches(p, ac)
  {
    var x := WritesTo(d.id, DestroyPermanentPatches(d, bc));
    var y := WritesTo(p.id, DestroyPermanentPatches(p, ac));
    PatchesForAppend(x, y, d.id);
    PatchesForAppend(x, y, p.id);
    PatchesForWritesTo(d.id, DestroyPermanentPatches(d, bc), d.id);
    PatchesForWritesTo(d.id, DestroyPermanentPatches(d, bc), p.id);
    PatchesForWritesTo(p.id, DestroyPermanentPatches(p, ac), d.id);
    PatchesForWritesTo(p.id, DestroyPermanentPatches(p, ac), p.id);
  }

  /**
   * One attacker and one blocker whose powers each reach the other's
   * toughness: both are destroyed and (neither being its player's
   * commander) each lands at the end of its own player's graveyard.
   */
  lemma ResolveCombatTrade(ps: seq<PlayerState>, activeId: string, attId: string, defId: string, p: PlayerState, d: PlayerState,
                           a: InstId, ac: Inst, b: InstId, bc: Inst)
    requires GetPlayer(ps, attId) == Some(p) && GetPlayer(ps, defId) == Some(d) && attId != defId
    requires p.combatState.attackers == [a] && At(p.creatures, a) == Some(ac)
    requires BlockersOf(d, a) == [b] && At(d.creatures, b) == Some(bc)
    requires Kills(ac.card, bc.card) && Kills(bc.card, ac.card)
    requires !IsPlayersCommander(d, bc.card) && !IsPlayersCommander(p, ac.card)
    ensures var after := Commit(ps, ResolveCombatWrites(ps, activeId, attId, defId));
      && GetPlayer(after, defId).Some? && GetPlayer(after, attId).Some?
      && GetPlayer(after, defId).value.graveyard == d.graveyard + [bc]
      && GetPlayer(after, attId).value.graveyard == p.graveyard + [ac]
  {
    ResolveCombatParts(ps, activeId, attId, defId, p, d);
    OneBlockerWrites(p, d, a, ac, b, bc);
    TradePatches(p, d, ac, bc);
    CombatantPatches(ps, activeId, attId, defId, p, d, defId, d);
    CombatantPatches(ps, activeId, attId, defId, p, d, attId, p);
    AfterFightQuiet(ps, activeId, attId, defId, p, defId);
    AfterFightQuiet(ps, activeId, attId, defId, p, attId);
    var tail := AfterFightWrites(ps, activeId, attId, defId, p);
    BoardAfter(d, DestroyPermanentPatches(d, bc), PatchesFor(tail, defId));
    BoardAfter(p, DestroyPermanentPatches(p, ac), PatchesFor(tail, attId));
    DestroyPermanentEffect(d, bc);
    DestroyPermanentEffect(p, ac);
  }

  /** destroyPermanent's graveyard write comes from the snapshot, whatever was merged before it. */
  lemma DestroyGraveyardFromSnapshot(d: PlayerState, card: Inst, m: PlayerState)
    requires !IsPlayersCommander(d, card.card)
    ensures MergeAll(m, DestroyPermanentPatches(d, card)).graveyard == d.graveyard + [card]
  {
    var us := DestroyPermanentPatches(d, card);
    MergeTwo(m, us[0], us[1]);
  }

  /** Two blockers both destroyed by their attacker, as writes and patches. */
  lemma TwoBlockersPatches(p: PlayerState, d: PlayerState, a: InstId, ac: Inst, b1: InstId, bc1: Inst, b2: InstId, bc2: Inst)
    requires p.id != d.id
    requires At(p.creatures, a) == Some(ac) && BlockersOf(d, a) == [b1, b2]
    requires At(d.creatures, b1) == Some(bc1) && At(d.creatures, b2) == Some(bc2)
    requires Kills(ac.card, bc1.card) && Kills(ac.card, bc2.card) && !Kills(bc1.card, ac.card) && !Kills(bc2.card, ac.card)
    ensures PatchesFor(FightWritesAll(p, d, [a]), d.id) == DestroyPermanentPatches(d, bc1) + DestroyPermanentPatches(d, bc2)
  {
    var bs := [b1, b2];
    assert bs[1..] == [b2] && [b2][1..] == [] && [a][1..] == [];
    var w1 := WritesTo(d.id, DestroyPermanentPatches(d, bc1));
    var w2 := WritesTo(d.id, DestroyPermanentPatches(d, bc2));
    assert TradeWrites(p, d, ac, bc1) == w1 && TradeWrites(p, d, ac, bc2) == w2;
    assert BlockedWrites(p, d, ac, [b2]) == w2 + BlockedWrites(p, d, ac, []);
    assert FightWritesAll(p, d, [a]) == w1 + w2;
    PatchesForAppend(w1, w2, d.id);
    PatchesForWritesTo(d.id, DestroyPermanentPatches(d, bc1), d.id);
    PatchesForWritesTo(d.id, DestroyPermanentPatches(d, bc2), d.id);
  }

  /**
   * Two blockers destroyed by the same attacker: each destroyPermanent
   * starts from the defender as it was before combat, so the graveyard
   * gains only the second blocker; the first one's move is lost.
   */
  lemma ResolveCombatLosesFirstDestroyed(ps: seq<PlayerState>, activeId: string, attId: string, defId: string, p: PlayerState, d: PlayerState,
                                         a: InstId, ac: Inst, b1: InstId, bc1: Inst, b2: InstId, bc2: Inst)
    requires GetPlayer(ps, attId) == Some(p) && GetPlayer(ps, defId) == Some(d) && attId != defId
    requires p.combatState.attackers == [a] && At(p.creatures, a) == Some(ac) && BlockersOf(d, a) == [b1, b2]
    requires At(d.creatures, b1) == Some(bc1) && At(d.creatures, b2) == Some(bc2)
    requires Kills(ac.card, bc1.card) && Kills(ac.card, bc2.card) && !Kills(bc1.card, ac.card) && !Kills(bc2.card, ac.card)
    requires !IsPlayersCommander(d, bc2.card)
    ensures GetPlayer(Commit(ps, ResolveCombatWrites(ps, activeId, attId, defId)), defId).Some?
    ensures GetPlayer(Commit(ps, ResolveCombatWrites(ps, activeId, attId, defId)), defId).value.graveyard == d.graveyard + [bc2]
  {
    ResolveCombatParts(ps, activeId, attId, defId, p, d);
    TwoBlockersPatches(p, d, a, ac, b1, bc1, b2, bc2);
    CombatantPatches(ps, activeId, attId, defId, p, d, defId, d);
    AfterFightQuiet(ps, activeId, attId, defId, p, defId);
    var tail := AfterFightWrites(ps, activeId, attId, defId, p);
    var first := DestroyPermanentPatches(d, bc1);
    var second := DestroyPermanentPatches(d, bc2);
    BoardAfter(d, first + second, PatchesFor(tail, defId));
    MergeAllAppend(d, first, second);
    DestroyGraveyardFromSnapshot(d, bc2, MergeAll(d, first));
  }
}
