/**
 * Combat damage in DeckProvider.tsx: `dealDamageToCreature`, the defender
 * lookup, and the writes of the two `resolveCombatDamage` passes (blocked
 * fights, unblocked hits, lifelink and the attackers' tapping), with the
 * lemmas that say which players and fields those writes reach.
 */
module Combat {
  import opened Common
  import opened DeckTypes
  import opened Players
  import opened CardRules
  import opened Zones
  import opened Turns

  // ----- dealDamageToCreature (420-484) -----

  /** The battlefield match `c.id === creature.id && c.placedAt === creature.placedAt`. */
  predicate SameObject(c: Inst, x: Inst)
  {
    c.card.id == x.card.id && c.placedAt == x.placedAt
  }

  /** Damage from a deathtouch source is lethal when it is positive. */
  predicate DeathtouchHit(damage: int, source: Option<Inst>)
  {
    source.Some? && HasDeathtouch(source.value.card) && damage > 0
  }

  predicate IsLethal(x: Inst, damage: int, source: Option<Inst>)
  {
    x.damage + damage >= Toughness(x.card) || DeathtouchHit(damage, source)
  }

  /** Lethal damage destroys a creature unless its keyword list names indestructible. */
  predicate Destroys(x: Inst, damage: int, source: Option<Inst>)
  {
    IsLethal(x, damage, source) && !ListsIndestructible(x.card)
  }

  /** The row with every copy of the object carrying the damage `d`. */
  function WithDamage(cs: seq<Inst>, x: Inst, d: int): (r: seq<Inst>)
    ensures |r| == |cs|
    ensures forall i :: 0 <= i < |cs| ==> r[i] == if SameObject(cs[i], x) then cs[i].(damage := d) else cs[i]
  {
    seq(|cs|, i requires 0 <= i < |cs| => if SameObject(cs[i], x) then cs[i].(damage := d) else cs[i])
  }

  /** The row without any copy of the object. */
  function WithoutObject(cs: seq<Inst>, x: Inst): (r: seq<Inst>)
    ensures |r| <= |cs|
    ensures forall c :: c in r <==> c in cs && !SameObject(c, x)
  {
    Filter(cs, (c: Inst) => !SameObject(c, x))
  }

  /** dealDamageToCreature, as a patch computed from the player `p` the call reads. */
  function DealDamagePatch(p: PlayerState, x: Inst, damage: int, source: Option<Inst>): Patch
  {
    if Destroys(x, damage, source) then
      Keep.(creatures := Some(WithoutObject(p.creatures, x)), graveyard := Some(p.graveyard + [x.(damage := 0)]))
    else
      Keep.(creatures := Some(WithDamage(p.creatures, x, x.damage + damage)))
  }

  /**
   * A destroyed creature leaves the creature row (every copy of it, matched
   * by card id and time) and goes to the end of the graveyard with no damage;
   * nothing else changes.
   */
  lemma DealDamageDestroys(p: PlayerState, x: Inst, damage: int, source: Option<Inst>)
    requires Destroys(x, damage, source)
    ensures var q := Merge(p, DealDamagePatch(p, x, damage, source));
      && (forall c :: c in q.creatures <==> c in p.creatures && !SameObject(c, x))
      && q.graveyard == p.graveyard + [x.(damage := 0)]
      && q == p.(creatures := q.creatures, graveyard := q.graveyard)
  {
  }

  /**
   * A creature that survives, or is indestructible, keeps its place and now
   * carries its old damage plus the new; nothing else changes.
   */
  lemma DealDamageMarks(p: PlayerState, x: Inst, damage: int, source: Option<Inst>)
    requires !Destroys(x, damage, source)
    ensures var q := Merge(p, DealDamagePatch(p, x, damage, source));
      && |q.creatures| == |p.creatures|
      && (forall i :: 0 <= i < |p.creatures| && SameObject(p.creatures[i], x) ==>
            q.creatures[i] == p.creatures[i].(damage := x.damage + damage))
      && (forall i :: 0 <= i < |p.creatures| && !SameObject(p.creatures[i], x) ==> q.creatures[i] == p.creatures[i])
      && q == p.(creatures := q.creatures)
  {
  }

  /** Indestructible creatures are never destroyed by damage; without a source, only toughness decides. */
  lemma LethalWithoutSource(x: Inst, damage: int, source: Option<Inst>)
    ensures ListsIndestructible(x.card) ==> !Destroys(x, damage, source)
    ensures source.None? ==> (Destroys(x, damage, source) <==> x.damage + damage >= Toughness(x.card) && !ListsIndestructible(x.card))
  {
  }

  // ----- what combat damage may write -----

  /** A patch that sets nothing but the creatures, the graveyard, the tapped creatures and the life total. */
  predicate DamageFootprint(u: Patch)
  {
    u.deck.None? && u.shuffledDeck.None? && u.currentDeckIndex.None? && u.drawnCards.None?
    && u.lands.None? && u.exile.None? && u.tappedLands.None? && u.isShuffling.None?
    && u.showDeckActions.None? && u.isDrawingCard.None? && u.drawingCard.None? && u.scryCards.None?
    && u.searchResults.None? && u.isSearching.None? && u.turnState.None? && u.commanderTax.None?
    && u.combatState.None? && u.targetingState.None?
  }

  /** Two player records that agree everywhere combat damage cannot write. */
  predicate SameBesidesDamage(p: PlayerState, q: PlayerState)
  {
    p == q.(creatures := p.creatures, graveyard := p.graveyard, tappedCreatures := p.tappedCreatures, lifeTotal := p.lifeTotal)
  }

  lemma {:induction false} MergeAllBesidesDamage(p: PlayerState, us: seq<Patch>)
    requires forall u :: u in us ==> DamageFootprint(u)
    ensures SameBesidesDamage(p, MergeAll(p, us))
    decreases |us|
  {
    if us != [] {
      assert us[0] in us;
      assert forall u :: u in us[1..] ==> u in us;
      MergeAllBesidesDamage(Merge(p, us[0]), us[1..]);
    }
  }

  /** The last value a list of patches writes to the life total, or `d`. */
  function LatestLife(us: seq<Patch>, d: int): int
    decreases |us|
  {
    if us == [] then d else LatestLife(us[1..], OrElse(us[0].lifeTotal, d))
  }

  /** The last value a list of patches writes to the tapped creatures, or `d`. */
  function LatestTapped(us: seq<Patch>, d: set<InstId>): set<InstId>
    decreases |us|
  {
    if us == [] then d else LatestTapped(us[1..], OrElse(us[0].tappedCreatures, d))
  }

  /** Within one operation the last write to the life total wins. */
  lemma {:induction false} MergeAllLife(p: PlayerState, us: seq<Patch>)
    ensures MergeAll(p, us).lifeTotal == LatestLife(us, p.lifeTotal)
    decreases |us|
  {
    if us != [] {
      MergeAllLife(Merge(p, us[0]), us[1..]);
    }
  }

  /** Within one operation the last write to the tapped creatures wins. */
  lemma {:induction false} MergeAllTapped(p: PlayerState, us: seq<Patch>)
    ensures MergeAll(p, us).tappedCreatures == LatestTapped(us, p.tappedCreatures)
    decreases |us|
  {
    if us != [] {
      MergeAllTapped(Merge(p, us[0]), us[1..]);
    }
  }

  lemma {:induction false} LatestTappedAppend(a: seq<Patch>, b: seq<Patch>, d: set<InstId>)
    ensures LatestTapped(a + b, d) == LatestTapped(b, LatestTapped(a, d))
    decreases |a|
  {
    if a == [] {
      assert a + b == b;
    } else {
      assert (a + b)[1..] == a[1..] + b;
      LatestTappedAppend(a[1..], b, OrElse(a[0].tappedCreatures, d));
    }
  }

  lemma {:induction false} LatestTappedUntouched(a: seq<Patch>, d: set<InstId>)
    requires forall u :: u in a ==> u.tappedCreatures.None?
    ensures LatestTapped(a, d) == d
    decreases |a|
  {
    if a != [] {
      assert a[0] in a;
      assert forall u :: u in a[1..] ==> u in a;
      LatestTappedUntouched(a[1..], d);
    }
  }

  // ----- resolveCombatDamage (1517-1631) -----

  /** `players.find(p => p.id !== playerId)`: the first other player. */
  function Defender(ps: seq<PlayerState>, pid: string): (r: Option<PlayerState>)
    ensures r.Some? ==> r.value in ps && r.value.id != pid
    ensures r.None? ==> forall q :: q in ps ==> q.id == pid
  {
    if ps == [] then None else if ps[0].id != pid then Some(ps[0]) else Defender(ps[1..], pid)
  }

  /** `row[parseInt(last part of the instance id)]`. */
  function At(row: seq<Inst>, id: InstId): Option<Inst>
  {
    if id.slot < |row| then Some(row[id.slot]) else None
  }

  /** First strike or double strike, read from the rules text. */
  predicate StrikesFirst(c: Card)
  {
    HasFirstStrikeAbility(c) || HasDoubleStrikeText(c)
  }

  /** Whether a creature deals damage in the first-strike pass or in the regular one. */
  predicate DealsDamageIn(c: Card, firstStrike: bool)
  {
    !(firstStrike && !StrikesFirst(c)) && !(!firstStrike && StrikesFirst(c) && !HasDoubleStrikeText(c))
  }

  /** `defendingPlayer.combatState.blockers[attackerInstanceId] || []`. */
  function BlockersOf(d: PlayerState, a: InstId): seq<InstId>
  {
    if a in d.combatState.blockers then d.combatState.blockers[a] else []
  }

  /** `Math.max(0, x)`. */
  function Max0(x: int): (r: nat)
    ensures r >= x && (x >= 0 ==> r == x)
  {
    if x < 0 then 0 else x
  }

  function LifePatch(life: int): Patch
  {
    Keep.(lifeTotal := Some(life))
  }

  /** Lifelink: the controller gains the damage dealt, added to the life total the operation read. */
  function LifelinkWrites(q: PlayerState, c: Card, dealt: int): seq<Write>
  {
    if HasLifelink(c) && dealt > 0 then [Write(q.id, LifePatch(q.lifeTotal + dealt))] else []
  }

  /** An unblocked attacker: the defender loses its power, the attacker's player gains it with lifelink. */
  function DirectWrites(p: PlayerState, d: PlayerState, ac: Inst): seq<Write>
  {
    [Write(d.id, LifePatch(Max0(d.lifeTotal - Power(ac.card))))] + LifelinkWrites(p, ac.card, Power(ac.card))
  }

  /** One attacker and one blocker damage each other; lifelink gains life from the snapshot. */
  function FightWrites(p: PlayerState, d: PlayerState, ac: Inst, bc: Inst): seq<Write>
  {
    HitWrites(p, d, ac, bc) + LifelinkWrites(p, ac.card, Power(ac.card)) + LifelinkWrites(d, bc.card, Power(bc.card))
  }

  /** Each creature of the fight takes the other's power. */
  function HitWrites(p: PlayerState, d: PlayerState, ac: Inst, bc: Inst): seq<Write>
  {
    [Write(d.id, DealDamagePatch(d, bc, Power(ac.card), Some(ac))), Write(p.id, DealDamagePatch(p, ac, Power(bc.card), Some(bc)))]
  }

  /** `blockers.forEach(...)` for one attacker. */
  function BlockWrites(p: PlayerState, d: PlayerState, ac: Inst, bs: seq<InstId>, firstStrike: bool): seq<Write>
    decreases |bs|
  {
    if bs == [] then []
    else
      (match At(d.creatures, bs[0])
       case None => []
       case Some(bc) => if DealsDamageIn(bc.card, firstStrike) then FightWrites(p, d, ac, bc) else [])
      + BlockWrites(p, d, ac, bs[1..], firstStrike)
  }

  /** The writes for one attacker instance id. */
  function AttackerWrites(p: PlayerState, d: PlayerState, a: InstId, firstStrike: bool): seq<Write>
  {
    match At(p.creatures, a)
    case None => []
    case Some(ac) =>
      if !DealsDamageIn(ac.card, firstStrike) then []
      else if BlockersOf(d, a) == [] then DirectWrites(p, d, ac)
      else BlockWrites(p, d, ac, BlockersOf(d, a), firstStrike)
  }

  /** `player.combatState.attackers.forEach(...)`. */
  function DamageWrites(p: PlayerState, d: PlayerState, attackers: seq<InstId>, firstStrike: bool): seq<Write>
    decreases |attackers|
  {
    if attackers == [] then []
    else AttackerWrites(p, d, attackers[0], firstStrike) + DamageWrites(p, d, attackers[1..], firstStrike)
  }

  /** The tapping loop after regular damage, each tap computed from the snapshot. */
  function TapWrites(p: PlayerState, attackers: seq<InstId>): seq<Write>
    decreases |attackers|
  {
    if attackers == [] then []
    else
      (match At(p.creatures, attackers[0])
       case None => []
       case Some(ac) => [Write(p.id, TapCreaturePatch(p, ac, attackers[0].slot))])
      + TapWrites(p, attackers[1..])
  }

  /** resolveCombatDamage: the writes of one pass, first strike or regular. */
  function ResolveCombatDamageWrites(ps: seq<PlayerState>, pid: string, firstStrike: bool): seq<Write>
  {
    match GetPlayer(ps, pid)
    case None => []
    case Some(p) =>
      match Defender(ps, pid)
      case None => []
      case Some(d) =>
        PassWrites(p, d, firstStrike)
  }

  // ----- where the pass writes -----

  /** Writes addressed to the two combatants, setting only damage fields; `taps` allows the tapped set. */
  predicate Shaped(ws: seq<Write>, pid: string, did: string, taps: bool)
  {
    forall w :: w in ws ==> WriteShaped(w, pid, did, taps)
  }

  predicate WriteShaped(w: Write, pid: string, did: string, taps: bool)
  {
    (w.pid == pid || w.pid == did) && DamageFootprint(w.patch)
    && (!taps || w.pid == did ==> w.patch.tappedCreatures.None?)
  }

  /** A property of every write to `x` holds of every patch `x` receives. */
  lemma {:induction false} PatchesForAll(ws: seq<Write>, x: string, q: Patch -> bool)
    requires forall w :: w in ws && w.pid == x ==> q(w.patch)
    ensures forall u :: u in PatchesFor(ws, x) ==> q(u)
    decreases |ws|
  {
    if ws != [] {
      assert ws[0] in ws;
      assert forall w :: w in ws[1..] ==> w in ws;
      PatchesForAll(ws[1..], x, q);
    }
  }

  /** A player no write is addressed to receives nothing. */
  lemma {:induction false} PatchesForNone(ws: seq<Write>, x: string)
    requires forall w :: w in ws ==> w.pid != x
    ensures PatchesFor(ws, x) == []
    decreases |ws|
  {
    if ws != [] {
      assert ws[0] in ws;
      assert forall w :: w in ws[1..] ==> w in ws;
      PatchesForNone(ws[1..], x);
    }
  }

  lemma ShapedAppend(a: seq<Write>, b: seq<Write>, pid: string, did: string, taps: bool)
    requires Shaped(a, pid, did, taps) && Shaped(b, pid, did, taps)
    ensures Shaped(a + b, pid, did, taps)
  {
  }

  lemma DealDamageFootprint(p: PlayerState, x: Inst, damage: int, source: Option<Inst>)
    ensures DamageFootprint(DealDamagePatch(p, x, damage, source))
    ensures DealDamagePatch(p, x, damage, source).tappedCreatures.None?
  {
  }

  lemma LifelinkShaped(q: PlayerState, c: Card, dealt: int, pid: string, did: string)
    requires q.id == pid || q.id == did
    ensures Shaped(LifelinkWrites(q, c, dealt), pid, did, false)
  {
  }

  lemma HitWritesShaped(p: PlayerState, d: PlayerState, ac: Inst, bc: Inst)
    ensures Shaped(HitWrites(p, d, ac, bc), p.id, d.id, false)
  {
    var hits := HitWrites(p, d, ac, bc);
    DealDamageFootprint(d, bc, Power(ac.card), Some(ac));
    DealDamageFootprint(p, ac, Power(bc.card), Some(bc));
    assert WriteShaped(hits[0], p.id, d.id, false);
    assert WriteShaped(hits[1], p.id, d.id, false);
  }

  lemma FightWritesShaped(p: PlayerState, d: PlayerState, ac: Inst, bc: Inst)
    ensures Shaped(FightWrites(p, d, ac, bc), p.id, d.id, false)
  {
    var hits := HitWrites(p, d, ac, bc);
    var gain := LifelinkWrites(p, ac.card, Power(ac.card));
    var back := LifelinkWrites(d, bc.card, Power(bc.card));
    HitWritesShaped(p, d, ac, bc);
    LifelinkShaped(p, ac.card, Power(ac.card), p.id, d.id);
    LifelinkShaped(d, bc.card, Power(bc.card), p.id, d.id);
    ShapedAppend(hits, gain, p.id, d.id, false);
    ShapedAppend(hits + gain, back, p.id, d.id, false);
  }

  lemma DirectWritesShaped(p: PlayerState, d: PlayerState, ac: Inst)
    ensures Shaped(DirectWrites(p, d, ac), p.id, d.id, false)
  {
    LifelinkShaped(p, ac.card, Power(ac.card), p.id, d.id);
  }

  lemma {:induction false} BlockWritesShaped(p: PlayerState, d: PlayerState, ac: Inst, bs: seq<InstId>, firstStrike: bool)
    ensures Shaped(BlockWrites(p, d, ac, bs, firstStrike), p.id, d.id, false)
    decreases |bs|
  {
    if bs != [] {
      var head := match At(d.creatures, bs[0])
        case None => []
        case Some(bc) => if DealsDamageIn(bc.card, firstStrike) then FightWrites(p, d, ac, bc) else [];
      assert BlockWrites(p, d, ac, bs, firstStrike) == head + BlockWrites(p, d, ac, bs[1..], firstStrike);
      if At(d.creatures, bs[0]).Some? {
        FightWritesShaped(p, d, ac, At(d.creatures, bs[0]).value);
      }
      BlockWritesShaped(p, d, ac, bs[1..], firstStrike);
      ShapedAppend(head, BlockWrites(p, d, ac, bs[1..], firstStrike), p.id, d.id, false);
    }
  }

  lemma AttackerWritesShaped(p: PlayerState, d: PlayerState, a: InstId, firstStrike: bool)
    ensures Shaped(AttackerWrites(p, d, a, firstStrike), p.id, d.id, false)
  {
    if At(p.creatures, a).Some? {
      var ac := At(p.creatures, a).value;
      DirectWritesShaped(p, d, ac);
      BlockWritesShaped(p, d, ac, BlockersOf(d, a), firstStrike);
    }
  }

  lemma {:induction false} DamageWritesShaped(p: PlayerState, d: PlayerState, attackers: seq<InstId>, firstStrike: bool)
    ensures Shaped(DamageWrites(p, d, attackers, firstStrike), p.id, d.id, false)
    decreases |attackers|
  {
    if attackers != [] {
      AttackerWritesShaped(p, d, attackers[0], firstStrike);
      DamageWritesShaped(p, d, attackers[1..], firstStrike);
      ShapedAppend(AttackerWrites(p, d, attackers[0], firstStrike), DamageWrites(p, d, attackers[1..], firstStrike), p.id, d.id, false);
    }
  }

  lemma {:induction false} TapWritesShaped(p: PlayerState, attackers: seq<InstId>)
    ensures forall w :: w in TapWrites(p, attackers) ==>
      w.pid == p.id && DamageFootprint(w.patch) && w.patch.tappedCreatures.Some? && w.patch.lifeTotal.None? && Boardless(w.patch)
    decreases |attackers|
  {
    if attackers != [] {
      TapWritesShaped(p, attackers[1..]);
    }
  }

  /** A pass writes only to the attacking and the defending player, and only damage fields; only the attacker is tapped. */
  lemma ResolveCombatDamageShaped(ps: seq<PlayerState>, pid: string, firstStrike: bool)
    requires GetPlayer(ps, pid).Some? && Defender(ps, pid).Some?
    ensures Shaped(ResolveCombatDamageWrites(ps, pid, firstStrike), pid, Defender(ps, pid).value.id, true)
    ensures firstStrike ==> Shaped(ResolveCombatDamageWrites(ps, pid, firstStrike), pid, Defender(ps, pid).value.id, false)
  {
    var p := GetPlayer(ps, pid).value;
    var d := Defender(ps, pid).value;
    assert p.id == pid;
    DamageWritesShaped(p, d, p.combatState.attackers, firstStrike);
    TapWritesShaped(p, p.combatState.attackers);
  }

  /**
   * Combat damage changes nobody but the two combatants, and in them only
   * creatures, graveyard, tapped creatures and life total.
   */
  lemma ResolveCombatDamageFrame(ps: seq<PlayerState>, pid: string, firstStrike: bool, x: string)
    requires GetPlayer(ps, pid).Some? && Defender(ps, pid).Some? && GetPlayer(ps, x).Some?
    ensures var q := GetPlayer(Commit(ps, ResolveCombatDamageWrites(ps, pid, firstStrike)), x);
      && q.Some? && SameBesidesDamage(GetPlayer(ps, x).value, q.value)
      && (x != pid && x != Defender(ps, pid).value.id ==> q == GetPlayer(ps, x))
  {
    var ws := ResolveCombatDamageWrites(ps, pid, firstStrike);
    ResolveCombatDamageShaped(ps, pid, firstStrike);
    PatchesForAll(ws, x, (u: Patch) => DamageFootprint(u));
    CommitGet(ps, ws, x);
    MergeAllBesidesDamage(GetPlayer(ps, x).value, PatchesFor(ws, x));
    if x != pid && x != Defender(ps, pid).value.id {
      PatchesForNone(ws, x);
    }
  }

  // ----- what the pass does -----

  lemma {:induction false} LatestLifeAppend(a: seq<Patch>, b: seq<Patch>, d: int)
    ensures LatestLife(a + b, d) == LatestLife(b, LatestLife(a, d))
    decreases |a|
  {
    if a == [] {
      assert a + b == b;
    } else {
      assert (a + b)[1..] == a[1..] + b;
      LatestLifeAppend(a[1..], b, OrElse(a[0].lifeTotal, d));
    }
  }

  lemma {:induction false} LatestLifeUntouched(a: seq<Patch>, d: int)
    requires forall u :: u in a ==> u.lifeTotal.None?
    ensures LatestLife(a, d) == d
    decreases |a|
  {
    if a != [] {
      assert a[0] in a;
      assert forall u :: u in a[1..] ==> u in a;
      LatestLifeUntouched(a[1..], d);
    }
  }

  /** The instance id of the last attacker that still names a creature, if any. */
  function LastTapped(p: PlayerState, attackers: seq<InstId>): Option<InstId>
    decreases |attackers|
  {
    if attackers == [] then None
    else match LastTapped(p, attackers[1..])
      case Some(id) => Some(id)
      case None =>
        match At(p.creatures, attackers[0])
        case None => None
        case Some(ac) => Some(InstId(ac.card.id, attackers[0].slot))
  }

  /** Every tap is computed from the snapshot, so only the last one is kept. */
  lemma {:induction false} TapWritesLatest(p: PlayerState, attackers: seq<InstId>, d0: set<InstId>)
    ensures LatestTapped(PatchesFor(TapWrites(p, attackers), p.id), d0) ==
      match LastTapped(p, attackers)
      case None => d0
      case Some(id) => p.tappedCreatures + {id}
    decreases |attackers|
  {
    if attackers != [] {
      var head := match At(p.creatures, attackers[0])
        case None => []
        case Some(ac) => [Write(p.id, TapCreaturePatch(p, ac, attackers[0].slot))];
      var rest := TapWrites(p, attackers[1..]);
      assert TapWrites(p, attackers) == head + rest;
      PatchesForAppend(head, rest, p.id);
      LatestTappedAppend(PatchesFor(head, p.id), PatchesFor(rest, p.id), d0);
      var d1 := LatestTapped(PatchesFor(head, p.id), d0);
      TapWritesLatest(p, attackers[1..], d1);
      if head != [] {
        assert head[1..] == [];
        assert PatchesFor(head, p.id) == [head[0].patch];
        assert d1 == LatestTapped([], OrElse(head[0].patch.tappedCreatures, d0));
      }
    }
  }

  /**
   * resolveCombatDamage's tapping: the first-strike pass taps nothing; after
   * the regular pass the attacking player's tapped set is its old set plus
   * only the last attacker that still names a creature, because every tap
   * is written from the same snapshot.
   */
  lemma ResolveCombatDamageTaps(ps: seq<PlayerState>, pid: string, firstStrike: bool)
    requires GetPlayer(ps, pid).Some? && Defender(ps, pid).Some?
    ensures var p := GetPlayer(ps, pid).value;
      var q := GetPlayer(Commit(ps, ResolveCombatDamageWrites(ps, pid, firstStrike)), pid);
      q.Some? &&
      q.value.tappedCreatures ==
        if firstStrike then p.tappedCreatures
        else match LastTapped(p, p.combatState.attackers)
          case None => p.tappedCreatures
          case Some(id) => p.tappedCreatures + {id}
  {
    var p := GetPlayer(ps, pid).value;
    var d := Defender(ps, pid).value;
    assert p.id == pid;
    var dw := DamageWrites(p, d, p.combatState.attackers, firstStrike);
    var tw := if firstStrike then [] else TapWrites(p, p.combatState.attackers);
    assert ResolveCombatDamageWrites(ps, pid, firstStrike) == dw + tw;
    CommitGet(ps, dw + tw, pid);
    MergeAllTapped(p, PatchesFor(dw + tw, pid));
    PatchesForAppend(dw, tw, pid);
    LatestTappedAppend(PatchesFor(dw, pid), PatchesFor(tw, pid), p.tappedCreatures);
    DamageWritesShaped(p, d, p.combatState.attackers, firstStrike);
    PatchesForAll(dw, pid, (u: Patch) => u.tappedCreatures.None?);
    LatestTappedUntouched(PatchesFor(dw, pid), p.tappedCreatures);
    if !firstStrike {
      TapWritesLatest(p, p.combatState.attackers, p.tappedCreatures);
    }
  }

  /** The defender found by `players.find` is also the player `getPlayer` returns for its id. */
  lemma {:induction false} DefenderFound(ps: seq<PlayerState>, pid: string)
    requires Defender(ps, pid).Some?
    ensures GetPlayer(ps, Defender(ps, pid).value.id) == Defender(ps, pid)
    decreases |ps|
  {
    if ps[0].id == pid {
      DefenderFound(ps[1..], pid);
      var did := Defender(ps, pid).value.id;
      assert Find(ps, did) == match Find(ps[1..], did) case None => None case Some(k) => Some(k + 1);
    }
  }

  lemma DirectWritesToDefender(p: PlayerState, d: PlayerState, ac: Inst)
    requires p.id != d.id
    ensures PatchesFor(DirectWrites(p, d, ac), d.id) == [LifePatch(Max0(d.lifeTotal - Power(ac.card)))]
  {
    var hit := [Write(d.id, LifePatch(Max0(d.lifeTotal - Power(ac.card))))];
    var gain := LifelinkWrites(p, ac.card, Power(ac.card));
    PatchesForAppend(hit, gain, d.id);
    PatchesForOne(hit[0], d.id);
    if gain != [] {
      PatchesForOne(gain[0], d.id);
    }
  }

  lemma DirectWritesToAttacker(p: PlayerState, d: PlayerState, ac: Inst)
    requires p.id != d.id
    ensures PatchesFor(DirectWrites(p, d, ac), p.id) == PatchesFor(LifelinkWrites(p, ac.card, Power(ac.card)), p.id)
  {
    var hit := [Write(d.id, LifePatch(Max0(d.lifeTotal - Power(ac.card))))];
    PatchesForAppend(hit, LifelinkWrites(p, ac.card, Power(ac.card)), p.id);
    PatchesForOne(hit[0], p.id);
  }

  lemma LifelinkToOwner(q: PlayerState, c: Card, dealt: int)
    ensures PatchesFor(LifelinkWrites(q, c, dealt), q.id) ==
      if HasLifelink(c) && dealt > 0 then [LifePatch(q.lifeTotal + dealt)] else []
  {
    if HasLifelink(c) && dealt > 0 {
      PatchesForOne(Write(q.id, LifePatch(q.lifeTotal + dealt)), q.id);
    }
  }

  /** The regular tapping loop writes nothing to the defender. */
  lemma TapWritesSkipDefender(p: PlayerState, attackers: seq<InstId>, did: string)
    requires did != p.id
    ensures PatchesFor(TapWrites(p, attackers), did) == []
  {
    TapWritesShaped(p, attackers);
    PatchesForNone(TapWrites(p, attackers), did);
  }

  /** The regular tapping loop leaves the life total alone. */
  lemma TapWritesLeaveLife(p: PlayerState, attackers: seq<InstId>, life: int)
    ensures LatestLife(PatchesFor(TapWrites(p, attackers), p.id), life) == life
  {
    TapWritesShaped(p, attackers);
    PatchesForAll(TapWrites(p, attackers), p.id, (u: Patch) => u.lifeTotal.None?);
    LatestLifeUntouched(PatchesFor(TapWrites(p, attackers), p.id), life);
  }

  /**
   * A single unblocked attacker that strikes in this pass: the defender's
   * life falls by its power, floored at 0, and nothing else of the defender
   * changes; with lifelink and positive power its player gains that much.
   */
  lemma ResolveUnblockedAttacker(ps: seq<PlayerState>, pid: string, firstStrike: bool, p: PlayerState, d: PlayerState,
                                 a: InstId, ac: Inst)
    requires GetPlayer(ps, pid) == Some(p) && Defender(ps, pid) == Some(d)
    requires p.combatState.attackers == [a] && At(p.creatures, a) == Some(ac) && DealsDamageIn(ac.card, firstStrike)
    requires BlockersOf(d, a) == []
    ensures var after := Commit(ps, ResolveCombatDamageWrites(ps, pid, firstStrike));
      && GetPlayer(after, d.id) == Some(d.(lifeTotal := Max0(d.lifeTotal - Power(ac.card))))
      && GetPlayer(after, pid).Some?
      && GetPlayer(after, pid).value.lifeTotal ==
           if HasLifelink(ac.card) && Power(ac.card) > 0 then p.lifeTotal + Power(ac.card) else p.lifeTotal
  {
    assert p.id == pid;
    var ws := ResolveCombatDamageWrites(ps, pid, firstStrike);
    assert ws == PassWrites(p, d, firstStrike);
    UnblockedPatches(p, d, firstStrike, a, ac);
    DefenderFound(ps, pid);
    var m := Max0(d.lifeTotal - Power(ac.card));
    assert GetPlayer(Commit(ps, ws), d.id) == Some(d.(lifeTotal := m)) by {
      CommitPatches(ps, ws, d.id, d, [LifePatch(m)]);
      LifeWriteOnly(d, m);
    }
    CommitPatches(ps, ws, pid, p, PatchesFor(ws, pid));
    MergeAllLife(p, PatchesFor(ws, pid));
  }

  lemma LifeWriteOnly(q: PlayerState, life: int)
    ensures MergeAll(q, [LifePatch(life)]) == q.(lifeTotal := life)
  {
    MergeOne(q, LifePatch(life));
  }

  /** A pass read from the attacking player `p` and the defending player `d`. */
  function PassWrites(p: PlayerState, d: PlayerState, firstStrike: bool): seq<Write>
  {
    DamageWrites(p, d, p.combatState.attackers, firstStrike)
    + (if firstStrike then [] else TapWrites(p, p.combatState.attackers))
  }

  lemma UnblockedPatches(p: PlayerState, d: PlayerState, firstStrike: bool, a: InstId, ac: Inst)
    requires p.id != d.id && p.combatState.attackers == [a]
    requires At(p.creatures, a) == Some(ac) && DealsDamageIn(ac.card, firstStrike) && BlockersOf(d, a) == []
    ensures PatchesFor(PassWrites(p, d, firstStrike), d.id) == [LifePatch(Max0(d.lifeTotal - Power(ac.card)))]
    ensures LatestLife(PatchesFor(PassWrites(p, d, firstStrike), p.id), p.lifeTotal) ==
      if HasLifelink(ac.card) && Power(ac.card) > 0 then p.lifeTotal + Power(ac.card) else p.lifeTotal
  {
    var dw := DirectWrites(p, d, ac);
    var tw := if firstStrike then [] else TapWrites(p, [a]);
    UnblockedPassWrites(p, d, firstStrike, a, ac);
    UnblockedDefenderPatch(p, d, ac, tw);
    UnblockedAttackerLife(p, d, ac, tw, [a]);
  }

  lemma UnblockedPassWrites(p: PlayerState, d: PlayerState, firstStrike: bool, a: InstId, ac: Inst)
    requires p.combatState.attackers == [a]
    requires At(p.creatures, a) == Some(ac) && DealsDamageIn(ac.card, firstStrike) && BlockersOf(d, a) == []
    ensures PassWrites(p, d, firstStrike) == DirectWrites(p, d, ac) + (if firstStrike then [] else TapWrites(p, [a]))
  {
    var dw := DirectWrites(p, d, ac);
    assert AttackerWrites(p, d, a, firstStrike) == dw;
    assert [a][1..] == [];
    assert DamageWrites(p, d, [a], firstStrike) == dw + [];
    assert dw + [] == dw;
  }

  lemma UnblockedDefenderPatch(p: PlayerState, d: PlayerState, ac: Inst, tw: seq<Write>)
    requires p.id != d.id && (tw == [] || tw == TapWrites(p, p.combatState.attackers))
    ensures PatchesFor(DirectWrites(p, d, ac) + tw, d.id) == [LifePatch(Max0(d.lifeTotal - Power(ac.card)))]
  {
    var dw := DirectWrites(p, d, ac);
    DirectWritesToDefender(p, d, ac);
    PatchesForAppend(dw, tw, d.id);
    TapWritesSkipDefender(p, p.combatState.attackers, d.id);
    assert PatchesFor(dw, d.id) + [] == PatchesFor(dw, d.id);
  }

  lemma UnblockedAttackerLife(p: PlayerState, d: PlayerState, ac: Inst, tw: seq<Write>, attackers: seq<InstId>)
    requires p.id != d.id && (tw == [] || tw == TapWrites(p, attackers))
    ensures LatestLife(PatchesFor(DirectWrites(p, d, ac) + tw, p.id), p.lifeTotal) ==
      if HasLifelink(ac.card) && Power(ac.card) > 0 then p.lifeTotal + Power(ac.card) else p.lifeTotal
  {
    var dw := DirectWrites(p, d, ac);
    DirectWritesToAttacker(p, d, ac);
    LifelinkToOwner(p, ac.card, Power(ac.card));
    PatchesForAppend(dw, tw, p.id);
    LatestLifeAppend(PatchesFor(dw, p.id), PatchesFor(tw, p.id), p.lifeTotal);
    TapWritesLeaveLife(p, attackers, LatestLife(PatchesFor(dw, p.id), p.lifeTotal));
  }

  /**
   * Two unblocked attackers: every life write is computed from the same
   * snapshot, so the defender ends with only the second attacker's damage
   * taken off its life, not the sum.
   */
  lemma ResolveUnblockedLastWins(ps: seq<PlayerState>, pid: string, firstStrike: bool, p: PlayerState, d: PlayerState,
                                 a1: InstId, c1: Inst, a2: InstId, c2: Inst)
    requires GetPlayer(ps, pid) == Some(p) && Defender(ps, pid) == Some(d)
    requires p.combatState.attackers == [a1, a2]
    requires At(p.creatures, a1) == Some(c1) && DealsDamageIn(c1.card, firstStrike) && BlockersOf(d, a1) == []
    requires At(p.creatures, a2) == Some(c2) && DealsDamageIn(c2.card, firstStrike) && BlockersOf(d, a2) == []
    ensures GetPlayer(Commit(ps, ResolveCombatDamageWrites(ps, pid, firstStrike)), d.id) ==
      Some(d.(lifeTotal := Max0(d.lifeTotal - Power(c2.card))))
  {
    assert p.id == pid;
    var ws := ResolveCombatDamageWrites(ps, pid, firstStrike);
    assert ws == PassWrites(p, d, firstStrike);
    var m1 := Max0(d.lifeTotal - Power(c1.card));
    var m2 := Max0(d.lifeTotal - Power(c2.card));
    TwoUnblockedPatches(p, d, firstStrike, a1, c1, a2, c2);
    DefenderFound(ps, pid);
    CommitPatches(ps, ws, d.id, d, [LifePatch(m1), LifePatch(m2)]);
    MergeTwo(d, LifePatch(m1), LifePatch(m2));
  }

  lemma TwoUnblockedPatches(p: PlayerState, d: PlayerState, firstStrike: bool, a1: InstId, c1: Inst, a2: InstId, c2: Inst)
    requires p.id != d.id && p.combatState.attackers == [a1, a2]
    requires At(p.creatures, a1) == Some(c1) && DealsDamageIn(c1.card, firstStrike) && BlockersOf(d, a1) == []
    requires At(p.creatures, a2) == Some(c2) && DealsDamageIn(c2.card, firstStrike) && BlockersOf(d, a2) == []
    ensures PatchesFor(PassWrites(p, d, firstStrike), d.id) ==
      [LifePatch(Max0(d.lifeTotal - Power(c1.card))), LifePatch(Max0(d.lifeTotal - Power(c2.card)))]
  {
    var w1 := DirectWrites(p, d, c1);
    var w2 := DirectWrites(p, d, c2);
    var tw := if firstStrike then [] else TapWrites(p, [a1, a2]);
    PassWritesTwoDirect(p, d, firstStrike, a1, c1, a2, c2);
    PatchesForThree(w1, w2, tw, d.id);
    DirectWritesToDefender(p, d, c1);
    DirectWritesToDefender(p, d, c2);
    TapWritesSkipDefender(p, [a1, a2], d.id);
  }

  lemma PassWritesTwoDirect(p: PlayerState, d: PlayerState, firstStrike: bool, a1: InstId, c1: Inst, a2: InstId, c2: Inst)
    requires p.combatState.attackers == [a1, a2]
    requires At(p.creatures, a1) == Some(c1) && DealsDamageIn(c1.card, firstStrike) && BlockersOf(d, a1) == []
    requires At(p.creatures, a2) == Some(c2) && DealsDamageIn(c2.card, firstStrike) && BlockersOf(d, a2) == []
    ensures PassWrites(p, d, firstStrike) ==
      DirectWrites(p, d, c1) + DirectWrites(p, d, c2) + (if firstStrike then [] else TapWrites(p, [a1, a2]))
  {
    AttackerDirect(p, d, a1, c1, firstStrike);
    AttackerDirect(p, d, a2, c2, firstStrike);
    DamageWritesTwo(p, d, a1, a2, firstStrike);
  }

  lemma PatchesForThree(a: seq<Write>, b: seq<Write>, c: seq<Write>, x: string)
    ensures PatchesFor(a + b + c, x) == PatchesFor(a, x) + PatchesFor(b, x) + PatchesFor(c, x)
  {
    PatchesForAppend(a + b, c, x);
    PatchesForAppend(a, b, x);
  }

  lemma AttackerDirect(p: PlayerState, d: PlayerState, a: InstId, ac: Inst, firstStrike: bool)
    requires At(p.creatures, a) == Some(ac) && DealsDamageIn(ac.card, firstStrike) && BlockersOf(d, a) == []
    ensures AttackerWrites(p, d, a, firstStrike) == DirectWrites(p, d, ac)
  {
  }

  lemma DamageWritesTwo(p: PlayerState, d: PlayerState, a1: InstId, a2: InstId, firstStrike: bool)
    ensures DamageWrites(p, d, [a1, a2], firstStrike) == AttackerWrites(p, d, a1, firstStrike) + AttackerWrites(p, d, a2, firstStrike)
  {
    assert [a1, a2][1..] == [a2];
    assert DamageWrites(p, d, [a2], firstStrike) == AttackerWrites(p, d, a2, firstStrike) + DamageWrites(p, d, [a2][1..], firstStrike);
    assert [a2][1..] == [];
  }

  /** Blockers none of which strikes in this pass add nothing. */
  lemma {:induction false} BlockWritesSkipped(p: PlayerState, d: PlayerState, ac: Inst, bs: seq<InstId>, firstStrike: bool)
    requires forall i :: 0 <= i < |bs| && At(d.creatures, bs[i]).Some? ==> !DealsDamageIn(At(d.creatures, bs[i]).value.card, firstStrike)
    ensures BlockWrites(p, d, ac, bs, firstStrike) == []
    decreases |bs|
  {
    if bs != [] {
      assert forall i :: 0 <= i < |bs[1..]| ==> bs[1..][i] == bs[i + 1];
      BlockWritesSkipped(p, d, ac, bs[1..], firstStrike);
    }
  }

  /**
   * A first-strike attacker (without double strike) blocked only by
   * creatures that strike neither first nor double exchanges no damage at
   * all: the first-strike pass skips its blockers and the regular pass skips
   * the attacker.
   */
  lemma FirstStrikerMeetsPlainBlockers(p: PlayerState, d: PlayerState, a: InstId, ac: Inst)
    requires At(p.creatures, a) == Some(ac) && HasFirstStrikeAbility(ac.card) && !HasDoubleStrikeText(ac.card)
    requires forall i :: 0 <= i < |BlockersOf(d, a)| && At(d.creatures, BlockersOf(d, a)[i]).Some? ==>
      !StrikesFirst(At(d.creatures, BlockersOf(d, a)[i]).value.card)
    requires BlockersOf(d, a) != []
    ensures AttackerWrites(p, d, a, true) == [] && AttackerWrites(p, d, a, false) == []
  {
    BlockWritesSkipped(p, d, ac, BlockersOf(d, a), true);
  }

  /** When no attacker strikes first, the first-strike pass writes nothing. */
  lemma {:induction false} NoFirstStrikersQuiet(p: PlayerState, d: PlayerState, attackers: seq<InstId>)
    requires forall i :: 0 <= i < |attackers| && At(p.creatures, attackers[i]).Some? ==>
      !StrikesFirst(At(p.creatures, attackers[i]).value.card)
    ensures DamageWrites(p, d, attackers, true) == []
    decreases |attackers|
  {
    if attackers != [] {
      assert forall i :: 0 <= i < |attackers[1..]| ==> attackers[1..][i] == attackers[i + 1];
      NoFirstStrikersQuiet(p, d, attackers[1..]);
    }
  }

  /** Double strike deals damage in both passes; a plain creature only in the regular one. */
  lemma StrikePasses(c: Card)
    ensures HasDoubleStrikeText(c) ==> DealsDamageIn(c, true) && DealsDamageIn(c, false)
    ensures !StrikesFirst(c) ==> !DealsDamageIn(c, true) && DealsDamageIn(c, false)
    ensures HasFirstStrikeAbility(c) && !HasDoubleStrikeText(c) ==> DealsDamageIn(c, true) && !DealsDamageIn(c, false)
  {
  }

  /** A patch that leaves the creatures and the graveyard alone. */
  predicate Boardless(u: Patch)
  {
    u.creatures.None? && u.graveyard.None?
  }

  lemma {:induction false} MergeAllBoardless(p: PlayerState, us: seq<Patch>)
    requires forall u :: u in us ==> Boardless(u)
    ensures MergeAll(p, us).creatures == p.creatures && MergeAll(p, us).graveyard == p.graveyard
    decreases |us|
  {
    if us != [] {
      assert us[0] in us;
      assert forall u :: u in us[1..] ==> u in us;
      MergeAllBoardless(Merge(p, us[0]), us[1..]);
    }
  }

  lemma HitWritesFor(p: PlayerState, d: PlayerState, ac: Inst, bc: Inst)
    requires p.id != d.id
    ensures PatchesFor(HitWrites(p, d, ac, bc), d.id) == [DealDamagePatch(d, bc, Power(ac.card), Some(ac))]
    ensures PatchesFor(HitWrites(p, d, ac, bc), p.id) == [DealDamagePatch(p, ac, Power(bc.card), Some(bc))]
  {
    var h := HitWrites(p, d, ac, bc);
    assert h == [h[0]] + [h[1]];
    PatchesForAppend([h[0]], [h[1]], d.id);
    PatchesForAppend([h[0]], [h[1]], p.id);
    PatchesForOne(h[0], d.id);
    PatchesForOne(h[0], p.id);
    PatchesForOne(h[1], d.id);
    PatchesForOne(h[1], p.id);
  }

  /** Lifelink and tapping writes leave every player's creatures and graveyard alone. */
  lemma LifeAndTapsBoardless(p: PlayerState, q: PlayerState, c: Card, dealt: int, attackers: seq<InstId>, x: string)
    ensures forall u :: u in PatchesFor(LifelinkWrites(q, c, dealt), x) ==> Boardless(u)
    ensures forall u :: u in PatchesFor(TapWrites(p, attackers), x) ==> Boardless(u)
  {
    PatchesForAll(LifelinkWrites(q, c, dealt), x, (u: Patch) => Boardless(u));
    TapWritesShaped(p, attackers);
    PatchesForAll(TapWrites(p, attackers), x, (u: Patch) => Boardless(u));
  }

  lemma AttackerBlockedOnce(p: PlayerState, d: PlayerState, a: InstId, ac: Inst, b: InstId, bc: Inst, firstStrike: bool)
    requires At(p.creatures, a) == Some(ac) && DealsDamageIn(ac.card, firstStrike)
    requires BlockersOf(d, a) == [b] && At(d.creatures, b) == Some(bc) && DealsDamageIn(bc.card, firstStrike)
    ensures AttackerWrites(p, d, a, firstStrike) == FightWrites(p, d, ac, bc)
  {
    assert BlockWrites(p, d, ac, [b], firstStrike) == FightWrites(p, d, ac, bc) + BlockWrites(p, d, ac, [b][1..], firstStrike);
    assert [b][1..] == [];
  }

  lemma FightPassWrites(p: PlayerState, d: PlayerState, a: InstId, ac: Inst, b: InstId, bc: Inst, firstStrike: bool)
    requires p.combatState.attackers == [a]
    requires At(p.creatures, a) == Some(ac) && DealsDamageIn(ac.card, firstStrike)
    requires BlockersOf(d, a) == [b] && At(d.creatures, b) == Some(bc) && DealsDamageIn(bc.card, firstStrike)
    ensures PassWrites(p, d, firstStrike) ==
      HitWrites(p, d, ac, bc) + LifelinkWrites(p, ac.card, Power(ac.card))
      + (LifelinkWrites(d, bc.card, Power(bc.card)) + (if firstStrike then [] else TapWrites(p, [a])))
  {
    AttackerBlockedOnce(p, d, a, ac, b, bc, firstStrike);
    DamageWritesOne(p, d, a, firstStrike);
  }

  lemma DamageWritesOne(p: PlayerState, d: PlayerState, a: InstId, firstStrike: bool)
    ensures DamageWrites(p, d, [a], firstStrike) == AttackerWrites(p, d, a, firstStrike)
  {
    assert [a][1..] == [];
  }

  /** The board a player ends with: the first patch's creatures and graveyard, when the rest leave them alone. */
  lemma FirstWritesBoard(q: PlayerState, first: Patch, rest: seq<Patch>)
    requires forall u :: u in rest ==> Boardless(u)
    ensures MergeAll(q, [first] + rest).creatures == Merge(q, first).creatures
    ensures MergeAll(q, [first] + rest).graveyard == Merge(q, first).graveyard
  {
    assert ([first] + rest)[1..] == rest;
    MergeAllBoardless(Merge(q, first), rest);
  }

  /**
   * One attacker blocked by one creature, both striking in this pass: each
   * creature takes the other's power as dealDamageToCreature does, on its
   * own player's board.
   */
  lemma ResolveBlockedFight(ps: seq<PlayerState>, pid: string, firstStrike: bool, p: PlayerState, d: PlayerState,
                            a: InstId, ac: Inst, b: InstId, bc: Inst)
    requires GetPlayer(ps, pid) == Some(p) && Defender(ps, pid) == Some(d)
    requires p.combatState.attackers == [a] && At(p.creatures, a) == Some(ac) && DealsDamageIn(ac.card, firstStrike)
    requires BlockersOf(d, a) == [b] && At(d.creatures, b) == Some(bc) && DealsDamageIn(bc.card, firstStrike)
    ensures var after := Commit(ps, ResolveCombatDamageWrites(ps, pid, firstStrike));
      var hitB := Merge(d, DealDamagePatch(d, bc, Power(ac.card), Some(ac)));
      var hitA := Merge(p, DealDamagePatch(p, ac, Power(bc.card), Some(bc)));
      && GetPlayer(after, d.id).Some? && GetPlayer(after, pid).Some?
      && GetPlayer(after, d.id).value.creatures == hitB.creatures
      && GetPlayer(after, d.id).value.graveyard == hitB.graveyard
      && GetPlayer(after, pid).value.creatures == hitA.creatures
      && GetPlayer(after, pid).value.graveyard == hitA.graveyard
  {
    assert p.id == pid;
    var ws := ResolveCombatDamageWrites(ps, pid, firstStrike);
    assert ws == PassWrites(p, d, firstStrike);
    DefenderFound(ps, pid);
    var h := HitWrites(p, d, ac, bc);
    var gain := LifelinkWrites(p, ac.card, Power(ac.card));
    var tail := LifelinkWrites(d, bc.card, Power(bc.card)) + (if firstStrike then [] else TapWrites(p, [a]));
    FightPassWrites(p, d, a, ac, b, bc, firstStrike);
    HitWritesFor(p, d, ac, bc);
    FighterPatches(h, gain, tail, d.id, d, ps, ws);
    FighterPatches(h, gain, tail, pid, p, ps, ws);
    LifeAndTapsBoardless(p, p, ac.card, Power(ac.card), [a], d.id);
    LifeAndTapsBoardless(p, d, bc.card, Power(bc.card), [a], d.id);
    LifeAndTapsBoardless(p, p, ac.card, Power(ac.card), [a], pid);
    LifeAndTapsBoardless(p, d, bc.card, Power(bc.card), [a], pid);
    PatchesForAppend(LifelinkWrites(d, bc.card, Power(bc.card)), if firstStrike then [] else TapWrites(p, [a]), d.id);
    PatchesForAppend(LifelinkWrites(d, bc.card, Power(bc.card)), if firstStrike then [] else TapWrites(p, [a]), pid);
    FirstWritesBoard(d, DealDamagePatch(d, bc, Power(ac.card), Some(ac)), PatchesFor(gain, d.id) + PatchesFor(tail, d.id));
    FirstWritesBoard(p, DealDamagePatch(p, ac, Power(bc.card), Some(bc)), PatchesFor(gain, pid) + PatchesFor(tail, pid));
  }

  /** A fighter's patches: its hit, then the lifelink and tapping patches. */
  lemma FighterPatches(h: seq<Write>, gain: seq<Write>, tail: seq<Write>, x: string, q: PlayerState,
                       ps: seq<PlayerState>, ws: seq<Write>)
    requires ws == h + gain + tail && GetPlayer(ps, x) == Some(q) && |PatchesFor(h, x)| == 1
    ensures GetPlayer(Commit(ps, ws), x) == Some(MergeAll(q, [PatchesFor(h, x)[0]] + (PatchesFor(gain, x) + PatchesFor(tail, x))))
  {
    PatchesForThree(h, gain, tail, x);
    assert PatchesFor(h, x) == [PatchesFor(h, x)[0]];
    assert PatchesFor(ws, x) == [PatchesFor(h, x)[0]] + (PatchesFor(gain, x) + PatchesFor(tail, x));
    CommitPatches(ps, ws, x, q, PatchesFor(ws, x));
  }
}
