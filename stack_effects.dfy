/**
 * The stack and what goes through it (frontend/src/contexts/DeckProvider.tsx):
 * playing a card (716-795), adding to and resolving the stack (2366-2428),
 * spell effects (2432-2543), targeting (2545-2693), the valid-target lists
 * (2651-2768) and activated abilities (2790-2925).
 *
 * Like every engine operation, each of these reads the players as they were
 * when it started and queues its `updatePlayer` writes; the stack is a plain
 * list with its top at the end.
 */
module StackEffects {
  import opened Common
  import opened DeckTypes
  import opened Players
  import opened CardRules
  import opened Mana
  import opened Library
  import opened Zones
  import opened Combat
  import opened Turns

  // ----- finding cards -----

  /** `row.findIndex(c => c.id === id)`. */
  function IndexOfId(row: seq<Inst>, id: int): (r: Option<nat>)
    ensures r.Some? ==> r.value < |row| && row[r.value].card.id == id
    ensures r.Some? ==> forall j :: 0 <= j < r.value ==> row[j].card.id != id
    ensures r.None? ==> forall j :: 0 <= j < |row| ==> row[j].card.id != id
  {
    if row == [] then None
    else if row[0].card.id == id then Some(0)
    else match IndexOfId(row[1..], id)
      case None => None
      case Some(k) => Some(k + 1)
  }

  /** The hand with the first card of that id spliced out (`findIndex` then `splice(i, 1)`). */
  function RemoveFirstWithId(hand: seq<Inst>, id: int): seq<Inst>
  {
    match IndexOfId(hand, id)
    case None => hand
    case Some(k) => RemoveAt(hand, k)
  }

  /** The hand write of a cast: only when a card of that id is in the hand. */
  function CastFromHandWrites(p: PlayerState, id: int): seq<Write>
  {
    if IndexOfId(p.drawnCards, id).Some? then [Write(p.id, Keep.(drawnCards := Some(RemoveFirstWithId(p.drawnCards, id))))]
    else []
  }

  /** Casting takes exactly one card of that id out of the hand, when there is one. */
  lemma RemoveFirstWithIdTakesOne(hand: seq<Inst>, id: int)
    ensures (exists x :: x in hand && x.card.id == id) ==> |RemoveFirstWithId(hand, id)| == |hand| - 1
    ensures (forall x :: x in hand ==> x.card.id != id) ==> RemoveFirstWithId(hand, id) == hand
    ensures IndexOfId(hand, id).Some? ==>
      multiset(RemoveFirstWithId(hand, id)) + multiset{hand[IndexOfId(hand, id).value]} == multiset(hand)
  {
    match IndexOfId(hand, id)
    case None =>
    case Some(k) =>
      RemoveAtMultiset(hand, k, hand[k]);
  }

  /** `row.find(c => `${c.id}-${c.placedAt.getTime()}` === targetId)`. */
  function FindTarget(row: seq<Inst>, t: TargetId): (r: Option<Inst>)
    ensures r.Some? ==> r.value in row && PermanentTarget(r.value) == t
    ensures r.None? <==> forall c :: c in row ==> PermanentTarget(c) != t
  {
    if !t.PermanentRef? then None
    else match FindPermanent(row, t.cardId, t.placedAt)
      case None =>
        assert forall c :: c in row ==> PermanentTarget(c) != t by {
          forall c | c in row ensures PermanentTarget(c) != t {
            var j :| 0 <= j < |row| && row[j] == c;
          }
        }
        None
      case Some(k) => Some(row[k])
  }

  /** Where a permanent target was found: the player holding it and which row. */
  datatype Hit = CreatureHit(owner: PlayerState, x: Inst) | LandHit(owner: PlayerState, x: Inst) | Missed

  /** Some creature or land of `p` carries the target id. */
  predicate Holds(p: PlayerState, t: TargetId)
  {
    exists c :: c in p.creatures + p.lands && PermanentTarget(c) == t
  }

  /** The `for (const player of players)` search: creatures, then lands, first player first. */
  function Locate(ps: seq<PlayerState>, t: TargetId): Hit
  {
    if ps == [] then Missed
    else match FindTarget(ps[0].creatures, t)
      case Some(c) => CreatureHit(ps[0], c)
      case None =>
        match FindTarget(ps[0].lands, t)
        case Some(l) => LandHit(ps[0], l)
        case None => Locate(ps[1..], t)
  }

  /** Player `i` is the first of `ps` holding the target. */
  predicate FirstHolder(ps: seq<PlayerState>, t: TargetId, i: int)
  {
    0 <= i < |ps| && Holds(ps[i], t) && forall j :: 0 <= j < i ==> !Holds(ps[j], t)
  }

  /** The search finds the first player holding the target; it misses exactly when nobody holds it. */
  lemma {:induction false} LocateFindsFirstHolder(ps: seq<PlayerState>, t: TargetId)
    ensures Locate(ps, t).Missed? <==> forall i :: 0 <= i < |ps| ==> !Holds(ps[i], t)
    ensures !Locate(ps, t).Missed? ==> exists i :: FirstHolder(ps, t, i) && ps[i] == Locate(ps, t).owner
    decreases |ps|
  {
    if ps != [] {
      var p := ps[0];
      var fc := FindTarget(p.creatures, t);
      var fl := FindTarget(p.lands, t);
      if fc.Some? {
        assert fc.value in p.creatures + p.lands;
        assert FirstHolder(ps, t, 0);
      } else if fl.Some? {
        assert fl.value in p.creatures + p.lands;
        assert FirstHolder(ps, t, 0);
      } else {
        LocateFindsFirstHolder(ps[1..], t);
        LocateSkipsFirst(ps, t);
      }
    }
  }

  /** The step of the search past a first player who does not hold the target. */
  lemma LocateSkipsFirst(ps: seq<PlayerState>, t: TargetId)
    requires ps != [] && FindTarget(ps[0].creatures, t).None? && FindTarget(ps[0].lands, t).None?
    requires Locate(ps[1..], t).Missed? <==> forall i :: 0 <= i < |ps[1..]| ==> !Holds(ps[1..][i], t)
    requires !Locate(ps[1..], t).Missed? ==> exists i :: FirstHolder(ps[1..], t, i) && ps[1..][i] == Locate(ps[1..], t).owner
    ensures Locate(ps, t).Missed? <==> forall i :: 0 <= i < |ps| ==> !Holds(ps[i], t)
    ensures !Locate(ps, t).Missed? ==> exists i :: FirstHolder(ps, t, i) && ps[i] == Locate(ps, t).owner
  {
    assert !Holds(ps[0], t);
    assert Locate(ps, t) == Locate(ps[1..], t);
    forall i | 1 <= i < |ps| ensures ps[i] == ps[1..][i - 1] { }
    if !Locate(ps, t).Missed? {
      var i :| FirstHolder(ps[1..], t, i) && ps[1..][i] == Locate(ps[1..], t).owner;
      FirstHolderShift(ps, t, i);
    } else {
      assert forall i :: 0 <= i < |ps[1..]| ==> !Holds(ps[1..][i], t);
    }
  }

  lemma FirstHolderShift(ps: seq<PlayerState>, t: TargetId, i: int)
    requires ps != [] && !Holds(ps[0], t) && FirstHolder(ps[1..], t, i)
    ensures FirstHolder(ps, t, i + 1) && ps[i + 1] == ps[1..][i]
  {
    forall j | 0 <= j < i + 1 ensures !Holds(ps[j], t) {
      if j > 0 {
        assert ps[j] == ps[1..][j - 1];
      }
    }
  }

  /** A creature hit is a creature of the owner with that id; a land hit is a land, and only when no creature has the id. */
  lemma {:induction false} LocateHitShape(ps: seq<PlayerState>, t: TargetId)
    ensures Locate(ps, t).CreatureHit? ==> Locate(ps, t).x in Locate(ps, t).owner.creatures && PermanentTarget(Locate(ps, t).x) == t
    ensures Locate(ps, t).LandHit? ==>
      && Locate(ps, t).x in Locate(ps, t).owner.lands && PermanentTarget(Locate(ps, t).x) == t
      && forall c :: c in Locate(ps, t).owner.creatures ==> PermanentTarget(c) != t
    decreases |ps|
  {
    if ps != [] && FindTarget(ps[0].creatures, t).None? && FindTarget(ps[0].lands, t).None? {
      LocateHitShape(ps[1..], t);
    }
  }

  // ----- resolveSpellEffect (2432-2543) -----

  /** `effect.value` when it is truthy. */
  function Amount(e: SpellEffect): nat
  {
    OrElse(e.value, 0)
  }

  /** One damage target: a player loses life floored at 0, a creature is dealt damage, a land is destroyed. */
  function DamageTargetWrites(ps: seq<PlayerState>, t: TargetId, v: nat): seq<Write>
  {
    match t
    case PlayerRef(pid) =>
      (match GetPlayer(ps, pid)
       case Some(q) => [Write(pid, LifePatch(Max0(q.lifeTotal - v)))]
       case None => [])
    case PermanentRef(_, _) =>
      match Locate(ps, t)
      case CreatureHit(o, x) => [Write(o.id, DealDamagePatch(o, x, v, None))]
      case LandHit(o, l) => WritesTo(o.id, DestroyPermanentPatches(o, l))
      case Missed => []
  }

  function DamageTargetsWrites(ps: seq<PlayerState>, ts: seq<TargetId>, v: nat): seq<Write>
  {
    if ts == [] then [] else DamageTargetWrites(ps, ts[0], v) + DamageTargetsWrites(ps, ts[1..], v)
  }

  /** One destroy target: the creature or land found is destroyed. */
  function DestroyTargetWrites(ps: seq<PlayerState>, t: TargetId): seq<Write>
  {
    match Locate(ps, t)
    case CreatureHit(o, x) => WritesTo(o.id, DestroyPermanentPatches(o, x))
    case LandHit(o, l) => WritesTo(o.id, DestroyPermanentPatches(o, l))
    case Missed => []
  }

  function DestroyTargetsWrites(ps: seq<PlayerState>, ts: seq<TargetId>): seq<Write>
  {
    if ts == [] then [] else DestroyTargetWrites(ps, ts[0]) + DestroyTargetsWrites(ps, ts[1..])
  }

  lemma DamageOneTarget(ps: seq<PlayerState>, t: TargetId, v: nat)
    ensures DamageTargetsWrites(ps, [t], v) == DamageTargetWrites(ps, t, v)
  {
    assert [t][1..] == [];
    assert DamageTargetsWrites(ps, [t][1..], v) == [];
  }

  lemma DestroyOneTarget(ps: seq<PlayerState>, t: TargetId)
    ensures DestroyTargetsWrites(ps, [t]) == DestroyTargetWrites(ps, t)
  {
    assert [t][1..] == [];
    assert DestroyTargetsWrites(ps, [t][1..]) == [];
  }

  /** resolveSpellEffect for the controller `c` the operation read. */
  function EffectWrites(ps: seq<PlayerState>, e: SpellEffect, c: PlayerState): seq<Write>
  {
    var v := Amount(e);
    match e.effectType
    case DamageEffect => if v > 0 && e.targets.Some? then DamageTargetsWrites(ps, e.targets.value, v) else []
    case DrawEffect => if v > 0 then WritesTo(c.id, DrawMultiplePatches(c, v)) else []
    case DestroyEffect => if e.targets.Some? then DestroyTargetsWrites(ps, e.targets.value) else []
    case LifeGainEffect => if v > 0 then [Write(c.id, LifePatch(c.lifeTotal + v))] else []
    case ScryEffect => if v > 0 then [Write(c.id, ScryPatch(c, v))] else []
    case _ => []
  }

  /** `card.effects.forEach(effect => resolveSpellEffect(effect, controller))`. */
  function EffectsWrites(ps: seq<PlayerState>, es: seq<SpellEffect>, c: PlayerState): seq<Write>
  {
    if es == [] then [] else EffectWrites(ps, es[0], c) + EffectsWrites(ps, es[1..], c)
  }

  /** Damage to a player target: the life total read, less the damage, floored at 0. */
  lemma DamagePlayerFloored(ps: seq<PlayerState>, e: SpellEffect, c: PlayerState, q: PlayerState)
    requires e.effectType == DamageEffect && Amount(e) > 0 && e.targets == Some([PlayerRef(q.id)])
    requires GetPlayer(ps, q.id) == Some(q)
    ensures GetPlayer(Commit(ps, EffectWrites(ps, e, c)), q.id) == Some(q.(lifeTotal := Max0(q.lifeTotal - Amount(e))))
    ensures GetPlayer(Commit(ps, EffectWrites(ps, e, c)), q.id).value.lifeTotal >= 0
  {
    var life := LifePatch(Max0(q.lifeTotal - Amount(e)));
    assert EffectWrites(ps, e, c) == [Write(q.id, life)] by {
      DamageOneTarget(ps, PlayerRef(q.id), Amount(e));
    }
    CommitSingle(ps, q, life);
    MergeLife(q, Max0(q.lifeTotal - Amount(e)));
  }

  /**
   * Two damage targets naming the same player deal the damage once: both
   * writes come from the one life total read, so the second repeats the first.
   */
  lemma DamageSamePlayerTwiceCountsOnce(ps: seq<PlayerState>, e: SpellEffect, c: PlayerState, q: PlayerState)
    requires e.effectType == DamageEffect && Amount(e) > 0 && e.targets == Some([PlayerRef(q.id), PlayerRef(q.id)])
    requires GetPlayer(ps, q.id) == Some(q)
    ensures GetPlayer(Commit(ps, EffectWrites(ps, e, c)), q.id) == Some(q.(lifeTotal := Max0(q.lifeTotal - Amount(e))))
  {
    var ts := [PlayerRef(q.id), PlayerRef(q.id)];
    var life := LifePatch(Max0(q.lifeTotal - Amount(e)));
    assert EffectWrites(ps, e, c) == [Write(q.id, life), Write(q.id, life)] by {
      assert ts[1..] == [PlayerRef(q.id)];
      DamageOneTarget(ps, PlayerRef(q.id), Amount(e));
      assert DamageTargetsWrites(ps, ts, Amount(e)) == [Write(q.id, life)] + [Write(q.id, life)];
    }
    CommitSame(ps, q, life, life);
    MergeLife(q, Max0(q.lifeTotal - Amount(e)));
    MergeLife(q.(lifeTotal := Max0(q.lifeTotal - Amount(e))), Max0(q.lifeTotal - Amount(e)));
  }

  /** A creature target is dealt the damage (no source) through dealDamageToCreature, on its holder. */
  lemma DamageCreatureTarget(ps: seq<PlayerState>, e: SpellEffect, c: PlayerState, t: TargetId)
    requires e.effectType == DamageEffect && Amount(e) > 0 && e.targets == Some([t]) && t.PermanentRef?
    requires Locate(ps, t).CreatureHit?
    ensures var h := Locate(ps, t);
      GetPlayer(ps, h.owner.id) == Some(h.owner) ==>
      GetPlayer(Commit(ps, EffectWrites(ps, e, c)), h.owner.id) == Some(Merge(h.owner, DealDamagePatch(h.owner, h.x, Amount(e), None)))
  {
    var h := Locate(ps, t);
    var w := Write(h.owner.id, DealDamagePatch(h.owner, h.x, Amount(e), None));
    DamageOneTarget(ps, t, Amount(e));
    assert EffectWrites(ps, e, c) == [w];
    if GetPlayer(ps, h.owner.id) == Some(h.owner) {
      PatchesForOne(w, h.owner.id);
      CommitPatches(ps, [w], h.owner.id, h.owner, [w.patch]);
      MergeOne(h.owner, w.patch);
    }
  }

  /** A land hit by damage is destroyed, as destroyPermanent does it. */
  lemma DamageLandTarget(ps: seq<PlayerState>, e: SpellEffect, c: PlayerState, t: TargetId)
    requires e.effectType == DamageEffect && Amount(e) > 0 && e.targets == Some([t]) && t.PermanentRef?
    requires Locate(ps, t).LandHit?
    ensures var h := Locate(ps, t);
      GetPlayer(ps, h.owner.id) == Some(h.owner) ==>
      GetPlayer(Commit(ps, EffectWrites(ps, e, c)), h.owner.id) == Some(MergeAll(h.owner, DestroyPermanentPatches(h.owner, h.x)))
  {
    var h := Locate(ps, t);
    DamageOneTarget(ps, t, Amount(e));
    assert EffectWrites(ps, e, c) == WritesTo(h.owner.id, DestroyPermanentPatches(h.owner, h.x));
    if GetPlayer(ps, h.owner.id) == Some(h.owner) {
      CommitOwn(ps, h.owner.id, DestroyPermanentPatches(h.owner, h.x));
    }
  }

  /** A destroy effect destroys what its target names, creature or land, wherever it is. */
  lemma DestroyTarget(ps: seq<PlayerState>, e: SpellEffect, c: PlayerState, t: TargetId)
    requires e.effectType == DestroyEffect && e.targets == Some([t]) && !Locate(ps, t).Missed?
    ensures var h := Locate(ps, t);
      GetPlayer(ps, h.owner.id) == Some(h.owner) ==>
      GetPlayer(Commit(ps, EffectWrites(ps, e, c)), h.owner.id) == Some(MergeAll(h.owner, DestroyPermanentPatches(h.owner, h.x)))
  {
    var h := Locate(ps, t);
    DestroyOneTarget(ps, t);
    assert EffectWrites(ps, e, c) == WritesTo(h.owner.id, DestroyPermanentPatches(h.owner, h.x));
    if GetPlayer(ps, h.owner.id) == Some(h.owner) {
      CommitOwn(ps, h.owner.id, DestroyPermanentPatches(h.owner, h.x));
    }
  }

  /** Life gain adds the amount to the life total read, with no upper bound. */
  lemma LifeGainAdds(ps: seq<PlayerState>, e: SpellEffect, c: PlayerState)
    requires e.effectType == LifeGainEffect && Amount(e) > 0
    requires GetPlayer(ps, c.id) == Some(c)
    ensures GetPlayer(Commit(ps, EffectWrites(ps, e, c)), c.id) == Some(c.(lifeTotal := c.lifeTotal + Amount(e)))
  {
    LifeGainWrite(ps, e, c);
    CommitSingle(ps, c, LifePatch(c.lifeTotal + Amount(e)));
    MergeLife(c, c.lifeTotal + Amount(e));
  }

  lemma LifeGainWrite(ps: seq<PlayerState>, e: SpellEffect, c: PlayerState)
    requires e.effectType == LifeGainEffect && Amount(e) > 0
    ensures EffectWrites(ps, e, c) == [Write(c.id, LifePatch(c.lifeTotal + Amount(e)))]
  {
  }

  /** A draw effect draws its amount as one drawMultipleCards batch; a scry effect scries its amount. */
  lemma DrawAndScryEffects(ps: seq<PlayerState>, e: SpellEffect, c: PlayerState)
    requires e.effectType in {DrawEffect, ScryEffect} && Amount(e) > 0
    requires GetPlayer(ps, c.id) == Some(c)
    ensures GetPlayer(Commit(ps, EffectWrites(ps, e, c)), c.id) ==
      Some(if e.effectType == DrawEffect then MergeAll(c, DrawMultiplePatches(c, Amount(e))) else Merge(c, ScryPatch(c, Amount(e))))
  {
    if e.effectType == DrawEffect {
      DrawEffectDraws(ps, e, c);
    } else {
      ScryEffectScries(ps, e, c);
    }
  }

  lemma DrawEffectDraws(ps: seq<PlayerState>, e: SpellEffect, c: PlayerState)
    requires e.effectType == DrawEffect && Amount(e) > 0
    requires GetPlayer(ps, c.id) == Some(c)
    ensures GetPlayer(Commit(ps, EffectWrites(ps, e, c)), c.id) == Some(MergeAll(c, DrawMultiplePatches(c, Amount(e))))
  {
    assert EffectWrites(ps, e, c) == WritesTo(c.id, DrawMultiplePatches(c, Amount(e)));
    CommitOwn(ps, c.id, DrawMultiplePatches(c, Amount(e)));
  }

  lemma ScryEffectScries(ps: seq<PlayerState>, e: SpellEffect, c: PlayerState)
    requires e.effectType == ScryEffect && Amount(e) > 0
    requires GetPlayer(ps, c.id) == Some(c)
    ensures GetPlayer(Commit(ps, EffectWrites(ps, e, c)), c.id) == Some(Merge(c, ScryPatch(c, Amount(e))))
  {
    var w := Write(c.id, ScryPatch(c, Amount(e)));
    assert EffectWrites(ps, e, c) == [w];
    PatchesForOne(w, c.id);
    CommitPatches(ps, [w], c.id, c, [w.patch]);
    MergeOne(c, w.patch);
  }

  /** Exile, bounce, buff, debuff, life loss, search and mana effects resolve to nothing; so does a zero amount. */
  lemma UnhandledEffectsDoNothing(ps: seq<PlayerState>, e: SpellEffect, c: PlayerState)
    requires e.effectType !in {DamageEffect, DrawEffect, DestroyEffect, LifeGainEffect, ScryEffect}
      || (Amount(e) == 0 && e.effectType != DestroyEffect)
      || (e.targets == None && e.effectType in {DamageEffect, DestroyEffect})
    ensures EffectWrites(ps, e, c) == []
  {
  }

  // ----- addToStack / passPriority / resolveTopOfStack (2366-2428) -----

  /** What resolving takes off: the stack without its last item (`prev.slice(0, -1)`). */
  function Pop(stack: seq<StackItem>): (r: seq<StackItem>)
    ensures stack != [] ==> |r| == |stack| - 1 && stack == r + [stack[|stack| - 1]]
    ensures stack == [] ==> r == []
  {
    if stack == [] then [] else stack[..|stack| - 1]
  }

  /** addToStack puts the item on top, where resolving takes it. */
  lemma PushThenPop(stack: seq<StackItem>, item: StackItem)
    ensures Pop(stack + [item]) == stack
    ensures (stack + [item])[|stack + [item]| - 1] == item
  {
  }

  /** `card.effects && card.effects.length > 0` fails. */
  predicate NoEffects(c: Card)
  {
    c.effects.None? || c.effects.value == []
  }

  /** The battlefield record of a resolved permanent: new time, summoning sick. */
  function Entered(x: Inst, now: nat): Inst
  {
    x.(placedAt := now, enteredThisTurn := true)
  }

  /**
   * Where the resolved card goes: a creature, artifact or enchantment joins
   * the end of the creature row, a land (a permanent of no other kind) goes
   * nowhere, anything else to the end of the graveyard.
   */
  function PlacementWrites(p: PlayerState, x: Inst, now: nat): seq<Write>
  {
    if IsPermanent(x.card) then
      if IsCreature(x.card) || IsArtifact(x.card) || IsEnchantment(x.card) then
        [Write(p.id, Keep.(creatures := Some(p.creatures + [Entered(x, now)])))]
      else []
    else [Write(p.id, Keep.(graveyard := Some(p.graveyard + [x])))]
  }

  /** resolveTopOfStack's player writes: the top card's effects, then its placement. */
  function ResolveTopWrites(ps: seq<PlayerState>, stack: seq<StackItem>, now: nat): seq<Write>
  {
    if stack == [] then []
    else
      var top := stack[|stack| - 1];
      match GetPlayer(ps, top.controller)
      case None => []
      case Some(p) =>
        (if NoEffects(top.card.card) then [] else EffectsWrites(ps, top.card.card.effects.value, p))
        + PlacementWrites(p, top.card, now)
  }

  /** passPriority: resolve when the stack is not empty. */
  function PassPriorityWrites(ps: seq<PlayerState>, stack: seq<StackItem>, now: nat): seq<Write>
  {
    if |stack| > 0 then ResolveTopWrites(ps, stack, now) else []
  }

  /** Resolving an empty stack, or an item whose controller is gone, writes nothing. */
  lemma ResolveTopNothingToDo(ps: seq<PlayerState>, stack: seq<StackItem>, now: nat)
    requires stack == [] || GetPlayer(ps, stack[|stack| - 1].controller).None?
    ensures ResolveTopWrites(ps, stack, now) == []
    ensures PassPriorityWrites(ps, stack, now) == []
  {
  }

  /** A creature, artifact or enchantment with no effects joins the end of its controller's creature row, summoning sick. */
  lemma ResolvePermanent(ps: seq<PlayerState>, stack: seq<StackItem>, now: nat, p: PlayerState)
    requires stack != [] && GetPlayer(ps, stack[|stack| - 1].controller) == Some(p)
    requires var c := stack[|stack| - 1].card.card; NoEffects(c) && (IsCreature(c) || IsArtifact(c) || IsEnchantment(c))
    ensures GetPlayer(Commit(ps, ResolveTopWrites(ps, stack, now)), p.id) ==
      Some(p.(creatures := p.creatures + [Entered(stack[|stack| - 1].card, now)]))
    ensures forall x :: x != p.id ==> GetPlayer(Commit(ps, ResolveTopWrites(ps, stack, now)), x) == GetPlayer(ps, x)
  {
    var x := stack[|stack| - 1].card;
    var w := Write(p.id, Keep.(creatures := Some(p.creatures + [Entered(x, now)])));
    assert ResolveTopWrites(ps, stack, now) == [w];
    PatchesForOne(w, p.id);
    CommitPatches(ps, [w], p.id, p, [w.patch]);
    MergeOne(p, w.patch);
    forall o | o != p.id ensures GetPlayer(Commit(ps, [w]), o) == GetPlayer(ps, o) {
      PatchesForOne(w, o);
      CommitUntouched(ps, [w], o);
    }
  }

  /** An instant or sorcery, or any non-permanent, with no effects ends at the end of its controller's graveyard. */
  lemma ResolveNonPermanent(ps: seq<PlayerState>, stack: seq<StackItem>, now: nat, p: PlayerState)
    requires stack != [] && GetPlayer(ps, stack[|stack| - 1].controller) == Some(p)
    requires NoEffects(stack[|stack| - 1].card.card) && !IsPermanent(stack[|stack| - 1].card.card)
    ensures GetPlayer(Commit(ps, ResolveTopWrites(ps, stack, now)), p.id) ==
      Some(p.(graveyard := p.graveyard + [stack[|stack| - 1].card]))
    ensures forall x :: x != p.id ==> GetPlayer(Commit(ps, ResolveTopWrites(ps, stack, now)), x) == GetPlayer(ps, x)
  {
    var x := stack[|stack| - 1].card;
    var w := Write(p.id, Keep.(graveyard := Some(p.graveyard + [x])));
    assert ResolveTopWrites(ps, stack, now) == [w];
    PatchesForOne(w, p.id);
    CommitPatches(ps, [w], p.id, p, [w.patch]);
    MergeOne(p, w.patch);
    forall o | o != p.id ensures GetPlayer(Commit(ps, [w]), o) == GetPlayer(ps, o) {
      PatchesForOne(w, o);
      CommitUntouched(ps, [w], o);
    }
  }

  /** A land on the stack (a permanent of no other kind) with no effects resolves into nothing: it is simply gone. */
  lemma ResolveLandVanishes(ps: seq<PlayerState>, stack: seq<StackItem>, now: nat)
    requires stack != []
    requires var c := stack[|stack| - 1].card.card;
      NoEffects(c) && IsLand(c) && !IsCreature(c) && !IsArtifact(c) && !IsEnchantment(c)
    ensures Commit(ps, ResolveTopWrites(ps, stack, now)) == ps
  {
  }

  /**
   * A creature that deals damage to a player as it resolves: the damage and
   * the arrival are both written, the life total from the read players and
   * the creature row from the controller read.
   */
  lemma ResolveCreatureWithDamage(ps: seq<PlayerState>, stack: seq<StackItem>, now: nat, p: PlayerState, e: SpellEffect, q: PlayerState)
    requires stack != [] && GetPlayer(ps, stack[|stack| - 1].controller) == Some(p)
    requires var c := stack[|stack| - 1].card.card; IsCreature(c) && c.effects == Some([e])
    requires e.effectType == DamageEffect && Amount(e) > 0 && e.targets == Some([PlayerRef(q.id)])
    requires GetPlayer(ps, q.id) == Some(q) && q.id != p.id
    ensures var after := Commit(ps, ResolveTopWrites(ps, stack, now));
      && GetPlayer(after, q.id) == Some(q.(lifeTotal := Max0(q.lifeTotal - Amount(e))))
      && GetPlayer(after, p.id) == Some(p.(creatures := p.creatures + [Entered(stack[|stack| - 1].card, now)]))
  {
    var x := stack[|stack| - 1].card;
    var life := LifePatch(Max0(q.lifeTotal - Amount(e)));
    var place := Keep.(creatures := Some(p.creatures + [Entered(x, now)]));
    assert ResolveTopWrites(ps, stack, now) == [Write(q.id, life), Write(p.id, place)] by {
      assert [e][1..] == [];
      DamageOneTarget(ps, PlayerRef(q.id), Amount(e));
      assert EffectWrites(ps, e, p) == [Write(q.id, life)];
      assert EffectsWrites(ps, [e][1..], p) == [];
    }
    CommitTwo(ps, q, life, p, place);
    MergeLife(q, Max0(q.lifeTotal - Amount(e)));
    MergeCreatures(p, p.creatures + [Entered(x, now)]);
  }

  // ----- getValidTargets (2651-2768) -----

  /** The targets of one battlefield row, `${id}-${placedAt}` each, listed under its holder. */
  function RowTargets(row: seq<Inst>, kind: TargetType, owner: string): (r: seq<Target>)
    ensures |r| == |row|
    ensures forall i :: 0 <= i < |row| ==> r[i] == Target(PermanentTarget(row[i]), kind, owner)
  {
    seq(|row|, i requires 0 <= i < |row| => Target(PermanentTarget(row[i]), kind, owner))
  }

  /** A player's creature row (`creatures`) or land row. */
  function Row(p: PlayerState, creatures: bool): seq<Inst>
  {
    if creatures then p.creatures else p.lands
  }

  function RowKind(creatures: bool): TargetType
  {
    if creatures then CreatureTarget else LandTarget
  }

  /** `players.forEach(p => p.creatures.forEach(...))`, or the same over lands. */
  function ZoneTargets(ps: seq<PlayerState>, creatures: bool): seq<Target>
  {
    if ps == [] then [] else RowTargets(Row(ps[0], creatures), RowKind(creatures), ps[0].id) + ZoneTargets(ps[1..], creatures)
  }

  /** `players.map(p => ({ id: p.id, type: 'player', controller: p.id }))`. */
  function PlayerTargets(ps: seq<PlayerState>): (r: seq<Target>)
    ensures |r| == |ps|
    ensures forall i :: 0 <= i < |ps| ==> r[i] == Target(PlayerRef(ps[i].id), PlayerTarget, ps[i].id)
  {
    seq(|ps|, i requires 0 <= i < |ps| => Target(PlayerRef(ps[i].id), PlayerTarget, ps[i].id))
  }

  /** getValidTargets; an absent target type is `''`, which lists nothing, like the types with no case. */
  function ValidTargets(ps: seq<PlayerState>, tt: Option<TargetType>, controller: string): seq<Target>
  {
    if GetPlayer(ps, controller).None? then []
    else match tt
      case Some(CreatureTarget) => ZoneTargets(ps, true)
      case Some(LandTarget) => ZoneTargets(ps, false)
      case Some(PlayerTarget) => PlayerTargets(ps)
      case Some(CreatureOrPlayerTarget) => ZoneTargets(ps, true) + PlayerTargets(ps)
      case Some(AnyTarget) => ZoneTargets(ps, true) + ZoneTargets(ps, false) + PlayerTargets(ps)
      case _ => []
  }

  /** `p` holds, in the chosen row, a permanent that `t` lists under `p`. */
  predicate HeldBy(p: PlayerState, creatures: bool, t: Target)
  {
    exists c :: c in Row(p, creatures) && t == Target(PermanentTarget(c), RowKind(creatures), p.id)
  }

  /** Some player of `ps` holds, in the chosen row, a permanent that `t` lists under that player. */
  predicate OnBattlefield(ps: seq<PlayerState>, creatures: bool, t: Target)
  {
    exists i :: 0 <= i < |ps| && HeldBy(ps[i], creatures, t)
  }

  /** Some player of `ps` is the target. */
  predicate IsPlayer(ps: seq<PlayerState>, t: Target)
  {
    exists i :: 0 <= i < |ps| && t == Target(PlayerRef(ps[i].id), PlayerTarget, ps[i].id)
  }

  /** The row lists hold exactly the permanents of every player, each under its holder. */
  lemma {:induction false} ZoneTargetsExact(ps: seq<PlayerState>, creatures: bool, t: Target)
    ensures t in ZoneTargets(ps, creatures) <==> OnBattlefield(ps, creatures, t)
    decreases |ps|
  {
    if ps != [] {
      ZoneTargetsExact(ps[1..], creatures, t);
      RowTargetsExact(ps[0], creatures, t);
      OnBattlefieldCons(ps, creatures, t);
    }
  }

  /** One player's row list holds exactly that player's permanents of the row. */
  lemma RowTargetsExact(p: PlayerState, creatures: bool, t: Target)
    ensures t in RowTargets(Row(p, creatures), RowKind(creatures), p.id) <==> HeldBy(p, creatures, t)
  {
    var row := Row(p, creatures);
    var head := RowTargets(row, RowKind(creatures), p.id);
    if t in head {
      var k :| 0 <= k < |head| && head[k] == t;
      assert row[k] in row;
    }
    if HeldBy(p, creatures, t) {
      var c :| c in row && t == Target(PermanentTarget(c), RowKind(creatures), p.id);
      var k :| 0 <= k < |row| && row[k] == c;
      assert head[k] == t;
    }
  }

  lemma OnBattlefieldCons(ps: seq<PlayerState>, creatures: bool, t: Target)
    requires ps != []
    ensures OnBattlefield(ps, creatures, t) <==> HeldBy(ps[0], creatures, t) || OnBattlefield(ps[1..], creatures, t)
  {
    if OnBattlefield(ps, creatures, t) {
      var i :| 0 <= i < |ps| && HeldBy(ps[i], creatures, t);
      if i > 0 {
        assert ps[1..][i - 1] == ps[i];
      }
    }
    if OnBattlefield(ps[1..], creatures, t) {
      var i :| 0 <= i < |ps[1..]| && HeldBy(ps[1..][i], creatures, t);
      assert ps[i + 1] == ps[1..][i];
    }
  }

  /** Which kinds of target a target type lists. */
  predicate Admits(tt: Option<TargetType>, kind: TargetType)
  {
    match tt
    case Some(CreatureTarget) => kind == CreatureTarget
    case Some(LandTarget) => kind == LandTarget
    case Some(PlayerTarget) => kind == PlayerTarget
    case Some(CreatureOrPlayerTarget) => kind == CreatureTarget || kind == PlayerTarget
    case Some(AnyTarget) => kind in {CreatureTarget, LandTarget, PlayerTarget}
    case _ => false
  }

  /** A target the battlefield or the player list offers, whatever the requested type. */
  predicate Offered(ps: seq<PlayerState>, t: Target)
  {
    match t.kind
    case CreatureTarget => OnBattlefield(ps, true, t)
    case LandTarget => OnBattlefield(ps, false, t)
    case PlayerTarget => IsPlayer(ps, t)
    case _ => false
  }

  /**
   * getValidTargets lists exactly the creatures, lands and players of every
   * player (not just the controller) whose kind the target type admits, and
   * nothing when the controller is unknown.
   */
  lemma PlayerTargetsExact(ps: seq<PlayerState>, t: Target)
    ensures t in PlayerTargets(ps) <==> IsPlayer(ps, t)
  {
    if IsPlayer(ps, t) {
      var i :| 0 <= i < |ps| && t == Target(PlayerRef(ps[i].id), PlayerTarget, ps[i].id);
      assert PlayerTargets(ps)[i] == t;
    }
  }

  /** What each list offers is of its own kind. */
  lemma OfferedKinds(ps: seq<PlayerState>, t: Target)
    ensures OnBattlefield(ps, true, t) ==> t.kind == CreatureTarget
    ensures OnBattlefield(ps, false, t) ==> t.kind == LandTarget
    ensures IsPlayer(ps, t) ==> t.kind == PlayerTarget
  {
    if OnBattlefield(ps, true, t) {
      var i :| 0 <= i < |ps| && HeldBy(ps[i], true, t);
    }
    if OnBattlefield(ps, false, t) {
      var i :| 0 <= i < |ps| && HeldBy(ps[i], false, t);
    }
    if IsPlayer(ps, t) {
      var i :| 0 <= i < |ps| && t == Target(PlayerRef(ps[i].id), PlayerTarget, ps[i].id);
    }
  }

  /**
   * getValidTargets lists exactly the creatures, lands and players of every
   * player (not just the controller) whose kind the target type admits, and
   * nothing when the controller is unknown.
   */
  lemma ValidTargetsExact(ps: seq<PlayerState>, tt: Option<TargetType>, controller: string, t: Target)
    ensures t in ValidTargets(ps, tt, controller) <==> GetPlayer(ps, controller).Some? && Admits(tt, t.kind) && Offered(ps, t)
  {
    if GetPlayer(ps, controller).Some? {
      OfferedKinds(ps, t);
      match tt
      case Some(CreatureTarget) => ZoneTargetsExact(ps, true, t);
      case Some(LandTarget) => ZoneTargetsExact(ps, false, t);
      case Some(PlayerTarget) => PlayerTargetsExact(ps, t);
      case Some(CreatureOrPlayerTarget) =>
        ZoneTargetsExact(ps, true, t);
        PlayerTargetsExact(ps, t);
      case Some(AnyTarget) =>
        ZoneTargetsExact(ps, true, t);
        ZoneTargetsExact(ps, false, t);
        PlayerTargetsExact(ps, t);
      case _ =>
    }
  }

  // ----- startTargeting / selectTarget / cancelTargeting / confirmTargeting (2545-2649) -----

  function StartTargetingPatch(card: Inst, tt: Option<TargetType>, required: int): Patch
  {
    Keep.(targetingState := Some(TargetingState(true, Some(card), required, [], [], tt)))
  }

  /** startTargeting: always on the active player. */
  function StartTargetingWrites(ps: seq<PlayerState>, activeId: string, card: Inst, tt: Option<TargetType>, required: int): seq<Write>
  {
    if GetPlayer(ps, activeId).None? then [] else [Write(activeId, StartTargetingPatch(card, tt, required))]
  }

  /** selectTarget: the target is toggled in the active player's selection. */
  function SelectTargetWrites(ps: seq<PlayerState>, activeId: string, t: TargetId): seq<Write>
  {
    match GetPlayer(ps, activeId)
    case None => []
    case Some(p) =>
      [Write(activeId, Keep.(targetingState := Some(p.targetingState.(selectedTargets := Toggle(p.targetingState.selectedTargets, t)))))]
  }

  /** The state cancelTargeting and confirmTargeting leave: every targeting field reset. */
  const ClearTargeting := Keep.(targetingState := Some(NoTargeting))

  function CancelTargetingWrites(ps: seq<PlayerState>, activeId: string): seq<Write>
  {
    if GetPlayer(ps, activeId).None? then [] else [Write(activeId, ClearTargeting)]
  }

  /** What one write to a present player does, and that nobody else changes. */
  lemma CommitSingle(ps: seq<PlayerState>, p: PlayerState, u: Patch)
    requires GetPlayer(ps, p.id) == Some(p)
    ensures GetPlayer(Commit(ps, [Write(p.id, u)]), p.id) == Some(Merge(p, u))
    ensures forall x :: x != p.id ==> GetPlayer(Commit(ps, [Write(p.id, u)]), x) == GetPlayer(ps, x)
  {
    var w := Write(p.id, u);
    PatchesForOne(w, p.id);
    CommitPatches(ps, [w], p.id, p, [u]);
    MergeOne(p, u);
    forall x | x != p.id ensures GetPlayer(Commit(ps, [w]), x) == GetPlayer(ps, x) {
      PatchesForOne(w, x);
      CommitUntouched(ps, [w], x);
    }
  }

  /** Two writes to two different present players: each gets its own patch. */
  lemma CommitTwo(ps: seq<PlayerState>, p: PlayerState, u: Patch, q: PlayerState, v: Patch)
    requires GetPlayer(ps, p.id) == Some(p) && GetPlayer(ps, q.id) == Some(q) && p.id != q.id
    ensures GetPlayer(Commit(ps, [Write(p.id, u), Write(q.id, v)]), p.id) == Some(Merge(p, u))
    ensures GetPlayer(Commit(ps, [Write(p.id, u), Write(q.id, v)]), q.id) == Some(Merge(q, v))
  {
    var ws := [Write(p.id, u), Write(q.id, v)];
    assert ws == [Write(p.id, u)] + [Write(q.id, v)];
    CommitSnoc(ps, [Write(p.id, u)], Write(q.id, v));
    CommitSingle(ps, p, u);
    var mid := Commit(ps, [Write(p.id, u)]);
    GetUpdated(mid, q.id, v);
    GetUpdatedOther(mid, q.id, v, p.id);
  }

  /** Two writes to the same present player: the second is merged over the first. */
  lemma CommitSame(ps: seq<PlayerState>, p: PlayerState, u: Patch, v: Patch)
    requires GetPlayer(ps, p.id) == Some(p)
    ensures GetPlayer(Commit(ps, [Write(p.id, u), Write(p.id, v)]), p.id) == Some(Merge(Merge(p, u), v))
  {
    var ws := [Write(p.id, u), Write(p.id, v)];
    assert ws == [Write(p.id, u)] + [Write(p.id, v)];
    CommitSnoc(ps, [Write(p.id, u)], Write(p.id, v));
    CommitSingle(ps, p, u);
    GetUpdated(Commit(ps, [Write(p.id, u)]), p.id, v);
  }

  lemma MergeLife(p: PlayerState, life: int)
    ensures Merge(p, LifePatch(life)) == p.(lifeTotal := life)
  {
  }

  lemma MergeCreatures(p: PlayerState, cs: seq<Inst>)
    ensures Merge(p, Keep.(creatures := Some(cs))) == p.(creatures := cs)
  {
  }

  /** Two pool writes to the same player from the same read: the second wins. */
  lemma CommitTwoPools(ps: seq<PlayerState>, p: PlayerState, first: ManaPool, second: ManaPool)
    requires GetPlayer(ps, p.id) == Some(p)
    ensures GetPlayer(Commit(ps, [Write(p.id, Keep.(turnState := Some(p.turnState.(manaPool := first)))),
                                  Write(p.id, Keep.(turnState := Some(p.turnState.(manaPool := second))))]), p.id)
      == Some(p.(turnState := p.turnState.(manaPool := second)))
  {
    var u := Keep.(turnState := Some(p.turnState.(manaPool := first)));
    var v := Keep.(turnState := Some(p.turnState.(manaPool := second)));
    CommitSame(ps, p, u, v);
    MergeTurnState(p, p.turnState.(manaPool := first));
    MergeTurnState(Merge(p, u), p.turnState.(manaPool := second));
  }

  lemma MergeTurnState(p: PlayerState, ts: TurnState)
    ensures Merge(p, Keep.(turnState := Some(ts))) == p.(turnState := ts)
  {
  }

  /** startTargeting opens a fresh targeting state for the card, with nothing selected. */
  lemma StartTargetingOpens(ps: seq<PlayerState>, p: PlayerState, card: Inst, tt: Option<TargetType>, required: int)
    requires GetPlayer(ps, p.id) == Some(p)
    ensures GetPlayer(Commit(ps, StartTargetingWrites(ps, p.id, card, tt, required)), p.id) ==
      Some(p.(targetingState := TargetingState(true, Some(card), required, [], [], tt)))
  {
    CommitSingle(ps, p, StartTargetingPatch(card, tt, required));
  }

  /** Cancelling undoes starting, for a player that was not targeting. */
  lemma CancelUndoesStart(ps: seq<PlayerState>, p: PlayerState, card: Inst, tt: Option<TargetType>, required: int)
    requires GetPlayer(ps, p.id) == Some(p) && p.targetingState == NoTargeting
    ensures var started := Commit(ps, StartTargetingWrites(ps, p.id, card, tt, required));
      GetPlayer(Commit(started, CancelTargetingWrites(started, p.id)), p.id) == Some(p)
  {
    var started := Commit(ps, StartTargetingWrites(ps, p.id, card, tt, required));
    var q := p.(targetingState := TargetingState(true, Some(card), required, [], [], tt));
    StartTargetingOpens(ps, p, card, tt, required);
    CommitSingle(started, q, ClearTargeting);
  }

  /**
   * selectTarget adds an unselected target at the end, removes a selected
   * one, never creates a duplicate, and selecting the same unselected target
   * twice gives back the player as it was.
   */
  lemma SelectTargetToggles(ps: seq<PlayerState>, p: PlayerState, t: TargetId)
    requires GetPlayer(ps, p.id) == Some(p)
    ensures var after := Commit(ps, SelectTargetWrites(ps, p.id, t));
      var sel := p.targetingState.selectedTargets;
      && GetPlayer(after, p.id) == Some(p.(targetingState := p.targetingState.(selectedTargets := Toggle(sel, t))))
      && (t in Toggle(sel, t) <==> t !in sel)
      && (forall y :: y != t ==> (y in Toggle(sel, t) <==> y in sel))
      && (Distinct(sel) ==> Distinct(Toggle(sel, t)))
  {
    var sel := p.targetingState.selectedTargets;
    CommitSingle(ps, p, Keep.(targetingState := Some(p.targetingState.(selectedTargets := Toggle(sel, t)))));
    ToggleFlips(sel, t);
    if Distinct(sel) {
      ToggleKeepsDistinct(sel, t);
    }
  }

  lemma SelectTargetTwice(ps: seq<PlayerState>, p: PlayerState, t: TargetId)
    requires GetPlayer(ps, p.id) == Some(p) && t !in p.targetingState.selectedTargets
    ensures var once := Commit(ps, SelectTargetWrites(ps, p.id, t));
      GetPlayer(Commit(once, SelectTargetWrites(once, p.id, t)), p.id) == Some(p)
  {
    var sel := p.targetingState.selectedTargets;
    var once := Commit(ps, SelectTargetWrites(ps, p.id, t));
    var q := p.(targetingState := p.targetingState.(selectedTargets := Toggle(sel, t)));
    SelectTargetToggles(ps, p, t);
    SelectTargetToggles(once, q, t);
    ToggleTwiceAbsent(sel, t);
  }

  /** The selected targets, copied into every effect that needs one; the others lose their targets. */
  function Aimed(e: SpellEffect, sel: seq<TargetId>): SpellEffect
  {
    e.(targets := if e.requiresTarget == Some(true) then Some(sel) else None)
  }

  function AimedAll(es: seq<SpellEffect>, sel: seq<TargetId>): (r: seq<SpellEffect>)
    ensures |r| == |es|
    ensures forall i :: 0 <= i < |es| ==> r[i] == Aimed(es[i], sel)
  {
    seq(|es|, i requires 0 <= i < |es| => Aimed(es[i], sel))
  }

  /** The spell confirmTargeting puts on the stack. */
  function Aim(x: Inst, sel: seq<TargetId>): Inst
  {
    x.(card := x.card.(effects := match x.card.effects
                                 case None => None
                                 case Some(es) => Some(AimedAll(es, sel))))
  }

  /** confirmTargeting's check: at least as many valid targets (not selected ones) as required. */
  predicate EnoughTargets(ps: seq<PlayerState>, p: PlayerState)
  {
    |ValidTargets(ps, p.targetingState.targetType, p.id)| >= p.targetingState.requiredTargets
  }

  function ConfirmTargetingWrites(ps: seq<PlayerState>, activeId: string): seq<Write>
  {
    match GetPlayer(ps, activeId)
    case None => []
    case Some(p) =>
      if !EnoughTargets(ps, p) then []
      else
        (match p.targetingState.currentSpell
         case None => []
         case Some(x) => CastFromHandWrites(p, x.card.id))
        + [Write(activeId, ClearTargeting)]
  }

  function ConfirmTargetingStack(ps: seq<PlayerState>, activeId: string, stack: seq<StackItem>): seq<StackItem>
  {
    match GetPlayer(ps, activeId)
    case None => stack
    case Some(p) =>
      if !EnoughTargets(ps, p) then stack
      else match p.targetingState.currentSpell
        case None => stack
        case Some(x) => stack + [StackItem(SpellItem, Aim(x, p.targetingState.selectedTargets), activeId)]
  }

  /** Too few valid targets: nothing changes. */
  lemma ConfirmRefused(ps: seq<PlayerState>, p: PlayerState, stack: seq<StackItem>)
    requires GetPlayer(ps, p.id) == Some(p) && !EnoughTargets(ps, p)
    ensures ConfirmTargetingWrites(ps, p.id) == [] && ConfirmTargetingStack(ps, p.id, stack) == stack
  {
  }

  /**
   * Otherwise a spell being targeted goes on top of the stack under the
   * active player with the selection in its targeted effects, one copy of it
   * leaves the hand, and targeting is reset.
   */
  lemma ConfirmCasts(ps: seq<PlayerState>, p: PlayerState, stack: seq<StackItem>, x: Inst)
    requires GetPlayer(ps, p.id) == Some(p) && EnoughTargets(ps, p) && p.targetingState.currentSpell == Some(x)
    ensures ConfirmTargetingStack(ps, p.id, stack) == stack + [StackItem(SpellItem, Aim(x, p.targetingState.selectedTargets), p.id)]
    ensures GetPlayer(Commit(ps, ConfirmTargetingWrites(ps, p.id)), p.id) ==
      Some(p.(drawnCards := RemoveFirstWithId(p.drawnCards, x.card.id), targetingState := NoTargeting))
  {
    var hand := RemoveFirstWithId(p.drawnCards, x.card.id);
    if IndexOfId(p.drawnCards, x.card.id).Some? {
      var u := Keep.(drawnCards := Some(hand));
      assert ConfirmTargetingWrites(ps, p.id) == [Write(p.id, u), Write(p.id, ClearTargeting)];
      CommitSame(ps, p, u, ClearTargeting);
    } else {
      assert ConfirmTargetingWrites(ps, p.id) == [Write(p.id, ClearTargeting)];
      CommitSingle(ps, p, ClearTargeting);
    }
  }

  /**
   * Confirming never looks at the selection: with nothing selected the spell
   * still goes on the stack, its targeted damage effects aimed at nobody, and
   * resolving such an effect does nothing.
   */
  lemma ConfirmWithoutSelection(ps: seq<PlayerState>, p: PlayerState, stack: seq<StackItem>, x: Inst, e: SpellEffect, c: PlayerState)
    requires GetPlayer(ps, p.id) == Some(p) && EnoughTargets(ps, p) && p.targetingState.currentSpell == Some(x)
    requires p.targetingState.selectedTargets == [] && e.requiresTarget == Some(true)
    requires e.effectType in {DamageEffect, DestroyEffect}
    ensures |ConfirmTargetingStack(ps, p.id, stack)| == |stack| + 1
    ensures Aimed(e, []).targets == Some([])
    ensures forall qs :: EffectWrites(qs, Aimed(e, []), c) == []
  {
    ConfirmCasts(ps, p, stack, x);
  }

  // ----- playCard (716-795) -----

  /** The first effect that wants a target (`effects.find(effect => effect.requiresTarget)`). */
  function FirstTargeted(es: seq<SpellEffect>): (r: Option<SpellEffect>)
    ensures r.Some? ==> r.value in es && r.value.requiresTarget == Some(true)
    ensures r.None? <==> forall e :: e in es ==> e.requiresTarget != Some(true)
  {
    if es == [] then None
    else if es[0].requiresTarget == Some(true) then Some(es[0])
    else FirstTargeted(es[1..])
  }

  /** The target type playCard starts targeting with, if any: that of the first targeted effect. */
  function PlayTargetType(c: Card): Option<TargetType>
  {
    if c.effects.None? then None
    else match FirstTargeted(c.effects.value)
      case None => None
      case Some(e) => e.targetType
  }

  /** A land: one per turn, and only on one's own turn. */
  predicate MayPlayLand(p: PlayerState, activeId: string)
  {
    !p.turnState.hasPlayedLand && p.id == activeId
  }

  /** A spell: a sorcery only by the active player with an empty stack; anything else but an instant only by the active player. */
  predicate MayCastSpell(c: Card, pid: string, activeId: string, stack: seq<StackItem>)
  {
    !(IsSorcery(c) && (pid != activeId || |stack| > 0)) && (pid == activeId || IsInstant(c))
  }

  /** A played land: every hand card with its id leaves the hand, it joins the land row, the land flag is set. */
  function PlayLandPatch(p: PlayerState, card: Inst, now: nat): Patch
  {
    Keep.(drawnCards := Some(Filter(p.drawnCards, (c: Inst) => c.card.id != card.card.id)),
          lands := Some(p.lands + [card.(placedAt := now)]),
          turnState := Some(p.turnState.(hasPlayedLand := true)))
  }

  function PlayCardWrites(ps: seq<PlayerState>, activeId: string, stack: seq<StackItem>, pid: string, card: Inst, now: nat): seq<Write>
  {
    match GetPlayer(ps, pid)
    case None => []
    case Some(p) =>
      if IsLand(card.card) then
        if MayPlayLand(p, activeId) then [Write(pid, PlayLandPatch(p, card, now))] else []
      else if !MayCastSpell(card.card, pid, activeId, stack) then []
      else if PlayTargetType(card.card).Some? then StartTargetingWrites(ps, activeId, card, PlayTargetType(card.card), 1)
      else CastFromHandWrites(p, card.card.id)
  }

  function PlayCardStack(ps: seq<PlayerState>, activeId: string, stack: seq<StackItem>, pid: string, card: Inst): seq<StackItem>
  {
    match GetPlayer(ps, pid)
    case None => stack
    case Some(p) =>
      if IsLand(card.card) || !MayCastSpell(card.card, pid, activeId, stack) || PlayTargetType(card.card).Some? then stack
      else stack + [StackItem(SpellItem, card, pid)]
  }

  /**
   * Playing a land: when allowed, every hand card with its id leaves the
   * hand, the land joins the end of the land row with the new time, and the
   * one-land flag is set; otherwise nothing changes. The stack is never used.
   */
  lemma PlayLand(ps: seq<PlayerState>, activeId: string, stack: seq<StackItem>, p: PlayerState, card: Inst, now: nat)
    requires GetPlayer(ps, p.id) == Some(p) && IsLand(card.card)
    ensures PlayCardStack(ps, activeId, stack, p.id, card) == stack
    ensures !MayPlayLand(p, activeId) ==> PlayCardWrites(ps, activeId, stack, p.id, card, now) == []
    ensures GetPlayer(Commit(ps, PlayCardWrites(ps, activeId, stack, p.id, card, now)), p.id).Some?
    ensures MayPlayLand(p, activeId) ==>
      var q := GetPlayer(Commit(ps, PlayCardWrites(ps, activeId, stack, p.id, card, now)), p.id).value;
      && q == p.(drawnCards := q.drawnCards, lands := p.lands + [card.(placedAt := now)],
                 turnState := p.turnState.(hasPlayedLand := true))
      && (forall c :: c in q.drawnCards <==> c in p.drawnCards && c.card.id != card.card.id)
  {
    if MayPlayLand(p, activeId) {
      CommitSingle(ps, p, PlayLandPatch(p, card, now));
    }
  }

  /** After a land is played, no further land can be played by that player this turn. */
  lemma OneLandPerTurn(ps: seq<PlayerState>, activeId: string, stack: seq<StackItem>, p: PlayerState, land: Inst, other: Inst, now: nat, later: nat)
    requires GetPlayer(ps, p.id) == Some(p) && IsLand(land.card) && IsLand(other.card) && MayPlayLand(p, activeId)
    ensures var after := Commit(ps, PlayCardWrites(ps, activeId, stack, p.id, land, now));
      PlayCardWrites(after, activeId, stack, p.id, other, later) == []
  {
    var after := Commit(ps, PlayCardWrites(ps, activeId, stack, p.id, land, now));
    CommitSingle(ps, p, PlayLandPatch(p, land, now));
    var q := Merge(p, PlayLandPatch(p, land, now));
    assert GetPlayer(after, p.id) == Some(q);
    assert q.turnState.hasPlayedLand;
  }

  /** A sorcery off one's own turn, or with something on the stack, is refused. */
  lemma SorceryTiming(ps: seq<PlayerState>, activeId: string, stack: seq<StackItem>, pid: string, card: Inst, now: nat)
    requires !IsLand(card.card) && IsSorcery(card.card) && (pid != activeId || |stack| > 0)
    ensures PlayCardWrites(ps, activeId, stack, pid, card, now) == []
    ensures PlayCardStack(ps, activeId, stack, pid, card) == stack
  {
  }

  /** A spell that needs no target goes on top of the stack and one copy of it leaves the hand. */
  lemma PlaySpell(ps: seq<PlayerState>, activeId: string, stack: seq<StackItem>, p: PlayerState, card: Inst, now: nat)
    requires GetPlayer(ps, p.id) == Some(p) && !IsLand(card.card) && MayCastSpell(card.card, p.id, activeId, stack)
    requires PlayTargetType(card.card).None?
    ensures PlayCardStack(ps, activeId, stack, p.id, card) == stack + [StackItem(SpellItem, card, p.id)]
    ensures GetPlayer(Commit(ps, PlayCardWrites(ps, activeId, stack, p.id, card, now)), p.id) ==
      Some(p.(drawnCards := RemoveFirstWithId(p.drawnCards, card.card.id)))
    ensures forall x :: x != p.id ==>
      GetPlayer(Commit(ps, PlayCardWrites(ps, activeId, stack, p.id, card, now)), x) == GetPlayer(ps, x)
  {
    if IndexOfId(p.drawnCards, card.card.id).Some? {
      CommitSingle(ps, p, Keep.(drawnCards := Some(RemoveFirstWithId(p.drawnCards, card.card.id))));
    }
  }

  /** A spell with a targeted effect that names a target type starts targeting on the active player instead. */
  lemma PlayTargetedSpell(ps: seq<PlayerState>, activeId: string, stack: seq<StackItem>, p: PlayerState, card: Inst, now: nat)
    requires GetPlayer(ps, p.id) == Some(p) && !IsLand(card.card) && MayCastSpell(card.card, p.id, activeId, stack)
    requires PlayTargetType(card.card).Some?
    ensures PlayCardStack(ps, activeId, stack, p.id, card) == stack
    ensures PlayCardWrites(ps, activeId, stack, p.id, card, now) == StartTargetingWrites(ps, activeId, card, PlayTargetType(card.card), 1)
  {
  }

  /**
   * A creature spell with no effects, played by the active player onto an
   * empty stack and then resolved by passing priority, leaves the hand once
   * and arrives at the end of the creature row, summoning sick.
   */
  lemma PlayThenResolveCreature(ps: seq<PlayerState>, p: PlayerState, card: Inst, now: nat, later: nat)
    requires GetPlayer(ps, p.id) == Some(p) && !IsLand(card.card) && IsCreature(card.card) && NoEffects(card.card)
    ensures var played := Commit(ps, PlayCardWrites(ps, p.id, [], p.id, card, now));
      var stack := PlayCardStack(ps, p.id, [], p.id, card);
      && stack == [StackItem(SpellItem, card, p.id)]
      && Pop(stack) == []
      && GetPlayer(Commit(played, PassPriorityWrites(played, stack, later)), p.id) ==
         Some(p.(drawnCards := RemoveFirstWithId(p.drawnCards, card.card.id), creatures := p.creatures + [Entered(card, later)]))
  {
    assert MayCastSpell(card.card, p.id, p.id, []);
    assert PlayTargetType(card.card).None?;
    PlaySpell(ps, p.id, [], p, card, now);
    var played := Commit(ps, PlayCardWrites(ps, p.id, [], p.id, card, now));
    var stack := [StackItem(SpellItem, card, p.id)];
    var q := p.(drawnCards := RemoveFirstWithId(p.drawnCards, card.card.id));
    assert GetPlayer(played, p.id) == Some(q);
    ResolvePermanent(played, stack, later, q);
  }

  // ----- canActivateAbility / activateAbility (2790-2925) -----

  /** canActivateAbility. */
  predicate CanActivate(ps: seq<PlayerState>, activeId: string, pid: string, card: Card, ab: ActivatedAbility)
  {
    match GetPlayer(ps, pid)
    case None => false
    case Some(p) =>
      if pid != activeId && ab.cost != "T" then false
      else if ab.cost == "T" then
        match IndexOfId(p.creatures, card.id)
        case Some(k) => InstId(card.id, k) !in p.tappedCreatures
        case None =>
          match IndexOfId(p.lands, card.id)
          case Some(k) => InstId(card.id, k) !in p.turnState.tappedLands
          case None => false
      else Total(p.turnState.manaPool) >= AbilityCost(ab.cost)
  }

  /** Paying the cost: tap the first creature, else the first land, with the card's id; or pay mana. */
  function PayAbilityWrites(p: PlayerState, card: Card, ab: ActivatedAbility): seq<Write>
  {
    if ab.cost == "T" then
      match IndexOfId(p.creatures, card.id)
      case Some(k) => [Write(p.id, Keep.(tappedCreatures := Some(p.tappedCreatures + {InstId(card.id, k)})))]
      case None =>
        match IndexOfId(p.lands, card.id)
        case Some(k) => [Write(p.id, Keep.(turnState := Some(p.turnState.(tappedLands := p.turnState.tappedLands + [InstId(card.id, k)]))))]
        case None => []
    else [Write(p.id, Keep.(turnState := Some(p.turnState.(manaPool := AbilityPayment(p.turnState.manaPool, AbilityCost(ab.cost))))))]
  }

  /** A mana ability's amount: `ability.effect.value || 1`. */
  function ManaAmount(e: SpellEffect): nat
  {
    if Amount(e) > 0 then Amount(e) else 1
  }

  /** The mana a MANA ability adds, to the pool the operation read. */
  function AddedMana(p: PlayerState, ab: ActivatedAbility): ManaPool
  {
    var c := DescriptionColor(ab.description);
    WithBucket(p.turnState.manaPool, c, Bucket(p.turnState.manaPool, c) + ManaAmount(ab.effect))
  }

  /** The effect part: mana at once, targeting for a targeted ability, otherwise nothing written. */
  function AbilityEffectWrites(ps: seq<PlayerState>, activeId: string, p: PlayerState, card: Inst, ab: ActivatedAbility): seq<Write>
  {
    if ab.effect.effectType == ManaEffect then
      [Write(p.id, Keep.(turnState := Some(p.turnState.(manaPool := AddedMana(p, ab)))))]
    else if ab.effect.requiresTarget == Some(true) then
      StartTargetingWrites(ps, activeId, card, Some(OrElse(ab.effect.targetType, CreatureOrPlayerTarget)), 1)
    else []
  }

  function ActivateAbilityWrites(ps: seq<PlayerState>, activeId: string, pid: string, card: Inst, ab: ActivatedAbility): seq<Write>
  {
    match GetPlayer(ps, pid)
    case None => []
    case Some(p) =>
      if !CanActivate(ps, activeId, pid, card.card, ab) then []
      else PayAbilityWrites(p, card.card, ab) + AbilityEffectWrites(ps, activeId, p, card, ab)
  }

  /** An ability that is neither a mana ability nor targeted goes on the stack, with its source card as the item. */
  function ActivateAbilityStack(ps: seq<PlayerState>, activeId: string, pid: string, card: Inst, ab: ActivatedAbility, stack: seq<StackItem>): seq<StackItem>
  {
    if GetPlayer(ps, pid).None? || !CanActivate(ps, activeId, pid, card.card, ab) then stack
    else if ab.effect.effectType == ManaEffect || ab.effect.requiresTarget == Some(true) then stack
    else stack + [StackItem(AbilityItem, card, pid)]
  }

  /** An allowed activation: the payment writes, then the effect writes. */
  lemma ActivateSplits(ps: seq<PlayerState>, activeId: string, p: PlayerState, card: Inst, ab: ActivatedAbility)
    requires GetPlayer(ps, p.id) == Some(p) && CanActivate(ps, activeId, p.id, card.card, ab)
    ensures ActivateAbilityWrites(ps, activeId, p.id, card, ab) == PayAbilityWrites(p, card.card, ab) + AbilityEffectWrites(ps, activeId, p, card, ab)
  {
  }

  /** Off one's own turn only tap abilities can be activated; a mana-cost ability needs the pool to cover the cost. */
  lemma CanActivateManaCost(ps: seq<PlayerState>, activeId: string, p: PlayerState, card: Card, ab: ActivatedAbility)
    requires GetPlayer(ps, p.id) == Some(p) && ab.cost != "T"
    ensures CanActivate(ps, activeId, p.id, card, ab) <==> p.id == activeId && Total(p.turnState.manaPool) >= AbilityCost(ab.cost)
  {
  }

  /** A refused activation changes nothing. */
  lemma ActivateRefused(ps: seq<PlayerState>, activeId: string, pid: string, card: Inst, ab: ActivatedAbility, stack: seq<StackItem>)
    requires !CanActivate(ps, activeId, pid, card.card, ab)
    ensures ActivateAbilityWrites(ps, activeId, pid, card, ab) == []
    ensures ActivateAbilityStack(ps, activeId, pid, card, ab, stack) == stack
  {
  }

  /**
   * A tap ability of a creature taps the first creature with the card's id,
   * goes on the stack (neither mana nor targeted), and then cannot be
   * activated again until the creature untaps.
   */
  lemma TapAbilityOnce(ps: seq<PlayerState>, activeId: string, p: PlayerState, card: Inst, ab: ActivatedAbility, stack: seq<StackItem>, k: nat)
    requires GetPlayer(ps, p.id) == Some(p) && ab.cost == "T" && IndexOfId(p.creatures, card.card.id) == Some(k)
    requires CanActivate(ps, activeId, p.id, card.card, ab)
    requires ab.effect.effectType != ManaEffect && ab.effect.requiresTarget != Some(true)
    ensures var after := Commit(ps, ActivateAbilityWrites(ps, activeId, p.id, card, ab));
      && GetPlayer(after, p.id) == Some(p.(tappedCreatures := p.tappedCreatures + {InstId(card.card.id, k)}))
      && ActivateAbilityStack(ps, activeId, p.id, card, ab, stack) == stack + [StackItem(AbilityItem, card, p.id)]
      && !CanActivate(after, activeId, p.id, card.card, ab)
  {
    var u := Keep.(tappedCreatures := Some(p.tappedCreatures + {InstId(card.card.id, k)}));
    assert ActivateAbilityWrites(ps, activeId, p.id, card, ab) == [Write(p.id, u)];
    CommitSingle(ps, p, u);
  }

  /**
   * A mana-cost ability that is not a mana ability pays as
   * spendManaForCard does: colorless first, the pool total falling by the
   * cost when the pool covers it.
   */
  lemma ManaCostAbilityPays(ps: seq<PlayerState>, activeId: string, p: PlayerState, card: Inst, ab: ActivatedAbility)
    requires GetPlayer(ps, p.id) == Some(p) && ab.cost != "T" && CanActivate(ps, activeId, p.id, card.card, ab)
    requires ab.effect.effectType != ManaEffect && ab.effect.requiresTarget != Some(true)
    ensures GetPlayer(Commit(ps, ActivateAbilityWrites(ps, activeId, p.id, card, ab)), p.id).Some?
    ensures var q := GetPlayer(Commit(ps, ActivateAbilityWrites(ps, activeId, p.id, card, ab)), p.id).value;
      && q == p.(turnState := p.turnState.(manaPool := AbilityPayment(p.turnState.manaPool, AbilityCost(ab.cost))))
      && (AbilityCost(ab.cost) >= 0 ==> Total(q.turnState.manaPool) == Total(p.turnState.manaPool) - AbilityCost(ab.cost))
  {
    var u := Keep.(turnState := Some(p.turnState.(manaPool := AbilityPayment(p.turnState.manaPool, AbilityCost(ab.cost)))));
    PaidAbilityWrites(ps, activeId, p, card, ab);
    CommitSingle(ps, p, u);
    AbilityPaymentTotal(p.turnState.manaPool, AbilityCost(ab.cost));
  }

  /** Paying a non-negative cost the pool covers takes exactly that much from the total. */
  lemma AbilityPaymentTotal(pool: ManaPool, cost: int)
    requires cost <= Total(pool)
    ensures cost >= 0 ==> Total(AbilityPayment(pool, cost)) == Total(pool) - cost
  {
    if cost >= 0 {
      PayTotal(pool, [], cost);
    }
  }

  lemma PaidAbilityWrites(ps: seq<PlayerState>, activeId: string, p: PlayerState, card: Inst, ab: ActivatedAbility)
    requires GetPlayer(ps, p.id) == Some(p) && ab.cost != "T" && CanActivate(ps, activeId, p.id, card.card, ab)
    requires ab.effect.effectType != ManaEffect && ab.effect.requiresTarget != Some(true)
    ensures ActivateAbilityWrites(ps, activeId, p.id, card, ab) ==
      [Write(p.id, Keep.(turnState := Some(p.turnState.(manaPool := AbilityPayment(p.turnState.manaPool, AbilityCost(ab.cost))))))]
  {
  }

  /**
   * A land's tap mana ability adds its mana but leaves the land untapped:
   * the mana write, computed from the turn state read, replaces the
   * tapped-lands write before it. The ability can be activated again at once.
   */
  lemma LandManaAbilityRepeats(ps: seq<PlayerState>, activeId: string, p: PlayerState, card: Inst, ab: ActivatedAbility, k: nat)
    requires GetPlayer(ps, p.id) == Some(p) && ab.cost == "T"
    requires IndexOfId(p.creatures, card.card.id).None? && IndexOfId(p.lands, card.card.id) == Some(k)
    requires CanActivate(ps, activeId, p.id, card.card, ab) && ab.effect.effectType == ManaEffect
    ensures var after := Commit(ps, ActivateAbilityWrites(ps, activeId, p.id, card, ab));
      && GetPlayer(after, p.id) == Some(p.(turnState := p.turnState.(manaPool := AddedMana(p, ab))))
      && CanActivate(after, activeId, p.id, card.card, ab)
  {
    var tap := Keep.(turnState := Some(p.turnState.(tappedLands := p.turnState.tappedLands + [InstId(card.card.id, k)])));
    var add := Keep.(turnState := Some(p.turnState.(manaPool := AddedMana(p, ab))));
    assert ActivateAbilityWrites(ps, activeId, p.id, card, ab) == [Write(p.id, tap), Write(p.id, add)];
    CommitSame(ps, p, tap, add);
    MergeTurnState(p, p.turnState.(tappedLands := p.turnState.tappedLands + [InstId(card.card.id, k)]));
    MergeTurnState(Merge(p, tap), p.turnState.(manaPool := AddedMana(p, ab)));
  }

  /**
   * A mana ability with a mana cost is free: the mana write, computed from
   * the pool read, replaces the payment, so the pool only gains.
   */
  lemma ManaCostManaAbilityIsFree(ps: seq<PlayerState>, activeId: string, p: PlayerState, card: Inst, ab: ActivatedAbility)
    requires GetPlayer(ps, p.id) == Some(p) && ab.cost != "T" && CanActivate(ps, activeId, p.id, card.card, ab)
    requires ab.effect.effectType == ManaEffect
    ensures GetPlayer(Commit(ps, ActivateAbilityWrites(ps, activeId, p.id, card, ab)), p.id).Some?
    ensures var q := GetPlayer(Commit(ps, ActivateAbilityWrites(ps, activeId, p.id, card, ab)), p.id).value;
      && q == p.(turnState := p.turnState.(manaPool := AddedMana(p, ab)))
      && Total(q.turnState.manaPool) == Total(p.turnState.manaPool) + ManaAmount(ab.effect)
  {
    ManaAbilityWrites(ps, activeId, p, card, ab);
    CommitTwoPools(ps, p, AbilityPayment(p.turnState.manaPool, AbilityCost(ab.cost)), AddedMana(p, ab));
    AddedManaTotal(p, ab);
  }

  /** A mana ability adds its amount to the pool's total. */
  lemma AddedManaTotal(p: PlayerState, ab: ActivatedAbility)
    ensures Total(AddedMana(p, ab)) == Total(p.turnState.manaPool) + ManaAmount(ab.effect)
  {
    var c := DescriptionColor(ab.description);
    TotalWithBucket(p.turnState.manaPool, c, Bucket(p.turnState.manaPool, c) + ManaAmount(ab.effect));
  }

  lemma ManaAbilityWrites(ps: seq<PlayerState>, activeId: string, p: PlayerState, card: Inst, ab: ActivatedAbility)
    requires GetPlayer(ps, p.id) == Some(p) && ab.cost != "T" && CanActivate(ps, activeId, p.id, card.card, ab)
    requires ab.effect.effectType == ManaEffect
    ensures ActivateAbilityWrites(ps, activeId, p.id, card, ab) ==
      [Write(p.id, Keep.(turnState := Some(p.turnState.(manaPool := AbilityPayment(p.turnState.manaPool, AbilityCost(ab.cost)))))),
       Write(p.id, Keep.(turnState := Some(p.turnState.(manaPool := AddedMana(p, ab)))))]
  {
    var pay := Keep.(turnState := Some(p.turnState.(manaPool := AbilityPayment(p.turnState.manaPool, AbilityCost(ab.cost)))));
    var add := Keep.(turnState := Some(p.turnState.(manaPool := AddedMana(p, ab))));
    ActivateSplits(ps, activeId, p, card, ab);
    assert PayAbilityWrites(p, card.card, ab) == [Write(p.id, pay)];
    assert AbilityEffectWrites(ps, activeId, p, card, ab) == [Write(p.id, add)];
  }

  /**
   * Resolving an ability resolves its source card: a creature's
   * non-targeted, non-mana ability with no card effects puts a second copy
   * of the creature onto the creature row.
   */
  lemma AbilityResolvesSourceCard(ps: seq<PlayerState>, activeId: string, p: PlayerState, card: Inst, ab: ActivatedAbility,
                                  stack: seq<StackItem>, now: nat)
    requires GetPlayer(ps, p.id) == Some(p) && CanActivate(ps, activeId, p.id, card.card, ab)
    requires ab.effect.effectType != ManaEffect && ab.effect.requiresTarget != Some(true)
    requires IsCreature(card.card) && NoEffects(card.card)
    ensures GetPlayer(Commit(ps, ActivateAbilityWrites(ps, activeId, p.id, card, ab)), p.id).Some?
    ensures var after := Commit(ps, ActivateAbilityWrites(ps, activeId, p.id, card, ab));
      var s := ActivateAbilityStack(ps, activeId, p.id, card, ab, stack);
      var q := GetPlayer(after, p.id).value;
      GetPlayer(Commit(after, ResolveTopWrites(after, s, now)), p.id) == Some(q.(creatures := q.creatures + [Entered(card, now)]))
  {
    var after := Commit(ps, ActivateAbilityWrites(ps, activeId, p.id, card, ab));
    var s := ActivateAbilityStack(ps, activeId, p.id, card, ab, stack);
    assert s == stack + [StackItem(AbilityItem, card, p.id)];
    CommitGet(ps, ActivateAbilityWrites(ps, activeId, p.id, card, ab), p.id);
    var q := GetPlayer(after, p.id).value;
    ResolvePermanent(after, s, now, q);
  }
}
