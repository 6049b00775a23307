/**
 * Moving cards between the hand, the battlefield, the graveyard and exile
 * (frontend/src/contexts/DeckProvider.tsx:799-1241), tapping and untapping
 * permanents (1066-1148), casting the commander (1307-1394) and the small
 * mana operations (501-570, 2021-2034), each as the patches it hands to
 * `updatePlayer`, computed from the player it read when it started.
 *
 * A card passed by object reference is given as its value and the position
 * `at` where that object sits; `filter(c => c !== card)` is then RemoveAt,
 * and a position that no longer names anything removes nothing.
 */
module Zones {
  import opened Common
  import opened JsText
  import opened DeckTypes
  import opened Players
  import opened CardRules
  import opened Mana
  import opened Library

  /** Taking the object at its position out of a zone takes exactly one copy of it. */
  lemma RemoveAtMultiset<T>(s: seq<T>, at: nat, x: T)
    requires at < |s| && s[at] == x
    ensures multiset(RemoveAt(s, at)) + multiset{x} == multiset(s)
  {
    assert s == s[..at] + [x] + s[at + 1..];
  }

  // ----- hand, graveyard and exile -----

  /** discardCard (799-812): from the hand to the end of the graveyard. */
  function DiscardPatch(p: PlayerState, at: nat, card: Inst): Patch
  {
    Keep.(drawnCards := Some(RemoveAt(p.drawnCards, at)), graveyard := Some(p.graveyard + [card]))
  }

  lemma DiscardMovesToGraveyard(p: PlayerState, at: nat, card: Inst)
    requires RefersTo(p.drawnCards, at, card)
    ensures var q := Merge(p, DiscardPatch(p, at, card));
      && q.graveyard == p.graveyard + [card]
      && (at < |p.drawnCards| ==>
            multiset(q.drawnCards) + multiset(q.graveyard) == multiset(p.drawnCards) + multiset(p.graveyard))
      && (at >= |p.drawnCards| ==> q.drawnCards == p.drawnCards)
      && q == p.(drawnCards := q.drawnCards, graveyard := q.graveyard)
  {
    if at < |p.drawnCards| {
      RemoveAtMultiset(p.drawnCards, at, card);
    }
  }

  /** exileCard (814-827): from the hand to the end of exile. */
  function ExileCardPatch(p: PlayerState, at: nat, card: Inst): Patch
  {
    Keep.(drawnCards := Some(RemoveAt(p.drawnCards, at)), exile := Some(p.exile + [card]))
  }

  lemma ExileCardMovesToExile(p: PlayerState, at: nat, card: Inst)
    requires RefersTo(p.drawnCards, at, card)
    ensures var q := Merge(p, ExileCardPatch(p, at, card));
      && q.exile == p.exile + [card]
      && (at < |p.drawnCards| ==>
            multiset(q.drawnCards) + multiset(q.exile) == multiset(p.drawnCards) + multiset(p.exile))
      && (at >= |p.drawnCards| ==> q.drawnCards == p.drawnCards)
      && q == p.(drawnCards := q.drawnCards, exile := q.exile)
  {
    if at < |p.drawnCards| {
      RemoveAtMultiset(p.drawnCards, at, card);
    }
  }

  /** returnFromGraveyard (1150-1163): from the graveyard to the FRONT of the hand. */
  function ReturnFromGraveyardPatch(p: PlayerState, at: nat, card: Inst): Patch
  {
    Keep.(graveyard := Some(RemoveAt(p.graveyard, at)), drawnCards := Some([card] + p.drawnCards))
  }

  lemma ReturnFromGraveyardToHand(p: PlayerState, at: nat, card: Inst)
    requires RefersTo(p.graveyard, at, card)
    ensures var q := Merge(p, ReturnFromGraveyardPatch(p, at, card));
      && q.drawnCards[0] == card && q.drawnCards[1..] == p.drawnCards
      && (at < |p.graveyard| ==>
            multiset(q.drawnCards) + multiset(q.graveyard) == multiset(p.drawnCards) + multiset(p.graveyard))
      && (at >= |p.graveyard| ==> q.graveyard == p.graveyard)
      && q == p.(drawnCards := q.drawnCards, graveyard := q.graveyard)
  {
    if at < |p.graveyard| {
      RemoveAtMultiset(p.graveyard, at, card);
    }
  }

  /** returnFromGraveyardToBattlefield (1165-1178): always onto the creature row, placed `now`. */
  function GraveyardToBattlefieldPatch(p: PlayerState, at: nat, card: Inst, now: nat): Patch
  {
    Keep.(graveyard := Some(RemoveAt(p.graveyard, at)), creatures := Some(p.creatures + [card.(placedAt := now)]))
  }

  lemma GraveyardToBattlefieldPlaces(p: PlayerState, at: nat, card: Inst, now: nat)
    requires RefersTo(p.graveyard, at, card)
    ensures var q := Merge(p, GraveyardToBattlefieldPatch(p, at, card, now));
      && q.creatures == p.creatures + [card.(placedAt := now)]
      && (at < |p.graveyard| ==> multiset(q.graveyard) + multiset{card} == multiset(p.graveyard))
      && (at >= |p.graveyard| ==> q.graveyard == p.graveyard)
      && q == p.(graveyard := q.graveyard, creatures := q.creatures)
  {
    if at < |p.graveyard| {
      RemoveAtMultiset(p.graveyard, at, card);
    }
  }

  /** `[...lands, card]` for a land, `[...creatures, card]` otherwise. */
  function EnterBattlefield(p: PlayerState, x: Inst): Patch
  {
    if IsLand(x.card) then Keep.(lands := Some(p.lands + [x])) else Keep.(creatures := Some(p.creatures + [x]))
  }

  /** returnFromGraveyardToField (1180-1200): two writes, the second to the row the card's type picks. */
  function GraveyardToFieldPatches(p: PlayerState, at: nat, card: Inst, now: nat): seq<Patch>
  {
    [Keep.(graveyard := Some(RemoveAt(p.graveyard, at))), EnterBattlefield(p, card.(placedAt := now))]
  }

  /** A card entering the battlefield goes to exactly one row, the one its type picks. */
  lemma EnterBattlefieldOneRow(p: PlayerState, x: Inst)
    ensures var q := Merge(p, EnterBattlefield(p, x));
      && (IsLand(x.card) ==> q.lands == p.lands + [x] && q.creatures == p.creatures)
      && (!IsLand(x.card) ==> q.creatures == p.creatures + [x] && q.lands == p.lands)
      && q == p.(lands := q.lands, creatures := q.creatures)
  {
  }

  lemma GraveyardToFieldPlaces(p: PlayerState, at: nat, card: Inst, now: nat)
    requires RefersTo(p.graveyard, at, card)
    ensures var q := MergeAll(p, GraveyardToFieldPatches(p, at, card, now));
      && |q.lands| + |q.creatures| == |p.lands| + |p.creatures| + 1
      && (IsLand(card.card) ==> q.lands == p.lands + [card.(placedAt := now)])
      && (!IsLand(card.card) ==> q.creatures == p.creatures + [card.(placedAt := now)])
      && (at < |p.graveyard| ==> multiset(q.graveyard) + multiset{card} == multiset(p.graveyard))
      && q == p.(graveyard := q.graveyard, lands := q.lands, creatures := q.creatures)
  {
    var first := Keep.(graveyard := Some(RemoveAt(p.graveyard, at)));
    MergeTwo(p, first, EnterBattlefield(p, card.(placedAt := now)));
    EnterBattlefieldOneRow(Merge(p, first), card.(placedAt := now));
    if at < |p.graveyard| {
      RemoveAtMultiset(p.graveyard, at, card);
    }
  }

  /** returnFromExile (1202-1215): from exile to the END of the hand. */
  function ReturnFromExilePatch(p: PlayerState, at: nat, card: Inst): Patch
  {
    Keep.(exile := Some(RemoveAt(p.exile, at)), drawnCards := Some(p.drawnCards + [card]))
  }

  lemma ReturnFromExileToHand(p: PlayerState, at: nat, card: Inst)
    requires RefersTo(p.exile, at, card)
    ensures var q := Merge(p, ReturnFromExilePatch(p, at, card));
      && q.drawnCards == p.drawnCards + [card]
      && (at < |p.exile| ==>
            multiset(q.drawnCards) + multiset(q.exile) == multiset(p.drawnCards) + multiset(p.exile))
      && (at >= |p.exile| ==> q.exile == p.exile)
      && q == p.(drawnCards := q.drawnCards, exile := q.exile)
  {
    if at < |p.exile| {
      RemoveAtMultiset(p.exile, at, card);
    }
  }

  /** moveFromExileToGraveyard (1217-1230). */
  function ExileToGraveyardPatch(p: PlayerState, at: nat, card: Inst): Patch
  {
    Keep.(exile := Some(RemoveAt(p.exile, at)), graveyard := Some(p.graveyard + [card]))
  }

  lemma ExileToGraveyardMoves(p: PlayerState, at: nat, card: Inst)
    requires RefersTo(p.exile, at, card)
    ensures var q := Merge(p, ExileToGraveyardPatch(p, at, card));
      && q.graveyard == p.graveyard + [card]
      && (at < |p.exile| ==>
            multiset(q.exile) + multiset(q.graveyard) == multiset(p.exile) + multiset(p.graveyard))
      && (at >= |p.exile| ==> q.exile == p.exile)
      && q == p.(exile := q.exile, graveyard := q.graveyard)
  {
    if at < |p.exile| {
      RemoveAtMultiset(p.exile, at, card);
    }
  }

  /** exileFromGraveyard (1232-1241). */
  function ExileFromGraveyardPatch(p: PlayerState, at: nat, card: Inst): Patch
  {
    Keep.(graveyard := Some(RemoveAt(p.graveyard, at)), exile := Some(p.exile + [card]))
  }

  lemma ExileFromGraveyardMoves(p: PlayerState, at: nat, card: Inst)
    requires RefersTo(p.graveyard, at, card)
    ensures var q := Merge(p, ExileFromGraveyardPatch(p, at, card));
      && q.exile == p.exile + [card]
      && (at < |p.graveyard| ==>
            multiset(q.exile) + multiset(q.graveyard) == multiset(p.exile) + multiset(p.graveyard))
      && (at >= |p.graveyard| ==> q.graveyard == p.graveyard)
      && q == p.(exile := q.exile, graveyard := q.graveyard)
  {
    if at < |p.graveyard| {
      RemoveAtMultiset(p.graveyard, at, card);
    }
  }

  /** exileFromGraveyard undoes moveFromExileToGraveyard: the card is back at the end of exile. */
  lemma ExileRoundTrip(p: PlayerState, card: Inst)
    requires |p.exile| > 0 && p.exile[|p.exile| - 1] == card
    ensures var q := Merge(p, ExileToGraveyardPatch(p, |p.exile| - 1, card));
      Merge(q, ExileFromGraveyardPatch(q, |q.graveyard| - 1, card)) == p
  {
    var q := Merge(p, ExileToGraveyardPatch(p, |p.exile| - 1, card));
    assert q.exile == p.exile[..|p.exile| - 1];
    assert RemoveAt(q.graveyard, |q.graveyard| - 1) == p.graveyard;
    assert q.exile + [card] == p.exile;
  }

  /** returnFromExileToField (1283-1303). */
  function ExileToFieldPatches(p: PlayerState, at: nat, card: Inst, now: nat): seq<Patch>
  {
    [Keep.(exile := Some(RemoveAt(p.exile, at))), EnterBattlefield(p, card.(placedAt := now))]
  }

  lemma ExileToFieldPlaces(p: PlayerState, at: nat, card: Inst, now: nat)
    requires RefersTo(p.exile, at, card)
    ensures var q := MergeAll(p, ExileToFieldPatches(p, at, card, now));
      && |q.lands| + |q.creatures| == |p.lands| + |p.creatures| + 1
      && (IsLand(card.card) ==> q.lands == p.lands + [card.(placedAt := now)])
      && (!IsLand(card.card) ==> q.creatures == p.creatures + [card.(placedAt := now)])
      && (at < |p.exile| ==> multiset(q.exile) + multiset{card} == multiset(p.exile))
      && q == p.(exile := q.exile, lands := q.lands, creatures := q.creatures)
  {
    var first := Keep.(exile := Some(RemoveAt(p.exile, at)));
    MergeTwo(p, first, EnterBattlefield(p, card.(placedAt := now)));
    EnterBattlefieldOneRow(Merge(p, first), card.(placedAt := now));
    if at < |p.exile| {
      RemoveAtMultiset(p.exile, at, card);
    }
  }

  // ----- leaving the battlefield: destroy, exile, bounce -----

  /** Where a permanent was found: its row and its index there, which is also the slot of its instance id. */
  datatype Spot = OnCreatures(at: nat) | OnLands(at: nat) | Nowhere

  /** `findIndex(c => c.id === id && c.placedAt.getTime() === placedAt)`. */
  function FindPermanent(row: seq<Inst>, id: int, placedAt: nat): (r: Option<nat>)
    ensures r.Some? ==> r.value < |row| && row[r.value].card.id == id && row[r.value].placedAt == placedAt
    ensures r.Some? ==> forall j :: 0 <= j < r.value ==> !(row[j].card.id == id && row[j].placedAt == placedAt)
    ensures r.None? ==> forall j :: 0 <= j < |row| ==> !(row[j].card.id == id && row[j].placedAt == placedAt)
  {
    if row == [] then None
    else if row[0].card.id == id && row[0].placedAt == placedAt then Some(0)
    else match FindPermanent(row[1..], id, placedAt)
      case None => None
      case Some(k) => Some(k + 1)
  }

  /** destroyPermanent's search (834-844): the creature row first, then the land row. */
  function DestroySpot(p: PlayerState, card: Inst): Spot
  {
    match FindPermanent(p.creatures, card.card.id, card.placedAt)
    case Some(k) => OnCreatures(k)
    case None =>
      match FindPermanent(p.lands, card.card.id, card.placedAt)
      case Some(k) => OnLands(k)
      case None => Nowhere
  }

  /**
   * exilePermanent's and bouncePermanent's search (927-931, 1001-1003): the
   * object's own position, when it still names that object's row entry.
   */
  function ObjectSpot(p: PlayerState, spot: Spot): Spot
  {
    match spot
    case OnCreatures(k) => if k < |p.creatures| then spot else Nowhere
    case OnLands(k) => if k < |p.lands| then spot else Nowhere
    case Nowhere => Nowhere
  }

  /** The land's mana comes back out of the pool if its source is still available (862-872). */
  function PoolWithoutLand(ts: TurnState, id: InstId): ManaPool
  {
    match SourceAt(ts.manaSources, id)
    case Some(s) =>
      if s.available && Bucket(ts.manaPool, s.manaType) > 0
      then WithBucket(ts.manaPool, s.manaType, Bucket(ts.manaPool, s.manaType) - 1)
      else ts.manaPool
    case None => ts.manaPool
  }

  /**
   * The first write of destroy, exile and bounce: the permanent leaves its row,
   * and its tap mark, its mana source and any unspent mana it made go with it.
   */
  function LeavePatch(p: PlayerState, cardId: int, spot: Spot): Patch
  {
    var ts := p.turnState;
    match spot
    case OnCreatures(k) =>
      Keep.(creatures := Some(RemoveAt(p.creatures, k)), lands := Some(p.lands),
            tappedCreatures := Some(p.tappedCreatures - {InstId(cardId, k)}), turnState := Some(ts))
    case OnLands(k) =>
      var id := InstId(cardId, k);
      Keep.(creatures := Some(p.creatures), lands := Some(RemoveAt(p.lands, k)),
            tappedCreatures := Some(p.tappedCreatures),
            turnState := Some(ts.(tappedLands := Without(ts.tappedLands, id),
                                  manaSources := RemoveSource(ts.manaSources, id),
                                  manaPool := PoolWithoutLand(ts, id))))
    case Nowhere =>
      Keep.(creatures := Some(p.creatures), lands := Some(p.lands),
            tappedCreatures := Some(p.tappedCreatures), turnState := Some(ts))
  }

  /** A creature leaves its row and its tap mark; lands and mana are untouched. */
  lemma LeaveCreature(p: PlayerState, cardId: int, k: nat)
    requires k < |p.creatures|
    ensures var q := Merge(p, LeavePatch(p, cardId, OnCreatures(k)));
      && q.creatures == p.creatures[..k] + p.creatures[k + 1..]
      && q.tappedCreatures == p.tappedCreatures - {InstId(cardId, k)}
      && q == p.(creatures := q.creatures, tappedCreatures := q.tappedCreatures)
  {
  }

  /**
   * A land leaves its row, its tap mark and its source; if the source was
   * still available, one mana of its color leaves the pool (floored at 0).
   */
  lemma LeaveLand(p: PlayerState, cardId: int, k: nat)
    requires k < |p.lands|
    ensures var q := Merge(p, LeavePatch(p, cardId, OnLands(k)));
      var id := InstId(cardId, k);
      && q.lands == p.lands[..k] + p.lands[k + 1..]
      && id !in q.turnState.tappedLands
      && SourceAt(q.turnState.manaSources, id).None?
      && (forall s :: s in q.turnState.manaSources <==> s in p.turnState.manaSources && s.landId != id)
      && q == p.(lands := q.lands, turnState := p.turnState.(tappedLands := q.turnState.tappedLands,
                   manaSources := q.turnState.manaSources, manaPool := q.turnState.manaPool))
  {
    var id := InstId(cardId, k);
    var ts := p.turnState;
    assert Merge(p, LeavePatch(p, cardId, OnLands(k))) ==
      p.(lands := RemoveAt(p.lands, k),
         turnState := ts.(tappedLands := Without(ts.tappedLands, id), manaSources := RemoveSource(ts.manaSources, id),
                          manaPool := PoolWithoutLand(ts, id)));
  }

  /** If the land's source was still available, one mana of its color leaves the pool (floored at 0). */
  lemma LeaveLandMana(p: PlayerState, cardId: int, k: nat)
    requires k < |p.lands|
    ensures var q := Merge(p, LeavePatch(p, cardId, OnLands(k)));
      var id := InstId(cardId, k);
      Total(q.turnState.manaPool) == Total(p.turnState.manaPool) -
        (match SourceAt(p.turnState.manaSources, id)
         case Some(s) => if s.available && Bucket(p.turnState.manaPool, s.manaType) > 0 then 1 else 0
         case None => 0)
  {
    var ts := p.turnState;
    var id := InstId(cardId, k);
    assert Merge(p, LeavePatch(p, cardId, OnLands(k))).turnState.manaPool == PoolWithoutLand(ts, id);
    match SourceAt(ts.manaSources, id)
    case Some(s) =>
      if s.available && Bucket(ts.manaPool, s.manaType) > 0 {
        TotalWithBucket(ts.manaPool, s.manaType, Bucket(ts.manaPool, s.manaType) - 1);
      }
    case None =>
  }

  /** A stale reference removes nothing. */
  lemma LeaveNowhere(p: PlayerState, cardId: int)
    ensures Merge(p, LeavePatch(p, cardId, Nowhere)) == p
  {
  }

  /** The commander test: `card.id.toString() === player.deck?.commander_id`. */
  predicate IsPlayersCommander(p: PlayerState, c: Card)
  {
    p.deck.Some? && IsCommander(p.deck.value.commanderId, c)
  }

  /** The second write: a commander goes to the command zone and its tax goes up, anything else to `dest`. */
  function CommanderOr(p: PlayerState, card: Inst, dest: Patch): Patch
  {
    if IsPlayersCommander(p, card.card) then Keep.(commanderTax := Some(p.commanderTax + 1)) else dest
  }

  /** destroyPermanent (829-923). */
  function DestroyPermanentPatches(p: PlayerState, card: Inst): seq<Patch>
  {
    [LeavePatch(p, card.card.id, DestroySpot(p, card)),
     CommanderOr(p, card, Keep.(graveyard := Some(p.graveyard + [card])))]
  }

  /** exilePermanent (925-993). */
  function ExilePermanentPatches(p: PlayerState, card: Inst, spot: Spot): seq<Patch>
  {
    [LeavePatch(p, card.card.id, ObjectSpot(p, spot)),
     CommanderOr(p, card, Keep.(exile := Some(p.exile + [card])))]
  }

  /** bouncePermanent (995-1064): back to the FRONT of the hand. */
  function BouncePermanentPatches(p: PlayerState, card: Inst, spot: Spot): seq<Patch>
  {
    [LeavePatch(p, card.card.id, ObjectSpot(p, spot)),
     CommanderOr(p, card, Keep.(drawnCards := Some([card] + p.drawnCards)))]
  }

  /**
   * A permanent leaving the battlefield: the row cleanup, then either the
   * commander tax goes up by exactly one and no zone gains the card, or the
   * card arrives at its destination and the tax stays.
   */
  lemma LeavingSteps(p: PlayerState, card: Inst, spot: Spot, dest: Patch)
    ensures var left := Merge(p, LeavePatch(p, card.card.id, spot));
      var q := MergeAll(p, [LeavePatch(p, card.card.id, spot), CommanderOr(p, card, dest)]);
      && (IsPlayersCommander(p, card.card) ==> q == left.(commanderTax := p.commanderTax + 1))
      && (!IsPlayersCommander(p, card.card) ==> q == Merge(left, dest))
  {
    MergeTwo(p, LeavePatch(p, card.card.id, spot), CommanderOr(p, card, dest));
  }

  /** Destroying: a non-commander lands at the end of the graveyard; a commander only raises the tax. */
  lemma DestroyPermanentEffect(p: PlayerState, card: Inst)
    ensures var left := Merge(p, LeavePatch(p, card.card.id, DestroySpot(p, card)));
      var q := MergeAll(p, DestroyPermanentPatches(p, card));
      && (IsPlayersCommander(p, card.card) ==>
            q.commanderTax == p.commanderTax + 1 && q.graveyard == p.graveyard && q == left.(commanderTax := q.commanderTax))
      && (!IsPlayersCommander(p, card.card) ==>
            q.commanderTax == p.commanderTax && q.graveyard == p.graveyard + [card] && q == left.(graveyard := q.graveyard))
  {
    LeavingSteps(p, card, DestroySpot(p, card), Keep.(graveyard := Some(p.graveyard + [card])));
  }

  /** destroyPermanent finds the permanent by id and placement time, creatures before lands. */
  lemma DestroyFindsByIdAndTime(p: PlayerState, card: Inst)
    ensures match DestroySpot(p, card)
      case OnCreatures(k) => k < |p.creatures| && p.creatures[k].card.id == card.card.id && p.creatures[k].placedAt == card.placedAt
      case OnLands(k) =>
        k < |p.lands| && p.lands[k].card.id == card.card.id && p.lands[k].placedAt == card.placedAt
        && forall j :: 0 <= j < |p.creatures| ==> !(p.creatures[j].card.id == card.card.id && p.creatures[j].placedAt == card.placedAt)
      case Nowhere =>
        (forall j :: 0 <= j < |p.creatures| ==> !(p.creatures[j].card.id == card.card.id && p.creatures[j].placedAt == card.placedAt))
        && forall j :: 0 <= j < |p.lands| ==> !(p.lands[j].card.id == card.card.id && p.lands[j].placedAt == card.placedAt)
  {
  }

  /** Exiling: a non-commander lands at the end of exile; a commander only raises the tax. */
  lemma ExilePermanentEffect(p: PlayerState, card: Inst, spot: Spot)
    ensures var left := Merge(p, LeavePatch(p, card.card.id, ObjectSpot(p, spot)));
      var q := MergeAll(p, ExilePermanentPatches(p, card, spot));
      && (IsPlayersCommander(p, card.card) ==>
            q.commanderTax == p.commanderTax + 1 && q.exile == p.exile && q == left.(commanderTax := q.commanderTax))
      && (!IsPlayersCommander(p, card.card) ==>
            q.commanderTax == p.commanderTax && q.exile == p.exile + [card] && q == left.(exile := q.exile))
  {
    LeavingSteps(p, card, ObjectSpot(p, spot), Keep.(exile := Some(p.exile + [card])));
  }

  /** Bouncing: a non-commander goes to the front of the hand; a commander only raises the tax. */
  lemma BouncePermanentEffect(p: PlayerState, card: Inst, spot: Spot)
    ensures var left := Merge(p, LeavePatch(p, card.card.id, ObjectSpot(p, spot)));
      var q := MergeAll(p, BouncePermanentPatches(p, card, spot));
      && (IsPlayersCommander(p, card.card) ==>
            q.commanderTax == p.commanderTax + 1 && q.drawnCards == p.drawnCards && q == left.(commanderTax := q.commanderTax))
      && (!IsPlayersCommander(p, card.card) ==>
            q.commanderTax == p.commanderTax && q.drawnCards == [card] + p.drawnCards && q == left.(drawnCards := q.drawnCards))
  {
    LeavingSteps(p, card, ObjectSpot(p, spot), Keep.(drawnCards := Some([card] + p.drawnCards)));
  }

  /**
   * The battlefield loses exactly one permanent when the reference is live,
   * and none when it is stale.
   */
  lemma LeaveCount(p: PlayerState, cardId: int, spot: Spot)
    ensures var q := Merge(p, LeavePatch(p, cardId, spot));
      |q.creatures| + |q.lands| == |p.creatures| + |p.lands| - (if ObjectSpot(p, spot).Nowhere? then 0 else 1)
  {
  }

  // ----- tapping and untapping -----

  /** tapLand (1067-1101); `!land.id` returns early for the id 0. */
  function TapLandPatch(p: PlayerState, land: Card, index: nat): Patch
  {
    if land.id == 0 then Keep else Keep.(turnState := Some(TapLandTurn(p.turnState, land.id, land.name, index)))
  }

  /** untapLand (1103-1129). */
  function UntapLandPatch(p: PlayerState, land: Card, index: nat): Patch
  {
    if land.id == 0 then Keep
    else match UntapLandTurn(p.turnState, land.id, index)
      case None => Keep
      case Some(ts) => Keep.(turnState := Some(ts))
  }

  /** Tapping a land with a non-zero id adds one mana of its color and changes nothing but the turn state. */
  lemma TapLandEffect(p: PlayerState, land: Card, index: nat)
    ensures var q := Merge(p, TapLandPatch(p, land, index));
      && (land.id == 0 ==> q == p)
      && (land.id != 0 ==>
            Total(q.turnState.manaPool) == Total(p.turnState.manaPool) + 1
            && Bucket(q.turnState.manaPool, LandColor(land.name)) == Bucket(p.turnState.manaPool, LandColor(land.name)) + 1
            && q.turnState.tappedLands == p.turnState.tappedLands + [InstId(land.id, index)]
            && q == p.(turnState := q.turnState))
  {
    if land.id != 0 {
      TapLandAddsOne(p.turnState, land.id, land.name, index);
    }
  }

  /** A land whose mana was spent, or that has no source, cannot be untapped. */
  lemma UntapLandRefused(p: PlayerState, land: Card, index: nat)
    requires InstId(land.id, index) in p.turnState.landManaUsed || SourceAt(p.turnState.manaSources, InstId(land.id, index)).None?
    ensures Merge(p, UntapLandPatch(p, land, index)) == p
  {
    UntapLandRefusal(p.turnState, land.id, index);
  }

  /** Untapping a freshly tapped land, its mana unspent, gives the player back as it was. */
  lemma TapThenUntapLand(p: PlayerState, land: Card, index: nat)
    requires InstId(land.id, index) !in p.turnState.landManaUsed
    requires InstId(land.id, index) !in p.turnState.tappedLands
    requires SourceAt(p.turnState.manaSources, InstId(land.id, index)).None?
    ensures var q := Merge(p, TapLandPatch(p, land, index));
      Merge(q, UntapLandPatch(q, land, index)) == p
  {
    if land.id != 0 {
      UntapUndoesTap(p.turnState, land.id, land.name, index);
    }
  }

  /** tapCreature (1131-1139). */
  function TapCreaturePatch(p: PlayerState, creature: Inst, index: nat): Patch
  {
    Keep.(tappedCreatures := Some(p.tappedCreatures + {InstId(creature.card.id, index)}))
  }

  /** untapCreature (1141-1148). */
  function UntapCreaturePatch(p: PlayerState, creature: Inst, index: nat): Patch
  {
    Keep.(tappedCreatures := Some(p.tappedCreatures - {InstId(creature.card.id, index)}))
  }

  /**
   * Tapping marks exactly that instance, and untapping unmarks exactly it:
   * untapping after tapping an untapped creature restores the player.
   */
  lemma TapCreatureToggles(p: PlayerState, creature: Inst, index: nat)
    ensures var id := InstId(creature.card.id, index);
      var t := Merge(p, TapCreaturePatch(p, creature, index));
      var u := Merge(p, UntapCreaturePatch(p, creature, index));
      && (forall x :: x in t.tappedCreatures <==> x in p.tappedCreatures || x == id)
      && (forall x :: x in u.tappedCreatures <==> x in p.tappedCreatures && x != id)
      && t == p.(tappedCreatures := t.tappedCreatures) && u == p.(tappedCreatures := u.tappedCreatures)
      && (id !in p.tappedCreatures ==> Merge(t, UntapCreaturePatch(t, creature, index)) == p)
  {
    var id := InstId(creature.card.id, index);
    if id !in p.tappedCreatures {
      assert p.tappedCreatures + {id} - {id} == p.tappedCreatures;
    }
  }

  // ----- mana -----

  /** `card.cmc || 0`. */
  function ManaValue(c: Card): nat
  {
    OrElse(c.cmc, 0)
  }

  /** checkManaCost (501-509). */
  predicate CheckManaCost(p: PlayerState, card: Card)
  {
    CanPay(p.turnState.manaPool, ManaValue(card))
  }

  /** The turn state after a payment: the new pool and sources, the used lands appended. */
  function PaidTurn(ts: TurnState, paid: Payment): TurnState
  {
    ts.(manaPool := paid.pool, manaSources := paid.sources, landManaUsed := ts.landManaUsed + paid.landsUsed)
  }

  /** spendManaForCard (511-570). */
  function SpendManaForCardPatch(p: PlayerState, card: Card): Patch
  {
    Keep.(turnState := Some(PaidTurn(p.turnState, Pay(p.turnState.manaPool, p.turnState.manaSources, ManaValue(card)))))
  }

  /**
   * Spending for a card takes min(cost, pool) mana and exactly the cost when
   * checkManaCost approved it; the lands already used stay used.
   */
  lemma SpendManaForCardPays(p: PlayerState, card: Card)
    ensures var q := Merge(p, SpendManaForCardPatch(p, card));
      && Total(q.turnState.manaPool) == Total(p.turnState.manaPool) - Min(ManaValue(card), Total(p.turnState.manaPool))
      && (CheckManaCost(p, card) ==> Total(q.turnState.manaPool) == Total(p.turnState.manaPool) - ManaValue(card))
      && q.turnState.landManaUsed[..|p.turnState.landManaUsed|] == p.turnState.landManaUsed
      && q == p.(turnState := q.turnState)
  {
    PayTotal(p.turnState.manaPool, p.turnState.manaSources, ManaValue(card));
  }

  /** spendMana (2021-2034) for one of the six buckets. */
  function SpendManaPatch(p: PlayerState, c: Color): Patch
  {
    Keep.(turnState := Some(p.turnState.(manaPool := SpendOne(p.turnState.manaPool, c))))
  }

  /** Spending one mana takes one from a non-empty bucket and nothing from an empty one. */
  lemma SpendManaTakesOne(p: PlayerState, c: Color)
    ensures var q := Merge(p, SpendManaPatch(p, c));
      && Total(q.turnState.manaPool) == (if Bucket(p.turnState.manaPool, c) > 0 then Total(p.turnState.manaPool) - 1 else Total(p.turnState.manaPool))
      && q == p.(turnState := p.turnState.(manaPool := q.turnState.manaPool))
  {
    var b := Bucket(p.turnState.manaPool, c);
    TotalWithBucket(p.turnState.manaPool, c, if b > 0 then b - 1 else 0);
  }

  /** castCommander's total: the mana value plus two for each earlier cast (1312-1313). */
  function CommanderCost(p: PlayerState, card: Card): nat
  {
    ManaValue(card) + 2 * p.commanderTax
  }

  /** castCommander (1307-1394): refused when the pool is short, otherwise pay, raise the tax, put the card on the battlefield. */
  function CastCommanderPatches(p: PlayerState, card: Card, now: nat): seq<Patch>
  {
    var cost := CommanderCost(p, card);
    if Total(p.turnState.manaPool) < cost then []
    else
      var paid := Pay(p.turnState.manaPool, p.turnState.manaSources, cost);
      [Keep.(turnState := Some(PaidTurn(p.turnState, paid)), commanderTax := Some(p.commanderTax + 1)),
       EnterBattlefield(p, FromCard(card).(placedAt := now))]
  }

  /**
   * Casting the commander changes nothing when the pool holds less than
   * its cost; otherwise exactly the cost leaves the pool, the tax goes up by
   * one and the card enters the row its type picks.
   */
  lemma CastCommanderRefused(p: PlayerState, card: Card, now: nat)
    requires Total(p.turnState.manaPool) < CommanderCost(p, card)
    ensures MergeAll(p, CastCommanderPatches(p, card, now)) == p
  {
  }

  /** The player after castCommander's first write: the cost paid and the tax raised. */
  function CommanderPaid(p: PlayerState, card: Card): PlayerState
  {
    p.(turnState := PaidTurn(p.turnState, Pay(p.turnState.manaPool, p.turnState.manaSources, CommanderCost(p, card))),
       commanderTax := p.commanderTax + 1)
  }

  lemma CastCommanderSteps(p: PlayerState, card: Card, now: nat)
    requires Total(p.turnState.manaPool) >= CommanderCost(p, card)
    ensures var x := FromCard(card).(placedAt := now);
      MergeAll(p, CastCommanderPatches(p, card, now)) == Merge(CommanderPaid(p, card), EnterBattlefield(p, x))
  {
    var paid := Pay(p.turnState.manaPool, p.turnState.manaSources, CommanderCost(p, card));
    var x := FromCard(card).(placedAt := now);
    var first := Keep.(turnState := Some(PaidTurn(p.turnState, paid)), commanderTax := Some(p.commanderTax + 1));
    var mid := p.(turnState := PaidTurn(p.turnState, paid), commanderTax := p.commanderTax + 1);
    assert CastCommanderPatches(p, card, now) == [first, EnterBattlefield(p, x)] by {
      CastCommanderWrites(p, card, now);
    }
    assert mid == CommanderPaid(p, card);
    PaidThenPlaced(p, paid, x);
  }

  lemma CastCommanderWrites(p: PlayerState, card: Card, now: nat)
    requires Total(p.turnState.manaPool) >= CommanderCost(p, card)
    ensures var paid := Pay(p.turnState.manaPool, p.turnState.manaSources, CommanderCost(p, card));
      CastCommanderPatches(p, card, now) ==
        [Keep.(turnState := Some(PaidTurn(p.turnState, paid)), commanderTax := Some(p.commanderTax + 1)),
         EnterBattlefield(p, FromCard(card).(placedAt := now))]
  {
  }

  /** castCommander's two writes for a given payment, merged one after the other. */
  lemma PaidThenPlaced(p: PlayerState, paid: Payment, x: Inst)
    ensures MergeAll(p, [Keep.(turnState := Some(PaidTurn(p.turnState, paid)), commanderTax := Some(p.commanderTax + 1)),
                         EnterBattlefield(p, x)])
         == Merge(p.(turnState := PaidTurn(p.turnState, paid), commanderTax := p.commanderTax + 1), EnterBattlefield(p, x))
  {
    var first := Keep.(turnState := Some(PaidTurn(p.turnState, paid)), commanderTax := Some(p.commanderTax + 1));
    MergeTwo(p, first, EnterBattlefield(p, x));
  }

  /** A cast that goes ahead pays exactly its cost and raises the tax by one. */
  lemma CastCommanderPays(p: PlayerState, card: Card, now: nat)
    requires Total(p.turnState.manaPool) >= CommanderCost(p, card)
    ensures var q := MergeAll(p, CastCommanderPatches(p, card, now));
      && Total(q.turnState.manaPool) == Total(p.turnState.manaPool) - CommanderCost(p, card)
      && q.commanderTax == p.commanderTax + 1
      && q.turnState.landManaUsed ==
           p.turnState.landManaUsed + Pay(p.turnState.manaPool, p.turnState.manaSources, CommanderCost(p, card)).landsUsed
  {
    CastCommanderSteps(p, card, now);
    EnterBattlefieldOneRow(CommanderPaid(p, card), FromCard(card).(placedAt := now));
    PayCovered(p.turnState.manaPool, p.turnState.manaSources, CommanderCost(p, card));
  }

  /** ... and the commander enters the row its type picks; nothing else changes. */
  lemma CastCommanderPlaces(p: PlayerState, card: Card, now: nat)
    requires Total(p.turnState.manaPool) >= CommanderCost(p, card)
    ensures var q := MergeAll(p, CastCommanderPatches(p, card, now));
      && |q.lands| + |q.creatures| == |p.lands| + |p.creatures| + 1
      && (IsLand(card) ==> q.lands == p.lands + [FromCard(card).(placedAt := now)])
      && (!IsLand(card) ==> q.creatures == p.creatures + [FromCard(card).(placedAt := now)])
      && q == p.(turnState := q.turnState, commanderTax := q.commanderTax, lands := q.lands, creatures := q.creatures)
  {
    CastCommanderSteps(p, card, now);
    EnterBattlefieldOneRow(CommanderPaid(p, card), FromCard(card).(placedAt := now));
  }

  /** addExampleCardToHand (2770-2788): the plain card at the end of the hand. */
  function AddExampleCardPatch(p: PlayerState, card: Card): Patch
  {
    Keep.(drawnCards := Some(p.drawnCards + [FromCard(card)]))
  }

  lemma AddExampleCardAppends(p: PlayerState, card: Card)
    ensures var q := Merge(p, AddExampleCardPatch(p, card));
      && |q.drawnCards| == |p.drawnCards| + 1
      && q.drawnCards[..|p.drawnCards|] == p.drawnCards
      && q.drawnCards[|p.drawnCards|].card == card
      && q == p.(drawnCards := q.drawnCards)
  {
  }
}
