/**
 * The game context (frontend/src/contexts/DeckProvider.tsx) as one object:
 * the three pieces of React state (`players`, `activePlayerId`, `stack`,
 * 177-179) are its fields and every operation of the context is a method.
 *
 * Each method reads the state as it was when the call began, computes the
 * queued `updatePlayer` writes with the functions of the other modules and
 * commits them in order, which is what React does with the queued updaters
 * once the call returns. Clocks and random draws are parameters: `now` is
 * the `new Date()` of the call, `picks` and `roll` the `Math.random()`
 * results.
 */
module Engine {
  import opened Common
  import opened DeckTypes
  import opened Players
  import opened CardRules
  import opened CardEffects
  import opened Library
  import opened Zones
  import opened Turns
  import opened Combat
  import opened CombatSteps
  import opened CombatResolution
  import opened StackEffects

  /**
   * One player's patches committed: the list is the commit of those writes,
   * the player is its old self with the patches merged in order, and every
   * other id still finds the player it found before.
   */
  ghost predicate Applied(before: seq<PlayerState>, after: seq<PlayerState>, pid: string, p: PlayerState, us: seq<Patch>)
  {
    && after == Commit(before, WritesTo(pid, us))
    && GetPlayer(after, pid) == Some(MergeAll(p, us))
    && forall x :: x != pid ==> GetPlayer(after, x) == GetPlayer(before, x)
  }

  lemma ApplyEffect(ps: seq<PlayerState>, pid: string, p: PlayerState, us: seq<Patch>)
    requires GetPlayer(ps, pid) == Some(p)
    ensures Applied(ps, Commit(ps, WritesTo(pid, us)), pid, p, us)
  {
    CommitOwn(ps, pid, us);
    forall x | x != pid
      ensures GetPlayer(Commit(ps, WritesTo(pid, us)), x) == GetPlayer(ps, x)
    {
      CommitOther(ps, pid, us, x);
    }
  }

  class Game {
    var players: seq<PlayerState>
    var activePlayerId: string
    var stack: seq<StackItem>

    /** The mount effect (182-310): two fresh players, the first one active, an empty stack. */
    constructor()
      ensures players == DefaultPlayers && activePlayerId == "player1" && stack == []
    {
      players := DefaultPlayers;
      activePlayerId := "player1";
      stack := [];
    }

    /** Commits one present player's patches; the active id and the stack stay. */
    method Apply(pid: string, p: PlayerState, us: seq<Patch>)
      requires GetPlayer(players, pid) == Some(p)
      modifies this
      ensures Applied(old(players), players, pid, p, us)
      ensures activePlayerId == old(activePlayerId) && stack == old(stack)
    {
      ApplyEffect(players, pid, p, us);
      players := Commit(players, WritesTo(pid, us));
    }

    /** Commits writes to any players; the active id and the stack stay. */
    method ApplyWrites(ws: seq<Write>)
      modifies this
      ensures players == Commit(old(players), ws)
      ensures activePlayerId == old(activePlayerId) && stack == old(stack)
    {
      players := Commit(players, ws);
    }

    // ----- players (1911-1986) -----

    method SetActivePlayer(pid: string)
      modifies this
      ensures activePlayerId == pid && players == old(players) && stack == old(stack)
    {
      activePlayerId := pid;
    }

    method AddPlayer(pid: string, name: string)
      modifies this
      ensures players == Turns.AddPlayer(old(players), pid, name)
      ensures activePlayerId == old(activePlayerId) && stack == old(stack)
    {
      players := Turns.AddPlayer(players, pid, name);
    }

    method RemovePlayer(pid: string)
      modifies this
      ensures players == Turns.RemovePlayer(old(players), pid)
      ensures activePlayerId == ActiveAfterRemove(old(players), old(activePlayerId), pid)
      ensures stack == old(stack)
    {
      activePlayerId := ActiveAfterRemove(players, activePlayerId, pid);
      players := Turns.RemovePlayer(players, pid);
    }

    // ----- the library (573-714, 1395-1909, 2036-2110) -----

    /**
     * loadDeck once `api.getDeck` has answered with `fetched`. For a present
     * player, `enhanceCardsWithEffects` maps `enhanceCardWithEffects` over the
     * fetched cards, and each call first runs `initializeCardEffectsMap`, so
     * the table is built from `catalogue` before any card is enhanced; with
     * no cards it is never touched. A missing player returns before that.
     */
    method LoadDeck(pid: string, fetched: Deck, registry: EffectsRegistry, catalogue: seq<Card>, picks: seq<nat>)
      modifies this, registry
      ensures match GetPlayer(old(players), pid)
        case None => players == old(players) && registry.effectsMap == old(registry.effectsMap)
        case Some(p) =>
          && registry.effectsMap == (if fetched.cards != [] && old(registry.effectsMap) == map[]
                                     then BuildMap(catalogue) else old(registry.effectsMap))
          && Applied(old(players), players, pid, p, [LoadDeckPatch(fetched, registry.effectsMap, picks)])
      ensures activePlayerId == old(activePlayerId) && stack == old(stack)
    {
      match GetPlayer(players, pid) {
        case None =>
        case Some(p) =>
          if fetched.cards != [] {
            registry.Initialize(catalogue);
          }
          Apply(pid, p, [LoadDeckPatch(fetched, registry.effectsMap, picks)]);
      }
    }

    method DrawCard(pid: string)
      modifies this
      ensures match GetPlayer(old(players), pid)
        case None => players == old(players)
        case Some(p) => Applied(old(players), players, pid, p, DrawCardPatches(p))
      ensures activePlayerId == old(activePlayerId) && stack == old(stack)
    {
      match GetPlayer(players, pid) {
        case None =>
        case Some(p) => Apply(pid, p, DrawCardPatches(p));
      }
    }

    method DrawMultipleCards(pid: string, count: nat)
      modifies this
      ensures match GetPlayer(old(players), pid)
        case None => players == old(players)
        case Some(p) => Applied(old(players), players, pid, p, DrawMultiplePatches(p, count))
      ensures activePlayerId == old(activePlayerId) && stack == old(stack)
    {
      match GetPlayer(players, pid) {
        case None =>
        case Some(p) => Apply(pid, p, DrawMultiplePatches(p, count));
      }
    }

    method ShuffleDeck(pid: string, picks: seq<nat>)
      modifies this
      ensures match GetPlayer(old(players), pid)
        case None => players == old(players)
        case Some(p) => Applied(old(players), players, pid, p, ShuffleDeckPatches(p, picks))
      ensures activePlayerId == old(activePlayerId) && stack == old(stack)
    {
      match GetPlayer(players, pid) {
        case None =>
        case Some(p) => Apply(pid, p, ShuffleDeckPatches(p, picks));
      }
    }

    method Scry(pid: string, count: nat)
      modifies this
      ensures match GetPlayer(old(players), pid)
        case None => players == old(players)
        case Some(p) => Applied(old(players), players, pid, p, [ScryPatch(p, count)])
      ensures activePlayerId == old(activePlayerId) && stack == old(stack)
    {
      match GetPlayer(players, pid) {
        case None =>
        case Some(p) => Apply(pid, p, [ScryPatch(p, count)]);
      }
    }

    method SearchLibrary(pid: string, term: string)
      modifies this
      ensures match GetPlayer(old(players), pid)
        case None => players == old(players)
        case Some(p) => Applied(old(players), players, pid, p, [SearchPatch(p, term)])
      ensures activePlayerId == old(activePlayerId) && stack == old(stack)
    {
      match GetPlayer(players, pid) {
        case None =>
        case Some(p) => Apply(pid, p, [SearchPatch(p, term)]);
      }
    }

    method SelectCardFromSearch(pid: string, selected: Inst, action: SearchAction, now: nat)
      modifies this
      ensures match GetPlayer(old(players), pid)
        case None => players == old(players)
        case Some(p) => Applied(old(players), players, pid, p, [SelectFromSearchPatch(p, selected, action, now)])
      ensures activePlayerId == old(activePlayerId) && stack == old(stack)
    {
      match GetPlayer(players, pid) {
        case None =>
        case Some(p) => Apply(pid, p, [SelectFromSearchPatch(p, selected, action, now)]);
      }
    }

    /** handleScryDecision; every index names one of the cards on view. */
    method HandleScryDecision(pid: string, ordered: seq<nat>)
      requires match GetPlayer(players, pid)
        case None => true
        case Some(p) => forall i :: 0 <= i < |ordered| ==> ordered[i] < |p.scryCards|
      modifies this
      ensures match GetPlayer(old(players), pid)
        case None => players == old(players)
        case Some(p) => Applied(old(players), players, pid, p, [ScryDecisionPatch(p, ordered)])
      ensures activePlayerId == old(activePlayerId) && stack == old(stack)
    {
      match GetPlayer(players, pid) {
        case None =>
        case Some(p) => Apply(pid, p, [ScryDecisionPatch(p, ordered)]);
      }
    }

    method ShuffleFromGraveyard(pid: string, at: nat, card: Inst)
      modifies this
      ensures match GetPlayer(old(players), pid)
        case None => players == old(players)
        case Some(p) => Applied(old(players), players, pid, p, [ShuffleFromGraveyardPatch(p, at, card)])
      ensures activePlayerId == old(activePlayerId) && stack == old(stack)
    {
      match GetPlayer(players, pid) {
        case None =>
        case Some(p) => Apply(pid, p, [ShuffleFromGraveyardPatch(p, at, card)]);
      }
    }

    method ShuffleFromExile(pid: string, at: nat, card: Inst, roll: nat)
      modifies this
      ensures match GetPlayer(old(players), pid)
        case None => players == old(players)
        case Some(p) => Applied(old(players), players, pid, p, [ShuffleFromExilePatch(p, at, card, roll)])
      ensures activePlayerId == old(activePlayerId) && stack == old(stack)
    {
      match GetPlayer(players, pid) {
        case None =>
        case Some(p) => Apply(pid, p, [ShuffleFromExilePatch(p, at, card, roll)]);
      }
    }

    method ResetSimulation(pid: string, picks: seq<nat>)
      modifies this
      ensures match GetPlayer(old(players), pid)
        case None => players == old(players)
        case Some(p) => Applied(old(players), players, pid, p, [ResetPatch(p, picks)])
      ensures activePlayerId == old(activePlayerId) && stack == old(stack)
    {
      match GetPlayer(players, pid) {
        case None =>
        case Some(p) => Apply(pid, p, [ResetPatch(p, picks)]);
      }
    }

    // ----- moving cards between zones (797-1394, 2695-2788) -----

    method DiscardCard(pid: string, at: nat, card: Inst)
      modifies this
      ensures match GetPlayer(old(players), pid)
        case None => players == old(players)
        case Some(p) => Applied(old(players), players, pid, p, [DiscardPatch(p, at, card)])
      ensures activePlayerId == old(activePlayerId) && stack == old(stack)
    {
      match GetPlayer(players, pid) {
        case None =>
        case Some(p) => Apply(pid, p, [DiscardPatch(p, at, card)]);
      }
    }

    method ExileCard(pid: string, at: nat, card: Inst)
      modifies this
      ensures match GetPlayer(old(players), pid)
        case None => players == old(players)
        case Some(p) => Applied(old(players), players, pid, p, [ExileCardPatch(p, at, card)])
      ensures activePlayerId == old(activePlayerId) && stack == old(stack)
    {
      match GetPlayer(players, pid) {
        case None =>
        case Some(p) => Apply(pid, p, [ExileCardPatch(p, at, card)]);
      }
    }

    method DestroyPermanent(pid: string, card: Inst)
      modifies this
      ensures match GetPlayer(old(players), pid)
        case None => players == old(players)
        case Some(p) => Applied(old(players), players, pid, p, DestroyPermanentPatches(p, card))
      ensures activePlayerId == old(activePlayerId) && stack == old(stack)
    {
      match GetPlayer(players, pid) {
        case None =>
        case Some(p) => Apply(pid, p, DestroyPermanentPatches(p, card));
      }
    }

    /** exilePermanent; `spot` is where the caller's object sits in its row, if anywhere. */
    method ExilePermanent(pid: string, card: Inst, spot: Spot)
      modifies this
      ensures match GetPlayer(old(players), pid)
        case None => players == old(players)
        case Some(p) => Applied(old(players), players, pid, p, ExilePermanentPatches(p, card, spot))
      ensures activePlayerId == old(activePlayerId) && stack == old(stack)
    {
      match GetPlayer(players, pid) {
        case None =>
        case Some(p) => Apply(pid, p, ExilePermanentPatches(p, card, spot));
      }
    }

    method BouncePermanent(pid: string, card: Inst, spot: Spot)
      modifies this
      ensures match GetPlayer(old(players), pid)
        case None => players == old(players)
        case Some(p) => Applied(old(players), players, pid, p, BouncePermanentPatches(p, card, spot))
      ensures activePlayerId == old(activePlayerId) && stack == old(stack)
    {
      match GetPlayer(players, pid) {
        case None =>
        case Some(p) => Apply(pid, p, BouncePermanentPatches(p, card, spot));
      }
    }

    method ReturnFromGraveyard(pid: string, at: nat, card: Inst)
      modifies this
      ensures match GetPlayer(old(players), pid)
        case None => players == old(players)
        case Some(p) => Applied(old(players), players, pid, p, [ReturnFromGraveyardPatch(p, at, card)])
      ensures activePlayerId == old(activePlayerId) && stack == old(stack)
    {
      match GetPlayer(players, pid) {
        case None =>
        case Some(p) => Apply(pid, p, [ReturnFromGraveyardPatch(p, at, card)]);
      }
    }

    method ReturnFromGraveyardToBattlefield(pid: string, at: nat, card: Inst, now: nat)
      modifies this
      ensures match GetPlayer(old(players), pid)
        case None => players == old(players)
        case Some(p) => Applied(old(players), players, pid, p, [GraveyardToBattlefieldPatch(p, at, card, now)])
      ensures activePlayerId == old(activePlayerId) && stack == old(stack)
    {
      match GetPlayer(players, pid) {
        case None =>
        case Some(p) => Apply(pid, p, [GraveyardToBattlefieldPatch(p, at, card, now)]);
      }
    }

    method ReturnFromGraveyardToField(pid: string, at: nat, card: Inst, now: nat)
      modifies this
      ensures match GetPlayer(old(players), pid)
        case None => players == old(players)
        case Some(p) => Applied(old(players), players, pid, p, GraveyardToFieldPatches(p, at, card, now))
      ensures activePlayerId == old(activePlayerId) && stack == old(stack)
    {
      match GetPlayer(players, pid) {
        case None =>
        case Some(p) => Apply(pid, p, GraveyardToFieldPatches(p, at, card, now));
      }
    }

    method ReturnFromExile(pid: string, at: nat, card: Inst)
      modifies this
      ensures match GetPlayer(old(players), pid)
        case None => players == old(players)
        case Some(p) => Applied(old(players), players, pid, p, [ReturnFromExilePatch(p, at, card)])
      ensures activePlayerId == old(activePlayerId) && stack == old(stack)
    {
      match GetPlayer(players, pid) {
        case None =>
        case Some(p) => Apply(pid, p, [ReturnFromExilePatch(p, at, card)]);
      }
    }

    method MoveFromExileToGraveyard(pid: string, at: nat, card: Inst)
      modifies this
      ensures match GetPlayer(old(players), pid)
        case None => players == old(players)
        case Some(p) => Applied(old(players), players, pid, p, [ExileToGraveyardPatch(p, at, card)])
      ensures activePlayerId == old(activePlayerId) && stack == old(stack)
    {
      match GetPlayer(players, pid) {
        case None =>
        case Some(p) => Apply(pid, p, [ExileToGraveyardPatch(p, at, card)]);
      }
    }

    method ExileFromGraveyard(pid: string, at: nat, card: Inst)
      modifies this
      ensures match GetPlayer(old(players), pid)
        case None => players == old(players)
        case Some(p) => Applied(old(players), players, pid, p, [ExileFromGraveyardPatch(p, at, card)])
      ensures activePlayerId == old(activePlayerId) && stack == old(stack)
    {
      match GetPlayer(players, pid) {
        case None =>
        case Some(p) => Apply(pid, p, [ExileFromGraveyardPatch(p, at, card)]);
      }
    }

    method ReturnFromExileToField(pid: string, at: nat, card: Inst, now: nat)
      modifies this
      ensures match GetPlayer(old(players), pid)
        case None => players == old(players)
        case Some(p) => Applied(old(players), players, pid, p, ExileToFieldPatches(p, at, card, now))
      ensures activePlayerId == old(activePlayerId) && stack == old(stack)
    {
      match GetPlayer(players, pid) {
        case None =>
        case Some(p) => Apply(pid, p, ExileToFieldPatches(p, at, card, now));
      }
    }

    method CastCommander(pid: string, card: Card, now: nat)
      modifies this
      ensures match GetPlayer(old(players), pid)
        case None => players == old(players)
        case Some(p) => Applied(old(players), players, pid, p, CastCommanderPatches(p, card, now))
      ensures activePlayerId == old(activePlayerId) && stack == old(stack)
    {
      match GetPlayer(players, pid) {
        case None =>
        case Some(p) => Apply(pid, p, CastCommanderPatches(p, card, now));
      }
    }

    method AddExampleCardToHand(pid: string, card: Card)
      modifies this
      ensures match GetPlayer(old(players), pid)
        case None => players == old(players)
        case Some(p) => Applied(old(players), players, pid, p, [AddExampleCardPatch(p, card)])
      ensures activePlayerId == old(activePlayerId) && stack == old(stack)
    {
      match GetPlayer(players, pid) {
        case None =>
        case Some(p) => Apply(pid, p, [AddExampleCardPatch(p, card)]);
      }
    }

    // ----- tapping and mana (501-571, 1066-1306, 1655-1681, 2021-2034) -----

    method TapLand(pid: string, land: Card, index: nat)
      modifies this
      ensures match GetPlayer(old(players), pid)
        case None => players == old(players)
        case Some(p) => Applied(old(players), players, pid, p, [TapLandPatch(p, land, index)])
      ensures activePlayerId == old(activePlayerId) && stack == old(stack)
    {
      match GetPlayer(players, pid) {
        case None =>
        case Some(p) => Apply(pid, p, [TapLandPatch(p, land, index)]);
      }
    }

    method UntapLand(pid: string, land: Card, index: nat)
      modifies this
      ensures match GetPlayer(old(players), pid)
        case None => players == old(players)
        case Some(p) => Applied(old(players), players, pid, p, [UntapLandPatch(p, land, index)])
      ensures activePlayerId == old(activePlayerId) && stack == old(stack)
    {
      match GetPlayer(players, pid) {
        case None =>
        case Some(p) => Apply(pid, p, [UntapLandPatch(p, land, index)]);
      }
    }

    method TapCreature(pid: string, creature: Inst, index: nat)
      modifies this
      ensures match GetPlayer(old(players), pid)
        case None => players == old(players)
        case Some(p) => Applied(old(players), players, pid, p, [TapCreaturePatch(p, creature, index)])
      ensures activePlayerId == old(activePlayerId) && stack == old(stack)
    {
      match GetPlayer(players, pid) {
        case None =>
        case Some(p) => Apply(pid, p, [TapCreaturePatch(p, creature, index)]);
      }
    }

    method UntapCreature(pid: string, creature: Inst, index: nat)
      modifies this
      ensures match GetPlayer(old(players), pid)
        case None => players == old(players)
        case Some(p) => Applied(old(players), players, pid, p, [UntapCreaturePatch(p, creature, index)])
      ensures activePlayerId == old(activePlayerId) && stack == old(stack)
    {
      match GetPlayer(players, pid) {
        case None =>
        case Some(p) => Apply(pid, p, [UntapCreaturePatch(p, creature, index)]);
      }
    }

    method UntapAllPermanents(pid: string)
      modifies this
      ensures match GetPlayer(old(players), pid)
        case None => players == old(players)
        case Some(p) => Applied(old(players), players, pid, p, [UntapAllPatch(p)])
      ensures activePlayerId == old(activePlayerId) && stack == old(stack)
    {
      match GetPlayer(players, pid) {
        case None =>
        case Some(p) => Apply(pid, p, [UntapAllPatch(p)]);
      }
    }

    method SpendManaForCard(pid: string, card: Card)
      modifies this
      ensures match GetPlayer(old(players), pid)
        case None => players == old(players)
        case Some(p) => Applied(old(players), players, pid, p, [SpendManaForCardPatch(p, card)])
      ensures activePlayerId == old(activePlayerId) && stack == old(stack)
    {
      match GetPlayer(players, pid) {
        case None =>
        case Some(p) => Apply(pid, p, [SpendManaForCardPatch(p, card)]);
      }
    }

    method SpendMana(pid: string, c: Color)
      modifies this
      ensures match GetPlayer(old(players), pid)
        case None => players == old(players)
        case Some(p) => Applied(old(players), players, pid, p, [SpendManaPatch(p, c)])
      ensures activePlayerId == old(activePlayerId) && stack == old(stack)
    {
      match GetPlayer(players, pid) {
        case None =>
        case Some(p) => Apply(pid, p, [SpendManaPatch(p, c)]);
      }
    }

    // ----- turns and view flags (1615-1756, 1988-2019, 2112-2128) -----

    method ChangePhase(pid: string, phase: Phase)
      modifies this
      ensures match GetPlayer(old(players), pid)
        case None => players == old(players)
        case Some(p) => Applied(old(players), players, pid, p, [ChangePhasePatch(p, phase)])
      ensures activePlayerId == old(activePlayerId) && stack == old(stack)
    {
      match GetPlayer(players, pid) {
        case None =>
        case Some(p) => Apply(pid, p, [ChangePhasePatch(p, phase)]);
      }
    }

    /** nextTurn: the writes to every player, then the active id handed on. */
    method NextTurn(pid: string)
      modifies this
      ensures players == Commit(old(players), NextTurnWrites(old(players), pid))
      ensures activePlayerId == ActiveAfterNextTurn(old(players), old(activePlayerId), pid)
      ensures stack == old(stack)
    {
      activePlayerId := ActiveAfterNextTurn(players, activePlayerId, pid);
      players := Commit(players, NextTurnWrites(players, pid));
    }

    method UpdateMaxHandSize(pid: string, newSize: int)
      modifies this
      ensures match GetPlayer(old(players), pid)
        case None => players == old(players)
        case Some(p) => Applied(old(players), players, pid, p, [UpdateMaxHandSizePatch(p, newSize)])
      ensures activePlayerId == old(activePlayerId) && stack == old(stack)
    {
      match GetPlayer(players, pid) {
        case None =>
        case Some(p) => Apply(pid, p, [UpdateMaxHandSizePatch(p, newSize)]);
      }
    }

    method ToggleShowDeckActions(pid: string)
      modifies this
      ensures match GetPlayer(old(players), pid)
        case None => players == old(players)
        case Some(p) => Applied(old(players), players, pid, p, [ToggleShowDeckActionsPatch(p)])
      ensures activePlayerId == old(activePlayerId) && stack == old(stack)
    {
      match GetPlayer(players, pid) {
        case None =>
        case Some(p) => Apply(pid, p, [ToggleShowDeckActionsPatch(p)]);
      }
    }

    method ToggleSearch(pid: string)
      modifies this
      ensures match GetPlayer(old(players), pid)
        case None => players == old(players)
        case Some(p) => Applied(old(players), players, pid, p, [ToggleSearchPatch(p)])
      ensures activePlayerId == old(activePlayerId) && stack == old(stack)
    {
      match GetPlayer(players, pid) {
        case None =>
        case Some(p) => Apply(pid, p, [ToggleSearchPatch(p)]);
      }
    }

    /** closeScry writes without looking the player up first. */
    method CloseScry(pid: string)
      modifies this
      ensures players == Commit(old(players), [Write(pid, CloseScryPatch())])
      ensures activePlayerId == old(activePlayerId) && stack == old(stack)
    {
      ApplyWrites([Write(pid, CloseScryPatch())]);
    }

    method CloseSearch(pid: string)
      modifies this
      ensures players == Commit(old(players), [Write(pid, CloseSearchPatch())])
      ensures activePlayerId == old(activePlayerId) && stack == old(stack)
    {
      ApplyWrites([Write(pid, CloseSearchPatch())]);
    }

    // ----- combat (320-499, 2128-2364) -----

    method DealDamageToCreature(pid: string, creature: Inst, damage: int)
      modifies this
      ensures match GetPlayer(old(players), pid)
        case None => players == old(players)
        case Some(p) => Applied(old(players), players, pid, p, [DealDamagePatch(p, creature, damage, None)])
      ensures activePlayerId == old(activePlayerId) && stack == old(stack)
    {
      match GetPlayer(players, pid) {
        case None =>
        case Some(p) => Apply(pid, p, [DealDamagePatch(p, creature, damage, None)]);
      }
    }

    method ClearDamageFromCreatures(pid: string)
      modifies this
      ensures match GetPlayer(old(players), pid)
        case None => players == old(players)
        case Some(p) => Applied(old(players), players, pid, p, [ClearDamageFor(old(players), pid)])
      ensures activePlayerId == old(activePlayerId) && stack == old(stack)
    {
      match GetPlayer(players, pid) {
        case None =>
        case Some(p) => Apply(pid, p, [ClearDamageFor(players, pid)]);
      }
    }

    method ClearCombatState(pid: string)
      modifies this
      ensures match GetPlayer(old(players), pid)
        case None => players == old(players)
        case Some(p) => Applied(old(players), players, pid, p, [ClearCombatPatch(p)])
      ensures activePlayerId == old(activePlayerId) && stack == old(stack)
    {
      match GetPlayer(players, pid) {
        case None =>
        case Some(p) => Apply(pid, p, [ClearCombatPatch(p)]);
      }
    }

    method AdvanceCombatStep(pid: string)
      modifies this
      ensures players == Commit(old(players), AdvanceCombatStepWrites(old(players), pid))
      ensures activePlayerId == old(activePlayerId) && stack == old(stack)
    {
      ApplyWrites(AdvanceCombatStepWrites(players, pid));
    }

    /** resolveCombatDamage(playerId, isFirstStrike = false). */
    method ResolveCombatDamage(pid: string, firstStrike: bool)
      modifies this
      ensures players == Commit(old(players), ResolveCombatDamageWrites(old(players), pid, firstStrike))
      ensures activePlayerId == old(activePlayerId) && stack == old(stack)
    {
      ApplyWrites(ResolveCombatDamageWrites(players, pid, firstStrike));
    }

    method DeclareAttacker(pid: string, idx: int)
      modifies this
      ensures match GetPlayer(old(players), pid)
        case None => players == old(players)
        case Some(p) => Applied(old(players), players, pid, p, DeclareAttackerPatches(p, old(activePlayerId), idx))
      ensures activePlayerId == old(activePlayerId) && stack == old(stack)
    {
      match GetPlayer(players, pid) {
        case None =>
        case Some(p) => Apply(pid, p, DeclareAttackerPatches(p, activePlayerId, idx));
      }
    }

    /** declareBlocker: needs the defender, the attacker and the active player; only the defender is written. */
    method DeclareBlocker(defId: string, attId: string, attackerIndex: int, idx: int)
      modifies this
      ensures match (GetPlayer(old(players), defId), GetPlayer(old(players), attId), GetPlayer(old(players), old(activePlayerId)))
        case (Some(d), Some(a), Some(act)) => Applied(old(players), players, defId, d, DeclareBlockerPatches(d, a, act, attackerIndex, idx))
        case _ => players == old(players)
      ensures activePlayerId == old(activePlayerId) && stack == old(stack)
    {
      match (GetPlayer(players, defId), GetPlayer(players, attId), GetPlayer(players, activePlayerId)) {
        case (Some(d), Some(a), Some(act)) => Apply(defId, d, DeclareBlockerPatches(d, a, act, attackerIndex, idx));
        case _ =>
      }
    }

    method ResolveCombat(attId: string, defId: string)
      modifies this
      ensures players == Commit(old(players), ResolveCombatWrites(old(players), old(activePlayerId), attId, defId))
      ensures activePlayerId == old(activePlayerId) && stack == old(stack)
    {
      ApplyWrites(ResolveCombatWrites(players, activePlayerId, attId, defId));
    }

    // ----- playing cards, the stack and targeting (716-795, 2366-2925) -----

    method PlayCard(pid: string, card: Inst, now: nat)
      modifies this
      ensures players == Commit(old(players), PlayCardWrites(old(players), old(activePlayerId), old(stack), pid, card, now))
      ensures stack == PlayCardStack(old(players), old(activePlayerId), old(stack), pid, card)
      ensures activePlayerId == old(activePlayerId)
    {
      var ws := PlayCardWrites(players, activePlayerId, stack, pid, card, now);
      stack := PlayCardStack(players, activePlayerId, stack, pid, card);
      players := Commit(players, ws);
    }

    method AddToStack(item: StackItem)
      modifies this
      ensures stack == old(stack) + [item]
      ensures players == old(players) && activePlayerId == old(activePlayerId)
    {
      stack := stack + [item];
    }

    /** resolveTopOfStack: the top item's writes, and the top taken off. */
    method ResolveTopOfStack(now: nat)
      modifies this
      ensures players == Commit(old(players), ResolveTopWrites(old(players), old(stack), now))
      ensures stack == Pop(old(stack))
      ensures activePlayerId == old(activePlayerId)
    {
      players := Commit(players, ResolveTopWrites(players, stack, now));
      stack := Pop(stack);
    }

    method PassPriority(now: nat)
      modifies this
      ensures players == Commit(old(players), PassPriorityWrites(old(players), old(stack), now))
      ensures stack == Pop(old(stack))
      ensures activePlayerId == old(activePlayerId)
    {
      if |stack| > 0 {
        ResolveTopOfStack(now);
      }
    }

    method StartTargeting(card: Inst, tt: Option<TargetType>, required: int)
      modifies this
      ensures players == Commit(old(players), StartTargetingWrites(old(players), old(activePlayerId), card, tt, required))
      ensures activePlayerId == old(activePlayerId) && stack == old(stack)
    {
      ApplyWrites(StartTargetingWrites(players, activePlayerId, card, tt, required));
    }

    method SelectTarget(t: TargetId)
      modifies this
      ensures players == Commit(old(players), SelectTargetWrites(old(players), old(activePlayerId), t))
      ensures activePlayerId == old(activePlayerId) && stack == old(stack)
    {
      ApplyWrites(SelectTargetWrites(players, activePlayerId, t));
    }

    method CancelTargeting()
      modifies this
      ensures players == Commit(old(players), CancelTargetingWrites(old(players), old(activePlayerId)))
      ensures activePlayerId == old(activePlayerId) && stack == old(stack)
    {
      ApplyWrites(CancelTargetingWrites(players, activePlayerId));
    }

    method ConfirmTargeting()
      modifies this
      ensures players == Commit(old(players), ConfirmTargetingWrites(old(players), old(activePlayerId)))
      ensures stack == ConfirmTargetingStack(old(players), old(activePlayerId), old(stack))
      ensures activePlayerId == old(activePlayerId)
    {
      stack := ConfirmTargetingStack(players, activePlayerId, stack);
      players := Commit(players, ConfirmTargetingWrites(players, activePlayerId));
    }

    method ActivateAbility(pid: string, card: Inst, ab: ActivatedAbility)
      modifies this
      ensures players == Commit(old(players), ActivateAbilityWrites(old(players), old(activePlayerId), pid, card, ab))
      ensures stack == ActivateAbilityStack(old(players), old(activePlayerId), pid, card, ab, old(stack))
      ensures activePlayerId == old(activePlayerId)
    {
      stack := ActivateAbilityStack(players, activePlayerId, pid, card, ab, stack);
      players := Commit(players, ActivateAbilityWrites(players, activePlayerId, pid, card, ab));
    }
  }
}
