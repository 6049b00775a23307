# MTG_Game engine, modelled in Dafny

This project models the in-memory game engine of MTG_Game, a browser simulator for
Commander games of Magic: The Gathering, together with the small pure parsers and rules
around it and the deck and effects logic of its Python back end. It follows the code rather
than the Comprehensive Rules: where the engine departs from the game's rules (or from what
its authors evidently meant), the model does the same, and a lemma shows the departure.

## How the engine is modelled

- **State.** `frontend/src/contexts/DeckProvider.tsx` keeps three pieces of React state: the
  list of `PlayerState` records, the active player's id and the shared stack (177-179). These
  are the fields `players`, `activePlayerId` and `stack` of the class `Engine.Game`. Each of
  the provider's operations is a method of that class.
- **Snapshot writes.** An operation reads one snapshot of the state and queues partial
  `updatePlayer` records computed from it (313-319). The model represents a queued write as a
  `Players.Write(pid, patch)`. `Players.Commit` applies the queue in order, merging each patch
  into the player it names. Every Game method states its new `players` as the commit of
  exactly the writes its source operation queues. Lemmas describe those writes for one player
  at a time (`Players.MergeAll`). Because every write comes from the same snapshot, a later
  write to a field overwrites an earlier one. The lemmas listed under "Behaviour the model
  exposes" show where this differs from running the updates one after the other.
- **Values.**
  - Cards, permanents, zones, phases, steps, effects, abilities and the six-bucket mana pool
    are datatypes (`DeckTypes`, from `frontend/src/types/deck.ts`).
  - Numbers are unbounded integers. `parseInt(x) || 0` is written out (`JsText`).
  - The card-kind tests and `hasKeyword` are substring tests on the type line and the rules
    text (`CardRules`).
  - Instance ids `${id}-${index}` are the pair (card id, index). Target ids
    `${id}-${placedAt}` are the pair (card id, placement time).
- **Randomness and timers.**
  - The random draws of `shuffleArray` and `shuffleFromExile` are parameters: a sequence of
    rolls, and an insert position.
  - The animation timers of `drawCard`, `drawMultipleCards` and `shuffleDeck` are modelled
    as the synchronous commit of what they eventually write.
  - Clock readings (`Date.now()`, `datetime.now()`) are parameters.
- **Modules.** They follow the source:
  - `Library`, `Zones`, `Mana`, `Turns`, `CombatSteps`, `Combat`, `CombatResolution`,
    `StackEffects` and `Engine` come from `DeckProvider.tsx`.
  - `CardEffects` comes from `frontend/src/utils/cardEffects.ts`. Its module-level map is the
    class `CardEffects.EffectsRegistry`, filled once.
  - `DeckUpload`, `MtgApi`, `PhaseSystem` and `ScryModal` come from the components and
    services of the same names.
  - `AiEffects` comes from `backend/ai_effects_generator.py`.
  - `DeckStore` comes from `backend/app.py`. Its deck file is a map from ids to decoded JSON
    (`PyJson`).
  - `Common`, `JsText` and `PyJson` hold the JavaScript and Python built-ins the core uses.
- **Loops.** Where the source runs a loop, the model is a method with that loop, proved
  against a reference function. Examples are the colour-payment loop, the shuffle swap loop,
  the deck expansion, the splice loops of `handleScryDecision`, the `parseDeckList` line
  loop, the `regex.exec` loop of `getManaSymbols`, and the append loops of the Python back
  end. The reference function's properties are then proved as lemmas.

## Behaviour the model exposes

Each item is a lemma in the table below. Nothing was executed: these follow from the code.

- `nextTurn` rewrites the next player's creatures from the snapshot. The damage it has just
  cleared is therefore kept for that player (`Turns.Refreshed`, `Turns.StartedPlayer`).
- `resolveCombatDamage` bases every unblocked attacker's life write on the same snapshot.
  The defender loses only the last attacker's power (`Combat.ResolveUnblockedLastWins`).
- In `resolveCombat`, two blockers destroyed by one attacker each start from the defender's
  snapshot. Only the second blocker reaches the graveyard; the first one's move is lost
  (`CombatResolution.ResolveCombatLosesFirstDestroyed`).
- A land's `T` mana ability adds mana, but its mana write replaces the tapped-lands write,
  so the land can be used again (`StackEffects.LandManaAbilityRepeats`). Two pool writes
  from one read keep only the second (`StackEffects.CommitTwoPools`).
- `advanceCombatStep` overwrites any turn-state write of the damage pass with the snapshot's
  turn state plus the new step (`CombatSteps.AdvanceCombatStepTurnState`).
- `checkForFirstStrike` ignores double strike, so a double striker's first-strike damage is
  lost (`CombatSteps.DoubleStrikerSkipsFirstStep`). A plain attacker blocked only by a first
  striker exchanges no damage in either pass (`CombatSteps.PlainAttackerMeetsFirstStriker`,
  `Combat.FirstStrikerMeetsPlainBlockers`).
- A creature without vigilance is tapped when it is declared as an attacker, so it can never
  be withdrawn (`CombatSteps.AttackerWithoutVigilanceStays`).
- `loadDeck` sets the cursor to 7 even for a shorter library (`Library.LoadDeckShortLibrary`).
  A card shuffled in from exile then lands where no draw reaches it
  (`Library.ShuffleFromExileShortLibrary`).
- The `toHand` and `toBattlefield` cases of `selectCardFromSearch` leave the chosen card in
  the library (`Library.SelectFromSearchCopies`).
- `isLegendaryCreature` and the upload check both match `Legendary` and `Creature` case-sensitively, so a
  type line written in lower case is never a legendary creature (`MtgApi.LegendaryCreatureCapitals`,
  `DeckStore.LegendaryCreatureTypeAgrees`).
- When the AI call fails for a creature whose `colors` is `None`, the fallback raises inside the
  `except` handler, and the exception ends `generate_card_effects` and the whole batch
  (`AiEffects.NullColorsRaise`, `AiEffects.EnhanceAllRaises`).
- `_analyze_text_response` looks for keywords by their table spelling. A keyword written with
  an underscore is found only in a text that has one
  (`AiEffects.UnderscoreKeywordNeedsUnderscore`).

## Model

| member | source | states |
|---|---|---|
| DeckTypes.WithBucket | frontend/src/types/deck.ts:218-225 | setting one colour of the mana pool gives that colour the new amount and leaves the other five as they were |
| DeckTypes.TotalWithBucket | frontend/src/contexts/DeckProvider.tsx:506 | the pool total (`Object.values(manaPool).reduce(+)`) changes by exactly the difference in the bucket that was set |
| DeckTypes.PoolExtensional | frontend/src/types/deck.ts:218-225 | a mana pool is determined by its six colour amounts |
| CardRules.HasKeywordIgnoresCase | frontend/src/contexts/DeckProvider.tsx:359-362 | the keyword being asked for is compared without regard to case |
| CardRules.ListedKeywordFound | frontend/src/contexts/DeckProvider.tsx:359-362 | a keyword on the card's list that equals the one asked for, up to case, is found |
| CardRules.TextMentionFound | frontend/src/contexts/DeckProvider.tsx:359-362 | a keyword that appears anywhere in the lower-cased rules text is found, even when it is not on the list |
| CardRules.UntypedCardHasNoKind | frontend/src/contexts/DeckProvider.tsx:330-356 | a card without a type line is not a permanent, an instant or a sorcery, because `card.type?.…` falls back to `false` |
| CardRules.SummoningSickness | frontend/src/contexts/DeckProvider.tsx:401-407 | haste rules out summoning sickness; without haste, a creature is sick exactly when it entered this turn |
| CardRules.ToughnessOfNumeral | frontend/src/contexts/DeckProvider.tsx:410-413 | a toughness written as a decimal numeral counts as that number |
| CardRules.PowerOfNumeral | frontend/src/contexts/DeckProvider.tsx:415-418 | a power written as a decimal numeral counts as that number |
| CardRules.MissingPowerIsZero | frontend/src/contexts/DeckProvider.tsx:410-418 | a missing power or toughness counts as 0 (`parseInt(x \|\| '0') \|\| 0`) |
| Players.Find | frontend/src/contexts/DeckProvider.tsx:313-315 | `players.find` gives the first index whose player has the id, or none when no player has it |
| Players.Merge | frontend/src/contexts/DeckProvider.tsx:317-319 | `{ ...p, ...updates }` never changes the player's id or name, since no patch carries them |
| Players.Update | frontend/src/contexts/DeckProvider.tsx:317-319 | `updatePlayer`: the length stays the same, every player with the id gets the patch merged in, and every other player is unchanged |
| Players.RemoveAt | frontend/src/contexts/DeckProvider.tsx:799-812 | filtering out the card object at a live position removes exactly that element; a stale position removes nothing |
| Players.GetUpdated | frontend/src/contexts/DeckProvider.tsx:313-319 | after `updatePlayer`, `getPlayer` finds the old player with the patch merged in |
| Players.FindFirst | frontend/src/contexts/DeckProvider.tsx:313-315 | the first index holding the id is the one `find` reports |
| Players.GetUpdatedOther | frontend/src/contexts/DeckProvider.tsx:313-319 | `updatePlayer` of one id leaves what `getPlayer` finds for every other id unchanged |
| Players.UpdateMissing | frontend/src/contexts/DeckProvider.tsx:317-319 | `updatePlayer` of an id no player has changes nothing |
| Players.Commit | frontend/src/contexts/DeckProvider.tsx:317-319 | applying the queued `setPlayers` updaters in order never changes the number of players |
| Players.MergeAll | frontend/src/contexts/DeckProvider.tsx:317-319 | merging patches one after another keeps the player's id |
| Players.CommitGet | frontend/src/contexts/DeckProvider.tsx:313-319 | after a commit, `getPlayer` finds the old player with the patches written to it merged in queue order, and an absent player stays absent |
| Players.PatchesForAppend | frontend/src/contexts/DeckProvider.tsx:317-319 | the patches a player receives from two queues run one after the other are its patches from each queue, in order |
| Players.MergeAllAppend | frontend/src/contexts/DeckProvider.tsx:317-319 | merging two lists of patches in a row is merging their concatenation |
| Players.CommitUntouched | frontend/src/contexts/DeckProvider.tsx:317-319 | a player that no write targets is unchanged by the commit |
| Players.WritesTo | frontend/src/contexts/DeckProvider.tsx:317-319 | one `updatePlayer(pid, u)` call for each patch, in order |
| Players.PatchesForWritesTo | frontend/src/contexts/DeckProvider.tsx:317-319 | the writes to one player carry all of its patches and nothing for any other player |
| Players.CommitOwn | frontend/src/contexts/DeckProvider.tsx:313-319 | after one player's writes are committed, that player is its old self with every patch merged in order |
| Players.CommitOther | frontend/src/contexts/DeckProvider.tsx:313-319 | one player's writes leave every other player as it was |
| Players.CommitSnoc | frontend/src/contexts/DeckProvider.tsx:317-319 | the write queued last is applied last, on top of everything queued before it |
| Zones.RemoveAtMultiset | frontend/src/contexts/DeckProvider.tsx:799-812 | taking the card object out of its zone removes exactly one copy of it |
| Zones.DiscardMovesToGraveyard | frontend/src/contexts/DeckProvider.tsx:799-812 | `discardCard`: the card goes to the end of the graveyard and leaves the hand, so hand plus graveyard is a permutation of what it was; a stale hand reference leaves the hand alone; no other field changes |
| Zones.ExileCardMovesToExile | frontend/src/contexts/DeckProvider.tsx:814-828 | `exileCard`: the card goes to the end of exile and leaves the hand, with the same permutation, stale-reference and frame facts |
| Zones.ReturnFromGraveyardToHand | frontend/src/contexts/DeckProvider.tsx:1152-1165 | `returnFromGraveyard`: the card goes to the front of the hand and leaves the graveyard; the cards are permuted between the two zones and nothing else changes |
| Zones.GraveyardToBattlefieldPlaces | frontend/src/contexts/DeckProvider.tsx:1167-1180 | `returnFromGraveyardToBattlefield`: the card joins the creatures row with a new placement time, whatever its type, and one copy leaves the graveyard |
| Zones.EnterBattlefieldOneRow | frontend/src/contexts/DeckProvider.tsx:1182-1204 | a card entering the battlefield goes to the end of the lands row when its type line says land, and to the end of the creatures row otherwise; the other row stays as it was |
| Zones.GraveyardToFieldPlaces | frontend/src/contexts/DeckProvider.tsx:1182-1204 | `returnFromGraveyardToField`: the battlefield gains exactly one permanent, in the row its type picks, with a new placement time, and one copy leaves the graveyard |
| Zones.ReturnFromExileToHand | frontend/src/contexts/DeckProvider.tsx:1206-1219 | `returnFromExile`: the card goes to the end of the hand and leaves exile, as a permutation of the two zones |
| Zones.ExileToGraveyardMoves | frontend/src/contexts/DeckProvider.tsx:1221-1234 | `moveFromExileToGraveyard`: the card goes to the end of the graveyard and leaves exile |
| Zones.ExileFromGraveyardMoves | frontend/src/contexts/DeckProvider.tsx:1236-1244 | `exileFromGraveyard`: the card goes to the end of exile and leaves the graveyard |
| Zones.ExileRoundTrip | frontend/src/contexts/DeckProvider.tsx:1221-1244 | moving the last exiled card to the graveyard and exiling it again gives back the player exactly as it was |
| Zones.ExileToFieldPlaces | frontend/src/contexts/DeckProvider.tsx:1283-1306 | `returnFromExileToField`: the battlefield gains one permanent, in the row its type picks, and one copy leaves exile |
| Zones.FindPermanent | frontend/src/contexts/DeckProvider.tsx:835-837 | `findIndex` by card id and placement time returns the first match, or none when no permanent matches |
| Zones.LeaveCreature | frontend/src/contexts/DeckProvider.tsx:848-904 | a creature leaving the battlefield is removed from its row and its tap mark, and nothing else changes |
| Zones.LeaveLand | frontend/src/contexts/DeckProvider.tsx:859-904 | a land leaving the battlefield is removed from its row, its tap mark and its mana source, and only those change |
| Zones.LeaveLandMana | frontend/src/contexts/DeckProvider.tsx:866-877 | when the land's mana source was still available, one mana of its colour leaves the pool, floored at 0; otherwise the pool stays |
| Zones.LeaveNowhere | frontend/src/contexts/DeckProvider.tsx:835-904 | a reference to a permanent that is no longer on the battlefield removes nothing |
| Zones.LeavingSteps | frontend/src/contexts/DeckProvider.tsx:906-923 | after the row clean-up, the player's own commander only raises the commander tax by one, while any other card arrives at its destination and the tax stays |
| Zones.DestroyPermanentEffect | frontend/src/contexts/DeckProvider.tsx:830-924 | `destroyPermanent`: a non-commander lands at the end of the graveyard; the commander raises the tax and no zone gains it |
| Zones.DestroyFindsByIdAndTime | frontend/src/contexts/DeckProvider.tsx:835-837 | the permanent destroyed is the first creature with that id and placement time, else the first such land, else nothing |
| Zones.ExilePermanentEffect | frontend/src/contexts/DeckProvider.tsx:926-994 | `exilePermanent`: a non-commander lands at the end of exile; the commander raises the tax and no zone gains it |
| Zones.BouncePermanentEffect | frontend/src/contexts/DeckProvider.tsx:996-1066 | `bouncePermanent`: a non-commander goes to the front of the hand; the commander raises the tax and no zone gains it |
| Zones.LeaveCount | frontend/src/contexts/DeckProvider.tsx:830-1066 | the battlefield loses exactly one permanent for a live reference and none for a stale one |
| Zones.TapLandEffect | frontend/src/contexts/DeckProvider.tsx:1068-1101 | `tapLand`: a land with id 0 changes nothing; otherwise the pool gains one mana, of the colour its name gives, the land is marked tapped, and only the turn state changes |
| Zones.UntapLandRefused | frontend/src/contexts/DeckProvider.tsx:1103-1110 | a land whose mana was spent, or that has no mana source, cannot be untapped |
| Zones.TapThenUntapLand | frontend/src/contexts/DeckProvider.tsx:1068-1129 | untapping a freshly tapped land whose mana is unspent gives back the player as it was |
| Zones.TapCreatureToggles | frontend/src/contexts/DeckProvider.tsx:1131-1150 | tapping marks exactly that creature instance and untapping unmarks exactly it; untap after tap restores the player |
| Zones.SpendManaForCardPays | frontend/src/contexts/DeckProvider.tsx:501-571 | `spendManaForCard` takes min(cost, pool) mana, exactly the cost when `checkManaCost` approved the card, and keeps the lands already marked used |
| Zones.SpendManaTakesOne | frontend/src/contexts/DeckProvider.tsx:2021-2034 | `spendMana` takes one mana from a non-empty bucket and nothing from an empty one; only the pool changes |
| Zones.CastCommanderRefused | frontend/src/contexts/DeckProvider.tsx:1308-1322 | with less mana in the pool than cmc plus tax, casting the commander changes nothing |
| Zones.CastCommanderSteps | frontend/src/contexts/DeckProvider.tsx:1324-1393 | a cast that goes ahead is the payment followed by the commander entering the battlefield |
| Zones.CastCommanderWrites | frontend/src/contexts/DeckProvider.tsx:1370-1393 | the two `updatePlayer` writes of a cast: the paid turn state with the tax raised by one, then the entry onto the battlefield |
| Zones.PaidThenPlaced | frontend/src/contexts/DeckProvider.tsx:1370-1393 | the two writes, merged one after the other, give the paid player plus the new permanent |
| Zones.CastCommanderPays | frontend/src/contexts/DeckProvider.tsx:1308-1395 | a cast that goes ahead takes exactly cmc plus tax from the pool, raises the tax by one, and appends the lands it used |
| Zones.CastCommanderPlaces | frontend/src/contexts/DeckProvider.tsx:1308-1395 | the commander enters the row its type picks with the cast's placement time, and no field beyond the pool, tax and rows changes |
| Zones.AddExampleCardAppends | frontend/src/contexts/DeckProvider.tsx:2770-2789 | `addExampleCardToHand` appends one card to the end of the hand and changes nothing else |
| Mana.SourceAt | frontend/src/contexts/DeckProvider.tsx:1112 | `manaSources[id]` is the source stored under that land instance id, or nothing when no source has that id |
| Mana.PutSource | frontend/src/contexts/DeckProvider.tsx:1090-1097 | `{...manaSources, [id]: s}` makes `s` the source under its id and adds no other source |
| Mana.RemoveSource | frontend/src/contexts/DeckProvider.tsx:1123-1125 | filtering the entries by key removes exactly the source with that id and keeps all the others |
| Mana.RemovePutNew | frontend/src/contexts/DeckProvider.tsx:1090-1125 | removing a key that was just added gives back the sources as they were |
| Mana.Without | frontend/src/contexts/DeckProvider.tsx:1122 | `tappedLands.filter(id => id !== x)` keeps exactly the other ids |
| Mana.WithoutAppended | frontend/src/contexts/DeckProvider.tsx:1089-1122 | removing an id just appended to a list that lacked it gives back the list |
| Mana.TapLandAddsOne | frontend/src/contexts/DeckProvider.tsx:1068-1101 | tapping adds exactly one mana, to the colour the land's name gives (plains, island, swamp, mountain, forest, else colorless), records the land as tapped and its source as available, and keeps the used lands |
| Mana.UntapLandRefusal | frontend/src/contexts/DeckProvider.tsx:1103-1113 | untapping is refused exactly when the land's mana was already spent or the land has no source |
| Mana.UntapLandTakesBack | frontend/src/contexts/DeckProvider.tsx:1115-1128 | otherwise one mana leaves the source's bucket, floored at 0, the other buckets stay, and the land loses its tap mark and its source |
| Mana.UntapUndoesTap | frontend/src/contexts/DeckProvider.tsx:1068-1129 | untapping right after tapping, with the mana unspent, restores the turn state exactly |
| Mana.SpendOne | frontend/src/contexts/DeckProvider.tsx:2021-2034 | `spendMana(color)`: one mana less in that bucket, floored at 0, and the other buckets unchanged |
| Mana.MarkFirst | frontend/src/contexts/DeckProvider.tsx:529-536 | marking the first available sources of a colour keeps every source's id and colour, reports at most the requested number, and never makes a source available |
| Mana.MarkFirstMarks | frontend/src/contexts/DeckProvider.tsx:529-536 | every reported id is an available source of that colour that is now marked used |
| Mana.PayOverTotals | frontend/src/contexts/DeckProvider.tsx:540-557 | over distinct colours, the rounds pay min(remaining cost, the buckets' sum) in all, and the pool total falls by exactly what was paid |
| Mana.PayTotal | frontend/src/contexts/DeckProvider.tsx:516-559 | the pool total falls by min(cost, total): no bucket goes below 0 |
| Mana.PayCovered | frontend/src/contexts/DeckProvider.tsx:501-509 | when `checkManaCost` holds, the payment takes exactly the cost |
| Mana.PayOverDrains | frontend/src/contexts/DeckProvider.tsx:540-557 | each colour's bucket is drained by whatever the colours before it left unpaid, up to its contents |
| Mana.PayOverKeeps | frontend/src/contexts/DeckProvider.tsx:540-557 | the rounds for other colours leave a bucket alone |
| Mana.PayDrainsInOrder | frontend/src/contexts/DeckProvider.tsx:522-557 | colorless pays first, then white, blue, black, red and green, in turn |
| Mana.PayColorlessFirst | frontend/src/contexts/DeckProvider.tsx:522-525 | colorless mana is spent before any coloured mana |
| Mana.PayCost | frontend/src/contexts/DeckProvider.tsx:516-559 | the payment loop computes exactly the payment its reference function defines: the new pool, the sources marked used and the used-land list |
| Mana.PayColors | frontend/src/contexts/DeckProvider.tsx:540-557 | the `for (const color of coloredMana)` loop, which breaks once the cost is paid, computes the rounds its reference function defines |
| Mana.PayOverNothingLeft | frontend/src/contexts/DeckProvider.tsx:542 | once nothing remains to be paid, the remaining rounds change nothing (the `break`) |
| Turns.ChangePhaseEffect | frontend/src/contexts/DeckProvider.tsx:1397-1425 | `changePhase`: the new phase is entered at the untap step, the beginning of combat or the end step, or, for a main phase, at the step the player was in; the deck actions stay open only when entering the beginning phase; nothing else changes |
| Turns.ChangePhaseSameMain | frontend/src/contexts/DeckProvider.tsx:1397-1425 | re-entering the current main phase only closes the deck actions |
| Turns.UntapAllEffect | frontend/src/contexts/DeckProvider.tsx:1655-1681 | `untapAllPermanents`: nothing stays tapped and every mana source is forgotten, but the pool keeps its mana and the spent lands stay recorded |
| Turns.UntapAllIdempotent | frontend/src/contexts/DeckProvider.tsx:1655-1681 | untapping everything twice is the same as once |
| Turns.DamageCleared | frontend/src/contexts/DeckProvider.tsx:487-499 | `clearDamageFromCreatures`: every creature, in order, with its damage set to 0 |
| Turns.Refreshed | frontend/src/contexts/DeckProvider.tsx:1716-1720 | every creature, in order, no longer summoning sick, with its damage kept |
| Turns.NextTurnRotates | frontend/src/contexts/DeckProvider.tsx:1683-1757 | the turn passes to the player after the first player with that id, cyclically, and to a player that exists; while the hand is over the limit the active id stays |
| Turns.ClearFromPatches | frontend/src/contexts/DeckProvider.tsx:1699-1702 | the `players.forEach(clearDamageFromCreatures)` writes give a player only its own clearing patch, and at least one when the player is in the list |
| Turns.ClearedPlayer | frontend/src/contexts/DeckProvider.tsx:1699-1702 | nextTurn's clearing leaves a present player with all its creatures' damage at 0 |
| Turns.NextTurnPatchesFor | frontend/src/contexts/DeckProvider.tsx:1683-1757 | the patches one player receives from nextTurn, in queue order: its damage clearing, the end-of-turn write when it is the current player, then untap and start when it is the next player |
| Turns.NextTurnStartsNext | frontend/src/contexts/DeckProvider.tsx:1710-1753 | the next player's turn begins: turn number one higher, beginning phase at the untap step, no draw or land yet, empty pool, nothing tapped, no creature summoning sick, hand limit kept; its creatures come from the snapshot, so the damage clearing queued earlier by the same call is lost for that player |
| Turns.NextPlayerPatches | frontend/src/contexts/DeckProvider.tsx:1683-1757 | the next player is its snapshot with its clearing, the (possible) end-of-turn write, the untap and the start merged in that order |
| Turns.StartAfterOff | frontend/src/contexts/DeckProvider.tsx:1710-1753 | whatever the clearing and the end-of-turn write did, the untap and the start decide the next player's state |
| Turns.StartedPlayer | frontend/src/contexts/DeckProvider.tsx:1710-1753 | the untap and the start overwrite whatever earlier writes did to the creatures and the turn state |
| Turns.NextTurnEndsCurrent | frontend/src/contexts/DeckProvider.tsx:1699-1708 | the player who passed the turn to someone else only loses the active flag and its creatures' damage |
| Turns.NextTurnClearsOthers | frontend/src/contexts/DeckProvider.tsx:1699-1702 | every other player only has its creatures' damage cleared |
| Turns.NextTurnRefused | frontend/src/contexts/DeckProvider.tsx:1687-1692 | while the hand holds more cards than the limit, nextTurn writes nothing |
| Turns.MaxHandSizeGovernsNextTurn | frontend/src/contexts/DeckProvider.tsx:2115-2126 | after `updateMaxHandSize`, nextTurn is refused exactly when the hand holds more cards than the new limit; only the limit changes |
| Turns.ToggleShowDeckActionsTwice | frontend/src/contexts/DeckProvider.tsx:1989-1996 | the toggle flips the flag, and toggling twice gives back the player |
| Turns.ToggleSearchOpenThenShut | frontend/src/contexts/DeckProvider.tsx:1998-2019 | opening the search keeps the results; opening then shutting it is `closeSearch`, so the earlier results are not given back |
| Turns.ClosingLeavesTheRest | frontend/src/contexts/DeckProvider.tsx:2008-2019 | `closeSearch` and `closeScry` clear only their own fields |
| Turns.AddPlayerFound | frontend/src/contexts/DeckProvider.tsx:1911-1975 | a new id is found as the new player (40 life, turn 1, hand limit 7), and the players already there are found as before |
| Turns.RemovedPlayerGone | frontend/src/contexts/DeckProvider.tsx:1977-1978 | after `removePlayer`, no player has that id |
| Turns.RemoveKeepsOthers | frontend/src/contexts/DeckProvider.tsx:1977-1978 | `removePlayer` leaves what `getPlayer` finds for every other id unchanged |
| Turns.RemoveFirstActiveKeepsItsId | frontend/src/contexts/DeckProvider.tsx:1977-1982 | when the removed player was active and first in the list, the active id still names the removed player, because `players[0]` is read from the state before the removal |
| Library.CopiesOf | frontend/src/contexts/DeckProvider.tsx:591-597 | the inner push loop's cards: `quantity` copies of the entry, stamped with consecutive `originalIndex` values from the running counter |
| Library.ExpansionShape | frontend/src/contexts/DeckProvider.tsx:587-599 | the expanded library holds `quantity \|\| 1` copies of every entry except the commander, each stamped with its own position |
| Library.CommanderNotInLibrary | frontend/src/contexts/DeckProvider.tsx:590 | the commander entry (`card.id.toString() === commander_id`) contributes no card to the library |
| Library.PushCopies | frontend/src/contexts/DeckProvider.tsx:591-597 | one run of the inner loop appends exactly the entry's copies to the cards pushed so far |
| Library.ExpandDeck | frontend/src/contexts/DeckProvider.tsx:587-599 | the nested push loops of loadDeck, and the same loops in resetSimulation (2044-2054), compute the expansion its reference function defines |
| Library.Swap | frontend/src/contexts/DeckProvider.tsx:325 | the destructuring swap exchanges two positions and leaves the others alone |
| Library.ShufflePermutes | frontend/src/contexts/DeckProvider.tsx:321-328 | whatever the random picks, a shuffle only permutes the cards |
| Library.ShuffleArray | frontend/src/contexts/DeckProvider.tsx:321-328 | the swap loop from the top index down to 1, with j = floor(random · (i + 1)), computes the shuffle its reference function defines |
| Library.OpeningHand | frontend/src/contexts/DeckProvider.tsx:604-614 | the opening hand is the first seven library cards, or the whole library when it is shorter |
| Library.LoadDeckEffect | frontend/src/contexts/DeckProvider.tsx:573-626 | after loadDeck the deck holds the enhanced cards, the library is a permutation of the expanded deck list, the hand is its first seven cards, and the cursor is 7 |
| Library.LoadDeckShortLibrary | frontend/src/contexts/DeckProvider.tsx:616-621 | with fewer than seven library cards the cursor starts past the end of the library and the hand is the whole library |
| Library.DrawCardEmptyLibrary | frontend/src/contexts/DeckProvider.tsx:628-633 | at or past the end of the library, drawCard changes nothing |
| Library.DrawCardDraws | frontend/src/contexts/DeckProvider.tsx:628-670 | otherwise the card under the cursor goes to the end of the hand, the cursor moves by one, the animation flags are cleared, and the draw is recorded during the beginning phase |
| Library.DrawCardFrame | frontend/src/contexts/DeckProvider.tsx:628-670 | drawCard changes no other field; in particular the library stays as it was |
| Library.DrawCardSteps | frontend/src/contexts/DeckProvider.tsx:638-669 | the animation write, the draw and the conditional turn-state write, merged in their order |
| Library.DrawCardKeepsCursorInBounds | frontend/src/contexts/DeckProvider.tsx:628-670 | a cursor within the library stays within it after a draw |
| Library.DrawMultipleRefuses | frontend/src/contexts/DeckProvider.tsx:672-674 | drawMultipleCards refuses a batch larger than what is left in the library |
| Library.DrawMultipleDraws | frontend/src/contexts/DeckProvider.tsx:672-713 | otherwise the next `count` cards go in front of the hand, the cursor moves by `count`, the library is untouched and the deck actions close |
| Library.DrawOneVersusBatchOfOne | frontend/src/contexts/DeckProvider.tsx:628-713 | drawing one card with drawCard and a batch of one with drawMultipleCards put the card at opposite ends of the hand |
| Library.ShuffledLibraryKeepsDrawn | frontend/src/contexts/DeckProvider.tsx:1766-1772 | shuffling the undrawn part keeps the drawn part and permutes the rest |
| Library.ShuffleDeckKeepsDrawn | frontend/src/contexts/DeckProvider.tsx:1759-1779 | shuffleDeck changes only the library (drawn part kept, rest permuted) and ends with the shuffling flag off |
| Library.ScryLooksAhead | frontend/src/contexts/DeckProvider.tsx:1781-1787 | the scried cards are the next min(count, cards left) cards of the library, in order, and nothing else changes |
| Library.SearchFindsExactly | frontend/src/contexts/DeckProvider.tsx:1789-1804 | the results are exactly the undrawn cards whose name or type line contains the term, ignoring case, and the search window opens |
| Library.EmptySearchListsAll | frontend/src/contexts/DeckProvider.tsx:1789-1804 | the empty search term lists the whole undrawn library |
| Library.FindFrom | frontend/src/contexts/DeckProvider.tsx:1841-1844 | the index found is the first at or after the cursor holding a card with that id, or none |
| Library.MoveUpPermutes | frontend/src/contexts/DeckProvider.tsx:1846-1849 | moving the found card under the cursor keeps the drawn part and the cards after it, and only permutes the library |
| Library.MovedToTopEffect | frontend/src/contexts/DeckProvider.tsx:1839-1856 | "to top" keeps the drawn part and the multiset of cards and puts the found card under the cursor; when no card is found the library is unchanged |
| Library.MoveToTop | frontend/src/contexts/DeckProvider.tsx:1840-1850 | the two splices compute the move its reference function defines |
| Library.SelectFromSearchCopies | frontend/src/contexts/DeckProvider.tsx:1806-1838 | taking a searched card to the hand or the battlefield adds a copy there but leaves the library as it was, so the card is still in the library; the search closes |
| Library.SelectToTopKeepsDrawn | frontend/src/contexts/DeckProvider.tsx:1839-1857 | putting a searched card on top keeps the drawn part and the cards of the library; the search closes |
| Library.ShuffleFromGraveyardAppends | frontend/src/contexts/DeckProvider.tsx:1246-1259 | shuffleFromGraveyard puts the card at the bottom of the library, stamped with the old length, and takes one copy out of the graveyard |
| Library.InsertedInUndrawnShape | frontend/src/contexts/DeckProvider.tsx:1270-1280 | the card is inserted once, at a position at or after the cursor, and the drawn part is kept |
| Library.ShuffleFromExileInserts | frontend/src/contexts/DeckProvider.tsx:1261-1281 | shuffleFromExile takes one copy out of exile and inserts it into the undrawn part of the library, and nothing else changes |
| Library.ShuffleFromExileShortLibrary | frontend/src/contexts/DeckProvider.tsx:1270-1280 | when the cursor is past the end of a short library (loadDeck sets it to 7 regardless), the card lands at the end, where no draw reaches it |
| Library.BottomStamped | frontend/src/contexts/DeckProvider.tsx:1874-1880 | the cards pushed at the bottom are stamped `newDeck.length + i` while the deck grows, so the stamps go up in steps of two |
| Library.TopStamped | frontend/src/contexts/DeckProvider.tsx:1884-1890 | the reordered cards are stamped `startIndex + i` |
| Library.HandleScry | frontend/src/contexts/DeckProvider.tsx:1864-1901 | the splice and push loops of handleScryDecision compute the new library its reference function defines |
| Library.PushBottom | frontend/src/contexts/DeckProvider.tsx:1874-1880 | the pushes append the stamped cards to the end of the library |
| Library.InsertTop | frontend/src/contexts/DeckProvider.tsx:1884-1890 | the `splice(startIndex + i, 0, card)` loop puts the stamped cards, in order, in front of the position the cursor points at |
| Library.SpliceOutKeepsFront | frontend/src/contexts/DeckProvider.tsx:1869 | a splice never moves the cards in front of its start |
| Library.ScryDecisionKeepsDrawn | frontend/src/contexts/DeckProvider.tsx:1860-1908 | handleScryDecision never changes the drawn part of the library |
| Library.ScryDecisionTop | frontend/src/contexts/DeckProvider.tsx:1882-1890 | the chosen cards sit right under the cursor, in the chosen order |
| Library.ScryDecisionBottom | frontend/src/contexts/DeckProvider.tsx:1892-1901 | the cards not chosen end up at the bottom of the library, in their scry order |
| Library.ScryPartsAreScry | frontend/src/contexts/DeckProvider.tsx:1882-1901 | with distinct choices, the chosen and the unselected cards together are the scry cards |
| Library.ScryDecisionPermutes | frontend/src/contexts/DeckProvider.tsx:1860-1908 | when the scry cards are the cards under the cursor and the choices are distinct, handleScryDecision only rearranges the library (stamps aside) |
| Library.PutBackPermutes | frontend/src/contexts/DeckProvider.tsx:1871-1901 | putting the scry cards back adds exactly the scry cards to the cut library |
| Library.ScryDecisionLength | frontend/src/contexts/DeckProvider.tsx:1860-1908 | handleScryDecision keeps the number of library cards |
| Library.ResetRestarts | frontend/src/contexts/DeckProvider.tsx:2036-2113 | resetSimulation: a fresh shuffle of the expanded deck, the first seven cards in hand, cursor 7, empty battlefield, graveyard and exile, no tax, a fresh active turn; the deck and the life total are kept |
| Library.ResetIdempotent | frontend/src/contexts/DeckProvider.tsx:2036-2113 | resetting twice with the same shuffle is resetting once |
| ScrySelection.Picked | frontend/src/contexts/DeckProvider.tsx:1883 | `orderedCards.map(index => scryCards[index])`: one card per chosen index, in the chosen order |
| ScrySelection.UnselectedFromOneMore | frontend/src/contexts/DeckProvider.tsx:1893-1894 | selecting one more index takes exactly that index's card away from the unselected cards |
| ScrySelection.PickedAndUnselected | frontend/src/contexts/DeckProvider.tsx:1883-1894 | with distinct in-range indices, the chosen cards and the unselected cards together are all the scry cards |
| CardEffects.EffectList | frontend/src/utils/cardEffects.ts:262 | `Array.isArray(effects) ? effects : [effects]`: a single effect is wrapped in a list, a list is kept |
| CardEffects.AddEffectsToCard | frontend/src/utils/cardEffects.ts:261-267 | `addEffectsToCard` replaces the card's effects by the given ones and changes no other field |
| CardEffects.CreateCardWithEffects | frontend/src/utils/cardEffects.ts:278-290 | `createCardWithEffects`: the effects are replaced, while the keywords and abilities are appended to the existing lists; an omitted argument leaves its field alone, and no other field changes |
| CardEffects.BuildMapKeys | frontend/src/utils/cardEffects.ts:862-875 | the table's keys are exactly the catalogue names, lower-cased and trimmed |
| CardEffects.BuildMapLastWins | frontend/src/utils/cardEffects.ts:866-874 | a later catalogue card with the same normalised name overwrites an earlier one (`Map.set`) |
| CardEffects.Enhance | frontend/src/utils/cardEffects.ts:878-896 | `enhanceCardWithEffects`: a card with no table entry is returned as it is; otherwise each of keywords, effects and abilities is taken from the entry when the entry has it; no other field changes |
| CardEffects.EnhanceAll | frontend/src/utils/cardEffects.ts:899-901 | `enhanceCardsWithEffects`: the same cards, in the same order, each enhanced |
| CardEffects.EnhanceChangesOnlyCustom | frontend/src/utils/cardEffects.ts:878-896 | enhancing changes a card only when `hasCustomEffects` holds for its name |
| CardEffects.CatalogueNamesAreCustom | frontend/src/utils/cardEffects.ts:862-908 | every catalogue card's name has custom effects once the table is built |
| CardEffects.HasCustomEffectsIgnoresPadding | frontend/src/utils/cardEffects.ts:904-908 | name lookup ignores case and surrounding white space |
| CardEffects.ExampleCardsByType | frontend/src/utils/cardEffects.ts:852-856 | `getExampleCardsByType`: exactly the catalogue cards whose lower-cased type line contains the lower-cased query |
| CardEffects.ExampleCardsInOrder | frontend/src/utils/cardEffects.ts:852-856 | the matches come out in catalogue order |
| CardEffects.EffectsRegistry.Initialize | frontend/src/utils/cardEffects.ts:862-875 | `initializeCardEffectsMap` fills the table from the catalogue when it is empty and otherwise keeps it |
| CardEffects.EffectsRegistry.EnhanceCard | frontend/src/utils/cardEffects.ts:878-896 | initializes the table first, then enhances against it |
| CardEffects.EffectsRegistry.HasCustom | frontend/src/utils/cardEffects.ts:904-908 | initializes the table first, then answers whether the normalised name is a key |
| CombatSteps.ClearCombatEffect | frontend/src/contexts/DeckProvider.tsx:1633-1653 | `clearCombatState`: every creature stays in place with no damage, the attackers and blockers are emptied, and nothing else changes |
| CombatSteps.ClearCombatTwice | frontend/src/contexts/DeckProvider.tsx:1633-1653 | clearing twice is clearing once |
| CombatSteps.SkippedFirstStrikeQuiet | frontend/src/contexts/DeckProvider.tsx:1444-1452 | when `checkForFirstStrike` fails and no attacker has double strike, the first-strike pass that is skipped would have written nothing |
| CombatSteps.DoubleStrikerSkipsFirstStep | frontend/src/contexts/DeckProvider.tsx:1481-1515 | an unblocked attacker whose text says double strike but not first strike does not make `checkForFirstStrike` succeed, yet it would have dealt damage in the first-strike pass, which is therefore lost |
| CombatSteps.PlainAttackerMeetsFirstStriker | frontend/src/contexts/DeckProvider.tsx:1517-1631 | a plain attacker blocked only by a first striker exchanges no damage in either pass: the first-strike pass skips the attacker and the regular pass its blocker |
| CombatSteps.NextCombatStep | frontend/src/contexts/DeckProvider.tsx:1431-1471 | the step graph: a next step exists exactly for the combat steps before the end of combat, and it always lies further along |
| CombatSteps.AdvanceCombatStepRefused | frontend/src/contexts/DeckProvider.tsx:1427-1429 | outside combat, for a missing player, or in a step that is not a combat step, advancing writes nothing |
| CombatSteps.AdvanceCombatStepMoves | frontend/src/contexts/DeckProvider.tsx:1427-1479 | advancing from a combat step first resolves that step's damage (first-strike damage in the first-strike step, regular damage in the damage step) and then sets the next step on the snapshot's turn state |
| CombatSteps.AdvanceCombatStepTurnState | frontend/src/contexts/DeckProvider.tsx:1473-1478 | the player's turn state ends up as the snapshot's with the new step, overwriting any turn-state write made by the damage pass |
| CombatSteps.EndCombatPatches | frontend/src/contexts/DeckProvider.tsx:1464-1467 | the two end-of-combat writes merged into the player |
| CombatSteps.AdvanceCombatStepEnds | frontend/src/contexts/DeckProvider.tsx:1464-1467 | at the end of combat, damage and combat state are cleared and the phase becomes postcombat main; the step stays `END_OF_COMBAT`, since a main phase keeps the current step |
| CombatSteps.AdvanceCombatStepEndsAlone | frontend/src/contexts/DeckProvider.tsx:1464-1467 | the end of combat touches no other player |
| CombatSteps.CombatStepsTerminate | frontend/src/contexts/DeckProvider.tsx:1431-1471 | every advance moves strictly forward through at most six combat steps |
| CombatSteps.DeclareAttackerActs | frontend/src/contexts/DeckProvider.tsx:2128-2157 | declareAttacker writes exactly when every check passes: combat phase, declare-attackers step, active player, a creature at that index, untapped and not summoning sick |
| CombatSteps.AttackerToggleAdds | frontend/src/contexts/DeckProvider.tsx:2176-2190 | a new attacker goes to the end of the attackers and is tapped unless it has vigilance |
| CombatSteps.AttackerToggleWithdraws | frontend/src/contexts/DeckProvider.tsx:2160-2175 | toggling an attacker again removes every entry of it, and untaps it when it has vigilance |
| CombatSteps.DeclareAttackerAdds | frontend/src/contexts/DeckProvider.tsx:2128-2191 | a permitted declaration of a new attacker appends it and taps it unless it has vigilance |
| CombatSteps.DeclareAttackerWithdraws | frontend/src/contexts/DeckProvider.tsx:2128-2191 | a permitted declaration of a current attacker withdraws it, untapping it only with vigilance |
| CombatSteps.AttackerWithoutVigilanceStays | frontend/src/contexts/DeckProvider.tsx:2146-2150 | a creature without vigilance is tapped once declared, so declaring it again is refused: it can never be withdrawn |
| CombatSteps.VigilantToggleTwice | frontend/src/contexts/DeckProvider.tsx:2160-2190 | toggling an untapped vigilant attacker in and out again leaves the player as it was |
| CombatSteps.VigilantAttackerToggles | frontend/src/contexts/DeckProvider.tsx:2128-2191 | a vigilant creature declared twice leaves the player exactly as it was |
| CombatSteps.ToggleInEffect | frontend/src/contexts/DeckProvider.tsx:2226-2251 | the first attacker's blocker list holds the blocker exactly when it did not before, keeps every other entry, and the other attackers' lists stay |
| CombatSteps.DeclareBlockerToggles | frontend/src/contexts/DeckProvider.tsx:2194-2252 | a permitted blocker joins or leaves the blocker list of the first attacker, and nothing else about the defender changes |
| CombatSteps.DeclareBlockerIgnoresAttackerIndex | frontend/src/contexts/DeckProvider.tsx:2224 | which attacker is blocked does not depend on the attacker index passed in |
| CombatSteps.ToggleInTwice | frontend/src/contexts/DeckProvider.tsx:2226-2251 | toggling a new blocker twice gives back the old list, now always present as an entry |
| CombatSteps.DeclareBlockerTwice | frontend/src/contexts/DeckProvider.tsx:2194-2252 | declaring a new blocker twice restores the first attacker's list, which the record now holds even if it had none before |
| Combat.WithDamage | frontend/src/contexts/DeckProvider.tsx:457-461 | the creature row keeps its length; every copy of the creature (same card id and placement time) carries the new damage and every other entry is unchanged |
| Combat.WithoutObject | frontend/src/contexts/DeckProvider.tsx:440-442 | the filtered row holds exactly the entries that are not a copy of the creature |
| Combat.DealDamageDestroys | frontend/src/contexts/DeckProvider.tsx:420-455 | lethal damage to a creature that is not indestructible removes every copy of it from the creatures and puts it at the end of the graveyard with its damage reset to 0; nothing else of the player changes |
| Combat.DealDamageMarks | frontend/src/contexts/DeckProvider.tsx:456-484 | damage that does not destroy (not lethal, or an indestructible creature) keeps every creature in place and adds the damage to every copy of the creature; nothing else of the player changes |
| Combat.LethalWithoutSource | frontend/src/contexts/DeckProvider.tsx:424-438 | an indestructible creature is never destroyed; without a source (so no deathtouch) it is destroyed exactly when its old damage plus the new reaches its toughness |
| Combat.MergeAllLife | frontend/src/contexts/DeckProvider.tsx:317-319 | within one operation, the last write to a player's life total is the one that counts |
| Combat.MergeAllTapped | frontend/src/contexts/DeckProvider.tsx:317-319 | within one operation, the last write to a player's tapped creatures is the one that counts |
| Combat.Defender | frontend/src/contexts/DeckProvider.tsx:1522-1523 | `players.find(p => p.id !== playerId)`: a defender found is a player with another id; none is found only when every player has the attacker's id |
| Combat.DefenderFound | frontend/src/contexts/DeckProvider.tsx:1522-1523 | the defender found by `find` is also the player the id lookup returns for the defender's id |
| Combat.Max0 | frontend/src/contexts/DeckProvider.tsx:1553 | `Math.max(0, x)` is at least `x`, and is `x` when `x` is not negative |
| Combat.StrikePasses | frontend/src/contexts/DeckProvider.tsx:1529-1545 | a creature whose text says double strike deals damage in both passes; one that strikes neither first nor double only in the regular pass; a first striker without double strike only in the first-strike pass |
| Combat.ResolveCombatDamageShaped | frontend/src/contexts/DeckProvider.tsx:1517-1631 | a damage pass writes only to the attacking and the defending player, and only to their creatures, graveyard, life total and (attacker only, regular pass only) tapped creatures |
| Combat.ResolveCombatDamageFrame | frontend/src/contexts/DeckProvider.tsx:1517-1631 | after a pass every player is still present; a player other than the two combatants is unchanged, and the combatants change only in the damage fields |
| Combat.ResolveCombatDamageTaps | frontend/src/contexts/DeckProvider.tsx:1619-1630 | the first-strike pass taps nothing; after the regular pass the attacker's tapped set is its old set plus only the last attacker that still names a creature, because each tap is computed from the same snapshot |
| Combat.TapWritesLatest | frontend/src/contexts/DeckProvider.tsx:1619-1630 | the tapping loop's writes come down to the snapshot's tapped set plus the last attacker that names a creature |
| Combat.TapWritesSkipDefender | frontend/src/contexts/DeckProvider.tsx:1619-1630 | the tapping loop writes nothing to the defender |
| Combat.TapWritesLeaveLife | frontend/src/contexts/DeckProvider.tsx:1619-1630 | the tapping loop leaves the life total alone |
| Combat.LifelinkToOwner | frontend/src/contexts/DeckProvider.tsx:1558-1564 | a lifelink write gives its owner the snapshot's life plus the damage dealt, and only when the creature has lifelink and the damage is positive |
| Combat.DirectWritesToDefender | frontend/src/contexts/DeckProvider.tsx:1548-1557 | an unblocked attacker writes one patch to the defender: the defender's snapshot life minus the attacker's power, floored at 0 |
| Combat.DirectWritesToAttacker | frontend/src/contexts/DeckProvider.tsx:1558-1564 | to its own player an unblocked attacker writes only the lifelink gain |
| Combat.ResolveUnblockedAttacker | frontend/src/contexts/DeckProvider.tsx:1534-1569 | one unblocked attacker: the defender's life falls by its power, floored at 0, and nothing else of the defender changes; with lifelink and positive power the attacker's player gains that much |
| Combat.ResolveUnblockedLastWins | frontend/src/contexts/DeckProvider.tsx:1548-1557 | two unblocked attackers: each life write comes from the same snapshot, so the defender ends with only the second attacker's power taken off, not the sum |
| Combat.BlockWritesSkipped | frontend/src/contexts/DeckProvider.tsx:1576-1582 | blockers none of which strikes in this pass add no writes |
| Combat.FirstStrikerMeetsPlainBlockers | frontend/src/contexts/DeckProvider.tsx:1541-1582 | a first striker without double strike, blocked only by creatures that strike neither first nor double, exchanges no damage in either pass |
| Combat.NoFirstStrikersQuiet | frontend/src/contexts/DeckProvider.tsx:1541-1545 | when no attacker strikes first, the first-strike pass writes nothing |
| Combat.HitWritesFor | frontend/src/contexts/DeckProvider.tsx:1588-1592 | a fight writes the blocker's damage to the defender and the attacker's damage to the attacking player, each computed by dealDamageToCreature from its snapshot |
| Combat.ResolveBlockedFight | frontend/src/contexts/DeckProvider.tsx:1571-1611 | one attacker blocked by one creature, both striking in this pass: each creature takes the other's power, on its own player's board, exactly as dealDamageToCreature computes it |
| CombatResolution.ResolveCombatRefused | frontend/src/contexts/DeckProvider.tsx:2254-2257 | when either player is missing, resolveCombat writes nothing |
| CombatResolution.ResolveCombatParts | frontend/src/contexts/DeckProvider.tsx:2254-2364 | the writes are the fights in attacker order, then the clearing of both combat states, the tapping loop and the phase change |
| CombatResolution.ResolveCombatFrame | frontend/src/contexts/DeckProvider.tsx:2254-2364 | a player other than the two combatants and the active player is unchanged |
| CombatResolution.DestroyShaped | frontend/src/contexts/DeckProvider.tsx:2309-2316 | each destroyPermanent in a fight writes only to the player that owns the creature, and never to its combat state |
| CombatResolution.AfterFightPatches | frontend/src/contexts/DeckProvider.tsx:2332-2363 | after the fights each combatant receives a clearing of its combat state first, and nothing after it sets another combat state |
| CombatResolution.ClearedThenKept | frontend/src/contexts/DeckProvider.tsx:2332-2348 | a clearing followed only by patches that keep it cleared leaves the player with no combat |
| CombatResolution.ResolveCombatClears | frontend/src/contexts/DeckProvider.tsx:2332-2348 | after resolveCombat both combatants are still present and neither has attackers, blockers or a declaring flag left |
| CombatResolution.ResolveCombatMovesOn | frontend/src/contexts/DeckProvider.tsx:2362-2363 | the active player ends in the postcombat main phase: its turn state is its snapshot's with only the phase changed, whatever the fights wrote, and its deck actions are hidden |
| CombatResolution.PhaseWriteLast | frontend/src/contexts/DeckProvider.tsx:2362-2363 | a phase change queued last decides the active player's turn state, whatever was queued before it |
| CombatResolution.AfterFightQuiet | frontend/src/contexts/DeckProvider.tsx:2332-2363 | nothing written after the fights touches the board or a life total |
| CombatResolution.UnblockedFight | frontend/src/contexts/DeckProvider.tsx:2274-2287 | a lone unblocked attacker with a numeric power writes one patch: the defender's life minus that power, floored at 0 |
| CombatResolution.ResolveCombatUnblocked | frontend/src/contexts/DeckProvider.tsx:2274-2287 | after resolveCombat, the defender's life is its old life minus the unblocked attacker's power, floored at 0 |
| CombatResolution.OneBlockerWrites | frontend/src/contexts/DeckProvider.tsx:2288-2317 | one attacker with one blocker gives exactly the trade's writes: each creature destroyed whose toughness the other's power reaches |
| CombatResolution.TradePatches | frontend/src/contexts/DeckProvider.tsx:2309-2316 | in a mutual kill each side receives exactly destroyPermanent's patches for its own creature |
| CombatResolution.ResolveCombatTrade | frontend/src/contexts/DeckProvider.tsx:2288-2317 | when each creature's power reaches the other's toughness and neither is its player's commander, both are destroyed, each landing at the end of its own player's graveyard |
| CombatResolution.DestroyGraveyardFromSnapshot | frontend/src/contexts/DeckProvider.tsx:2311 | destroyPermanent's graveyard write is computed from the snapshot, whatever was merged before it |
| CombatResolution.TwoBlockersPatches | frontend/src/contexts/DeckProvider.tsx:2290-2317 | two blockers both killed by the attacker give the defender two destroyPermanent patch lists, in blocker order |
| CombatResolution.ResolveCombatLosesFirstDestroyed | frontend/src/contexts/DeckProvider.tsx:2290-2317 | two blockers destroyed by the same attacker: each destroyPermanent starts from the defender's snapshot, so the graveyard gains only the second blocker and the first one's move is lost |
| StackEffects.IndexOfId | frontend/src/contexts/DeckProvider.tsx:2627 | `findIndex(c => c.id === id)`: a position found holds the id and no earlier one does; none is found only when no card has the id |
| StackEffects.RemoveFirstWithIdTakesOne | frontend/src/contexts/DeckProvider.tsx:2626-2634 | casting takes exactly one card with that id out of the hand when there is one (the rest is the same multiset), and leaves the hand alone otherwise |
| StackEffects.FindTarget | frontend/src/contexts/DeckProvider.tsx:2454 | `find` on a row by `${id}-${placedAt}`: a permanent found is in the row and has that target id; none is found only when no permanent has it |
| StackEffects.LocateFindsFirstHolder | frontend/src/contexts/DeckProvider.tsx:2450-2470 | the search over the players misses exactly when no player holds the target, and otherwise stops at the first player that does |
| StackEffects.LocateHitShape | frontend/src/contexts/DeckProvider.tsx:2452-2469 | a creature hit is one of the holder's creatures with the target id; a land hit is one of its lands, and only when none of its creatures has the id |
| StackEffects.DamagePlayerFloored | frontend/src/contexts/DeckProvider.tsx:2438-2448 | damage to a player target sets that player's life to its old life less the damage, floored at 0 |
| StackEffects.DamageSamePlayerTwiceCountsOnce | frontend/src/contexts/DeckProvider.tsx:2440-2447 | two targets naming the same player deal the damage once: both writes come from the same life total read |
| StackEffects.DamageCreatureTarget | frontend/src/contexts/DeckProvider.tsx:2452-2460 | a creature target is dealt the damage, with no source, as dealDamageToCreature does for its holder |
| StackEffects.DamageLandTarget | frontend/src/contexts/DeckProvider.tsx:2462-2469 | a land hit by damage is destroyed, as destroyPermanent does it |
| StackEffects.DestroyTarget | frontend/src/contexts/DeckProvider.tsx:2490-2519 | a destroy effect destroys what its target names, creature or land, on whichever player holds it |
| StackEffects.LifeGainAdds | frontend/src/contexts/DeckProvider.tsx:2522-2530 | life gain adds the amount to the controller's life, with no upper bound |
| StackEffects.DrawAndScryEffects | frontend/src/contexts/DeckProvider.tsx:2480-2488 | a draw effect draws its amount as one drawMultipleCards batch; a scry effect scries its amount |
| StackEffects.DrawEffectDraws | frontend/src/contexts/DeckProvider.tsx:2480-2488 | a draw effect leaves its controller as drawMultipleCards leaves it |
| StackEffects.ScryEffectScries | frontend/src/contexts/DeckProvider.tsx:2532-2537 | a scry effect leaves its controller as scry leaves it |
| StackEffects.UnhandledEffectsDoNothing | frontend/src/contexts/DeckProvider.tsx:2437-2542 | any other effect type, a zero amount, or a damage or destroy effect without targets writes nothing |
| StackEffects.Pop | frontend/src/contexts/DeckProvider.tsx:2427 | `prev.slice(0, -1)`: the stack without its last item, one shorter; the empty stack stays empty |
| StackEffects.PushThenPop | frontend/src/contexts/DeckProvider.tsx:2366-2368 | addToStack puts the item on top, and resolving takes exactly it off again |
| StackEffects.ResolveTopNothingToDo | frontend/src/contexts/DeckProvider.tsx:2370-2384 | resolving an empty stack, or an item whose controller is gone, writes nothing; passing priority likewise |
| StackEffects.ResolvePermanent | frontend/src/contexts/DeckProvider.tsx:2397-2414 | a creature, artifact or enchantment without effects joins the end of its controller's creature row, summoning sick; no other player changes |
| StackEffects.ResolveNonPermanent | frontend/src/contexts/DeckProvider.tsx:2415-2424 | a non-permanent without effects goes to the end of its controller's graveyard; no other player changes |
| StackEffects.ResolveLandVanishes | frontend/src/contexts/DeckProvider.tsx:2397-2414 | a land that is none of creature, artifact or enchantment resolves into nothing: it is simply gone |
| StackEffects.ResolveCreatureWithDamage | frontend/src/contexts/DeckProvider.tsx:2389-2408 | a creature whose effect damages another player: the damage and the arrival are both kept, since they write different fields |
| StackEffects.RowTargets | frontend/src/contexts/DeckProvider.tsx:2661-2670 | one target per permanent of the row, in order, with its `${id}-${placedAt}` id, the row's kind and its holder |
| StackEffects.PlayerTargets | frontend/src/contexts/DeckProvider.tsx:2690-2695 | one player target per player, in order, controlled by itself |
| StackEffects.ZoneTargetsExact | frontend/src/contexts/DeckProvider.tsx:2658-2687 | the creature (or land) targets are exactly the creatures (or lands) of every player, each under its holder |
| StackEffects.RowTargetsExact | frontend/src/contexts/DeckProvider.tsx:2661-2670 | one player's list holds exactly that player's permanents of the row |
| StackEffects.PlayerTargetsExact | frontend/src/contexts/DeckProvider.tsx:2688-2695 | the player targets are exactly the players |
| StackEffects.OfferedKinds | frontend/src/contexts/DeckProvider.tsx:2651-2768 | each list offers targets of its own kind only |
| StackEffects.ValidTargetsExact | frontend/src/contexts/DeckProvider.tsx:2651-2768 | getValidTargets offers a target exactly when the controller exists, the target type admits its kind and it is a creature, land or player of any player (not only the controller's); an unknown type offers nothing |
| StackEffects.CommitSingle | frontend/src/contexts/DeckProvider.tsx:317-319 | one write merges its patch into the player and changes nobody else |
| StackEffects.CommitTwo | frontend/src/contexts/DeckProvider.tsx:317-319 | two writes to two different players each reach their own player |
| StackEffects.CommitSame | frontend/src/contexts/DeckProvider.tsx:317-319 | a second write to the same player is merged over the first |
| StackEffects.CommitTwoPools | frontend/src/contexts/DeckProvider.tsx:317-319 | two mana pool writes computed from the same read: the second wins |
| StackEffects.StartTargetingOpens | frontend/src/contexts/DeckProvider.tsx:2546-2562 | startTargeting replaces the targeting state with a fresh one for the card, the type and the count, nothing selected |
| StackEffects.CancelUndoesStart | frontend/src/contexts/DeckProvider.tsx:2581-2596 | cancelling right after starting gives back a player that was not targeting |
| StackEffects.SelectTargetToggles | frontend/src/contexts/DeckProvider.tsx:2564-2579 | selectTarget holds the target afterwards exactly when it did not before, keeps every other entry, and never creates a duplicate |
| StackEffects.SelectTargetTwice | frontend/src/contexts/DeckProvider.tsx:2564-2579 | selecting the same unselected target twice gives back the player as it was |
| StackEffects.AimedAll | frontend/src/contexts/DeckProvider.tsx:2615-2618 | every effect of the spell is kept in order, those that require a target now aimed at the selection |
| StackEffects.ConfirmRefused | frontend/src/contexts/DeckProvider.tsx:2602-2606 | with fewer valid targets than required, confirming changes neither the players nor the stack |
| StackEffects.ConfirmCasts | frontend/src/contexts/DeckProvider.tsx:2598-2649 | otherwise the spell goes on top of the stack under the active player with the selection in its targeted effects, one copy leaves the hand, and targeting is reset |
| StackEffects.ConfirmWithoutSelection | frontend/src/contexts/DeckProvider.tsx:2598-2649 | confirming never checks the selection: with nothing selected the spell still goes on the stack, its targeted damage or destroy effects aimed at nobody, and they resolve to nothing |
| StackEffects.FirstTargeted | frontend/src/contexts/DeckProvider.tsx:769 | the first effect that requires a target, when one does |
| StackEffects.PlayLand | frontend/src/contexts/DeckProvider.tsx:716-749 | a land is played only when none was played this turn and it is the player's turn; then it joins the end of the land row with the new time and the one-land flag is set, otherwise nothing changes; the stack is never used |
| StackEffects.OneLandPerTurn | frontend/src/contexts/DeckProvider.tsx:723-726 | after a land is played, any further land that player plays is refused |
| StackEffects.SorceryTiming | frontend/src/contexts/DeckProvider.tsx:756-759 | a sorcery off one's own turn or with something on the stack is refused |
| StackEffects.PlaySpell | frontend/src/contexts/DeckProvider.tsx:751-797 | a permitted spell that needs no target goes on top of the stack, one copy leaves the hand, and no other player changes |
| StackEffects.PlayTargetedSpell | frontend/src/contexts/DeckProvider.tsx:767-775 | a spell with a targeted effect that names a target type starts targeting on the active player, for one target, and does not touch the stack |
| StackEffects.PlayThenResolveCreature | frontend/src/contexts/DeckProvider.tsx:716-797 | a creature spell without effects, played by the active player on an empty stack and resolved by passing priority, leaves the hand once and arrives at the end of the creature row |
| StackEffects.ActivateSplits | frontend/src/contexts/DeckProvider.tsx:2830-2926 | a permitted activation writes the payment first and then the effect |
| StackEffects.CanActivateManaCost | frontend/src/contexts/DeckProvider.tsx:2791-2828 | an ability whose cost is not `T` can be activated exactly on one's own turn with a pool total that covers the parsed cost |
| StackEffects.ActivateRefused | frontend/src/contexts/DeckProvider.tsx:2834-2837 | a refused activation changes neither the players nor the stack |
| StackEffects.TapAbilityOnce | frontend/src/contexts/DeckProvider.tsx:2801-2861 | a tap ability of a creature taps the first creature with the card's id, goes on the stack, and cannot be activated again until the creature untaps |
| StackEffects.ManaCostAbilityPays | frontend/src/contexts/DeckProvider.tsx:2862-2890 | a mana-cost ability pays colorless first and then the colours in order; a non-negative cost takes exactly that much off the pool total |
| StackEffects.AbilityPaymentTotal | frontend/src/contexts/DeckProvider.tsx:2864-2881 | paying a non-negative cost the pool covers takes exactly that much from the total |
| StackEffects.LandManaAbilityRepeats | frontend/src/contexts/DeckProvider.tsx:2850-2909 | a land's tap mana ability adds its mana but the land stays untapped: the mana write, computed from the read turn state, replaces the tapped-lands write; it can be activated again at once |
| StackEffects.ManaCostManaAbilityIsFree | frontend/src/contexts/DeckProvider.tsx:2862-2909 | a mana ability with a mana cost is free: the mana write, computed from the read pool, replaces the payment, so the pool total only grows by the amount |
| StackEffects.AddedManaTotal | frontend/src/contexts/DeckProvider.tsx:2893-2909 | a mana ability adds its amount (1 when none is given) to the pool total |
| StackEffects.AbilityResolvesSourceCard | frontend/src/contexts/DeckProvider.tsx:2915-2925 | resolving a stacked ability resolves its source card: a creature ability with no card effects puts a second copy of the creature onto the creature row |
| Engine.ApplyEffect | frontend/src/contexts/DeckProvider.tsx:317-319 | committing one player's patches merges them into that player in order and leaves every other id finding the player it found before |
| Engine.Game.constructor | frontend/src/contexts/DeckProvider.tsx:177-310 | the context starts with the two default players, `player1` active and an empty stack |
| Engine.Game.Apply | frontend/src/contexts/DeckProvider.tsx:317-319 | one present player's patches are committed; the active id and the stack stay |
| Engine.Game.ApplyWrites | frontend/src/contexts/DeckProvider.tsx:317-319 | a list of writes to any players is committed in order; the active id and the stack stay |
| Engine.Game.SetActivePlayer | frontend/src/contexts/DeckProvider.tsx:1984-1986 | `setActivePlayer`: only the active id changes, to the given one |
| Engine.Game.AddPlayer | frontend/src/contexts/DeckProvider.tsx:1911-1975 | `addPlayer`: the players become `addPlayer`'s list, the old list with a fresh player always appended; a duplicate id is shadowed by the earlier player for `getPlayer`; the active id and the stack stay |
| Engine.Game.RemovePlayer | frontend/src/contexts/DeckProvider.tsx:1977-1982 | `removePlayer`: every player with the id is dropped, and when the removed one was active the active id moves to the first player of the list before the removal, which may be the removed player itself |
| Engine.Game.LoadDeck | frontend/src/contexts/DeckProvider.tsx:573-625 | `loadDeck`: for a present player, the effect table is first initialized from the catalogue (when it is empty and the deck has cards, since each `enhanceCardWithEffects` call runs `initializeCardEffectsMap`), then the loaded deck's patch (cards enhanced with that table, shuffled by `picks`) is merged in and nobody else changes; a missing player changes nothing, the table included |
| Engine.Game.DrawCard | frontend/src/contexts/DeckProvider.tsx:628-670 | `drawCard`: for a present player, the draw patches are merged in and nobody else changes; a missing player changes nothing |
| Engine.Game.DrawMultipleCards | frontend/src/contexts/DeckProvider.tsx:672-713 | `drawMultipleCards`: for a present player, the batch-draw patches are merged in and nobody else changes |
| Engine.Game.ShuffleDeck | frontend/src/contexts/DeckProvider.tsx:1759-1779 | `shuffleDeck`: for a present player, the shuffle patches are merged in and nobody else changes |
| Engine.Game.Scry | frontend/src/contexts/DeckProvider.tsx:1781-1787 | `scry`: for a present player, the scry patch (the top cards put on view) is merged in and nobody else changes |
| Engine.Game.SearchLibrary | frontend/src/contexts/DeckProvider.tsx:1789-1804 | `searchLibrary`: for a present player, the search patch is merged in and nobody else changes |
| Engine.Game.SelectCardFromSearch | frontend/src/contexts/DeckProvider.tsx:1806-1858 | `selectCardFromSearch`: for a present player, the patch for the chosen destination is merged in and nobody else changes |
| Engine.Game.HandleScryDecision | frontend/src/contexts/DeckProvider.tsx:1860-1908 | `handleScryDecision`: for a present player whose chosen indices all name cards on view, the scry decision patch is merged in and nobody else changes |
| Engine.Game.ShuffleFromGraveyard | frontend/src/contexts/DeckProvider.tsx:1246-1259 | `shuffleFromGraveyard`: for a present player, the graveyard card is shuffled into the library and nobody else changes |
| Engine.Game.ShuffleFromExile | frontend/src/contexts/DeckProvider.tsx:1261-1281 | `shuffleFromExile`: for a present player, the exiled card is shuffled into the library and nobody else changes |
| Engine.Game.ResetSimulation | frontend/src/contexts/DeckProvider.tsx:2036-2113 | `resetSimulation`: for a present player, the reset patch is merged in and nobody else changes |
| Engine.Game.DiscardCard | frontend/src/contexts/DeckProvider.tsx:799-812 | `discardCard`: for a present player, the discard patch is merged in and nobody else changes |
| Engine.Game.ExileCard | frontend/src/contexts/DeckProvider.tsx:814-827 | `exileCard`: for a present player, the exile patch is merged in and nobody else changes |
| Engine.Game.DestroyPermanent | frontend/src/contexts/DeckProvider.tsx:830-924 | `destroyPermanent`: for a present player, destroyPermanent's patches are merged in and nobody else changes |
| Engine.Game.ExilePermanent | frontend/src/contexts/DeckProvider.tsx:926-994 | `exilePermanent`: for a present player, exilePermanent's patches are merged in and nobody else changes |
| Engine.Game.BouncePermanent | frontend/src/contexts/DeckProvider.tsx:996-1065 | `bouncePermanent`: for a present player, bouncePermanent's patches are merged in and nobody else changes |
| Engine.Game.ReturnFromGraveyard | frontend/src/contexts/DeckProvider.tsx:1152-1165 | `returnFromGraveyard`: for a present player, the card goes from the graveyard to the hand and nobody else changes |
| Engine.Game.ReturnFromGraveyardToBattlefield | frontend/src/contexts/DeckProvider.tsx:1167-1180 | `returnFromGraveyardToBattlefield`: for a present player, the card goes from the graveyard to the battlefield and nobody else changes |
| Engine.Game.ReturnFromGraveyardToField | frontend/src/contexts/DeckProvider.tsx:1182-1204 | `returnFromGraveyardToField`: for a present player, the card goes from the graveyard to its battlefield row and nobody else changes |
| Engine.Game.ReturnFromExile | frontend/src/contexts/DeckProvider.tsx:1206-1219 | `returnFromExile`: for a present player, the card goes from exile to the hand and nobody else changes |
| Engine.Game.MoveFromExileToGraveyard | frontend/src/contexts/DeckProvider.tsx:1221-1234 | `moveFromExileToGraveyard`: for a present player, the card goes from exile to the graveyard and nobody else changes |
| Engine.Game.ExileFromGraveyard | frontend/src/contexts/DeckProvider.tsx:1236-1244 | `exileFromGraveyard`: for a present player, the card goes from the graveyard to exile and nobody else changes |
| Engine.Game.ReturnFromExileToField | frontend/src/contexts/DeckProvider.tsx:1283-1305 | `returnFromExileToField`: for a present player, the card goes from exile to its battlefield row and nobody else changes |
| Engine.Game.CastCommander | frontend/src/contexts/DeckProvider.tsx:1308-1394 | `castCommander`: for a present player, castCommander's patches are merged in and nobody else changes |
| Engine.Game.AddExampleCardToHand | frontend/src/contexts/DeckProvider.tsx:2770-2788 | `addExampleCardToHand`: for a present player, the example card joins the hand and nobody else changes |
| Engine.Game.TapLand | frontend/src/contexts/DeckProvider.tsx:1068-1101 | `tapLand`: for a present player, the tap-land patch is merged in and nobody else changes |
| Engine.Game.UntapLand | frontend/src/contexts/DeckProvider.tsx:1103-1129 | `untapLand`: for a present player, the untap-land patch is merged in and nobody else changes |
| Engine.Game.TapCreature | frontend/src/contexts/DeckProvider.tsx:1131-1139 | `tapCreature`: for a present player, the tap-creature patch is merged in and nobody else changes |
| Engine.Game.UntapCreature | frontend/src/contexts/DeckProvider.tsx:1141-1149 | `untapCreature`: for a present player, the untap-creature patch is merged in and nobody else changes |
| Engine.Game.UntapAllPermanents | frontend/src/contexts/DeckProvider.tsx:1655-1681 | `untapAllPermanents`: for a present player, the untap-all patch is merged in and nobody else changes |
| Engine.Game.SpendManaForCard | frontend/src/contexts/DeckProvider.tsx:511-570 | `spendManaForCard`: for a present player, the payment patch is merged in and nobody else changes |
| Engine.Game.SpendMana | frontend/src/contexts/DeckProvider.tsx:2021-2034 | `spendMana`: for a present player, the one-mana payment patch is merged in and nobody else changes |
| Engine.Game.ChangePhase | frontend/src/contexts/DeckProvider.tsx:1397-1425 | `changePhase`: for a present player, the phase-change patch is merged in and nobody else changes |
| Engine.Game.NextTurn | frontend/src/contexts/DeckProvider.tsx:1683-1756 | `nextTurn`: the players are the commit of nextTurn's writes and the active id is handed on as nextTurn computes it; the stack stays |
| Engine.Game.UpdateMaxHandSize | frontend/src/contexts/DeckProvider.tsx:2115-2125 | `updateMaxHandSize`: for a present player, the new hand size is merged in and nobody else changes |
| Engine.Game.ToggleShowDeckActions | frontend/src/contexts/DeckProvider.tsx:1989-1996 | `toggleShowDeckActions`: for a present player, the deck-actions flag flips and nobody else changes |
| Engine.Game.ToggleSearch | frontend/src/contexts/DeckProvider.tsx:1998-2006 | `toggleSearch`: for a present player, the search flag flips and nobody else changes |
| Engine.Game.CloseScry | frontend/src/contexts/DeckProvider.tsx:2008-2012 | `closeScry`: the close-scry patch is written without first looking the player up |
| Engine.Game.CloseSearch | frontend/src/contexts/DeckProvider.tsx:2014-2019 | `closeSearch`: the close-search patch is written without first looking the player up |
| Engine.Game.DealDamageToCreature | frontend/src/contexts/DeckProvider.tsx:420-484 | `dealDamageToCreature`: for a present player, dealDamageToCreature's patch is merged in and nobody else changes |
| Engine.Game.ClearDamageFromCreatures | frontend/src/contexts/DeckProvider.tsx:487-499 | `clearDamageFromCreatures`: for a present player, all damage is cleared and nobody else changes |
| Engine.Game.ClearCombatState | frontend/src/contexts/DeckProvider.tsx:1633-1652 | `clearCombatState`: for a present player, the clearing patch is merged in and nobody else changes |
| Engine.Game.AdvanceCombatStep | frontend/src/contexts/DeckProvider.tsx:1427-1479 | `advanceCombatStep`: the players are the commit of advanceCombatStep's writes; the active id and the stack stay |
| Engine.Game.ResolveCombatDamage | frontend/src/contexts/DeckProvider.tsx:1517-1631 | `resolveCombatDamage`: the players are the commit of the damage pass's writes; the active id and the stack stay |
| Engine.Game.DeclareAttacker | frontend/src/contexts/DeckProvider.tsx:2128-2192 | `declareAttacker`: for a present player, the declaration's patches are merged in and nobody else changes |
| Engine.Game.DeclareBlocker | frontend/src/contexts/DeckProvider.tsx:2194-2252 | `declareBlocker`: with the defender, the attacker and the active player all present, only the defender receives the blocker patches; otherwise nothing changes |
| Engine.Game.ResolveCombat | frontend/src/contexts/DeckProvider.tsx:2254-2364 | `resolveCombat`: the players are the commit of resolveCombat's writes; the active id and the stack stay |
| Engine.Game.PlayCard | frontend/src/contexts/DeckProvider.tsx:716-797 | `playCard`: the players are the commit of playCard's writes and the stack is playCard's new stack |
| Engine.Game.AddToStack | frontend/src/contexts/DeckProvider.tsx:2366-2368 | `addToStack`: the item is pushed on top of the stack; nothing else changes |
| Engine.Game.ResolveTopOfStack | frontend/src/contexts/DeckProvider.tsx:2377-2429 | `resolveTopOfStack`: the players are the commit of the top item's writes and the top item is taken off |
| Engine.Game.PassPriority | frontend/src/contexts/DeckProvider.tsx:2370-2375 | `passPriority`: as resolveTopOfStack when the stack is not empty; nothing changes otherwise |
| Engine.Game.StartTargeting | frontend/src/contexts/DeckProvider.tsx:2546-2562 | `startTargeting`: the players are the commit of startTargeting's writes to the active player |
| Engine.Game.SelectTarget | frontend/src/contexts/DeckProvider.tsx:2564-2579 | `selectTarget`: the players are the commit of selectTarget's writes to the active player |
| Engine.Game.CancelTargeting | frontend/src/contexts/DeckProvider.tsx:2581-2596 | `cancelTargeting`: the players are the commit of cancelTargeting's writes to the active player |
| Engine.Game.ConfirmTargeting | frontend/src/contexts/DeckProvider.tsx:2598-2649 | `confirmTargeting`: the players are the commit of confirmTargeting's writes and the stack is its new stack |
| Engine.Game.ActivateAbility | frontend/src/contexts/DeckProvider.tsx:2830-2926 | `activateAbility`: the players are the commit of activateAbility's writes and the stack is its new stack |
| DeckUpload.TrimIsTrimmed | frontend/src/components/DeckUpload.tsx:50 | `line.trim()` leaves no leading or trailing whitespace |
| DeckUpload.TrimmedTrim | frontend/src/components/DeckUpload.tsx:50 | trimming a trimmed string changes nothing |
| DeckUpload.LineMatch | frontend/src/components/DeckUpload.tsx:54 | a match of `/^(\d+)\s+(.+)$/` splits off a non-empty run of leading digits |
| DeckUpload.LineMatchExact | frontend/src/components/DeckUpload.tsx:54 | on a trimmed line the matcher succeeds exactly when the regular expression matches: digits, whitespace, then a non-empty rest with no line terminator |
| DeckUpload.ParseLineShape | frontend/src/components/DeckUpload.tsx:53-63 | a non-blank line gives an entry with a non-empty name: the count and the rest when the pattern matches, else one copy of the whole line |
| DeckUpload.CountedLine | frontend/src/components/DeckUpload.tsx:54-59 | a count, a space and a trimmed one-line name read back as that count of that name |
| DeckUpload.UncountedLine | frontend/src/components/DeckUpload.tsx:60-63 | a line that does not start with a digit is one copy of the whole line |
| DeckUpload.BareNumber | frontend/src/components/DeckUpload.tsx:54-63 | a bare number has nothing after it to name, so it is one copy of a card named by the number |
| DeckUpload.ParseAll | frontend/src/components/DeckUpload.tsx:49-64 | one entry per line |
| DeckUpload.ParseAllAt | frontend/src/components/DeckUpload.tsx:49-64 | the entry at each position is the parse of the trimmed line at that position |
| DeckUpload.DeckListNamed | frontend/src/components/DeckUpload.tsx:46-51 | every entry of a deck list names a card: blank lines are filtered out before the parser |
| DeckUpload.ParseDeckList | frontend/src/components/DeckUpload.tsx:45-66 | parseDeckList's list is one parsed entry for each non-blank line, in file order |
| DeckUpload.ParseLines | frontend/src/components/DeckUpload.tsx:49-64 | the `for` loop builds exactly the parsed entries of its lines |
| DeckUpload.CollectLegends | frontend/src/components/DeckUpload.tsx:88-143 | the loop over the found cards collects exactly the legendary creature list the reference function describes |
| DeckUpload.LegendsSnoc | frontend/src/components/DeckUpload.tsx:129-143 | one card more either leaves the list alone or appends that card, exactly when it is a legendary creature whose id is new |
| DeckUpload.LegendsDistinct | frontend/src/components/DeckUpload.tsx:131-132 | the collected list holds no id twice |
| DeckUpload.LegendsComplete | frontend/src/components/DeckUpload.tsx:129-143 | the id of every legendary creature among the cards is in the list |
| DeckUpload.LegendsEarliest | frontend/src/components/DeckUpload.tsx:129-143 | each entry of the list is the earliest legendary creature with its id |
| DeckUpload.LegendsOrdered | frontend/src/components/DeckUpload.tsx:129-143 | the legends are listed in the order their cards first appear: an earlier entry comes from an earlier card |
| MtgApi.LegendaryCreatureIff | frontend/src/services/mtgApi.ts:193-195 | `isLegendaryCreature` holds exactly when the type line is present and both `Legendary` and `Creature` occur in it, anywhere and in either order |
| MtgApi.LegendaryCreatureCapitals | frontend/src/services/mtgApi.ts:193-195 | the test is case-sensitive: a type line without a capital `L` or without a capital `C` never qualifies |
| MtgApi.NextClose | frontend/src/services/mtgApi.ts:201 | the first `}` at or after a position, or none |
| MtgApi.MatchAt | frontend/src/services/mtgApi.ts:201 | `/\{([^}]+)\}/` matching at a position: a `{`, at least one character other than `}`, then the first `}` |
| MtgApi.Exec | frontend/src/services/mtgApi.ts:205 | `exec` from `lastIndex`: the first match at or after it, a `{` followed by a non-empty group closed by the first `}` |
| MtgApi.GetManaSymbols | frontend/src/services/mtgApi.ts:197-210 | no symbols for a missing cost; otherwise the groups of every match in turn, each non-empty and without `}`, and no more of them than `}` characters |
| MtgApi.ExecAll | frontend/src/services/mtgApi.ts:205-207 | the `while` loop over `exec` collects exactly the groups of all matches |
| MtgApi.SymbolsShape | frontend/src/services/mtgApi.ts:201-207 | every symbol is non-empty and holds no `}`, and there are no more symbols than `}` characters |
| MtgApi.SymbolsExample | frontend/src/services/mtgApi.ts:200-207 | `{1}{U}{B}` gives `1`, `U`, `B`, as the source's comment says |
| MtgApi.EmptyBracesIgnored | frontend/src/services/mtgApi.ts:201-207 | text outside braces and an empty `{}` contribute nothing |
| PhaseSystem.IndexOf | frontend/src/components/PhaseSystem.tsx:130-131 | `indexOf`: a position found holds the phase and no earlier one does; -1 only when the phase is absent |
| PhaseSystem.PhaseOrderComplete | frontend/src/components/PhaseSystem.tsx:129 | every phase is in `phaseOrder`, at a position below 5 |
| PhaseSystem.PhaseIndexInjective | frontend/src/components/PhaseSystem.tsx:129-131 | two phases have the same position exactly when they are the same phase |
| PhaseSystem.Click | frontend/src/components/PhaseSystem.tsx:132-141 | a click hands a phase to `onPhaseChange` exactly when the phase is clickable, and then it is the button's phase |
| PhaseSystem.PhasePositions | frontend/src/components/PhaseSystem.tsx:129 | the positions of the five phases are 0 to 4 in turn order |
| PhaseSystem.CurrentAndEndingClickable | frontend/src/components/PhaseSystem.tsx:132 | the current phase and the ending phase are always clickable |
| PhaseSystem.BeginningClickable | frontend/src/components/PhaseSystem.tsx:132 | the beginning phase is clickable only while it is the current phase |
| PhaseSystem.ClickMovesForward | frontend/src/components/PhaseSystem.tsx:132-150 | a click never goes backwards, and a button for an earlier phase hands nothing on |
| PhaseSystem.ClickableUpward | frontend/src/components/PhaseSystem.tsx:132 | a phase after a clickable one is clickable too |
| PhaseSystem.ClickableShrinks | frontend/src/components/PhaseSystem.tsx:130-132 | a later current phase only removes clickable phases |
| ScryModal.Step | frontend/src/components/game/ScryModal.tsx:14-39 | a click on a card flips whether it is in the order and fires nothing; every other action empties the order, except Confirm on an empty order (the button is disabled); Confirm sends the non-empty order, Put-all-on-bottom sends `[]`, and only Close fires the close callback |
| ScryModal.StepKeepsValid | frontend/src/components/game/ScryModal.tsx:14-24 | every offered action keeps the order free of duplicates and within the revealed cards |
| ScryModal.RunSendsValidDecisions | frontend/src/components/game/ScryModal.tsx:14-39 | over any run of offered actions every decision sent names each revealed card at most once and only cards that exist |
| ScryModal.ToggleTwiceRestores | frontend/src/components/game/ScryModal.tsx:14-24 | clicking an unchosen card twice gives back the order |
| ScryModal.ConfirmExample | frontend/src/components/game/ScryModal.tsx:14-29 | choosing cards 2 and then 0 and confirming sends exactly `[2, 0]` and clears the order |
| AiEffects.EffectsDict | backend/ai_effects_generator.py:186-193 | the dict a text scan or fallback returns has exactly the six effect keys, no activated abilities, and the given description texts |
| AiEffects.FindChar | backend/ai_effects_generator.py:139 | `str.find`: a position found holds the character and no earlier one does; -1 only when it is absent |
| AiEffects.RFindChar | backend/ai_effects_generator.py:140 | `str.rfind`: a position found holds the character and no later one does; -1 only when it is absent |
| AiEffects.JsonSliceExists | backend/ai_effects_generator.py:139-143 | there is a candidate JSON text exactly when some `{` comes before some `}` |
| AiEffects.JsonSliceSpan | backend/ai_effects_generator.py:139-143 | the candidate runs from the first `{` to the last `}` inclusive |
| AiEffects.ParseFallsBack | backend/ai_effects_generator.py:135-151 | a reply is decoded exactly when its candidate is accepted by `json.loads`; with no candidate, or one `loads` rejects, the text scan decides |
| AiEffects.ScanEffects | backend/ai_effects_generator.py:163-180 | the damage effect is present exactly when a damage word was seen, the draw effect exactly when a draw word was, nothing else, damage first |
| AiEffects.KeywordsInMember | backend/ai_effects_generator.py:182-184 | a keyword is collected exactly when it is in the keyword table and its lower-case form occurs in the text |
| AiEffects.AnalyzeTextResponse | backend/ai_effects_generator.py:153-193 | the method with its loop builds exactly the scan's result |
| AiEffects.ScanKeywords | backend/ai_effects_generator.py:182-184 | the `for keyword in self.keywords` loop collects exactly the table keywords found in the text, in table order |
| AiEffects.AnalyzeEffects | backend/ai_effects_generator.py:163-180 | a damage effect exactly when `damage`, `deal` or `burn` occurs, a draw effect exactly when `draw` or `card` occurs |
| AiEffects.AnalyzeKeywords | backend/ai_effects_generator.py:182-188 | `keywords[:3]`: exactly min(3, number found) keywords, each from the table and occurring in the text, and they are the first ones found in table order |
| AiEffects.UnderscoreSurvivesLower | backend/ai_effects_generator.py:183 | lower-casing neither creates nor removes an underscore |
| AiEffects.UnderscoreKeywordNeedsUnderscore | backend/ai_effects_generator.py:182-184 | a keyword spelled with an underscore is found only in a text with an underscore: a reply writing "first strike" never yields `FIRST_STRIKE` |
| AiEffects.StrikeKeywordsHaveUnderscore | backend/ai_effects_generator.py:23-27 | the table spells both strike keywords with an underscore |
| AiEffects.TableKeywordsIff | backend/ai_effects_generator.py:206-216 | a colour keyword is granted exactly when some row of the colour table names it and a colour of the card matches |
| AiEffects.CreatureKeywordsTable | backend/ai_effects_generator.py:206-216 | the five colour tests agree with the colour table |
| AiEffects.EffectsJson | backend/ai_effects_generator.py:218-226 | the effect list holds one dict per effect, in order, each the dict of that effect |
| AiEffects.StringsJson | backend/ai_effects_generator.py:186-193 | the keyword list holds each keyword as a JSON string, in order |
| AiEffects.FactsOf | backend/ai_effects_generator.py:197-199 | `.lower()` raises exactly when the card has a `type_line` that is not a string; otherwise the colours and the cmc are read with their defaults, `[]` and `0` |
| AiEffects.ColorsOfList | backend/ai_effects_generator.py:206-224 | for a list of strings, `'red' in [c.lower() for c in colors]` holds exactly when some item lower-cases to the colour |
| AiEffects.FallbackEffects | backend/ai_effects_generator.py:195-235 | the fallback raises exactly when a creature, instant or sorcery has colours that `[c.lower() for c in colors]` cannot read, or a red instant or sorcery has a cmc `min` cannot compare; otherwise a non-creature gets no keywords, there is a spell effect exactly when the type is instant or sorcery and the card is red, and then it is one damage effect of value `min(cmc, 4)`, at most 4 |
| AiEffects.FallbackKeyword | backend/ai_effects_generator.py:206-216 | when the fallback does not raise, a creature gets each colour keyword exactly when it has that colour; other cards get none |
| AiEffects.ColorKeywordsDistinct | backend/ai_effects_generator.py:206-216 | no two rows of the colour table grant the same keyword |
| AiEffects.WithMetadata | backend/ai_effects_generator.py:62-65 | a parsed reply gains the elapsed time, the model name and the raw reply, and keeps every other entry |
| AiEffects.GenerateCardEffectsKeys | backend/ai_effects_generator.py:34-71 | an answered call, made once the prompt's `', '.join(colors)` succeeds, always records the model, the elapsed time and the raw reply; otherwise the fallback runs in the `except` handler, the exception escapes exactly when the fallback raises, and when it does not the result is the fallback's six entries with no metadata |
| AiEffects.NullColorsRaise | backend/ai_effects_generator.py:34-71 | a creature whose `colors` is `None` gets a prompt, but when the call fails the fallback raises and the exception leaves `generate_card_effects` |
| AiEffects.Enhanced | backend/ai_effects_generator.py:246-256 | `{**card}` keeps every non-`ai_` entry of the card and gains the six `ai_` entries read from the effects, `[]` or `''` when missing |
| AiEffects.EnhanceAll | backend/ai_effects_generator.py:240-258 | when no call raises, one enhanced card per input card |
| AiEffects.EnhanceAllRaises | backend/ai_effects_generator.py:240-258 | the batch raises exactly when generating the effects of one of its cards raises |
| AiEffects.EnhanceAllAt | backend/ai_effects_generator.py:240-258 | when the batch does not raise, each result is its own card enhanced with that card's generated effects, in order |
| AiEffects.GenerateBatchEffects | backend/ai_effects_generator.py:237-264 | the loop returns exactly the enhanced cards, and leaves with the exception as soon as one call raises |
| DeckStore.MaxExists | backend/app.py:41 | a non-empty set of ids has a largest one |
| DeckStore.MaxId | backend/app.py:41 | `max(...)` of the ids is one of them and no id exceeds it |
| DeckStore.NextId | backend/app.py:37-41 | the next id is 1 for an empty store and otherwise one more than the largest id, so it is larger than every id in use and never collides |
| DeckStore.LegendaryCreatureTypeAgrees | backend/app.py:103 | on a string type line, the upload's `'Legendary' in t and 'Creature' in t` agrees with the client's `isLegendaryCreature` |
| DeckStore.PyIn | backend/app.py:103 | `in` on a string is the substring test; on `None`, a boolean or a number it raises |
| DeckStore.DictLoopItems | backend/app.py:102-103 | a `for` loop whose body calls `.get` on each element visits a list's items; over a non-empty string or dict it raises |
| DeckStore.Summary | backend/app.py:104-108 | a legendary summary has exactly the keys `id`, `name` and `mana_cost` |
| DeckStore.ExtractLegendaries | backend/app.py:101-108 | the loop computes exactly the reference function's list of legendary summaries, or raises where it does |
| DeckStore.LegendariesStuck | backend/app.py:102-108 | once the loop has raised, it has raised for the whole list |
| DeckStore.LegendariesExact | backend/app.py:101-108 | when every card is a dict with a string type the loop never raises and collects, in card order, exactly the cards whose type contains both `Legendary` and `Creature` |
| DeckStore.LegendaryStepPlain | backend/app.py:103-108 | on a card with a string type, a pass adds the card's summary exactly when it is a legendary creature |
| DeckStore.LegendariesRejectNonDict | backend/app.py:102-103 | a card that is not a dict makes the loop raise, whatever the other cards are |
| DeckStore.NamedStep | backend/app.py:148-184 | a named entry adds exactly one processed card (the database's card with the quantity, or the name with the not-found error) and at most one legendary summary, keeping the earlier ones |
| DeckStore.ProcessDeckList | backend/app.py:137-184 | the legacy loop computes exactly the reference function's processed cards and legendary summaries, or raises where it does |
| DeckStore.EntryStepCounts | backend/app.py:140-184 | one entry adds a card exactly when its stripped name is not blank, and never more legendary summaries than cards |
| DeckStore.ProcessedCounts | backend/app.py:137-184 | a deck list processed without raising yields one card per named entry, found or not, and at most as many legendary summaries as cards |
| DeckStore.Fill | backend/app.py:224-233 | `if key not in deck: deck[key] = value` adds the key and keeps every value the deck had |
| DeckStore.WithDefaultsKeeps | backend/app.py:223-233 | the repaired deck has the five default fields added, and every field it had keeps its value |
| DeckStore.WithDefaultsFills | backend/app.py:223-233 | each field the stored deck lacks gets its default: the requested id, empty card and legendary lists, the clock reading for both stamps |
| DeckStore.NewDeckNeedsNoDefaults | backend/app.py:110-120 | a deck create_deck saves already has every field get_deck would fill in |
| DeckStore.ProbeField | backend/app.py:259-264 | `key in data` on a dict request finds the value exactly when the key is present |
| DeckStore.MergeableByProbes | backend/app.py:259-264 | a request on which none of the three `in` tests raises can be merged |
| DeckStore.Overwrite | backend/app.py:259-264 | `if key in data: deck[key] = data[key]` sets exactly that key to the request's value and keeps every other field; a missing key changes nothing |
| DeckStore.MergedKeys | backend/app.py:259-266 | the updated deck has its old fields, `updated_at`, and the editable fields the request sets |
| DeckStore.MergedFields | backend/app.py:259-266 | `updated_at` is the clock reading; an editable field the request sets takes its value; every other field keeps its old value |
| DeckStore.MergedOnlyStamps | backend/app.py:259-266 | a request naming no editable field only stamps the time |
| DeckStore.MergedTwice | backend/app.py:259-266 | updating twice with the same request is updating once, with the later time |
| DeckStore.DeckStore.constructor | backend/app.py:14-24 | the store starts with what the file held |
| DeckStore.DeckStore.CreateDeck | backend/app.py:79-207 | a non-dict body crashes; a falsy name is refused with 400; otherwise the deck built for the next id is stored under that fresh id and returned with 201 when saving succeeds, a save failure gives 500 and leaves the store alone, and a refused or crashed build changes nothing |
| DeckStore.DeckStore.GetDeck | backend/app.py:209-245 | a missing or falsy deck gives 404, a non-dict one 500, otherwise the deck with its missing fields filled in; the store is unchanged |
| DeckStore.DeckStore.UpdateDeck | backend/app.py:247-275 | a missing or falsy deck gives 404; a non-dict deck or a request the `in` tests raise on crashes; otherwise the merged deck is stored and returned when saving succeeds, and a failed save gives 500; the store changes only on success |
| DeckStore.DeckStore.DeleteDeck | backend/app.py:277-296 | a missing or falsy deck gives 404; otherwise the deck is removed and the success message returned when saving succeeds, and a failed save gives 500 and keeps it |
| DeckStore.BuildDeck | backend/app.py:95-196 | a built deck has status 201 and a card list and a legendary list; a build that stops either crashed or was refused for a missing deck list, which happens only when the request has no `cards` and a falsy `deck_list` |
| DeckStore.BuildDeckLoop | backend/app.py:95-196 | running the two loops gives exactly the build its reference function defines |

## Left out

- React rendering, modals, `alert` and `console.log`: they carry no game state.
- `Math.random`: the shuffle's rolls and the exile insert position are parameters. The random generator itself is not modelled.
- Animation timers: each timer's update is modelled as happening at once, in program order. Interleaving with other operations while a timer is pending is not modelled.
- Network and persistence:
  - the fetch in `loadDeck` (only the expansion of the fetched deck is modelled);
  - the fetch loop of `processCardsForData` (the found cards are its input);
  - the OpenAI call and `json.loads`, which are function parameters;
  - the card database query `Card.where`, which is a parameter.
- The Flask request plumbing and the JSON file I/O of `backend/app.py`:
  - the file is the `decks` field of `DeckStore.DeckStore`, a successful `save_decks` assigns it, and whether the save succeeds is a parameter;
  - a file that is missing or does not parse is not modelled: the store starts from the decks given to the constructor.
- `get_decks` (`backend/app.py:43-77`) and `search_cards` (`backend/app.py:298-324`) are not part of this model. The first repeats `get_deck`'s default filling over every stored deck. The second queries the card database.
- Deck ids are integers. The file's `str(id)` keys and the `int(k)` in `get_next_id` are left out, so a key that is not a decimal numeral is not modelled. Dict key order is not modelled either.
- Python exceptions are one `Crashed` reply. The 500 response's exception text is not modelled.
- `time.sleep` between AI calls in `generate_batch_effects`: a delay with no effect on the result.
- `_create_effect_prompt` builds the text sent to the AI. It has no effect on the parsed result once the reply is a parameter.
- Lower-casing (`toLowerCase`, `str.lower`) is ASCII-only. No Unicode case mapping or normalisation.
- Python `strip` uses the white-space set of JavaScript `trim` (`JsText.IsSpace`). The few characters that only one language counts as white space are not told apart, for example U+001C-U+001F and U+0085 for Python and U+FEFF for JavaScript.
- NaN: unblocked damage uses `parseInt(power || '0')` without `|| 0`, so a power with no leading digits makes the defender's life total NaN. NaN is not modelled:
  - `Combat.DirectWrites` (`resolveCombatDamage`, `DeckProvider.tsx:1550`) reads such a power as 0;
  - `CombatResolution.UnblockedWrites` (`resolveCombat`, `DeckProvider.tsx:2276`) writes no life change for it.
  The NaN comparisons of the fights in `resolveCombat` are modelled: they are false.
- Floating point: `cmc` is read as a natural number or absent. Fractional mana values are not modelled.
- `AiEffects.FallbackEffects`: `cmc` is an integer. Scryfall sends a float such as `3.0`, and Python then writes `3.0` as the damage value and "Deal 3.0 damage ..." in the description; the model writes `3`. A boolean `cmc` (read as 0 or 1) is written by Python as the boolean itself. Neither is modelled, since JSON numbers here are integers.
- `DeckTypes.SpellEffect`: an effect's `value` is a natural number or absent. Negative and fractional values from a card's effect data are not modelled.
- `Mana.MarkFirst`: `spendManaForCard` and `castCommander` set `available = false` on objects reached through a shallow copy of the mana sources (`DeckProvider.tsx:534`, `555`, `1341`, `1362`), which also changes the snapshot's source objects. The sources are values here, so that aliasing and in-place update is not modelled; the written state is.
- `Mana.SpendOne`: `spendMana(color)` takes any string. Only the six colour buckets are modelled; for another string the source writes NaN under a new key of the pool.
- `getActivatableAbilities` (`DeckProvider.tsx:2928`), `addKeywordsToCard`, `getAllExampleCards` and `getCardsWithCustomEffects` are simple filters and projections that nothing in the core calls. They are not modelled.
- The catalogue of example cards in `cardEffects.ts` is a parameter of the card-effect functions. Its forty records are not reproduced.
- A player id that equals a permanent's `${id}-${placedAt}` target id is not modelled. Targets are a datatype with one constructor for players and one for permanents.
- `MtgApi.GetManaSymbols`: `regex.exec` is modelled for this one pattern, `/\{([^}]+)\}/g`. General regular expressions are not modelled.
