/**
 * The library of one player (frontend/src/contexts/DeckProvider.tsx:321-328,
 * 573-713, 1243-1281, 1758-1850, 2048-2114): expanding a deck list into
 * library cards, shuffling, drawing, scrying, searching, and putting cards
 * back into the library. `shuffledDeck[0..currentDeckIndex)` is the drawn
 * part; the rest is still to be drawn.
 */
module Library {
  import opened Common
  import opened JsText
  import opened DeckTypes
  import opened Players
  import opened CardRules
  import opened CardEffects
  import opened ScrySelection

  // ----- loadDeck / resetSimulation: expanding the deck list -----

  /** `card.id.toString() === deck.commander_id`. */
  predicate IsCommander(commanderId: Option<string>, c: Card)
  {
    commanderId == Some(IntToString(c.id))
  }

  /** How many times the push loop runs for `card.quantity || 1`. */
  function Copies(c: Card): nat
  {
    match c.quantity
    case None => 1
    case Some(q) => if q == 0 then 1 else if q < 0 then 0 else q
  }

  /** The library cards one deck-list entry pushes, numbered from `from`. */
  function CopiesOf(c: Card, from: nat, k: nat): (r: seq<Inst>)
    ensures |r| == k
    ensures forall i :: 0 <= i < k ==> r[i] == FromCard(c).(originalIndex := from + i)
  {
    seq(k, i requires 0 <= i < k => FromCard(c).(originalIndex := from + i))
  }

  /** What the entry `c` contributes: nothing for the commander, else Copies(c) copies. */
  function Contribution(commanderId: Option<string>, c: Card): nat
  {
    if IsCommander(commanderId, c) then 0 else Copies(c)
  }

  /** The loop's `allCards` after the entries in `cards`, stamped 0, 1, 2, ... (`index++`). */
  function Expansion(cards: seq<Card>, commanderId: Option<string>): seq<Inst>
    decreases |cards|
  {
    if cards == [] then []
    else
      var front := Expansion(cards[..|cards| - 1], commanderId);
      var last := cards[|cards| - 1];
      front + CopiesOf(last, |front|, Contribution(commanderId, last))
  }

  function TotalCopies(cards: seq<Card>, commanderId: Option<string>): nat
    decreases |cards|
  {
    if cards == [] then 0
    else TotalCopies(cards[..|cards| - 1], commanderId) + Contribution(commanderId, cards[|cards| - 1])
  }

  /**
   * The expansion holds Copies(c) cards per non-commander entry and none of
   * the commander, each stamped with its own position.
   */
  lemma {:induction false} ExpansionShape(cards: seq<Card>, commanderId: Option<string>)
    ensures var e := Expansion(cards, commanderId);
      && |e| == TotalCopies(cards, commanderId)
      && (forall j :: 0 <= j < |e| ==> e[j].originalIndex == j)
      && (forall j :: 0 <= j < |e| ==> e[j].card in cards && !IsCommander(commanderId, e[j].card))
      && (forall j :: 0 <= j < |e| ==> e[j] == FromCard(e[j].card).(originalIndex := j))
    decreases |cards|
  {
    if cards != [] {
      var front := cards[..|cards| - 1];
      ExpansionShape(front, commanderId);
      var e := Expansion(cards, commanderId);
      var ef := Expansion(front, commanderId);
      var last := cards[|cards| - 1];
      forall j | 0 <= j < |e|
        ensures e[j].card in cards && !IsCommander(commanderId, e[j].card)
      {
        if j < |ef| {
          assert e[j] == ef[j];
          assert e[j].card in front;
        } else {
          assert e[j].card == last;
        }
      }
    }
  }

  /** The commander entry contributes nothing to the library. */
  lemma CommanderNotInLibrary(cards: seq<Card>, commanderId: Option<string>, c: Card)
    requires IsCommander(commanderId, c)
    ensures forall x :: x in Expansion(cards, commanderId) ==> x.card != c
  {
    ExpansionShape(cards, commanderId);
  }

  lemma ExpansionStep(cards: seq<Card>, commanderId: Option<string>, ci: nat)
    requires ci < |cards|
    ensures Expansion(cards[..ci + 1], commanderId)
      == Expansion(cards[..ci], commanderId)
         + CopiesOf(cards[ci], |Expansion(cards[..ci], commanderId)|, Contribution(commanderId, cards[ci]))
  {
    assert cards[..ci + 1][..ci] == cards[..ci];
  }

  lemma CopiesOfStep(c: Card, from: nat, k: nat)
    ensures CopiesOf(c, from, k + 1) == CopiesOf(c, from, k) + [FromCard(c).(originalIndex := from + k)]
  {
  }

  /** One pass of the inner push loop: `quantity` copies stamped `index++`. */
  method PushCopies(allCards: seq<Inst>, card: Card, quantity: nat) returns (r: seq<Inst>)
    ensures r == allCards + CopiesOf(card, |allCards|, quantity)
  {
    r := allCards;
    var index := |allCards|;
    var i := 0;
    while i < quantity
      invariant 0 <= i <= quantity
      invariant r == allCards + CopiesOf(card, |allCards|, i)
      invariant index == |allCards| + i
    {
      CopiesOfStep(card, |allCards|, i);
      r := r + [FromCard(card).(originalIndex := index)];
      index := index + 1;
      i := i + 1;
    }
  }

  /** The push loops of loadDeck (587-614) and resetSimulation (2044-2054). */
  method ExpandDeck(cards: seq<Card>, commanderId: Option<string>) returns (allCards: seq<Inst>)
    ensures allCards == Expansion(cards, commanderId)
  {
    allCards := [];
    var ci := 0;
    while ci < |cards|
      invariant 0 <= ci <= |cards|
      invariant allCards == Expansion(cards[..ci], commanderId)
    {
      var card := cards[ci];
      ExpansionStep(cards, commanderId, ci);
      if !IsCommander(commanderId, card) {
        allCards := PushCopies(allCards, card, Copies(card));
      } else {
        assert CopiesOf(card, |allCards|, 0) == [];
      }
      ci := ci + 1;
    }
    assert cards[..ci] == cards;
  }

  // ----- shuffleArray -----

  /**
   * The swap position `Math.floor(Math.random() * (i + 1))` for step `i`,
   * taken from the caller's `picks` (0 when it has none for that step).
   */
  function PickFor(picks: seq<nat>, i: nat): nat
  {
    if i < |picks| then picks[i] % (i + 1) else 0
  }

  function Swap<T>(s: seq<T>, i: nat, j: nat): (r: seq<T>)
    requires i < |s| && j < |s|
    ensures |r| == |s| && r[i] == s[j] && r[j] == s[i]
    ensures forall k :: 0 <= k < |s| && k != i && k != j ==> r[k] == s[k]
  {
    s[i := s[j]][j := s[i]]
  }

  /** The array after the swap loop has run for i = top, top-1, ..., 1. */
  function ShuffleDown<T>(s: seq<T>, picks: seq<nat>, top: nat): (r: seq<T>)
    requires top < |s|
    ensures |r| == |s|
    decreases top
  {
    if top == 0 then s
    else ShuffleDown(Swap(s, top, PickFor(picks, top)), picks, top - 1)
  }

  /** `shuffleArray`. */
  function Shuffled<T>(s: seq<T>, picks: seq<nat>): (r: seq<T>)
    ensures |r| == |s|
  {
    if |s| <= 1 then s else ShuffleDown(s, picks, |s| - 1)
  }

  lemma SwapPermutes(s: seq<Inst>, i: nat, j: nat)
    requires i < |s| && j < |s|
    ensures multiset(Swap(s, i, j)) == multiset(s)
  {
    if i != j {
      var t := s[i := s[j]];
      assert multiset(t) == multiset(s) - multiset{s[i]} + multiset{s[j]};
      assert multiset(t[j := s[i]]) == multiset(t) - multiset{t[j]} + multiset{s[i]};
    }
  }

  lemma {:induction false} ShuffleDownPermutes(s: seq<Inst>, picks: seq<nat>, top: nat)
    requires top < |s|
    ensures multiset(ShuffleDown(s, picks, top)) == multiset(s)
    decreases top
  {
    if top > 0 {
      SwapPermutes(s, top, PickFor(picks, top));
      ShuffleDownPermutes(Swap(s, top, PickFor(picks, top)), picks, top - 1);
    }
  }

  /** A shuffle only permutes the cards, whatever the random picks. */
  lemma ShufflePermutes(s: seq<Inst>, picks: seq<nat>)
    ensures multiset(Shuffled(s, picks)) == multiset(s)
  {
    if |s| > 1 {
      ShuffleDownPermutes(s, picks, |s| - 1);
    }
  }

  lemma ShuffleDownStep(s: seq<Inst>, picks: seq<nat>, i: nat)
    requires 0 < i < |s|
    ensures ShuffleDown(Swap(s, i, PickFor(picks, i)), picks, i - 1) == ShuffleDown(s, picks, i)
  {
  }

  /** `shuffleArray`: copy, then swap from the top down (DeckProvider.tsx:321-328). */
  method ShuffleArray(cards: seq<Inst>, picks: seq<nat>) returns (shuffled: seq<Inst>)
    ensures shuffled == Shuffled(cards, picks)
  {
    if |cards| <= 1 {
      return cards;
    }
    var a := new Inst[|cards|](k requires 0 <= k < |cards| => cards[k]);
    assert a[..] == cards;
    var i := |cards| - 1;
    while i > 0
      invariant 0 <= i < a.Length == |cards|
      invariant ShuffleDown(a[..], picks, i) == Shuffled(cards, picks)
      modifies a
    {
      var j := PickFor(picks, i);
      ghost var before := a[..];
      ShuffleDownStep(before, picks, i);
      var t := a[i];
      a[i] := a[j];
      a[j] := t;
      assert a[..] == Swap(before, i, j);
      i := i - 1;
    }
    shuffled := a[..];
  }

  /** The opening hand: the first seven library cards (fewer if the library is shorter). */
  function OpeningHand(library: seq<Inst>): (r: seq<Inst>)
    ensures |r| == Min(7, |library|) && r == library[..|r|]
  {
    Take(library, 7)
  }

  /**
   * loadDeck once the deck has been fetched: enhance the cards, expand and
   * shuffle them, deal seven and set the cursor to 7.
   */
  function LoadDeckPatch(fetched: Deck, effects: map<string, Entry>, picks: seq<nat>): Patch
  {
    var deck := fetched.(cards := EnhanceAll(effects, fetched.cards));
    var shuffled := Shuffled(Expansion(deck.cards, deck.commanderId), picks);
    Keep.(deck := Some(Some(deck)), shuffledDeck := Some(shuffled),
          currentDeckIndex := Some(7), drawnCards := Some(OpeningHand(shuffled)))
  }

  /**
   * After loadDeck the library is a permutation of the expanded deck list,
   * the hand is its first seven cards, and the cursor is 7 even when the
   * library holds fewer than seven cards.
   */
  lemma LoadDeckEffect(p: PlayerState, fetched: Deck, effects: map<string, Entry>, picks: seq<nat>)
    ensures var q := Merge(p, LoadDeckPatch(fetched, effects, picks));
      var cards := EnhanceAll(effects, fetched.cards);
      && q.deck == Some(fetched.(cards := cards))
      && multiset(q.shuffledDeck) == multiset(Expansion(cards, fetched.commanderId))
      && |q.shuffledDeck| == TotalCopies(cards, fetched.commanderId)
      && q.drawnCards == q.shuffledDeck[..Min(7, |q.shuffledDeck|)]
      && q.currentDeckIndex == 7
  {
    var cards := EnhanceAll(effects, fetched.cards);
    ShufflePermutes(Expansion(cards, fetched.commanderId), picks);
    ExpansionShape(cards, fetched.commanderId);
  }

  /** With fewer than seven library cards the cursor starts past the end of the library. */
  lemma LoadDeckShortLibrary(p: PlayerState, fetched: Deck, effects: map<string, Entry>, picks: seq<nat>)
    requires TotalCopies(EnhanceAll(effects, fetched.cards), fetched.commanderId) < 7
    ensures var q := Merge(p, LoadDeckPatch(fetched, effects, picks));
      q.currentDeckIndex > |q.shuffledDeck| && q.drawnCards == q.shuffledDeck
  {
    LoadDeckEffect(p, fetched, effects, picks);
  }

  // ----- drawCard / drawMultipleCards -----

  /** The writes of drawCard, its animation timer committed (628-670). */
  function DrawCardPatches(p: PlayerState): seq<Patch>
  {
    if p.currentDeckIndex >= |p.shuffledDeck| then []
    else
      var card := p.shuffledDeck[p.currentDeckIndex];
      [Keep.(drawingCard := Some(Some(card)), isDrawingCard := Some(true)),
       Keep.(drawnCards := Some(p.drawnCards + [card]), currentDeckIndex := Some(p.currentDeckIndex + 1),
             isDrawingCard := Some(false), drawingCard := Some(None))]
      + if p.turnState.currentPhase == Beginning && !p.turnState.hasDrawnForTurn
        then [Keep.(turnState := Some(p.turnState.(hasDrawnForTurn := true)))]
        else []
  }

  /** With the cursor at or past the end of the library, drawCard changes nothing. */
  lemma DrawCardEmptyLibrary(p: PlayerState)
    requires p.currentDeckIndex >= |p.shuffledDeck|
    ensures MergeAll(p, DrawCardPatches(p)) == p
  {
  }

  /**
   * Otherwise the card under the cursor goes to the end of the hand, the
   * cursor moves by exactly one, and the turn's draw is recorded during the
   * beginning phase.
   */
  lemma DrawCardDraws(p: PlayerState)
    requires p.currentDeckIndex < |p.shuffledDeck|
    ensures var q := MergeAll(p, DrawCardPatches(p));
      && q.drawnCards == p.drawnCards + [p.shuffledDeck[p.currentDeckIndex]]
      && q.currentDeckIndex == p.currentDeckIndex + 1
      && !q.isDrawingCard && q.drawingCard.None?
      && q.turnState == (if p.turnState.currentPhase == Beginning then p.turnState.(hasDrawnForTurn := true) else p.turnState)
  {
    DrawCardSteps(p);
  }

  /** drawCard changes nothing else: in particular the library stays as it was. */
  lemma DrawCardFrame(p: PlayerState)
    requires p.currentDeckIndex < |p.shuffledDeck|
    ensures var q := MergeAll(p, DrawCardPatches(p));
      q == p.(drawnCards := q.drawnCards, currentDeckIndex := q.currentDeckIndex,
              isDrawingCard := false, drawingCard := None, turnState := q.turnState)
  {
    DrawCardSteps(p);
  }

  lemma DrawCardSteps(p: PlayerState)
    requires p.currentDeckIndex < |p.shuffledDeck|
    ensures var card := p.shuffledDeck[p.currentDeckIndex];
      var drawn := p.(drawnCards := p.drawnCards + [card], currentDeckIndex := p.currentDeckIndex + 1,
                      isDrawingCard := false, drawingCard := None);
      MergeAll(p, DrawCardPatches(p)) ==
        if p.turnState.currentPhase == Beginning && !p.turnState.hasDrawnForTurn
        then drawn.(turnState := p.turnState.(hasDrawnForTurn := true)) else drawn
  {
    var card := p.shuffledDeck[p.currentDeckIndex];
    var f1 := Keep.(drawingCard := Some(Some(card)), isDrawingCard := Some(true));
    var f2 := Keep.(drawnCards := Some(p.drawnCards + [card]), currentDeckIndex := Some(p.currentDeckIndex + 1),
                    isDrawingCard := Some(false), drawingCard := Some(None));
    MergeTwo(p, f1, f2);
    var m := Merge(Merge(p, f1), f2);
    if p.turnState.currentPhase == Beginning && !p.turnState.hasDrawnForTurn {
      var f3 := Keep.(turnState := Some(p.turnState.(hasDrawnForTurn := true)));
      assert DrawCardPatches(p) == [f1, f2] + [f3];
      MergeAllAppend(p, [f1, f2], [f3]);
      MergeOne(m, f3);
    } else {
      assert DrawCardPatches(p) == [f1, f2];
    }
  }

  /** drawCard keeps the cursor within the library when it starts there. */
  lemma DrawCardKeepsCursorInBounds(p: PlayerState)
    requires p.currentDeckIndex <= |p.shuffledDeck|
    ensures var q := MergeAll(p, DrawCardPatches(p));
      q.currentDeckIndex <= |q.shuffledDeck|
  {
    if p.currentDeckIndex < |p.shuffledDeck| {
      DrawCardSteps(p);
    }
  }

  /**
   * The writes of drawMultipleCards with its timers committed: the per-card
   * animation leaves the flags cleared, then the batch goes IN FRONT of the
   * hand (705).
   */
  function DrawMultiplePatches(p: PlayerState, count: nat): seq<Patch>
  {
    if p.currentDeckIndex + count > |p.shuffledDeck| then []
    else
      var batch := p.shuffledDeck[p.currentDeckIndex..p.currentDeckIndex + count];
      (if count > 0 then [Keep.(isDrawingCard := Some(false), drawingCard := Some(None))] else [])
      + [Keep.(drawnCards := Some(batch + p.drawnCards), currentDeckIndex := Some(p.currentDeckIndex + count),
               showDeckActions := Some(false))]
  }

  /** drawMultipleCards refuses a batch larger than the rest of the library. */
  lemma DrawMultipleRefuses(p: PlayerState, count: nat)
    requires p.currentDeckIndex + count > |p.shuffledDeck|
    ensures MergeAll(p, DrawMultiplePatches(p, count)) == p
  {
  }

  /**
   * Otherwise the next `count` cards go in front of the hand, the cursor
   * moves by `count`, and the library itself is untouched.
   */
  lemma DrawMultipleDraws(p: PlayerState, count: nat)
    requires p.currentDeckIndex + count <= |p.shuffledDeck|
    ensures var q := MergeAll(p, DrawMultiplePatches(p, count));
      && q.drawnCards == p.shuffledDeck[p.currentDeckIndex..p.currentDeckIndex + count] + p.drawnCards
      && q.currentDeckIndex == p.currentDeckIndex + count
      && q.shuffledDeck == p.shuffledDeck
      && !q.showDeckActions
      && (count > 0 ==> !q.isDrawingCard && q.drawingCard.None?)
  {
    var batch := p.shuffledDeck[p.currentDeckIndex..p.currentDeckIndex + count];
    var f0 := Keep.(isDrawingCard := Some(false), drawingCard := Some(None));
    var f := Keep.(drawnCards := Some(batch + p.drawnCards), currentDeckIndex := Some(p.currentDeckIndex + count),
                   showDeckActions := Some(false));
    if count > 0 {
      assert DrawMultiplePatches(p, count) == [f0, f];
      MergeTwo(p, f0, f);
    } else {
      assert DrawMultiplePatches(p, count) == [f];
      MergeOne(p, f);
    }
  }

  /**
   * Drawing one card with drawCard and drawing a batch of one put the card at
   * opposite ends of the hand.
   */
  lemma DrawOneVersusBatchOfOne(p: PlayerState)
    requires p.currentDeckIndex < |p.shuffledDeck|
    ensures var c := p.shuffledDeck[p.currentDeckIndex];
      && MergeAll(p, DrawCardPatches(p)).drawnCards == p.drawnCards + [c]
      && MergeAll(p, DrawMultiplePatches(p, 1)).drawnCards == [c] + p.drawnCards
  {
    assert p.shuffledDeck[p.currentDeckIndex..p.currentDeckIndex + 1] == [p.shuffledDeck[p.currentDeckIndex]];
    DrawCardDraws(p);
    DrawMultipleDraws(p, 1);
  }

  // ----- shuffleDeck -----

  /** The library after shuffleDeck: the drawn part kept, the undrawn part shuffled. */
  function ShuffledLibrary(deck: seq<Inst>, cursor: nat, picks: seq<nat>): seq<Inst>
  {
    Take(deck, cursor) + Shuffled(Drop(deck, cursor), picks)
  }

  /** The writes of shuffleDeck, its timer committed (1759-1779). */
  function ShuffleDeckPatches(p: PlayerState, picks: seq<nat>): seq<Patch>
  {
    [Keep.(isShuffling := Some(true)),
     Keep.(shuffledDeck := Some(ShuffledLibrary(p.shuffledDeck, p.currentDeckIndex, picks)), isShuffling := Some(false))]
  }

  /** Shuffling the undrawn part keeps the drawn part and the cards. */
  lemma ShuffledLibraryKeepsDrawn(d: seq<Inst>, k: nat, picks: seq<nat>)
    ensures var r := ShuffledLibrary(d, k, picks);
      && |r| == |d|
      && Take(r, k) == Take(d, k)
      && multiset(Drop(r, k)) == multiset(Drop(d, k))
      && multiset(r) == multiset(d)
  {
    var r := ShuffledLibrary(d, k, picks);
    ShufflePermutes(Drop(d, k), picks);
    assert Take(r, k) == Take(d, k);
    assert Drop(r, k) == Shuffled(Drop(d, k), picks);
    assert d == Take(d, k) + Drop(d, k);
  }

  /**
   * shuffleDeck keeps the drawn part of the library, permutes the undrawn
   * part, and leaves the cursor and the flag as they were before.
   */
  lemma ShuffleDeckKeepsDrawn(p: PlayerState, picks: seq<nat>)
    ensures var q := MergeAll(p, ShuffleDeckPatches(p, picks));
      && q.shuffledDeck == ShuffledLibrary(p.shuffledDeck, p.currentDeckIndex, picks)
      && q == p.(shuffledDeck := q.shuffledDeck, isShuffling := false)
  {
    MergeTwo(p, ShuffleDeckPatches(p, picks)[0], ShuffleDeckPatches(p, picks)[1]);
  }

  // ----- scry -----

  /** scry: look at the next `count` library cards (1781-1787). */
  function ScryPatch(p: PlayerState, count: nat): Patch
  {
    Keep.(scryCards := Some(Slice(p.shuffledDeck, p.currentDeckIndex, p.currentDeckIndex + count)))
  }

  /**
   * The scried cards are the next min(count, cards left) cards of the
   * library, in order, and nothing else changes.
   */
  lemma ScryLooksAhead(p: PlayerState, count: nat)
    ensures var q := Merge(p, ScryPatch(p, count));
      var k := p.currentDeckIndex;
      && (k <= |p.shuffledDeck| ==> |q.scryCards| == Min(count, |p.shuffledDeck| - k))
      && (forall i :: 0 <= i < |q.scryCards| ==> k + i < |p.shuffledDeck| && q.scryCards[i] == p.shuffledDeck[k + i])
      && q == p.(scryCards := q.scryCards)
  {
  }

  // ----- searchLibrary / selectCardFromSearch -----

  /** The search test of searchLibrary: name or type contains the term, ignoring case. */
  predicate SearchMatches(term: string, x: Inst)
  {
    || Contains(ToLower(x.card.name), ToLower(term))
    || (x.card.typeLine.Some? && Contains(ToLower(x.card.typeLine.value), ToLower(term)))
  }

  /** searchLibrary over the undrawn part of the library (1789-1803). */
  function SearchPatch(p: PlayerState, term: string): Patch
  {
    Keep.(searchResults := Some(Filter(Drop(p.shuffledDeck, p.currentDeckIndex), (x: Inst) => SearchMatches(term, x))),
          isSearching := Some(true))
  }

  /**
   * The results are exactly the undrawn cards that match, never a drawn one,
   * and the search window opens.
   */
  lemma SearchFindsExactly(p: PlayerState, term: string, x: Inst)
    ensures var q := Merge(p, SearchPatch(p, term));
      && (x in q.searchResults <==> x in Drop(p.shuffledDeck, p.currentDeckIndex) && SearchMatches(term, x))
      && q.isSearching
      && q == p.(searchResults := q.searchResults, isSearching := true)
  {
  }

  /** A search for the empty term lists the whole undrawn library. */
  lemma EmptySearchListsAll(p: PlayerState, x: Inst)
    ensures var q := Merge(p, SearchPatch(p, ""));
      x in q.searchResults <==> x in Drop(p.shuffledDeck, p.currentDeckIndex)
  {
    ContainsEmpty(ToLower(x.card.name));
  }

  datatype SearchAction = ToHand | ToBattlefield | ToTop

  /**
   * `newDeck.findIndex(card => card.id === id && newDeck.indexOf(card) >= cursor)`:
   * the first card at or after the cursor with that card id. Library entries
   * are distinct objects, so `indexOf(card)` is the card's own position.
   */
  function FindFrom(deck: seq<Inst>, cursor: nat, cardId: int): (r: Option<nat>)
    ensures r.Some? ==> cursor <= r.value < |deck| && deck[r.value].card.id == cardId
    ensures r.Some? ==> forall j :: cursor <= j < r.value ==> deck[j].card.id != cardId
    ensures r.None? ==> forall j :: cursor <= j < |deck| ==> deck[j].card.id != cardId
    decreases |deck| - cursor
  {
    if cursor >= |deck| then None
    else if deck[cursor].card.id == cardId then Some(cursor)
    else FindFrom(deck, cursor + 1, cardId)
  }

  /** `splice(k, 1)` then `splice(cursor, 0, card)`: the card at k moved up to the cursor. */
  function MoveUp(deck: seq<Inst>, cursor: nat, k: nat): (r: seq<Inst>)
    requires cursor <= k < |deck|
  {
    deck[..cursor] + [deck[k]] + deck[cursor..k] + deck[k + 1..]
  }

  /** The library after "put on top": the first matching undrawn card moved under the cursor. */
  function MovedToTop(deck: seq<Inst>, cursor: nat, cardId: int): seq<Inst>
  {
    match FindFrom(deck, cursor, cardId)
    case None => deck
    case Some(k) => MoveUp(deck, cursor, k)
  }

  /** Moving a card up keeps the drawn part and the cards, and puts the card under the cursor. */
  lemma MoveUpPermutes(deck: seq<Inst>, cursor: nat, k: nat)
    requires cursor <= k < |deck|
    ensures var r := MoveUp(deck, cursor, k);
      && |r| == |deck| && r[..cursor] == deck[..cursor] && r[cursor] == deck[k]
      && r[k + 1..] == deck[k + 1..]
      && multiset(r) == multiset(deck)
  {
    var r := MoveUp(deck, cursor, k);
    assert deck == deck[..cursor] + deck[cursor..k] + [deck[k]] + deck[k + 1..];
    assert r[k + 1..] == deck[k + 1..];
  }

  /** "Put on top" keeps the drawn part and the multiset of cards; the card found sits under the cursor. */
  lemma MovedToTopEffect(deck: seq<Inst>, cursor: nat, cardId: int)
    ensures var r := MovedToTop(deck, cursor, cardId);
      && |r| == |deck| && Take(r, cursor) == Take(deck, cursor) && multiset(r) == multiset(deck)
      && (FindFrom(deck, cursor, cardId).Some? ==> r[cursor].card.id == cardId)
      && (FindFrom(deck, cursor, cardId).None? ==> r == deck)
  {
    match FindFrom(deck, cursor, cardId)
    case None =>
    case Some(k) => MoveUpPermutes(deck, cursor, k);
  }

  /** The splices of the "toTop" branch of selectCardFromSearch (1840-1850). */
  method MoveToTop(deck: seq<Inst>, cursor: nat, cardId: int) returns (newDeck: seq<Inst>)
    ensures newDeck == MovedToTop(deck, cursor, cardId)
  {
    newDeck := deck;
    var cardIndex := 0;
    while cardIndex < |newDeck| && !(newDeck[cardIndex].card.id == cardId && cardIndex >= cursor)
      invariant 0 <= cardIndex <= |deck|
      invariant forall j :: cursor <= j < cardIndex ==> deck[j].card.id != cardId
      invariant FindFrom(deck, cursor, cardId) == FindFrom(deck, if cardIndex < cursor then cursor else cardIndex, cardId)
    {
      cardIndex := cardIndex + 1;
    }
    if cardIndex < |newDeck| {
      var card := newDeck[cardIndex];
      newDeck := newDeck[..cardIndex] + newDeck[cardIndex + 1..];
      newDeck := newDeck[..cursor] + [card] + newDeck[cursor..];
      assert newDeck == MoveUp(deck, cursor, cardIndex);
    }
  }

  /** selectCardFromSearch (1805-1858); `now` is the `placedAt` stamp for the battlefield. */
  function SelectFromSearchPatch(p: PlayerState, selected: Inst, action: SearchAction, now: nat): Patch
  {
    var closed := Keep.(searchResults := Some([]), isSearching := Some(false));
    match action
    case ToHand => closed.(drawnCards := Some([selected] + p.drawnCards))
    case ToBattlefield =>
      if IsLand(selected.card) then closed.(lands := Some(p.lands + [selected.(placedAt := now)]))
      else closed.(creatures := Some(p.creatures + [selected.(placedAt := now)]))
    case ToTop => closed.(shuffledDeck := Some(MovedToTop(p.shuffledDeck, p.currentDeckIndex, selected.card.id)))
  }

  /**
   * Taking a searched card to the hand or the battlefield adds a copy there
   * and leaves the library as it was, so the card is still in the library.
   */
  lemma SelectFromSearchCopies(p: PlayerState, selected: Inst, action: SearchAction, now: nat)
    requires action != ToTop
    ensures var q := Merge(p, SelectFromSearchPatch(p, selected, action, now));
      && q.shuffledDeck == p.shuffledDeck && q.currentDeckIndex == p.currentDeckIndex
      && (action == ToHand ==> q.drawnCards == [selected] + p.drawnCards)
      && (action == ToBattlefield ==>
            |q.lands| + |q.creatures| == |p.lands| + |p.creatures| + 1
            && (selected.(placedAt := now) in q.lands || selected.(placedAt := now) in q.creatures))
      && q.searchResults == [] && !q.isSearching
  {
  }

  /** Putting a searched card on top keeps the drawn part and the cards of the library. */
  lemma SelectToTopKeepsDrawn(p: PlayerState, selected: Inst, now: nat)
    ensures var q := Merge(p, SelectFromSearchPatch(p, selected, ToTop, now));
      var k := p.currentDeckIndex;
      && Take(q.shuffledDeck, k) == Take(p.shuffledDeck, k)
      && multiset(q.shuffledDeck) == multiset(p.shuffledDeck)
      && (FindFrom(p.shuffledDeck, k, selected.card.id).Some? ==> q.shuffledDeck[k].card.id == selected.card.id)
      && q.searchResults == [] && !q.isSearching
  {
    MovedToTopEffect(p.shuffledDeck, p.currentDeckIndex, selected.card.id);
  }

  // ----- shuffleFromGraveyard / shuffleFromExile -----

  /**
   * shuffleFromGraveyard (1246-1259): the card leaves the graveyard and goes
   * to the BOTTOM of the library, stamped with the library's old length.
   */
  function ShuffleFromGraveyardPatch(p: PlayerState, at: nat, card: Inst): Patch
  {
    Keep.(graveyard := Some(RemoveAt(p.graveyard, at)),
          shuffledDeck := Some(p.shuffledDeck + [card.(originalIndex := |p.shuffledDeck|)]))
  }

  lemma ShuffleFromGraveyardAppends(p: PlayerState, at: nat, card: Inst)
    requires RefersTo(p.graveyard, at, card)
    ensures var q := Merge(p, ShuffleFromGraveyardPatch(p, at, card));
      && q.shuffledDeck[..|p.shuffledDeck|] == p.shuffledDeck
      && q.shuffledDeck == p.shuffledDeck + [card.(originalIndex := |p.shuffledDeck|)]
      && (at < |p.graveyard| ==> multiset(q.graveyard) == multiset(p.graveyard) - multiset{card})
      && q == p.(graveyard := q.graveyard, shuffledDeck := q.shuffledDeck)
  {
    if at < |p.graveyard| {
      assert p.graveyard == p.graveyard[..at] + [card] + p.graveyard[at + 1..];
    }
  }

  /**
   * The library after shuffleFromExile (1261-1281): the card inserted into the
   * undrawn part at `roll % (undrawn + 1)`, standing for
   * `Math.floor(Math.random() * (remaining.length + 1))`.
   */
  function InsertedInUndrawn(deck: seq<Inst>, cursor: nat, card: Inst, roll: nat): seq<Inst>
  {
    var remaining := Drop(deck, cursor);
    var pos := roll % (|remaining| + 1);
    Take(deck, cursor) + (remaining[..pos] + [card.(originalIndex := |deck|)] + remaining[pos..])
  }

  function ShuffleFromExilePatch(p: PlayerState, at: nat, card: Inst, roll: nat): Patch
  {
    Keep.(exile := Some(RemoveAt(p.exile, at)),
          shuffledDeck := Some(InsertedInUndrawn(p.shuffledDeck, p.currentDeckIndex, card, roll)))
  }

  /**
   * Inserting into the undrawn part keeps the drawn part, adds exactly the
   * card, and puts it at or after the cursor when the cursor is within the
   * library.
   */
  lemma InsertedInUndrawnShape(d: seq<Inst>, k: nat, card: Inst, roll: nat)
    ensures var r := InsertedInUndrawn(d, k, card, roll);
      var pos := Min(k, |d|) + roll % (|d| - Min(k, |d|) + 1);
      && |r| == |d| + 1
      && r[pos] == card.(originalIndex := |d|)
      && (k <= |d| ==> k <= pos && Take(r, k) == Take(d, k))
      && multiset(r) == multiset(d) + multiset{card.(originalIndex := |d|)}
  {
    var t := Take(d, k);
    var rem := Drop(d, k);
    var pos := roll % (|rem| + 1);
    var c := card.(originalIndex := |d|);
    var r := t + rem[..pos] + [c] + rem[pos..];
    assert d == t + (rem[..pos] + rem[pos..]);
    assert InsertedInUndrawn(d, k, card, roll) == r;
    assert r[|t| + pos] == c;
    if k <= |d| {
      assert r[..k] == t;
    }
  }

  /** shuffleFromExile: the card leaves exile and goes into the undrawn part of the library. */
  lemma ShuffleFromExileInserts(p: PlayerState, at: nat, card: Inst, roll: nat)
    requires RefersTo(p.exile, at, card)
    ensures var q := Merge(p, ShuffleFromExilePatch(p, at, card, roll));
      && q.shuffledDeck == InsertedInUndrawn(p.shuffledDeck, p.currentDeckIndex, card, roll)
      && (at < |p.exile| ==> multiset(q.exile) == multiset(p.exile) - multiset{card})
      && q == p.(exile := q.exile, shuffledDeck := q.shuffledDeck)
  {
    if at < |p.exile| {
      assert p.exile == p.exile[..at] + [card] + p.exile[at + 1..];
    }
  }

  /**
   * When the cursor is past the end of a short library (loadDeck sets it to 7
   * regardless), the card from exile lands at the end, below the cursor,
   * where no draw reaches it.
   */
  lemma ShuffleFromExileShortLibrary(p: PlayerState, at: nat, card: Inst, roll: nat)
    requires |p.shuffledDeck| < p.currentDeckIndex
    ensures var q := Merge(p, ShuffleFromExilePatch(p, at, card, roll));
      && q.shuffledDeck == p.shuffledDeck + [card.(originalIndex := |p.shuffledDeck|)]
      && |q.shuffledDeck| <= q.currentDeckIndex
  {
  }

  // ----- handleScryDecision -----

  /** `newDeck.splice(start, count)`: both bounds clamped to the length. */
  function SpliceOut(deck: seq<Inst>, start: nat, count: nat): (r: seq<Inst>)
  {
    var a := Min(start, |deck|);
    deck[..a] + deck[Min(a + count, |deck|)..]
  }

  /** The `forEach` pushes at the bottom: `originalIndex: newDeck.length + i` while the deck grows. */
  function BottomStamped(cards: seq<Inst>, base: nat): (r: seq<Inst>)
    ensures |r| == |cards| && forall i :: 0 <= i < |cards| ==> r[i] == cards[i].(originalIndex := base + 2 * i)
  {
    seq(|cards|, i requires 0 <= i < |cards| => cards[i].(originalIndex := base + 2 * i))
  }

  /** The reordered cards as inserted at the top, stamped `startIndex + i`. */
  function TopStamped(cards: seq<Inst>, start: nat): (r: seq<Inst>)
    ensures |r| == |cards| && forall i :: 0 <= i < |cards| ==> r[i] == cards[i].(originalIndex := start + i)
  {
    seq(|cards|, i requires 0 <= i < |cards| => cards[i].(originalIndex := start + i))
  }

  /** Putting the scry cards back into the library they were cut from. */
  function PutBack(cut: seq<Inst>, start: nat, scry: seq<Inst>, ordered: seq<nat>): (r: seq<Inst>)
    requires forall i :: 0 <= i < |ordered| ==> ordered[i] < |scry|
  {
    if ordered == [] then cut + BottomStamped(scry, |cut|)
    else
      var s := Min(start, |cut|);
      cut[..s] + TopStamped(Picked(scry, ordered), start) + cut[s..]
        + BottomStamped(Unselected(scry, ordered), |cut| + |ordered|)
  }

  /** The library after handleScryDecision (1860-1908). */
  function ScryDecision(deck: seq<Inst>, start: nat, scry: seq<Inst>, ordered: seq<nat>): (r: seq<Inst>)
    requires forall i :: 0 <= i < |ordered| ==> ordered[i] < |scry|
  {
    PutBack(SpliceOut(deck, start, |scry|), start, scry, ordered)
  }

  /** The splice and push loops of handleScryDecision (1864-1901). */
  method HandleScry(deck: seq<Inst>, start: nat, scry: seq<Inst>, ordered: seq<nat>) returns (newDeck: seq<Inst>)
    requires forall i :: 0 <= i < |ordered| ==> ordered[i] < |scry|
    ensures newDeck == ScryDecision(deck, start, scry, ordered)
  {
    newDeck := SpliceOut(deck, start, |scry|);
    if |ordered| == 0 {
      newDeck := PushBottom(newDeck, scry);
    } else {
      var reordered := Picked(scry, ordered);
      newDeck := InsertTop(newDeck, start, reordered);
      newDeck := PushBottom(newDeck, Unselected(scry, ordered));
    }
  }

  /** The `forEach` that pushes cards at the bottom, each stamped with the deck's length at that moment. */
  method PushBottom(deck: seq<Inst>, cards: seq<Inst>) returns (newDeck: seq<Inst>)
    ensures newDeck == deck + BottomStamped(cards, |deck|)
  {
    newDeck := deck;
    var i := 0;
    while i < |cards|
      invariant 0 <= i <= |cards|
      invariant newDeck == deck + BottomStamped(cards[..i], |deck|)
    {
      assert BottomStamped(cards[..i + 1], |deck|) == BottomStamped(cards[..i], |deck|) + [cards[i].(originalIndex := |newDeck| + i)];
      newDeck := newDeck + [cards[i].(originalIndex := |newDeck| + i)];
      i := i + 1;
    }
    assert cards[..i] == cards;
  }

  /** The `forEach` that splices the reordered cards in at `startIndex + i`. */
  method InsertTop(deck: seq<Inst>, start: nat, cards: seq<Inst>) returns (newDeck: seq<Inst>)
    ensures newDeck == deck[..Min(start, |deck|)] + TopStamped(cards, start) + deck[Min(start, |deck|)..]
  {
    newDeck := deck;
    ghost var s := Min(start, |deck|);
    var i := 0;
    while i < |cards|
      invariant 0 <= i <= |cards|
      invariant newDeck == deck[..s] + TopStamped(cards[..i], start) + deck[s..]
    {
      var at := Min(start + i, |newDeck|);
      assert at == s + i;
      assert TopStamped(cards[..i + 1], start) == TopStamped(cards[..i], start) + [cards[i].(originalIndex := start + i)];
      newDeck := newDeck[..at] + [cards[i].(originalIndex := start + i)] + newDeck[at..];
      i := i + 1;
    }
    assert cards[..i] == cards;
  }

  /** handleScryDecision (1860-1908): the new library, and the scry window emptied. */
  function ScryDecisionPatch(p: PlayerState, ordered: seq<nat>): Patch
    requires forall i :: 0 <= i < |ordered| ==> ordered[i] < |p.scryCards|
  {
    Keep.(shuffledDeck := Some(ScryDecision(p.shuffledDeck, p.currentDeckIndex, p.scryCards, ordered)),
          scryCards := Some([]))
  }

  /** A splice never moves the cards in front of its start. */
  lemma SpliceOutKeepsFront(deck: seq<Inst>, start: nat, count: nat)
    requires start <= |deck|
    ensures var cut := SpliceOut(deck, start, count);
      start <= |cut| && cut[..start] == deck[..start]
  {
  }

  /** handleScryDecision never changes the drawn part of the library. */
  lemma ScryDecisionKeepsDrawn(deck: seq<Inst>, start: nat, scry: seq<Inst>, ordered: seq<nat>)
    requires forall i :: 0 <= i < |ordered| ==> ordered[i] < |scry|
    requires start <= |deck|
    ensures var r := ScryDecision(deck, start, scry, ordered);
      start <= |r| && r[..start] == deck[..start]
  {
    SpliceOutKeepsFront(deck, start, |scry|);
  }

  /** The chosen cards sit right under the cursor, in the chosen order. */
  lemma ScryDecisionTop(deck: seq<Inst>, start: nat, scry: seq<Inst>, ordered: seq<nat>, i: nat)
    requires forall j :: 0 <= j < |ordered| ==> ordered[j] < |scry|
    requires start <= |deck| && i < |ordered|
    ensures var r := ScryDecision(deck, start, scry, ordered);
      start + i < |r| && r[start + i] == scry[ordered[i]].(originalIndex := start + i)
  {
    SpliceOutKeepsFront(deck, start, |scry|);
  }

  /** The cards not chosen end up at the bottom of the library, in their scry order. */
  lemma ScryDecisionBottom(deck: seq<Inst>, start: nat, scry: seq<Inst>, ordered: seq<nat>, i: nat)
    requires forall j :: 0 <= j < |ordered| ==> ordered[j] < |scry|
    requires i < |Unselected(scry, ordered)|
    ensures var r := ScryDecision(deck, start, scry, ordered);
      var u := Unselected(scry, ordered);
      var at := |r| - |u| + i;
      |u| <= |r| && r[at].(originalIndex := 0) == u[i].(originalIndex := 0)
  {
    if ordered == [] {
      UnselectedNothing(scry, Indices(ordered), 0);
    }
  }

  /** A card record with its library stamp cleared. */
  function Unstamped(s: seq<Inst>): (r: seq<Inst>)
    ensures |r| == |s| && forall i :: 0 <= i < |s| ==> r[i] == s[i].(originalIndex := 0)
  {
    seq(|s|, i requires 0 <= i < |s| => s[i].(originalIndex := 0))
  }

  lemma UnstampedAppend(a: seq<Inst>, b: seq<Inst>)
    ensures Unstamped(a + b) == Unstamped(a) + Unstamped(b)
  {
  }

  lemma {:induction false} UnstampedUnselected(scry: seq<Inst>, selected: set<nat>, k: nat)
    ensures Unstamped(UnselectedFrom(scry, selected, k)) == UnselectedFrom(Unstamped(scry), selected, k)
    decreases |scry| - k
  {
    if k < |scry| {
      UnstampedUnselected(scry, selected, k + 1);
      var h := if k in selected then [] else [scry[k]];
      UnstampedAppend(h, UnselectedFrom(scry, selected, k + 1));
    }
  }

  lemma StampsVanish(cards: seq<Inst>, base: nat)
    ensures Unstamped(TopStamped(cards, base)) == Unstamped(cards)
    ensures Unstamped(BottomStamped(cards, base)) == Unstamped(cards)
  {
  }

  lemma UnstampedPicked(scry: seq<Inst>, ordered: seq<nat>)
    requires forall i :: 0 <= i < |ordered| ==> ordered[i] < |scry|
    ensures Unstamped(Picked(scry, ordered)) == Picked(Unstamped(scry), ordered)
  {
  }

  lemma UnstampedMultiset3(a: seq<Inst>, b: seq<Inst>, c: seq<Inst>)
    ensures multiset(Unstamped(a + b + c)) == multiset(Unstamped(a)) + multiset(Unstamped(b)) + multiset(Unstamped(c))
  {
    UnstampedAppend(a + b, c);
    UnstampedAppend(a, b);
  }

  lemma UnstampedMultiset4(a: seq<Inst>, b: seq<Inst>, c: seq<Inst>, d: seq<Inst>)
    ensures multiset(Unstamped(a + b + c + d))
      == multiset(Unstamped(a)) + multiset(Unstamped(b)) + multiset(Unstamped(c)) + multiset(Unstamped(d))
  {
    UnstampedAppend(a + b + c, d);
    UnstampedMultiset3(a, b, c);
  }

  /** The chosen and unselected scry cards, stamps cleared, are the scry cards. */
  lemma ScryPartsAreScry(scry: seq<Inst>, ordered: seq<nat>, top: nat, bottom: nat)
    requires forall i :: 0 <= i < |ordered| ==> ordered[i] < |scry|
    requires forall i, j :: 0 <= i < j < |ordered| ==> ordered[i] != ordered[j]
    ensures multiset(Unstamped(TopStamped(Picked(scry, ordered), top)))
      + multiset(Unstamped(BottomStamped(Unselected(scry, ordered), bottom))) == multiset(Unstamped(scry))
  {
    UnstampedPicked(scry, ordered);
    UnstampedUnselected(scry, Indices(ordered), 0);
    PickedAndUnselected(Unstamped(scry), ordered);
    StampsVanish(Picked(scry, ordered), top);
    StampsVanish(Unselected(scry, ordered), bottom);
  }

  /**
   * When the scry cards are the cards under the cursor and the chosen indices
   * are distinct, handleScryDecision only rearranges the library: the same
   * cards, apart from their `originalIndex` stamps.
   */
  lemma ScryDecisionPermutes(deck: seq<Inst>, start: nat, scry: seq<Inst>, ordered: seq<nat>)
    requires forall i :: 0 <= i < |ordered| ==> ordered[i] < |scry|
    requires forall i, j :: 0 <= i < j < |ordered| ==> ordered[i] != ordered[j]
    requires start + |scry| <= |deck| && scry == deck[start..start + |scry|]
    ensures var r := ScryDecision(deck, start, scry, ordered);
      multiset(Unstamped(r)) == multiset(Unstamped(deck))
  {
    var front := deck[..start];
    var rest := deck[start + |scry|..];
    var cut := SpliceOut(deck, start, |scry|);
    assert multiset(Unstamped(cut)) == multiset(Unstamped(front)) + multiset(Unstamped(rest)) by {
      assert cut == front + rest;
      UnstampedAppend(front, rest);
    }
    assert multiset(Unstamped(deck)) == multiset(Unstamped(front)) + multiset(Unstamped(scry)) + multiset(Unstamped(rest)) by {
      assert deck == front + scry + rest;
      UnstampedMultiset3(front, scry, rest);
    }
    PutBackPermutes(cut, start, scry, ordered);
  }

  /** Putting the scry cards back adds exactly the scry cards to the cut library. */
  lemma PutBackPermutes(cut: seq<Inst>, start: nat, scry: seq<Inst>, ordered: seq<nat>)
    requires forall i :: 0 <= i < |ordered| ==> ordered[i] < |scry|
    requires forall i, j :: 0 <= i < j < |ordered| ==> ordered[i] != ordered[j]
    ensures multiset(Unstamped(PutBack(cut, start, scry, ordered)))
      == multiset(Unstamped(cut)) + multiset(Unstamped(scry))
  {
    if ordered == [] {
      var bottom := BottomStamped(scry, |cut|);
      assert multiset(Unstamped(bottom)) == multiset(Unstamped(scry)) by {
        StampsVanish(scry, |cut|);
      }
      UnstampedAppend(cut, bottom);
    } else {
      PutBackOrderedPermutes(cut, start, scry, ordered);
    }
  }

  lemma PutBackOrderedPermutes(cut: seq<Inst>, start: nat, scry: seq<Inst>, ordered: seq<nat>)
    requires ordered != []
    requires forall i :: 0 <= i < |ordered| ==> ordered[i] < |scry|
    requires forall i, j :: 0 <= i < j < |ordered| ==> ordered[i] != ordered[j]
    ensures multiset(Unstamped(PutBack(cut, start, scry, ordered)))
      == multiset(Unstamped(cut)) + multiset(Unstamped(scry))
  {
    var s := Min(start, |cut|);
    var top := TopStamped(Picked(scry, ordered), start);
    var bottom := BottomStamped(Unselected(scry, ordered), |cut| + |ordered|);
    PutBackShape(cut, start, scry, ordered);
    ScryPartsAreScry(scry, ordered, start, |cut| + |ordered|);
    FourPartsPermute(cut, s, top, bottom, scry);
  }

  lemma PutBackShape(cut: seq<Inst>, start: nat, scry: seq<Inst>, ordered: seq<nat>)
    requires ordered != []
    requires forall i :: 0 <= i < |ordered| ==> ordered[i] < |scry|
    ensures PutBack(cut, start, scry, ordered) == cut[..Min(start, |cut|)] + TopStamped(Picked(scry, ordered), start)
      + cut[Min(start, |cut|)..] + BottomStamped(Unselected(scry, ordered), |cut| + |ordered|)
  {
  }

  /** Cutting a library in two and putting a rearranged scry around the halves keeps its cards. */
  lemma FourPartsPermute(cut: seq<Inst>, s: nat, top: seq<Inst>, bottom: seq<Inst>, scry: seq<Inst>)
    requires s <= |cut|
    requires multiset(Unstamped(top)) + multiset(Unstamped(bottom)) == multiset(Unstamped(scry))
    ensures multiset(Unstamped(cut[..s] + top + cut[s..] + bottom)) == multiset(Unstamped(cut)) + multiset(Unstamped(scry))
  {
    UnstampedSplit(cut, s);
    UnstampedMultiset4(cut[..s], top, cut[s..], bottom);
    MultisetRearrange(multiset(Unstamped(cut[..s])), multiset(Unstamped(top)), multiset(Unstamped(cut[s..])),
      multiset(Unstamped(bottom)), multiset(Unstamped(scry)));
  }

  /** Multiset sums regroup freely. */
  lemma MultisetRearrange(a: multiset<Inst>, t: multiset<Inst>, c: multiset<Inst>, b: multiset<Inst>, sum: multiset<Inst>)
    requires t + b == sum
    ensures a + t + c + b == (a + c) + sum
  {
  }

  lemma UnstampedSplit(cut: seq<Inst>, s: nat)
    requires s <= |cut|
    ensures multiset(Unstamped(cut)) == multiset(Unstamped(cut[..s])) + multiset(Unstamped(cut[s..]))
  {
    assert cut == cut[..s] + cut[s..];
    UnstampedAppend(cut[..s], cut[s..]);
  }

  /** handleScryDecision keeps the number of library cards. */
  lemma ScryDecisionLength(deck: seq<Inst>, start: nat, scry: seq<Inst>, ordered: seq<nat>)
    requires forall i :: 0 <= i < |ordered| ==> ordered[i] < |scry|
    requires forall i, j :: 0 <= i < j < |ordered| ==> ordered[i] != ordered[j]
    requires start + |scry| <= |deck|
    ensures |ScryDecision(deck, start, scry, ordered)| == |deck|
  {
    var u := Unselected(scry, ordered);
    PickedAndUnselected(scry, ordered);
    assert |Picked(scry, ordered)| + |u| == |scry| by {
      assert |multiset(Picked(scry, ordered))| + |multiset(u)| == |multiset(scry)|;
    }
    if ordered == [] {
      UnselectedNothing(scry, Indices(ordered), 0);
    }
  }

  // ----- resetSimulation -----

  /**
   * resetSimulation (2036-2110): re-expand and reshuffle the loaded deck, deal
   * seven, empty the other zones and restart the turn state. Life total,
   * combat and targeting are not reset. Without a loaded deck nothing happens.
   */
  function ResetPatch(p: PlayerState, picks: seq<nat>): Patch
  {
    match p.deck
    case None => Keep
    case Some(deck) =>
      var shuffled := Shuffled(Expansion(deck.cards, deck.commanderId), picks);
      Keep.(shuffledDeck := Some(shuffled), currentDeckIndex := Some(7), drawnCards := Some(OpeningHand(shuffled)),
            creatures := Some([]), lands := Some([]), graveyard := Some([]), exile := Some([]),
            tappedCreatures := Some({}), tappedLands := Some([]), isShuffling := Some(false),
            showDeckActions := Some(false), isDrawingCard := Some(false), drawingCard := Some(None),
            scryCards := Some([]), searchResults := Some([]), isSearching := Some(false),
            commanderTax := Some(0), turnState := Some(FreshTurnState(true)))
  }

  lemma ResetRestarts(p: PlayerState, picks: seq<nat>)
    requires p.deck.Some?
    ensures var q := Merge(p, ResetPatch(p, picks));
      var lib := Expansion(p.deck.value.cards, p.deck.value.commanderId);
      && multiset(q.shuffledDeck) == multiset(lib)
      && q.drawnCards == Take(q.shuffledDeck, 7) && q.currentDeckIndex == 7
      && q.creatures == [] && q.lands == [] && q.graveyard == [] && q.exile == []
      && q.tappedCreatures == {} && q.commanderTax == 0 && q.turnState == FreshTurnState(true)
      && q.deck == p.deck && q.lifeTotal == p.lifeTotal
      && q.combatState == p.combatState && q.targetingState == p.targetingState
  {
    ShufflePermutes(Expansion(p.deck.value.cards, p.deck.value.commanderId), picks);
  }

  /** Resetting twice with the same shuffle is resetting once. */
  lemma ResetIdempotent(p: PlayerState, picks: seq<nat>)
    ensures Merge(Merge(p, ResetPatch(p, picks)), ResetPatch(Merge(p, ResetPatch(p, picks)), picks))
      == Merge(p, ResetPatch(p, picks))
  {
    var q := Merge(p, ResetPatch(p, picks));
    assert q.deck == p.deck;
    assert ResetPatch(q, picks) == ResetPatch(p, picks);
  }
}
