/**
 * PokerGame (aws_porker/poker_game.py), the round controller without its
 * pygame surface.
 *
 * A `Game` owns a deck, a five-card hand with one selection flag per card,
 * the round counter, the running total and the per-round results, and the
 * screen state. Its methods are the transitions the event loop drives:
 * dealing, drawing, standing, advancing, starting over, the two timer events
 * (auto-stand, auto-advance) and the overlay open/close/scroll rules.
 * Randomness (`random.shuffle`) is the `rand` parameter of the deck, and the
 * MD5 digest the game code is made from is the `hex` parameter.
 */
module PokerGame {
  import opened Cards
  import opened HandEvaluator
  import GameCode

  const MaxRounds := 5
  const HandSize := 5
  const DrawsPerHand := 2
  const ScrollStep := 20
  const ScrollMax := 200

  /** The values of `game_state`; `RoundEnd` and `GameEnd` are tested for but never assigned. */
  datatype GameState = Playing | RoundEnd | GameEnd | ShowHands | ShowDeck | ShowHandResult | FinalResult

  datatype Button =
    | DrawButton | StandButton | NextRoundButton | NewGameButton | SaveScoreButton
    | LoadCodeButton | SoundToggleButton | ShowHandsButton | ShowDeckButton | CloseOverlayButton

  // ---------------------------------------------------------------------------
  // Specification functions
  // ---------------------------------------------------------------------------

  function CountTrue(s: seq<bool>): (n: nat)
    ensures n <= |s|
  {
    if s == [] then 0 else CountTrue(s[..|s| - 1]) + (if s[|s| - 1] then 1 else 0)
  }

  /** The cards at the flagged positions, left to right. */
  function Picked(hand: seq<Card>, sel: seq<bool>): (p: seq<Card>)
    requires |hand| == |sel|
    ensures |p| == CountTrue(sel)
  {
    if hand == [] then []
    else Picked(hand[..|hand| - 1], sel[..|sel| - 1]) + (if sel[|sel| - 1] then [hand[|hand| - 1]] else [])
  }

  /** The cards at the positions that are not flagged, left to right. */
  function Kept(hand: seq<Card>, sel: seq<bool>): seq<Card>
    requires |hand| == |sel|
  {
    if hand == [] then []
    else Kept(hand[..|hand| - 1], sel[..|sel| - 1]) + (if sel[|sel| - 1] then [] else [hand[|hand| - 1]])
  }

  /** The sum of the scores of the recorded rounds. */
  function TotalOf(rounds: seq<HandResult>): int
  {
    if rounds == [] then 0 else TotalOf(rounds[..|rounds| - 1]) + rounds[|rounds| - 1].score
  }

  function SuitCount(cards: seq<Card>, s: Suit): (n: nat)
    ensures n <= |cards|
  {
    if cards == [] then 0
    else SuitCount(cards[..|cards| - 1], s) + (if cards[|cards| - 1].suit == s then 1 else 0)
  }

  function RankCount(cards: seq<Card>, r: Rank): (n: nat)
    ensures n <= |cards|
  {
    if cards == [] then 0
    else RankCount(cards[..|cards| - 1], r) + (if cards[|cards| - 1].rank == r then 1 else 0)
  }

  // ---------------------------------------------------------------------------
  // Lemmas about the specification functions
  // ---------------------------------------------------------------------------

  /** Splitting a hand by a selection loses and invents no card. */
  lemma {:induction false} PickedKept(hand: seq<Card>, sel: seq<bool>)
    requires |hand| == |sel|
    ensures multiset(Picked(hand, sel)) + multiset(Kept(hand, sel)) == multiset(hand)
    decreases |hand|
  {
    if hand != [] {
      var n := |hand| - 1;
      PickedKept(hand[..n], sel[..n]);
      assert hand == hand[..n] + [hand[n]];
    }
  }

  /** The kept cards depend only on the unselected positions. */
  lemma {:induction false} KeptIgnoresSelected(h1: seq<Card>, h2: seq<Card>, sel: seq<bool>)
    requires |h1| == |sel| && |h2| == |sel|
    requires forall i :: 0 <= i < |sel| && !sel[i] ==> h1[i] == h2[i]
    ensures Kept(h1, sel) == Kept(h2, sel)
    decreases |sel|
  {
    if sel != [] {
      var n := |sel| - 1;
      KeptIgnoresSelected(h1[..n], h2[..n], sel[..n]);
    }
  }

  /**
   * An exchange that keeps the unselected cards and takes its new cards and
   * new deck from the old deck plus the returned cards loses and invents no
   * card: hand and deck together hold what they held before.
   */
  lemma ExchangeConserves(oldHand: seq<Card>, newHand: seq<Card>, sel: seq<bool>, oldDeck: seq<Card>, newDeck: seq<Card>)
    requires |oldHand| == |sel| && |newHand| == |sel|
    requires forall i :: 0 <= i < |sel| && !sel[i] ==> newHand[i] == oldHand[i]
    requires multiset(Picked(newHand, sel) + newDeck) == multiset(oldDeck + Picked(oldHand, sel))
    ensures multiset(newHand) + multiset(newDeck) == multiset(oldHand) + multiset(oldDeck)
  {
    var pickedNew, pickedOld, kept := Picked(newHand, sel), Picked(oldHand, sel), Kept(oldHand, sel);
    PickedKept(newHand, sel);
    PickedKept(oldHand, sel);
    KeptIgnoresSelected(newHand, oldHand, sel);
    assert multiset(pickedNew) + multiset(newDeck) == multiset(oldDeck) + multiset(pickedOld) by {
      assert multiset(pickedNew + newDeck) == multiset(pickedNew) + multiset(newDeck);
      assert multiset(oldDeck + pickedOld) == multiset(oldDeck) + multiset(pickedOld);
    }
    calc {
      multiset(newHand) + multiset(newDeck);
      multiset(pickedNew) + multiset(kept) + multiset(newDeck);
      multiset(oldDeck) + multiset(pickedOld) + multiset(kept);
      multiset(oldHand) + multiset(oldDeck);
    }
  }

  /**
   * Position `j` of `after` holds what the exchange puts there: when it is
   * selected, the next unused card of `news` (the one numbered by the
   * selected positions before it), otherwise the card `before` had.
   */
  ghost predicate PlacedAt(before: seq<Card>, sel: seq<bool>, news: seq<Card>, after: seq<Card>, j: int)
    requires 0 <= j < |sel| && |before| == |sel| && |after| == |sel|
  {
    if sel[j] then CountTrue(sel[..j]) < |news| && after[j] == news[CountTrue(sel[..j])]
    else after[j] == before[j]
  }

  /** `after` is `before` with the selected positions filled from `news`, left to right. */
  ghost predicate PlacedInOrder(before: seq<Card>, sel: seq<bool>, news: seq<Card>, after: seq<Card>)
    requires |before| == |sel|
  {
    && |after| == |sel|
    && forall j :: 0 <= j < |sel| ==> PlacedAt(before, sel, news, after, j)
  }

  /** Filling in order hands out exactly `news`: the cards now at the selected positions are `news`, in order. */
  lemma {:induction false} PlacedInOrderPicked(before: seq<Card>, sel: seq<bool>, news: seq<Card>, after: seq<Card>)
    requires |before| == |sel| && |news| == CountTrue(sel)
    requires PlacedInOrder(before, sel, news, after)
    ensures Picked(after, sel) == news
    ensures forall j :: 0 <= j < |sel| && !sel[j] ==> after[j] == before[j]
    decreases |sel|
  {
    if sel != [] {
      var n := |sel| - 1;
      var m := CountTrue(sel[..n]);
      var news' := news[..m];
      forall j | 0 <= j < n
        ensures PlacedAt(before[..n], sel[..n], news', after[..n], j)
      {
        assert sel[..n][..j] == sel[..j];
        CountTruePrefix(sel[..n], j);
        assert PlacedAt(before, sel, news, after, j);
      }
      PlacedInOrderPicked(before[..n], sel[..n], news', after[..n]);
      assert PlacedAt(before, sel, news, after, n);
      if sel[n] {
        assert news == news' + [news[m]];
      } else {
        assert news == news';
      }
    }
    forall j | 0 <= j < |sel| && !sel[j]
      ensures after[j] == before[j]
    {
      assert PlacedAt(before, sel, news, after, j);
    }
  }

  lemma CountTrueSnoc(s: seq<bool>, i: nat)
    requires i < |s|
    ensures CountTrue(s[..i + 1]) == CountTrue(s[..i]) + (if s[i] then 1 else 0)
  {
    assert s[..i + 1][..i] == s[..i];
  }

  lemma {:induction false} CountTruePrefix(s: seq<bool>, i: nat)
    requires i <= |s|
    ensures CountTrue(s[..i]) <= CountTrue(s)
    ensures i < |s| ==> CountTrue(s[..i]) + (if s[i] then 1 else 0) <= CountTrue(s)
    decreases |s|
  {
    if i < |s| {
      var n := |s| - 1;
      assert s[..n][..i] == s[..i];
      if i < n {
        CountTruePrefix(s[..n], i);
        assert s[..n][i] == s[i];
      } else {
        assert s[..i] == s[..n];
      }
    } else {
      assert s[..i] == s;
    }
  }

  /** Nothing selected means nothing picked, and every card kept. */
  lemma {:induction false} CountTrueZero(s: seq<bool>)
    ensures CountTrue(s) == 0 <==> forall i :: 0 <= i < |s| ==> !s[i]
    decreases |s|
  {
    if s != [] {
      var n := |s| - 1;
      CountTrueZero(s[..n]);
      assert forall i :: 0 <= i < n ==> s[..n][i] == s[i];
    }
  }

  /** The running total is additive over the round list. */
  lemma {:induction false} TotalOfConcat(a: seq<HandResult>, b: seq<HandResult>)
    ensures TotalOf(a + b) == TotalOf(a) + TotalOf(b)
    decreases |b|
  {
    if b == [] {
      assert a + b == a;
    } else {
      var n := |b| - 1;
      TotalOfConcat(a, b[..n]);
      assert (a + b)[..|a + b| - 1] == a + b[..n];
    }
  }

  /** Counting one more card of the deck adds one to its suit's and its rank's count and nothing else. */
  lemma CountsSnoc(cards: seq<Card>, i: nat)
    requires i < |cards|
    ensures forall s :: SuitCount(cards[..i + 1], s) == SuitCount(cards[..i], s) + (if cards[i].suit == s then 1 else 0)
    ensures forall r :: RankCount(cards[..i + 1], r) == RankCount(cards[..i], r) + (if cards[i].rank == r then 1 else 0)
  {
    assert cards[..i + 1][..i] == cards[..i];
  }

  /** `m` maps exactly the suits present in `cards` to their number of cards. */
  ghost predicate SuitTally(m: map<Suit, nat>, cards: seq<Card>)
  {
    forall s :: (s in m <==> SuitCount(cards, s) > 0) && (s in m ==> m[s] == SuitCount(cards, s))
  }

  /** `m` maps exactly the ranks present in `cards` to their number of cards. */
  ghost predicate RankTally(m: map<Rank, nat>, cards: seq<Card>)
  {
    forall r :: (r in m <==> RankCount(cards, r) > 0) && (r in m ==> m[r] == RankCount(cards, r))
  }

  /** Adding one card to the tallies (inserting a key at 0 first when absent) tallies one more card. */
  lemma TallyStep(suits: map<Suit, nat>, ranks: map<Rank, nat>, cards: seq<Card>, i: nat)
    requires i < |cards| && SuitTally(suits, cards[..i]) && RankTally(ranks, cards[..i])
    ensures SuitTally(suits[cards[i].suit := (if cards[i].suit in suits then suits[cards[i].suit] else 0) + 1], cards[..i + 1])
    ensures RankTally(ranks[cards[i].rank := (if cards[i].rank in ranks then ranks[cards[i].rank] else 0) + 1], cards[..i + 1])
  {
    CountsSnoc(cards, i);
  }

  /** Suit counts add up over concatenation, so remaining + dealt counts give the whole deck's. */
  lemma {:induction false} SuitCountConcat(a: seq<Card>, b: seq<Card>, s: Suit)
    ensures SuitCount(a + b, s) == SuitCount(a, s) + SuitCount(b, s)
    decreases |b|
  {
    if b == [] {
      assert a + b == a;
    } else {
      var n := |b| - 1;
      SuitCountConcat(a, b[..n], s);
      assert (a + b)[..|a + b| - 1] == a + b[..n];
    }
  }

  lemma {:induction false} RankCountConcat(a: seq<Card>, b: seq<Card>, r: Rank)
    ensures RankCount(a + b, r) == RankCount(a, r) + RankCount(b, r)
    decreases |b|
  {
    if b == [] {
      assert a + b == a;
    } else {
      var n := |b| - 1;
      RankCountConcat(a, b[..n], r);
      assert (a + b)[..|a + b| - 1] == a + b[..n];
    }
  }

  // ---------------------------------------------------------------------------
  // The game
  // ---------------------------------------------------------------------------

  class Game {
    /** The card list `Deck()` loads; every new deck is a shuffle of it. */
    const catalog: seq<Card>
    /** The `HandEvaluator` instance the game scores with; the constructor binds it to `EvaluateHand`. */
    const evaluator: seq<Card> -> HandResult
    var deck: Deck
    var hand: seq<Card>
    var selected: seq<bool>
    var currentRound: int
    var drawsRemaining: int
    var totalScore: int
    var roundScores: seq<HandResult>
    var state: GameState
    var showOverlay: bool
    var overlayScroll: int
    var currentHandResult: Option<HandResult>
    var finalGameCode: Option<string>

    /**
     * What every transition keeps: a full hand with its flags, at most two
     * draws, the total equal to the sum of the recorded scores, and a screen
     * state consistent with the round counter and the overlay flag.
     */
    ghost predicate Valid()
      reads this
    {
      && |catalog| >= HandSize
      && |hand| == HandSize && |selected| == HandSize
      && 0 <= drawsRemaining <= DrawsPerHand
      && 1 <= currentRound <= MaxRounds + 1
      && totalScore == TotalOf(roundScores)
      && 0 <= overlayScroll <= ScrollMax
      && ((state == Playing || state == ShowHandResult || state == RoundEnd) ==> currentRound <= MaxRounds)
      && (state == FinalResult ==> currentRound > MaxRounds)
      && (currentRound > MaxRounds ==> finalGameCode.Some?)
      && ((state == ShowHands || state == ShowDeck) ==> showOverlay)
    }

    /** Five cards, none selected, two draws; from the same deck when it still had five cards, else from a new one. */
    twostate predicate DealtFreshHand()
      reads this, deck
    {
      && |selected| == HandSize && (forall i :: 0 <= i < |selected| ==> !selected[i])
      && drawsRemaining == DrawsPerHand
      && |hand| == HandSize
      && (old(|deck.cards|) >= HandSize ==>
            deck == old(deck) && hand == old(deck.cards)[..HandSize] && deck.cards == old(deck.cards)[HandSize..])
      && (old(|deck.cards|) < HandSize ==>
            fresh(deck) && multiset(hand) + multiset(deck.cards) == multiset(catalog))
    }

    /** The click had no effect on the game: every field and the deck's cards are as they were. */
    twostate predicate NothingChanged()
      reads this, deck
    {
      && ScoreAndScreenUnchanged()
      && hand == old(hand) && selected == old(selected) && drawsRemaining == old(drawsRemaining)
      && deck == old(deck) && deck.cards == old(deck.cards)
    }

    /** Only the screen and the overlay fields may have changed: the hand, the deck, the scores and the code are as they were. */
    twostate predicate OnlyOverlayChanged()
      reads this, deck
    {
      && hand == old(hand) && selected == old(selected) && drawsRemaining == old(drawsRemaining)
      && deck == old(deck) && deck.cards == old(deck.cards)
      && currentRound == old(currentRound) && roundScores == old(roundScores) && totalScore == old(totalScore)
      && currentHandResult == old(currentHandResult) && finalGameCode == old(finalGameCode)
    }

    /** The hand was scored: its result is recorded, added to the total and shown; nothing else changed. */
    twostate predicate Stood()
      reads this, deck
    {
      && roundScores == old(roundScores) + [evaluator(old(hand))]
      && totalScore == old(totalScore) + evaluator(old(hand)).score
      && currentHandResult == Some(evaluator(old(hand))) && state == ShowHandResult
      && hand == old(hand) && selected == old(selected) && drawsRemaining == old(drawsRemaining)
      && currentRound == old(currentRound) && deck == old(deck) && deck.cards == old(deck.cards)
      && showOverlay == old(showOverlay) && overlayScroll == old(overlayScroll)
      && finalGameCode == old(finalGameCode)
    }

    /**
     * The round counter moved on: past the last round the final result with
     * the game code from `hex`, else the next round with a fresh hand. The
     * scores, the overlay and the last hand result are kept.
     */
    twostate predicate RoundAdvanced(hex: string)
      requires GameCode.IsHexDigest(hex)
      reads this, deck
    {
      && currentRound == old(currentRound) + 1
      && totalScore == old(totalScore) && roundScores == old(roundScores)
      && showOverlay == old(showOverlay) && overlayScroll == old(overlayScroll)
      && currentHandResult == old(currentHandResult)
      && (currentRound > MaxRounds ==>
            && state == FinalResult && finalGameCode == Some(GameCode.FormatGameCode(hex))
            && hand == old(hand) && selected == old(selected) && drawsRemaining == old(drawsRemaining)
            && deck == old(deck) && deck.cards == old(deck.cards))
      && (currentRound <= MaxRounds ==>
            state == Playing && finalGameCode == old(finalGameCode) && DealtFreshHand())
    }

    /** The cards of this game that are not out of play: the hand and the deck. */
    ghost function InPlay(): multiset<Card>
      reads `hand, `deck, deck
    {
      multiset(hand) + multiset(deck.cards)
    }

    /** The round counter, the scores, the screen and the game code are as they were. */
    twostate predicate ScoreAndScreenUnchanged()
      reads this
    {
      && currentRound == old(currentRound) && totalScore == old(totalScore)
      && roundScores == old(roundScores) && state == old(state)
      && showOverlay == old(showOverlay) && overlayScroll == old(overlayScroll)
      && currentHandResult == old(currentHandResult) && finalGameCode == old(finalGameCode)
    }

    constructor (catalog: seq<Card>, rand: nat -> nat)
      requires |catalog| >= HandSize
      ensures Valid() && fresh(deck)
      ensures this.catalog == catalog && evaluator == EvaluateHand
      ensures multiset(hand) + multiset(deck.cards) == multiset(catalog)
      ensures forall i :: 0 <= i < |selected| ==> !selected[i]
      ensures currentRound == 1 && drawsRemaining == DrawsPerHand
      ensures totalScore == 0 && roundScores == [] && state == Playing
      ensures !showOverlay && currentHandResult == None && finalGameCode == None
    {
      this.catalog := catalog;
      evaluator := EvaluateHand;
      deck := new Deck(catalog, rand);
      hand := [];
      selected := [false, false, false, false, false];
      currentRound := 1;
      drawsRemaining := DrawsPerHand;
      totalScore := 0;
      roundScores := [];
      state := Playing;
      showOverlay := false;
      overlayScroll := 0;
      currentHandResult := None;
      finalGameCode := None;
      new;
      ghost var d := deck.cards;
      DealNewHand(rand);
      assert d == hand + deck.cards;
    }

    /** Deal five cards, replacing the deck first when fewer than five remain; the old hand is dropped. */
    method DealNewHand(rand: nat -> nat)
      requires |catalog| >= HandSize
      modifies this, deck
      ensures DealtFreshHand()
      ensures ScoreAndScreenUnchanged()
    {
      var remaining := deck.CardsRemaining();
      if remaining < HandSize {
        deck := new Deck(catalog, rand);
        ghost var d := deck.cards;
        var r := deck.Deal(HandSize);
        hand := r.cards;
        assert d == hand + deck.cards;
      } else {
        var r := deck.Deal(HandSize);
        hand := r.cards;
      }
      selected := [false, false, false, false, false];
      drawsRemaining := DrawsPerHand;
    }

    /** Flip the selection flag of the card at position `i` (the card the mouse hit), while playing. */
    method ToggleSelection(i: int)
      requires Valid()
      modifies this
      ensures Valid()
      ensures state == Playing && 0 <= i < HandSize ==> selected == old(selected)[i := !old(selected)[i]]
      ensures !(state == Playing && 0 <= i < HandSize) ==> NothingChanged()
      ensures hand == old(hand) && drawsRemaining == old(drawsRemaining) && state == old(state)
      ensures deck == old(deck) && deck.cards == old(deck.cards)
      ensures currentRound == old(currentRound) && totalScore == old(totalScore) && roundScores == old(roundScores)
      ensures showOverlay == old(showOverlay) && overlayScroll == old(overlayScroll)
      ensures currentHandResult == old(currentHandResult) && finalGameCode == old(finalGameCode)
    {
      if state == Playing && 0 <= i < HandSize {
        selected := selected[i := !selected[i]];
      }
    }

    /** The selected cards, left to right (the first loop of the draw). */
    method SelectedCards() returns (toReturn: seq<Card>)
      requires |hand| == |selected|
      ensures toReturn == Picked(hand, selected)
      ensures |toReturn| == CountTrue(selected)
    {
      toReturn := [];
      for i := 0 to |hand|
        invariant toReturn == Picked(hand[..i], selected[..i])
      {
        assert hand[..i + 1][..i] == hand[..i] && selected[..i + 1][..i] == selected[..i];
        if selected[i] {
          toReturn := toReturn + [hand[i]];
        }
      }
      assert hand[..|hand|] == hand && selected[..|selected|] == selected;
    }

    /**
     * Put `newCards` into the selected positions, left to right, and clear
     * every flag (the second loop of the draw).
     */
    method PlaceReplacements(newCards: seq<Card>)
      requires |hand| == |selected| && |newCards| == CountTrue(selected)
      modifies this
      ensures PlacedInOrder(old(hand), old(selected), newCards, hand)
      ensures |selected| == old(|selected|) && forall i :: 0 <= i < |selected| ==> !selected[i]
      ensures deck == old(deck) && drawsRemaining == old(drawsRemaining)
      ensures ScoreAndScreenUnchanged()
    {
      var before, flags := hand, selected;
      var h, sel := hand, selected;
      var k := 0;
      for i := 0 to |before|
        modifies {}
        invariant |h| == |before| && |sel| == |before|
        invariant k == CountTrue(flags[..i])
        invariant forall j :: 0 <= j < i ==> PlacedAt(before, flags, newCards, h, j)
        invariant forall j :: i <= j < |before| ==> h[j] == before[j] && sel[j] == flags[j]
        invariant forall j :: 0 <= j < i ==> !sel[j]
      {
        CountTruePrefix(flags, i);
        CountTrueSnoc(flags, i);
        ghost var h0 := h;
        if sel[i] {
          h := h[i := newCards[k]];
          k := k + 1;
          sel := sel[i := false];
        }
        forall j | 0 <= j < i
          ensures PlacedAt(before, flags, newCards, h, j)
        {
          assert PlacedAt(before, flags, newCards, h0, j);
        }
        assert PlacedAt(before, flags, newCards, h, i);
      }
      hand, selected := h, sel;
    }

    /**
     * Return `toReturn`, the selected cards, to the deck, shuffle it, deal
     * as many cards and put them into the selected positions.
     */
    method ExchangeSelected(toReturn: seq<Card>, rand: nat -> nat)
      requires |hand| == HandSize && |selected| == HandSize && toReturn == Picked(hand, selected)
      modifies this, deck
      ensures deck == old(deck) && |deck.cards| == old(|deck.cards|)
      ensures InPlay() == old(InPlay())
      ensures |hand| == HandSize && |selected| == HandSize
      ensures forall i :: 0 <= i < HandSize ==> !selected[i]
      ensures forall i :: 0 <= i < HandSize && !old(selected)[i] ==> hand[i] == old(hand)[i]
      ensures multiset(Picked(hand, old(selected)) + deck.cards)
           == multiset(old(deck.cards) + Picked(old(hand), old(selected)))
      ensures drawsRemaining == old(drawsRemaining) && ScoreAndScreenUnchanged()
    {
      deck.AddCards(toReturn);
      deck.Shuffle(rand);
      ghost var shuffled := deck.cards;
      var r := deck.Deal(|toReturn|);
      var newCards := r.cards;
      assert shuffled == newCards + deck.cards;
      PlaceReplacements(newCards);
      PlacedInOrderPicked(old(hand), old(selected), newCards, hand);
      ExchangeConserves(old(hand), hand, old(selected), old(deck.cards), deck.cards);
    }

    /**
     * Return the selected cards to the deck, shuffle, and deal as many
     * replacements, filling the selected positions left to right. Nothing
     * happens when no draw is left or no card is selected.
     */
    method DrawCards(rand: nat -> nat)
      requires Valid()
      modifies this, deck
      ensures Valid()
      ensures deck == old(deck)
      ensures InPlay() == old(InPlay())
      ensures |deck.cards| == old(|deck.cards|)
      ensures old(drawsRemaining) <= 0 || CountTrue(old(selected)) == 0 ==>
        hand == old(hand) && selected == old(selected) && drawsRemaining == old(drawsRemaining)
        && deck.cards == old(deck.cards)
      ensures old(drawsRemaining) > 0 && CountTrue(old(selected)) > 0 ==>
        && drawsRemaining == old(drawsRemaining) - 1
        && (forall i :: 0 <= i < HandSize ==> !selected[i])
        && (forall i :: 0 <= i < HandSize && !old(selected)[i] ==> hand[i] == old(hand)[i])
        && multiset(Picked(hand, old(selected)) + deck.cards)
           == multiset(old(deck.cards) + Picked(old(hand), old(selected)))
      ensures ScoreAndScreenUnchanged()
    {
      if drawsRemaining > 0 {
        var toReturn := SelectedCards();
        if |toReturn| > 0 {
          ExchangeSelected(toReturn, rand);
          drawsRemaining := drawsRemaining - 1;
        }
      }
    }

    /** Score the hand, record it and add it to the total; show the result screen. */
    method Stand()
      requires Valid() && state == Playing
      modifies this
      ensures Valid()
      ensures Stood()
    {
      var result := evaluator(hand);
      roundScores := roundScores + [result];
      totalScore := totalScore + result.score;
      currentHandResult := Some(result);
      state := ShowHandResult;
    }

    /**
     * Advance the round: past the last round show the final result and set
     * the game code made from `hex`; otherwise deal a fresh hand and play.
     */
    method NextRound(rand: nat -> nat, hex: string)
      requires Valid() && currentRound <= MaxRounds && GameCode.IsHexDigest(hex)
      modifies this, deck
      ensures Valid()
      ensures RoundAdvanced(hex)
    {
      currentRound := currentRound + 1;
      if currentRound > MaxRounds {
        state := FinalResult;
        finalGameCode := Some(GameCode.FormatGameCode(hex));
      } else {
        DealNewHand(rand);
        state := Playing;
      }
    }

    /** Start over: round 1, no score, no code, a new deck and a fresh hand. */
    method NewGame(rand: nat -> nat)
      requires Valid()
      modifies this, deck
      ensures Valid() && fresh(deck)
      ensures currentRound == 1 && totalScore == 0 && roundScores == []
      ensures currentHandResult == None && finalGameCode == None && state == Playing
      ensures |hand| == HandSize && multiset(hand) + multiset(deck.cards) == multiset(catalog)
      ensures (forall i :: 0 <= i < |selected| ==> !selected[i]) && drawsRemaining == DrawsPerHand
      ensures showOverlay == old(showOverlay) && overlayScroll == old(overlayScroll)
    {
      currentRound := 1;
      totalScore := 0;
      roundScores := [];
      currentHandResult := None;
      finalGameCode := None;
      deck := new Deck(catalog, rand);
      ghost var d := deck.cards;
      DealNewHand(rand);
      assert d == hand + deck.cards;
      state := Playing;
    }

    /** The one-second timer after the last draw: stand if still playing with no draw left. */
    method AutoStand()
      requires Valid()
      modifies this
      ensures Valid()
      ensures old(state) == Playing && old(drawsRemaining) <= 0 ==> Stood()
      ensures !(old(state) == Playing && old(drawsRemaining) <= 0) ==> NothingChanged()
      ensures totalScore == TotalOf(roundScores)
    {
      if state == Playing && drawsRemaining <= 0 {
        Stand();
      }
    }

    /** The three-second timer after a stand: advance if the result is still on screen. */
    method AutoAdvance(rand: nat -> nat, hex: string)
      requires Valid() && GameCode.IsHexDigest(hex)
      modifies this, deck
      ensures Valid()
      ensures old(state) == ShowHandResult ==> RoundAdvanced(hex)
      ensures old(state) != ShowHandResult ==> NothingChanged()
    {
      if state == ShowHandResult {
        NextRound(rand, hex);
      }
    }

    method ShowHandsOverlay()
      requires Valid()
      modifies this
      ensures Valid()
      ensures showOverlay && overlayScroll == 0 && state == ShowHands
      ensures OnlyOverlayChanged()
    {
      showOverlay := true;
      overlayScroll := 0;
      state := ShowHands;
    }

    method ShowDeckOverlay()
      requires Valid()
      modifies this
      ensures Valid()
      ensures showOverlay && overlayScroll == 0 && state == ShowDeck
      ensures OnlyOverlayChanged()
    {
      showOverlay := true;
      overlayScroll := 0;
      state := ShowDeck;
    }

    /** Close button or Escape: back to play while rounds remain, else to the final result. */
    method CloseOverlay()
      requires Valid() && showOverlay
      modifies this
      ensures Valid()
      ensures !showOverlay && overlayScroll == 0
      ensures state == (if currentRound <= MaxRounds then Playing else FinalResult)
      ensures OnlyOverlayChanged()
    {
      showOverlay := false;
      overlayScroll := 0;
      state := if currentRound <= MaxRounds then Playing else FinalResult;
    }

    /** The mouse wheel moves an open overlay by 20 pixels a notch, kept within 0..200. */
    method Scroll(notches: int)
      requires Valid()
      modifies this
      ensures Valid()
      ensures old(showOverlay) && 0 <= old(overlayScroll) + notches * ScrollStep <= ScrollMax ==>
        overlayScroll == old(overlayScroll) + notches * ScrollStep
      ensures old(showOverlay) && old(overlayScroll) + notches * ScrollStep < 0 ==> overlayScroll == 0
      ensures old(showOverlay) && old(overlayScroll) + notches * ScrollStep > ScrollMax ==> overlayScroll == ScrollMax
      ensures !old(showOverlay) ==> overlayScroll == old(overlayScroll)
      ensures state == old(state) && showOverlay == old(showOverlay)
      ensures OnlyOverlayChanged()
    {
      if showOverlay {
        var s := overlayScroll + notches * ScrollStep;
        overlayScroll := if s < 0 then 0 else if s > ScrollMax then ScrollMax else s;
      }
    }

    /** A click on button `b`; saving, loading and the sound toggle touch only files and audio. */
    method HandleButtonClick(b: Button, rand: nat -> nat, hex: string)
      requires Valid() && GameCode.IsHexDigest(hex)
      modifies this, deck
      ensures Valid()
      // draw: enabled while playing with a draw left, and then an exchange of the selected cards
      ensures b == DrawButton && old(state) == Playing && old(drawsRemaining) > 0 ==>
        && deck == old(deck) && InPlay() == old(InPlay()) && ScoreAndScreenUnchanged()
        && (CountTrue(old(selected)) == 0 ==> NothingChanged())
        && (CountTrue(old(selected)) > 0 ==>
              && drawsRemaining == old(drawsRemaining) - 1
              && (forall i :: 0 <= i < HandSize ==> !selected[i])
              && (forall i :: 0 <= i < HandSize && !old(selected)[i] ==> hand[i] == old(hand)[i]))
      ensures b == DrawButton && !(old(state) == Playing && old(drawsRemaining) > 0) ==> NothingChanged()
      // stand: enabled while playing
      ensures b == StandButton && old(state) == Playing ==> Stood()
      ensures b == StandButton && old(state) != Playing ==> NothingChanged()
      // next round: enabled only on the round-end screen
      ensures b == NextRoundButton && old(state) == RoundEnd ==> RoundAdvanced(hex)
      ensures b == NextRoundButton && old(state) != RoundEnd ==> NothingChanged()
      // new game: always
      ensures b == NewGameButton ==>
        && currentRound == 1 && totalScore == 0 && roundScores == [] && state == Playing
        && currentHandResult == None && finalGameCode == None
        && |hand| == HandSize && multiset(hand) + multiset(deck.cards) == multiset(catalog)
        && (forall i :: 0 <= i < |selected| ==> !selected[i]) && drawsRemaining == DrawsPerHand
        && showOverlay == old(showOverlay) && overlayScroll == old(overlayScroll)
      // the overlays open from any state
      ensures b == ShowHandsButton ==> state == ShowHands && showOverlay && overlayScroll == 0
      ensures b == ShowDeckButton ==> state == ShowDeck && showOverlay && overlayScroll == 0
      ensures (b == ShowHandsButton || b == ShowDeckButton) ==> OnlyOverlayChanged()
      // close: only with an overlay open
      ensures b == CloseOverlayButton && old(showOverlay) ==>
        && !showOverlay && overlayScroll == 0
        && state == (if currentRound <= MaxRounds then Playing else FinalResult)
        && OnlyOverlayChanged()
      ensures b == CloseOverlayButton && !old(showOverlay) ==> NothingChanged()
      // saving, loading a code and the sound toggle touch only files, the console and audio
      ensures (b == SaveScoreButton || b == LoadCodeButton || b == SoundToggleButton) ==> NothingChanged()
    {
      match b
      case DrawButton =>
        if state == Playing && drawsRemaining > 0 {
          DrawCards(rand);
        }
      case StandButton =>
        if state == Playing {
          Stand();
        }
      case NextRoundButton =>
        if state == RoundEnd {
          NextRound(rand, hex);
        }
      case NewGameButton =>
        NewGame(rand);
      case SaveScoreButton =>
      case LoadCodeButton =>
      case SoundToggleButton =>
      case ShowHandsButton =>
        ShowHandsOverlay();
      case ShowDeckButton =>
        ShowDeckOverlay();
      case CloseOverlayButton =>
        if showOverlay {
          CloseOverlay();
        }
    }

    /** Count the cards left in the deck by suit and by rank. */
    method RemainingCardsDistribution() returns (suits: map<Suit, nat>, ranks: map<Rank, nat>, total: nat)
      ensures SuitTally(suits, deck.cards) && RankTally(ranks, deck.cards)
      ensures total == |deck.cards|
    {
      var cards := deck.cards;
      suits := map[];
      ranks := map[];
      for i := 0 to |cards|
        invariant SuitTally(suits, cards[..i]) && RankTally(ranks, cards[..i])
      {
        var c := cards[i];
        ghost var suits0, ranks0 := suits, ranks;
        if c.suit !in suits {
          suits := suits[c.suit := 0];
        }
        suits := suits[c.suit := suits[c.suit] + 1];
        if c.rank !in ranks {
          ranks := ranks[c.rank := 0];
        }
        ranks := ranks[c.rank := ranks[c.rank] + 1];
        TallyStep(suits0, ranks0, cards, i);
        assert suits == suits0[c.suit := (if c.suit in suits0 then suits0[c.suit] else 0) + 1];
        assert ranks == ranks0[c.rank := (if c.rank in ranks0 then ranks0[c.rank] else 0) + 1];
      }
      assert cards[..|cards|] == cards;
      total := |cards|;
    }
  }

  /**
   * Opening an overlay on the hand-result screen and closing it returns to
   * play on the same round with the same hand, so a second stand records a
   * second result for round 1: the number of recorded rounds is not tied to
   * the round counter, only the total is tied to the recorded scores.
   */
  method OverlayReopensRound(catalog: seq<Card>, rand: nat -> nat) returns (g: Game)
    requires |catalog| >= HandSize
    ensures g.evaluator == EvaluateHand
    ensures g.currentRound == 1 && |g.roundScores| == 2 && g.state == ShowHandResult
    ensures g.roundScores[0] == g.roundScores[1]
    ensures g.totalScore == 2 * g.roundScores[0].score
  {
    g := new Game(catalog, rand);
    g.Stand();
    g.ShowHandsOverlay();
    g.CloseOverlay();
    g.Stand();
  }
}
