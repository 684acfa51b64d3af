/** One Monte Carlo trial of the equity engine, the part both revisions of
    `calculate_equity_multi` share: take a fresh shuffled deck, remove every
    known hole and board card from it, complete the board to five cards by
    drawing, score every hand (lower is better) and find the co-best hands.
    The shuffled deck and the evaluator are inputs: the random draw and the
    hand evaluator library are not part of this model. */
module Trials {
  import opened Seqs
  import opened Cards

  /** The cards the trial must not deal again: every hole card, then the board. */
  function Known(hands: seq<seq<Card>>, board: seq<Card>): seq<Card>
  {
    Flatten(hands) + board
  }

  /** The deck a trial draws from once the known cards are removed. */
  function Remaining(deck: seq<Card>, hands: seq<seq<Card>>, board: seq<Card>): seq<Card>
  {
    Without(deck, Elems(Known(hands, board)))
  }

  /** The deck always has the cards a trial needs: 52 cards minus the known
      ones leave at least 5 - |board| when there are at most 47 hole cards. */
  predicate EnoughCards(hands: seq<seq<Card>>, board: seq<Card>)
  {
    |board| < 5 ==> |Flatten(hands)| <= 47
  }

  lemma RemainingLength(deck: seq<Card>, hands: seq<seq<Card>>, board: seq<Card>)
    requires IsShuffle(deck) && EnoughCards(hands, board)
    ensures |board| < 5 ==> |Remaining(deck, hands, board)| >= 5 - |board|
  {
    ShuffleFacts(deck);
    WithoutLowerBound(deck, Known(hands, board));
  }

  /** The board a trial evaluates: the given board, then the first cards of
      the remaining deck until there are five. */
  function TrialBoard(deck: seq<Card>, hands: seq<seq<Card>>, board: seq<Card>): seq<Card>
    requires IsShuffle(deck) && EnoughCards(hands, board)
  {
    RemainingLength(deck, hands, board);
    if |board| >= 5 then board
    else board + Remaining(deck, hands, board)[..5 - |board|]
  }

  /** A simulated board extends the real one to exactly five cards (a board
      already that long is kept), and every card it adds is a distinct valid
      card that is neither a hole card nor already on the board. */
  lemma {:induction false} TrialBoardFacts(deck: seq<Card>, hands: seq<seq<Card>>, board: seq<Card>)
    requires IsShuffle(deck) && EnoughCards(hands, board)
    ensures var sim := TrialBoard(deck, hands, board);
      && |sim| == (if |board| < 5 then 5 else |board|)
      && sim[..|board|] == board
      && Distinct(sim[|board|..])
      && AllValid(sim[|board|..])
      && forall i :: |board| <= i < |sim| ==> sim[i] !in Flatten(hands) && sim[i] !in board
  {
    var sim := TrialBoard(deck, hands, board);
    var rest := Remaining(deck, hands, board);
    ShuffleFacts(deck);
    RemainingLength(deck, hands, board);
    WithoutDistinct(deck, Elems(Known(hands, board)));
    if |board| < 5 {
      var drawn := rest[..5 - |board|];
      assert sim[|board|..] == drawn;
      forall i | 0 <= i < |drawn|
        ensures drawn[i] !in Known(hands, board) && drawn[i] in deck
      {
        WithoutMembers(deck, Elems(Known(hands, board)), drawn[i]);
      }
      forall i | 0 <= i < |drawn| ensures ValidCard(drawn[i]) {
        var k :| 0 <= k < |deck| && deck[k] == drawn[i];
      }
      forall i | |board| <= i < |sim| ensures sim[i] !in Flatten(hands) && sim[i] !in board {
        assert sim[i] == drawn[i - |board|];
      }
    }
  }

  /** Python's `deck.cards.remove(c)` guarded by `if c in deck.cards`, seen on
      the filtered deck: it removes c as well. */
  lemma RemoveStep(deck: seq<Card>, removed: set<Card>, c: Card)
    requires Distinct(deck)
    ensures var cards := Without(deck, removed);
      (if c in cards then RemoveFirst(cards, c) else cards) == Without(deck, removed + {c})
  {
    var cards := Without(deck, removed);
    WithoutTwice(deck, removed, {c});
    if c in cards {
      WithoutDistinct(deck, removed);
      RemoveFirstIsWithout(cards, c);
    } else {
      WithoutNone(cards, {c});
    }
  }

  /** One turn of the removal loop keeps the deck equal to the fresh deck
      without the cards seen so far. */
  lemma RemoveLoopStep(deck: seq<Card>, removed: set<Card>, cs: seq<Card>, j: nat, left: seq<Card>)
    requires Distinct(deck) && j < |cs| && left == Without(deck, removed + Elems(cs[..j]))
    ensures (if cs[j] in left then RemoveFirst(left, cs[j]) else left)
      == Without(deck, removed + Elems(cs[..j + 1]))
  {
    RemoveStep(deck, removed + Elems(cs[..j]), cs[j]);
    assert cs[..j + 1] == cs[..j] + [cs[j]];
    assert removed + Elems(cs[..j + 1]) == removed + Elems(cs[..j]) + {cs[j]};
  }

  /** Python's `for c in cs: if c in deck.cards: deck.cards.remove(c)`, on a
      deck from which `removed` has already been taken out. */
  method RemoveAll(deck: seq<Card>, cards: seq<Card>, ghost removed: set<Card>, cs: seq<Card>)
    returns (left: seq<Card>)
    requires Distinct(deck) && cards == Without(deck, removed)
    ensures left == Without(deck, removed + Elems(cs))
  {
    left := cards;
    assert removed + Elems(cs[..0]) == removed;
    for j := 0 to |cs|
      invariant left == Without(deck, removed + Elems(cs[..j]))
    {
      RemoveLoopStep(deck, removed, cs, j, left);
      if cs[j] in left {
        left := RemoveFirst(left, cs[j]);
      }
    }
    assert cs[..|cs|] == cs;
  }

  /** One trial's deck handling: remove the known cards from the shuffled deck
      in place, then draw from its front until the board has five cards. */
  method CompleteBoard(deck: seq<Card>, hands: seq<seq<Card>>, board: seq<Card>)
    returns (simBoard: seq<Card>)
    requires IsShuffle(deck) && EnoughCards(hands, board)
    ensures simBoard == TrialBoard(deck, hands, board)
  {
    ShuffleFacts(deck);
    var cards := deck;
    WithoutNone(deck, {});
    assert hands[..0] == [] && Elems(Flatten(hands[..0])) == {};
    for i := 0 to |hands|
      invariant cards == Without(deck, Elems(Flatten(hands[..i])))
    {
      cards := RemoveAll(deck, cards, Elems(Flatten(hands[..i])), hands[i]);
      assert hands[..i + 1] == hands[..i] + [hands[i]];
      FlattenSnoc(hands[..i], hands[i]);
      assert Elems(Flatten(hands[..i + 1])) == Elems(Flatten(hands[..i])) + Elems(hands[i]);
    }
    assert hands[..|hands|] == hands;
    cards := RemoveAll(deck, cards, Elems(Flatten(hands)), board);
    assert Elems(Known(hands, board)) == Elems(Flatten(hands)) + Elems(board);
    ghost var rest := Remaining(deck, hands, board);
    RemainingLength(deck, hands, board);
    simBoard := board;
    while |simBoard| < 5
      invariant |board| <= |simBoard|
      invariant |board| < 5 ==> |simBoard| <= 5
      invariant |board| >= 5 ==> simBoard == board
      invariant |simBoard| - |board| <= |rest|
      invariant simBoard == board + rest[..|simBoard| - |board|]
      invariant cards == rest[|simBoard| - |board|..]
      decreases 5 - |simBoard|
    {
      var card := cards[0];
      cards := cards[1..];
      simBoard := simBoard + [card];
    }
  }

  /** The evaluator's scores of every hand against one board. */
  function Scores(hands: seq<seq<Card>>, board: seq<Card>, evaluate: (seq<Card>, seq<Card>) -> int): (scores: seq<int>)
    ensures |scores| == |hands|
  {
    seq(|hands|, i requires 0 <= i < |hands| => evaluate(hands[i], board))
  }

  /** One trial: complete the board from the shuffled deck and score every hand. */
  method PlayTrial(deck: seq<Card>, hands: seq<seq<Card>>, board: seq<Card>,
                   evaluate: (seq<Card>, seq<Card>) -> int) returns (scores: seq<int>)
    requires IsShuffle(deck) && EnoughCards(hands, board)
    ensures scores == Scores(hands, TrialBoard(deck, hands, board), evaluate)
  {
    var simBoard := CompleteBoard(deck, hands, board);
    scores := Scores(hands, simBoard, evaluate);
  }

  /** The positions holding score `best`, in increasing order. */
  function IndicesOf(scores: seq<int>, best: int): (w: seq<nat>)
    ensures forall i :: i in w <==> 0 <= i < |scores| && scores[i] == best
    ensures forall a, b :: 0 <= a < b < |w| ==> w[a] < w[b]
  {
    if scores == [] then []
    else
      var n := |scores| - 1;
      var w := IndicesOf(scores[..n], best);
      assert forall i :: 0 <= i < n ==> scores[..n][i] == scores[i];
      assert forall a :: 0 <= a < |w| ==> w[a] < n by {
        forall a | 0 <= a < |w| ensures w[a] < n {
          assert w[a] in w;
        }
      }
      w + (if scores[n] == best then [n] else [])
  }

  /** Hand i has a score no other hand beats (lower is better). */
  predicate IsBest(scores: seq<int>, i: int)
  {
    0 <= i < |scores| && forall j :: 0 <= j < |scores| ==> scores[i] <= scores[j]
  }

  /** Python's `[i for i, s in enumerate(scores) if s == min(scores)]`. */
  function Winners(scores: seq<int>): (w: seq<nat>)
    requires |scores| > 0
    ensures |w| >= 1 && Distinct(w) && forall k :: 0 <= k < |w| ==> w[k] < |scores|
    ensures forall i :: i in w <==> IsBest(scores, i)
  {
    var best := Min(scores);
    var w := IndicesOf(scores, best);
    var k :| 0 <= k < |scores| && scores[k] == best;
    assert k in w;
    assert forall a :: 0 <= a < |w| ==> w[a] in w;
    w
  }

  /** Every trial's decks are shuffles and every trial can complete its board. */
  predicate TrialsReady(decks: seq<seq<Card>>, hands: seq<seq<Card>>, board: seq<Card>)
  {
    EnoughCards(hands, board) && forall t :: 0 <= t < |decks| ==> IsShuffle(decks[t])
  }

  /** The score vector of every trial, one trial per shuffled deck. */
  function TrialScores(decks: seq<seq<Card>>, hands: seq<seq<Card>>, board: seq<Card>,
                       evaluate: (seq<Card>, seq<Card>) -> int): (ts: seq<seq<int>>)
    requires TrialsReady(decks, hands, board)
    ensures |ts| == |decks| && forall t :: 0 <= t < |ts| ==> |ts[t]| == |hands|
  {
    seq(|decks|, t requires 0 <= t < |decks| => Scores(hands, TrialBoard(decks[t], hands, board), evaluate))
  }

  /** The score vectors of the first k trials are the scores of the first k decks. */
  lemma TrialScoresPrefix(decks: seq<seq<Card>>, hands: seq<seq<Card>>, board: seq<Card>,
                          evaluate: (seq<Card>, seq<Card>) -> int, k: nat)
    requires TrialsReady(decks, hands, board) && k <= |decks|
    ensures TrialsReady(decks[..k], hands, board)
    ensures TrialScores(decks[..k], hands, board, evaluate) == TrialScores(decks, hands, board, evaluate)[..k]
  {
  }
}
