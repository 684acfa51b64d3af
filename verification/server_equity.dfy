/** The table server's equity engine (server/equity.py): straight detection
    over rank numbers, Monte Carlo equity with split-pot credit, and the
    human-readable hand names. The shuffled deck of every trial, the hand
    evaluator's score (lower is better) and its class name are inputs. */
module ServerEquity {
  import opened Wrappers
  import opened Seqs
  import opened Cards
  import opened RankFrequency
  import opened Trials
  import opened HandNames
  import opened EquityReport

  /** A straight as `find_five_card_straight` reports it: the wheel, or the
      lowest and highest rank numbers of a five-rank run. */
  datatype Straight = Wheel | Span(low: int, high: int)

  /** The ranks of the wheel, ace to five, all present. */
  predicate HasWheel(ranks: set<int>)
  {
    12 in ranks && 0 in ranks && 1 in ranks && 2 in ranks && 3 in ranks
  }

  /** The five consecutive ranks ending at `high`, all present. */
  predicate HasWindow(ranks: set<int>, high: int)
  {
    high - 4 in ranks && high - 3 in ranks && high - 2 in ranks && high - 1 in ranks && high in ranks
  }

  /** The normal straight scan: the highest h from `high` down to 4 whose
      window lies in `ranks`. */
  function HighestWindow(ranks: set<int>, high: int): (r: Option<int>)
    requires high <= 12
    ensures r.Some? ==> 4 <= r.value <= high && HasWindow(ranks, r.value)
    ensures forall h :: (if r.Some? then r.value < h else 4 <= h) && h <= high ==> !HasWindow(ranks, h)
    decreases high
  {
    if high < 4 then None
    else if HasWindow(ranks, high) then Some(high)
    else HighestWindow(ranks, high - 1)
  }

  /** The wheel is checked first; otherwise the highest five-rank window
      names the straight, and there is none when no window fits. */
  function FindFiveCardStraight(cards: seq<Card>): (r: Option<Straight>)
    requires AllValid(cards)
    ensures HasWheel(RankSet(cards)) ==> r == Some(Wheel)
    ensures !HasWheel(RankSet(cards)) ==>
      (r.None? <==> forall h :: 4 <= h <= 12 ==> !HasWindow(RankSet(cards), h))
    ensures r.Some? && r.value.Span? ==>
      && 4 <= r.value.high <= 12 && r.value.low == r.value.high - 4
      && HasWindow(RankSet(cards), r.value.high)
      && forall h :: r.value.high < h <= 12 ==> !HasWindow(RankSet(cards), h)
  {
    var ranks := RankSet(cards);
    if HasWheel(ranks) then Some(Wheel)
    else
      match HighestWindow(ranks, 12)
      case None => None
      case Some(h) => Some(Span(h - 4, h))
  }

  /** The straight names: the wheel is "A to 5", the ace-high straight flush
      is "Royal Flush", any other run is named by its ends. */
  function StraightName(flush: bool, cards: seq<Card>): Description
    requires AllValid(cards)
  {
    match FindFiveCardStraight(cards)
    case None => Failure(NoStraightFound)
    case Some(Wheel) =>
      if flush then Success("Straight Flush, A to 5") else Success("Straight, A to 5")
    case Some(Span(low, high)) =>
      if !flush then Success("Straight, " + RankName(low) + " to " + RankName(high))
      else if high == 12 && low == 8 then Success("Royal Flush")
      else Success("Straight Flush, " + RankName(low) + " to " + RankName(high))
  }

  /** Every score vector has one score per hand. */
  predicate Width(ts: seq<seq<int>>, n: nat)
  {
    forall t :: 0 <= t < |ts| ==> |ts[t]| == n
  }

  /** One trial's credit: each co-best hand gets an equal share of one whole. */
  function Credit(scores: seq<int>): (c: seq<real>)
    requires |scores| > 0
    ensures |c| == |scores|
  {
    var w := Winners(scores);
    Marked(|scores|, w, 1.0 / |w| as real)
  }

  /** A trial's credit sums to one; a hand is credited exactly when it has the
      best score, and never more than one whole. */
  lemma CreditFacts(scores: seq<int>)
    requires |scores| > 0
    ensures Sum(Credit(scores)) == 1.0
    ensures forall i :: 0 <= i < |scores| ==> 0.0 <= Credit(scores)[i] <= 1.0
    ensures forall i :: 0 <= i < |scores| ==>
      (Credit(scores)[i] > 0.0 <==> forall j :: 0 <= j < |scores| ==> scores[i] <= scores[j])
  {
    var w := Winners(scores);
    var c := Credit(scores);
    var share := 1.0 / |w| as real;
    assert Sum(c) == 1.0 by {
      SumMarked(|scores|, w, share);
      CopiesShare(|w|);
    }
    ShareBound(|w|);
    forall i | 0 <= i < |scores|
      ensures 0.0 <= c[i] <= 1.0
      ensures c[i] > 0.0 <==> forall j :: 0 <= j < |scores| ==> scores[i] <= scores[j]
    {
      assert c[i] == if i in w then share else 0.0;
    }
  }

  lemma ShareBound(k: nat)
    requires k > 0
    ensures 0.0 < 1.0 / k as real <= 1.0
  {
  }

  /** The credit totals after the given trials: the `wins` list. */
  function Totals(ts: seq<seq<int>>, n: nat): (w: seq<real>)
    requires n > 0 && Width(ts, n)
    ensures |w| == n
  {
    if ts == [] then Zeros(n)
    else Plus(Totals(ts[..|ts| - 1], n), Credit(ts[|ts| - 1]))
  }

  /** The number of trials with two or more co-best hands: `tie_count`. */
  function TieCount(ts: seq<seq<int>>): nat
    requires forall t :: 0 <= t < |ts| ==> |ts[t]| > 0
  {
    if ts == [] then 0
    else TieCount(ts[..|ts| - 1]) + (if |Winners(ts[|ts| - 1])| > 1 then 1 else 0)
  }

  /** Exactly one unit of credit is handed out per trial, and no hand holds
      more credit than there were trials. */
  lemma {:induction false} TotalsFacts(ts: seq<seq<int>>, n: nat)
    requires n > 0 && Width(ts, n)
    ensures Sum(Totals(ts, n)) == |ts| as real
    ensures forall i :: 0 <= i < n ==> 0.0 <= Totals(ts, n)[i] <= |ts| as real
  {
    if ts == [] {
      SumZeros(n);
    } else {
      var front, last := ts[..|ts| - 1], ts[|ts| - 1];
      TotalsFacts(front, n);
      CreditFacts(last);
      SumPointwise(Totals(front, n), Credit(last), Totals(ts, n));
    }
  }

  lemma {:induction false} TieCountBound(ts: seq<seq<int>>)
    requires forall t :: 0 <= t < |ts| ==> |ts[t]| > 0
    ensures TieCount(ts) <= |ts|
  {
    if ts != [] {
      TieCountBound(ts[..|ts| - 1]);
    }
  }

  /** The describer `calculate_equity_multi` applies to every hand: the
      evaluator's class name of the hand on the real board, then
      `describe_hand`. */
  function Describer(board: seq<Card>, classify: (seq<Card>, seq<Card>) -> string): seq<Card> -> Description
  {
    h => DescribeHand(h, board, classify(h, board))
  }

  /** `for w in winners: wins[w] += share`. */
  method AddShares(wins: seq<real>, winners: seq<nat>, share: real) returns (after: seq<real>)
    requires Distinct(winners) && forall k :: 0 <= k < |winners| ==> winners[k] < |wins|
    ensures after == Plus(wins, Marked(|wins|, winners, share))
  {
    after := wins;
    for k := 0 to |winners|
      invariant |after| == |wins|
      invariant forall i :: 0 <= i < |wins| ==> after[i] == wins[i] + (if i in winners[..k] then share else 0.0)
    {
      assert forall i :: i in winners[..k + 1] <==> i in winners[..k] || i == winners[k];
      assert winners[k] !in winners[..k];
      after := after[winners[k] := after[winners[k]] + share];
    }
    assert winners[..|winners|] == winners;
  }

  /** One more trial adds its credit to the totals and its split to the tie count. */
  lemma TrialStep(ts: seq<seq<int>>, n: nat, t: nat)
    requires n > 0 && Width(ts, n) && t < |ts|
    ensures Totals(ts[..t + 1], n) == Plus(Totals(ts[..t], n), Credit(ts[t]))
    ensures TieCount(ts[..t + 1]) == TieCount(ts[..t]) + (if |Winners(ts[t])| > 1 then 1 else 0)
  {
    assert ts[..t + 1][..t] == ts[..t];
  }

  /** The reported equities add up to 100 and each lies between 0 and 100,
      and so does the tie percentage. */
  lemma ReportFacts(ts: seq<seq<int>>, n: nat)
    requires n > 0 && Width(ts, n) && |ts| > 0
    ensures Sum(Percentages(Totals(ts, n), |ts|)) == 100.0
    ensures forall i :: 0 <= i < n ==> 0.0 <= Percentages(Totals(ts, n), |ts|)[i] <= 100.0
    ensures 0.0 <= TieCount(ts) as real / |ts| as real * 100.0 <= 100.0
  {
    TotalsFacts(ts, n);
    PercentagesFacts(Totals(ts, n), |ts|);
    WholePercent(Sum(Totals(ts, n)), |ts| as real);
    TieCountBound(ts);
    Rescale(TieCount(ts) as real, |ts| as real);
  }

  /** `calculate_equity_multi`: one trial per shuffled deck; each trial
      completes the board, scores every hand and shares one unit of credit
      among the co-best hands, counting the trials with a split. */
  method CalculateEquityMulti(hands: seq<seq<Card>>, names: seq<string>, iterations: nat, board: seq<Card>,
                              decks: seq<seq<Card>>, evaluate: (seq<Card>, seq<Card>) -> int,
                              classify: (seq<Card>, seq<Card>) -> string)
    returns (equities: seq<real>, tieProbability: real, handRanks: Result<map<string, string>, DescribeError>)
    requires |hands| > 0 && iterations > 0 && |decks| == iterations
    requires TrialsReady(decks, hands, board)
    requires AllValid(board) && forall h :: h in hands ==> AllValid(h)
    ensures var ts := TrialScores(decks, hands, board, evaluate);
      && equities == Percentages(Totals(ts, |hands|), iterations)
      && tieProbability == TieCount(ts) as real / iterations as real * 100.0
    ensures handRanks == HandRanks(names, hands, Describer(board, classify))
    ensures |equities| == |hands| && Sum(equities) == 100.0
    ensures forall i :: 0 <= i < |equities| ==> 0.0 <= equities[i] <= 100.0
    ensures 0.0 <= tieProbability <= 100.0
  {
    var n := |hands|;
    ghost var ts := TrialScores(decks, hands, board, evaluate);
    var wins := Zeros(n);
    var tieCount := 0;
    for t := 0 to iterations
      invariant wins == Totals(ts[..t], n)
      invariant tieCount == TieCount(ts[..t])
    {
      var scores := PlayTrial(decks[t], hands, board, evaluate);
      assert scores == ts[t];
      var winners := Winners(scores);
      var share := 1.0 / |winners| as real;
      TrialStep(ts, n, t);
      wins := AddShares(wins, winners, share);
      if |winners| > 1 {
        tieCount := tieCount + 1;
      }
    }
    assert ts[..iterations] == ts;
    equities := Percentages(wins, iterations);
    tieProbability := tieCount as real / iterations as real * 100.0;
    ReportFacts(ts, n);
    handRanks := HandRanks(names, hands, Describer(board, classify));
  }

  /** `describe_hand`: the name of a player's hand given the evaluator's class
      name for hole + board. */
  function DescribeHand(hole: seq<Card>, board: seq<Card>, className: string): Description
  {
    if !AllValid(hole + board) then Failure(UnknownCard)
    else if board == [] then
      AllValidSplit(hole, board);
      PreflopName(hole)
    else
      var all := hole + board;
      var ranks := Ranks(all);
      var order := FreqOrder(ranks);
      var high := Max(ranks);
      if className == "Straight" then StraightName(false, all)
      else if className == "Straight Flush" then StraightName(true, all)
      else
        match RankedName(className, order, high)
        case Some(name) => name
        case None => Success(className)
  }

  /** With no board the name depends on the hole cards only: a pair is named
      by its rank character, otherwise the highest hole card is named. */
  lemma PreflopNames(hole: seq<Card>, className: string)
    requires AllValid(hole)
    ensures |hole| < 2 ==> DescribeHand(hole, [], className) == Failure(MissingHoleCard)
    ensures |hole| >= 2 && hole[0][0] == hole[1][0] ==>
      DescribeHand(hole, [], className) == Success("Pair of " + [hole[0][0]] + "s")
    ensures |hole| >= 2 && hole[0][0] != hole[1][0] ==>
      exists k :: 0 <= k < |hole| && DescribeHand(hole, [], className) == Success("High Card " + [hole[k][0]])
        && forall j :: 0 <= j < |hole| ==> RankOf(hole[j]) <= RankOf(hole[k])
  {
    assert hole + [] == hole;
  }

  /** The class names named by rank are not the straight classes. */
  lemma RankedClassesNotStraight()
    ensures forall c :: c in ["Pair", "Three of a Kind", "Four of a Kind", "High Card", "Flush", "Two Pair", "Full House"] ==>
      c != "Straight" && c != "Straight Flush"
  {
  }

  /** Post-flop, the paired names use the most frequent rank (highest among
      equally frequent ones) and the best of the rest; High Card and Flush
      name the highest rank present; a two-rank name over a single distinct
      rank fails as the source's index does. */
  lemma PairedNames(hole: seq<Card>, board: seq<Card>, r1: nat, r2: nat, high: int)
    requires AllValid(hole + board) && board != []
    requires Leads(Ranks(hole + board), r1)
    requires high in Ranks(hole + board) && forall o :: o in Ranks(hole + board) ==> o <= high
    ensures r1 < 13 && 0 <= high < 13
    ensures DescribeHand(hole, board, "Pair") == Success("Pair of " + Plural(r1))
    ensures DescribeHand(hole, board, "Three of a Kind") == Success("Three of a Kind, " + Plural(r1))
    ensures DescribeHand(hole, board, "Four of a Kind") == Success("Four of a Kind, " + Plural(r1))
    ensures DescribeHand(hole, board, "High Card") == Success("High Card " + RankName(high))
    ensures DescribeHand(hole, board, "Flush") == Success("Flush, " + RankName(high) + " high")
    ensures Follows(Ranks(hole + board), r1, r2) ==>
      && r2 < 13
      && DescribeHand(hole, board, "Two Pair") == Success("Two Pair, " + Plural(r1) + " over " + Plural(r2))
      && DescribeHand(hole, board, "Full House") == Success("Full House, " + Plural(r1) + " full of " + Plural(r2))
    ensures (forall o :: o in Ranks(hole + board) ==> o == r1) ==>
      && DescribeHand(hole, board, "Two Pair") == Failure(MissingSecondRank)
      && DescribeHand(hole, board, "Full House") == Failure(MissingSecondRank)
  {
    LeaderNames(hole, board, r1);
    HighNames(hole, board, high);
    TwoRankNames(hole, board, r1, r2);
  }

  /** Pair, Three of a Kind and Four of a Kind name the leading rank. */
  lemma LeaderNames(hole: seq<Card>, board: seq<Card>, r1: nat)
    requires AllValid(hole + board) && board != []
    requires Leads(Ranks(hole + board), r1)
    ensures r1 < 13
    ensures DescribeHand(hole, board, "Pair") == Success("Pair of " + Plural(r1))
    ensures DescribeHand(hole, board, "Three of a Kind") == Success("Three of a Kind, " + Plural(r1))
    ensures DescribeHand(hole, board, "Four of a Kind") == Success("Four of a Kind, " + Plural(r1))
  {
    RankedClassesNotStraight();
    var ranks := Ranks(hole + board);
    FreqOrderNamesLeaders(ranks, r1, r1);
    RankedNames(FreqOrder(ranks), r1, r1, Max(ranks));
  }

  /** High Card and Flush name the highest rank present. */
  lemma HighNames(hole: seq<Card>, board: seq<Card>, high: int)
    requires AllValid(hole + board) && board != []
    requires high in Ranks(hole + board) && forall o :: o in Ranks(hole + board) ==> o <= high
    ensures 0 <= high < 13
    ensures DescribeHand(hole, board, "High Card") == Success("High Card " + RankName(high))
    ensures DescribeHand(hole, board, "Flush") == Success("Flush, " + RankName(high) + " high")
  {
    RankedClassesNotStraight();
    var ranks := Ranks(hole + board);
    assert Max(ranks) == high by {
      var k :| 0 <= k < |ranks| && ranks[k] == high;
    }
    var order := FreqOrder(ranks);
    RankedNames(order, order[0], order[0], high);
  }

  /** Two Pair and Full House name the two leading ranks, and fail when only
      one distinct rank is present. */
  lemma TwoRankNames(hole: seq<Card>, board: seq<Card>, r1: nat, r2: nat)
    requires AllValid(hole + board) && board != []
    requires Leads(Ranks(hole + board), r1)
    ensures Follows(Ranks(hole + board), r1, r2) ==>
      && r1 < 13 && r2 < 13
      && DescribeHand(hole, board, "Two Pair") == Success("Two Pair, " + Plural(r1) + " over " + Plural(r2))
      && DescribeHand(hole, board, "Full House") == Success("Full House, " + Plural(r1) + " full of " + Plural(r2))
    ensures (forall o :: o in Ranks(hole + board) ==> o == r1) ==>
      && DescribeHand(hole, board, "Two Pair") == Failure(MissingSecondRank)
      && DescribeHand(hole, board, "Full House") == Failure(MissingSecondRank)
  {
    RankedClassesNotStraight();
    var ranks := Ranks(hole + board);
    PostflopRanked(hole, board, "Two Pair");
    PostflopRanked(hole, board, "Full House");
    FreqOrderNamesLeaders(ranks, r1, r2);
    RankedNames(FreqOrder(ranks), r1, r2, Max(ranks));
  }

  /** After the flop, every class but the straights is named from the
      frequency order and the highest rank. */
  lemma PostflopRanked(hole: seq<Card>, board: seq<Card>, className: string)
    requires AllValid(hole + board) && board != []
    requires className != "Straight" && className != "Straight Flush"
    ensures var ranks := Ranks(hole + board);
      && |ranks| > 0 && RanksInRange(ranks) && |FreqOrder(ranks)| >= 1 && 0 <= Max(ranks) < 13
      && DescribeHand(hole, board, className) ==
           match RankedName(className, FreqOrder(ranks), Max(ranks))
           case Some(name) => name
           case None => Success(className)
  {
  }

  /** Wheel first: when ace to five are all present the straight names say
      "A to 5", even when a higher run is present too. */
  lemma WheelNamedFirst(hole: seq<Card>, board: seq<Card>)
    requires AllValid(hole + board) && board != [] && HasWheel(RankSet(hole + board))
    ensures DescribeHand(hole, board, "Straight") == Success("Straight, A to 5")
    ensures DescribeHand(hole, board, "Straight Flush") == Success("Straight Flush, A to 5")
  {
    StraightClassNames(hole, board);
  }

  /** Without the wheel, the highest five-rank run names the straight, and
      the ace-high straight flush is the royal flush. */
  lemma HighestRunNamed(hole: seq<Card>, board: seq<Card>, h: int)
    requires AllValid(hole + board) && board != [] && !HasWheel(RankSet(hole + board))
    requires 4 <= h <= 12 && HasWindow(RankSet(hole + board), h)
    requires forall g :: h < g <= 12 ==> !HasWindow(RankSet(hole + board), g)
    ensures DescribeHand(hole, board, "Straight") == Success("Straight, " + RankName(h - 4) + " to " + RankName(h))
    ensures DescribeHand(hole, board, "Straight Flush") ==
      if h == 12 then Success("Royal Flush")
      else Success("Straight Flush, " + RankName(h - 4) + " to " + RankName(h))
  {
    StraightClassNames(hole, board);
    var ranks := RankSet(hole + board);
    var r := FindFiveCardStraight(hole + board);
    assert r.Some? && r.value.Span?;
    assert r.value.high == h;
  }

  /** A straight class with no run among the ranks fails, as the source's
      tuple unpacking of None does. */
  lemma NoRunFails(hole: seq<Card>, board: seq<Card>)
    requires AllValid(hole + board) && board != [] && !HasWheel(RankSet(hole + board))
    requires forall g :: 4 <= g <= 12 ==> !HasWindow(RankSet(hole + board), g)
    ensures DescribeHand(hole, board, "Straight") == Failure(NoStraightFound)
    ensures DescribeHand(hole, board, "Straight Flush") == Failure(NoStraightFound)
  {
    StraightClassNames(hole, board);
  }

  lemma StraightClassNames(hole: seq<Card>, board: seq<Card>)
    requires AllValid(hole + board) && board != []
    ensures DescribeHand(hole, board, "Straight") == StraightName(false, hole + board)
    ensures DescribeHand(hole, board, "Straight Flush") == StraightName(true, hole + board)
  {
  }

  /** A class name outside the nine known ones is returned as it is. */
  lemma UnknownClassName(hole: seq<Card>, board: seq<Card>, className: string)
    requires AllValid(hole + board) && board != [] && !KnownClass(className)
    ensures DescribeHand(hole, board, className) == Success(className)
  {
  }

  /** Wheel first: cards ranked ace, deuce, three, four, five and six hold
      the six-high run, yet the straight is named "A to 5" because the wheel
      is checked before the other windows. */
  lemma WheelShadowsHigherStraight(hole: seq<Card>, board: seq<Card>)
    requires AllValid(hole + board) && board != []
    requires Ranks(hole + board) == [12, 0, 1, 2, 3, 4]
    ensures HasWindow(RankSet(hole + board), 4)
    ensures DescribeHand(hole, board, "Straight") == Success("Straight, A to 5")
  {
    var ranks := Ranks(hole + board);
    assert ranks[0] in ranks && ranks[1] in ranks && ranks[2] in ranks;
    assert ranks[3] in ranks && ranks[4] in ranks && ranks[5] in ranks;
    assert HasWheel(RankSet(hole + board));
    WheelNamedFirst(hole, board);
  }
}
