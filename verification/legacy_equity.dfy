/** The older equity engine (equity.py): the same trials as the server's,
    but a trial credits a hand only when it alone has the best score, and a
    straight is named by the lowest and highest ranks present rather than by
    its five-rank run. */
module LegacyEquity {
  import opened Wrappers
  import opened Seqs
  import opened Cards
  import opened RankFrequency
  import opened Trials
  import opened HandNames
  import opened EquityReport
  import ServerEquity

  /** `describe_hand` of the older revision. */
  function DescribeHand(hole: seq<Card>, board: seq<Card>, className: string): Description
  {
    if !AllValid(hole + board) then Failure(UnknownCard)
    else if board == [] then
      AllValidSplit(hole, board);
      PreflopName(hole)
    else
      var ranks := Ranks(hole + board);
      var order := FreqOrder(ranks);
      var high := Max(ranks);
      if className == "Straight" then SpanName(false, ranks)
      else if className == "Straight Flush" then SpanName(true, ranks)
      else
        match RankedName(className, order, high)
        case Some(name) => name
        case None => Success(className)
  }

  /** `describe_hand` applied to a hand with its evaluator class name. */
  function Describer(board: seq<Card>, classify: (seq<Card>, seq<Card>) -> string): seq<Card> -> Description
  {
    h => DescribeHand(h, board, classify(h, board))
  }

  /** The straight names of this revision: from the lowest to the highest
      distinct rank among all the cards. */
  function SpanName(flush: bool, ranks: seq<nat>): Description
    requires |ranks| > 0 && RanksInRange(ranks)
  {
    var low, high := Min(ranks), Max(ranks);
    if flush then Success("Straight Flush, " + RankName(low) + " to " + RankName(high))
    else Success("Straight, " + RankName(low) + " to " + RankName(high))
  }

  /** With no board the name depends on the hole cards only, as in the
      server's revision. */
  lemma PreflopNames(hole: seq<Card>, className: string)
    requires AllValid(hole)
    ensures DescribeHand(hole, [], className) == PreflopName(hole)
    ensures DescribeHand(hole, [], className) == ServerEquity.DescribeHand(hole, [], className)
  {
    assert hole + [] == hole;
  }

  /** The straight names span the lowest to the highest rank present, whether
      or not those ranks belong to the run. */
  lemma StraightNames(hole: seq<Card>, board: seq<Card>, low: int, high: int)
    requires AllValid(hole + board) && board != []
    requires low in Ranks(hole + board) && high in Ranks(hole + board)
    requires forall r :: r in Ranks(hole + board) ==> low <= r <= high
    ensures 0 <= low <= high < 13
    ensures DescribeHand(hole, board, "Straight") == Success("Straight, " + RankName(low) + " to " + RankName(high))
    ensures DescribeHand(hole, board, "Straight Flush") == Success("Straight Flush, " + RankName(low) + " to " + RankName(high))
  {
    var ranks := Ranks(hole + board);
    assert Min(ranks) == low by {
      var k :| 0 <= k < |ranks| && ranks[k] == low;
    }
    assert Max(ranks) == high by {
      var k :| 0 <= k < |ranks| && ranks[k] == high;
    }
  }

  /** Post-flop paired names, High Card and Flush are the server's. */
  lemma RankedNamesAgree(hole: seq<Card>, board: seq<Card>, className: string)
    requires AllValid(hole + board) && board != []
    requires className != "Straight" && className != "Straight Flush"
    ensures DescribeHand(hole, board, className) == ServerEquity.DescribeHand(hole, board, className)
  {
  }

  /** The revisions name the same straight differently: deuce to six with a
      jack is "2 to 6" on the server and "2 to J" here. */
  lemma StraightNamesDiffer(hole: seq<Card>, board: seq<Card>)
    requires AllValid(hole + board) && board != []
    requires Ranks(hole + board) == [0, 1, 2, 3, 4, 9]
    ensures ServerEquity.DescribeHand(hole, board, "Straight") == Success("Straight, " + "2" + " to " + "6")
    ensures DescribeHand(hole, board, "Straight") == Success("Straight, " + "2" + " to " + "J")
  {
    ServerRunOfLowFive(hole, board);
    StraightNames(hole, board, 0, 9);
    assert RankName(0) == "2" && RankName(9) == "J";
  }

  lemma ServerRunOfLowFive(hole: seq<Card>, board: seq<Card>)
    requires AllValid(hole + board) && board != []
    requires Ranks(hole + board) == [0, 1, 2, 3, 4, 9]
    ensures ServerEquity.DescribeHand(hole, board, "Straight") == Success("Straight, " + "2" + " to " + "6")
  {
    LowFiveRun(hole, board);
    ServerEquity.HighestRunNamed(hole, board, 4);
    assert RankName(0) == "2" && RankName(4) == "6";
  }

  /** Deuce to six with a jack holds one run, the one ending at the six. */
  lemma LowFiveRun(hole: seq<Card>, board: seq<Card>)
    requires AllValid(hole + board)
    requires Ranks(hole + board) == [0, 1, 2, 3, 4, 9]
    ensures var rs := RankSet(hole + board);
      && !ServerEquity.HasWheel(rs) && ServerEquity.HasWindow(rs, 4)
      && forall g :: 4 < g <= 12 ==> !ServerEquity.HasWindow(rs, g)
  {
    LowFiveRunOf(Ranks(hole + board), RankSet(hole + board));
  }

  lemma LowFiveRunOf(ranks: seq<nat>, rs: set<int>)
    requires ranks == [0, 1, 2, 3, 4, 9]
    requires forall r :: r in rs <==> r in ranks
    ensures !ServerEquity.HasWheel(rs) && ServerEquity.HasWindow(rs, 4)
    ensures forall g :: 4 < g <= 12 ==> !ServerEquity.HasWindow(rs, g)
  {
    assert ranks[0] == 0 && ranks[1] == 1 && ranks[2] == 2 && ranks[3] == 3 && ranks[4] == 4;
    forall g | 4 < g <= 12 ensures !ServerEquity.HasWindow(rs, g) {
      assert (if g <= 8 then g else g - 4) !in ranks;
    }
  }

  /** Hand i alone has the best score. */
  predicate SoleBest(scores: seq<int>, i: int)
  {
    0 <= i < |scores| && forall j :: 0 <= j < |scores| && j != i ==> scores[i] < scores[j]
  }

  /** `len(winners) == 1` exactly when some hand alone has the best score,
      and then that hand is the winner listed. */
  lemma SoleWinnerFacts(scores: seq<int>)
    requires |scores| > 0
    ensures |Winners(scores)| == 1 <==> exists i :: SoleBest(scores, i)
    ensures |Winners(scores)| == 1 ==> SoleBest(scores, Winners(scores)[0])
  {
    var w := Winners(scores);
    if |w| == 1 {
      assert w[0] in w;
      forall j | 0 <= j < |scores| && j != w[0] ensures scores[w[0]] < scores[j] {
      }
      assert SoleBest(scores, w[0]);
    } else if i :| SoleBest(scores, i) {
      OnlySoleBest(scores, i);
    }
  }

  /** A hand that alone has the best score is the only winner. */
  lemma OnlySoleBest(scores: seq<int>, i: int)
    requires |scores| > 0 && SoleBest(scores, i)
    ensures |Winners(scores)| == 1 && Winners(scores)[0] == i
  {
    var w := Winners(scores);
    forall k | 0 <= k < |w| ensures w[k] == i {
      assert w[k] in w;
    }
    AllSame(w, i);
  }

  /** Some hand alone has the best score. */
  predicate HasSoleBest(scores: seq<int>)
  {
    exists i :: 0 <= i < |scores| && SoleBest(scores, i)
  }

  /** One trial's effect on the win counts: the hand that alone has the best
      score gains one, every other count stays. */
  function Tally(wins: seq<int>, scores: seq<int>): (r: seq<int>)
    requires |scores| == |wins|
    ensures |r| == |wins|
  {
    seq(|wins|, i requires 0 <= i < |wins| => wins[i] + if SoleBest(scores, i) then 1 else 0)
  }

  /** The win counts after the given trials: the `wins` list. */
  function Wins(ts: seq<seq<int>>, n: nat): (w: seq<int>)
    requires ServerEquity.Width(ts, n)
    ensures |w| == n
  {
    if ts == [] then seq(n, i => 0)
    else Tally(Wins(ts[..|ts| - 1], n), ts[|ts| - 1])
  }

  /** The number of trials without a sole best hand: `ties`. */
  function Ties(ts: seq<seq<int>>): nat
  {
    if ts == [] then 0
    else Ties(ts[..|ts| - 1]) + (if HasSoleBest(ts[|ts| - 1]) then 0 else 1)
  }

  /** The number of trials that hand i wins alone. */
  function SoleWinsOf(ts: seq<seq<int>>, i: nat): nat
  {
    if ts == [] then 0
    else SoleWinsOf(ts[..|ts| - 1], i) + (if SoleBest(ts[|ts| - 1], i) then 1 else 0)
  }

  /** The tally of a trial that hand k wins alone adds one at k. */
  lemma TallyAt(wins: seq<int>, scores: seq<int>, k: nat)
    requires |scores| == |wins| && SoleBest(scores, k)
    ensures HasSoleBest(scores) && Tally(wins, scores) == wins[k := wins[k] + 1]
  {
    forall i | 0 <= i < |scores| && i != k ensures !SoleBest(scores, i) {
      assert scores[k] < scores[i];
    }
    assert Tally(wins, scores) == wins[k := wins[k] + 1];
  }

  /** With several co-best hands listed, the tally changes nothing. */
  lemma TallySplit(wins: seq<int>, scores: seq<int>)
    requires |scores| == |wins| > 0 && |Winners(scores)| != 1
    ensures !HasSoleBest(scores) && Tally(wins, scores) == wins
  {
    SoleWinnerFacts(scores);
  }

  /** A trial adds one to the total count exactly when it has a sole best hand. */
  lemma TallySum(wins: seq<int>, scores: seq<int>)
    requires |scores| == |wins|
    ensures IntSum(Tally(wins, scores)) == IntSum(wins) + (if HasSoleBest(scores) then 1 else 0)
  {
    if HasSoleBest(scores) {
      var k :| 0 <= k < |scores| && SoleBest(scores, k);
      TallyAt(wins, scores, k);
      IntSumUpdate(wins, k, 1);
    } else {
      assert Tally(wins, scores) == wins;
    }
  }

  lemma {:induction false} SoleWinsBound(ts: seq<seq<int>>, i: nat)
    ensures SoleWinsOf(ts, i) <= |ts|
  {
    if ts != [] {
      SoleWinsBound(ts[..|ts| - 1], i);
    }
  }

  /** Every trial is either one hand's win or a tie, never both: the win
      counts and the ties add up to the number of trials, and each hand's
      count is the number of trials it won alone. */
  lemma {:induction false} WinsFacts(ts: seq<seq<int>>, n: nat)
    requires ServerEquity.Width(ts, n)
    ensures IntSum(Wins(ts, n)) + Ties(ts) == |ts|
    ensures forall i :: 0 <= i < n ==> Wins(ts, n)[i] == SoleWinsOf(ts, i)
    ensures forall i :: 0 <= i < n ==> 0 <= Wins(ts, n)[i] <= |ts|
    ensures Ties(ts) <= |ts|
  {
    if ts == [] {
      ZeroIntSum(n);
    } else {
      var front, last := ts[..|ts| - 1], ts[|ts| - 1];
      WinsFacts(front, n);
      TallySum(Wins(front, n), last);
    }
    forall i | 0 <= i < n ensures Wins(ts, n)[i] <= |ts| {
      SoleWinsBound(ts, i);
    }
  }

  lemma {:induction false} ZeroIntSum(n: nat)
    ensures IntSum(seq(n, i => 0)) == 0
  {
    if n > 0 {
      ZeroIntSum(n - 1);
      assert seq(n, i => 0)[1..] == seq(n - 1, i => 0);
    }
  }

  /** A split trial shows the two accountings apart: the server shares the
      credit among the co-best hands, this revision credits no one; both
      count it as a tie. */
  lemma SplitTrialAccounting(scores: seq<int>)
    requires |scores| > 0 && |Winners(scores)| >= 2
    ensures Wins([scores], |scores|) == seq(|scores|, i => 0) && Ties([scores]) == 1
    ensures ServerEquity.TieCount([scores]) == 1
    ensures forall i :: i in Winners(scores) ==> ServerEquity.Credit(scores)[i] == 1.0 / |Winners(scores)| as real
  {
    assert [scores][..0] == [];
    TallySplit(seq(|scores|, i => 0), scores);
  }

  /** The win counts as reals, for the percentages. */
  function AsReals(w: seq<int>): (r: seq<real>)
    ensures |r| == |w| && forall i :: 0 <= i < |w| ==> r[i] == w[i] as real
  {
    seq(|w|, i requires 0 <= i < |w| => w[i] as real)
  }

  /** `calculate_equity_multi` of the older revision: one trial per shuffled
      deck; a trial with a sole best hand counts a win for it, any other
      trial counts a tie; the names are filled in afterwards. */
  method CalculateEquityMulti(hands: seq<seq<Card>>, names: seq<string>, iterations: nat, board: seq<Card>,
                              decks: seq<seq<Card>>, evaluate: (seq<Card>, seq<Card>) -> int,
                              classify: (seq<Card>, seq<Card>) -> string)
    returns (equities: seq<real>, tieEquity: real, handRanks: Result<map<string, string>, DescribeError>)
    requires |hands| > 0 && iterations > 0 && |decks| == iterations
    requires TrialsReady(decks, hands, board)
    requires AllValid(board) && forall h :: h in hands ==> AllValid(h)
    ensures var ts := TrialScores(decks, hands, board, evaluate);
      && equities == Percentages(AsReals(Wins(ts, |hands|)), iterations)
      && tieEquity == Ties(ts) as real / iterations as real * 100.0
    ensures handRanks == HandRanks(names, hands, Describer(board, classify))
    ensures |equities| == |hands| && Sum(equities) + tieEquity == 100.0
    ensures forall i :: 0 <= i < |equities| ==> 0.0 <= equities[i] <= 100.0
    ensures 0.0 <= tieEquity <= 100.0
  {
    var n := |hands|;
    ghost var ts := TrialScores(decks, hands, board, evaluate);
    var wins, ties := Simulate(hands, board, decks, evaluate);
    equities := Percentages(AsReals(wins), iterations);
    tieEquity := ties as real / iterations as real * 100.0;
    ReportFacts(ts, n);
    handRanks := NameHands(names, hands, board, classify);
  }

  /** The trial loop: `wins[winners[0]] += 1` for a sole winner, otherwise
      `ties += 1`. */
  method Simulate(hands: seq<seq<Card>>, board: seq<Card>, decks: seq<seq<Card>>,
                  evaluate: (seq<Card>, seq<Card>) -> int)
    returns (wins: seq<int>, ties: nat)
    requires |hands| > 0 && TrialsReady(decks, hands, board)
    ensures var ts := TrialScores(decks, hands, board, evaluate);
      wins == Wins(ts, |hands|) && ties == Ties(ts)
  {
    var n := |hands|;
    ghost var ts := TrialScores(decks, hands, board, evaluate);
    assert ServerEquity.Width(ts, n);
    wins := seq(n, i => 0);
    ties := 0;
    for t := 0 to |decks|
      invariant wins == Wins(ts[..t], n)
      invariant ties == Ties(ts[..t])
    {
      var scores := PlayTrial(decks[t], hands, board, evaluate);
      assert scores == ts[t];
      var winners := Winners(scores);
      TrialStep(ts, n, t);
      wins, ties := Record(wins, ties, scores, winners);
    }
    assert ts[..|decks|] == ts;
  }

  /** `if len(winners) == 1: wins[winners[0]] += 1 else: ties += 1`. */
  method Record(wins: seq<int>, ties: nat, scores: seq<int>, winners: seq<nat>)
    returns (wins': seq<int>, ties': nat)
    requires |scores| == |wins| > 0 && winners == Winners(scores)
    ensures wins' == Tally(wins, scores)
    ensures ties' == ties + (if HasSoleBest(scores) then 0 else 1)
  {
    if |winners| == 1 {
      SoleWinnerFacts(scores);
      TallyAt(wins, scores, winners[0]);
      wins', ties' := wins[winners[0] := wins[winners[0]] + 1], ties;
    } else {
      TallySplit(wins, scores);
      wins', ties' := wins, ties + 1;
    }
  }

  /** `for pname, h_str in zip(player_names, hands_str): hand_ranks[pname] =
      describe_hand(...)`; a description that raises ends the loop with
      that error. */
  method NameHands(names: seq<string>, hands: seq<seq<Card>>, board: seq<Card>,
                   classify: (seq<Card>, seq<Card>) -> string)
    returns (handRanks: Result<map<string, string>, DescribeError>)
    ensures handRanks == HandRanks(names, hands, Describer(board, classify))
  {
    ghost var describe := Describer(board, classify);
    var zipped := ZipLength(names, hands);
    var ranks: map<string, string> := map[];
    var k := 0;
    while k < zipped
      invariant k <= zipped
      invariant HandRanks(names[..k], hands[..k], describe) == Success(ranks)
    {
      var d := DescribeHand(hands[k], board, classify(hands[k], board));
      HandRanksStep(names, hands, describe, k);
      if d.Failure? {
        HandRanksAbort(names, hands, describe, k + 1, zipped);
        ZipPrefix(names, hands, describe);
        return Failure(d.error);
      }
      ranks := ranks[names[k] := d.value];
      k := k + 1;
    }
    ZipPrefix(names, hands, describe);
    return Success(ranks);
  }

  /** One more zipped pair extends the comprehension by one entry. */
  lemma HandRanksStep(names: seq<string>, hands: seq<seq<Card>>, describe: seq<Card> -> Description, k: nat)
    requires k < |names| && k < |hands|
    ensures HandRanks(names[..k + 1], hands[..k + 1], describe) ==
      match HandRanks(names[..k], hands[..k], describe)
      case Failure(e) => Failure(e)
      case Success(m) =>
        match describe(hands[k])
        case Failure(e) => Failure(e)
        case Success(d) => Success(m[names[k] := d])
  {
    assert names[..k + 1][..k] == names[..k];
    assert hands[..k + 1][..k] == hands[..k];
  }

  /** Once a prefix raises, every longer prefix raises the same. */
  lemma {:induction false} HandRanksAbort(names: seq<string>, hands: seq<seq<Card>>,
                                          describe: seq<Card> -> Description, k: nat, m: nat)
    requires k <= m <= |names| && m <= |hands|
    requires HandRanks(names[..k], hands[..k], describe).Failure?
    ensures HandRanks(names[..m], hands[..m], describe) == HandRanks(names[..k], hands[..k], describe)
    decreases m - k
  {
    if k < m {
      HandRanksStep(names, hands, describe, k);
      HandRanksAbort(names, hands, describe, k + 1, m);
    }
  }

  /** Zipping only looks at the first ZipLength pairs. */
  lemma ZipPrefix(names: seq<string>, hands: seq<seq<Card>>, describe: seq<Card> -> Description)
    ensures var k := ZipLength(names, hands);
      HandRanks(names[..k], hands[..k], describe) == HandRanks(names, hands, describe)
  {
    var k := ZipLength(names, hands);
    assert ZipLength(names[..k], hands[..k]) == k;
    if k > 0 {
      assert names[..k][..k - 1] == names[..k - 1] && hands[..k][..k - 1] == hands[..k - 1];
      assert names[..k][k - 1] == names[k - 1] && hands[..k][k - 1] == hands[k - 1];
    }
  }

  /** One more trial adds its win or its tie. */
  lemma TrialStep(ts: seq<seq<int>>, n: nat, t: nat)
    requires n > 0 && ServerEquity.Width(ts, n) && t < |ts|
    ensures Wins(ts[..t + 1], n) == Tally(Wins(ts[..t], n), ts[t])
    ensures Ties(ts[..t + 1]) == Ties(ts[..t]) + (if HasSoleBest(ts[t]) then 0 else 1)
  {
    assert ts[..t + 1][..t] == ts[..t];
  }

  /** The equities and the tie figure add up to 100, each between 0 and 100. */
  lemma ReportFacts(ts: seq<seq<int>>, n: nat)
    requires n > 0 && ServerEquity.Width(ts, n) && |ts| > 0
    ensures Sum(Percentages(AsReals(Wins(ts, n)), |ts|)) + Ties(ts) as real / |ts| as real * 100.0 == 100.0
    ensures forall i :: 0 <= i < n ==> 0.0 <= Percentages(AsReals(Wins(ts, n)), |ts|)[i] <= 100.0
    ensures 0.0 <= Ties(ts) as real / |ts| as real * 100.0 <= 100.0
  {
    var w := Wins(ts, n);
    var r := AsReals(w);
    var it := |ts| as real;
    WinsFacts(ts, n);
    SumOfInts(w, r);
    PercentagesFacts(r, |ts|);
    PercentOfParts(Sum(r), Ties(ts) as real, it);
    Rescale(Ties(ts) as real, it);
  }
}
