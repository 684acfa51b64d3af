/** The pieces of `describe_hand` that both revisions share word for word:
    the exceptions it can raise, the preflop name, and the names built from
    the rank frequency order or the highest rank. */
module HandNames {
  import opened Wrappers
  import opened Seqs
  import opened Cards
  import opened RankFrequency

  /** The exceptions `describe_hand` can raise. */
  datatype DescribeError =
    | UnknownCard        // Card.new on a string that is not a card (KeyError)
    | MissingHoleCard    // preflop with fewer than two hole cards (IndexError)
    | MissingSecondRank  // a two-rank class name with one distinct rank (IndexError)
    | NoStraightFound    // a straight class name with no five-rank window (TypeError)

  type Description = Result<string, DescribeError>

  /** A rank's name in the plural, "Ks". */
  function Plural(r: int): string
    requires 0 <= r < 13
  {
    RankName(r) + "s"
  }

  /** The rank numbers present among some cards. */
  function RankSet(cards: seq<Card>): set<int>
    requires AllValid(cards)
  {
    set r | r in Ranks(cards)
  }

  lemma AllValidSplit(hole: seq<Card>, board: seq<Card>)
    requires AllValid(hole + board)
    ensures AllValid(hole) && AllValid(board)
  {
    assert forall i :: 0 <= i < |hole| ==> (hole + board)[i] == hole[i];
    assert forall i :: 0 <= i < |board| ==> (hole + board)[|hole| + i] == board[i];
  }

  /** The name with no board: a pair named by the two first rank characters,
      otherwise the highest hole card. */
  function PreflopName(hole: seq<Card>): (r: Description)
    requires AllValid(hole)
    ensures r.Failure? <==> |hole| < 2
    ensures r.Failure? ==> r.error == MissingHoleCard
    ensures |hole| >= 2 && hole[0][0] == hole[1][0] ==> r == Success("Pair of " + [hole[0][0]] + "s")
    ensures |hole| >= 2 && hole[0][0] != hole[1][0] ==>
      exists k :: 0 <= k < |hole| && r == Success("High Card " + [hole[k][0]])
        && forall j :: 0 <= j < |hole| ==> RankOf(hole[j]) <= RankOf(hole[k])
  {
    if |hole| < 2 then Failure(MissingHoleCard)
    else if hole[0][0] == hole[1][0] then Success("Pair of " + [hole[0][0]] + "s")
    else
      var ranks := Ranks(hole);
      var top := Max(ranks);
      var k :| 0 <= k < |hole| && ranks[k] == top;
      Success("High Card " + RankName(top))
  }

  /** The names of the classes that need only the frequency order (`order`)
      and the highest rank (`high`); None for every other class name. */
  function RankedName(className: string, order: seq<nat>, high: int): Option<Description>
    requires |order| >= 1 && RanksInRange(order) && 0 <= high < 13
  {
    if className == "High Card" then Some(Success("High Card " + RankName(high)))
    else if className == "Pair" then Some(Success("Pair of " + Plural(order[0])))
    else if className == "Two Pair" then
      Some(if |order| < 2 then Failure(MissingSecondRank)
           else Success("Two Pair, " + Plural(order[0]) + " over " + Plural(order[1])))
    else if className == "Three of a Kind" then Some(Success("Three of a Kind, " + Plural(order[0])))
    else if className == "Flush" then Some(Success("Flush, " + RankName(high) + " high"))
    else if className == "Full House" then
      Some(if |order| < 2 then Failure(MissingSecondRank)
           else Success("Full House, " + Plural(order[0]) + " full of " + Plural(order[1])))
    else if className == "Four of a Kind" then Some(Success("Four of a Kind, " + Plural(order[0])))
    else None
  }

  /** The nine class names the describer recognises. */
  predicate KnownClass(className: string)
  {
    className in {"High Card", "Pair", "Two Pair", "Three of a Kind", "Straight",
                  "Flush", "Full House", "Four of a Kind", "Straight Flush"}
  }

  /** What the ranked names are once the first two entries of the order
      are known. */
  lemma RankedNames(order: seq<nat>, r1: nat, r2: nat, high: int)
    requires |order| >= 1 && RanksInRange(order) && 0 <= high < 13 && order[0] == r1
    ensures r1 < 13
    ensures RankedName("Pair", order, high) == Some(Success("Pair of " + Plural(r1)))
    ensures RankedName("Three of a Kind", order, high) == Some(Success("Three of a Kind, " + Plural(r1)))
    ensures RankedName("Four of a Kind", order, high) == Some(Success("Four of a Kind, " + Plural(r1)))
    ensures RankedName("High Card", order, high) == Some(Success("High Card " + RankName(high)))
    ensures RankedName("Flush", order, high) == Some(Success("Flush, " + RankName(high) + " high"))
    ensures |order| >= 2 && order[1] == r2 ==>
      && r2 < 13
      && RankedName("Two Pair", order, high) == Some(Success("Two Pair, " + Plural(r1) + " over " + Plural(r2)))
      && RankedName("Full House", order, high) == Some(Success("Full House, " + Plural(r1) + " full of " + Plural(r2)))
    ensures |order| == 1 ==>
      && RankedName("Two Pair", order, high) == Some(Failure(MissingSecondRank))
      && RankedName("Full House", order, high) == Some(Failure(MissingSecondRank))
  {
  }
}
