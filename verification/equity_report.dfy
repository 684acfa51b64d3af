/** What both revisions of `calculate_equity_multi` return besides the
    trials themselves: percentages out of the trial count, and the hand names
    keyed by player name. */
module EquityReport {
  import opened Wrappers
  import opened Seqs
  import opened Cards
  import opened HandNames

  /** `(w / iterations) * 100` for every total. */
  function Percentages(totals: seq<real>, iterations: nat): (p: seq<real>)
    requires iterations > 0
    ensures |p| == |totals|
  {
    seq(|totals|, i requires 0 <= i < |totals| => totals[i] / iterations as real * 100.0)
  }

  /** Percentages of totals that are each at most the number of trials lie
      between 0 and 100, and they add up to the percentage of the sum. */
  lemma PercentagesFacts(totals: seq<real>, iterations: nat)
    requires iterations > 0
    requires forall i :: 0 <= i < |totals| ==> 0.0 <= totals[i] <= iterations as real
    ensures Sum(Percentages(totals, iterations)) == Sum(totals) / iterations as real * 100.0
    ensures forall i :: 0 <= i < |totals| ==> 0.0 <= Percentages(totals, iterations)[i] <= 100.0
  {
    PercentagesSum(totals, iterations);
    PercentagesBounded(totals, iterations);
  }

  lemma PercentagesSum(totals: seq<real>, iterations: nat)
    requires iterations > 0
    ensures Sum(Percentages(totals, iterations)) == Sum(totals) / iterations as real * 100.0
  {
    var c := 100.0 / iterations as real;
    PercentagesScaled(totals, iterations, c);
    SumScaled(totals, Percentages(totals, iterations), c);
    Scale(Sum(totals), iterations as real);
  }

  lemma PercentagesBounded(totals: seq<real>, iterations: nat)
    requires iterations > 0
    requires forall i :: 0 <= i < |totals| ==> 0.0 <= totals[i] <= iterations as real
    ensures forall i :: 0 <= i < |totals| ==> 0.0 <= Percentages(totals, iterations)[i] <= 100.0
  {
    forall i | 0 <= i < |totals| {
      Rescale(totals[i], iterations as real);
    }
  }

  lemma PercentagesScaled(totals: seq<real>, iterations: nat, c: real)
    requires iterations > 0 && c == 100.0 / iterations as real
    ensures forall i :: 0 <= i < |totals| ==> Percentages(totals, iterations)[i] == totals[i] * c
  {
    forall i | 0 <= i < |totals| {
      Scale(totals[i], iterations as real);
    }
  }

  /** Parts of a whole, as percentages, add up to 100. */
  lemma PercentOfParts(a: real, b: real, it: real)
    requires it > 0.0 && a + b == it
    ensures a / it * 100.0 + b / it * 100.0 == 100.0
  {
    assert a / it + b / it == (a + b) / it;
  }

  lemma WholePercent(x: real, it: real)
    requires it > 0.0 && x == it
    ensures x / it * 100.0 == 100.0
  {
  }

  lemma Scale(x: real, it: real)
    requires it > 0.0
    ensures x / it * 100.0 == x * (100.0 / it)
  {
    var q := x / it;
    assert q * it == x;
    assert (100.0 / it) * it == 100.0;
  }

  lemma Rescale(x: real, it: real)
    requires it > 0.0 && 0.0 <= x <= it
    ensures x / it * 100.0 == x * (100.0 / it)
    ensures 0.0 <= x / it * 100.0 <= 100.0
  {
    Scale(x, it);
    assert x / it <= 1.0;
  }

  /** Python's `zip` length. */
  function ZipLength<A, B>(a: seq<A>, b: seq<B>): nat
  {
    if |a| < |b| then |a| else |b|
  }

  /** The hand names keyed by player name, pairing names with hands as `zip`
      does; the first description that raises makes the whole comprehension
      raise. */
  function HandRanks(names: seq<string>, hands: seq<seq<Card>>, describe: seq<Card> -> Description)
    : Result<map<string, string>, DescribeError>
    decreases |names|
  {
    var k := ZipLength(names, hands);
    if k == 0 then Success(map[])
    else
      match HandRanks(names[..k - 1], hands[..k - 1], describe)
      case Failure(e) => Failure(e)
      case Success(m) =>
        match describe(hands[k - 1])
        case Failure(e) => Failure(e)
        case Success(d) => Success(m[names[k - 1] := d])
  }

  /** The comprehension raises exactly when some description does; otherwise
      its keys are the zipped names and each name maps to the description of
      the hand paired with its LAST occurrence (later keys overwrite). */
  lemma {:induction false} HandRanksFacts(names: seq<string>, hands: seq<seq<Card>>,
                                          describe: seq<Card> -> Description)
    ensures var k, r := ZipLength(names, hands), HandRanks(names, hands, describe);
      && (r.Failure? <==> exists i :: 0 <= i < k && describe(hands[i]).Failure?)
      && (r.Success? ==> r.value.Keys == set i | 0 <= i < k :: names[i])
      && (r.Success? ==> forall i :: 0 <= i < k && (forall j :: i < j < k ==> names[j] != names[i]) ==>
            r.value[names[i]] == describe(hands[i]).value)
    decreases |names|
  {
    var k := ZipLength(names, hands);
    if k > 0 {
      var ns, hs := names[..k - 1], hands[..k - 1];
      HandRanksFacts(ns, hs, describe);
      assert ZipLength(ns, hs) == k - 1;
      assert forall i :: 0 <= i < k - 1 ==> ns[i] == names[i] && hs[i] == hands[i];
    }
  }
}
