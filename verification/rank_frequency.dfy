/** The rank frequency table both hand describers build: how often each rank
    occurs among a player's hole and board cards, and the distinct ranks
    listed by count (most first), ties broken by rank (highest first). That
    is the order Python's `sorted(freq.items(), key=lambda x: (-x[1], -x[0]))`
    produces; here it is built count by count from the top. */
module RankFrequency {
  import opened Seqs


  predicate RanksInRange(ranks: seq<nat>)
  {
    forall i :: 0 <= i < |ranks| ==> ranks[i] < 13
  }

  /** How many of the cards have rank r (the frequency map's value). */
  function Count(ranks: seq<nat>, r: nat): nat
  {
    multiset(ranks)[r]
  }

  /** a sorts strictly before b under the key (-count, -rank). */
  predicate Before(ranks: seq<nat>, a: nat, b: nat)
  {
    Count(ranks, a) > Count(ranks, b) || (Count(ranks, a) == Count(ranks, b) && a > b)
  }

  /** The ranks below `below` occurring exactly c times, highest first. */
  function WithCount(ranks: seq<nat>, c: nat, below: nat): seq<nat>
    decreases below
  {
    if below == 0 then []
    else (if Count(ranks, below - 1) == c then [below - 1] else []) + WithCount(ranks, c, below - 1)
  }

  /** The ranks below `width` occurring between 1 and c times, in frequency order. */
  function FromCount(ranks: seq<nat>, c: nat, width: nat): seq<nat>
    decreases c
  {
    if c == 0 then [] else WithCount(ranks, c, width) + FromCount(ranks, c - 1, width)
  }

  /** The keys of the frequency map in sorted order. Only ranks up to the
      highest one present need be scanned. */
  function FreqOrder(ranks: seq<nat>): (order: seq<nat>)
    requires RanksInRange(ranks)
    ensures forall r :: r in order <==> r in ranks
    ensures forall i, j :: 0 <= i < j < |order| ==> Before(ranks, order[i], order[j])
    ensures RanksInRange(order) && (|ranks| > 0 ==> |order| > 0)
  {
    if ranks == [] then []
    else
      var width := Max(ranks) + 1;
      var order := FromCount(ranks, |ranks|, width);
      FromCountSorted(ranks, |ranks|, width);
      forall r ensures r in order <==> r in ranks {
        FromCountMembers(ranks, |ranks|, width, r);
        CountBound(ranks, r);
        if r in ranks {
          var k :| 0 <= k < |ranks| && ranks[k] == r;
        }
      }
      assert ranks[0] in order;
      forall i | 0 <= i < |order| ensures order[i] < 13 {
        assert order[i] in ranks;
      }
      order
  }

  lemma {:induction false} CountBound(ranks: seq<nat>, r: nat)
    ensures Count(ranks, r) <= |ranks|
  {
    if ranks != [] {
      CountBound(ranks[1..], r);
      assert ranks == [ranks[0]] + ranks[1..];
    }
  }

  lemma {:induction false} WithCountMembers(ranks: seq<nat>, c: nat, below: nat, r: nat)
    ensures r in WithCount(ranks, c, below) <==> r < below && Count(ranks, r) == c
    decreases below
  {
    if below > 0 {
      WithCountMembers(ranks, c, below - 1, r);
    }
  }

  lemma {:induction false} WithCountDescending(ranks: seq<nat>, c: nat, below: nat)
    ensures forall i, j :: 0 <= i < j < |WithCount(ranks, c, below)| ==>
              WithCount(ranks, c, below)[i] > WithCount(ranks, c, below)[j]
    decreases below
  {
    if below > 0 {
      WithCountDescending(ranks, c, below - 1);
      var rest := WithCount(ranks, c, below - 1);
      forall k | 0 <= k < |rest| ensures rest[k] < below - 1 {
        WithCountMembers(ranks, c, below - 1, rest[k]);
      }
    }
  }

  lemma {:induction false} FromCountMembers(ranks: seq<nat>, c: nat, width: nat, r: nat)
    ensures r in FromCount(ranks, c, width) <==> r < width && 1 <= Count(ranks, r) <= c
    decreases c
  {
    if c > 0 {
      var top, rest := WithCount(ranks, c, width), FromCount(ranks, c - 1, width);
      assert FromCount(ranks, c, width) == top + rest;
      FromCountMembers(ranks, c - 1, width, r);
      WithCountMembers(ranks, c, width, r);
      assert r in top + rest <==> r in top || r in rest;
    }
  }

  lemma {:induction false} FromCountSorted(ranks: seq<nat>, c: nat, width: nat)
    ensures forall i, j :: 0 <= i < j < |FromCount(ranks, c, width)| ==>
              Before(ranks, FromCount(ranks, c, width)[i], FromCount(ranks, c, width)[j])
    decreases c
  {
    if c > 0 {
      var top, rest := WithCount(ranks, c, width), FromCount(ranks, c - 1, width);
      FromCountSorted(ranks, c - 1, width);
      WithCountDescending(ranks, c, width);
      var order := top + rest;
      forall i, j | 0 <= i < j < |order| ensures Before(ranks, order[i], order[j]) {
        if j < |top| {
          WithCountMembers(ranks, c, width, order[i]);
          WithCountMembers(ranks, c, width, order[j]);
        } else if i < |top| {
          WithCountMembers(ranks, c, width, order[i]);
          FromCountMembers(ranks, c - 1, width, order[j]);
        } else {
          assert order[i] == rest[i - |top|] && order[j] == rest[j - |top|];
        }
      }
    }
  }

  /** The head of the order is the most frequent rank, the highest among
      equally frequent ones; the second entry is the best of the others. */
  lemma {:induction false} FreqOrderLeaders(ranks: seq<nat>)
    requires RanksInRange(ranks) && |ranks| > 0
    ensures |FreqOrder(ranks)| >= 1
    ensures forall r :: r in ranks && r != FreqOrder(ranks)[0] ==> Before(ranks, FreqOrder(ranks)[0], r)
    ensures |FreqOrder(ranks)| >= 2 ==>
              forall r :: r in ranks && r != FreqOrder(ranks)[0] && r != FreqOrder(ranks)[1] ==>
                Before(ranks, FreqOrder(ranks)[1], r)
  {
    var order := FreqOrder(ranks);
    assert ranks[0] in order;
    forall r | r in ranks && r != order[0] ensures Before(ranks, order[0], r) {
      var k :| 0 <= k < |order| && order[k] == r;
    }
    if |order| >= 2 {
      forall r | r in ranks && r != order[0] && r != order[1] ensures Before(ranks, order[1], r) {
        var k :| 0 <= k < |order| && order[k] == r;
      }
    }
  }

  /** r is the most frequent rank, the highest among equally frequent ones. */
  predicate Leads(ranks: seq<nat>, r: nat)
  {
    r in ranks && forall o :: o in ranks && o != r ==> Before(ranks, r, o)
  }

  /** r2 is the best rank once r1 is set aside. */
  predicate Follows(ranks: seq<nat>, r1: nat, r2: nat)
  {
    r2 in ranks && r2 != r1 && forall o :: o in ranks && o != r1 && o != r2 ==> Before(ranks, r2, o)
  }

  /** The first two entries of the frequency order are the leader and the
      runner-up, whichever way these are found. */
  lemma FreqOrderNamesLeaders(ranks: seq<nat>, r1: nat, r2: nat)
    requires RanksInRange(ranks) && |ranks| > 0
    ensures |FreqOrder(ranks)| >= 1
    ensures Leads(ranks, r1) ==> FreqOrder(ranks)[0] == r1
    ensures Leads(ranks, r1) && Follows(ranks, r1, r2) ==> |FreqOrder(ranks)| >= 2 && FreqOrder(ranks)[1] == r2
    ensures Leads(ranks, r1) && (forall o :: o in ranks ==> o == r1) ==> |FreqOrder(ranks)| == 1
  {
    FreqOrderLeaders(ranks);
    SortedLeaders(ranks, FreqOrder(ranks), r1, r2);
  }

  lemma SortedLeaders(ranks: seq<nat>, order: seq<nat>, r1: nat, r2: nat)
    requires |ranks| > 0
    requires forall r :: r in order <==> r in ranks
    requires forall i, j :: 0 <= i < j < |order| ==> Before(ranks, order[i], order[j])
    ensures |order| >= 1
    ensures Leads(ranks, r1) ==> order[0] == r1
    ensures Leads(ranks, r1) && Follows(ranks, r1, r2) ==> |order| >= 2 && order[1] == r2
    ensures Leads(ranks, r1) && (forall o :: o in ranks ==> o == r1) ==> |order| == 1
  {
    assert ranks[0] in order;
    if Leads(ranks, r1) {
      assert order[0] == r1 by {
        var k :| 0 <= k < |order| && order[k] == r1;
        if k != 0 {
          assert order[0] in ranks && Before(ranks, order[0], r1);
        }
      }
      if |order| >= 2 {
        assert Before(ranks, order[0], order[1]);
        assert order[1] in ranks && order[1] != r1;
      }
      if Follows(ranks, r1, r2) {
        var q :| 0 <= q < |order| && order[q] == r2;
      }
    }
  }
}
