/** Generic facts about sequences used by the card models: distinctness,
    Python's list.remove, filtering, flattening and real-valued sums. */
module Seqs {

  predicate Distinct<T(==)>(s: seq<T>)
  {
    forall i, j :: 0 <= i < j < |s| ==> s[i] != s[j]
  }

  function Elems<T>(s: seq<T>): set<T>
  {
    set x | x in s
  }

  /** Python's `list.remove(x)`: drops the first occurrence of x. */
  function RemoveFirst<T(==)>(s: seq<T>, x: T): (r: seq<T>)
    requires x in s
    ensures |r| == |s| - 1
  {
    if s[0] == x then s[1..] else [s[0]] + RemoveFirst(s[1..], x)
  }

  /** The elements of s that are not in drop, in their original order. */
  function Without<T(==)>(s: seq<T>, drop: set<T>): (r: seq<T>)
    ensures |r| <= |s|
  {
    if s == [] then [] else (if s[0] in drop then [] else [s[0]]) + Without(s[1..], drop)
  }

  /** Number of positions of s whose element lies in d. */
  function CountIn<T>(s: seq<T>, d: set<T>): nat
  {
    if s == [] then 0 else (if s[0] in d then 1 else 0) + CountIn(s[1..], d)
  }

  function Flatten<T>(ss: seq<seq<T>>): seq<T>
  {
    if ss == [] then [] else Flatten(ss[..|ss| - 1]) + ss[|ss| - 1]
  }

  /** Python's `min` of a non-empty list. */
  function Min(s: seq<int>): (m: int)
    requires |s| > 0
    ensures m in s
    ensures forall i :: 0 <= i < |s| ==> m <= s[i]
  {
    if |s| == 1 then s[0]
    else
      var m := Min(s[1..]);
      assert forall i :: 1 <= i < |s| ==> s[i] == s[1..][i - 1];
      if s[0] <= m then s[0] else m
  }

  /** Python's `max` of a non-empty list. */
  function Max(s: seq<int>): (m: int)
    requires |s| > 0
    ensures m in s
    ensures forall i :: 0 <= i < |s| ==> s[i] <= m
  {
    if |s| == 1 then s[0]
    else
      var m := Max(s[1..]);
      assert forall i :: 1 <= i < |s| ==> s[i] == s[1..][i - 1];
      if s[0] >= m then s[0] else m
  }

  function Sum(s: seq<real>): real
  {
    if s == [] then 0.0 else s[0] + Sum(s[1..])
  }

  function IntSum(s: seq<int>): int
  {
    if s == [] then 0 else s[0] + IntSum(s[1..])
  }

  lemma {:induction false} WithoutMembers<T>(s: seq<T>, d: set<T>, x: T)
    ensures x in Without(s, d) <==> x in s && x !in d
  {
    if s != [] {
      WithoutMembers(s[1..], d, x);
      assert s == [s[0]] + s[1..];
    }
  }

  lemma {:induction false} WithoutDistinct<T>(s: seq<T>, d: set<T>)
    requires Distinct(s)
    ensures Distinct(Without(s, d))
  {
    if s != [] {
      WithoutDistinct(s[1..], d);
      WithoutMembers(s[1..], d, s[0]);
      assert s[0] !in s[1..] by {
        forall k | 0 <= k < |s[1..]| ensures s[1..][k] != s[0] {
          assert s[1..][k] == s[k + 1];
        }
      }
    }
  }

  lemma {:induction false} WithoutTwice<T>(s: seq<T>, d: set<T>, e: set<T>)
    ensures Without(Without(s, d), e) == Without(s, d + e)
  {
    if s != [] {
      WithoutTwice(s[1..], d, e);
      var h := if s[0] in d then [] else [s[0]];
      assert Without(s, d) == h + Without(s[1..], d);
      WithoutConcat(h, Without(s[1..], d), e);
    }
  }

  lemma {:induction false} WithoutConcat<T>(a: seq<T>, b: seq<T>, d: set<T>)
    ensures Without(a + b, d) == Without(a, d) + Without(b, d)
  {
    if a != [] {
      WithoutConcat(a[1..], b, d);
      assert (a + b)[1..] == a[1..] + b;
    } else {
      assert a + b == b;
    }
  }

  lemma {:induction false} WithoutNone<T>(s: seq<T>, d: set<T>)
    requires forall k :: 0 <= k < |s| ==> s[k] !in d
    ensures Without(s, d) == s
  {
    if s != [] {
      WithoutNone(s[1..], d);
      assert s == [s[0]] + s[1..];
    }
  }

  /** On a sequence without repeats, removing the first occurrence is filtering. */
  lemma {:induction false} RemoveFirstIsWithout<T>(s: seq<T>, x: T)
    requires Distinct(s) && x in s
    ensures RemoveFirst(s, x) == Without(s, {x})
  {
    if s[0] == x {
      forall k | 0 <= k < |s[1..]| ensures s[1..][k] !in {x} {
        assert s[1..][k] == s[k + 1];
      }
      WithoutNone(s[1..], {x});
    } else {
      assert x in s[1..] by {
        var k :| 0 <= k < |s| && s[k] == x;
        assert s[1..][k - 1] == x;
      }
      RemoveFirstIsWithout(s[1..], x);
    }
  }

  lemma {:induction false} WithoutLength<T>(s: seq<T>, d: set<T>)
    ensures |Without(s, d)| == |s| - CountIn(s, d)
  {
    if s != [] {
      WithoutLength(s[1..], d);
    }
  }

  lemma {:induction false} CountInDistinct<T>(s: seq<T>, d: set<T>)
    requires Distinct(s)
    ensures CountIn(s, d) == |d * Elems(s)|
  {
    if s == [] {
      assert d * Elems(s) == {};
    } else {
      var x, t := s[0], s[1..];
      CountInDistinct(t, d);
      ElemsCons(s);
      var rest := d * Elems(t);
      if x in d {
        assert x !in rest;
        assert d * Elems(s) == rest + {x};
      } else {
        assert d * Elems(s) == rest;
      }
    }
  }

  /** The elements of a distinct non-empty sequence: its head, which does not
      occur again, and those of its tail. */
  lemma ElemsCons<T>(s: seq<T>)
    requires Distinct(s) && s != []
    ensures Elems(s) == {s[0]} + Elems(s[1..]) && s[0] !in Elems(s[1..])
  {
    assert s == [s[0]] + s[1..];
    forall k | 0 <= k < |s[1..]| ensures s[1..][k] != s[0] {
      assert s[1..][k] == s[k + 1];
    }
  }

  lemma {:induction false} ElemsBound<T>(s: seq<T>)
    ensures |Elems(s)| <= |s|
  {
    if s != [] {
      ElemsBound(s[..|s| - 1]);
      assert s == s[..|s| - 1] + [s[|s| - 1]];
      assert Elems(s) == Elems(s[..|s| - 1]) + {s[|s| - 1]};
    }
  }

  /** Filtering at most |k| distinct values out of a sequence without repeats
      removes at most |k| positions. */
  lemma WithoutLowerBound<T>(s: seq<T>, k: seq<T>)
    requires Distinct(s)
    ensures |Without(s, Elems(k))| >= |s| - |k|
  {
    WithoutLength(s, Elems(k));
    CountInDistinct(s, Elems(k));
    ElemsBound(k);
    SubsetSize(Elems(k) * Elems(s), Elems(k));
  }

  lemma {:induction false} SubsetSize<T>(a: set<T>, b: set<T>)
    requires a <= b
    ensures |a| <= |b|
    decreases b
  {
    if a != {} {
      var x :| x in a;
      SubsetSize(a - {x}, b - {x});
    }
  }

  lemma FlattenSnoc<T>(ss: seq<seq<T>>, s: seq<T>)
    ensures Flatten(ss + [s]) == Flatten(ss) + s
  {
    assert (ss + [s])[..|ss|] == ss;
  }

  /** Scaling every element of a sum. */
  lemma {:induction false} SumScaled(s: seq<real>, t: seq<real>, c: real)
    requires |s| == |t|
    requires forall i :: 0 <= i < |s| ==> t[i] == s[i] * c
    ensures Sum(t) == Sum(s) * c
  {
    if s != [] {
      SumScaled(s[1..], t[1..], c);
    }
  }

  /** Adding two vectors pointwise adds their sums. */
  lemma {:induction false} SumPointwise(s: seq<real>, t: seq<real>, u: seq<real>)
    requires |s| == |t| == |u|
    requires forall i :: 0 <= i < |s| ==> u[i] == s[i] + t[i]
    ensures Sum(u) == Sum(s) + Sum(t)
  {
    if s != [] {
      SumPointwise(s[1..], t[1..], u[1..]);
    }
  }

  lemma {:induction false} DistinctCount<T>(s: seq<T>, x: T)
    requires Distinct(s)
    ensures multiset(s)[x] <= 1
  {
    if s != [] {
      DistinctCount(s[1..], x);
      assert s == [s[0]] + s[1..];
      assert s[0] !in s[1..] by {
        forall k | 0 <= k < |s[1..]| ensures s[1..][k] != s[0] {
          assert s[1..][k] == s[k + 1];
        }
      }
    }
  }

  /** A repeated element occurs at least twice in the multiset. */
  lemma RepeatCount<T>(s: seq<T>, i: int, j: int)
    requires 0 <= i < j < |s| && s[i] == s[j]
    ensures multiset(s)[s[i]] >= 2
  {
    assert s == s[..j] + [s[j]] + s[j + 1..];
    assert s[..j][i] == s[i];
    assert s[i] in multiset(s[..j]);
  }

  /** Rearranging a sequence without repeats leaves it without repeats. */
  lemma PermutationDistinct<T>(a: seq<T>, b: seq<T>)
    requires multiset(a) == multiset(b) && Distinct(a)
    ensures Distinct(b)
  {
    forall i, j | 0 <= i < j < |b| ensures b[i] != b[j] {
      if b[i] == b[j] {
        RepeatCount(b, i, j);
        DistinctCount(a, b[i]);
      }
    }
  }

  /** The list of n zeros, `[0.0] * n`. */
  function Zeros(n: nat): (z: seq<real>)
    ensures |z| == n && forall i :: 0 <= i < n ==> z[i] == 0.0
  {
    seq(n, i => 0.0)
  }

  /** Pointwise sum of two vectors of the same length. */
  function Plus(a: seq<real>, b: seq<real>): (c: seq<real>)
    requires |a| == |b|
    ensures |c| == |a| && forall i :: 0 <= i < |a| ==> c[i] == a[i] + b[i]
  {
    seq(|a|, i requires 0 <= i < |a| => a[i] + b[i])
  }

  /** The length-n vector holding c at the positions listed in w, 0 elsewhere. */
  function Marked(n: nat, w: seq<nat>, c: real): (m: seq<real>)
    ensures |m| == n && forall i :: 0 <= i < n ==> m[i] == if i in w then c else 0.0
  {
    seq(n, i => if i in w then c else 0.0)
  }

  lemma {:induction false} SumZeros(n: nat)
    ensures Sum(Zeros(n)) == 0.0
  {
    if n > 0 {
      SumZeros(n - 1);
      assert Zeros(n)[1..] == Zeros(n - 1);
    }
  }

  /** Adding d to one entry adds d to the sum. */
  lemma {:induction false} SumUpdate(s: seq<real>, i: nat, d: real)
    requires i < |s|
    ensures Sum(s[i := s[i] + d]) == Sum(s) + d
  {
    var t := s[i := s[i] + d];
    if i == 0 {
      assert t[1..] == s[1..];
    } else {
      SumUpdate(s[1..], i - 1, d);
      assert t[1..] == s[1..][i - 1 := s[1..][i - 1] + d];
    }
  }

  /** c added k times. */
  function Copies(k: nat, c: real): real
  {
    if k == 0 then 0.0 else Copies(k - 1, c) + c
  }

  /** k equal shares of 1/k make up one whole. */
  lemma {:induction false} CopiesShare(k: nat)
    requires k > 0
    ensures Copies(k, 1.0 / k as real) == 1.0
  {
    CopiesScaled(k, 1.0 / k as real);
  }

  lemma {:induction false} CopiesScaled(k: nat, c: real)
    ensures Copies(k, c) == k as real * c
  {
    if k > 0 {
      CopiesScaled(k - 1, c);
    }
  }

  /** Marking k distinct positions with c gives a vector summing to k copies of c. */
  lemma {:induction false} SumMarked(n: nat, w: seq<nat>, c: real)
    requires Distinct(w) && forall k :: 0 <= k < |w| ==> w[k] < n
    ensures Sum(Marked(n, w, c)) == Copies(|w|, c)
  {
    if w == [] {
      assert Marked(n, w, c) == Zeros(n);
      SumZeros(n);
    } else {
      var front := w[..|w| - 1];
      MarkedSnoc(n, w, c);
      SumMarked(n, front, c);
      var m := Marked(n, front, c);
      SumUpdate(m, w[|w| - 1], c);
    }
  }

  /** Marking one more position adds c there. */
  lemma MarkedSnoc(n: nat, w: seq<nat>, c: real)
    requires |w| > 0 && Distinct(w) && forall k :: 0 <= k < |w| ==> w[k] < n
    ensures var front, x := w[..|w| - 1], w[|w| - 1];
      && Distinct(front) && (forall k :: 0 <= k < |front| ==> front[k] < n)
      && x < n && Marked(n, w, c) == Marked(n, front, c)[x := Marked(n, front, c)[x] + c]
  {
    var front, x := w[..|w| - 1], w[|w| - 1];
    assert x !in front by {
      forall k | 0 <= k < |front| ensures front[k] != x {
        assert front[k] == w[k];
      }
    }
    var m, m' := Marked(n, front, c), Marked(n, w, c);
    assert w == front + [x];
    forall i | 0 <= i < n ensures m'[i] == m[x := m[x] + c][i] {
      assert i in w <==> i in front || i == x;
    }
  }

  lemma {:induction false} IntSumUpdate(s: seq<int>, i: nat, d: int)
    requires i < |s|
    ensures IntSum(s[i := s[i] + d]) == IntSum(s) + d
  {
    var t := s[i := s[i] + d];
    if i == 0 {
      assert t[1..] == s[1..];
    } else {
      IntSumUpdate(s[1..], i - 1, d);
      assert t[1..] == s[1..][i - 1 := s[1..][i - 1] + d];
    }
  }

  /** Summing integers and summing their real values agree. */
  lemma {:induction false} SumOfInts(s: seq<int>, t: seq<real>)
    requires |s| == |t| && forall i :: 0 <= i < |s| ==> t[i] == s[i] as real
    ensures Sum(t) == IntSum(s) as real
  {
    if s != [] {
      SumOfInts(s[1..], t[1..]);
    }
  }

  /** A sequence without repeats whose entries are all the same has at most
      one entry. */
  lemma AllSame<T>(s: seq<T>, x: T)
    requires Distinct(s) && forall k :: 0 <= k < |s| ==> s[k] == x
    ensures |s| <= 1
  {
    if |s| > 1 {
      FirstTwoDiffer(s);
      assert false;
    }
  }

  lemma FirstTwoDiffer<T>(s: seq<T>)
    requires Distinct(s) && |s| > 1
    ensures s[0] != s[1]
  {
  }
  /** The elements of s at the positions listed in idx, in that order. */
  function Pick<T>(s: seq<T>, idx: seq<nat>): (r: seq<T>)
    requires forall k :: 0 <= k < |idx| ==> idx[k] < |s|
    ensures |r| == |idx| && forall k :: 0 <= k < |idx| ==> r[k] == s[idx[k]]
  {
    seq(|idx|, k requires 0 <= k < |idx| => s[idx[k]])
  }

  /** Distinct positions of a sequence without repeats hold distinct elements. */
  lemma PickDistinct<T>(s: seq<T>, idx: seq<nat>)
    requires forall k :: 0 <= k < |idx| ==> idx[k] < |s|
    requires Distinct(s) && Distinct(idx)
    ensures Distinct(Pick(s, idx))
  {
  }

  /** No element of a equals an element of b. */
  predicate Apart<T(==)>(a: seq<T>, b: seq<T>)
  {
    forall i, j :: 0 <= i < |a| && 0 <= j < |b| ==> a[i] != b[j]
  }

  /** Disjoint position lists of a sequence without repeats pick disjoint elements. */
  lemma PickApart<T>(s: seq<T>, a: seq<nat>, b: seq<nat>, x: T)
    requires (forall k :: 0 <= k < |a| ==> a[k] < |s|) && (forall k :: 0 <= k < |b| ==> b[k] < |s|)
    requires Distinct(s) && Apart(a, b)
    ensures !(x in Pick(s, a) && x in Pick(s, b))
  {
    forall i, j | 0 <= i < |a| && 0 <= j < |b| ensures Pick(s, a)[i] != Pick(s, b)[j] {
    }
  }
  /** A sequence without repeats has as many elements as positions. */
  lemma {:induction false} DistinctElemsCard<T>(s: seq<T>)
    requires Distinct(s)
    ensures |Elems(s)| == |s|
  {
    if s != [] {
      var front := s[..|s| - 1];
      DistinctElemsCard(front);
      assert Elems(s) == Elems(front) + {s[|s| - 1]};
      assert s[|s| - 1] !in Elems(front);
    }
  }
}
