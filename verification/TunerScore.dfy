/** The score of one window of frame times (worker_tuner.h, up_tuner_score): running mean
    and order statistics out of an in-place insertion sort. Times are reals: rounding is
    not part of this model. */
module TunerScore {

  datatype Score = Score(mean: real, p95: real, p99: real)

  function Sum(s: seq<real>): real {
    if s == [] then 0.0 else Sum(s[..|s| - 1]) + s[|s| - 1]
  }

  ghost predicate Sorted(s: seq<real>) {
    forall i, j | 0 <= i < j < |s| :: s[i] <= s[j]
  }

  /** Insert v behind everything that is not greater. */
  function Insert(s: seq<real>, v: real): (r: seq<real>)
    ensures |r| == |s| + 1
  {
    if s == [] || s[|s| - 1] <= v then s + [v] else Insert(s[..|s| - 1], v) + [s[|s| - 1]]
  }

  function Arranged(s: seq<real>): (r: seq<real>)
    ensures |r| == |s|
  {
    if s == [] then [] else Insert(Arranged(s[..|s| - 1]), s[|s| - 1])
  }

  /** The window's score, said without an algorithm: arithmetic mean, and the samples that
      at most one in 20 and one in 100 exceed. */
  function ScoreOf(s: seq<real>): Score
    requires 0 < |s|
  {
    var r, n := Arranged(s), |s|;
    Score(Sum(s) / n as real, r[n - n / 20 - 1], r[n - n / 100 - 1])
  }

  lemma {:induction false} InsertPermutes(s: seq<real>, v: real)
    ensures multiset(Insert(s, v)) == multiset(s) + multiset{v}
  {
    if s != [] && s[|s| - 1] > v {
      InsertPermutes(s[..|s| - 1], v);
      assert s == s[..|s| - 1] + [s[|s| - 1]];
    }
  }

  lemma {:induction false} InsertBelow(s: seq<real>, v: real, top: real)
    requires v <= top && forall i | 0 <= i < |s| :: s[i] <= top
    ensures forall i | 0 <= i <= |s| :: Insert(s, v)[i] <= top
  {
    if s != [] && s[|s| - 1] > v {
      InsertBelow(s[..|s| - 1], v, top);
    }
  }

  lemma {:induction false} InsertSorts(s: seq<real>, v: real)
    requires Sorted(s)
    ensures Sorted(Insert(s, v))
  {
    if s != [] && s[|s| - 1] > v {
      var n := |s| - 1;
      InsertSorts(s[..n], v);
      InsertBelow(s[..n], v, s[n]);
    }
  }

  /** Arranged is the sorted permutation. */
  lemma {:induction false} ArrangedIsSorted(s: seq<real>)
    ensures Sorted(Arranged(s)) && multiset(Arranged(s)) == multiset(s)
  {
    if s != [] {
      var n := |s| - 1;
      ArrangedIsSorted(s[..n]);
      InsertSorts(Arranged(s[..n]), s[n]);
      InsertPermutes(Arranged(s[..n]), s[n]);
      assert s == s[..n] + [s[n]];
    }
  }

  lemma WithoutLast(a: seq<real>)
    requires a != []
    ensures multiset(a[..|a| - 1]) == multiset(a) - multiset{a[|a| - 1]}
  {
    assert a == a[..|a| - 1] + [a[|a| - 1]];
  }

  /** There is only one sorted permutation. */
  lemma {:induction false} SortedIsUnique(a: seq<real>, b: seq<real>)
    requires Sorted(a) && Sorted(b) && multiset(a) == multiset(b)
    ensures a == b
  {
    assert |a| == |multiset(a)| == |b|;
    if a != [] {
      var n := |a| - 1;
      LastIsMax(a, b);
      LastIsMax(b, a);
      WithoutLast(a);
      WithoutLast(b);
      SortedIsUnique(a[..n], b[..n]);
      assert a == a[..n] + [a[n]] && b == b[..n] + [b[n]];
    }
  }

  lemma LastIsMax(a: seq<real>, b: seq<real>)
    requires Sorted(b) && a != [] && multiset(a) == multiset(b) && |a| == |b|
    ensures a[|a| - 1] <= b[|b| - 1]
  {
    assert a[|a| - 1] in multiset(b);
  }

  lemma {:induction false} SumRemove(s: seq<real>, i: nat)
    requires i < |s|
    ensures Sum(s) == Sum(s[..i] + s[i + 1..]) + s[i]
  {
    var n := |s| - 1;
    if i < n {
      SumRemove(s[..n], i);
      assert (s[..i] + s[i + 1..])[..n - 1] == s[..n][..i] + s[..n][i + 1..];
    } else {
      assert s[..i] + s[i + 1..] == s[..n];
    }
  }

  lemma {:induction false} SumOfMultiset(a: seq<real>, b: seq<real>)
    requires multiset(a) == multiset(b)
    ensures Sum(a) == Sum(b)
  {
    assert |a| == |multiset(a)| == |b|;
    if a != [] {
      var n := |a| - 1;
      assert a[n] in multiset(b);
      var i :| 0 <= i < |b| && b[i] == a[n];
      assert a == a[..n] + [a[n]];
      assert b == b[..i] + [b[i]] + b[i + 1..];
      assert multiset(a[..n]) == multiset(a) - multiset{a[n]};
      assert multiset(b[..i] + b[i + 1..]) == multiset(b) - multiset{b[i]};
      SumOfMultiset(a[..n], b[..i] + b[i + 1..]);
      SumRemove(b, i);
    }
  }

  /** The order in which the samples are stored does not matter. */
  lemma ScoreIgnoresOrder(a: seq<real>, b: seq<real>)
    requires 0 < |a| && multiset(a) == multiset(b)
    ensures |a| == |b| && ScoreOf(a) == ScoreOf(b)
  {
    assert |a| == |multiset(a)| == |b|;
    SumOfMultiset(a, b);
    ArrangedIsSorted(a);
    ArrangedIsSorted(b);
    SortedIsUnique(Arranged(a), Arranged(b));
  }

  // ------------------------------------------------------------- what the tail means

  /** How many samples exceed v, and how many reach it. */
  function Above(s: seq<real>, v: real): nat {
    if s == [] then 0 else Above(s[..|s| - 1], v) + if s[|s| - 1] > v then 1 else 0
  }

  function Reaching(s: seq<real>, v: real): nat {
    if s == [] then 0 else Reaching(s[..|s| - 1], v) + if s[|s| - 1] >= v then 1 else 0
  }

  lemma AboveAppend(s: seq<real>, x: real, v: real)
    ensures Above(s + [x], v) == Above(s, v) + if x > v then 1 else 0
    ensures Reaching(s + [x], v) == Reaching(s, v) + if x >= v then 1 else 0
  {
    assert (s + [x])[..|s|] == s;
  }

  lemma {:induction false} InsertCounts(s: seq<real>, x: real, v: real)
    ensures Above(Insert(s, x), v) == Above(s, v) + if x > v then 1 else 0
    ensures Reaching(Insert(s, x), v) == Reaching(s, v) + if x >= v then 1 else 0
  {
    if s == [] || s[|s| - 1] <= x {
      AboveAppend(s, x, v);
    } else {
      InsertCounts(s[..|s| - 1], x, v);
      AboveAppend(Insert(s[..|s| - 1], x), s[|s| - 1], v);
    }
  }

  lemma {:induction false} ArrangedCounts(s: seq<real>, v: real)
    ensures Above(Arranged(s), v) == Above(s, v) && Reaching(Arranged(s), v) == Reaching(s, v)
  {
    if s != [] {
      ArrangedCounts(s[..|s| - 1], v);
      InsertCounts(Arranged(s[..|s| - 1]), s[|s| - 1], v);
    }
  }

  lemma {:induction false} SortedCounts(r: seq<real>, k: nat, n: nat)
    requires Sorted(r) && k < |r| && n <= |r|
    ensures Above(r[..n], r[k]) <= if n > k + 1 then n - k - 1 else 0
    ensures Reaching(r[..n], r[k]) >= if n > k then n - k else 0
  {
    if n > 0 {
      SortedCounts(r, k, n - 1);
      assert r[..n][..n - 1] == r[..n - 1];
    }
  }

  /** v is the sample that at most m others exceed and that is not the least of m + 1: the
      largest but m. */
  predicate LargestBut(s: seq<real>, m: nat, v: real) {
    v in s && Above(s, v) <= m < Reaching(s, v)
  }

  /** The two order statistics: at most one sample in 20 exceeds p95, at most one in 100
      exceeds p99, and both are the smallest samples of which that is true. */
  lemma TailMeans(s: seq<real>)
    requires 0 < |s|
    ensures LargestBut(s, |s| / 20, ScoreOf(s).p95) && LargestBut(s, |s| / 100, ScoreOf(s).p99)
  {
    TailAt(s, |s| / 20);
    TailAt(s, |s| / 100);
  }

  lemma SameMember(a: seq<real>, b: seq<real>, k: nat)
    requires k < |a| && multiset(a) == multiset(b)
    ensures a[k] in b
  {
    assert a[k] in multiset(b);
  }

  lemma TailAt(s: seq<real>, m: nat)
    requires m < |s|
    ensures LargestBut(s, m, Arranged(s)[|s| - m - 1])
  {
    var r, k := Arranged(s), |s| - m - 1;
    ArrangedIsSorted(s);
    SameMember(r, s, k);
    ArrangedCounts(s, r[k]);
    SortedTail(r, k);
  }

  lemma SortedTail(r: seq<real>, k: nat)
    requires Sorted(r) && k < |r|
    ensures Above(r, r[k]) <= |r| - k - 1 && Reaching(r, r[k]) >= |r| - k
  {
    SortedCounts(r, k, |r|);
    assert r[..|r|] == r;
  }

  /** The mean lies between the smallest and the largest sample, so positive samples have
      a positive mean. */
  lemma {:induction false} SumPositive(s: seq<real>)
    requires forall i | 0 <= i < |s| :: s[i] > 0.0
    ensures s != [] ==> Sum(s) > 0.0
  {
    if |s| > 1 {
      SumPositive(s[..|s| - 1]);
    } else if |s| == 1 {
      assert Sum(s[..0]) == 0.0;
    }
  }

  lemma PositiveMean(s: seq<real>)
    requires 0 < |s| && forall i | 0 <= i < |s| :: s[i] > 0.0
    ensures ScoreOf(s).mean > 0.0
  {
    SumPositive(s);
    QuotientPositive(Sum(s), |s| as real);
  }

  lemma QuotientPositive(a: real, n: real)
    requires a > 0.0 && n > 0.0
    ensures a / n > 0.0
  {
  }

  /** mean + (value - mean) / k is the mean of k values if mean was that of k - 1. */
  lemma MeanStep(mean: real, value: real, k: real, sum: real)
    requires k != 0.0 && mean * (k - 1.0) == sum
    ensures (mean + (value - mean) / k) * k == sum + value
  {
    var d := (value - mean) / k;
    assert d * k == value - mean;
    assert (mean + d) * k == mean * k + d * k;
    assert mean * k == mean * (k - 1.0) + mean;
  }

  /** Everything greater than the value moves up by one. */
  method Shift(values: array<real>, i: nat, value: real) returns (j: nat)
    requires i < values.Length
    modifies values
    ensures j <= i && (j > 0 ==> values[j - 1] <= value)
    ensures forall k | 0 <= k < j || i < k < values.Length :: values[k] == old(values[k])
    ensures forall k | j <= k < i :: values[k + 1] == old(values[k]) && old(values[k]) > value
  {
    j := i;
    while j > 0 && values[j - 1] > value
      invariant j <= i
      invariant forall k | 0 <= k < j || i < k < values.Length :: values[k] == old(values[k])
      invariant forall k | j <= k < i :: values[k + 1] == old(values[k]) && old(values[k]) > value
    {
      values[j] := values[j - 1];
      j := j - 1;
    }
  }

  /** The hole goes where Insert puts the value. */
  lemma {:induction false} InsertAt(s: seq<real>, v: real, j: nat)
    requires j <= |s| && (forall k | j <= k < |s| :: s[k] > v) && (j > 0 ==> s[j - 1] <= v)
    ensures Insert(s, v) == s[..j] + [v] + s[j..]
  {
    var n := |s| - 1;
    if j < |s| {
      InsertAt(s[..n], v, j);
      assert s[..n][..j] == s[..j] && s[..n][j..] + [s[n]] == s[j..];
    } else {
      assert s[..j] == s && s[j..] == [];
    }
  }

  ghost predicate IsMean(mean: real, n: nat, s: seq<real>) {
    mean * n as real == Sum(s)
  }

  lemma MeanIs(mean: real, s: seq<real>)
    requires 0 < |s| && IsMean(mean, |s|, s)
    ensures mean == Sum(s) / |s| as real
  {
  }

  lemma NextMean(mean: real, s: seq<real>, value: real)
    requires 0 < |s| && IsMean(mean, |s|, s)
    ensures IsMean(mean + (value - mean) / (|s| as real + 1.0), |s| + 1, s + [value])
  {
    MeanStep(mean, value, |s| as real + 1.0, Sum(s));
    assert (s + [value])[..|s|] == s;
  }

  lemma ArrangedStep(s: seq<real>, v: real)
    ensures Arranged(s + [v]) == Insert(Arranged(s), v)
  {
    assert (s + [v])[..|s|] == s;
  }

  lemma FirstValue(v: real)
    ensures Arranged([v]) == [v] && IsMean(v, 1, [v])
  {
    ArrangedStep([], v);
    assert [] + [v] == [v];
    assert Sum([v][..0]) == 0.0;
  }

  lemma Placed(before: seq<real>, v: real, j: nat, after: seq<real>)
    requires j <= |before| && |after| == |before| + 1 && (j > 0 ==> before[j - 1] <= v) && after[j] == v
    requires forall k | 0 <= k < j :: after[k] == before[k]
    requires forall k | j <= k < |before| :: after[k + 1] == before[k] && before[k] > v
    ensures after == Insert(before, v)
  {
    InsertAt(before, v, j);
    assert after == before[..j] + [v] + before[j..];
  }

  /** One round of the sort: the value at i joins the prefix. */
  method PutInPlace(values: array<real>, i: nat, value: real)
    requires i < values.Length
    modifies values
    ensures values[..i + 1] == Insert(old(values[..i]), value)
    ensures forall k | i < k < values.Length :: values[k] == old(values[k])
  {
    ghost var before := values[..i];
    var j := Shift(values, i, value);
    values[j] := value;
    Placed(before, value, j, values[..i + 1]);
  }

  /** One round of the loop. */
  method AddValue(values: array<real>, i: nat, mean: real, ghost was: seq<real>) returns (mean': real)
    requires 0 < i < values.Length == |was| && values[..i] == Arranged(was[..i]) && IsMean(mean, i, was[..i])
    requires forall k | i <= k < values.Length :: values[k] == was[k]
    modifies values
    ensures values[..i + 1] == Arranged(was[..i + 1]) && IsMean(mean', i + 1, was[..i + 1])
    ensures forall k | i < k < values.Length :: values[k] == was[k]
  {
    var value := values[i];
    assert was[..i + 1] == was[..i] + [value];
    mean' := mean + (value - mean) / (i as real + 1.0);
    NextMean(mean, was[..i], value);
    PutInPlace(values, i, value);
    ArrangedStep(was[..i], value);
  }

  /** up_tuner_score: sorts the first count values in place and returns their score. */
  method ComputeScore(values: array<real>, count: nat) returns (score: Score)
    requires 0 < count <= values.Length
    modifies values
    ensures score == ScoreOf(old(values[..count]))
    ensures values[..count] == Arranged(old(values[..count]))
    ensures forall k | count <= k < values.Length :: values[k] == old(values[k])
  {
    ghost var was := values[..];
    var mean := values[0];
    FirstValue(mean);
    assert values[..1] == was[..1] == [mean];
    var i := 1;
    while i < count
      invariant 1 <= i <= count
      invariant values[..i] == Arranged(was[..i]) && IsMean(mean, i, was[..i])
      invariant forall k | i <= k < values.Length :: values[k] == was[k]
    {
      mean := AddValue(values, i, mean, was);
      i := i + 1;
    }
    assert was[..count] == old(values[..count]);
    MeanIs(mean, was[..count]);
    score := Score(mean, values[count - count / 20 - 1], values[count - count / 100 - 1]);
    assert forall k | 0 <= k < count :: values[k] == values[..count][k];
  }
}
