/** Sequence arithmetic on idealised reals that the filter, the trace and the fitter share:
    Python's `sum`, `np.diff`, `np.max` and `np.median`. */
module SeqMath {

  function Abs(x: real): (r: real)
    ensures r >= 0.0 && (r == x || r == -x)
  {
    if x < 0.0 then -x else x
  }

  /** Python's `sum` over a list of floats. */
  function Sum(s: seq<real>): real
  {
    if s == [] then 0.0 else s[0] + Sum(s[1..])
  }

  lemma {:induction false} SumAppend(s: seq<real>, x: real)
    ensures Sum(s + [x]) == Sum(s) + x
  {
    if s != [] {
      assert (s + [x])[1..] == s[1..] + [x];
      SumAppend(s[1..], x);
    }
  }

  lemma {:induction false} SumNonNegative(s: seq<real>)
    requires forall i :: 0 <= i < |s| ==> s[i] >= 0.0
    ensures Sum(s) >= 0.0
  {
    if s != [] {
      SumNonNegative(s[1..]);
    }
  }

  /** A sum of non-negative terms vanishes exactly when every term does. */
  lemma {:induction false} SumZeroIff(s: seq<real>)
    requires forall i :: 0 <= i < |s| ==> s[i] >= 0.0
    ensures Sum(s) == 0.0 <==> forall i :: 0 <= i < |s| ==> s[i] == 0.0
  {
    if s != [] {
      SumZeroIff(s[1..]);
      SumNonNegative(s[1..]);
      assert forall i :: 1 <= i < |s| ==> s[i] == s[1..][i - 1];
    }
  }

  /** A non-empty sum of terms that all exceed `t` exceeds `t` times the number of terms. */
  lemma {:induction false} SumAbove(s: seq<real>, t: real)
    requires |s| > 0
    requires forall i :: 0 <= i < |s| ==> s[i] > t
    ensures Sum(s) > |s| as real * t
  {
    if |s| > 1 {
      SumAbove(s[1..], t);
    }
  }

  /** A constant sequence sums to its length times the constant. */
  lemma {:induction false} SumConstant(s: seq<real>, c: real)
    requires forall i :: 0 <= i < |s| ==> s[i] == c
    ensures Sum(s) == |s| as real * c
  {
    if s != [] {
      SumConstant(s[1..], c);
    }
  }

  /** `np.diff`: the first difference, one element shorter than a non-empty input. */
  function Diff(s: seq<real>): seq<real>
  {
    if |s| <= 1 then [] else seq(|s| - 1, i requires 0 <= i < |s| - 1 => s[i + 1] - s[i])
  }

  /** Summing the first difference telescopes: `Diff` loses nothing but the starting value. */
  lemma {:induction false} DiffTelescopes(s: seq<real>, i: nat, j: nat)
    requires i <= j < |s|
    ensures |Diff(s)| == |s| - 1
    ensures s[j] - s[i] == Sum(Diff(s)[i..j])
    decreases j
  {
    var d := Diff(s);
    if j > i {
      DiffTelescopes(s, i, j - 1);
      assert d[j - 1] == s[j] - s[j - 1];
      assert d[i..j] == d[i..j - 1] + [d[j - 1]];
      SumAppend(d[i..j - 1], d[j - 1]);
    }
  }

  /** `np.max` of a non-empty sequence. */
  function Max(s: seq<real>): (m: real)
    requires |s| > 0
    ensures exists i :: 0 <= i < |s| && s[i] == m
    ensures forall i :: 0 <= i < |s| ==> s[i] <= m
  {
    if |s| == 1 then s[0]
    else
      var rest := Max(s[1..]);
      assert forall i :: 1 <= i < |s| ==> s[i] == s[1..][i - 1];
      if s[0] >= rest then s[0] else rest
  }

  predicate SortedAsc(s: seq<real>)
  {
    forall i, j :: 0 <= i < j < |s| ==> s[i] <= s[j]
  }

  /** A sequence of indices in strictly increasing order. */
  predicate Increasing(idx: seq<nat>)
  {
    forall a, b :: 0 <= a < b < |idx| ==> idx[a] < idx[b]
  }

  /** Insertion into an ascending sequence. */
  function Insert(x: real, s: seq<real>): (r: seq<real>)
    ensures |r| == |s| + 1
    ensures forall k :: 0 <= k < |r| ==> r[k] == x || r[k] in s
    ensures multiset(r) == multiset(s) + multiset{x}
    ensures SortedAsc(s) ==> SortedAsc(r)
  {
    if s == [] || x <= s[0] then [x] + s
    else
      var tail := Insert(x, s[1..]);
      assert s == [s[0]] + s[1..];
      InsertKeepsOrder(s[0], x, s[1..], tail);
      [s[0]] + tail
  }

  lemma InsertKeepsOrder(head: real, x: real, rest: seq<real>, tail: seq<real>)
    requires head < x
    requires forall k :: 0 <= k < |tail| ==> tail[k] == x || tail[k] in rest
    requires SortedAsc([head] + rest) ==> SortedAsc(tail)
    ensures SortedAsc([head] + rest) ==> SortedAsc([head] + tail)
  {
    if SortedAsc([head] + rest) {
      forall k | 0 <= k < |tail|
        ensures head <= tail[k]
      {
        if tail[k] != x {
          var j :| 0 <= j < |rest| && rest[j] == tail[k];
          assert ([head] + rest)[0] <= ([head] + rest)[j + 1];
        }
      }
    }
  }

  /** The ascending rearrangement `np.median` works from. */
  function SortAsc(s: seq<real>): (r: seq<real>)
    ensures multiset(r) == multiset(s)
    ensures SortedAsc(r)
  {
    if s == [] then []
    else
      assert s == [s[0]] + s[1..];
      Insert(s[0], SortAsc(s[1..]))
  }

  /** `np.median`: the middle element of the sorted sequence, or the mean of the two middle ones. */
  function Median(s: seq<real>): real
    requires |s| > 0
  {
    var t := SortAsc(s);
    assert |t| == |multiset(t)| == |s|;
    var n := |t|;
    if n % 2 == 1 then t[n / 2] else (t[n / 2 - 1] + t[n / 2]) / 2.0
  }

  /** A strict lower bound that holds for every element holds for every sorted element. */
  lemma SortedAbove(s: seq<real>, lo: real)
    requires forall i :: 0 <= i < |s| ==> lo < s[i]
    ensures forall k :: 0 <= k < |SortAsc(s)| ==> lo < SortAsc(s)[k]
  {
    var t := SortAsc(s);
    forall k | 0 <= k < |t|
      ensures lo < t[k]
    {
      assert t[k] in multiset(t);
      assert t[k] in multiset(s);
      var i :| 0 <= i < |s| && s[i] == t[k];
    }
  }

  /** The median exceeds a threshold that every element exceeds. */
  lemma MedianAbove(s: seq<real>, t: real)
    requires |s| > 0
    requires forall i :: 0 <= i < |s| ==> s[i] > t
    ensures Median(s) > t
  {
    SortedAbove(s, t);
    assert |SortAsc(s)| == |multiset(SortAsc(s))| == |s|;
  }

  /** An upper bound that holds for every element holds for every sorted element. */
  lemma SortedAtMost(s: seq<real>, hi: real)
    requires forall i :: 0 <= i < |s| ==> s[i] <= hi
    ensures forall k :: 0 <= k < |SortAsc(s)| ==> SortAsc(s)[k] <= hi
  {
    var t := SortAsc(s);
    forall k | 0 <= k < |t|
      ensures t[k] <= hi
    {
      assert t[k] in multiset(t);
      assert t[k] in multiset(s);
      var i :| 0 <= i < |s| && s[i] == t[k];
    }
  }

  /** The median stays at or below a threshold that no element exceeds. */
  lemma MedianAtMost(s: seq<real>, t: real)
    requires |s| > 0
    requires forall i :: 0 <= i < |s| ==> s[i] <= t
    ensures Median(s) <= t
  {
    SortedAtMost(s, t);
    assert |SortAsc(s)| == |multiset(SortAsc(s))| == |s|;
  }
}
