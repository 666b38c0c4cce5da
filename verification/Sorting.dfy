/**
 Sorted selections: what `sort.Slice` followed by a cut, and `ORDER BY … LIMIT …`, both promise.
 Neither fixes the order of rows that tie, so an answer is any arrangement that respects the order.
 */
module Sorting {

  ghost predicate StrictWeakOrder<T(!new)>(less: (T, T) -> bool) {
    && (forall a :: !less(a, a))
    && (forall a, b, c :: less(a, b) && less(b, c) ==> less(a, c))
    && (forall a, b, c :: less(a, c) ==> less(a, b) || less(b, c))
  }

  predicate Tied<T>(less: (T, T) -> bool, a: T, b: T) { !less(a, b) && !less(b, a) }

  ghost predicate Sorted<T>(less: (T, T) -> bool, s: seq<T>) {
    forall i, j :: 0 <= i < j < |s| ==> !less(s[j], s[i])
  }

  ghost predicate Distinct<T>(s: seq<T>) {
    forall i, j :: 0 <= i < j < |s| ==> s[i] != s[j]
  }

  /** `s` lists every row once, in order. */
  ghost predicate Arranges<T(!new)>(less: (T, T) -> bool, s: seq<T>, rows: set<T>) {
    Distinct(s) && Sorted(less, s) && forall r :: r in s <==> r in rows
  }

  function Cut<T>(s: seq<T>, limit: int): seq<T> {
    if limit > 0 && |s| > limit then s[..limit] else s
  }

  /** `out` is what sorting `rows` and keeping the first `limit` can return. */
  ghost predicate Answers<T(!new)>(less: (T, T) -> bool, out: seq<T>, rows: set<T>, limit: int) {
    exists s :: Arranges(less, s, rows) && out == Cut(s, limit)
  }

  function Elements<T>(s: seq<T>): set<T> { set x | x in s }

  lemma {:induction false} DistinctCount<T>(s: seq<T>)
    requires Distinct(s)
    ensures |Elements(s)| == |s|
    decreases s
  {
    if s != [] {
      var front, last := s[..|s| - 1], s[|s| - 1];
      DistinctCount(front);
      assert Elements(s) == Elements(front) + {last};
    }
  }

  lemma SubsetCount<T>(a: set<T>, b: set<T>)
    requires a <= b
    ensures |a| <= |b|
  {
    assert b == a + (b - a);
  }

  /** Position by position, an arrangement is never ahead of another one. */
  lemma NeverAhead<T(!new)>(less: (T, T) -> bool, s: seq<T>, t: seq<T>, rows: set<T>, i: nat)
    requires StrictWeakOrder(less) && Arranges(less, s, rows) && Arranges(less, t, rows) && i < |s| && i < |t|
    ensures !less(s[i], t[i])
  {
    if less(s[i], t[i]) {
      var below := set r | r in rows && less(r, t[i]);
      var ahead, behind := s[..i + 1], t[..i];
      forall x | x in Elements(ahead)
        ensures x in below
      {
        var k :| 0 <= k <= i && ahead[k] == x;
        assert less(s[k], s[i]) || !less(s[i], s[k]);
        assert less(s[k], t[i]);
      }
      forall x | x in below
        ensures x in Elements(behind)
      {
        var k :| 0 <= k < |t| && t[k] == x;
        assert k < i;
        assert behind[k] == x;
      }
      DistinctCount(ahead);
      DistinctCount(behind);
      SubsetCount(Elements(ahead), below);
      SubsetCount(below, Elements(behind));
    }
  }

  lemma SameLength<T(!new)>(less: (T, T) -> bool, s: seq<T>, t: seq<T>, rows: set<T>)
    requires Arranges(less, s, rows) && Arranges(less, t, rows)
    ensures |s| == |t| == |rows|
  {
    DistinctCount(s);
    DistinctCount(t);
    assert Elements(s) == rows && Elements(t) == rows;
  }

  lemma ArrangementsTie<T(!new)>(less: (T, T) -> bool, s: seq<T>, t: seq<T>, rows: set<T>, i: nat)
    requires StrictWeakOrder(less) && Arranges(less, s, rows) && Arranges(less, t, rows) && i < |rows|
    ensures |s| == |t| == |rows| && Tied(less, s[i], t[i])
  {
    SameLength(less, s, t, rows);
    NeverAhead(less, s, t, rows, i);
    NeverAhead(less, t, s, rows, i);
  }

  lemma KeptPrecedeDropped<T(!new)>(less: (T, T) -> bool, s: seq<T>, n: nat, r: T, x: T)
    requires Sorted(less, s) && n <= |s| && r in s && r !in s[..n] && x in s[..n]
    ensures !less(r, x)
  {
    var k :| 0 <= k < |s| && s[k] == r;
    var j :| 0 <= j < n && s[..n][j] == x;
    assert forall i :: 0 <= i < n ==> s[..n][i] == s[i];
    assert forall i :: 0 <= i < n ==> s[i] in s[..n];
  }

  lemma SwappedRowsTie<T(!new)>(less: (T, T) -> bool, s: seq<T>, t: seq<T>, rows: set<T>, n: nat, r: T)
    requires StrictWeakOrder(less) && Arranges(less, s, rows) && Arranges(less, t, rows)
    requires 0 < n <= |s| == |t| == |rows| && r in s[..n] && r !in t[..n]
    ensures Tied(less, r, s[n - 1])
  {
    ArrangementsTie(less, s, t, rows, n - 1);
    var j :| 0 <= j < n && s[..n][j] == r;
    assert s[j] == r && r in rows;
    assert j < n - 1 ==> !less(s[n - 1], s[j]);
    assert t[n - 1] == t[..n][n - 1];
    KeptPrecedeDropped(less, t, n, r, t[n - 1]);
  }

  /**
   Two answers to the same question have the same length, tie at every position, and differ only in
   rows that tie with the last one returned; what is left out never strictly precedes what is kept.
   */
  lemma AnswersAgree<T(!new)>(less: (T, T) -> bool, out: seq<T>, out': seq<T>, rows: set<T>, limit: int)
    requires StrictWeakOrder(less) && Answers(less, out, rows, limit) && Answers(less, out', rows, limit)
    ensures |out| == |out'| == (if 0 < limit < |rows| then limit else |rows|)
    ensures forall i :: 0 <= i < |out| ==> Tied(less, out[i], out'[i])
    ensures forall r :: r in out && r !in out' ==> Tied(less, r, out[|out| - 1])
    ensures forall r, x :: r in rows && r !in out && x in out ==> !less(r, x)
  {
    var s :| Arranges(less, s, rows) && out == Cut(s, limit);
    var t :| Arranges(less, t, rows) && out' == Cut(t, limit);
    SameLength(less, s, t, rows);
    var n := |out|;
    assert out == s[..n] && out' == t[..n];
    forall i | 0 <= i < n
      ensures Tied(less, out[i], out'[i])
    {
      ArrangementsTie(less, s, t, rows, i);
    }
    forall r, x | r in rows && r !in out && x in out
      ensures !less(r, x)
    {
      KeptPrecedeDropped(less, s, n, r, x);
    }
    forall r | r in out && r !in out'
      ensures Tied(less, r, out[n - 1])
    {
      SwappedRowsTie(less, s, t, rows, n, r);
    }
  }

  /** When no two rows tie there is only one answer. */
  lemma UntiedAnswersEqual<T(!new)>(less: (T, T) -> bool, out: seq<T>, out': seq<T>, rows: set<T>, limit: int)
    requires StrictWeakOrder(less) && Answers(less, out, rows, limit) && Answers(less, out', rows, limit)
    requires forall a, b :: a in rows && b in rows && a != b ==> less(a, b) || less(b, a)
    ensures out == out'
  {
    AnswersAgree(less, out, out', rows, limit);
    forall i | 0 <= i < |out|
      ensures out[i] == out'[i]
    {
      assert out[i] in rows && out'[i] in rows;
      assert Tied(less, out[i], out'[i]);
    }
  }

  /** Stands for `sort.Slice`: some sorted rearrangement. */
  method SortSlice<T(!new)>(s: seq<T>, less: (T, T) -> bool) returns (r: seq<T>)
    requires StrictWeakOrder(less) && Distinct(s)
    ensures Arranges(less, r, Elements(s))
  {
    r := [];
    for n := 0 to |s|
      invariant Arranges(less, r, Elements(s[..n]))
    {
      assert s[n] !in s[..n];
      r := Insert(r, s[n], less);
      assert Elements(s[..n + 1]) == Elements(s[..n]) + {s[n]};
    }
    assert s[..|s|] == s;
  }

  method Insert<T(!new)>(s: seq<T>, x: T, less: (T, T) -> bool) returns (r: seq<T>)
    requires StrictWeakOrder(less) && Arranges(less, s, Elements(s)) && x !in s
    ensures Arranges(less, r, Elements(s) + {x})
  {
    var k := |s|;
    while k > 0 && less(x, s[k - 1])
      invariant 0 <= k <= |s|
      invariant forall j :: k <= j < |s| ==> less(x, s[j])
    {
      k := k - 1;
    }
    r := s[..k] + [x] + s[k..];
    forall y
      ensures y in r <==> y in Elements(s) + {x}
    {
      assert y in r <==> y in s[..k] || y == x || y in s[k..];
      assert y in s <==> y in s[..k] || y in s[k..] by { assert s == s[..k] + s[k..]; }
    }
    forall i, j | 0 <= i < j < |r|
      ensures !less(r[j], r[i]) && r[i] != r[j]
    {
      if i < k == j {
        assert !less(s[k - 1], s[i]) || i == k - 1;
      }
    }
  }
}
