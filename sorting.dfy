// `Array.prototype.sort` with a comparator, as a stable insertion sort over a
// sequence, and the sums the summaries keep across a sort.

module Sorting {

  ghost predicate TotalPreorder<T(!new)>(le: (T, T) -> bool)
  {
    (forall a, b :: le(a, b) || le(b, a)) &&
    (forall a, b, c :: le(a, b) && le(b, c) ==> le(a, c))
  }

  predicate SortedBy<T>(s: seq<T>, le: (T, T) -> bool)
  {
    forall i, j :: 0 <= i < j < |s| ==> le(s[i], s[j])
  }

  /** Puts `x` in front of the first element it does not follow. */
  function Insert<T>(x: T, s: seq<T>, le: (T, T) -> bool): (r: seq<T>)
    ensures |r| == |s| + 1
    ensures multiset(r) == multiset(s) + multiset{x}
  {
    if s == [] then [x]
    else if le(x, s[0]) then [x] + s
    else
      assert s == [s[0]] + s[1..];
      [s[0]] + Insert(x, s[1..], le)
  }

  /** The sorted copy of `s`; elements that compare equal keep their order. */
  function SortBy<T>(s: seq<T>, le: (T, T) -> bool): (r: seq<T>)
    ensures |r| == |s|
    ensures multiset(r) == multiset(s)
  {
    if s == [] then []
    else
      assert s == [s[0]] + s[1..];
      Insert(s[0], SortBy(s[1..], le), le)
  }

  lemma {:induction false} InsertSorted<T(!new)>(x: T, s: seq<T>, le: (T, T) -> bool)
    requires TotalPreorder(le) && SortedBy(s, le)
    ensures SortedBy(Insert(x, s, le), le)
  {
    if s != [] && !le(x, s[0]) {
      InsertSorted(x, s[1..], le);
      var r := Insert(x, s, le);
      var t := Insert(x, s[1..], le);
      assert r == [s[0]] + t;
      assert le(s[0], x);
      forall k | 0 <= k < |t| ensures le(s[0], t[k]) {
        assert t[k] in multiset(t);
        assert t[k] in multiset(s[1..]) + multiset{x};
        if t[k] != x {
          assert t[k] in s[1..];
          var m :| 0 <= m < |s[1..]| && s[1..][m] == t[k];
          assert s[m + 1] == t[k];
        }
      }
    }
  }

  lemma {:induction false} SortBySorted<T(!new)>(s: seq<T>, le: (T, T) -> bool)
    requires TotalPreorder(le)
    ensures SortedBy(SortBy(s, le), le)
  {
    if s != [] {
      SortBySorted(s[1..], le);
      InsertSorted(s[0], SortBy(s[1..], le), le);
    }
  }

  /** The elements of `s` that compare equal to `e` (each goes before the other), in order. */
  function Equivalents<T>(s: seq<T>, e: T, le: (T, T) -> bool): seq<T>
  {
    if s == [] then []
    else (if le(s[0], e) && le(e, s[0]) then [s[0]] else []) + Equivalents(s[1..], e, le)
  }

  /** Inserting `x` puts it in front of every element that compares equal to it. */
  lemma {:induction false} InsertKeepsEquivalents<T(!new)>(x: T, s: seq<T>, e: T, le: (T, T) -> bool)
    requires TotalPreorder(le)
    ensures Equivalents(Insert(x, s, le), e, le)
            == (if le(x, e) && le(e, x) then [x] else []) + Equivalents(s, e, le)
  {
    if s != [] && !le(x, s[0]) {
      var y, t := s[0], Insert(x, s[1..], le);
      assert le(x, e) && le(e, y) ==> le(x, y);
      var tx := if le(x, e) && le(e, x) then [x] else [];
      var ty := if le(y, e) && le(e, y) then [y] else [];
      assert tx == [] || ty == [];
      InsertKeepsEquivalents(x, s[1..], e, le);
      assert Insert(x, s, le) == [y] + t;
      assert ([y] + t)[1..] == t;
      assert Equivalents([y] + t, e, le) == ty + Equivalents(t, e, le);
      assert Equivalents(s, e, le) == ty + Equivalents(s[1..], e, le);
      var rest := Equivalents(s[1..], e, le);
      assert ty + (tx + rest) == tx + (ty + rest) by {
        if tx == [] { assert tx + rest == rest; } else { assert ty + rest == rest; }
      }
    }
  }

  /** The sort is stable: elements that compare equal keep their input order. */
  lemma {:induction false} SortByStable<T(!new)>(s: seq<T>, e: T, le: (T, T) -> bool)
    requires TotalPreorder(le)
    ensures Equivalents(SortBy(s, le), e, le) == Equivalents(s, e, le)
  {
    if s != [] {
      SortByStable(s[1..], e, le);
      InsertKeepsEquivalents(s[0], SortBy(s[1..], le), e, le);
    }
  }

  function SumReal<T>(s: seq<T>, f: T -> real): real
  {
    if s == [] then 0.0 else f(s[0]) + SumReal(s[1..], f)
  }

  function SumInt<T>(s: seq<T>, f: T -> int): int
  {
    if s == [] then 0 else f(s[0]) + SumInt(s[1..], f)
  }

  lemma {:induction false} SumRealInsert<T>(x: T, s: seq<T>, le: (T, T) -> bool, f: T -> real)
    ensures SumReal(Insert(x, s, le), f) == f(x) + SumReal(s, f)
  {
    if s != [] && !le(x, s[0]) {
      SumRealInsert(x, s[1..], le, f);
      assert Insert(x, s, le)[1..] == Insert(x, s[1..], le);
    }
  }

  lemma {:induction false} SumIntInsert<T>(x: T, s: seq<T>, le: (T, T) -> bool, f: T -> int)
    ensures SumInt(Insert(x, s, le), f) == f(x) + SumInt(s, f)
  {
    if s != [] && !le(x, s[0]) {
      SumIntInsert(x, s[1..], le, f);
      assert Insert(x, s, le)[1..] == Insert(x, s[1..], le);
    }
  }

  /** Sorting does not change a sum. */
  lemma {:induction false} SumRealSortBy<T>(s: seq<T>, le: (T, T) -> bool, f: T -> real)
    ensures SumReal(SortBy(s, le), f) == SumReal(s, f)
  {
    if s != [] {
      SumRealSortBy(s[1..], le, f);
      SumRealInsert(s[0], SortBy(s[1..], le), le, f);
    }
  }

  lemma {:induction false} SumIntSortBy<T>(s: seq<T>, le: (T, T) -> bool, f: T -> int)
    ensures SumInt(SortBy(s, le), f) == SumInt(s, f)
  {
    if s != [] {
      SumIntSortBy(s[1..], le, f);
      SumIntInsert(s[0], SortBy(s[1..], le), le, f);
    }
  }

  lemma {:induction false} SumRealAppend<T>(s: seq<T>, t: seq<T>, f: T -> real)
    ensures SumReal(s + t, f) == SumReal(s, f) + SumReal(t, f)
  {
    if s != [] {
      SumRealAppend(s[1..], t, f);
      assert (s + t)[0] == s[0] && (s + t)[1..] == s[1..] + t;
    } else {
      assert s + t == t;
    }
  }

  lemma {:induction false} SumIntAppend<T>(s: seq<T>, t: seq<T>, f: T -> int)
    ensures SumInt(s + t, f) == SumInt(s, f) + SumInt(t, f)
  {
    if s != [] {
      SumIntAppend(s[1..], t, f);
      assert (s + t)[0] == s[0] && (s + t)[1..] == s[1..] + t;
    } else {
      assert s + t == t;
    }
  }

  /** Replacing one element changes a sum by the difference. */
  lemma {:induction false} SumRealUpdate<T>(s: seq<T>, i: nat, x: T, f: T -> real)
    requires i < |s|
    ensures SumReal(s[i := x], f) == SumReal(s, f) - f(s[i]) + f(x)
  {
    if i > 0 {
      SumRealUpdate(s[1..], i - 1, x, f);
      assert s[i := x][1..] == s[1..][i - 1 := x];
    }
  }

  lemma {:induction false} SumIntUpdate<T>(s: seq<T>, i: nat, x: T, f: T -> int)
    requires i < |s|
    ensures SumInt(s[i := x], f) == SumInt(s, f) - f(s[i]) + f(x)
  {
    if i > 0 {
      SumIntUpdate(s[1..], i - 1, x, f);
      assert s[i := x][1..] == s[1..][i - 1 := x];
    }
  }

  lemma SumRealSnoc<T>(s: seq<T>, x: T, f: T -> real)
    ensures SumReal(s + [x], f) == SumReal(s, f) + f(x)
  {
    SumRealAppend(s, [x], f);
    assert [x][1..] == [];
  }

  lemma SumRealLast<T>(s: seq<T>, f: T -> real)
    requires s != []
    ensures SumReal(s, f) == SumReal(s[..|s| - 1], f) + f(s[|s| - 1])
  {
    assert s == s[..|s| - 1] + [s[|s| - 1]];
    SumRealSnoc(s[..|s| - 1], s[|s| - 1], f);
  }

  lemma SumIntSnoc<T>(s: seq<T>, x: T, f: T -> int)
    ensures SumInt(s + [x], f) == SumInt(s, f) + f(x)
  {
    SumIntAppend(s, [x], f);
    assert [x][1..] == [];
  }
}
