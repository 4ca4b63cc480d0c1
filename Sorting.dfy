// The stable sort behind `Array.prototype.sort`, parameterised by a
// "less than or equal" comparison, and the lexicographic string order of
// JavaScript's `<` on strings.

module Sorting {

  /** `le` is total and transitive, the shape every comparator in the model has. */
  ghost predicate TotalPreorder<T(!new)>(le: (T, T) -> bool) {
    (forall a, b :: le(a, b) || le(b, a))
    && (forall a, b, c :: le(a, b) && le(b, c) ==> le(a, c))
  }

  predicate SortedBy<T>(s: seq<T>, le: (T, T) -> bool) {
    forall i, j :: 0 <= i < j < |s| ==> le(s[i], s[j])
  }

  /** Insert `x` after every element of the sorted `s` that is not greater than it. */
  function InsertBy<T(!new)>(x: T, s: seq<T>, le: (T, T) -> bool): (r: seq<T>)
    requires TotalPreorder(le) && SortedBy(s, le)
    ensures SortedBy(r, le)
    ensures multiset(r) == multiset(s) + multiset{x}
    ensures |r| == |s| + 1
  {
    if s == [] then [x]
    else if le(s[|s| - 1], x) then
      assert forall i :: 0 <= i < |s| ==> le(s[i], s[|s| - 1]);
      s + [x]
    else
      var init := s[..|s| - 1];
      var last := s[|s| - 1];
      assert SortedBy(init, le);
      var r' := InsertBy(x, init, le);
      BelowLast(r', init, x, last, le);
      AppendGreatest(r', last, le);
      assert s == init + [last];
      r' + [last]
  }

  lemma BelowLast<T>(r: seq<T>, init: seq<T>, x: T, last: T, le: (T, T) -> bool)
    requires multiset(r) == multiset(init) + multiset{x}
    requires forall i :: 0 <= i < |init| ==> le(init[i], last)
    requires le(x, last)
    ensures forall i :: 0 <= i < |r| ==> le(r[i], last)
  {
    forall i | 0 <= i < |r| ensures le(r[i], last) {
      assert r[i] in multiset(r);
      if r[i] != x {
        assert r[i] in init;
      }
    }
  }

  lemma AppendGreatest<T>(r: seq<T>, last: T, le: (T, T) -> bool)
    requires SortedBy(r, le)
    requires forall i :: 0 <= i < |r| ==> le(r[i], last)
    ensures SortedBy(r + [last], le)
  {
  }

  /** A stable sort: the result is ordered by `le` and is a permutation of the input. */
  function SortBy<T(!new)>(s: seq<T>, le: (T, T) -> bool): (r: seq<T>)
    requires TotalPreorder(le)
    ensures SortedBy(r, le)
    ensures multiset(r) == multiset(s)
    ensures |r| == |s|
  {
    if s == [] then []
    else
      assert s == s[..|s| - 1] + [s[|s| - 1]];
      InsertBy(s[|s| - 1], SortBy(s[..|s| - 1], le), le)
  }

  /** JavaScript `a < b` on strings: lexicographic comparison of characters. */
  predicate LexLess(a: string, b: string) {
    if a == [] then b != []
    else if b == [] then false
    else if a[0] != b[0] then a[0] < b[0]
    else LexLess(a[1..], b[1..])
  }

  /** "Not after": `a <= b` on strings. */
  predicate LexLe(a: string, b: string) {
    !LexLess(b, a)
  }

  lemma {:induction false} LexLessIrreflexive(a: string)
    ensures !LexLess(a, a)
  {
    if a != [] {
      LexLessIrreflexive(a[1..]);
    }
  }

  lemma {:induction false} LexLessTotal(a: string, b: string)
    ensures a == b || LexLess(a, b) || LexLess(b, a)
  {
    if a != [] && b != [] && a[0] == b[0] {
      LexLessTotal(a[1..], b[1..]);
      if a[1..] == b[1..] {
        assert a == [a[0]] + a[1..] && b == [b[0]] + b[1..];
      }
    }
  }

  lemma {:induction false} LexLessTransitive(a: string, b: string, c: string)
    requires LexLess(a, b) && LexLess(b, c)
    ensures LexLess(a, c)
  {
    if a != [] && a[0] == b[0] && b[0] == c[0] {
      LexLessTransitive(a[1..], b[1..], c[1..]);
    }
  }

  lemma LexLeTotalPreorder()
    ensures TotalPreorder(LexLe)
  {
    forall a, b ensures LexLe(a, b) || LexLe(b, a) {
      if LexLess(a, b) && LexLess(b, a) {
        LexLessTransitive(a, b, a);
        LexLessIrreflexive(a);
      }
    }
    forall a, b, c | LexLe(a, b) && LexLe(b, c) ensures LexLe(a, c) {
      if LexLess(c, a) {
        LexLessTotal(a, b);
        LexLessTotal(b, c);
        if a == b {
        } else if b == c {
        } else {
          LexLessTransitive(a, b, c);
          LexLessTransitive(c, a, c);
          LexLessIrreflexive(c);
        }
      }
    }
  }
}
