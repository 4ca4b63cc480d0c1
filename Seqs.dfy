// Sequence operations the source performs with Array methods:
// `reverse`, `splice` (remove one, insert one), and the remove-then-insert
// "move" that both the message queue and the model list's drag-and-drop use.

module Seqs {
  import opened Strings

  /** `arr.slice().reverse()` */
  function Reverse<T>(s: seq<T>): (r: seq<T>)
    ensures |r| == |s|
    ensures forall i :: 0 <= i < |s| ==> r[i] == s[|s| - 1 - i]
  {
    if s == [] then [] else Reverse(s[1..]) + [s[0]]
  }

  lemma ReverseInvolution<T>(s: seq<T>)
    ensures Reverse(Reverse(s)) == s
  {
  }

  /** `arr.splice(i, 1)` on a copy: the sequence without position `i`. */
  function RemoveAt<T>(s: seq<T>, i: nat): (r: seq<T>)
    requires i < |s|
    ensures |r| == |s| - 1
    ensures forall k :: 0 <= k < i ==> r[k] == s[k]
    ensures forall k :: i <= k < |r| ==> r[k] == s[k + 1]
    ensures multiset(r) + multiset{s[i]} == multiset(s)
  {
    assert s == s[..i] + [s[i]] + s[i + 1..];
    s[..i] + s[i + 1..]
  }

  /** `arr.splice(i, 0, x)` on a copy: `x` inserted before position `i`. */
  function InsertAt<T>(s: seq<T>, i: nat, x: T): (r: seq<T>)
    requires i <= |s|
    ensures |r| == |s| + 1 && r[i] == x
    ensures forall k :: 0 <= k < i ==> r[k] == s[k]
    ensures forall k :: i < k < |r| ==> r[k] == s[k - 1]
    ensures multiset(r) == multiset(s) + multiset{x}
  {
    assert s == s[..i] + s[i..];
    s[..i] + [x] + s[i..]
  }

  /** Removing what was just inserted gives the sequence back. */
  lemma RemoveInsert<T>(s: seq<T>, i: nat, x: T)
    requires i <= |s|
    ensures RemoveAt(InsertAt(s, i, x), i) == s
  {
    var r := RemoveAt(InsertAt(s, i, x), i);
    assert forall k :: 0 <= k < |s| ==> r[k] == s[k];
  }

  /** Inserting an element back where it was removed gives the sequence back. */
  lemma InsertRemove<T>(s: seq<T>, i: nat)
    requires i < |s|
    ensures InsertAt(RemoveAt(s, i), i, s[i]) == s
  {
    var r := InsertAt(RemoveAt(s, i), i, s[i]);
    assert forall k :: 0 <= k < |s| ==> r[k] == s[k];
  }

  /** Take the element at `from` out and put it back so that it ends up at index `to`. */
  function Move<T>(s: seq<T>, from: nat, to: nat): (r: seq<T>)
    requires from < |s| && to < |s|
    ensures |r| == |s| && r[to] == s[from]
    ensures RemoveAt(r, to) == RemoveAt(s, from)
    ensures multiset(r) == multiset(s)
  {
    RemoveInsert(RemoveAt(s, from), to, s[from]);
    InsertAt(RemoveAt(s, from), to, s[from])
  }

  /** Elements that are not between the two indices keep their positions. */
  lemma MoveKeepsOutside<T>(s: seq<T>, from: nat, to: nat, k: nat)
    requires from < |s| && to < |s| && k < |s|
    requires (k < from && k < to) || (k > from && k > to)
    ensures Move(s, from, to)[k] == s[k]
  {
  }

  /** Moving back undoes a move. */
  lemma MoveInverse<T>(s: seq<T>, from: nat, to: nat)
    requires from < |s| && to < |s|
    ensures Move(Move(s, from, to), to, from) == s
  {
    var rest := RemoveAt(s, from);
    RemoveInsert(rest, to, s[from]);
    InsertRemove(s, from);
  }

  /** `arr.filter(p)` */
  function Filter<T>(s: seq<T>, p: T -> bool): (r: seq<T>)
    ensures |r| <= |s|
    ensures forall x :: x in r ==> x in s && p(x)
  {
    if s == [] then []
    else Filter(s[..|s| - 1], p) + (if p(s[|s| - 1]) then [s[|s| - 1]] else [])
  }

  lemma FilterAppend<T>(s: seq<T>, x: T, p: T -> bool)
    ensures Filter(s + [x], p) == Filter(s, p) + (if p(x) then [x] else [])
  {
    assert (s + [x])[..|s|] == s;
  }

  /** Every element that passes the test is kept. */
  lemma {:induction false} FilterKeeps<T>(s: seq<T>, p: T -> bool)
    ensures forall x :: x in s && p(x) ==> x in Filter(s, p)
  {
    if s != [] {
      var init := s[..|s| - 1];
      FilterKeeps(init, p);
      assert s == init + [s[|s| - 1]];
    }
  }

  /** `arr.map(f)` */
  function MapAll<T, U>(s: seq<T>, f: T -> U): (r: seq<U>)
    ensures |r| == |s|
    ensures forall i :: 0 <= i < |s| ==> r[i] == f(s[i])
  {
    if s == [] then [] else MapAll(s[..|s| - 1], f) + [f(s[|s| - 1])]
  }

  /** `arr.findIndex(p)` as an option: the first position whose element passes the test. */
  function FirstWhere<T>(s: seq<T>, p: T -> bool): (r: Option<nat>)
    ensures r.Some? ==> r.value < |s| && p(s[r.value]) && forall j :: 0 <= j < r.value ==> !p(s[j])
    ensures r.None? ==> forall j :: 0 <= j < |s| ==> !p(s[j])
  {
    if s == [] then None
    else if p(s[0]) then Some(0)
    else match FirstWhere(s[1..], p)
      case None => None
      case Some(i) => Some(i + 1)
  }

  /** The last position whose element passes the test. */
  function LastWhere<T>(s: seq<T>, p: T -> bool): (r: Option<nat>)
    ensures r.Some? ==> r.value < |s| && p(s[r.value]) && forall j :: r.value < j < |s| ==> !p(s[j])
    ensures r.None? ==> forall j :: 0 <= j < |s| ==> !p(s[j])
  {
    if s == [] then None
    else if p(s[|s| - 1]) then Some(|s| - 1)
    else LastWhere(s[..|s| - 1], p)
  }

  /** Appending never changes an existing first match. */
  lemma FirstWhereExtend<T>(s: seq<T>, t: seq<T>, p: T -> bool)
    requires FirstWhere(s, p).Some?
    ensures FirstWhere(s + t, p) == FirstWhere(s, p)
  {
    var i := FirstWhere(s, p).value;
    assert forall j :: 0 <= j <= i ==> (s + t)[j] == s[j];
  }

  /** The lists of `gs` one after another (`gs.flat()`). */
  function Concat<T>(gs: seq<seq<T>>): (r: seq<T>)
  {
    if gs == [] then [] else Concat(gs[..|gs| - 1]) + gs[|gs| - 1]
  }

  lemma ConcatAppend<T>(gs: seq<seq<T>>, g: seq<T>)
    ensures Concat(gs + [g]) == Concat(gs) + g
  {
    assert (gs + [g])[..|gs|] == gs;
  }

  /** Each element mapped to a sequence, the results concatenated in order. */
  function FlatMap<T, U>(s: seq<T>, f: T -> seq<U>): seq<U> {
    if s == [] then [] else FlatMap(s[..|s| - 1], f) + f(s[|s| - 1])
  }

  lemma FlatMapAppend<T, U>(s: seq<T>, x: T, f: T -> seq<U>)
    ensures FlatMap(s + [x], f) == FlatMap(s, f) + f(x)
  {
    assert (s + [x])[..|s|] == s;
  }

  /** An element is in the flattened result exactly when it comes from some element of `s`. */
  lemma {:induction false} FlatMapMembers<T, U>(s: seq<T>, f: T -> seq<U>, y: U)
    ensures y in FlatMap(s, f) <==> exists x :: x in s && y in f(x)
  {
    if s != [] {
      var init := s[..|s| - 1];
      var last := s[|s| - 1];
      FlatMapMembers(init, f, y);
      assert s == init + [last];
      if y in f(last) {
        assert last in s;
      }
      if exists x :: x in s && y in f(x) {
        var x :| x in s && y in f(x);
        if x != last {
          assert x in init;
        }
      }
    }
  }

  /** One more element of `s[1..]` taken, after a fixed prefix. */
  lemma FlatMapStep<T, U>(lead: seq<U>, s: seq<T>, i: nat, f: T -> seq<U>)
    requires 1 <= i < |s|
    ensures lead + FlatMap(s[1..i + 1], f) == (lead + FlatMap(s[1..i], f)) + f(s[i])
  {
    assert s[1..i + 1][..i - 1] == s[1..i];
  }
}
