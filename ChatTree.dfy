// The branching chat-message forest of convex/chatMessages/helpers.ts:
// sibling order, the index of roots and children, the branch walk that
// builds a thread, grouping a thread into input/response groups, the path
// to the latest message, the chain from a leaf back to its root, and the
// bounded cache of parsed messages.

module ChatTree {
  import opened Strings
  import opened Sorting
  import opened Seqs

  datatype Kind = Human | AI | Tool | Other

  /** One entry of an AI message's `tool_calls`. */
  datatype ToolCall = ToolCall(id: Option<string>, args: string)

  /**
   * A stored chat message. `payload` is the serialised message (the cache key);
   * `kind`, `toolCalls`, `toolCallId` and `input` are what the parsed message exposes.
   */
  datatype Msg = Msg(
    id: string,
    parentId: Option<string>,
    creationTime: int,
    kind: Kind,
    toolCalls: seq<ToolCall>,
    toolCallId: string,
    input: Option<string>,
    payload: string)

  /** `clamp(n, min, max)` */
  function Clamp(n: int, lo: int, hi: int): (r: int)
    ensures lo <= hi ==> lo <= r <= hi
    ensures lo <= n <= hi ==> r == n
    ensures n < lo ==> r == lo
    ensures lo <= hi < n ==> r == hi
  {
    if n < hi then (if lo < n then n else lo) else (if lo < hi then hi else lo)
  }

  /** `byCreatedAsc(a, b) <= 0`: `a` is not after `b` (creation time, then id). */
  predicate CreatedLe(a: Msg, b: Msg) {
    a.creationTime < b.creationTime || (a.creationTime == b.creationTime && LexLe(a.id, b.id))
  }

  /** `byCreatedAsc(a, b) < 0` */
  predicate CreatedBefore(a: Msg, b: Msg) {
    a.creationTime < b.creationTime || (a.creationTime == b.creationTime && LexLess(a.id, b.id))
  }

  lemma CreatedLeTotalPreorder()
    ensures TotalPreorder(CreatedLe)
  {
    LexLeTotalPreorder();
    forall a, b, c | CreatedLe(a, b) && CreatedLe(b, c) ensures CreatedLe(a, c) {
      if a.creationTime == b.creationTime == c.creationTime {
        assert LexLe(a.id, b.id) && LexLe(b.id, c.id);
      }
    }
  }

  /** `byCreatedAsc` is a strict order on messages with distinct ids: exactly one of the two comes first. */
  lemma CreatedOrderStrict(a: Msg, b: Msg)
    requires a.id != b.id
    ensures CreatedBefore(a, b) != CreatedBefore(b, a)
    ensures CreatedLe(a, b) <==> CreatedBefore(a, b)
  {
    LexLessTotal(a.id, b.id);
    if LexLess(a.id, b.id) && LexLess(b.id, a.id) {
      LexLessTransitive(a.id, b.id, a.id);
      LexLessIrreflexive(a.id);
    }
  }

  /** Not after `b` and `b` before `c` puts `a` before `c`. */
  lemma CreatedBeforeAfterLe(a: Msg, b: Msg, c: Msg)
    requires CreatedLe(a, b) && CreatedBefore(b, c)
    ensures CreatedBefore(a, c)
  {
    if a.creationTime == b.creationTime == c.creationTime && a.id != b.id {
      LexLessTotal(a.id, b.id);
      LexLessTransitive(a.id, b.id, c.id);
    }
  }

  lemma CreatedLeReflexive(a: Msg)
    ensures CreatedLe(a, a)
  {
    LexLessIrreflexive(a.id);
  }

  lemma CreatedBeforeIsLe(a: Msg, b: Msg)
    requires CreatedBefore(a, b)
    ensures CreatedLe(a, b)
  {
    if a.creationTime == b.creationTime && LexLess(b.id, a.id) {
      LexLessTransitive(a.id, b.id, a.id);
      LexLessIrreflexive(a.id);
    }
  }

  predicate UniqueIds(ms: seq<Msg>) {
    forall i, j :: 0 <= i < j < |ms| ==> ms[i].id != ms[j].id
  }

  function IdSet(ms: seq<Msg>): set<string> {
    set m | m in ms :: m.id
  }

  /** `byId`: every message under its id, a later duplicate replacing an earlier one. */
  function ById(ms: seq<Msg>): (r: map<string, Msg>)
    ensures r.Keys == IdSet(ms)
    ensures forall k :: k in r ==> r[k] in ms && r[k].id == k
  {
    if ms == [] then map[]
    else
      var init := ms[..|ms| - 1];
      var last := ms[|ms| - 1];
      assert ms == init + [last];
      ById(init)[last.id := last]
  }

  /** With unique ids, `byId` finds each message under its own id. */
  lemma {:induction false} ByIdFindsMessage(ms: seq<Msg>, m: Msg)
    requires UniqueIds(ms) && m in ms
    ensures m.id in ById(ms) && ById(ms)[m.id] == m
  {
    var b := ById(ms);
    var i :| 0 <= i < |ms| && ms[i] == m;
    var k :| 0 <= k < |ms| && ms[k] == b[m.id];
    if k != i {
      assert ms[k].id == ms[i].id;
    }
  }

  /** `p && byId.has(p)`: the message's parent is set (non-empty) and loaded. */
  predicate HasLoadedParent(m: Msg, byId: map<string, Msg>) {
    m.parentId.Some? && m.parentId.value != "" && m.parentId.value in byId
  }

  /** Messages that go to the roots, in input order. */
  function RootsIn(ms: seq<Msg>, byId: map<string, Msg>): seq<Msg> {
    if ms == [] then []
    else
      var last := ms[|ms| - 1];
      RootsIn(ms[..|ms| - 1], byId) + (if HasLoadedParent(last, byId) then [] else [last])
  }

  /** Messages that go to the children list of `p`, in input order. */
  function ChildrenIn(ms: seq<Msg>, byId: map<string, Msg>, p: string): seq<Msg> {
    if ms == [] then []
    else
      var last := ms[|ms| - 1];
      ChildrenIn(ms[..|ms| - 1], byId, p)
        + (if HasLoadedParent(last, byId) && last.parentId.value == p then [last] else [])
  }

  /** How many copies of `m` the roots filter keeps. */
  lemma {:induction false} RootsCount(ms: seq<Msg>, byId: map<string, Msg>, m: Msg)
    ensures multiset(RootsIn(ms, byId))[m] == (if HasLoadedParent(m, byId) then 0 else multiset(ms)[m])
  {
    if ms != [] {
      var init := ms[..|ms| - 1];
      var last := ms[|ms| - 1];
      RootsCount(init, byId, m);
      assert ms == init + [last];
      var keepsLast := !HasLoadedParent(last, byId);
      var tail := if keepsLast then [last] else [];
      assert RootsIn(ms, byId) == RootsIn(init, byId) + tail;
      KeptCount(init, last, tail, RootsIn(init, byId), m, keepsLast, !HasLoadedParent(m, byId));
    }
  }

  /** One more message through a filter: the copies of `m` kept grow by its copy when it is kept. */
  lemma KeptCount(init: seq<Msg>, last: Msg, tail: seq<Msg>, kept: seq<Msg>, m: Msg, keepsLast: bool, keepsM: bool)
    requires tail == if keepsLast then [last] else []
    requires last == m ==> keepsLast == keepsM
    requires multiset(kept)[m] == if keepsM then multiset(init)[m] else 0
    ensures multiset(kept + tail)[m] == if keepsM then multiset(init + [last])[m] else 0
  {
    assert multiset(init + [last]) == multiset(init) + multiset([last]);
    assert multiset(kept + tail) == multiset(kept) + multiset(tail);
  }

  /** How many copies of `m` the children filter for `p` keeps. */
  lemma {:induction false} ChildrenCount(ms: seq<Msg>, byId: map<string, Msg>, m: Msg, p: string)
    ensures multiset(ChildrenIn(ms, byId, p))[m]
         == (if HasLoadedParent(m, byId) && m.parentId.value == p then multiset(ms)[m] else 0)
  {
    if ms != [] {
      var init := ms[..|ms| - 1];
      var last := ms[|ms| - 1];
      ChildrenCount(init, byId, m, p);
      assert ms == init + [last];
      var keepsLast := HasLoadedParent(last, byId) && last.parentId.value == p;
      var tail := if keepsLast then [last] else [];
      assert ChildrenIn(ms, byId, p) == ChildrenIn(init, byId, p) + tail;
      KeptCount(init, last, tail, ChildrenIn(init, byId, p), m, keepsLast,
                HasLoadedParent(m, byId) && m.parentId.value == p);
    }
  }

  /**
   * Every message lands in exactly one place: in the roots if its parent is
   * unset or not loaded, otherwise in its parent's children list and in no other.
   */
  lemma MessagesPartitioned(ms: seq<Msg>, m: Msg, p: string)
    requires m in ms
    ensures HasLoadedParent(m, ById(ms)) ==>
      m !in RootsIn(ms, ById(ms)) && m in ChildrenIn(ms, ById(ms), m.parentId.value)
      && (p != m.parentId.value ==> m !in ChildrenIn(ms, ById(ms), p))
    ensures !HasLoadedParent(m, ById(ms)) ==>
      m in RootsIn(ms, ById(ms)) && m !in ChildrenIn(ms, ById(ms), p)
  {
    var b := ById(ms);
    RootsCount(ms, b, m);
    ChildrenCount(ms, b, m, p);
    if HasLoadedParent(m, b) {
      ChildrenCount(ms, b, m, m.parentId.value);
    }
  }

  /** Everything in a filter comes from the input and satisfies the filter's condition. */
  lemma {:induction false} FilterMembers(ms: seq<Msg>, byId: map<string, Msg>, p: string)
    ensures forall m :: m in RootsIn(ms, byId) ==> m in ms && !HasLoadedParent(m, byId)
    ensures forall m :: m in ChildrenIn(ms, byId, p) ==>
      m in ms && HasLoadedParent(m, byId) && m.parentId.value == p
  {
    if ms != [] {
      FilterMembers(ms[..|ms| - 1], byId, p);
    }
  }

  /** The roots and children lists after sorting, as `indexChatMessages` leaves them. */
  function SortedSiblings(s: seq<Msg>): (r: seq<Msg>)
    ensures SortedBy(r, CreatedLe) && multiset(r) == multiset(s)
  {
    CreatedLeTotalPreorder();
    SortBy(s, CreatedLe)
  }

  /** The five maps and lists `indexChatMessages` returns. */
  datatype Index = Index(
    byId: map<string, Msg>,
    children: map<string, seq<Msg>>,
    roots: seq<Msg>,
    indexInParent: map<string, nat>,
    rootIndex: map<string, nat>)

  /** `idx` is the index of `ms`. */
  ghost predicate IndexOf(idx: Index, ms: seq<Msg>) {
    && idx.byId == ById(ms)
    && idx.roots == SortedSiblings(RootsIn(ms, idx.byId))
    && (forall p :: p in idx.children <==> ChildrenIn(ms, idx.byId, p) != [])
    && (forall p :: p in idx.children ==> idx.children[p] == SortedSiblings(ChildrenIn(ms, idx.byId, p)))
    && (forall k :: k in idx.rootIndex <==> exists i :: 0 <= i < |idx.roots| && idx.roots[i].id == k)
    && (forall k :: k in idx.rootIndex ==>
          idx.rootIndex[k] < |idx.roots| && idx.roots[idx.rootIndex[k]].id == k)
    && (forall k :: k in idx.indexInParent <==>
          exists p, i :: p in idx.children && 0 <= i < |idx.children[p]| && idx.children[p][i].id == k)
    && (forall k :: k in idx.indexInParent ==>
          exists p :: p in idx.children && idx.indexInParent[k] < |idx.children[p]|
                      && idx.children[p][idx.indexInParent[k]].id == k)
  }

  /** The first loop of `indexChatMessages`: `byId`. */
  method BuildById(ms: seq<Msg>) returns (byId: map<string, Msg>)
    ensures byId == ById(ms)
  {
    byId := map[];
    for i := 0 to |ms|
      invariant byId == ById(ms[..i])
    {
      assert ms[..i + 1][..i] == ms[..i];
      byId := byId[ms[i].id := ms[i]];
    }
    assert ms[..|ms|] == ms;
  }

  /** The second loop of `indexChatMessages`: unsorted children lists and roots. */
  method BuildAdjacency(ms: seq<Msg>, byId: map<string, Msg>)
    returns (children: map<string, seq<Msg>>, roots: seq<Msg>)
    ensures roots == RootsIn(ms, byId)
    ensures forall p :: p in children <==> ChildrenIn(ms, byId, p) != []
    ensures forall p :: p in children ==> children[p] == ChildrenIn(ms, byId, p)
  {
    children := map[];
    roots := [];
    for i := 0 to |ms|
      invariant roots == RootsIn(ms[..i], byId)
      invariant forall p :: p in children <==> ChildrenIn(ms[..i], byId, p) != []
      invariant forall p :: p in children ==> children[p] == ChildrenIn(ms[..i], byId, p)
    {
      var m := ms[i];
      assert ms[..i + 1][..i] == ms[..i];
      assert forall p :: (ChildrenIn(ms[..i + 1], byId, p)
        == ChildrenIn(ms[..i], byId, p) + (if HasLoadedParent(m, byId) && m.parentId.value == p then [m] else []));
      if HasLoadedParent(m, byId) {
        var p := m.parentId.value;
        if p in children {
          children := children[p := children[p] + [m]];
        } else {
          children := children[p := [m]];
        }
      } else {
        roots := roots + [m];
      }
    }
    assert ms[..|ms|] == ms;
  }

  /** The third loop of `indexChatMessages`: each child's position in its sorted list. */
  method BuildIndexInParent(children: map<string, seq<Msg>>) returns (indexInParent: map<string, nat>)
    ensures forall k :: k in indexInParent <==>
      exists p, i :: p in children && 0 <= i < |children[p]| && children[p][i].id == k
    ensures forall k :: k in indexInParent ==>
      exists p :: p in children && indexInParent[k] < |children[p]| && children[p][indexInParent[k]].id == k
  {
    indexInParent := map[];
    var todo := children.Keys;
    while todo != {}
      invariant todo <= children.Keys
      invariant forall k :: k in indexInParent <==>
        exists p, i :: p in children.Keys - todo && 0 <= i < |children[p]| && children[p][i].id == k
      invariant forall k :: k in indexInParent ==>
        exists p :: p in children && indexInParent[k] < |children[p]| && children[p][indexInParent[k]].id == k
      decreases |todo|
    {
      var p :| p in todo;
      var arr := children[p];
      ghost var before := indexInParent;
      for i := 0 to |arr|
        invariant forall k :: k in indexInParent <==>
          k in before || exists j :: 0 <= j < i && arr[j].id == k
        invariant forall k :: k in indexInParent ==>
          exists q :: q in children && indexInParent[k] < |children[q]| && children[q][indexInParent[k]].id == k
      {
        indexInParent := indexInParent[arr[i].id := i];
      }
      todo := todo - {p};
    }
  }

  /** The last loop of `indexChatMessages`: each root's position. */
  method BuildRootIndex(roots: seq<Msg>) returns (rootIndex: map<string, nat>)
    ensures forall k :: k in rootIndex <==> exists i :: 0 <= i < |roots| && roots[i].id == k
    ensures forall k :: k in rootIndex ==> rootIndex[k] < |roots| && roots[rootIndex[k]].id == k
  {
    rootIndex := map[];
    for i := 0 to |roots|
      invariant forall k :: k in rootIndex <==> exists j :: 0 <= j < i && roots[j].id == k
      invariant forall k :: k in rootIndex ==> rootIndex[k] < i && roots[rootIndex[k]].id == k
    {
      rootIndex := rootIndex[roots[i].id := i];
    }
  }

  /** `indexChatMessages`: siblings sorted by `byCreatedAsc`, then the position maps. */
  method IndexChatMessages(ms: seq<Msg>) returns (idx: Index)
    ensures IndexOf(idx, ms)
  {
    var byId := BuildById(ms);
    var children, roots := BuildAdjacency(ms, byId);
    roots := SortedSiblings(roots);
    children := map p | p in children :: SortedSiblings(children[p]);
    var indexInParent := BuildIndexInParent(children);
    var rootIndex := BuildRootIndex(roots);
    idx := Index(byId, children, roots, indexInParent, rootIndex);
  }

  // ---------------------------------------------------------------------
  // Facts about the index used by the walks below

  /** With unique ids, two messages of the input with the same id are the same message. */
  lemma UniqueIdsInjective(ms: seq<Msg>)
    requires UniqueIds(ms)
    ensures forall a, b :: a in ms && b in ms && a.id == b.id ==> a == b
  {
    forall a, b | a in ms && b in ms && a.id == b.id ensures a == b {
      var i :| 0 <= i < |ms| && ms[i] == a;
      var j :| 0 <= j < |ms| && ms[j] == b;
    }
  }

  /** With unique ids, no message occurs twice. */
  lemma {:induction false} UniqueCount(ms: seq<Msg>, m: Msg)
    requires UniqueIds(ms)
    ensures multiset(ms)[m] <= 1
  {
    if ms != [] {
      var init := ms[..|ms| - 1];
      var last := ms[|ms| - 1];
      assert ms == init + [last];
      UniqueCount(init, m);
      assert forall i :: 0 <= i < |init| ==> init[i].id != last.id;
      assert last == m ==> m !in init;
    }
  }

  predicate DistinctIds(s: seq<Msg>) {
    forall i, j :: 0 <= i < j < |s| ==> s[i].id != s[j].id
  }

  /** A sub-multiset of a list with unique ids has distinct ids. */
  lemma SubMultisetDistinct(s: seq<Msg>, ms: seq<Msg>)
    requires UniqueIds(ms) && multiset(s) <= multiset(ms)
    ensures DistinctIds(s)
  {
    forall i, j | 0 <= i < j < |s| ensures s[i].id != s[j].id {
      if s[i].id == s[j].id {
        assert s[i] in multiset(ms) && s[j] in multiset(ms);
        UniqueIdsInjective(ms);
        assert s == s[..i] + [s[i]] + s[i + 1..j] + [s[j]] + s[j + 1..];
        assert multiset(s)[s[i]] >= 2;
        UniqueCount(ms, s[i]);
      }
    }
  }

  /** The siblings list a message belongs to: its parent's sorted children, or the sorted roots. */
  function SiblingsIn(ms: seq<Msg>, m: Msg): seq<Msg> {
    var byId := ById(ms);
    if HasLoadedParent(m, byId) then SortedSiblings(ChildrenIn(ms, byId, m.parentId.value))
    else SortedSiblings(RootsIn(ms, byId))
  }

  /** The children of `id` the index records (`children.get(id) ?? []`). */
  function ChildrenOrEmpty(idx: Index, id: string): seq<Msg> {
    if id in idx.children then idx.children[id] else []
  }

  /** What the index's lists contain, read back in terms of the input. */
  lemma IndexLists(idx: Index, ms: seq<Msg>, id: string)
    requires IndexOf(idx, ms)
    ensures ChildrenOrEmpty(idx, id) == SortedSiblings(ChildrenIn(ms, idx.byId, id))
    ensures forall c :: c in ChildrenOrEmpty(idx, id) ==>
      c in ms && HasLoadedParent(c, idx.byId) && c.parentId.value == id
    ensures forall r :: r in idx.roots ==> r in ms && !HasLoadedParent(r, idx.byId)
    ensures UniqueIds(ms) ==> DistinctIds(ChildrenOrEmpty(idx, id)) && DistinctIds(idx.roots)
  {
    FilterMembers(ms, idx.byId, id);
    var kids := ChildrenOrEmpty(idx, id);
    forall c | c in kids ensures c in ChildrenIn(ms, idx.byId, id) {
      assert c in multiset(kids);
    }
    forall r | r in idx.roots ensures r in RootsIn(ms, idx.byId) {
      assert r in multiset(idx.roots);
    }
    if UniqueIds(ms) {
      forall m ensures multiset(RootsIn(ms, idx.byId))[m] <= multiset(ms)[m]
        && multiset(ChildrenIn(ms, idx.byId, id))[m] <= multiset(ms)[m] {
        RootsCount(ms, idx.byId, m);
        ChildrenCount(ms, idx.byId, m, id);
      }
      SubMultisetDistinct(kids, ms);
      SubMultisetDistinct(idx.roots, ms);
    }
  }

  // ---------------------------------------------------------------------
  // buildThreadFromMessages

  /** One element of the thread: the message, its 1-based position among its siblings, their count, the depth. */
  datatype Entry = Entry(msg: Msg, branchIndex: int, totalBranches: int, depth: nat)

  /** `clamp(path[depth] ?? n - 1, 0, n - 1)`: which of `n` siblings the walk picks at `depth`. */
  function SelectIndex(path: seq<int>, depth: nat, n: nat): (i: int)
    requires n > 0
    ensures 0 <= i < n
    ensures depth >= |path| ==> i == n - 1
    ensures depth < |path| && 0 <= path[depth] < n ==> i == path[depth]
    ensures depth < |path| && path[depth] < 0 ==> i == 0
    ensures depth < |path| && path[depth] >= n ==> i == n - 1
  {
    Clamp(if depth < |path| then path[depth] else n - 1, 0, n - 1)
  }

  /** The default pick, the last sibling, is the newest one. */
  lemma DefaultPickIsNewest(ms: seq<Msg>, m: Msg, k: nat)
    requires k < |SiblingsIn(ms, m)|
    ensures CreatedLe(SiblingsIn(ms, m)[k], SiblingsIn(ms, m)[|SiblingsIn(ms, m)| - 1])
  {
    var sib := SiblingsIn(ms, m);
    CreatedLeTotalPreorder();
    assert CreatedLe(sib[k], sib[k]);
    assert k < |sib| - 1 ==> CreatedLe(sib[k], sib[|sib| - 1]);
  }

  /** `e` sits at its 1-based `branchIndex` among its `totalBranches` siblings. */
  predicate WellPlaced(ms: seq<Msg>, e: Entry) {
    var sib := SiblingsIn(ms, e.msg);
    1 <= e.branchIndex <= e.totalBranches == |sib| && sib[e.branchIndex - 1] == e.msg
  }

  /** The siblings list of `m` read from the index (`children.get(parentId)` or `roots`). */
  function SiblingsAt(idx: Index, m: Msg): seq<Msg> {
    if HasLoadedParent(m, idx.byId) then ChildrenOrEmpty(idx, m.parentId.value) else idx.roots
  }

  /** `WellPlaced`, with the siblings list taken from the index. */
  predicate PlacedIn(idx: Index, e: Entry) {
    var sib := SiblingsAt(idx, e.msg);
    1 <= e.branchIndex <= e.totalBranches == |sib| && sib[e.branchIndex - 1] == e.msg
  }

  predicate DistinctEntries(r: seq<Entry>) {
    forall i, j :: 0 <= i < j < |r| ==> r[i].msg.id != r[j].msg.id
  }

  /** No entry of `r` carries `id`. */
  predicate FreshId(r: seq<Entry>, id: string) {
    forall k :: 0 <= k < |r| ==> r[k].msg.id != id
  }

  /** Entries of distinct ids drawn from `ms` are no more than `ms`. */
  lemma {:induction false} EntriesBounded(ms: seq<Msg>, r: seq<Entry>)
    requires forall k :: 0 <= k < |r| ==> r[k].msg in ms
    requires DistinctEntries(r)
    ensures |r| <= |ms|
  {
    if r != [] {
      var last := r[|r| - 1].msg;
      var p :| 0 <= p < |ms| && ms[p] == last;
      var ms' := RemoveAt(ms, p);
      var init := r[..|r| - 1];
      forall k | 0 <= k < |init| ensures init[k].msg in ms' {
        assert init[k] == r[k];
        var q :| 0 <= q < |ms| && ms[q] == init[k].msg;
        assert q != p;
        if q < p {
          assert ms'[q] == ms[q];
        } else {
          assert ms'[q - 1] == ms[q];
        }
      }
      EntriesBounded(ms', init);
    }
  }

  /** `chain` runs from a root downwards, each element a loaded child of the one before. */
  predicate ParentPath(chain: seq<Msg>, byId: map<string, Msg>) {
    && (|chain| > 0 ==> !HasLoadedParent(chain[0], byId))
    && (forall j :: 0 < j < |chain| ==>
          HasLoadedParent(chain[j], byId) && chain[j].parentId.value == chain[j - 1].id)
  }

  /** The parent of entry `k` is one of the entries before it. */
  predicate ParentEmittedBefore(result: seq<Entry>, k: nat)
    requires k < |result|
  {
    result[k].msg.parentId.Some? && exists j :: 0 <= j < k && result[j].msg.id == result[k].msg.parentId.value
  }

  /** Every entry is a message of the input sitting at its recorded sibling position, and no id repeats. */
  ghost predicate ThreadPlaced(ms: seq<Msg>, result: seq<Entry>) {
    && (forall k :: 0 <= k < |result| ==> result[k].msg in ms && WellPlaced(ms, result[k]))
    && DistinctEntries(result)
  }

  /** `ThreadPlaced`, with positions read from the index. */
  ghost predicate EntriesPlaced(ms: seq<Msg>, idx: Index, result: seq<Entry>) {
    && (forall k :: 0 <= k < |result| ==> result[k].msg in ms && PlacedIn(idx, result[k]))
    && DistinctEntries(result)
  }

  /** `chain` is a root-down parent path of input messages with distinct ids. */
  ghost predicate ChainOk(ms: seq<Msg>, byId: map<string, Msg>, chain: seq<Msg>) {
    && ParentPath(chain, byId)
    && (forall c :: c in chain ==> c in ms)
    && DistinctIds(chain)
  }

  /** Every entry is on the chain or a child of a chain element above the last. */
  ghost predicate EntriesUnderChain(chain: seq<Msg>, result: seq<Entry>) {
    forall k :: 0 <= k < |result| ==>
      result[k].msg in chain
      || exists j :: 0 <= j < |chain| - 1 && result[k].msg.parentId == Some(chain[j].id)
  }

  predicate AllParentsEmittedBefore(result: seq<Entry>) {
    forall k :: 0 < k < |result| ==> ParentEmittedBefore(result, k)
  }

  /**
   * What holds of the walk between iterations: `chain` is the path of selected
   * (and last-child) messages, `result` the entries emitted so far.
   */
  ghost predicate ThreadInv(ms: seq<Msg>, idx: Index, chain: seq<Msg>, result: seq<Entry>) {
    && ChainOk(ms, idx.byId, chain)
    && EntriesPlaced(ms, idx, result)
    && EntriesUnderChain(chain, result)
    && AllParentsEmittedBefore(result)
    && (chain == [] <==> result == [])
    && (chain != [] ==> result[|result| - 1].msg == chain[|chain| - 1])
  }

  /**
   * `siblings` is a complete sibling list: the roots when `parent` is `None`,
   * otherwise the loaded children of `parent`.
   */
  ghost predicate SiblingList(ms: seq<Msg>, idx: Index, siblings: seq<Msg>, parent: Option<Msg>) {
    && DistinctIds(siblings)
    && forall c :: c in siblings ==>
         && c in ms && SiblingsAt(idx, c) == siblings
         && (parent.None? ==> !HasLoadedParent(c, idx.byId))
         && (parent.Some? ==> HasLoadedParent(c, idx.byId) && c.parentId.value == parent.value.id)
  }

  /** Each message of `ms` is what `byId` holds under its id (so ids are unique). */
  ghost predicate Keyed(ms: seq<Msg>, byId: map<string, Msg>) {
    forall m :: m in ms ==> m.id in byId && byId[m.id] == m
  }

  /** What the walk needs of the index: its lists hold input messages with distinct ids, in the right place. */
  ghost predicate ListsComplete(ms: seq<Msg>, idx: Index) {
    && Keyed(ms, idx.byId)
    && DistinctIds(idx.roots)
    && (forall r :: r in idx.roots ==> r in ms && !HasLoadedParent(r, idx.byId))
    && (forall id :: DistinctIds(ChildrenOrEmpty(idx, id)))
    && (forall id, c :: c in ChildrenOrEmpty(idx, id) ==>
          c in ms && HasLoadedParent(c, idx.byId) && c.parentId.value == id)
  }

  lemma IndexListsComplete(ms: seq<Msg>, idx: Index)
    requires IndexOf(idx, ms) && UniqueIds(ms)
    ensures ListsComplete(ms, idx)
  {
    forall id ensures DistinctIds(ChildrenOrEmpty(idx, id))
      && forall c :: c in ChildrenOrEmpty(idx, id) ==>
           c in ms && HasLoadedParent(c, idx.byId) && c.parentId.value == id
    {
      IndexLists(idx, ms, id);
    }
    IndexLists(idx, ms, "");
    forall m | m in ms ensures m.id in idx.byId && idx.byId[m.id] == m {
      ByIdFindsMessage(ms, m);
    }
  }

  /** The index's lists are complete sibling lists. */
  lemma IndexSiblingLists(ms: seq<Msg>, idx: Index, id: string, parent: Msg)
    requires ListsComplete(ms, idx) && parent.id == id
    ensures SiblingList(ms, idx, idx.roots, None)
    ensures SiblingList(ms, idx, ChildrenOrEmpty(idx, id), Some(parent))
  {
  }

  /** Reading `SiblingsIn` through the index. */
  lemma SiblingsThroughIndex(ms: seq<Msg>, idx: Index, m: Msg)
    requires IndexOf(idx, ms)
    ensures SiblingsIn(ms, m) == SiblingsAt(idx, m)
  {
    if HasLoadedParent(m, idx.byId) {
      IndexLists(idx, ms, m.parentId.value);
    }
  }

  /** Positions read from the index are positions in the input's sibling lists. */
  lemma PlacedThroughIndex(ms: seq<Msg>, idx: Index, result: seq<Entry>)
    requires IndexOf(idx, ms) && EntriesPlaced(ms, idx, result)
    ensures ThreadPlaced(ms, result)
  {
    forall k | 0 <= k < |result| ensures WellPlaced(ms, result[k]) {
      SiblingsThroughIndex(ms, idx, result[k].msg);
    }
  }

  /** A loaded child of the last chain element has not been emitted yet: the walk never revisits. */
  lemma ChildIsNew(ms: seq<Msg>, idx: Index, chain: seq<Msg>, result: seq<Entry>, n: Msg)
    requires Keyed(ms, idx.byId) && ThreadInv(ms, idx, chain, result)
    requires chain != [] && n in ms && HasLoadedParent(n, idx.byId)
    requires n.parentId.value == chain[|chain| - 1].id
    ensures FreshId(result, n.id)
    ensures forall c :: c in chain ==> c.id != n.id
  {
    var last := |chain| - 1;
    forall k | 0 <= k < |chain| ensures chain[k].id != n.id {
      if k == 0 {
        assert !HasLoadedParent(chain[0], idx.byId);
      } else {
        assert chain[k].parentId.value == chain[k - 1].id;
        assert chain[k - 1].id != chain[last].id;
      }
    }
    forall k | 0 <= k < |result| ensures result[k].msg.id != n.id {
      if result[k].msg !in chain {
        var j :| 0 <= j < |chain| - 1 && result[k].msg.parentId == Some(chain[j].id);
        assert chain[j].id != chain[last].id;
      }
    }
  }

  /** The entries for the first `n` children of a node with several children. */
  function ChildEntriesUpTo(kids: seq<Msg>, d: nat, n: nat): (r: seq<Entry>)
    requires n <= |kids|
    ensures |r| == n
  {
    if n == 0 then [] else ChildEntriesUpTo(kids, d, n - 1) + [Entry(kids[n - 1], n, |kids|, d)]
  }

  /** The entries emitted for the children of a node with several children. */
  function ChildEntries(kids: seq<Msg>, d: nat): (r: seq<Entry>)
    ensures |r| == |kids|
  {
    ChildEntriesUpTo(kids, d, |kids|)
  }

  lemma {:induction false} ChildEntriesUpToAt(kids: seq<Msg>, d: nat, n: nat, t: nat)
    requires t < n <= |kids|
    ensures ChildEntriesUpTo(kids, d, n)[t] == Entry(kids[t], t + 1, |kids|, d)
  {
    if t < n - 1 {
      ChildEntriesUpToAt(kids, d, n - 1, t);
    }
  }

  /** One entry per child, in order: the child, its 1-based position among the children, their number and the depth. */
  lemma ChildEntriesAt(kids: seq<Msg>, d: nat)
    ensures forall t :: 0 <= t < |kids| ==> ChildEntries(kids, d)[t] == Entry(kids[t], t + 1, |kids|, d)
  {
    forall t | 0 <= t < |kids| ensures ChildEntries(kids, d)[t] == Entry(kids[t], t + 1, |kids|, d) {
      ChildEntriesUpToAt(kids, d, |kids|, t);
    }
  }

  /** Extending the chain by a new message whose parent is its last element keeps it a parent path. */
  lemma PathExtend(ms: seq<Msg>, byId: map<string, Msg>, chain: seq<Msg>, n: Msg)
    requires ChainOk(ms, byId, chain) && n in ms
    requires forall c :: c in chain ==> c.id != n.id
    requires chain == [] ==> !HasLoadedParent(n, byId)
    requires chain != [] ==> HasLoadedParent(n, byId) && n.parentId.value == chain[|chain| - 1].id
    ensures ChainOk(ms, byId, chain + [n])
  {
    var c' := chain + [n];
    forall a, b | 0 <= a < b < |c'| ensures c'[a].id != c'[b].id {
      if b == |chain| {
        assert c'[a] in chain;
      }
    }
  }

  /** Appending placed, new, pairwise distinct entries keeps placement and distinctness. */
  lemma EntriesExtend(ms: seq<Msg>, idx: Index, result: seq<Entry>, extra: seq<Entry>)
    requires EntriesPlaced(ms, idx, result) && EntriesPlaced(ms, idx, extra)
    requires forall k :: 0 <= k < |extra| ==> FreshId(result, extra[k].msg.id)
    ensures EntriesPlaced(ms, idx, result + extra)
  {
    var r := result + extra;
    forall a, b | 0 <= a < b < |r| ensures r[a].msg.id != r[b].msg.id {
      if a < |result| <= b {
        assert r[a] == result[a] && r[b] == extra[b - |result|];
        assert FreshId(result, extra[b - |result|].msg.id);
      }
    }
  }

  /** Appending entries whose parent is the last emitted entry keeps every parent emitted before its child. */
  lemma LinkedExtend(result: seq<Entry>, extra: seq<Entry>)
    requires result != [] && AllParentsEmittedBefore(result)
    requires forall k :: 0 <= k < |extra| ==> extra[k].msg.parentId == Some(result[|result| - 1].msg.id)
    ensures AllParentsEmittedBefore(result + extra)
  {
    var r := result + extra;
    forall k | 0 < k < |r| ensures ParentEmittedBefore(r, k) {
      if k < |result| {
        assert ParentEmittedBefore(result, k);
        var j :| 0 <= j < k && result[j].msg.id == result[k].msg.parentId.value;
        assert r[k] == result[k] && r[j] == result[j];
      } else {
        assert r[k] == extra[k - |result|];
        assert r[|result| - 1] == result[|result| - 1];
      }
    }
  }

  /** New entries that are the new chain end or children of the old chain end stay under the chain. */
  lemma UnderExtend(chain: seq<Msg>, result: seq<Entry>, n: Msg, extra: seq<Entry>)
    requires EntriesUnderChain(chain, result)
    requires forall k :: 0 <= k < |extra| ==>
      extra[k].msg == n || (chain != [] && extra[k].msg.parentId == Some(chain[|chain| - 1].id))
    ensures EntriesUnderChain(chain + [n], result + extra)
  {
    var chain', result' := chain + [n], result + extra;
    forall k | 0 <= k < |result'| && result'[k].msg !in chain'
      ensures exists j :: 0 <= j < |chain'| - 1 && result'[k].msg.parentId == Some(chain'[j].id)
    {
      if k < |result| {
        assert result'[k] == result[k];
        var j :| 0 <= j < |chain| - 1 && result[k].msg.parentId == Some(chain[j].id);
        assert chain'[j] == chain[j];
      } else {
        assert result'[k] == extra[k - |result|];
        assert chain'[|chain| - 1] == chain[|chain| - 1];
      }
    }
  }

  /** A message of a complete sibling list is well placed at its own position in it. */
  lemma PlacedInList(ms: seq<Msg>, idx: Index, siblings: seq<Msg>, i: nat, depth: nat)
    requires i < |siblings| && siblings[i] in ms && SiblingsAt(idx, siblings[i]) == siblings
    ensures EntriesPlaced(ms, idx, [Entry(siblings[i], i + 1, |siblings|, depth)])
  {
  }

  /** Emitting the selected sibling keeps the walk's invariant, and the sibling is new. */
  lemma StepSelect(ms: seq<Msg>, idx: Index, chain: seq<Msg>, result: seq<Entry>, siblings: seq<Msg>, i: nat, depth: nat)
    requires Keyed(ms, idx.byId) && ThreadInv(ms, idx, chain, result)
    requires SiblingList(ms, idx, siblings, if chain == [] then None else Some(chain[|chain| - 1]))
    requires i < |siblings|
    ensures FreshId(result, siblings[i].id) && siblings[i] in ms
    ensures ThreadInv(ms, idx, chain + [siblings[i]], result + [Entry(siblings[i], i + 1, |siblings|, depth)])
  {
    var sel := siblings[i];
    var e := Entry(sel, i + 1, |siblings|, depth);
    assert sel in siblings;
    if chain != [] {
      ChildIsNew(ms, idx, chain, result, sel);
      LinkedExtend(result, [e]);
    }
    PlacedInList(ms, idx, siblings, i, depth);
    PathExtend(ms, idx.byId, chain, sel);
    EntriesExtend(ms, idx, result, [e]);
    UnderExtend(chain, result, sel, [e]);
  }

  /** Emitting all children of the last chain element keeps the walk's invariant. */
  lemma StepExpand(ms: seq<Msg>, idx: Index, chain: seq<Msg>, result: seq<Entry>, kids: seq<Msg>, depth: nat,
                    result': seq<Entry>)
    requires Keyed(ms, idx.byId) && ThreadInv(ms, idx, chain, result)
    requires chain != [] && SiblingList(ms, idx, kids, Some(chain[|chain| - 1])) && |kids| > 1
    requires result' == result + ChildEntries(kids, depth)
    ensures ThreadInv(ms, idx, chain + [kids[|kids| - 1]], result')
  {
    var lastKid := kids[|kids| - 1];
    assert lastKid in kids;
    ChildIsNew(ms, idx, chain, result, lastKid);
    PathExtend(ms, idx.byId, chain, lastKid);
    ExpandPlaced(ms, idx, chain, result, kids, depth);
    ExpandLinked(result, kids, depth, chain[|chain| - 1]);
    ExpandUnder(chain, result, kids, depth);
    ChildEntriesUpToAt(kids, depth, |kids|, |kids| - 1);
  }

  lemma ExpandPlaced(ms: seq<Msg>, idx: Index, chain: seq<Msg>, result: seq<Entry>, kids: seq<Msg>, depth: nat)
    requires Keyed(ms, idx.byId) && ThreadInv(ms, idx, chain, result)
    requires chain != [] && SiblingList(ms, idx, kids, Some(chain[|chain| - 1]))
    ensures EntriesPlaced(ms, idx, result + ChildEntries(kids, depth))
  {
    var extra := ChildEntries(kids, depth);
    ChildEntriesAt(kids, depth);
    forall t | 0 <= t < |kids| ensures FreshId(result, extra[t].msg.id) && extra[t].msg in ms && PlacedIn(idx, extra[t]) {
      ChildPlaced(ms, idx, chain, result, kids, t, extra[t]);
    }
    assert DistinctEntries(extra) by {
      forall a, b | 0 <= a < b < |extra| ensures extra[a].msg.id != extra[b].msg.id {
        assert extra[a].msg == kids[a] && extra[b].msg == kids[b];
      }
    }
    EntriesExtend(ms, idx, result, extra);
  }

  /** The entry emitted for the `t`-th child of the chain's last message is fresh, an input message and well placed. */
  lemma ChildPlaced(ms: seq<Msg>, idx: Index, chain: seq<Msg>, result: seq<Entry>, kids: seq<Msg>, t: nat, e: Entry)
    requires Keyed(ms, idx.byId) && ThreadInv(ms, idx, chain, result)
    requires chain != [] && SiblingList(ms, idx, kids, Some(chain[|chain| - 1]))
    requires t < |kids| && e.msg == kids[t] && e.branchIndex == t + 1 && e.totalBranches == |kids|
    ensures FreshId(result, e.msg.id) && e.msg in ms && PlacedIn(idx, e)
  {
    assert kids[t] in kids;
    ChildIsNew(ms, idx, chain, result, kids[t]);
  }

  lemma ExpandLinked(result: seq<Entry>, kids: seq<Msg>, depth: nat, parent: Msg)
    requires result != [] && AllParentsEmittedBefore(result) && result[|result| - 1].msg == parent
    requires forall c :: c in kids ==> c.parentId == Some(parent.id)
    ensures AllParentsEmittedBefore(result + ChildEntries(kids, depth))
  {
    var extra := ChildEntries(kids, depth);
    ChildEntriesAt(kids, depth);
    forall t | 0 <= t < |kids| ensures extra[t].msg.parentId == Some(result[|result| - 1].msg.id) {
      assert kids[t] in kids;
    }
    LinkedExtend(result, extra);
  }

  lemma ExpandUnder(chain: seq<Msg>, result: seq<Entry>, kids: seq<Msg>, depth: nat)
    requires chain != [] && EntriesUnderChain(chain, result)
    requires forall c :: c in kids ==> c.parentId == Some(chain[|chain| - 1].id)
    requires kids != []
    ensures EntriesUnderChain(chain + [kids[|kids| - 1]], result + ChildEntries(kids, depth))
  {
    var extra := ChildEntries(kids, depth);
    ChildEntriesAt(kids, depth);
    forall t | 0 <= t < |kids| ensures extra[t].msg.parentId == Some(chain[|chain| - 1].id) {
      assert kids[t] in kids;
    }
    UnderExtend(chain, result, kids[|kids| - 1], extra);
  }

  /** Emitting the selected sibling and then all its children keeps the walk's invariant. */
  lemma StepSelectExpand(ms: seq<Msg>, idx: Index, chain: seq<Msg>, result: seq<Entry>, siblings: seq<Msg>,
                         i: nat, depth: nat, result': seq<Entry>)
    requires ListsComplete(ms, idx) && ThreadInv(ms, idx, chain, result)
    requires SiblingList(ms, idx, siblings, if chain == [] then None else Some(chain[|chain| - 1]))
    requires i < |siblings| && |ChildrenOrEmpty(idx, siblings[i].id)| > 1
    requires result' == result + [Entry(siblings[i], i + 1, |siblings|, depth)]
                        + ChildEntries(ChildrenOrEmpty(idx, siblings[i].id), depth + 1)
    ensures var kids := ChildrenOrEmpty(idx, siblings[i].id);
      ThreadInv(ms, idx, chain + [siblings[i]] + [kids[|kids| - 1]], result')
  {
    var sel := siblings[i];
    StepSelect(ms, idx, chain, result, siblings, i, depth);
    IndexSiblingLists(ms, idx, sel.id, sel);
    StepExpand(ms, idx, chain + [sel], result + [Entry(sel, i + 1, |siblings|, depth)],
               ChildrenOrEmpty(idx, sel.id), depth + 1, result');
  }

  /** `children.get(id) ?? []` over a children map. */
  function KidsIn(children: map<string, seq<Msg>>, id: string): seq<Msg> {
    if id in children then children[id] else []
  }

  /**
   * What one round of the walk emits: the sibling `path` selects at `depth`
   * (by default the newest), then, when it has several children, every one
   * of them.
   */
  function RoundEntries(children: map<string, seq<Msg>>, path: seq<int>, siblings: seq<Msg>, depth: nat): seq<Entry>
    requires siblings != []
  {
    var i := SelectIndex(path, depth, |siblings|);
    var kids := KidsIn(children, siblings[i].id);
    [Entry(siblings[i], i + 1, |siblings|, depth)] + (if |kids| > 1 then ChildEntries(kids, depth + 1) else [])
  }

  /** Where the next round looks: below the last child when the selected sibling has several, else below it. */
  function NextSiblings(children: map<string, seq<Msg>>, path: seq<int>, siblings: seq<Msg>, depth: nat): seq<Msg>
    requires siblings != []
  {
    var i := SelectIndex(path, depth, |siblings|);
    var kids := KidsIn(children, siblings[i].id);
    if |kids| > 1 then KidsIn(children, kids[|kids| - 1].id) else kids
  }

  /**
   * The thread the walk builds from `siblings` at `depth` over the children
   * lists, round after round until no siblings are left, for at most `fuel`
   * rounds.
   */
  function Walk(children: map<string, seq<Msg>>, path: seq<int>, siblings: seq<Msg>, depth: nat, fuel: nat): seq<Entry>
    decreases fuel
  {
    if siblings == [] || fuel == 0 then []
    else RoundEntries(children, path, siblings, depth)
         + Walk(children, path, NextSiblings(children, path, siblings, depth), depth + 1, fuel - 1)
  }

  /** The siblings the walk from `roots` holds at round `k` (none once they run out). */
  function SiblingsAfter(children: map<string, seq<Msg>>, path: seq<int>, roots: seq<Msg>, k: nat): seq<Msg>
    decreases k
  {
    if k == 0 then roots
    else
      var prev := SiblingsAfter(children, path, roots, k - 1);
      if |prev| == 0 then [] else NextSiblings(children, path, prev, k - 1)
  }

  /** The entries the walk from `roots` has emitted before round `k`. */
  function EntriesBefore(children: map<string, seq<Msg>>, path: seq<int>, roots: seq<Msg>, k: nat): seq<Entry>
    decreases k
  {
    if k == 0 then []
    else
      var prev := SiblingsAfter(children, path, roots, k - 1);
      EntriesBefore(children, path, roots, k - 1) + (if |prev| == 0 then [] else RoundEntries(children, path, prev, k - 1))
  }

  /**
   * Round by round and the walk as a whole agree: when the siblings first run
   * out at round `rounds`, within `fuel`, the entries emitted so far are `Walk`.
   */
  lemma WalkByRounds(children: map<string, seq<Msg>>, path: seq<int>, roots: seq<Msg>, rounds: nat, fuel: nat)
    requires rounds <= fuel
    requires SiblingsAfter(children, path, roots, rounds) == []
    requires forall k :: 0 <= k < rounds ==> SiblingsAfter(children, path, roots, k) != []
    ensures EntriesBefore(children, path, roots, rounds) == Walk(children, path, roots, 0, fuel)
  {
    WalkRest(children, path, roots, rounds, 0, fuel);
    assert [] + Walk(children, path, roots, 0, fuel) == Walk(children, path, roots, 0, fuel);
  }

  /** From round `j` on, with `left` rounds to go, what is still to come is the walk from the siblings held then. */
  lemma {:induction false} WalkRest(children: map<string, seq<Msg>>, path: seq<int>, roots: seq<Msg>,
                                    rounds: nat, j: nat, left: nat)
    requires j <= rounds <= j + left
    requires SiblingsAfter(children, path, roots, rounds) == []
    requires forall k :: 0 <= k < rounds ==> SiblingsAfter(children, path, roots, k) != []
    ensures EntriesBefore(children, path, roots, j) + Walk(children, path, SiblingsAfter(children, path, roots, j), j, left)
            == EntriesBefore(children, path, roots, rounds)
    decreases rounds - j
  {
    var here := SiblingsAfter(children, path, roots, j);
    if j == rounds {
      assert Walk(children, path, here, j, left) == [];
      assert EntriesBefore(children, path, roots, j) + [] == EntriesBefore(children, path, roots, j);
    } else {
      assert here != [];
      var j', left' := j + 1, left - 1;
      RoundStep(children, path, roots, j, j');
      WalkUnfold(children, path, here, j, left, SiblingsAfter(children, path, roots, j'), j', left');
      WalkRest(children, path, roots, rounds, j', left');
      JoinRounds(EntriesBefore(children, path, roots, j), Walk(children, path, here, j, left),
                 RoundEntries(children, path, here, j),
                 Walk(children, path, SiblingsAfter(children, path, roots, j'), j', left'),
                 EntriesBefore(children, path, roots, j'), EntriesBefore(children, path, roots, rounds));
    }
  }

  /** A round `j` that has siblings emits its entries and moves to the next siblings, those of round `j'`. */
  lemma RoundStep(children: map<string, seq<Msg>>, path: seq<int>, roots: seq<Msg>, j: nat, j': nat)
    requires j == j' - 1
    requires SiblingsAfter(children, path, roots, j) != []
    ensures SiblingsAfter(children, path, roots, j')
         == NextSiblings(children, path, SiblingsAfter(children, path, roots, j), j)
    ensures EntriesBefore(children, path, roots, j')
         == EntriesBefore(children, path, roots, j) + RoundEntries(children, path, SiblingsAfter(children, path, roots, j), j)
  {
    SiblingsStep(children, path, roots, j, j');
    EntriesStep(children, path, roots, j, j');
  }

  lemma SiblingsStep(children: map<string, seq<Msg>>, path: seq<int>, roots: seq<Msg>, j: nat, j': nat)
    requires j == j' - 1
    requires |SiblingsAfter(children, path, roots, j)| > 0
    ensures SiblingsAfter(children, path, roots, j')
         == NextSiblings(children, path, SiblingsAfter(children, path, roots, j), j)
  {
  }

  lemma EntriesStep(children: map<string, seq<Msg>>, path: seq<int>, roots: seq<Msg>, j: nat, j': nat)
    requires j == j' - 1
    requires |SiblingsAfter(children, path, roots, j)| > 0
    ensures EntriesBefore(children, path, roots, j')
         == EntriesBefore(children, path, roots, j) + RoundEntries(children, path, SiblingsAfter(children, path, roots, j), j)
  {
  }

  /** Every round before `n'` had siblings when every round before `n` did and round `n` does. */
  lemma RoundsHadSiblings(children: map<string, seq<Msg>>, path: seq<int>, roots: seq<Msg>, n: nat, n': nat)
    requires n' == n + 1
    requires forall k :: 0 <= k < n ==> SiblingsAfter(children, path, roots, k) != []
    requires SiblingsAfter(children, path, roots, n) != []
    ensures forall k :: 0 <= k < n' ==> SiblingsAfter(children, path, roots, k) != []
  {
  }

  /** The walk from non-empty siblings starts with their round and goes on from `next`. */
  lemma WalkUnfold(children: map<string, seq<Msg>>, path: seq<int>, siblings: seq<Msg>, depth: nat, fuel: nat,
                   next: seq<Msg>, depth': nat, fuel': nat)
    requires siblings != [] && depth' == depth + 1 && fuel' == fuel - 1
    requires next == NextSiblings(children, path, siblings, depth)
    ensures Walk(children, path, siblings, depth, fuel)
         == RoundEntries(children, path, siblings, depth) + Walk(children, path, next, depth', fuel')
  {
  }

  /** Sequence bookkeeping for one round: moving `round` from the walk still to come to the entries so far. */
  lemma JoinRounds(before: seq<Entry>, walk: seq<Entry>, round: seq<Entry>, rest: seq<Entry>,
                   after: seq<Entry>, total: seq<Entry>)
    requires walk == round + rest
    requires after == before + round
    requires after + rest == total
    ensures before + walk == total
  {
    assert before + (round + rest) == before + round + rest;
  }

  /** A round read through the index: the selected sibling, its children when several, and where the walk goes next. */
  lemma RoundShape(idx: Index, path: seq<int>, siblings: seq<Msg>, depth: nat, i: nat, kids: seq<Msg>)
    requires siblings != [] && i == SelectIndex(path, depth, |siblings|) && kids == ChildrenOrEmpty(idx, siblings[i].id)
    ensures RoundEntries(idx.children, path, siblings, depth)
         == [Entry(siblings[i], i + 1, |siblings|, depth)] + (if |kids| > 1 then ChildEntries(kids, depth + 1) else [])
    ensures NextSiblings(idx.children, path, siblings, depth)
         == if |kids| > 1 then ChildrenOrEmpty(idx, kids[|kids| - 1].id) else kids
  {
  }

  /** Two indexes of the same messages have the same roots and children lists. */
  lemma IndexListsDetermined(a: Index, b: Index, ms: seq<Msg>)
    requires IndexOf(a, ms) && IndexOf(b, ms)
    ensures a.roots == b.roots && a.children == b.children
  {
    assert a.children.Keys == b.children.Keys;
  }

  /**
   * The inner loop of `buildThreadFromMessages`: one entry per child, in
   * order. It computes `ChildEntries`, the list the walk appends.
   */
  method EmitChildren(result0: seq<Entry>, kids: seq<Msg>, depth: nat) returns (result: seq<Entry>)
    ensures result == result0 + ChildEntries(kids, depth)
  {
    result := result0;
    for childIndex := 0 to |kids|
      invariant result == result0 + ChildEntriesUpTo(kids, depth, childIndex)
    {
      result := result + [Entry(kids[childIndex], childIndex + 1, |kids|, depth)];
    }
  }

  /** The loop invariant of the walk: `siblings` are the candidates at `depth` below the chain. */
  ghost predicate WalkInv(ms: seq<Msg>, idx: Index, path: seq<int>, chain: seq<Msg>, result: seq<Entry>,
                          siblings: seq<Msg>, depth: nat) {
    && ThreadInv(ms, idx, chain, result)
    && (chain == [] ==> siblings == idx.roots && depth == 0)
    && (chain != [] ==> siblings == ChildrenOrEmpty(idx, chain[|chain| - 1].id))
    && StartsAtSelectedRoot(idx, path, result)
  }

  /** A round that selects a sibling with at most one child keeps the invariant and emits one entry. */
  lemma WalkSelect(ms: seq<Msg>, idx: Index, path: seq<int>, chain: seq<Msg>, result: seq<Entry>,
                   siblings: seq<Msg>, depth: nat, i: nat, result': seq<Entry>)
    requires ListsComplete(ms, idx)
    requires WalkInv(ms, idx, path, chain, result, siblings, depth)
    requires i < |siblings| && i == SelectIndex(path, depth, |siblings|)
    requires result' == result + [Entry(siblings[i], i + 1, |siblings|, depth)]
    ensures WalkInv(ms, idx, path, chain + [siblings[i]], result', ChildrenOrEmpty(idx, siblings[i].id), depth + 1)
    ensures |result| < |result'| <= |ms|
  {
    var sel := siblings[i];
    var e := Entry(sel, i + 1, |siblings|, depth);
    if chain == [] {
      IndexSiblingLists(ms, idx, sel.id, sel);
    } else {
      IndexSiblingLists(ms, idx, chain[|chain| - 1].id, chain[|chain| - 1]);
    }
    StepSelect(ms, idx, chain, result, siblings, i, depth);
    EntriesBounded(ms, result');
  }

  /** A round that selects a sibling with several children keeps the invariant and emits them all. */
  lemma WalkExpand(ms: seq<Msg>, idx: Index, path: seq<int>, chain: seq<Msg>, result: seq<Entry>,
                   siblings: seq<Msg>, depth: nat, i: nat, result': seq<Entry>, chain': seq<Msg>, siblings': seq<Msg>)
    requires ListsComplete(ms, idx)
    requires WalkInv(ms, idx, path, chain, result, siblings, depth)
    requires i < |siblings| && i == SelectIndex(path, depth, |siblings|)
    requires |ChildrenOrEmpty(idx, siblings[i].id)| > 1
    requires result' == result + [Entry(siblings[i], i + 1, |siblings|, depth)]
                        + ChildEntries(ChildrenOrEmpty(idx, siblings[i].id), depth + 1)
    requires var kids := ChildrenOrEmpty(idx, siblings[i].id);
      chain' == chain + [siblings[i]] + [kids[|kids| - 1]] && siblings' == ChildrenOrEmpty(idx, kids[|kids| - 1].id)
    ensures WalkInv(ms, idx, path, chain', result', siblings', depth + 1)
    ensures |result| < |result'| <= |ms|
  {
    var sel := siblings[i];
    var kids := ChildrenOrEmpty(idx, sel.id);
    var e := Entry(sel, i + 1, |siblings|, depth);
    if chain == [] {
      IndexSiblingLists(ms, idx, sel.id, sel);
    } else {
      IndexSiblingLists(ms, idx, chain[|chain| - 1].id, chain[|chain| - 1]);
    }
    StepSelectExpand(ms, idx, chain, result, siblings, i, depth, result');
    EntriesBounded(ms, result');
    assert result'[0] == (result + [e])[0];
  }

  /** The first entry is the root `path` selects (by default the newest), at depth 0. */
  predicate StartsAtSelectedRoot(idx: Index, path: seq<int>, result: seq<Entry>) {
    result != [] ==>
      |idx.roots| > 0 && result[0].msg == idx.roots[SelectIndex(path, 0, |idx.roots|)] && result[0].depth == 0
  }

  /** The last entry is a message without loaded children. */
  predicate EndsAtLeaf(idx: Index, result: seq<Entry>) {
    result != [] ==> ChildrenOrEmpty(idx, result[|result| - 1].msg.id) == []
  }

  /** When no candidates are left the walk's result has the promised shape, ending at a leaf. */
  lemma WalkDone(ms: seq<Msg>, idx: Index, path: seq<int>, chain: seq<Msg>, result: seq<Entry>, depth: nat)
    requires WalkInv(ms, idx, path, chain, result, [], depth)
    ensures result == [] <==> idx.roots == []
    ensures EntriesPlaced(ms, idx, result)
    ensures AllParentsEmittedBefore(result)
    ensures StartsAtSelectedRoot(idx, path, result)
    ensures EndsAtLeaf(idx, result)
  {
  }

  /**
   * One round of the walk: select a sibling by `path`; when it has several
   * children emit them all and continue below the last one, otherwise continue
   * below the selected sibling.
   */
  method WalkRound(idx: Index, path: seq<int>, result: seq<Entry>, siblings: seq<Msg>, depth: nat)
    returns (result': seq<Entry>, siblings': seq<Msg>)
    requires siblings != []
    ensures result' == result + RoundEntries(idx.children, path, siblings, depth)
    ensures siblings' == NextSiblings(idx.children, path, siblings, depth)
  {
    var i := SelectIndex(path, depth, |siblings|);
    var kids := ChildrenOrEmpty(idx, siblings[i].id);
    var e := Entry(siblings[i], i + 1, |siblings|, depth);
    RoundShape(idx, path, siblings, depth, i, kids);
    if |kids| > 1 {
      result' := EmitChildren(result + [e], kids, depth + 1);
      assert result + [e] + ChildEntries(kids, depth + 1) == result + ([e] + ChildEntries(kids, depth + 1));
      siblings' := ChildrenOrEmpty(idx, kids[|kids| - 1].id);
    } else {
      result' := result + [e];
      assert [e] + [] == [e];
      siblings' := kids;
    }
  }

  /**
   * A round keeps the walk's invariant, extending the chain by the selected
   * sibling (and its last child when it has several), and emits at least one
   * new entry, never more than the input holds.
   */
  lemma RoundKeepsInv(ms: seq<Msg>, idx: Index, path: seq<int>, chain: seq<Msg>, result: seq<Entry>,
                      siblings: seq<Msg>, depth: nat, result': seq<Entry>, siblings': seq<Msg>)
    returns (chain': seq<Msg>)
    requires ListsComplete(ms, idx)
    requires WalkInv(ms, idx, path, chain, result, siblings, depth) && siblings != []
    requires result' == result + RoundEntries(idx.children, path, siblings, depth)
    requires siblings' == NextSiblings(idx.children, path, siblings, depth)
    ensures WalkInv(ms, idx, path, chain', result', siblings', depth + 1)
    ensures |result| < |result'| <= |ms|
  {
    var i := SelectIndex(path, depth, |siblings|);
    var sel := siblings[i];
    var kids := ChildrenOrEmpty(idx, sel.id);
    RoundCases(idx, path, siblings, depth, result, result', siblings');
    if |kids| > 1 {
      chain' := chain + [sel] + [kids[|kids| - 1]];
      WalkExpand(ms, idx, path, chain, result, siblings, depth, i, result', chain', siblings');
    } else {
      chain' := chain + [sel];
      WalkSelect(ms, idx, path, chain, result, siblings, depth, i, result');
    }
  }

  /** The two kinds of round, with what each appends and where the next round looks. */
  lemma RoundCases(idx: Index, path: seq<int>, siblings: seq<Msg>, depth: nat,
                   result: seq<Entry>, result': seq<Entry>, siblings': seq<Msg>)
    requires siblings != []
    requires result' == result + RoundEntries(idx.children, path, siblings, depth)
    requires siblings' == NextSiblings(idx.children, path, siblings, depth)
    ensures var i := SelectIndex(path, depth, |siblings|);
      var kids := ChildrenOrEmpty(idx, siblings[i].id);
      var e := Entry(siblings[i], i + 1, |siblings|, depth);
      && (|kids| > 1 ==> result' == result + [e] + ChildEntries(kids, depth + 1)
                         && siblings' == ChildrenOrEmpty(idx, kids[|kids| - 1].id))
      && (|kids| <= 1 ==> result' == result + [e] && siblings' == kids)
  {
    var i := SelectIndex(path, depth, |siblings|);
    var kids := ChildrenOrEmpty(idx, siblings[i].id);
    var e := Entry(siblings[i], i + 1, |siblings|, depth);
    RoundShape(idx, path, siblings, depth, i, kids);
    if |kids| > 1 {
      assert result + ([e] + ChildEntries(kids, depth + 1)) == result + [e] + ChildEntries(kids, depth + 1);
    } else {
      assert [e] + [] == [e];
    }
  }

  /**
   * The loop of `buildThreadFromMessages`: walk down from the roots choosing one
   * sibling per level by `path` (default: the newest); a node with several
   * children has all of them emitted and the walk continues below the last one.
   */
  method WalkThread(ms: seq<Msg>, idx: Index, path: seq<int>) returns (result: seq<Entry>)
    requires ListsComplete(ms, idx)
    ensures result == [] <==> idx.roots == []
    ensures EntriesPlaced(ms, idx, result)
    ensures AllParentsEmittedBefore(result)
    ensures StartsAtSelectedRoot(idx, path, result)
    ensures EndsAtLeaf(idx, result)
    ensures result == Walk(idx.children, path, idx.roots, 0, |ms|)
  {
    result := [];
    var siblings := idx.roots;
    var depth: nat := 0;
    ghost var chain: seq<Msg> := [];
    while |siblings| > 0
      invariant WalkInv(ms, idx, path, chain, result, siblings, depth)
      invariant depth <= |result| <= |ms|
      invariant siblings == SiblingsAfter(idx.children, path, idx.roots, depth)
      invariant result == EntriesBefore(idx.children, path, idx.roots, depth)
      invariant forall k :: 0 <= k < depth ==> SiblingsAfter(idx.children, path, idx.roots, k) != []
      decreases |ms| - |result|
    {
      ghost var (result0, siblings0, depth0) := (result, siblings, depth);
      result, siblings := WalkRound(idx, path, result, siblings, depth);
      chain := RoundKeepsInv(ms, idx, path, chain, result0, siblings0, depth0, result, siblings);
      depth := depth + 1;
      RoundStep(idx.children, path, idx.roots, depth0, depth);
      RoundsHadSiblings(idx.children, path, idx.roots, depth0, depth);
    }
    WalkDone(ms, idx, path, chain, result, depth);
    WalkByRounds(idx.children, path, idx.roots, depth, |ms|);
  }

  /**
   * `buildThreadFromMessages`: no messages give no thread; otherwise the index
   * (the one passed in, or a fresh one) is walked from the roots.
   */
  method BuildThreadFromMessages(ms: seq<Msg>, path: seq<int>, idxOverride: Option<Index>)
    returns (result: seq<Entry>)
    requires UniqueIds(ms)
    requires idxOverride.Some? ==> IndexOf(idxOverride.value, ms)
    ensures ms == [] ==> result == []
    ensures ms != [] ==> (result == [] <==> RootsIn(ms, ById(ms)) == [])
    ensures ThreadPlaced(ms, result)
    ensures AllParentsEmittedBefore(result)
    ensures result != [] ==>
      (var roots := SortedSiblings(RootsIn(ms, ById(ms)));
       |roots| > 0 && result[0].msg == roots[SelectIndex(path, 0, |roots|)] && result[0].depth == 0)
    ensures result != [] ==> ChildrenIn(ms, ById(ms), result[|result| - 1].msg.id) == []
    ensures ms != [] ==> forall other :: IndexOf(other, ms) ==> result == Walk(other.children, path, other.roots, 0, |ms|)
  {
    if ms == [] {
      return [];
    }
    var idx: Index;
    if idxOverride.Some? {
      idx := idxOverride.value;
    } else {
      idx := IndexChatMessages(ms);
    }
    IndexListsComplete(ms, idx);
    result := WalkThread(ms, idx, path);
    WalkedThread(ms, idx, path, result);
    ThreadDetermined(ms, idx, path, result);
  }

  /** The index of a list of messages is unique, so the walk over it, and the thread, depend on the messages alone. */
  lemma ThreadDetermined(ms: seq<Msg>, idx: Index, path: seq<int>, result: seq<Entry>)
    requires IndexOf(idx, ms)
    requires result == Walk(idx.children, path, idx.roots, 0, |ms|)
    ensures forall other :: IndexOf(other, ms) ==> result == Walk(other.children, path, other.roots, 0, |ms|)
  {
    forall other | IndexOf(other, ms)
      ensures result == Walk(other.children, path, other.roots, 0, |ms|)
    {
      IndexListsDetermined(other, idx, ms);
    }
  }

  /** What the walk promises over an index of the messages, restated over the messages themselves. */
  lemma WalkedThread(ms: seq<Msg>, idx: Index, path: seq<int>, result: seq<Entry>)
    requires UniqueIds(ms) && IndexOf(idx, ms)
    requires result == [] <==> idx.roots == []
    requires EntriesPlaced(ms, idx, result)
    requires StartsAtSelectedRoot(idx, path, result)
    requires EndsAtLeaf(idx, result)
    ensures result == [] <==> RootsIn(ms, ById(ms)) == []
    ensures ThreadPlaced(ms, result)
    ensures result != [] ==>
      (var roots := SortedSiblings(RootsIn(ms, ById(ms)));
       |roots| > 0 && result[0].msg == roots[SelectIndex(path, 0, |roots|)] && result[0].depth == 0)
    ensures result != [] ==> ChildrenIn(ms, ById(ms), result[|result| - 1].msg.id) == []
  {
    PlacedThroughIndex(ms, idx, result);
    if result != [] {
      var leaf := result[|result| - 1].msg;
      IndexLists(idx, ms, leaf.id);
      assert |multiset(ChildrenIn(ms, idx.byId, leaf.id))| == 0;
    } else {
      assert |multiset(RootsIn(ms, idx.byId))| == 0;
    }
  }
}
