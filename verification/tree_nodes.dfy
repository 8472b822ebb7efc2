/** Nodes of the concurrent B+-tree map (distcache/concurrent_map.h and
    concurrent_map_impl.h) as they stand in the arena that `allocate_node`
    hands out, together with the purely sequential facts about one node. */
module TreeNodes {

  /** A node pointer is the index that `available_node_index` returned for it. */
  type Ptr = int
  const NULL: Ptr := -1

  /** Nobody holds the node's lock. */
  const FREE: int := -1

  /** Values are compared by identity only; the words of a value are the subject of `SeqLock`. */
  type Val = int

  /** Keys are the 128-bit numbers that `Keys.Rank` assigns to netreach keys. */
  const TOP: int := 0x1_0000_0000_0000_0000_0000_0000_0000_0000

  /** `node_capacity`: the fanout is one more. */
  const CAPACITY: nat := 15

  /** One node.  `level == 0` is `is_leaf`.  `keys`, `vals` and `kids` are the live
      prefixes of the arrays.  Four fields are auxiliary: `low` and `high` bound the keys the
      node is responsible for, `dirty` says that its arrays were modified and its version not
      yet incremented, and `pend` is the sibling it was split into while that sibling is not
      yet in any parent.  `owner` is the thread whose compare-and-swap set `locked`. */
  datatype Node = Node(
    level: nat, low: int, high: int,
    keys: seq<int>, vals: seq<Val>, kids: seq<Ptr>,
    next: Ptr, parent: Ptr,
    owner: int, version: nat, dirty: bool, pend: Ptr)

  ghost predicate Sorted(s: seq<int>) {
    forall i, j :: 0 <= i < j < |s| ==> s[i] < s[j]
  }

  ghost predicate Within(s: seq<int>, lo: int, hi: int) {
    forall i :: 0 <= i < |s| ==> lo <= s[i] < hi
  }

  function InsertAt<T>(s: seq<T>, i: nat, x: T): seq<T>
    requires i <= |s|
  {
    s[..i] + [x] + s[i..]
  }

  /** What `find_first_larger_than_or_equal_to` must return. */
  ghost predicate IsFirstGeq(s: seq<int>, k: int, r: int) {
    && 0 <= r <= |s|
    && (forall i :: 0 <= i < r ==> s[i] < k)
    && (forall i :: r <= i < |s| ==> s[i] >= k)
  }

  /** What `find_first_larger_than` must return. */
  ghost predicate IsFirstGt(s: seq<int>, k: int, r: int) {
    && 0 <= r <= |s|
    && (forall i :: 0 <= i < r ==> s[i] <= k)
    && (forall i :: r <= i < |s| ==> s[i] > k)
  }

  function FirstGeq(s: seq<int>, k: int): (r: nat)
    ensures r <= |s|
    ensures forall i :: 0 <= i < r ==> s[i] < k
    ensures r < |s| ==> s[r] >= k
  {
    if s == [] || s[0] >= k then 0 else 1 + FirstGeq(s[1..], k)
  }

  function FirstGt(s: seq<int>, k: int): (r: nat)
    ensures r <= |s|
    ensures forall i :: 0 <= i < r ==> s[i] <= k
    ensures r < |s| ==> s[r] > k
  {
    if s == [] || s[0] > k then 0 else 1 + FirstGt(s[1..], k)
  }

  /** Where `split_n_insert_leaf` cuts the sixteen entries of a full leaf with the new one in
      place: how many stay on the left (lines 253-285). */
  function LeafCut(keyN: nat, slot: nat): nat {
    var mid := if slot >= keyN / 2 && keyN / 2 < keyN - keyN / 2 then keyN / 2 + 1 else keyN / 2;
    var mid := if slot == keyN then keyN else mid;
    if slot >= mid then mid else mid + 1
  }

  /** Where the recursive branch cuts a full internal node: how many keys stay on the left;
      the next key moves up (lines 401-455). */
  function InnerCut(keyN: nat, slot: nat): nat {
    var mid := if slot < keyN / 2 && keyN / 2 > keyN - (keyN / 2 + 1) then keyN as int / 2 - 1 else keyN / 2;
    var mid := if slot == keyN then keyN - 1 else mid;
    if slot >= mid then if mid < 0 then 0 else mid else mid + 1
  }

  ghost predicate Live(ns: seq<Node>, p: Ptr) {
    0 <= p < |ns|
  }

  ghost predicate Shape(n: Node) {
    && 0 <= n.low < n.high <= TOP
    && |n.keys| <= CAPACITY && Sorted(n.keys) && Within(n.keys, n.low, n.high)
    && (n.level == 0 ==>
          && |n.vals| == |n.keys| && n.kids == []
          && (n.low > 0 ==> |n.keys| > 0 && n.keys[0] == n.low))
    && (n.level > 0 ==>
          && |n.keys| > 0 && |n.kids| == |n.keys| + 1 && n.vals == []
          && n.keys[0] > n.low)
  }

  /** The range of keys that child `j` of an internal node answers for. */
  function LowAt(n: Node, j: nat): int
    requires j <= |n.keys|
  {
    if j == 0 then n.low else n.keys[j - 1]
  }

  function HighAt(n: Node, j: nat): int
    requires j <= |n.keys|
  {
    if j == |n.keys| then n.high else n.keys[j]
  }

  /** The upper fence of a node together with the sibling it has not handed over yet. */
  function EHigh(ns: seq<Node>, p: Ptr): int
    requires 0 <= p < |ns|
  {
    if 0 <= ns[p].pend < |ns| then ns[ns[p].pend].high else ns[p].high
  }

  lemma FirstGeqIs(s: seq<int>, k: int)
    requires Sorted(s)
    ensures IsFirstGeq(s, k, FirstGeq(s, k))
  {
  }

  lemma FirstGtIs(s: seq<int>, k: int)
    requires Sorted(s)
    ensures IsFirstGt(s, k, FirstGt(s, k))
  {
  }

  lemma InsertAtIndex<T>(s: seq<T>, i: nat, x: T)
    requires i <= |s|
    ensures |InsertAt(s, i, x)| == |s| + 1
    ensures InsertAt(s, i, x)[i] == x
    ensures forall j :: 0 <= j < i ==> InsertAt(s, i, x)[j] == s[j]
    ensures forall j :: i < j <= |s| ==> InsertAt(s, i, x)[j] == s[j - 1]
  {
  }

  /** Inserting at the place the search returned keeps the keys sorted and in range. */
  lemma InsertSorted(s: seq<int>, i: nat, x: int, lo: int, hi: int)
    requires i <= |s| && Sorted(s) && Within(s, lo, hi) && lo <= x < hi
    requires i > 0 ==> s[i - 1] < x
    requires i < |s| ==> x < s[i]
    ensures Sorted(InsertAt(s, i, x)) && Within(InsertAt(s, i, x), lo, hi)
  {
    InsertAtIndex(s, i, x);
  }
}
