/** The tree as a whole: its invariant, the atomic changes that writers make to it
    (distcache/concurrent_map_impl.h:198-510), and the proof that each change keeps the
    invariant and respects what every other thread may rely on. */
module TreeOps {
  import opened TreeNodes

  /** `contents` is the abstract map: what the operations linearised so far have stored.
      `height` is the level of the topmost node. */
  datatype Tree = Tree(nodes: seq<Node>, root: Ptr, height: nat, contents: map<int, Val>)

  // ---------------------------------------------------------------- invariant

  ghost predicate KidOk(ns: seq<Node>, n: Node, j: int) {
    && 0 <= j <= |n.keys| && j < |n.kids|
    && Live(ns, n.kids[j])
    && ns[n.kids[j]].level + 1 == n.level
    && ns[n.kids[j]].low == LowAt(n, j)
    && EHigh(ns, n.kids[j]) == HighAt(n, j)
  }

  /** Separators bound the children exactly. */
  ghost predicate Routes(ns: seq<Node>, n: Node) {
    forall j :: 0 <= j < |n.kids| ==> KidOk(ns, n, j)
  }

  /** A sibling that no parent knows yet continues its left half. */
  ghost predicate PendOk(ns: seq<Node>, n: Node) {
    n.pend != NULL ==>
      && Live(ns, n.pend)
      && n.dirty && n.owner != FREE
      && ns[n.pend].dirty && ns[n.pend].owner == n.owner
      && ns[n.pend].pend == NULL && ns[n.pend].parent == NULL
      && ns[n.pend].level == n.level && ns[n.pend].low == n.high
  }

  /** Nodes of one level have disjoint ranges. */
  ghost predicate Apart(a: Node, b: Node) {
    a.level == b.level ==> a.high <= b.low || b.high <= a.low
  }

  ghost predicate HasKid(ns: seq<Node>, p: Ptr, c: Ptr)
    requires Live(ns, p)
  {
    c in ns[p].kids || (Live(ns, ns[p].pend) && c in ns[ns[p].pend].kids)
  }

  ghost predicate ParentOk(ns: seq<Node>, i: Ptr)
    requires Live(ns, i)
  {
    ns[i].parent != NULL ==>
      && Live(ns, ns[i].parent) && ns[ns[i].parent].level == ns[i].level + 1
      && HasKid(ns, ns[i].parent, i)
  }

  /** Every child of `i` points back at `i`. */
  ghost predicate KidsHome(ns: seq<Node>, i: Ptr)
    requires Live(ns, i)
  {
    forall j :: 0 <= j < |ns[i].kids| ==> Live(ns, ns[i].kids[j]) && ns[ns[i].kids[j]].parent == i
  }

  ghost predicate HomeOk(ns: seq<Node>, i: Ptr)
    requires Live(ns, i)
  {
    !ns[i].dirty ==> KidsHome(ns, i)
  }

  ghost predicate Attached(t: Tree, i: Ptr)
    requires Live(t.nodes, i)
  {
    t.nodes[i].parent != NULL || i == t.root
  }

  /** An unlocked node is at rest. */
  ghost predicate FreeOk(t: Tree, i: Ptr)
    requires Live(t.nodes, i)
  {
    t.nodes[i].owner == FREE ==> !t.nodes[i].dirty && t.nodes[i].pend == NULL && Attached(t, i)
  }

  ghost predicate NextExact(ns: seq<Node>, n: Node) {
    if n.next == NULL then n.high == TOP
    else Live(ns, n.next) && ns[n.next].level == 0 && ns[n.next].low == n.high
  }

  ghost predicate ChainOk(ns: seq<Node>, n: Node) {
    n.level == 0 ==>
      && (n.next != NULL ==> Live(ns, n.next) && ns[n.next].level == 0 && ns[n.next].low > n.low)
      && (!n.dirty ==> NextExact(ns, n))
  }

  /** A node that is, or was, the root. */
  ghost predicate RootLike(ns: seq<Node>, i: Ptr) {
    Live(ns, i) && ns[i].low == 0 && (ns[i].parent == NULL ==> EHigh(ns, i) == TOP)
  }

  ghost predicate LeafMatches(n: Node, m: map<int, Val>) {
    && |n.vals| == |n.keys|
    && (forall j :: 0 <= j < |n.keys| ==> n.keys[j] in m && m[n.keys[j]] == n.vals[j])
    && (forall k :: k in m && n.low <= k < n.high ==> k in n.keys)
  }

  /** The leaf agrees with the map except that it already holds `key`. */
  ghost predicate LeafAlmost(n: Node, m: map<int, Val>, key: int, val: Val) {
    && |n.vals| == |n.keys|
    && (forall j :: 0 <= j < |n.keys| && n.keys[j] != key ==> n.keys[j] in m && m[n.keys[j]] == n.vals[j])
    && (forall j :: 0 <= j < |n.keys| && n.keys[j] == key ==> n.vals[j] == val)
    && (forall k :: k in m && n.low <= k < n.high ==> k in n.keys)
    && (n.low <= key < n.high ==> key in n.keys)
  }

  ghost predicate MatchOk(n: Node, m: map<int, Val>) {
    n.level == 0 && !n.dirty ==> LeafMatches(n, m)
  }

  ghost predicate AllShape(ns: seq<Node>) {
    forall i :: 0 <= i < |ns| ==> Shape(ns[i])
  }

  ghost predicate AllRoutes(ns: seq<Node>) {
    forall i :: 0 <= i < |ns| ==> Routes(ns, ns[i])
  }

  ghost predicate AllPend(ns: seq<Node>) {
    forall i :: 0 <= i < |ns| ==> PendOk(ns, ns[i])
  }

  ghost predicate AllChain(ns: seq<Node>) {
    forall i :: 0 <= i < |ns| ==> ChainOk(ns, ns[i])
  }

  ghost predicate AllParent(ns: seq<Node>) {
    forall i :: 0 <= i < |ns| ==> ParentOk(ns, i)
  }

  ghost predicate AllHome(ns: seq<Node>) {
    forall i :: 0 <= i < |ns| ==> HomeOk(ns, i)
  }

  ghost predicate AllApart(ns: seq<Node>) {
    forall i, j {:trigger Apart(ns[i], ns[j])} :: 0 <= i < |ns| && 0 <= j < |ns| && i != j ==> Apart(ns[i], ns[j])
  }

  ghost predicate AllFree(t: Tree) {
    forall i :: 0 <= i < |t.nodes| ==> FreeOk(t, i)
  }

  ghost predicate AllMatch(ns: seq<Node>, m: map<int, Val>) {
    forall i :: 0 <= i < |ns| ==> MatchOk(ns[i], m)
  }

  ghost predicate NodesOk(ns: seq<Node>) {
    AllShape(ns) && AllRoutes(ns) && AllPend(ns) && AllChain(ns) && AllParent(ns) && AllHome(ns) && AllApart(ns)
  }

  ghost predicate RootOk(t: Tree) {
    && RootLike(t.nodes, t.root)
    && (forall i :: 0 <= i < |t.nodes| ==> t.nodes[i].level <= t.height)
    && (t.nodes[t.root].parent == NULL ==> t.nodes[t.root].level == t.height)
  }

  ghost predicate Ok(t: Tree) {
    NodesOk(t.nodes) && RootOk(t) && AllFree(t) && AllMatch(t.nodes, t.contents)
  }

  // ---------------------------------------------------------------- what other threads rely on

  /** A step of thread `u` may change node `a` into `b`. */
  ghost predicate NodeRely(u: int, a: Node, b: Node) {
    && a.level == b.level && a.low == b.low && a.version <= b.version
    && (a.parent != NULL ==> b.parent != NULL)
    // whoever sees the version unchanged and no modification under way has seen no modification
    && (b.version == a.version && !b.dirty ==>
          !a.dirty && a.high == b.high && a.keys == b.keys && a.kids == b.kids && a.next == b.next)
    // what another thread holds is left alone, except that its parent may be split
    && (a.owner != FREE && a.owner != u ==> b == a.(parent := b.parent) && (a.parent == NULL ==> b.parent == NULL))
    && (b.owner != FREE && b.owner != u ==> a.owner == b.owner)
  }

  ghost predicate ParentRely(u: int, ns: seq<Node>, ns': seq<Node>, i: Ptr)
    requires Live(ns, i) && Live(ns', i)
  {
    Live(ns, ns[i].parent) && ns[ns[i].parent].owner != FREE && ns[ns[i].parent].owner != u
    ==> ns'[i].parent == ns[i].parent
  }

  ghost predicate RangeRely(u: int, n: Node, m: map<int, Val>, m': map<int, Val>) {
    n.owner != FREE && n.owner != u && n.level == 0 ==>
      forall k :: n.low <= k < n.high ==> (k in m <==> k in m') && (k in m ==> m[k] == m'[k])
  }

  ghost predicate NodesRely(u: int, ns: seq<Node>, ns': seq<Node>) {
    && |ns| <= |ns'|
    && (forall i :: 0 <= i < |ns| ==> NodeRely(u, ns[i], ns'[i]))
    && (forall i :: 0 <= i < |ns| && ns'[i].parent == NULL ==> EHigh(ns', i) == EHigh(ns, i))
  }

  ghost predicate HeldRely(u: int, t: Tree, t': Tree)
    requires |t.nodes| <= |t'.nodes|
  {
    && (forall i :: 0 <= i < |t.nodes| ==> ParentRely(u, t.nodes, t'.nodes, i))
    && (forall i :: 0 <= i < |t.nodes| ==> RangeRely(u, t.nodes[i], t.contents, t'.contents))
    && (forall i :: 0 <= i < |t.nodes| && Attached(t, i) ==> Attached(t', i))
  }

  ghost predicate RootRely(u: int, t: Tree, t': Tree) {
    && Live(t.nodes, t.root) && Live(t'.nodes, t'.root)
    && (t.nodes[t.root].owner != FREE && t.nodes[t.root].owner != u ==> t'.root == t.root && t'.height == t.height)
    && (t'.root != t.root ==> t'.nodes[t'.root].owner == u)
    && t.contents.Keys <= t'.contents.Keys
  }

  ghost predicate Rely(u: int, t: Tree, t': Tree) {
    NodesRely(u, t.nodes, t'.nodes) && HeldRely(u, t, t') && RootRely(u, t, t')
  }

  // ---------------------------------------------------------------- frames

  /** `b` routes as `a` does. */
  ghost predicate SameRoute(a: Node, b: Node) {
    && a.level == b.level && a.low == b.low && a.high == b.high && a.kids == b.kids && a.pend == b.pend
    && (a.level > 0 ==> a.keys == b.keys)
  }

  ghost predicate AllSameRoute(ns: seq<Node>, ns': seq<Node>) {
    |ns| == |ns'| && forall i :: 0 <= i < |ns| ==> SameRoute(ns[i], ns'[i])
  }

  lemma RouteFrame(ns: seq<Node>, ns': seq<Node>)
    requires AllSameRoute(ns, ns')
    ensures forall i :: 0 <= i < |ns| ==> EHigh(ns', i) == EHigh(ns, i)
    ensures AllRoutes(ns) ==> AllRoutes(ns')
    ensures AllApart(ns) ==> AllApart(ns')
  {
    forall i | 0 <= i < |ns| ensures EHigh(ns', i) == EHigh(ns, i) {
      assert SameRoute(ns[i], ns'[i]);
      if Live(ns, ns[i].pend) { assert SameRoute(ns[ns[i].pend], ns'[ns[i].pend]); }
    }
    if AllRoutes(ns) {
      forall i | 0 <= i < |ns| ensures Routes(ns', ns'[i]) {
        assert SameRoute(ns[i], ns'[i]) && Routes(ns, ns[i]);
        forall j | 0 <= j < |ns'[i].kids| ensures KidOk(ns', ns'[i], j) {
          assert KidOk(ns, ns[i], j);
          assert SameRoute(ns[ns[i].kids[j]], ns'[ns[i].kids[j]]);
        }
      }
    }
    if AllApart(ns) {
      forall i, j | 0 <= i < |ns| && 0 <= j < |ns| && i != j ensures Apart(ns'[i], ns'[j]) {
        assert Apart(ns[i], ns[j]) && SameRoute(ns[i], ns'[i]) && SameRoute(ns[j], ns'[j]);
      }
    }
  }

  /** Parents of all nodes but `c` unchanged. */
  lemma ParentFrame(ns: seq<Node>, ns': seq<Node>, c: Ptr)
    requires AllSameRoute(ns, ns') && AllParent(ns)
    requires forall i :: 0 <= i < |ns| && i != c ==> ns'[i].parent == ns[i].parent
    ensures forall i :: 0 <= i < |ns'| && i != c ==> ParentOk(ns', i)
  {
    forall i | 0 <= i < |ns'| && i != c ensures ParentOk(ns', i) {
      assert ParentOk(ns, i) && SameRoute(ns[i], ns'[i]);
      HasKidFrame(ns, ns', ns[i].parent, i);
    }
  }

  lemma HasKidFrame(ns: seq<Node>, ns': seq<Node>, p: Ptr, c: Ptr)
    requires AllSameRoute(ns, ns')
    ensures Live(ns, p) && HasKid(ns, p, c) ==> Live(ns', p) && HasKid(ns', p, c)
  {
    if Live(ns, p) {
      assert SameRoute(ns[p], ns'[p]);
      if Live(ns, ns[p].pend) { assert SameRoute(ns[ns[p].pend], ns'[ns[p].pend]); }
    }
  }

  /** Changing one node without touching what routes keeps the routing part of the invariant. */
  lemma OneNodeFrame(ns: seq<Node>, i: Ptr, n: Node)
    requires Live(ns, i) && SameRoute(ns[i], n)
    requires AllRoutes(ns) && AllApart(ns) && AllShape(ns) && Shape(n)
    ensures AllRoutes(ns[i := n]) && AllApart(ns[i := n]) && AllShape(ns[i := n])
    ensures AllSameRoute(ns, ns[i := n])
    ensures forall j :: 0 <= j < |ns| ==> EHigh(ns[i := n], j) == EHigh(ns, j)
  {
    RouteFrame(ns, ns[i := n]);
  }

  lemma RootFrame(t: Tree, t': Tree)
    requires RootOk(t) && AllSameRoute(t.nodes, t'.nodes) && t'.root == t.root && t'.height == t.height
    requires forall i :: 0 <= i < |t.nodes| ==> t'.nodes[i].parent == t.nodes[i].parent
    ensures RootOk(t')
  {
    RouteFrame(t.nodes, t'.nodes);
    assert SameRoute(t.nodes[t.root], t'.nodes[t.root]);
    forall i | 0 <= i < |t'.nodes| ensures t'.nodes[i].level <= t'.height { assert SameRoute(t.nodes[i], t'.nodes[i]); }
  }

  /** One node replaced by another with the same routing and parent, and the abstract map changed
      in a way no other leaf can see. */
  lemma OneNodeKeeps(t: Tree, i: Ptr, n: Node, m: map<int, Val>)
    requires Ok(t) && Live(t.nodes, i) && SameRoute(t.nodes[i], n) && Shape(n)
    requires n.parent == t.nodes[i].parent
    requires PendOk(t.nodes, n) && ChainOk(t.nodes, n) && MatchOk(n, m)
    requires n.dirty || KidsHome(t.nodes, i)
    requires n.owner == FREE ==> !n.dirty && n.pend == NULL && Attached(t, i)
    requires forall j :: 0 <= j < |t.nodes| && j != i ==> MatchOk(t.nodes[j], m)
    requires (n.dirty && n.owner == t.nodes[i].owner) || (forall j :: 0 <= j < |t.nodes| ==> t.nodes[j].pend != i)
    requires n.pend != i
    ensures Ok(Tree(t.nodes[i := n], t.root, t.height, m))
  {
    var t' := Tree(t.nodes[i := n], t.root, t.height, m);
    var ns, ns' := t.nodes, t'.nodes;
    OneNodeFrame(ns, i, n);
    ParentFrame(ns, ns', NULL);
    RootFrame(t, t');
    forall j | 0 <= j < |ns| ensures PendOk(ns', ns'[j]) { assert PendOk(ns, ns[j]); }
    forall j | 0 <= j < |ns| ensures ChainOk(ns', ns'[j]) { assert ChainOk(ns, ns[j]); }
    forall j | 0 <= j < |ns| ensures HomeOk(ns', j) { assert HomeOk(ns, j); }
    forall j | 0 <= j < |ns| ensures FreeOk(t', j) { assert FreeOk(t, j); }
  }

  /** The same change seen by the other threads. */
  lemma OneNodeRely(t: Tree, i: Ptr, n: Node, m: map<int, Val>, u: int)
    requires Ok(t) && Live(t.nodes, i) && SameRoute(t.nodes[i], n) && n.parent == t.nodes[i].parent
    requires NodeRely(u, t.nodes[i], n) && t.contents.Keys <= m.Keys
    requires forall j :: 0 <= j < |t.nodes| ==> RangeRely(u, t.nodes[j], t.contents, m)
    ensures Rely(u, t, Tree(t.nodes[i := n], t.root, t.height, m))
  {
    var t' := Tree(t.nodes[i := n], t.root, t.height, m);
    forall j | 0 <= j < |t.nodes| ensures EHigh(t'.nodes, j) == EHigh(t.nodes, j) {}
  }

  // ---------------------------------------------------------------- lock and unlock

  function SetOwner(t: Tree, i: Ptr, o: int): Tree
    requires 0 <= i < |t.nodes|
  {
    t.(nodes := t.nodes[i := t.nodes[i].(owner := o)])
  }

  /** Only a node at rest may be released. */
  ghost predicate AtRest(t: Tree, i: Ptr, u: int) {
    Live(t.nodes, i) && t.nodes[i].owner == u && u != FREE && !t.nodes[i].dirty && t.nodes[i].pend == NULL &&
        Attached(t, i)
  }

  lemma LockKeeps(t: Tree, i: Ptr, u: int)
    requires Ok(t) && Live(t.nodes, i) && t.nodes[i].owner == FREE && u != FREE
    ensures Ok(SetOwner(t, i, u)) && Rely(u, t, SetOwner(t, i, u))
    ensures AtRest(SetOwner(t, i, u), i, u)
  {
    assert FreeOk(t, i);
    OwnerKeeps(t, i, u);
    OwnerRely(t, i, u, u);
  }

  lemma UnlockKeeps(t: Tree, i: Ptr, u: int)
    requires Ok(t) && AtRest(t, i, u)
    ensures Ok(SetOwner(t, i, FREE)) && Rely(u, t, SetOwner(t, i, FREE))
  {
    OwnerKeeps(t, i, FREE);
    OwnerRely(t, i, FREE, u);
  }

  lemma OwnerKeeps(t: Tree, i: Ptr, o: int)
    requires Ok(t) && Live(t.nodes, i) && !t.nodes[i].dirty && t.nodes[i].pend == NULL && Attached(t, i)
    ensures Ok(SetOwner(t, i, o))
  {
    assert HomeOk(t.nodes, i) && Shape(t.nodes[i]) && PendOk(t.nodes, t.nodes[i]) && ChainOk(t.nodes, t.nodes[i]) &&
        MatchOk(t.nodes[i], t.contents);
    forall j | 0 <= j < |t.nodes| ensures t.nodes[j].pend != i { NobodysPend(t, i, j); }
    OneNodeKeeps(t, i, t.nodes[i].(owner := o), t.contents);
  }

  lemma OwnerRely(t: Tree, i: Ptr, o: int, u: int)
    requires Ok(t) && Live(t.nodes, i) && t.nodes[i].owner in {FREE, u} && o in {FREE, u}
    ensures Rely(u, t, SetOwner(t, i, o))
  {
    OneNodeRely(t, i, t.nodes[i].(owner := o), t.contents, u);
  }

  // ---------------------------------------------------------------- changes to one leaf

  lemma OutsideMatch(n: Node, m: map<int, Val>, k: int, v: Val)
    requires Shape(n) && MatchOk(n, m) && !(n.low <= k < n.high)
    ensures MatchOk(n, m[k := v])
  {
  }

  /** Storing `k` in the abstract map is invisible to every leaf but the one responsible for it. */
  lemma OthersMatch(ns: seq<Node>, i: Ptr, m: map<int, Val>, k: int, v: Val)
    requires AllShape(ns) && AllApart(ns) && AllMatch(ns, m)
    requires Live(ns, i) && ns[i].level == 0 && ns[i].low <= k < ns[i].high
    ensures forall j :: 0 <= j < |ns| && j != i ==> MatchOk(ns[j], m[k := v])
  {
    forall j | 0 <= j < |ns| && j != i ensures MatchOk(ns[j], m[k := v]) {
      assert MatchOk(ns[j], m) && Shape(ns[j]) && Apart(ns[i], ns[j]);
      if ns[j].level == 0 { OutsideMatch(ns[j], m, k, v); }
    }
  }

  lemma OthersRange(ns: seq<Node>, i: Ptr, u: int, m: map<int, Val>, k: int, v: Val)
    requires AllApart(ns) && Live(ns, i) && ns[i].owner == u && ns[i].level == 0 && ns[i].low <= k < ns[i].high
    ensures forall j :: 0 <= j < |ns| ==> RangeRely(u, ns[j], m, m[k := v])
  {
    forall j | 0 <= j < |ns| ensures RangeRely(u, ns[j], m, m[k := v]) {
      if j != i { assert Apart(ns[i], ns[j]); }
    }
  }

  /** `vals[slot].update(val)` on a held leaf. */
  function ValUpdate(t: Tree, i: Ptr, slot: nat, val: Val): Tree
    requires 0 <= i < |t.nodes| && slot < |t.nodes[i].keys| && slot < |t.nodes[i].vals|
  {
    var n := t.nodes[i];
    t.(nodes := t.nodes[i := n.(vals := n.vals[slot := val])], contents := t.contents[n.keys[slot] := val])
  }

  lemma ValUpdateKeeps(t: Tree, i: Ptr, slot: nat, val: Val, u: int)
    requires Ok(t) && AtRest(t, i, u) && t.nodes[i].level == 0
    requires slot < |t.nodes[i].keys| && slot < |t.nodes[i].vals|
    ensures Ok(ValUpdate(t, i, slot, val)) && Rely(u, t, ValUpdate(t, i, slot, val))
  {
    var n, k, m := t.nodes[i], t.nodes[i].keys[slot], t.contents[t.nodes[i].keys[slot] := val];
    var n' := n.(vals := n.vals[slot := val]);
    assert HomeOk(t.nodes, i) && Shape(n) && MatchOk(n, t.contents) && ChainOk(t.nodes, n);
    OthersMatch(t.nodes, i, t.contents, k, val);
    OthersRange(t.nodes, i, u, t.contents, k, val);
    forall j | 0 <= j < |t.nodes| ensures t.nodes[j].pend != i { NobodysPend(t, i, j); }
    assert LeafMatches(n', m);
    OneNodeKeeps(t, i, n', m);
    OneNodeRely(t, i, n', m, u);
  }

  /** The in-place branch of `insert_leaf`: make room at `slot` and store the entry. */
  function LeafInsert(t: Tree, i: Ptr, slot: nat, key: int, val: Val): Tree
    requires 0 <= i < |t.nodes| && slot <= |t.nodes[i].keys| && slot <= |t.nodes[i].vals|
  {
    var n := t.nodes[i];
    t.(nodes := t.nodes[i := n.(keys := InsertAt(n.keys, slot, key), vals := InsertAt(n.vals, slot, val),
        dirty := true)])
  }

  /** The new key lands in this held leaf, at this slot. */
  ghost predicate FitsLeaf(t: Tree, i: Ptr, slot: nat, key: int, u: int) {
    && AtRest(t, i, u) && t.nodes[i].level == 0
    && t.nodes[i].low <= key < t.nodes[i].high
    && IsFirstGeq(t.nodes[i].keys, key, slot) && key !in t.nodes[i].keys
    && |t.nodes[i].vals| == |t.nodes[i].keys|
  }

  /** The keys of a leaf with the new one in place. */
  lemma WidenedKeys(n: Node, slot: nat, key: int)
    requires Shape(n) && n.level == 0 && n.low <= key < n.high
    requires IsFirstGeq(n.keys, key, slot) && key !in n.keys
    ensures Sorted(InsertAt(n.keys, slot, key)) && Within(InsertAt(n.keys, slot, key), n.low, n.high)
    ensures n.low > 0 ==> InsertAt(n.keys, slot, key)[0] == n.low
  {
    if slot > 0 { assert n.keys[slot - 1] < key; }
    if slot < |n.keys| { assert key < n.keys[slot]; }
    InsertSorted(n.keys, slot, key, n.low, n.high);
  }

  lemma InsertAtMember<T>(s: seq<T>, i: nat, x: T, k: T)
    requires i <= |s|
    ensures k in InsertAt(s, i, x) <==> k in s || k == x
  {
    InsertAtIndex(s, i, x);
    if k in s {
      var j :| 0 <= j < |s| && s[j] == k;
      assert InsertAt(s, i, x)[if j < i then j else j + 1] == k;
    }
  }

  /** The entries of a leaf with the new one in place. */
  lemma WidenedLeaf(n: Node, m: map<int, Val>, slot: nat, key: int, val: Val)
    requires LeafMatches(n, m) && slot <= |n.keys| && n.low <= key < n.high && key !in n.keys
    ensures key !in m
    ensures LeafAlmost(n.(keys := InsertAt(n.keys, slot, key), vals := InsertAt(n.vals, slot, val)), m, key, val)
  {
    var w := n.(keys := InsertAt(n.keys, slot, key), vals := InsertAt(n.vals, slot, val));
    InsertAtIndex(n.keys, slot, key);
    InsertAtIndex(n.vals, slot, val);
    forall j | 0 <= j < |w.keys| && w.keys[j] != key ensures w.keys[j] in m && m[w.keys[j]] == w.vals[j] {
      var i := if j < slot then j else j - 1;
      assert n.keys[i] in m && m[n.keys[i]] == n.vals[i];
    }
    forall k | k in m && n.low <= k < n.high ensures k in w.keys { InsertAtMember(n.keys, slot, key, k); }
    InsertAtMember(n.keys, slot, key, key);
  }

  lemma LeafInsertKeeps(t: Tree, i: Ptr, slot: nat, key: int, val: Val, u: int)
    requires Ok(t) && FitsLeaf(t, i, slot, key, u) && |t.nodes[i].keys| < CAPACITY
    ensures Ok(LeafInsert(t, i, slot, key, val)) && Rely(u, t, LeafInsert(t, i, slot, key, val))
    ensures key !in t.contents
    ensures LeafAlmost(LeafInsert(t, i, slot, key, val).nodes[i], t.contents, key, val)
    ensures NextExact(LeafInsert(t, i, slot, key, val).nodes, LeafInsert(t, i, slot, key, val).nodes[i])
  {
    var n := t.nodes[i];
    var n' := n.(keys := InsertAt(n.keys, slot, key), vals := InsertAt(n.vals, slot, val), dirty := true);
    assert Shape(n) && MatchOk(n, t.contents) && ChainOk(t.nodes, n);
    WidenedKeys(n, slot, key);
    WidenedLeaf(n, t.contents, slot, key, val);
    OneNodeKeeps(t, i, n', t.contents);
    OneNodeRely(t, i, n', t.contents, u);
  }

  /** `version++` on a held node.  For a leaf this is where its new key becomes visible, so the
      abstract map receives it here. */
  function Bump(t: Tree, i: Ptr, key: int, val: Val): Tree
    requires 0 <= i < |t.nodes|
  {
    var n := t.nodes[i];
    t.(nodes := t.nodes[i := n.(version := n.version + 1, dirty := false)],
       contents := if n.level == 0 && n.low <= key < n.high then t.contents[key := val] else t.contents)
  }

  ghost predicate Bumpable(t: Tree, i: Ptr, key: int, val: Val, u: int) {
    && Live(t.nodes, i) && t.nodes[i].owner == u && u != FREE && t.nodes[i].pend == NULL && Attached(t, i)
    && KidsHome(t.nodes, i)
    && (t.nodes[i].level == 0 ==> NextExact(t.nodes, t.nodes[i]) && LeafAlmost(t.nodes[i], t.contents, key, val))
  }

  lemma NobodysPend(t: Tree, i: Ptr, j: Ptr)
    requires Ok(t) && Live(t.nodes, i) && Attached(t, i) && Live(t.nodes, j)
    ensures t.nodes[j].pend != i
  {
    assert PendOk(t.nodes, t.nodes[j]) && Shape(t.nodes[j]);
  }

  lemma BumpKeeps(t: Tree, i: Ptr, key: int, val: Val, u: int)
    requires Ok(t) && Bumpable(t, i, key, val, u)
    ensures Ok(Bump(t, i, key, val)) && AtRest(Bump(t, i, key, val), i, u)
  {
    var n, n', m := t.nodes[i], Bump(t, i, key, val).nodes[i], Bump(t, i, key, val).contents;
    assert Shape(n) && ChainOk(t.nodes, n);
    if n.level == 0 && n.low <= key < n.high { OthersMatch(t.nodes, i, t.contents, key, val); }
    forall j | 0 <= j < |t.nodes| ensures t.nodes[j].pend != i { NobodysPend(t, i, j); }
    OneNodeKeeps(t, i, n', m);
  }

  lemma BumpRely(t: Tree, i: Ptr, key: int, val: Val, u: int)
    requires Ok(t) && Bumpable(t, i, key, val, u)
    ensures Rely(u, t, Bump(t, i, key, val))
  {
    var n, n', m := t.nodes[i], Bump(t, i, key, val).nodes[i], Bump(t, i, key, val).contents;
    if n.level == 0 && n.low <= key < n.high { OthersRange(t.nodes, i, u, t.contents, key, val); }
    OneNodeRely(t, i, n', m, u);
  }
}
