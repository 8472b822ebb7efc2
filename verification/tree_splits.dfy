/** Splitting: the steps of `split_n_insert_leaf` (distcache/concurrent_map_impl.h:244-510) that
    create a sibling, link it, and hand it to the parent, splitting upwards when the parent is full. */
module TreeSplits {
  import opened TreeNodes
  import opened TreeOps

  /** Thread `u` has split `n` into `n` and `s`, and no parent knows `s` yet. */
  ghost predicate Splitting(t: Tree, n: Ptr, s: Ptr, u: int) {
    SplitCore(t, n, s, u) && KidsHome(t.nodes, n) && KidsHome(t.nodes, s)
  }

  ghost predicate SplitCore(t: Tree, n: Ptr, s: Ptr, u: int) {
    && u != FREE
    && Live(t.nodes, n) && t.nodes[n].owner == u && t.nodes[n].dirty && t.nodes[n].pend == s && Attached(t, n)
    && Live(t.nodes, s) && t.nodes[s].owner == u && t.nodes[s].dirty && t.nodes[s].pend == NULL &&
        t.nodes[s].parent == NULL
    && t.nodes[s].level == t.nodes[n].level && t.nodes[s].low == t.nodes[n].high
    && Shared(t.nodes[n], t.nodes[s])
  }

  /** The entries of a full node and the new one, shared out; between inner nodes one key has moved up. */
  ghost predicate Shared(a: Node, b: Node) {
    |a.keys| > 0 && |b.keys| > 0 && |a.keys| + |b.keys| == if a.level == 0 then CAPACITY + 1 else CAPACITY
  }

  // ---------------------------------------------------------------- leaf level

  /** A leaf that may hold one key too many. */
  ghost predicate WideLeaf(w: Node) {
    && 0 <= w.low < w.high <= TOP && w.level == 0 && w.kids == []
    && Sorted(w.keys) && Within(w.keys, w.low, w.high) && |w.vals| == |w.keys| <= CAPACITY + 1
    && (w.low > 0 ==> |w.keys| > 0 && w.keys[0] == w.low)
  }

  function LeftHalf(w: Node, cut: nat): Node
    requires cut < |w.keys| && cut <= |w.vals|
  {
    w.(keys := w.keys[..cut], vals := w.vals[..cut], high := w.keys[cut])
  }

  function RightHalf(w: Node, cut: nat): Node
    requires cut < |w.keys| && cut <= |w.vals|
  {
    w.(keys := w.keys[cut..], vals := w.vals[cut..], low := w.keys[cut])
  }

  /** The leaf with the new entry in place, one too many for its arrays. */
  function WithEntry(a: Node, slot: nat, key: int, val: Val): Node
    requires slot <= |a.keys| && slot <= |a.vals|
  {
    a.(keys := InsertAt(a.keys, slot, key), vals := InsertAt(a.vals, slot, val))
  }

  /** Lines 248-287: cut the widened leaf and hand the upper part to a fresh, locked sibling. */
  function LeafSplit(t: Tree, n: Ptr, slot: nat, key: int, val: Val): Tree
    requires 0 <= n < |t.nodes| && slot <= |t.nodes[n].keys| == |t.nodes[n].vals|
    requires LeafCut(|t.nodes[n].keys|, slot) <= |t.nodes[n].keys|
  {
    var w, cut := WithEntry(t.nodes[n], slot, key, val), LeafCut(|t.nodes[n].keys|, slot);
    t.(nodes := t.nodes[n := LeftHalf(w, cut).(dirty := true, pend := |t.nodes|)]
       + [RightHalf(w, cut).(dirty := true, pend := NULL, parent := NULL, version := 0)])
  }

  lemma HalvesShape(w: Node, cut: nat)
    requires WideLeaf(w) && 0 < cut < |w.keys|
    ensures Shape(LeftHalf(w, cut)) && Shape(RightHalf(w, cut))
  {
    assert w.low <= w.keys[0] < w.keys[cut];
  }

  lemma LeftAlmost(w: Node, m: map<int, Val>, key: int, val: Val, cut: nat)
    requires WideLeaf(w) && LeafAlmost(w, m, key, val) && 0 < cut < |w.keys|
    ensures LeafAlmost(LeftHalf(w, cut), m, key, val)
  {
    var l := LeftHalf(w, cut);
    forall k | k in w.keys && k < w.keys[cut] ensures k in l.keys {
      var j :| 0 <= j < |w.keys| && w.keys[j] == k;
      assert j < cut && l.keys[j] == k;
    }
  }

  lemma RightAlmost(w: Node, m: map<int, Val>, key: int, val: Val, cut: nat)
    requires WideLeaf(w) && LeafAlmost(w, m, key, val) && 0 < cut < |w.keys|
    ensures LeafAlmost(RightHalf(w, cut), m, key, val)
  {
    var r := RightHalf(w, cut);
    forall k | k in w.keys && k >= w.keys[cut] ensures k in r.keys {
      var j :| 0 <= j < |w.keys| && w.keys[j] == k;
      assert j >= cut && r.keys[j - cut] == k;
    }
  }

  /** Appending a node and changing one: what a node says about the others is unaffected as long
      as ranges, levels and parents agree. */
  lemma GrowRoutes(ns: seq<Node>, ns': seq<Node>, i: Ptr)
    requires |ns| <= |ns'| && Live(ns, i) && Routes(ns, ns[i])
    requires ns'[i].kids == ns[i].kids && ns'[i].keys == ns[i].keys && ns'[i].low == ns[i].low &&
      ns'[i].high == ns[i].high && ns'[i].level == ns[i].level
    requires forall j :: 0 <= j < |ns| ==> ns'[j].level == ns[j].level && ns'[j].low == ns[j].low
    requires forall j ::
      0 <= j < |ns[i].kids| && Live(ns, ns[i].kids[j]) ==> EHigh(ns', ns[i].kids[j]) == EHigh(ns, ns[i].kids[j])
    ensures Routes(ns', ns'[i])
  {
    forall j | 0 <= j < |ns'[i].kids| ensures KidOk(ns', ns'[i], j) { assert KidOk(ns, ns[i], j); }
  }

  lemma LeafCutBounds(slot: nat)
    requires slot <= CAPACITY
    ensures 0 < LeafCut(CAPACITY, slot) <= CAPACITY
  {
  }

  lemma Halves(a: Node, m: map<int, Val>, slot: nat, key: int, val: Val, cut: nat)
    requires Shape(a) && a.level == 0 && LeafMatches(a, m) && a.low <= key < a.high && key !in a.keys
    requires IsFirstGeq(a.keys, key, slot) && 0 < cut <= |a.keys|
    ensures var w := WithEntry(a, slot, key, val);
            && Shape(LeftHalf(w, cut)) && LeafAlmost(LeftHalf(w, cut), m, key, val)
            && Shape(RightHalf(w, cut)) && LeafAlmost(RightHalf(w, cut), m, key, val)
    ensures key !in m
  {
    var w := WithEntry(a, slot, key, val);
    WidenedKeys(a, slot, key);
    WidenedLeaf(a, m, slot, key, val);
    assert WideLeaf(w);
    HalvesShape(w, cut);
    LeftAlmost(w, m, key, val, cut);
    RightAlmost(w, m, key, val, cut);
  }

  lemma LeafSplitHalves(t: Tree, n: Ptr, slot: nat, key: int, val: Val)
    requires Live(t.nodes, n) && Shape(t.nodes[n]) && t.nodes[n].level == 0 && LeafMatches(t.nodes[n], t.contents)
    requires t.nodes[n].low <= key < t.nodes[n].high && key !in t.nodes[n].keys &&
      IsFirstGeq(t.nodes[n].keys, key, slot)
    requires |t.nodes[n].keys| == CAPACITY
    ensures var t' := LeafSplit(t, n, slot, key, val);
            && Shape(t'.nodes[n]) && Shape(t'.nodes[|t.nodes|])
            && LeafAlmost(t'.nodes[n], t.contents, key, val) && LeafAlmost(t'.nodes[|t.nodes|], t.contents, key, val)
    ensures key !in t.contents
  {
    LeafCutBounds(slot);
    Halves(t.nodes[n], t.contents, slot, key, val, LeafCut(CAPACITY, slot));
  }

  /** What every split has in common: `n` keeps the lower part of its range, a fresh node takes the
      upper part and waits for a parent, and nothing else moves. */
  ghost predicate SplitOff(t: Tree, t': Tree, n: Ptr, u: int) {
    && Live(t.nodes, n) && t.nodes[n].owner == u && u != FREE && t.nodes[n].pend == NULL && Attached(t, n)
    && |t'.nodes| == |t.nodes| + 1
    && (forall i :: 0 <= i < |t.nodes| && i != n ==>
          && t'.nodes[i].(pend := t.nodes[i].pend) == t.nodes[i]
          && (t'.nodes[i].pend == t.nodes[i].pend || (t'.nodes[i].pend == NULL && t.nodes[i].parent != NULL)))
    && var a, l, r := t.nodes[n], t'.nodes[n], t'.nodes[|t.nodes|];
    && l == a.(keys := l.keys, vals := l.vals, kids := l.kids, high := l.high, dirty := true, pend := |t.nodes|)
    && a.low < l.high == r.low < r.high == a.high && r.level == a.level
    && r.dirty && r.owner == u && r.pend == NULL && r.parent == NULL && r.next == a.next
    && t'.root == t.root && t'.height == t.height && t'.contents == t.contents
  }

  lemma SplitOffPend(t: Tree, t': Tree, n: Ptr, u: int)
    requires Ok(t) && SplitOff(t, t', n, u)
    ensures AllPend(t'.nodes) && AllApart(t'.nodes)
    ensures forall i ::
      0 <= i < |t.nodes| && t'.nodes[i].pend == t.nodes[i].pend ==> EHigh(t'.nodes, i) == EHigh(t.nodes, i)
    ensures EHigh(t'.nodes, n) == EHigh(t.nodes, n)
  {
    var ns, ns' := t.nodes, t'.nodes;
    forall i | 0 <= i < |ns| ensures ns[i].pend != n && (ns[i].pend != NULL ==> Live(ns, ns[i].pend)) {
      NobodysPend(t, n, i);
      assert PendOk(ns, ns[i]);
    }
    forall i | 0 <= i < |ns'| ensures PendOk(ns', ns'[i]) { if i < |ns| { assert PendOk(ns, ns[i]); } }
    SplitApart(ns, ns', n, |ns|);
  }

  lemma SplitOffFree(t: Tree, t': Tree, n: Ptr, u: int)
    requires Ok(t) && SplitOff(t, t', n, u)
    ensures AllFree(t') && AllMatch(t'.nodes, t'.contents) && AllHome(t'.nodes)
  {
    var ns, ns' := t.nodes, t'.nodes;
    forall i | 0 <= i < |ns'| ensures HomeOk(ns', i) { if i < |ns| { assert HomeOk(ns, i); } }
    forall i | 0 <= i < |ns'| ensures FreeOk(t', i) { if i < |ns| { assert FreeOk(t, i); } }
    forall i | 0 <= i < |ns'| ensures MatchOk(ns'[i], t'.contents) {
      if i < |ns| { assert MatchOk(ns[i], t.contents); }
    }
  }

  lemma SplitOffChain(t: Tree, t': Tree, n: Ptr, u: int)
    requires Ok(t) && SplitOff(t, t', n, u) && (t.nodes[n].level == 0 ==> NextExact(t.nodes, t.nodes[n]))
    ensures AllChain(t'.nodes) && RootOk(t')
    ensures t.nodes[n].level == 0 ==> NextExact(t'.nodes, t'.nodes[|t.nodes|])
  {
    var ns, ns' := t.nodes, t'.nodes;
    SplitOffPend(t, t', n, u);
    assert ChainOk(ns, ns[n]);
    forall i | 0 <= i < |ns'| ensures ChainOk(ns', ns'[i]) { if i < |ns| { assert ChainOk(ns, ns[i]); } }
  }

  lemma LeafSplitIsSplitOff(t: Tree, n: Ptr, slot: nat, key: int, val: Val, u: int)
    requires FitsLeaf(t, n, slot, key, u) && |t.nodes[n].keys| == CAPACITY
    requires Shape(t.nodes[n]) && LeafMatches(t.nodes[n], t.contents)
    ensures SplitOff(t, LeafSplit(t, n, slot, key, val), n, u)
    ensures Shape(LeafSplit(t, n, slot, key, val).nodes[n]) && Shape(LeafSplit(t, n, slot, key, val).nodes[|t.nodes|])
  {
    LeafSplitHalves(t, n, slot, key, val);
  }

  lemma LeafSplitKeeps(t: Tree, n: Ptr, slot: nat, key: int, val: Val, u: int)
    requires Ok(t) && FitsLeaf(t, n, slot, key, u) && |t.nodes[n].keys| == CAPACITY
    ensures Ok(LeafSplit(t, n, slot, key, val))
    ensures Splitting(LeafSplit(t, n, slot, key, val), n, |t.nodes|, u)
    ensures NextExact(LeafSplit(t, n, slot, key, val).nodes, LeafSplit(t, n, slot, key, val).nodes[|t.nodes|])
  {
    var t' := LeafSplit(t, n, slot, key, val);
    assert Shape(t.nodes[n]) && MatchOk(t.nodes[n], t.contents) && ChainOk(t.nodes, t.nodes[n]);
    LeafSplitIsSplitOff(t, n, slot, key, val, u);
    SplitOffPend(t, t', n, u);
    SplitOffFree(t, t', n, u);
    SplitOffChain(t, t', n, u);
    SplitOffLeaf(t, t', n, u);
  }

  /** Splitting a leaf does not concern the inner nodes. */
  lemma SplitOffLeaf(t: Tree, t': Tree, n: Ptr, u: int)
    requires Ok(t) && SplitOff(t, t', n, u) && t.nodes[n].level == 0 && AllShape(t'.nodes)
    requires forall i :: 0 <= i < |t.nodes| && i != n ==> t'.nodes[i].pend == t.nodes[i].pend
    ensures AllRoutes(t'.nodes) && AllParent(t'.nodes)
  {
    var ns, ns', s := t.nodes, t'.nodes, |t.nodes|;
    SplitOffPend(t, t', n, u);
    assert Shape(ns'[n]) && Shape(ns'[s]) && Shape(ns[n]);
    forall i | 0 <= i < |ns'| ensures Routes(ns', ns'[i]) {
      if i < |ns| && i != n { assert Routes(ns, ns[i]); GrowRoutes(ns, ns', i); }
    }
    forall i | 0 <= i < |ns'| ensures ParentOk(ns', i) {
      if i < |ns| { assert ParentOk(ns, i) && (Live(ns, ns[i].parent) ==> PendOk(ns, ns[ns[i].parent])); }
    }
  }

  /** Cutting one range in two keeps the ranges of a level disjoint. */
  lemma SplitApart(ns: seq<Node>, ns': seq<Node>, n: Ptr, s: Ptr)
    requires AllApart(ns) && Live(ns, n) && s == |ns| && |ns'| == s + 1
    requires forall i :: 0 <= i < |ns| ==> ns'[i].level == ns[i].level && ns'[i].low == ns[i].low
    requires forall i :: 0 <= i < |ns| && i != n ==> ns'[i].high == ns[i].high
    requires ns'[s].level == ns[n].level && ns[n].low <= ns'[n].high == ns'[s].low <= ns'[s].high == ns[n].high
    ensures AllApart(ns')
  {
    forall i, j | 0 <= i < |ns'| && 0 <= j < |ns'| && i != j ensures Apart(ns'[i], ns'[j]) {
      if i < s && j < s { assert Apart(ns[i], ns[j]); }
      else if i == s && j != n { assert Apart(ns[n], ns[j]); }
      else if j == s && i != n { assert Apart(ns[i], ns[n]); }
    }
  }

  lemma LeafSplitRely(t: Tree, n: Ptr, slot: nat, key: int, val: Val, u: int)
    requires Ok(t) && FitsLeaf(t, n, slot, key, u) && |t.nodes[n].keys| == CAPACITY
    ensures Rely(u, t, LeafSplit(t, n, slot, key, val))
  {
    var t' := LeafSplit(t, n, slot, key, val);
    forall i | 0 <= i < |t.nodes| ensures EHigh(t'.nodes, i) == EHigh(t.nodes, i) {
      NobodysPend(t, n, i);
      assert PendOk(t.nodes, t.nodes[i]);
    }
  }

  /** `node_ptr->next = sib_ptr` (line 288). */
  function Link(t: Tree, n: Ptr, s: Ptr): Tree
    requires 0 <= n < |t.nodes|
  {
    t.(nodes := t.nodes[n := t.nodes[n].(next := s)])
  }

  lemma LinkKeeps(t: Tree, n: Ptr, s: Ptr, u: int)
    requires Ok(t) && Splitting(t, n, s, u) && t.nodes[n].level == 0
    ensures Ok(Link(t, n, s)) && Rely(u, t, Link(t, n, s))
    ensures Splitting(Link(t, n, s), n, s, u) && NextExact(Link(t, n, s).nodes, Link(t, n, s).nodes[n])
  {
    var a := t.nodes[n];
    assert Shape(a) && Shape(t.nodes[s]) && PendOk(t.nodes, a);
    forall j | 0 <= j < |t.nodes| && j != n ensures MatchOk(t.nodes[j], t.contents) {}
    OneNodeKeeps(t, n, a.(next := s), t.contents);
    OneNodeRely(t, n, a.(next := s), t.contents, u);
  }

  // ---------------------------------------------------------------- handing a sibling to its parent

  /** The parent with separator `key` and child `kid` inserted (lines 351-354). */
  function Widen(p: Node, slot: nat, key: int, kid: Ptr): Node
    requires slot <= |p.keys| && slot < |p.kids|
  {
    p.(keys := InsertAt(p.keys, slot, key), kids := InsertAt(p.kids, slot + 1, kid))
  }

  /** `n` has been split into `n` and `s`; its parent `p` is held and at rest. */
  ghost predicate ReadyParent(t: Tree, n: Ptr, s: Ptr, p: Ptr, u: int) {
    Splitting(t, n, s, u) && AtRest(t, p, u) && t.nodes[n].parent == p
  }

  lemma LowAtOrder(n: Node, i: nat, j: nat)
    requires Shape(n) && n.level > 0 && i < j <= |n.keys|
    ensures LowAt(n, i) < LowAt(n, j) && LowAt(n, i) < HighAt(n, i) <= LowAt(n, j)
    ensures LowAt(n, j) < HighAt(n, j)
  {
  }

  lemma KidInRange(ns: seq<Node>, p: Ptr, j: nat)
    requires Live(ns, p) && Shape(ns[p]) && Routes(ns, ns[p]) && j < |ns[p].kids|
    ensures KidOk(ns, ns[p], j) && ns[p].low <= ns[ns[p].kids[j]].low < ns[p].high && ns[p].level > 0
  {
    assert KidOk(ns, ns[p], j);
  }

  /** A node is the child of at most one node. */
  lemma OneParent(ns: seq<Node>, p: Ptr, q: Ptr, c: Ptr)
    requires AllShape(ns) && AllRoutes(ns) && AllApart(ns) && Live(ns, p) && Live(ns, q)
    requires c in ns[p].kids && c in ns[q].kids
    ensures p == q
  {
    var i :| 0 <= i < |ns[p].kids| && ns[p].kids[i] == c;
    var j :| 0 <= j < |ns[q].kids| && ns[q].kids[j] == c;
    KidInRange(ns, p, i);
    KidInRange(ns, q, j);
    assert p != q ==> Apart(ns[p], ns[q]);
  }

  /** The slot that `find_first_larger_than(split_key)` finds is the split child's own, and the
      separator is new, so the two searches of line 348 agree. */
  lemma KidSlot(t: Tree, n: Ptr, s: Ptr, p: Ptr, u: int) returns (j: nat)
    requires Ok(t) && ReadyParent(t, n, s, p, u)
    ensures j < |t.nodes[p].kids| && t.nodes[p].kids[j] == n && KidOk(t.nodes, t.nodes[p], j)
    ensures j == FirstGt(t.nodes[p].keys, t.nodes[s].low) == FirstGeq(t.nodes[p].keys, t.nodes[s].low)
    ensures t.nodes[n].low == LowAt(t.nodes[p], j) && t.nodes[s].high == HighAt(t.nodes[p], j)
    ensures t.nodes[p].level == t.nodes[n].level + 1
  {
    var ns := t.nodes;
    assert ParentOk(ns, n) && Shape(ns[p]) && Shape(ns[n]) && Shape(ns[s]) && Routes(ns, ns[p]);
    j :| 0 <= j < |ns[p].kids| && ns[p].kids[j] == n;
    assert KidOk(ns, ns[p], j);
    var g, e, k := FirstGt(ns[p].keys, ns[s].low), FirstGeq(ns[p].keys, ns[s].low), ns[s].low;
    FirstGtIs(ns[p].keys, k);
    FirstGeqIs(ns[p].keys, k);
    assert j > 0 ==> ns[p].keys[j - 1] < k;
    assert j < |ns[p].keys| ==> k < ns[p].keys[j];
  }

  /** The widened parent is sorted and within its range. */
  lemma WidenShape(p: Node, j: nat, key: int, kid: Ptr)
    requires Shape(p) && p.level > 0 && j <= |p.keys| && LowAt(p, j) < key < HighAt(p, j)
    ensures Sorted(Widen(p, j, key, kid).keys) && Within(Widen(p, j, key, kid).keys, p.low, p.high)
    ensures Widen(p, j, key, kid).keys[0] > p.low
    ensures |Widen(p, j, key, kid).keys| == |p.keys| + 1 && |Widen(p, j, key, kid).kids| == |p.keys| + 2
  {
    InsertSorted(p.keys, j, key, p.low, p.high);
  }

  /** Fences seen through the widened parent. */
  lemma WidenFences(p: Node, j: nat, key: int, kid: Ptr, k: nat)
    requires j <= |p.keys| && |p.kids| == |p.keys| + 1 && k <= |p.keys| + 1
    ensures var w := Widen(p, j, key, kid);
            && |w.keys| == |p.keys| + 1 && |w.kids| == |w.keys| + 1
            && w.kids[k] == (if k <= j then p.kids[k] else if k == j + 1 then kid else p.kids[k - 1])
            && LowAt(w, k) == (if k <= j then LowAt(p, k) else if k == j + 1 then key else LowAt(p, k - 1))
            && HighAt(w, k) == (if k < j then HighAt(p, k) else if k == j then key else HighAt(p, k - 1))
  {
    InsertAtIndex(p.keys, j, key);
    InsertAtIndex(p.kids, j + 1, kid);
  }

  /** Every child of the widened parent is bounded by its separators once `n` has given up `s`. */
  lemma WidenRoutes(ns: seq<Node>, ns': seq<Node>, p: Node, j: nat, s: Ptr)
    requires Shape(p) && p.level > 0 && Routes(ns, p) && j < |p.kids| && |ns| <= |ns'| && Live(ns, s)
    requires LowAt(p, j) < ns[s].low < HighAt(p, j) == ns[s].high && ns[s].level + 1 == p.level
    requires forall i :: 0 <= i < |ns| ==> ns'[i].level == ns[i].level && ns'[i].low == ns[i].low
    requires forall i :: 0 <= i < |ns| && i != p.kids[j] && ns[i].level + 1 == p.level ==> EHigh(ns', i) == EHigh(ns, i)
    requires Live(ns, p.kids[j]) && EHigh(ns', p.kids[j]) == ns[s].low
    requires s != p.kids[j] && EHigh(ns, s) == ns[s].high
    ensures Routes(ns', Widen(p, j, ns[s].low, s))
  {
    var w := Widen(p, j, ns[s].low, s);
    assert KidOk(ns, p, j);
    forall k | 0 <= k < |w.kids| ensures KidOk(ns', w, k) {
      WidenFences(p, j, ns[s].low, s, k);
      if k <= j {
        assert KidOk(ns, p, k);
        if k < j { LowAtOrder(p, k, j); }
      } else if k > j + 1 {
        assert KidOk(ns, p, k - 1);
        LowAtOrder(p, j, k - 1);
      }
    }
  }

  function KidInsert(t: Tree, n: Ptr, s: Ptr, p: Ptr): Tree
    requires 0 <= n < |t.nodes| && 0 <= s < |t.nodes| && 0 <= p < |t.nodes|
    requires |t.nodes[p].kids| == |t.nodes[p].keys| + 1
  {
    var slot := FirstGt(t.nodes[p].keys, t.nodes[s].low);
    t.(nodes := t.nodes[p := Widen(t.nodes[p], slot, t.nodes[s].low, s).(dirty := true)]
                       [n := t.nodes[n].(pend := NULL)])
  }

  /** `s` is in a parent held by `u`, but does not point at it yet; `n` and `s` are not yet released. */
  ghost predicate Handed(t: Tree, n: Ptr, s: Ptr, u: int) {
    && u != FREE
    && Live(t.nodes, n) && t.nodes[n].owner == u && t.nodes[n].dirty && t.nodes[n].pend == NULL &&
        t.nodes[n].parent != NULL
    && Live(t.nodes, s) && t.nodes[s].owner == u && t.nodes[s].dirty && t.nodes[s].pend == NULL
    && t.nodes[s].level == t.nodes[n].level && t.nodes[s].low == t.nodes[n].high
    && KidsHome(t.nodes, n) && KidsHome(t.nodes, s)
  }

  /** Nodes other than `p`, the one parent of `n`, do not notice that `n` gave up its sibling. */
  lemma OthersRoute(ns: seq<Node>, ns': seq<Node>, p: Ptr, n: Ptr)
    requires AllShape(ns) && AllRoutes(ns) && AllApart(ns) && |ns| <= |ns'| && Live(ns, p) && n in ns[p].kids
    requires forall i :: 0 <= i < |ns| ==> ns'[i].level == ns[i].level && ns'[i].low == ns[i].low
    requires forall i ::
      0 <= i < |ns| && i != p ==> ns'[i].kids == ns[i].kids && ns'[i].keys == ns[i].keys && ns'[i].high == ns[i].high
    requires forall i :: 0 <= i < |ns| && i != n ==> EHigh(ns', i) == EHigh(ns, i)
    ensures forall i :: 0 <= i < |ns| && i != p ==> Routes(ns', ns'[i])
  {
    forall i | 0 <= i < |ns| && i != p ensures Routes(ns', ns'[i]) {
      assert Routes(ns, ns[i]);
      if n in ns[i].kids { OneParent(ns, i, p, n); }
      GrowRoutes(ns, ns', i);
    }
  }

  /** Children are judged by keys, children and fences only. */
  lemma SameRoutes(ns: seq<Node>, a: Node, b: Node)
    requires Routes(ns, a) && a.level == b.level && a.low == b.low && a.high == b.high && a.keys == b.keys &&
      a.kids == b.kids
    ensures Routes(ns, b)
  {
    forall j | 0 <= j < |b.kids| ensures KidOk(ns, b, j) { assert KidOk(ns, a, j); }
  }

  lemma KidInsertNodes(t: Tree, n: Ptr, s: Ptr, p: Ptr, u: int)
    requires Ok(t) && ReadyParent(t, n, s, p, u) && |t.nodes[p].keys| < CAPACITY
    ensures t.nodes[p].level == t.nodes[n].level + 1 && |t.nodes[p].kids| == |t.nodes[p].keys| + 1
    ensures AllShape(KidInsert(t, n, s, p).nodes) && AllRoutes(KidInsert(t, n, s, p).nodes)
    ensures forall c :: c in t.nodes[p].kids || c == s ==> c in KidInsert(t, n, s, p).nodes[p].kids
  {
    var j := KidSlot(t, n, s, p, u);
    assert Shape(t.nodes[p]) && Shape(t.nodes[n]) && Shape(t.nodes[s]) && Routes(t.nodes, t.nodes[p]);
    var ns, ns' := t.nodes, KidInsert(t, n, s, p).nodes;
    WidenShape(ns[p], j, ns[s].low, s);
    assert Shape(ns'[p]) && Shape(ns'[n]);
    WidenRoutes(ns, ns', ns[p], j, s);
    SameRoutes(ns', Widen(ns[p], j, ns[s].low, s), ns'[p]);
    OthersRoute(ns, ns', p, n);
    forall c | c in ns[p].kids || c == s ensures c in ns'[p].kids { InsertAtMember(ns[p].kids, j + 1, s, c); }
  }

  lemma KidInsertRest(t: Tree, n: Ptr, s: Ptr, p: Ptr, u: int)
    requires Ok(t) && ReadyParent(t, n, s, p, u) && |t.nodes[p].kids| == |t.nodes[p].keys| + 1
    requires t.nodes[p].level == t.nodes[n].level + 1
    ensures AllPend(KidInsert(t, n, s, p).nodes) && AllChain(KidInsert(t, n, s, p).nodes) &&
      AllApart(KidInsert(t, n, s, p).nodes)
    ensures AllHome(KidInsert(t, n, s, p).nodes)
  {
    var ns, ns' := t.nodes, KidInsert(t, n, s, p).nodes;
    forall i | 0 <= i < |ns'| ensures HomeOk(ns', i) { assert HomeOk(ns, i); }
    forall i | 0 <= i < |ns'| ensures PendOk(ns', ns'[i]) { assert PendOk(ns, ns[i]); }
    forall i | 0 <= i < |ns'| ensures ChainOk(ns', ns'[i]) { assert ChainOk(ns, ns[i]); }
    forall i, j | 0 <= i < |ns'| && 0 <= j < |ns'| && i != j ensures Apart(ns'[i], ns'[j]) {
      assert Apart(ns[i], ns[j]);
    }
  }

  lemma KidInsertKeeps(t: Tree, n: Ptr, s: Ptr, p: Ptr, u: int)
    requires Ok(t) && ReadyParent(t, n, s, p, u) && |t.nodes[p].keys| < CAPACITY
    ensures |t.nodes[p].kids| == |t.nodes[p].keys| + 1
    ensures Ok(KidInsert(t, n, s, p)) && Handed(KidInsert(t, n, s, p), n, s, u)
    ensures s in KidInsert(t, n, s, p).nodes[p].kids && t.nodes[p].level == t.nodes[s].level + 1
  {
    KidInsertNodes(t, n, s, p, u);
    KidInsertRest(t, n, s, p, u);
    var t' := KidInsert(t, n, s, p);
    var ns, ns' := t.nodes, t'.nodes;
    forall i | 0 <= i < |ns'| ensures ParentOk(ns', i) { HandedParent(t, t', n, s, p, u, i); }
    forall i | 0 <= i < |ns'| ensures FreeOk(t', i) { assert FreeOk(t, i); }
    forall i | 0 <= i < |ns'| ensures MatchOk(ns'[i], t'.contents) { assert MatchOk(ns[i], t.contents); }
  }

  /** Parents stay right when `n` gives up `s` and `p` gains it. */
  lemma HandedParent(t: Tree, t': Tree, n: Ptr, s: Ptr, p: Ptr, u: int, i: Ptr)
    requires Ok(t) && ReadyParent(t, n, s, p, u) && Live(t.nodes, i) && |t.nodes| <= |t'.nodes|
    requires forall j ::
      0 <= j < |t.nodes| ==> t'.nodes[j].level == t.nodes[j].level && t'.nodes[j].parent == t.nodes[j].parent
    requires forall j :: 0 <= j < |t.nodes| && j != p ==> t'.nodes[j].kids == t.nodes[j].kids
    requires forall j :: 0 <= j < |t.nodes| && j != p && j != n ==> t'.nodes[j].pend == t.nodes[j].pend
    requires forall c :: c in t.nodes[p].kids ==> HasKid(t'.nodes, p, c)
    ensures ParentOk(t'.nodes, i)
  {
    var ns := t.nodes;
    assert ParentOk(ns, i);
    if Live(ns, ns[i].parent) { assert PendOk(ns, ns[ns[i].parent]); NobodysPend(t, p, ns[i].parent); }
  }

  lemma KidInsertRely(t: Tree, n: Ptr, s: Ptr, p: Ptr, u: int)
    requires Ok(t) && ReadyParent(t, n, s, p, u) && |t.nodes[p].kids| == |t.nodes[p].keys| + 1
    ensures Rely(u, t, KidInsert(t, n, s, p))
  {
    var t' := KidInsert(t, n, s, p);
    forall i | 0 <= i < |t.nodes| && i != n ensures EHigh(t'.nodes, i) == EHigh(t.nodes, i) {}
  }

  // ---------------------------------------------------------------- splitting a full parent

  function InnerLeft(w: Node, m: nat): Node
    requires m < |w.keys| && m < |w.kids|
  {
    w.(keys := w.keys[..m], kids := w.kids[..m + 1], high := w.keys[m])
  }

  function InnerRight(w: Node, m: nat): Node
    requires m < |w.keys| && m < |w.kids|
  {
    w.(keys := w.keys[m + 1..], kids := w.kids[m + 1..], low := w.keys[m])
  }

  /** Lines 388-459: the widened parent is cut, its middle key moves up, and the upper part goes to a
      fresh, locked sibling. */
  function KidSplit(t: Tree, n: Ptr, s: Ptr, p: Ptr): Tree
    requires 0 <= n < |t.nodes| && 0 <= s < |t.nodes| && 0 <= p < |t.nodes|
    requires |t.nodes[p].kids| == |t.nodes[p].keys| + 1
    requires InnerCut(|t.nodes[p].keys|, FirstGt(t.nodes[p].keys, t.nodes[s].low)) <= |t.nodes[p].keys|
  {
    var slot := FirstGt(t.nodes[p].keys, t.nodes[s].low);
    var w, m := Widen(t.nodes[p], slot, t.nodes[s].low, s), InnerCut(|t.nodes[p].keys|, slot);
    t.(nodes := t.nodes[p := InnerLeft(w, m).(dirty := true, pend := |t.nodes|)][n := t.nodes[n].(pend := NULL)]
       + [InnerRight(w, m).(dirty := true, pend := NULL, parent := NULL, version := 0)])
  }

  /** How evenly full nodes are cut. Of the sixteen entries of a leaf each half gets eight, or the left one nine if the
      new entry is the eighth; of the fifteen keys of an inner node that do not move up, seven and eight. If the new
      entry comes last it goes to the right half alone. */
  lemma CutsEven(slot: nat)
    requires slot <= CAPACITY
    ensures var left, right := LeafCut(CAPACITY, slot), CAPACITY + 1 - LeafCut(CAPACITY, slot);
      if slot == CAPACITY then right == 1 else left - right == if slot == CAPACITY / 2 then 2 else 0
    ensures var left, right := InnerCut(CAPACITY, slot), CAPACITY - InnerCut(CAPACITY, slot);
      if slot == CAPACITY then right == 1 else left - right == if slot < CAPACITY / 2 then 1 else -1
  {
  }

  lemma InnerCutBounds(slot: nat)
    requires slot <= CAPACITY
    ensures 0 < InnerCut(CAPACITY, slot) < CAPACITY
  {
  }

  /** An inner node that may hold one key too many. */
  ghost predicate WideInner(w: Node) {
    && 0 <= w.low < w.high <= TOP && w.level > 0 && w.vals == []
    && Sorted(w.keys) && Within(w.keys, w.low, w.high) && 0 < |w.keys| <= CAPACITY + 1
    && |w.kids| == |w.keys| + 1 && w.keys[0] > w.low
  }

  lemma InnerHalvesShape(w: Node, m: nat)
    requires WideInner(w) && 0 < m && m + 1 < |w.keys|
    ensures Shape(InnerLeft(w, m)) && Shape(InnerRight(w, m))
    ensures w.low < w.keys[m] < w.high
  {
  }

  lemma InnerHalvesRoutes(ns: seq<Node>, w: Node, m: nat)
    requires Routes(ns, w) && m < |w.keys| && |w.kids| == |w.keys| + 1
    ensures Routes(ns, InnerLeft(w, m)) && Routes(ns, InnerRight(w, m))
  {
    var l, r := InnerLeft(w, m), InnerRight(w, m);
    forall j | 0 <= j < |l.kids| ensures KidOk(ns, l, j) { assert KidOk(ns, w, j); }
    forall j | 0 <= j < |r.kids| ensures KidOk(ns, r, j) { assert KidOk(ns, w, j + m + 1); }
  }

  lemma KidSplitIsSplitOff(t: Tree, n: Ptr, s: Ptr, p: Ptr, u: int, j: nat)
    requires ReadyParent(t, n, s, p, u) && |t.nodes[p].keys| == CAPACITY
    requires Shape(t.nodes[p]) && t.nodes[p].level == t.nodes[n].level + 1
    requires j <= CAPACITY && j == FirstGt(t.nodes[p].keys, t.nodes[s].low)
    requires LowAt(t.nodes[p], j) < t.nodes[s].low < HighAt(t.nodes[p], j)
    ensures Shape(KidSplit(t, n, s, p).nodes[p]) && Shape(KidSplit(t, n, s, p).nodes[|t.nodes|])
    ensures SplitOff(t, KidSplit(t, n, s, p), p, u)
  {
    var w, m := Widen(t.nodes[p], j, t.nodes[s].low, s), InnerCut(CAPACITY, j);
    InnerCutBounds(j);
    WidenShape(t.nodes[p], j, t.nodes[s].low, s);
    InnerHalvesShape(w, m);
  }

  lemma KidSplitNodes(t: Tree, n: Ptr, s: Ptr, p: Ptr, u: int)
    requires Ok(t) && ReadyParent(t, n, s, p, u) && |t.nodes[p].keys| == CAPACITY
    ensures t.nodes[p].level == t.nodes[n].level + 1 && |t.nodes[p].kids| == |t.nodes[p].keys| + 1
    ensures SplitOff(t, KidSplit(t, n, s, p), p, u)
    ensures AllShape(KidSplit(t, n, s, p).nodes) && AllRoutes(KidSplit(t, n, s, p).nodes)
  {
    var j := KidSlot(t, n, s, p, u);
    assert Shape(t.nodes[p]) && Shape(t.nodes[n]) && Shape(t.nodes[s]) && Routes(t.nodes, t.nodes[p]);
    KidSplitIsSplitOff(t, n, s, p, u, j);
    SplitOffPend(t, KidSplit(t, n, s, p), p, u);
    KidSplitRoutes(t, n, s, p, u, j);
    var ns' := KidSplit(t, n, s, p).nodes;
    assert Shape(ns'[p]) && Shape(ns'[n]) && Shape(ns'[|t.nodes|]);
  }

  lemma KidSplitRoutes(t: Tree, n: Ptr, s: Ptr, p: Ptr, u: int, j: nat)
    requires AllShape(t.nodes) && AllRoutes(t.nodes) && AllApart(t.nodes)
    requires ReadyParent(t, n, s, p, u) && |t.nodes[p].keys| == CAPACITY
    requires t.nodes[p].level == t.nodes[n].level + 1 && j < |t.nodes[p].kids| && t.nodes[p].kids[j] == n
    requires j == FirstGt(t.nodes[p].keys, t.nodes[s].low) && |t.nodes[p].kids| == |t.nodes[p].keys| + 1
    requires LowAt(t.nodes[p], j) < t.nodes[s].low < HighAt(t.nodes[p], j) == t.nodes[s].high
    requires InnerCut(CAPACITY, j) <= CAPACITY
    requires forall i :: 0 <= i < |t.nodes| && i != n ==> EHigh(KidSplit(t, n, s, p).nodes, i) == EHigh(t.nodes, i)
    ensures AllRoutes(KidSplit(t, n, s, p).nodes)
  {
    var ns, ns' := t.nodes, KidSplit(t, n, s, p).nodes;
    var w, m := Widen(ns[p], j, ns[s].low, s), InnerCut(CAPACITY, j);
    assert Shape(ns[p]) && Routes(ns, ns[p]);
    WidenRoutes(ns, ns', ns[p], j, s);
    InnerHalvesRoutes(ns', w, m);
    SameRoutes(ns', InnerLeft(w, m), ns'[p]);
    SameRoutes(ns', InnerRight(w, m), ns'[|ns|]);
    OthersRoute(ns, ns', p, n);
  }

  /** Child `c` of `p` or `q` still points where it pointed before `p` was split into `p` and `q`. */
  ghost predicate OldHome(ns: seq<Node>, c: Ptr, s: Ptr, p: Ptr) {
    Live(ns, c) && (if c == s then ns[s].parent == NULL else ns[c].parent == p)
  }

  /** `p` was split into `p` and `q` to make room for `s`; no child has been told. */
  ghost predicate Rehoming(t: Tree, n: Ptr, s: Ptr, p: Ptr, q: Ptr, u: int) {
    && SplitCore(t, p, q, u) && Handed(t, n, s, u) && t.nodes[p].level == t.nodes[s].level + 1
    && (s in t.nodes[p].kids || s in t.nodes[q].kids)
    && (forall j :: 0 <= j < |t.nodes[p].kids| ==> OldHome(t.nodes, t.nodes[p].kids[j], s, p))
    && (forall j :: 0 <= j < |t.nodes[q].kids| ==> OldHome(t.nodes, t.nodes[q].kids[j], s, p))
  }

  lemma KidSplitKeeps(t: Tree, n: Ptr, s: Ptr, p: Ptr, u: int)
    requires Ok(t) && ReadyParent(t, n, s, p, u) && |t.nodes[p].keys| == CAPACITY
    ensures |t.nodes[p].kids| == |t.nodes[p].keys| + 1 &&
      InnerCut(CAPACITY, FirstGt(t.nodes[p].keys, t.nodes[s].low)) <= CAPACITY
    ensures Ok(KidSplit(t, n, s, p)) && Rehoming(KidSplit(t, n, s, p), n, s, p, |t.nodes|, u)
  {
    KidSplitNodes(t, n, s, p, u);
    var t' := KidSplit(t, n, s, p);
    SplitOffPend(t, t', p, u);
    SplitOffFree(t, t', p, u);
    SplitOffChain(t, t', p, u);
    KidSplitParents(t, n, s, p, u);
    assert HomeOk(t.nodes, p);
    KidSplitRehomes(t, n, s, p, u);
  }

  lemma KidSplitParents(t: Tree, n: Ptr, s: Ptr, p: Ptr, u: int)
    requires Ok(t) && ReadyParent(t, n, s, p, u) && |t.nodes[p].kids| == |t.nodes[p].keys| + 1
    requires t.nodes[p].level == t.nodes[n].level + 1
    requires InnerCut(|t.nodes[p].keys|, FirstGt(t.nodes[p].keys, t.nodes[s].low)) <= |t.nodes[p].keys|
    ensures AllParent(KidSplit(t, n, s, p).nodes)
  {
    var t' := KidSplit(t, n, s, p);
    KidSplitMembers(t, n, s, p);
    forall i | 0 <= i < |t'.nodes| ensures ParentOk(t'.nodes, i) {
      if i < |t.nodes| { HandedParent(t, t', n, s, p, u, i); }
    }
  }

  lemma KidSplitShares(t: Tree, n: Ptr, s: Ptr, p: Ptr)
    requires Live(t.nodes, n) && Live(t.nodes, s) && Live(t.nodes, p) && n != p && t.nodes[p].level > 0
    requires |t.nodes[p].keys| == CAPACITY && |t.nodes[p].kids| == |t.nodes[p].keys| + 1
    requires InnerCut(|t.nodes[p].keys|, FirstGt(t.nodes[p].keys, t.nodes[s].low)) <= |t.nodes[p].keys|
    ensures Shared(KidSplit(t, n, s, p).nodes[p], KidSplit(t, n, s, p).nodes[|t.nodes|])
  {
    InnerCutBounds(FirstGt(t.nodes[p].keys, t.nodes[s].low));
  }

  lemma KidSplitRehomes(t: Tree, n: Ptr, s: Ptr, p: Ptr, u: int)
    requires ReadyParent(t, n, s, p, u) && |t.nodes[p].keys| == CAPACITY && |t.nodes[p].kids| == |t.nodes[p].keys| + 1
    requires t.nodes[p].level == t.nodes[n].level + 1 && KidsHome(t.nodes, p)
    requires InnerCut(|t.nodes[p].keys|, FirstGt(t.nodes[p].keys, t.nodes[s].low)) <= |t.nodes[p].keys|
    ensures Rehoming(KidSplit(t, n, s, p), n, s, p, |t.nodes|, u)
  {
    var t' := KidSplit(t, n, s, p);
    KidSplitMembers(t, n, s, p);
    KidSplitShares(t, n, s, p);
    assert forall c :: c in t.nodes[p].kids || c == s ==> OldHome(t'.nodes, c, s, p);
  }

  /** The two halves share out the old children and the new one. */
  lemma KidSplitMembers(t: Tree, n: Ptr, s: Ptr, p: Ptr)
    requires Live(t.nodes, n) && Live(t.nodes, s) && Live(t.nodes, p) && n != p &&
      |t.nodes[p].kids| == |t.nodes[p].keys| + 1
    requires InnerCut(|t.nodes[p].keys|, FirstGt(t.nodes[p].keys, t.nodes[s].low)) <= |t.nodes[p].keys|
    ensures var t' := KidSplit(t, n, s, p);
            forall c :: (c in t'.nodes[p].kids || c in t'.nodes[|t.nodes|].kids) <==> (c in t.nodes[p].kids || c == s)
  {
    var t' := KidSplit(t, n, s, p);
    var slot := FirstGt(t.nodes[p].keys, t.nodes[s].low);
    var w, m := Widen(t.nodes[p], slot, t.nodes[s].low, s), InnerCut(|t.nodes[p].keys|, slot);
    assert w.kids == w.kids[..m + 1] + w.kids[m + 1..];
    forall c ensures (c in t'.nodes[p].kids || c in t'.nodes[|t.nodes|].kids) <==> (c in t.nodes[p].kids || c == s) {
      InsertAtMember(t.nodes[p].kids, slot + 1, s, c);
    }
  }

  lemma KidSplitRely(t: Tree, n: Ptr, s: Ptr, p: Ptr, u: int)
    requires Ok(t) && ReadyParent(t, n, s, p, u) && |t.nodes[p].keys| == CAPACITY
    requires |t.nodes[p].kids| == |t.nodes[p].keys| + 1 &&
      InnerCut(CAPACITY, FirstGt(t.nodes[p].keys, t.nodes[s].low)) <= CAPACITY
    ensures Rely(u, t, KidSplit(t, n, s, p))
  {
    KidSplitNodes(t, n, s, p, u);
    SplitOffPend(t, KidSplit(t, n, s, p), p, u);
  }

  // ---------------------------------------------------------------- parent pointers

  function SetParent(t: Tree, c: Ptr, p: Ptr): Tree
    requires 0 <= c < |t.nodes|
  {
    t.(nodes := t.nodes[c := t.nodes[c].(parent := p)])
  }

  /** `c` may be told that `p` is its parent. */
  ghost predicate MayAdopt(t: Tree, c: Ptr, p: Ptr, u: int) {
    && Live(t.nodes, c) && Live(t.nodes, p) && u != FREE
    && t.nodes[p].owner == u && t.nodes[p].dirty && c in t.nodes[p].kids
    && t.nodes[p].level == t.nodes[c].level + 1
    && (if t.nodes[c].parent == NULL then t.nodes[c].owner == u
        else var q := t.nodes[c].parent; Live(t.nodes, q) && t.nodes[q].owner == u && t.nodes[q].dirty)
    && (forall j :: 0 <= j < |t.nodes| ==> t.nodes[j].pend != c)
    && (c == t.root ==> t.nodes[c].parent != NULL)
  }

  lemma SetParentNodes(t: Tree, c: Ptr, p: Ptr, u: int)
    requires Ok(t) && MayAdopt(t, c, p, u)
    ensures var ns' := SetParent(t, c, p).nodes; AllPend(ns') && AllChain(ns') && AllHome(ns')
  {
    var ns, ns' := t.nodes, SetParent(t, c, p).nodes;
    forall i | 0 <= i < |ns| ensures PendOk(ns', ns'[i]) { assert PendOk(ns, ns[i]); }
    forall i | 0 <= i < |ns| ensures ChainOk(ns', ns'[i]) { assert ChainOk(ns, ns[i]); }
    forall i | 0 <= i < |ns| ensures HomeOk(ns', i) { assert HomeOk(ns, i); }
  }

  lemma SetParentKeeps(t: Tree, c: Ptr, p: Ptr, u: int)
    requires Ok(t) && MayAdopt(t, c, p, u)
    ensures Ok(SetParent(t, c, p))
  {
    var t' := SetParent(t, c, p);
    var ns, ns' := t.nodes, t'.nodes;
    assert Shape(ns[c]);
    OneNodeFrame(ns, c, ns'[c]);
    ParentFrame(ns, ns', c);
    SetParentNodes(t, c, p, u);
    forall i | 0 <= i < |ns| ensures FreeOk(t', i) { assert FreeOk(t, i); }
    forall i | 0 <= i < |ns| ensures MatchOk(ns'[i], t'.contents) { assert MatchOk(ns[i], t.contents); }
  }

  lemma SetParentRely(t: Tree, c: Ptr, p: Ptr, u: int)
    requires Ok(t) && MayAdopt(t, c, p, u)
    ensures Rely(u, t, SetParent(t, c, p))
  {
    var t' := SetParent(t, c, p);
    forall i | 0 <= i < |t.nodes| ensures EHigh(t'.nodes, i) == EHigh(t.nodes, i) {}
  }

  /** Once handed over, `s` is nobody's pending sibling. */
  lemma HandedFree(t: Tree, n: Ptr, s: Ptr, u: int)
    requires Ok(t) && Handed(t, n, s, u)
    ensures forall j :: 0 <= j < |t.nodes| ==> t.nodes[j].pend != s
    ensures s != t.root
  {
    assert Shape(t.nodes[n]);
    forall j | 0 <= j < |t.nodes| ensures t.nodes[j].pend != s {
      assert PendOk(t.nodes, t.nodes[j]) && Shape(t.nodes[j]);
      assert j != n ==> Apart(t.nodes[j], t.nodes[n]);
    }
  }

  // ---------------------------------------------------------------- a new root

  /** Lines 320-335: a fresh, locked root over `n` and `s`; telling `n` is the first visible store. */
  function NewRoot(t: Tree, n: Ptr, s: Ptr): Tree
    requires 0 <= n < |t.nodes| && 0 <= s < |t.nodes|
  {
    var r := Node(t.nodes[n].level + 1, 0, TOP, [t.nodes[s].low], [], [n, s], NULL, NULL, t.nodes[n].owner, 0, true,
        NULL);
    t.(nodes := t.nodes[n := t.nodes[n].(parent := |t.nodes|, pend := NULL)] + [r], height := t.height + 1)
  }

  /** The new root knows its two children, the first child knows it, and nobody else does. */
  ghost predicate Crowning(t: Tree, n: Ptr, s: Ptr, r: Ptr, u: int) {
    && Handed(t, n, s, u) && t.nodes[n].parent == r
    && Live(t.nodes, r) && t.nodes[r].owner == u && t.nodes[r].dirty && t.nodes[r].pend == NULL &&
        t.nodes[r].parent == NULL
    && t.nodes[r].low == 0 && t.nodes[r].high == TOP && t.nodes[r].kids == [n, s]
    && t.nodes[r].level == t.height == t.nodes[n].level + 1
    && t.root == n
  }

  lemma NewRootNodes(t: Tree, n: Ptr, s: Ptr, u: int)
    requires Ok(t) && Splitting(t, n, s, u) && t.nodes[n].parent == NULL
    ensures AllShape(NewRoot(t, n, s).nodes) && AllRoutes(NewRoot(t, n, s).nodes) && AllApart(NewRoot(t, n, s).nodes)
  {
    var t' := NewRoot(t, n, s);
    var ns, ns', r := t.nodes, t'.nodes, |t.nodes|;
    assert Shape(ns[n]) && Shape(ns[s]) && PendOk(ns, ns[n]);
    assert Shape(ns'[n]) && Shape(ns'[r]);
    forall i | 0 <= i < |ns| ensures ns[i].pend == NULL || Live(ns, ns[i].pend) { assert PendOk(ns, ns[i]); }
    forall i | 0 <= i < |ns'| ensures Routes(ns', ns'[i]) {
      if i == r {
        assert KidOk(ns', ns'[r], 0) && KidOk(ns', ns'[r], 1);
      } else {
        assert Routes(ns, ns[i]);
        forall j | 0 <= j < |ns[i].kids| ensures ns[i].kids[j] != n { assert KidOk(ns, ns[i], j); }
        GrowRoutes(ns, ns', i);
      }
    }
    forall i, j | 0 <= i < |ns'| && 0 <= j < |ns'| && i != j ensures Apart(ns'[i], ns'[j]) {
      if i < r && j < r { assert Apart(ns[i], ns[j]); }
    }
  }

  lemma NewRootRest(t: Tree, n: Ptr, s: Ptr, u: int)
    requires Ok(t) && Splitting(t, n, s, u) && t.nodes[n].parent == NULL
    ensures AllPend(NewRoot(t, n, s).nodes) && AllChain(NewRoot(t, n, s).nodes) && AllHome(NewRoot(t, n, s).nodes)
  {
    var ns, ns' := t.nodes, NewRoot(t, n, s).nodes;
    forall i | 0 <= i < |ns'| ensures PendOk(ns', ns'[i]) {
      if i < |ns| { assert PendOk(ns, ns[i]); NobodysPend(t, n, i); }
    }
    forall i | 0 <= i < |ns'| ensures ChainOk(ns', ns'[i]) { if i < |ns| { assert ChainOk(ns, ns[i]); } }
    forall i | 0 <= i < |ns'| ensures HomeOk(ns', i) { if i < |ns| { assert HomeOk(ns, i); } }
  }

  lemma NewRootParents(t: Tree, n: Ptr, s: Ptr, u: int)
    requires AllParent(t.nodes) && AllPend(t.nodes) && Splitting(t, n, s, u) && t.nodes[n].parent == NULL
    ensures AllParent(NewRoot(t, n, s).nodes)
  {
    var ns, ns' := t.nodes, NewRoot(t, n, s).nodes;
    forall i | 0 <= i < |ns'| ensures ParentOk(ns', i) {
      if i < |ns| && i != n { assert ParentOk(ns, i) && (Live(ns, ns[i].parent) ==> PendOk(ns, ns[ns[i].parent])); }
      if i == n { assert ns'[|ns|].kids[0] == n; }
    }
  }

  lemma NewRootKeeps(t: Tree, n: Ptr, s: Ptr, u: int)
    requires Ok(t) && Splitting(t, n, s, u) && t.nodes[n].parent == NULL
    ensures Ok(NewRoot(t, n, s)) && Crowning(NewRoot(t, n, s), n, s, |t.nodes|, u)
  {
    NewRootNodes(t, n, s, u);
    NewRootRest(t, n, s, u);
    NewRootParents(t, n, s, u);
    var t' := NewRoot(t, n, s);
    var ns, ns' := t.nodes, t'.nodes;
    forall i | 0 <= i < |ns'| ensures FreeOk(t', i) { if i < |ns| { assert FreeOk(t, i); } }
    forall i | 0 <= i < |ns'| ensures MatchOk(ns'[i], t'.contents) {
      if i < |ns| { assert MatchOk(ns[i], t.contents); }
    }
  }

  lemma NewRootRely(t: Tree, n: Ptr, s: Ptr, u: int)
    requires Ok(t) && Splitting(t, n, s, u) && t.nodes[n].parent == NULL
    ensures Rely(u, t, NewRoot(t, n, s))
  {
    var t' := NewRoot(t, n, s);
    forall i | 0 <= i < |t.nodes| && i != n ensures EHigh(t'.nodes, i) == EHigh(t.nodes, i) {
      assert PendOk(t.nodes, t.nodes[i]);
    }
  }

  /** `root = parent_ptr` (line 336). */
  lemma SetRootKeeps(t: Tree, n: Ptr, s: Ptr, r: Ptr, u: int)
    requires Ok(t) && Crowning(t, n, s, r, u)
    ensures Ok(t.(root := r)) && Rely(u, t, t.(root := r))
  {
    var t' := t.(root := r);
    assert Shape(t.nodes[r]);
    forall i | 0 <= i < |t.nodes| ensures FreeOk(t', i) { assert FreeOk(t, i); }
  }
}
