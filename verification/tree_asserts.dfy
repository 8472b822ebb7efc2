/** The assertions that `split_n_insert_leaf` makes about its own work (distcache/concurrent_map_impl.h:290-301,
    363-377, 468-507): they hold in every interleaving, whatever other threads do meanwhile. */
module TreeAsserts {
  import opened TreeNodes
  import opened TreeOps
  import opened TreeSplits
  import opened TreeThreads
  import opened TreeMachine
  import opened TreeSafety

  /** In state `i` of the run thread `u` is at `pc`. */
  ghost predicate At(run: seq<State>, i: nat, u: int, pc: PC) {
    i < |run| && 0 <= u < |run[i].threads| && run[i].threads[u].pc == pc
  }

  lemma KnownAt(run: seq<State>, i: nat, u: int, pc: PC)
    requires IsRun(run) && At(run, i, u, pc)
    ensures Ok(run[i].tree) && Knows(run[i].tree, u, run[i].threads[u].op, pc, run[i].threads[u].seen)
  {
    RunSafe(run, i);
    assert ThreadOk(run[i].tree, u, run[i].threads[u]);
  }

  /** Two halves of a node: the first key of the right one is larger than the last of the left one. */
  ghost predicate InOrder(a: Node, b: Node) {
    Sorted(a.keys) && Sorted(b.keys) && |a.keys| > 0 && |b.keys| > 0 && b.keys[0] > a.keys[|a.keys| - 1]
  }

  lemma HalvesInOrder(t: Tree, n: Ptr, s: Ptr, u: int)
    requires Ok(t) && Splitting(t, n, s, u)
    ensures InOrder(t.nodes[n], t.nodes[s])
  {
    assert Shape(t.nodes[n]) && Shape(t.nodes[s]);
  }

  /** Lines 290-301: after a leaf has been cut and its sibling linked, both are leaves and held by the thread, together
      they hold the entries of a full leaf and the new one, and all keys ascend. */
  lemma LeafHalves(run: seq<State>, i: nat, u: int, n: Ptr, s: Ptr)
    requires IsRun(run) && At(run, i, u, AtParent(LoadPar(n, s))) && Live(run[i].tree.nodes, n) &&
      run[i].tree.nodes[n].level == 0
    ensures Live(run[i].tree.nodes, s)
    ensures var a, b := run[i].tree.nodes[n], run[i].tree.nodes[s];
      && b.level == 0 && a.owner == u && b.owner == u && |a.keys| + |b.keys| == CAPACITY + 1 && InOrder(a, b)
  {
    KnownAt(run, i, u, AtParent(LoadPar(n, s)));
    HalvesInOrder(run[i].tree, n, s, u);
  }

  /** The separators of an inner node against its children: the keys of the child on the left of a separator are
      smaller, the first key of the child on its right is not. */
  ghost predicate Separates(ns: seq<Node>, p: Node, j: nat)
    requires j < |p.keys| && |p.kids| == |p.keys| + 1 && Live(ns, p.kids[j]) && Live(ns, p.kids[j + 1])
  {
    var l, r := ns[p.kids[j]], ns[p.kids[j + 1]];
    (forall x :: x in l.keys ==> x < p.keys[j]) && |r.keys| > 0 && r.keys[0] >= p.keys[j]
  }

  lemma SeparatorOk(t: Tree, p: Ptr, j: nat)
    requires Ok(t) && Live(t.nodes, p) && t.nodes[p].level > 0 && j < |t.nodes[p].keys|
    ensures |t.nodes[p].kids| == |t.nodes[p].keys| + 1 && Live(t.nodes, t.nodes[p].kids[j]) &&
      Live(t.nodes, t.nodes[p].kids[j + 1])
    ensures Separates(t.nodes, t.nodes[p], j)
  {
    var ns := t.nodes;
    assert Shape(ns[p]) && Routes(ns, ns[p]);
    assert KidOk(ns, ns[p], j) && KidOk(ns, ns[p], j + 1);
    var l, r := ns[p].kids[j], ns[p].kids[j + 1];
    assert Shape(ns[l]) && Shape(ns[r]) && PendOk(ns, ns[l]);
    if Live(ns, ns[l].pend) { assert Shape(ns[ns[l].pend]); }
  }

  /** What is asserted of an inner node: the keys ascend and separate the children, which point back at it. */
  ghost predicate InnerSound(t: Tree, p: Ptr, u: int) {
    && Live(t.nodes, p) && t.nodes[p].level > 0 && t.nodes[p].owner == u && Sorted(t.nodes[p].keys)
    && |t.nodes[p].kids| == |t.nodes[p].keys| + 1 && KidsHome(t.nodes, p)
    && forall j :: 0 <= j < |t.nodes[p].keys| ==> Separates(t.nodes, t.nodes[p], j)
  }

  lemma InnerIsSound(t: Tree, p: Ptr, u: int)
    requires Ok(t) && Live(t.nodes, p) && t.nodes[p].level > 0 && t.nodes[p].owner == u && KidsHome(t.nodes, p)
    ensures InnerSound(t, p, u)
  {
    assert Shape(t.nodes[p]);
    forall j | 0 <= j < |t.nodes[p].keys| ensures Separates(t.nodes, t.nodes[p], j) { SeparatorOk(t, p, j); }
  }

  /** Lines 363-377: a parent that had room for the sibling is an inner node, held by the thread, not overfull, its keys
      ascend and separate its children, and each child points back at it. */
  lemma ParentTookIn(run: seq<State>, i: nat, u: int, n: Ptr, s: Ptr, p: Ptr)
    requires IsRun(run) && At(run, i, u, Finishing(FinBump(n, s, p, 0)))
    ensures InnerSound(run[i].tree, p, u) && |run[i].tree.nodes[p].keys| <= CAPACITY
  {
    KnownAt(run, i, u, Finishing(FinBump(n, s, p, 0)));
    assert Shape(run[i].tree.nodes[p]);
    InnerIsSound(run[i].tree, p, u);
  }

  /** Lines 468-507: after a full parent has been cut and the lower pair released, the halves hold its keys and the
      new one but for the one that moved up, and the same holds of each of them. */
  lemma InnerHalves(run: seq<State>, i: nat, u: int, p: Ptr, q: Ptr)
    requires IsRun(run) && At(run, i, u, AtParent(LoadPar(p, q))) && Live(run[i].tree.nodes, p) &&
      run[i].tree.nodes[p].level > 0
    ensures InnerSound(run[i].tree, p, u) && InnerSound(run[i].tree, q, u)
    ensures var a, b := run[i].tree.nodes[p], run[i].tree.nodes[q]; |a.keys| + |b.keys| == CAPACITY && InOrder(a, b)
  {
    KnownAt(run, i, u, AtParent(LoadPar(p, q)));
    HalvesInOrder(run[i].tree, p, q, u);
    InnerIsSound(run[i].tree, p, u);
    InnerIsSound(run[i].tree, q, u);
  }
}
