/** The map used by one thread at a time (distcache/concurrent_map_impl.h:9-241, 243-510): its
    operations refine a plain map and leave every node unlocked. */
module TreeMap {
  import opened TreeNodes
  import opened TreeOps
  import opened TreeSplits
  import opened TreeThreads
  import opened TreeMachine
  import opened TreeWriters
  import opened TreeSafety
  import opened TreeScan

  /** The one thread. */
  const ME: int := 0

  /** Only these nodes are locked. */
  ghost predicate OnlyLocked(ns: seq<Node>, held: set<Ptr>) {
    forall i :: 0 <= i < |ns| ==> ns[i].owner == FREE || (ns[i].owner == ME && i in held)
  }

  /** What a concurrent reader relies on: a node whose version is unchanged is unchanged. */
  ghost predicate Versioned(a: Node, b: Node) {
    && a.level == b.level && a.low == b.low && a.version <= b.version
    && (b.version == a.version && !b.dirty ==>
        !a.dirty && a.high == b.high && a.keys == b.keys && a.kids == b.kids && a.next == b.next)
  }

  ghost predicate AllVersioned(ns: seq<Node>, ns': seq<Node>) {
    |ns| <= |ns'| && forall i :: 0 <= i < |ns| ==> Versioned(ns[i], ns'[i])
  }

  /** A parent pointer is set: nothing else changes. */
  lemma Retold(t: Tree, c: Ptr, q: Ptr, held: set<Ptr>, a: seq<Node>)
    requires Midway(t, held, a) && Live(t.nodes, c) && MayAdopt(t, c, q, ME)
    requires Ok(SetParent(t, c, q)) && Rely(ME, t, SetParent(t, c, q))
    ensures Midway(SetParent(t, c, q), held, a)
    ensures forall j :: 0 <= j < |t.nodes| ==> SetParent(t, c, q).nodes[j].(parent := t.nodes[j].parent) == t.nodes[j]
  {
    VersionedStep(a, t, SetParent(t, c, q));
  }

  lemma VersionedStep(a: seq<Node>, t: Tree, t': Tree)
    requires AllVersioned(a, t.nodes) && NodesRely(ME, t.nodes, t'.nodes)
    ensures AllVersioned(a, t'.nodes)
  {
    forall i | 0 <= i < |a| ensures Versioned(a[i], t'.nodes[i]) {
      assert Versioned(a[i], t.nodes[i]) && NodeRely(ME, t.nodes[i], t'.nodes[i]);
    }
  }

  /** In the middle of an operation: the tree is in order, only `held` is locked, and compared with
      the nodes `a` before the operation every changed node shows a new version or is still locked. */
  ghost predicate Midway(t: Tree, held: set<Ptr>, a: seq<Node>) {
    Ok(t) && OnlyLocked(t.nodes, held) && AllVersioned(a, t.nodes) && t.nodes[t.root].parent == NULL
  }

  /** A full inner node can be cut. */
  lemma CutReady(p: Node, k: int)
    requires Shape(p) && p.level > 0 && |p.keys| == CAPACITY
    ensures |p.kids| == |p.keys| + 1 && InnerCut(CAPACITY, FirstGt(p.keys, k)) <= CAPACITY
  {
  }

  /** What cutting the parent leaves alone. */
  lemma CutFrame(t: Tree, n: Ptr, s: Ptr, p: Ptr)
    requires 0 <= n < |t.nodes| && 0 <= s < |t.nodes| && 0 <= p < |t.nodes| && n != p && 0 <= t.root < |t.nodes|
    requires |t.nodes[p].kids| == |t.nodes[p].keys| + 1 &&
      InnerCut(|t.nodes[p].keys|, FirstGt(t.nodes[p].keys, t.nodes[s].low)) <= |t.nodes[p].keys|
    requires t.nodes[p].owner == ME && OnlyLocked(t.nodes, {n, s, p}) && t.nodes[t.root].parent == NULL
    ensures var t' := KidSplit(t, n, s, p);
      && |t'.nodes| == |t.nodes| + 1 && OnlyLocked(t'.nodes, {n, s, p, |t.nodes|}) && t'.nodes[t'.root].parent == NULL
      && t'.nodes[n].level == t.nodes[n].level && t'.nodes[p].level == t.nodes[p].level
  {
  }

  /** What cutting the leaf leaves alone. */
  lemma LeafCutFrame(t: Tree, n: Ptr, slot: nat, key: int, val: Val)
    requires 0 <= n < |t.nodes| && 0 <= t.root < |t.nodes| && Shape(t.nodes[n]) && t.nodes[n].level == 0
    requires |t.nodes[n].keys| == CAPACITY && slot <= CAPACITY
    requires t.nodes[n].owner == ME && OnlyLocked(t.nodes, {n}) && t.nodes[t.root].parent == NULL
    ensures |t.nodes[n].vals| == CAPACITY && LeafCut(CAPACITY, slot) <= CAPACITY
    ensures var t' := LeafSplit(t, n, slot, key, val);
      && |t'.nodes| == |t.nodes| + 1 && OnlyLocked(t'.nodes, {n, |t.nodes|}) && t'.nodes[t'.root].parent == NULL
  {
  }

  /** A child of a node at rest covers the keys its slot stands for. */
  lemma ChildCovers(t: Tree, n: Ptr, key: int, slot: nat)
    requires Ok(t) && OnlyLocked(t.nodes, {}) && Live(t.nodes, n) && t.nodes[n].level > 0
    requires t.nodes[n].low <= key < t.nodes[n].high && slot == FirstGt(t.nodes[n].keys, key)
    ensures slot < |t.nodes[n].kids|
    ensures var c := t.nodes[n].kids[slot];
            Live(t.nodes, c) && t.nodes[c].level == t.nodes[n].level - 1 && t.nodes[c].low <= key < t.nodes[c].high
  {
    assert Shape(t.nodes[n]) && Routes(t.nodes, t.nodes[n]);
    FirstGtIs(t.nodes[n].keys, key);
    assert KidOk(t.nodes, t.nodes[n], slot);
    var c := t.nodes[n].kids[slot];
    assert FreeOk(t, c);
  }

  class ConcurrentMap {
    /** The node arena, `root`, and the abstract contents. */
    var tree: Tree
    /** `size_est` */
    var size: nat

    ghost predicate Valid()
      reads this
    {
      && Ok(tree) && OnlyLocked(tree.nodes, {}) && tree.nodes[tree.root].parent == NULL && size == |tree.contents|
      && (forall k :: k in tree.contents ==> 0 <= k < TOP)
    }

    constructor ()
      ensures Valid() && tree.contents == map[]
    {
      tree := EmptyTree();
      size := 0;
      EmptyOk();
    }

    /** `locate_leaf` (lines 136-167) when nobody interferes: no retry is needed. */
    method LocateLeaf(key: int) returns (n: Ptr)
      requires Valid() && 0 <= key < TOP
      ensures Live(tree.nodes, n) && tree.nodes[n].level == 0 && tree.nodes[n].low <= key < tree.nodes[n].high
    {
      n := tree.root;
      assert FreeOk(tree, n);
      while tree.nodes[n].level > 0
        invariant Live(tree.nodes, n) && tree.nodes[n].low <= key < tree.nodes[n].high
        decreases tree.nodes[n].level
      {
        var slot := FirstGt(tree.nodes[n].keys, key);
        ChildCovers(tree, n, key, slot);
        n := tree.nodes[n].kids[slot];
      }
    }

    /** `get` (lines 29-58). */
    method Get(key: int) returns (res: Found)
      requires Valid() && 0 <= key < TOP
      ensures res == Lookup(tree.contents, key)
    {
      var n := LocateLeaf(key);
      var slot := FirstGeq(tree.nodes[n].keys, key);
      assert Shape(tree.nodes[n]) && FreeOk(tree, n);
      FirstGeqIs(tree.nodes[n].keys, key);
      LeafTells(tree, n, key, slot);
      res := if slot < |tree.nodes[n].keys| && tree.nodes[n].keys[slot] == key then Present(tree.nodes[n].vals[slot])
          else Absent;
    }

    /** `locate_leaf_locked` (lines 170-195): the lock is free, so there is no spinning. */
    method LocateLeafLocked(key: int) returns (n: Ptr)
      requires Valid() && 0 <= key < TOP
      modifies this`tree
      ensures Midway(tree, {n}, old(tree.nodes)) && AtRest(tree, n, ME) && tree.contents == old(tree.contents)
      ensures tree.nodes[n].level == 0 && tree.nodes[n].low <= key < tree.nodes[n].high
    {
      n := LocateLeaf(key);
      LockKeeps(tree, n, ME);
      tree := SetOwner(tree, n, ME);
      VersionedStep(old(tree.nodes), old(tree), tree);
    }

    method Unlock(n: Ptr, ghost held: set<Ptr>, ghost a: seq<Node>)
      requires Midway(tree, held, a) && AtRest(tree, n, ME)
      modifies this`tree
      ensures tree == SetOwner(old(tree), n, FREE) && Midway(tree, held - {n}, a)
    {
      UnlockKeeps(tree, n, ME);
      tree := SetOwner(tree, n, FREE);
      VersionedStep(a, old(tree), tree);
    }

    /** `version++` */
    method BumpVersion(n: Ptr, key: int, val: Val, ghost held: set<Ptr>, ghost a: seq<Node>)
      requires Midway(tree, held, a) && Bumpable(tree, n, key, val, ME)
      modifies this`tree
      ensures tree == Bump(old(tree), n, key, val) && Midway(tree, held, a) && AtRest(tree, n, ME)
    {
      BumpKeeps(tree, n, key, val, ME);
      BumpRely(tree, n, key, val, ME);
      tree := Bump(tree, n, key, val);
      VersionedStep(a, old(tree), tree);
    }

    /** `update` (lines 61-71). */
    method Update(key: int, val: Val) returns (found: bool)
      requires Valid() && 0 <= key < TOP
      modifies this
      ensures Valid() && found == (key in old(tree.contents))
      ensures tree.contents == if found then old(tree.contents)[key := val] else old(tree.contents)
      ensures AllVersioned(old(tree.nodes), tree.nodes)
    {
      ghost var a := tree.nodes;
      var n := LocateLeafLocked(key);
      var slot := FirstGeq(tree.nodes[n].keys, key);
      assert Shape(tree.nodes[n]);
      FirstGeqIs(tree.nodes[n].keys, key);
      LeafTells(tree, n, key, slot);
      found := slot < |tree.nodes[n].keys| && tree.nodes[n].keys[slot] == key;
      if found { Overwrite(n, slot, val, a); } else { Unlock(n, {n}, a); }
    }

    /** Lines 65-69 and 203-207: the entry is there, its value is replaced under the lock. */
    method Overwrite(n: Ptr, slot: nat, val: Val, ghost a: seq<Node>)
      requires Midway(tree, {n}, a) && AtRest(tree, n, ME) && tree.nodes[n].level == 0 && slot < |tree.nodes[n].keys|
      modifies this`tree
      ensures Midway(tree, {}, a) && tree.contents == old(tree.contents)[old(tree.nodes)[n].keys[slot] := val]
    {
      ghost var t := tree;
      assert Shape(tree.nodes[n]);
      ValUpdateKeeps(tree, n, slot, val, ME);
      tree := ValUpdate(tree, n, slot, val);
      VersionedStep(a, t, tree);
      Unlock(n, {n}, a);
      assert {n} - {n} == {};
    }

    /** Where the new entry is: still waiting in the leaves being split, or stored. */
    ghost predicate Awaits(n: Ptr, key: int, val: Val, m: map<int, Val>)
      reads this
    {
      Live(tree.nodes, n) && tree.contents == if tree.nodes[n].level == 0 then m else m[key := val]
    }

    /** The versions of a split pair, lower node first (lines 339-340, 381-382, 462-463). */
    method BumpPair(n: Ptr, s: Ptr, key: int, val: Val, ghost held: set<Ptr>, ghost m: map<int, Val>,
        ghost seen: set<Found>, ghost a: seq<Node>)
      requires Midway(tree, held, a) && Bumping(tree, n, s, 0, Op.Insert(key, val), seen, ME) && Awaits(n, key, val, m)
      modifies this`tree
      ensures Midway(tree, held, a) && tree.contents == m[key := val] && AtRest(tree, n, ME) && AtRest(tree, s, ME)
      ensures tree.root == old(tree.root) && tree.height == old(tree.height) && |tree.nodes| == |old(tree.nodes)|
      ensures forall i :: 0 <= i < |tree.nodes| && i != n && i != s ==> tree.nodes[i] == old(tree.nodes)[i]
      ensures tree.nodes[n].level == old(tree.nodes)[n].level && tree.nodes[s].level == old(tree.nodes)[s].level
      ensures tree.nodes[n].parent == old(tree.nodes)[n].parent && tree.nodes[s].parent == old(tree.nodes)[s].parent
    {
      BumpFirst(tree, ME, Op.Insert(key, val), n, s, seen);
      BumpVersion(n, key, val, held, a);
      BumpSecond(tree, ME, Op.Insert(key, val), n, s, Seen(tree, Op.Insert(key, val), seen));
      BumpVersion(s, key, val, held, a);
    }

    method UnlockThree(p: Ptr, n: Ptr, s: Ptr, ghost a: seq<Node>)
      requires Midway(tree, {n, s, p}, a) && AtRest(tree, p, ME) && AtRest(tree, n, ME) && AtRest(tree, s, ME)
      requires n != s && n != p && s != p
      modifies this`tree
      ensures Midway(tree, {}, a) && tree.contents == old(tree.contents)
    {
      Unlock(p, {n, s, p}, a);
      Unlock(n, {n, s, p} - {p}, a);
      Unlock(s, {n, s, p} - {p} - {n}, a);
      assert {n, s, p} - {p} - {n} - {s} == {};
    }

    /** Lines 337-345 and 379-387: three versions incremented, three nodes released. */
    method Finish(n: Ptr, s: Ptr, p: Ptr, key: int, val: Val, ghost m: map<int, Val>, ghost seen: set<Found>,
        ghost a: seq<Node>)
      requires Midway(tree, {n, s, p}, a) && Awaits(n, key, val, m)
      requires FinPhase(tree, ME, Op.Insert(key, val), FinBump(n, s, p, 0), seen)
      modifies this`tree
      ensures Midway(tree, {}, a) && tree.contents == m[key := val]
    {
      BumpParent(tree, ME, Op.Insert(key, val), n, s, p, seen);
      BumpVersion(p, key, val, {n, s, p}, a);
      BumpPair(n, s, key, val, {n, s, p}, m, Seen(tree, Op.Insert(key, val), seen), a);
      UnlockThree(p, n, s, a);
    }

    /** Lines 346-387: the parent has room. */
    method Give(n: Ptr, s: Ptr, p: Ptr, key: int, val: Val, ghost m: map<int, Val>, ghost seen: set<Found>,
        ghost a: seq<Node>)
      requires Midway(tree, {n, s, p}, a) && Awaits(n, key, val, m)
      requires ParentPhase(tree, ME, Op.Insert(key, val), HoldPar(n, s, p), seen) && |tree.nodes[p].keys| < CAPACITY
      modifies this`tree
      ensures Midway(tree, {}, a) && tree.contents == m[key := val]
    {
      ghost var op := Op.Insert(key, val);
      PlaceSibling(n, s, p, key, val, seen, a);
      ghost var seen1 := Seen(tree, op, seen);
      TellSibling(n, s, p, key, val, seen1, a);
      Finish(n, s, p, key, val, m, Seen(tree, op, seen1), a);
    }

    /** Lines 347-356: the parent takes the separator and the sibling. */
    method PlaceSibling(n: Ptr, s: Ptr, p: Ptr, key: int, val: Val, ghost seen: set<Found>, ghost a: seq<Node>)
      requires Midway(tree, {n, s, p}, a) && ParentPhase(tree, ME, Op.Insert(key, val), HoldPar(n, s, p), seen) &&
        |tree.nodes[p].keys| < CAPACITY
      modifies this`tree
      ensures HandPhase(tree, ME, Op.Insert(key, val), TellSib(n, s, p), Seen(tree, Op.Insert(key, val), seen))
      ensures Midway(tree, {n, s, p}, a) && tree.contents == old(tree.contents) &&
        tree.nodes[n].level == old(tree.nodes)[n].level
    {
      assert Shape(tree.nodes[p]) && ParentOk(tree.nodes, n);
      GiveKeeps(tree, ME, Op.Insert(key, val), n, s, p, seen);
      tree := KidInsert(tree, n, s, p);
      VersionedStep(a, old(tree), tree);
    }

    /** Line 357: the sibling learns its parent. */
    method TellSibling(n: Ptr, s: Ptr, p: Ptr, key: int, val: Val, ghost seen: set<Found>, ghost a: seq<Node>)
      requires Midway(tree, {n, s, p}, a) && HandPhase(tree, ME, Op.Insert(key, val), TellSib(n, s, p), seen)
      modifies this`tree
      ensures FinPhase(tree, ME, Op.Insert(key, val), FinBump(n, s, p, 0), Seen(tree, Op.Insert(key, val), seen))
      ensures Midway(tree, {n, s, p}, a) && tree.contents == old(tree.contents) &&
        tree.nodes[n].level == old(tree.nodes)[n].level
    {
      HandedFree(tree, n, s, ME);
      TellSibKeeps(tree, ME, Op.Insert(key, val), n, s, p, seen);
      tree := SetParent(tree, s, p);
      VersionedStep(a, old(tree), tree);
    }

    /** Lines 320-334: a new root over the two halves. */
    method AllocateRoot(n: Ptr, s: Ptr, key: int, val: Val, ghost seen: set<Found>, ghost a: seq<Node>) returns (r: Ptr)
      requires Midway(tree, {n, s}, a) && ParentPhase(tree, ME, Op.Insert(key, val), Crown(n, s), seen)
      modifies this`tree
      ensures Ok(tree) && OnlyLocked(tree.nodes, {n, s, r}) && AllVersioned(a, tree.nodes)
      ensures HandPhase(tree, ME, Op.Insert(key, val), CrownSib(n, s, r), Seen(tree, Op.Insert(key, val), seen))
      ensures tree.contents == old(tree.contents) && tree.nodes[n].level == old(tree.nodes)[n].level
    {
      r := |tree.nodes|;
      CrownKeeps(tree, ME, Op.Insert(key, val), n, s, seen);
      tree := NewRoot(tree, n, s);
      VersionedStep(a, old(tree), tree);
    }

    /** Line 335: both halves know it. */
    method PlaceRoot(n: Ptr, s: Ptr, key: int, val: Val, ghost seen: set<Found>, ghost a: seq<Node>)
        returns (r: Ptr, ghost seen': set<Found>)
      requires Midway(tree, {n, s}, a) && ParentPhase(tree, ME, Op.Insert(key, val), Crown(n, s), seen)
      modifies this`tree
      ensures Ok(tree) && OnlyLocked(tree.nodes, {n, s, r}) && AllVersioned(a, tree.nodes)
      ensures HandPhase(tree, ME, Op.Insert(key, val), CrownRoot(n, s, r), seen')
      ensures tree.contents == old(tree.contents) && tree.nodes[n].level == old(tree.nodes)[n].level
    {
      ghost var op := Op.Insert(key, val);
      r := AllocateRoot(n, s, key, val, seen, a);
      seen' := Seen(tree, op, seen);
      ghost var t := tree;
      CrownSibKeeps(tree, ME, op, n, s, r, seen');
      tree := SetParent(tree, s, r);
      VersionedStep(a, t, tree);
      seen' := Seen(tree, op, seen');
    }

    /** Lines 320-345: the split reached the root. */
    method Crowned(n: Ptr, s: Ptr, key: int, val: Val, ghost m: map<int, Val>, ghost seen: set<Found>,
        ghost a: seq<Node>)
      requires Midway(tree, {n, s}, a) && Awaits(n, key, val, m)
      requires ParentPhase(tree, ME, Op.Insert(key, val), Crown(n, s), seen)
      modifies this`tree
      ensures Midway(tree, {}, a) && tree.contents == m[key := val]
    {
      ghost var op, seen1 := Op.Insert(key, val), seen;
      var r;
      r, seen1 := PlaceRoot(n, s, key, val, seen, a);
      ghost var t := tree;
      CrownRootKeeps(tree, ME, op, n, s, r, seen1);
      tree := tree.(root := r);
      VersionedStep(a, t, tree);
      Finish(n, s, r, key, val, m, Seen(tree, op, seen1), a);
    }

    /** Lines 456-459: every child of the new sibling is told. */
    method TellKids(n: Ptr, s: Ptr, p: Ptr, q: Ptr, key: int, val: Val, ghost seen: set<Found>, ghost a: seq<Node>)
        returns (ghost seen': set<Found>)
      requires Midway(tree, {n, s, p, q}, a) && RehomePhase(tree, ME, Op.Insert(key, val), Rehome(n, s, p, q, 0), seen)
      modifies this`tree
      ensures Midway(tree, {n, s, p, q}, a) && MidPhase(tree, ME, Op.Insert(key, val), MidBump(n, s, p, q, 0), seen')
      ensures tree.contents == old(tree.contents) && tree.nodes[n].level == old(tree.nodes)[n].level
      ensures tree.nodes[p].level == old(tree.nodes)[p].level && tree.height == old(tree.height)
    {
      ghost var op := Op.Insert(key, val);
      seen' := seen;
      var i := 0;
      while i < |tree.nodes[q].kids|
        invariant Midway(tree, {n, s, p, q}, a) && RehomePhase(tree, ME, op, Rehome(n, s, p, q, i), seen')
        invariant tree.contents == old(tree.contents) && tree.nodes[n].level == old(tree.nodes)[n].level
        invariant tree.nodes[p].level == old(tree.nodes)[p].level && tree.height == old(tree.height)
        decreases |tree.nodes[q].kids| - i
      {
        TellKid(n, s, p, q, i, key, val, seen', a);
        seen' := Seen(tree, op, seen');
        i := i + 1;
      }
      RehomedKeeps(tree, ME, op, n, s, p, q, seen');
      seen' := Seen(tree, op, seen');
    }

    method TellKid(n: Ptr, s: Ptr, p: Ptr, q: Ptr, i: nat, key: int, val: Val, ghost seen: set<Found>,
        ghost a: seq<Node>)
      requires Midway(tree, {n, s, p, q}, a) && RehomePhase(tree, ME, Op.Insert(key, val), Rehome(n, s, p, q, i), seen)
      requires i < |tree.nodes[q].kids|
      modifies this`tree
      ensures Midway(tree, {n, s, p, q}, a)
      ensures RehomePhase(tree, ME, Op.Insert(key, val), Rehome(n, s, p, q, i + 1),
        Seen(tree, Op.Insert(key, val), seen))
      ensures tree.contents == old(tree.contents) && tree.height == old(tree.height) &&
        |tree.nodes| == |old(tree.nodes)|
      ensures forall j ::
        0 <= j < |tree.nodes| ==> tree.nodes[j].(parent := old(tree.nodes)[j].parent) == old(tree.nodes)[j]
    {
      RehomeKeeps(tree, ME, Op.Insert(key, val), n, s, p, q, i, seen);
      NextChild(tree, ME, Op.Insert(key, val), n, s, p, q, i, seen);
      Retold(tree, tree.nodes[q].kids[i], q, {n, s, p, q}, a);
      tree := SetParent(tree, tree.nodes[q].kids[i], q);
    }

    /** Lines 388-455: the full parent is cut in two. */
    method CutParent(n: Ptr, s: Ptr, p: Ptr, key: int, val: Val, ghost seen: set<Found>, ghost a: seq<Node>)
        returns (q: Ptr, ghost seen': set<Found>)
      requires Midway(tree, {n, s, p}, a) && ParentPhase(tree, ME, Op.Insert(key, val), HoldPar(n, s, p), seen)
      requires |tree.nodes[p].keys| == CAPACITY
      modifies this`tree
      ensures Midway(tree, {n, s, p, q}, a) && RehomePhase(tree, ME, Op.Insert(key, val), RehomeSib(n, s, p, q), seen')
      ensures tree.contents == old(tree.contents) && tree.height == old(tree.height)
      ensures tree.nodes[n].level == old(tree.nodes)[n].level && tree.nodes[p].level == old(tree.nodes)[p].level
    {
      ghost var t, op := tree, Op.Insert(key, val);
      q := |tree.nodes|;
      assert ParentOk(tree.nodes, n);
      CutReady(tree.nodes[p], tree.nodes[s].low);
      CutFrame(tree, n, s, p);
      DivideKeeps(tree, ME, op, n, s, p, seen);
      tree := KidSplit(tree, n, s, p);
      VersionedStep(a, t, tree);
      seen' := Seen(tree, op, seen);
    }

    /** Line 452: a sibling that stays on the left is told here. */
    method TellMoved(n: Ptr, s: Ptr, p: Ptr, q: Ptr, key: int, val: Val, ghost seen: set<Found>, ghost a: seq<Node>)
      requires Midway(tree, {n, s, p, q}, a) && RehomePhase(tree, ME, Op.Insert(key, val), RehomeSib(n, s, p, q), seen)
      modifies this`tree
      ensures Midway(tree, {n, s, p, q}, a)
      ensures RehomePhase(tree, ME, Op.Insert(key, val), Rehome(n, s, p, q, 0), Seen(tree, Op.Insert(key, val), seen))
      ensures tree.contents == old(tree.contents) && tree.height == old(tree.height) &&
        |tree.nodes| == |old(tree.nodes)|
      ensures forall j :: 0 <= j < |tree.nodes| ==> tree.nodes[j].level == old(tree.nodes)[j].level
    {
      RehomeSibKeeps(tree, ME, Op.Insert(key, val), n, s, p, q, seen);
      if s in tree.nodes[p].kids {
        HandedFree(tree, n, s, ME);
        tree := SetParent(tree, s, p);
        VersionedStep(a, old(tree), tree);
      }
    }

    /** Lines 388-466: the parent is full, so it is split and takes the place of the node just split. */
    method Divide(n: Ptr, s: Ptr, p: Ptr, key: int, val: Val, ghost m: map<int, Val>, ghost seen: set<Found>,
        ghost a: seq<Node>) returns (q: Ptr, ghost seen': set<Found>)
      requires Midway(tree, {n, s, p}, a) && Awaits(n, key, val, m)
      requires ParentPhase(tree, ME, Op.Insert(key, val), HoldPar(n, s, p), seen) && |tree.nodes[p].keys| == CAPACITY
      modifies this`tree
      ensures Midway(tree, {p, q}, a) && ParentPhase(tree, ME, Op.Insert(key, val), LoadPar(p, q), seen')
      ensures Awaits(p, key, val, m) && tree.height == old(tree.height) &&
        tree.nodes[p].level == old(tree.nodes)[p].level > 0
    {
      assert ParentOk(tree.nodes, n);
      q, seen' := CutAndTell(n, s, p, key, val, seen, a);
      BumpPair(n, s, key, val, {n, s, p, q}, m, seen', a);
      seen' := Seen(tree, Op.Insert(key, val), seen');
      DropPair(n, s, p, q, a);
    }

    /** Lines 388-459: the cut, then every child that moved is told its new parent. */
    method CutAndTell(n: Ptr, s: Ptr, p: Ptr, key: int, val: Val, ghost seen: set<Found>, ghost a: seq<Node>)
        returns (q: Ptr, ghost seen': set<Found>)
      requires Midway(tree, {n, s, p}, a) && ParentPhase(tree, ME, Op.Insert(key, val), HoldPar(n, s, p), seen)
      requires |tree.nodes[p].keys| == CAPACITY
      modifies this`tree
      ensures Midway(tree, {n, s, p, q}, a) && MidPhase(tree, ME, Op.Insert(key, val), MidBump(n, s, p, q, 0), seen')
      ensures tree.contents == old(tree.contents) && tree.height == old(tree.height)
      ensures tree.nodes[n].level == old(tree.nodes)[n].level && tree.nodes[p].level == old(tree.nodes)[p].level
    {
      q, seen' := CutParent(n, s, p, key, val, seen, a);
      TellMoved(n, s, p, q, key, val, seen', a);
      seen' := Seen(tree, Op.Insert(key, val), seen');
      seen' := TellKids(n, s, p, q, key, val, seen', a);
    }

    method DropPair(n: Ptr, s: Ptr, p: Ptr, q: Ptr, ghost a: seq<Node>)
      requires Midway(tree, {n, s, p, q}, a) && Splitting(tree, p, q, ME) && AtRest(tree, n, ME) && AtRest(tree, s, ME)
      requires n != s && n != p && n != q && s != p && s != q
      modifies this`tree
      ensures Midway(tree, {p, q}, a) && Splitting(tree, p, q, ME)
      ensures tree.contents == old(tree.contents) && tree.height == old(tree.height) &&
        tree.nodes[p] == old(tree.nodes)[p]
    {
      ghost var t := tree;
      Unlock(n, {n, s, p, q}, a);
      UpperFrame(t, tree, ME, p, q);
      t := tree;
      Unlock(s, {n, s, p, q} - {n}, a);
      UpperFrame(t, tree, ME, p, q);
      assert {n, s, p, q} - {n} - {s} == {p, q};
    }

    /** Lines 248-287: the full leaf is cut in two around the new entry. */
    method CutLeaf(key: int, val: Val, slot: nat, n: Ptr, ghost a: seq<Node>) returns (s: Ptr)
      requires Midway(tree, {n}, a) && FitsLeaf(tree, n, slot, key, ME) && |tree.nodes[n].keys| == CAPACITY
      modifies this`tree
      ensures Midway(tree, {n, s}, a) && LeafPhase(tree, ME, Op.Insert(key, val), LinkSib(n, s), {})
      ensures tree.contents == old(tree.contents)
    {
      ghost var t := tree;
      s := |tree.nodes|;
      LeafCutFrame(tree, n, slot, key, val);
      HoldSplit(tree, ME, Op.Insert(key, val), n, slot, {});
      tree := LeafSplit(tree, n, slot, key, val);
      VersionedStep(a, t, tree);
    }

    /** Line 288: the halves are linked. */
    method LinkSibling(key: int, val: Val, n: Ptr, s: Ptr, ghost a: seq<Node>) returns (ghost seen: set<Found>)
      requires Midway(tree, {n, s}, a) && LeafPhase(tree, ME, Op.Insert(key, val), LinkSib(n, s), {})
      modifies this`tree
      ensures Midway(tree, {n, s}, a) && ParentPhase(tree, ME, Op.Insert(key, val), LoadPar(n, s), seen)
      ensures Awaits(n, key, val, old(tree.contents))
    {
      ghost var t := tree;
      LinkSibKeeps(tree, ME, Op.Insert(key, val), n, s, {});
      tree := Link(tree, n, s);
      VersionedStep(a, t, tree);
      seen := Seen(tree, Op.Insert(key, val), {});
    }

    /** Lines 307-318: nobody else holds the parent, so the first one locked is the right one. */
    method LockParent(n: Ptr, s: Ptr, p: Ptr, key: int, val: Val, ghost seen: set<Found>, ghost a: seq<Node>)
        returns (ghost seen': set<Found>)
      requires Midway(tree, {n, s}, a) && ParentPhase(tree, ME, Op.Insert(key, val), LoadPar(n, s), seen)
      requires p == tree.nodes[n].parent != NULL
      modifies this`tree
      ensures Midway(tree, {n, s, p}, a) && ParentPhase(tree, ME, Op.Insert(key, val), HoldPar(n, s, p), seen')
      ensures tree.contents == old(tree.contents) && tree.height == old(tree.height)
      ensures tree.nodes[n] == old(tree.nodes)[n] && tree.nodes[p].level == tree.nodes[n].level + 1
    {
      ghost var t := tree;
      assert ParentOk(tree.nodes, n);
      LockParKeeps(tree, ME, Op.Insert(key, val), n, s, p, seen);
      tree := SetOwner(tree, p, ME);
      VersionedStep(a, t, tree);
      seen' := Seen(tree, Op.Insert(key, val), seen);
    }

    /** `split_n_insert_leaf` (lines 244-510). */
    method SplitNInsertLeaf(key: int, val: Val, slot: nat, target: Ptr, ghost a: seq<Node>)
      requires Midway(tree, {target}, a) && FitsLeaf(tree, target, slot, key, ME) &&
        |tree.nodes[target].keys| == CAPACITY
      modifies this`tree
      ensures Midway(tree, {}, a) && tree.contents == old(tree.contents)[key := val]
    {
      ghost var m := tree.contents;
      ghost var seen;
      var n := target;
      var s := CutLeaf(key, val, slot, n, a);
      seen := LinkSibling(key, val, n, s, a);
      while tree.nodes[n].parent != NULL
        invariant Midway(tree, {n, s}, a) && ParentPhase(tree, ME, Op.Insert(key, val), LoadPar(n, s), seen)
        invariant Awaits(n, key, val, m)
        decreases tree.height - tree.nodes[n].level
      {
        var p := tree.nodes[n].parent;
        seen := LockParent(n, s, p, key, val, seen, a);
        if |tree.nodes[p].keys| < CAPACITY {
          Give(n, s, p, key, val, m, seen, a);
          return;
        }
        var q;
        q, seen := Divide(n, s, p, key, val, m, seen, a);
        n, s := p, q;
      }
      Crowned(n, s, key, val, m, seen, a);
    }

    /** Lines 224-236: a leaf with room. */
    method PlaceEntry(key: int, val: Val, slot: nat, n: Ptr, ghost a: seq<Node>)
      requires Midway(tree, {n}, a) && FitsLeaf(tree, n, slot, key, ME) && |tree.nodes[n].keys| < CAPACITY
      modifies this`tree
      ensures Midway(tree, {}, a) && tree.contents == old(tree.contents)[key := val]
    {
      ghost var t := tree;
      assert Shape(tree.nodes[n]);
      HoldInsert(tree, ME, Op.Insert(key, val), n, slot, {});
      tree := LeafInsert(tree, n, slot, key, val);
      VersionedStep(a, t, tree);
      BumpVersion(n, key, val, {n}, a);
      Unlock(n, {n}, a);
      assert {n} - {n} == {};
    }

    /** `insert_leaf` (lines 198-241) and `insert` (lines 74-78). */
    method Insert(key: int, val: Val)
      requires Valid() && 0 <= key < TOP
      modifies this
      ensures Valid() && tree.contents == old(tree.contents)[key := val]
      ensures AllVersioned(old(tree.nodes), tree.nodes)
    {
      ghost var a := tree.nodes;
      var n := LocateLeafLocked(key);
      var slot := FirstGeq(tree.nodes[n].keys, key);
      assert Shape(tree.nodes[n]);
      FirstGeqIs(tree.nodes[n].keys, key);
      LeafTells(tree, n, key, slot);
      if slot < |tree.nodes[n].keys| && tree.nodes[n].keys[slot] == key {
        Overwrite(n, slot, val, a);
        return;
      }
      Enter(key, val, slot, n, a);
      size := size + 1;
    }

    method Enter(key: int, val: Val, slot: nat, n: Ptr, ghost a: seq<Node>)
      requires Midway(tree, {n}, a) && FitsLeaf(tree, n, slot, key, ME)
      modifies this`tree
      ensures Midway(tree, {}, a) && tree.contents == old(tree.contents)[key := val]
    {
      if |tree.nodes[n].keys| < CAPACITY {
        PlaceEntry(key, val, slot, n, a);
      } else {
        assert Shape(tree.nodes[n]);
        SplitNInsertLeaf(key, val, slot, n, a);
      }
    }

    /** `scan` (lines 96-112). */
    method Scan(begin: int, n: nat) returns (count: nat, res: seq<(int, Val)>)
      requires Valid() && 0 <= begin < TOP
      ensures count == |res| && FirstEntries(tree.contents, begin, n, res)
    {
      var leaf := LocateLeaf(begin);
      QuietChained(tree);
      count, res := ScanFrom(tree, begin, n, leaf);
    }

    /** `range_scan` (lines 114-128). */
    method RangeScan(begin: int, end: int) returns (res: seq<(int, Val)>)
      requires Valid() && 0 <= begin < TOP
      ensures EntriesWithin(tree.contents, begin, end, res)
    {
      var leaf := LocateLeaf(begin);
      QuietChained(tree);
      res := RangeScanFrom(tree, begin, end, leaf);
    }
  }
}
