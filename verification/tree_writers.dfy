/** The steps of `split_n_insert_leaf` after its sibling is linked: each keeps the tree in order and
    gives the writer what it needs next (distcache/concurrent_map_impl.h:304-509). */
module TreeWriters {
  import opened TreeNodes
  import opened TreeOps
  import opened TreeSplits
  import opened TreeThreads
  import opened TreeMachine

  /** `b` holds the same entries as `a`, in the same place of the chain. */
  ghost predicate SameEntries(a: Node, b: Node) {
    a.level == b.level && a.low == b.low && a.high == b.high && a.keys == b.keys && a.vals == b.vals && a.next == b.next
  }

  /** A step that stores nothing new leaves the pair as it was. */
  lemma PairFrame(t: Tree, t': Tree, u: int, n: Ptr, s: Ptr, op: Op, seen: set<Found>, seen': set<Found>)
    requires Pair(t, n, s, op, seen) && NodesRely(u, t.nodes, t'.nodes) && t'.contents == t.contents && seen <= seen'
    requires SameEntries(t.nodes[n], t'.nodes[n]) && SameEntries(t.nodes[s], t'.nodes[s])
    ensures Pair(t', n, s, op, seen')
  {
    ReadyFrame(t, t', u, n, op.key, Val0(op));
    ReadyFrame(t, t', u, s, op.key, Val0(op));
  }

  lemma ReadyFrame(t: Tree, t': Tree, u: int, n: Ptr, k: int, val: Val)
    requires LeafReady(t, n, k, val) && NodesRely(u, t.nodes, t'.nodes) && t'.contents == t.contents
    requires SameEntries(t.nodes[n], t'.nodes[n])
    ensures LeafReady(t', n, k, val)
  {
    var x := t.nodes[n].next;
    assert Live(t.nodes, x) ==> NodeRely(u, t.nodes[x], t'.nodes[x]);
  }

  // ---------------------------------------------------------------- the parent

  lemma GiveKeeps(t: Tree, u: int, op: Op, n: Ptr, s: Ptr, p: Ptr, seen: set<Found>)
    requires Ok(t) && op.Insert? && ReadyParent(t, n, s, p, u) && Pair(t, n, s, op, seen) &&
      |t.nodes[p].keys| < CAPACITY
    requires |t.nodes[p].kids| == |t.nodes[p].keys| + 1
    ensures var t' := KidInsert(t, n, s, p);
      Keeps(t, t', u) && HandPhase(t', u, op, TellSib(n, s, p), Seen(t', op, seen))
  {
    var t' := KidInsert(t, n, s, p);
    KidInsertKeeps(t, n, s, p, u);
    KidInsertRely(t, n, s, p, u);
    PairFrame(t, t', u, n, s, op, seen, Seen(t', op, seen));
    assert HomeOk(t.nodes, p);
    GiveHomes(t, n, s, p);
  }

  lemma GiveHomes(t: Tree, n: Ptr, s: Ptr, p: Ptr)
    requires Live(t.nodes, n) && Live(t.nodes, s) && Live(t.nodes, p) && |t.nodes[p].kids| == |t.nodes[p].keys| + 1
    requires KidsHome(t.nodes, p) && t.nodes[s].parent == NULL && n != p && n != s && s != p
    ensures forall j ::
      0 <= j < |KidInsert(t, n, s, p).nodes[p].kids| ==>
      OldHome(KidInsert(t, n, s, p).nodes, KidInsert(t, n, s, p).nodes[p].kids[j], s, p)
  {
    var t' := KidInsert(t, n, s, p);
    forall j | 0 <= j < |t'.nodes[p].kids| ensures OldHome(t'.nodes, t'.nodes[p].kids[j], s, p) {
      InsertAtMember(t.nodes[p].kids, FirstGt(t.nodes[p].keys, t.nodes[s].low) + 1, s, t'.nodes[p].kids[j]);
    }
  }

  lemma DivideKeeps(t: Tree, u: int, op: Op, n: Ptr, s: Ptr, p: Ptr, seen: set<Found>)
    requires Ok(t) && op.Insert? && ReadyParent(t, n, s, p, u) && Pair(t, n, s, op, seen) &&
      |t.nodes[p].keys| == CAPACITY
    requires |t.nodes[p].kids| == |t.nodes[p].keys| + 1 &&
      InnerCut(CAPACITY, FirstGt(t.nodes[p].keys, t.nodes[s].low)) <= CAPACITY
    ensures var t' := KidSplit(t, n, s, p);
      Keeps(t, t', u) && RehomePhase(t', u, op, RehomeSib(n, s, p, |t.nodes|), Seen(t', op, seen))
  {
    var t' := KidSplit(t, n, s, p);
    KidSplitKeeps(t, n, s, p, u);
    KidSplitRely(t, n, s, p, u);
    PairFrame(t, t', u, n, s, op, seen, Seen(t', op, seen));
  }

  lemma CrownKeeps(t: Tree, u: int, op: Op, n: Ptr, s: Ptr, seen: set<Found>)
    requires Ok(t) && ParentPhase(t, u, op, Crown(n, s), seen)
    ensures var t' := NewRoot(t, n, s);
      Keeps(t, t', u) && HandPhase(t', u, op, CrownSib(n, s, |t.nodes|), Seen(t', op, seen))
  {
    var t' := NewRoot(t, n, s);
    NewRootKeeps(t, n, s, u);
    NewRootRely(t, n, s, u);
    PairFrame(t, t', u, n, s, op, seen, Seen(t', op, seen));
  }

  lemma LockParKeeps(t: Tree, u: int, op: Op, n: Ptr, s: Ptr, p: Ptr, seen: set<Found>)
    requires Ok(t) && u != FREE && ParentPhase(t, u, op, LockPar(n, s, p), seen) && t.nodes[p].owner == FREE
    ensures var t' := SetOwner(t, p, u);
      Keeps(t, t', u) && ParentPhase(t', u, op, CheckPar(n, s, p), Seen(t', op, seen))
  {
    var t' := SetOwner(t, p, u);
    LockKeeps(t, p, u);
    PairFrame(t, t', u, n, s, op, seen, Seen(t', op, seen));
  }

  lemma DropParKeeps(t: Tree, u: int, op: Op, n: Ptr, s: Ptr, p: Ptr, seen: set<Found>)
    requires Ok(t) && ParentPhase(t, u, op, DropPar(n, s, p), seen)
    ensures var t' := SetOwner(t, p, FREE); Keeps(t, t', u) && ParentPhase(t', u, op, LoadPar(n, s), Seen(t', op, seen))
  {
    var t' := SetOwner(t, p, FREE);
    UnlockKeeps(t, p, u);
    PairFrame(t, t', u, n, s, op, seen, Seen(t', op, seen));
  }

  lemma HoldParKeeps(t: Tree, t': Tree, u: int, op: Op, n: Ptr, s: Ptr, p: Ptr, pc': PC, seen: set<Found>)
    requires Ok(t) && ParentPhase(t, u, op, HoldPar(n, s, p), seen)
    requires ParentCan(t, HoldPar(n, s, p)) && (t', pc') == ParentNext(t, u, HoldPar(n, s, p))
    ensures Keeps(t, t', u)
    ensures if pc'.Handing? then HandPhase(t', u, op, pc'.hand, Seen(t', op, seen))
            else pc'.Dividing? && RehomePhase(t', u, op, pc'.div, Seen(t', op, seen))
  {
    assert Shape(t.nodes[p]);
    if |t.nodes[p].keys| != CAPACITY {
      GiveKeeps(t, u, op, n, s, p, seen);
    } else {
      DivideKeeps(t, u, op, n, s, p, seen);
    }
  }

  lemma ReadParKeeps(t: Tree, t': Tree, u: int, op: Op, pc: ParentPC, pc': PC, seen: set<Found>)
    requires Ok(t) && u != FREE && ParentPhase(t, u, op, pc, seen) && ParentCan(t, pc) &&
      (t', pc') == ParentNext(t, u, pc)
    requires pc.LoadPar? || pc.CheckPar?
    ensures Keeps(t, t', u) && Knows(t', u, op, pc', Seen(t', op, seen))
  {
    SameKeeps(t, u);
    assert ParentOk(t.nodes, pc.n);
  }

  lemma SeekParKeeps(t: Tree, t': Tree, u: int, op: Op, pc: ParentPC, pc': PC, seen: set<Found>)
    requires Ok(t) && u != FREE && ParentPhase(t, u, op, pc, seen) && ParentCan(t, pc) &&
      (t', pc') == ParentNext(t, u, pc)
    requires !pc.HoldPar? && !pc.Crown?
    ensures Keeps(t, t', u) && Knows(t', u, op, pc', Seen(t', op, seen))
  {
    if pc.LockPar? {
      LockParKeeps(t, u, op, pc.n, pc.s, pc.p, seen);
    } else if pc.DropPar? {
      DropParKeeps(t, u, op, pc.n, pc.s, pc.p, seen);
    } else {
      ReadParKeeps(t, t', u, op, pc, pc', seen);
    }
  }

  lemma ParentStepKeeps(t: Tree, t': Tree, u: int, op: Op, pc: ParentPC, pc': PC, seen: set<Found>)
    requires Ok(t) && u != FREE && ParentPhase(t, u, op, pc, seen) && ParentCan(t, pc) &&
      (t', pc') == ParentNext(t, u, pc)
    ensures Keeps(t, t', u) && Knows(t', u, op, pc', Seen(t', op, seen))
  {
    if pc.HoldPar? {
      HoldParKeeps(t, t', u, op, pc.n, pc.s, pc.p, pc', seen);
    } else if pc.Crown? {
      CrownKeeps(t, u, op, pc.n, pc.s, seen);
    } else {
      SeekParKeeps(t, t', u, op, pc, pc', seen);
    }
  }

  // ---------------------------------------------------------------- telling the sibling

  lemma TellSibKeeps(t: Tree, u: int, op: Op, n: Ptr, s: Ptr, p: Ptr, seen: set<Found>)
    requires Ok(t) && HandPhase(t, u, op, TellSib(n, s, p), seen)
    ensures var t' := SetParent(t, s, p);
      Keeps(t, t', u) && FinPhase(t', u, op, FinBump(n, s, p, 0), Seen(t', op, seen))
  {
    var t' := SetParent(t, s, p);
    HandedFree(t, n, s, u);
    SetParentKeeps(t, s, p, u);
    SetParentRely(t, s, p, u);
    PairFrame(t, t', u, n, s, op, seen, Seen(t', op, seen));
    LowerHomes(t, s, p, n);
    LowerHomes(t, s, p, s);
  }

  /** Telling a node of one level who its parent is does not concern the children of that level. */
  lemma LowerHomes(t: Tree, c: Ptr, p: Ptr, x: Ptr)
    requires Live(t.nodes, c) && Live(t.nodes, x) && KidsHome(t.nodes, x) && Routes(t.nodes, t.nodes[x])
    requires t.nodes[x].level == t.nodes[c].level
    ensures KidsHome(SetParent(t, c, p).nodes, x)
  {
    forall j | 0 <= j < |t.nodes[x].kids| ensures t.nodes[x].kids[j] != c { assert KidOk(t.nodes, t.nodes[x], j); }
  }

  lemma CrownSibKeeps(t: Tree, u: int, op: Op, n: Ptr, s: Ptr, r: Ptr, seen: set<Found>)
    requires Ok(t) && HandPhase(t, u, op, CrownSib(n, s, r), seen)
    ensures var t' := SetParent(t, s, r);
      Keeps(t, t', u) && HandPhase(t', u, op, CrownRoot(n, s, r), Seen(t', op, seen))
  {
    var t' := SetParent(t, s, r);
    HandedFree(t, n, s, u);
    assert t.nodes[r].kids[1] == s;
    SetParentKeeps(t, s, r, u);
    SetParentRely(t, s, r, u);
    PairFrame(t, t', u, n, s, op, seen, Seen(t', op, seen));
    LowerHomes(t, s, r, n);
    LowerHomes(t, s, r, s);
  }

  lemma CrownRootKeeps(t: Tree, u: int, op: Op, n: Ptr, s: Ptr, r: Ptr, seen: set<Found>)
    requires Ok(t) && HandPhase(t, u, op, CrownRoot(n, s, r), seen)
    ensures var t' := t.(root := r); Keeps(t, t', u) && FinPhase(t', u, op, FinBump(n, s, r, 0), Seen(t', op, seen))
  {
    var t' := t.(root := r);
    SetRootKeeps(t, n, s, r, u);
    PairFrame(t, t', u, n, s, op, seen, Seen(t', op, seen));
  }

  lemma HandStepKeeps(t: Tree, t': Tree, u: int, op: Op, pc: HandPC, pc': PC, seen: set<Found>)
    requires Ok(t) && HandPhase(t, u, op, pc, seen) && HandCan(t, pc) && (t', pc') == HandNext(t, pc)
    ensures Keeps(t, t', u) && Knows(t', u, op, pc', Seen(t', op, seen))
  {
    match pc
    case TellSib(n, s, p) => TellSibKeeps(t, u, op, n, s, p, seen);
    case CrownSib(n, s, r) => CrownSibKeeps(t, u, op, n, s, r, seen);
    case CrownRoot(n, s, r) => CrownRootKeeps(t, u, op, n, s, r, seen);
  }

  // ---------------------------------------------------------------- incrementing versions

  lemma AlmostElsewhere(b: Node, m: map<int, Val>, k: int, val: Val)
    requires Shape(b) && LeafAlmost(b, m, k, val) && !(b.low <= k < b.high)
    ensures LeafAlmost(b, m[k := val], k, val)
  {
  }

  lemma BumpFirst(t: Tree, u: int, op: Op, n: Ptr, s: Ptr, seen: set<Found>)
    requires Ok(t) && Bumping(t, n, s, 0, op, seen, u)
    ensures var t' := Bump(t, n, op.key, Val0(op)); Keeps(t, t', u) && Bumping(t', n, s, 1, op, Seen(t', op, seen), u)
  {
    var t' := Bump(t, n, op.key, Val0(op));
    BumpKeeps(t, n, op.key, Val0(op), u);
    BumpRely(t, n, op.key, Val0(op), u);
    assert Shape(t.nodes[s]);
    if t.nodes[s].level == 0 && t.nodes[n].low <= op.key < t.nodes[n].high {
      AlmostElsewhere(t.nodes[s], t.contents, op.key, Val0(op));
    }
  }

  lemma BumpSecond(t: Tree, u: int, op: Op, n: Ptr, s: Ptr, seen: set<Found>)
    requires Ok(t) && Bumping(t, n, s, 1, op, seen, u)
    ensures var t' := Bump(t, s, op.key, Val0(op));
            && Keeps(t, t', u) && AtRest(t', n, u) && AtRest(t', s, u) && Present(Val0(op)) in Seen(t', op, seen)
  {
    BumpKeeps(t, s, op.key, Val0(op), u);
    BumpRely(t, s, op.key, Val0(op), u);
  }

  /** The version of the parent goes first. */
  lemma BumpParent(t: Tree, u: int, op: Op, n: Ptr, s: Ptr, p: Ptr, seen: set<Found>)
    requires Ok(t) && FinPhase(t, u, op, FinBump(n, s, p, 0), seen)
    ensures var t' := Bump(t, p, op.key, Val0(op));
      Keeps(t, t', u) && FinPhase(t', u, op, FinBump(n, s, p, 1), Seen(t', op, seen))
  {
    var t' := Bump(t, p, op.key, Val0(op));
    BumpKeeps(t, p, op.key, Val0(op), u);
    BumpRely(t, p, op.key, Val0(op), u);
    ReadyFrame(t, t', u, n, op.key, Val0(op));
    ReadyFrame(t, t', u, s, op.key, Val0(op));
  }

  lemma FinBumpKeeps(t: Tree, t': Tree, u: int, op: Op, n: Ptr, s: Ptr, p: Ptr, done: nat, pc': PC, seen: set<Found>)
    requires Ok(t) && FinPhase(t, u, op, FinBump(n, s, p, done), seen) && FinCan(t, FinBump(n, s, p, done)) &&
      (t', pc') == FinNext(t, op, FinBump(n, s, p, done))
    ensures Keeps(t, t', u) && pc'.Finishing? && FinPhase(t', u, op, pc'.fin, Seen(t', op, seen))
  {
    if done == 0 { BumpParent(t, u, op, n, s, p, seen); }
    else if done == 1 { BumpFirst(t, u, op, n, s, seen); }
    else { BumpSecond(t, u, op, n, s, seen); }
  }

  lemma FinFreeKeeps(t: Tree, t': Tree, u: int, op: Op, n: Ptr, s: Ptr, p: Ptr, done: nat, pc': PC, seen: set<Found>)
    requires Ok(t) && FinPhase(t, u, op, FinFree(n, s, p, done), seen) && FinCan(t, FinFree(n, s, p, done)) &&
      (t', pc') == FinNext(t, op, FinFree(n, s, p, done))
    ensures Keeps(t, t', u)
    ensures if pc'.Done? then pc'.res in seen else pc'.Finishing? && FinPhase(t', u, op, pc'.fin, Seen(t', op, seen))
  {
    UnlockKeeps(t, if done == 0 then p else if done == 1 then n else s, u);
  }

  lemma FinStepKeeps(t: Tree, t': Tree, u: int, op: Op, pc: FinPC, pc': PC, seen: set<Found>)
    requires Ok(t) && FinPhase(t, u, op, pc, seen) && FinCan(t, pc) && (t', pc') == FinNext(t, op, pc)
    ensures Keeps(t, t', u) && Knows(t', u, op, pc', Seen(t', op, seen))
  {
    match pc
    case FinBump(n, s, p, done) => FinBumpKeeps(t, t', u, op, n, s, p, done, pc', seen);
    case FinFree(n, s, p, done) => FinFreeKeeps(t, t', u, op, n, s, p, done, pc', seen);
  }

  // ---------------------------------------------------------------- a divided parent

  /** The children of a divided parent are shared out without overlap. */
  lemma DividedApart(ns: seq<Node>, p: Ptr, q: Ptr, c: Ptr)
    requires AllShape(ns) && AllRoutes(ns) && AllApart(ns) && Live(ns, p) && Live(ns, q) && p != q
    ensures !(c in ns[p].kids && c in ns[q].kids)
  {
    if c in ns[p].kids && c in ns[q].kids { OneParent(ns, p, q, c); }
  }

  lemma DistinctKids(ns: seq<Node>, q: Ptr, i: nat, j: nat)
    requires Live(ns, q) && Shape(ns[q]) && Routes(ns, ns[q]) && i < j < |ns[q].kids|
    ensures ns[q].kids[i] != ns[q].kids[j]
  {
    assert KidOk(ns, ns[q], i) && KidOk(ns, ns[q], j);
    LowAtOrder(ns[q], i, j);
  }

  lemma RehomeSibKeeps(t: Tree, u: int, op: Op, n: Ptr, s: Ptr, p: Ptr, q: Ptr, seen: set<Found>)
    requires Ok(t) && RehomePhase(t, u, op, RehomeSib(n, s, p, q), seen)
    ensures var t' := if s in t.nodes[p].kids then SetParent(t, s, p) else t;
            Keeps(t, t', u) && RehomePhase(t', u, op, Rehome(n, s, p, q, 0), Seen(t', op, seen))
  {
    if s in t.nodes[p].kids {
      var t' := SetParent(t, s, p);
      HandedFree(t, n, s, u);
      var j :| 0 <= j < |t.nodes[p].kids| && t.nodes[p].kids[j] == s;
      assert OldHome(t.nodes, t.nodes[p].kids[j], s, p);
      SetParentKeeps(t, s, p, u);
      SetParentRely(t, s, p, u);
      PairFrame(t, t', u, n, s, op, seen, Seen(t', op, seen));
      LowerHomes(t, s, p, n);
      LowerHomes(t, s, p, s);
      DividedApart(t.nodes, p, q, s);
    } else {
      SameKeeps(t, u);
    }
  }

  lemma NextChild(t: Tree, u: int, op: Op, n: Ptr, s: Ptr, p: Ptr, q: Ptr, i: nat, seen: set<Found>)
    requires Ok(t) && RehomePhase(t, u, op, Rehome(n, s, p, q, i), seen) && i < |t.nodes[q].kids|
    ensures MayAdopt(t, t.nodes[q].kids[i], q, u) && t.nodes[t.nodes[q].kids[i]].level == t.nodes[n].level
  {
    var c := t.nodes[q].kids[i];
    assert OldHome(t.nodes, c, s, p) && Shape(t.nodes[q]) && Routes(t.nodes, t.nodes[q]);
    assert KidOk(t.nodes, t.nodes[q], i);
    HandedFree(t, n, s, u);
    forall j | 0 <= j < |t.nodes| ensures t.nodes[j].pend != c { if c != s { NobodysPend(t, c, j); } }
  }

  lemma RehomedNext(t: Tree, s: Ptr, p: Ptr, q: Ptr, i: nat)
    requires AllShape(t.nodes) && AllRoutes(t.nodes) && AllApart(t.nodes)
    requires Live(t.nodes, s) && Live(t.nodes, p) && Live(t.nodes, q) && p != q && i < |t.nodes[q].kids|
    requires RehomedTo(t, s, p, q, i) && Live(t.nodes, t.nodes[q].kids[i])
    ensures RehomedTo(SetParent(t, t.nodes[q].kids[i], q), s, p, q, i + 1)
  {
    var c := t.nodes[q].kids[i];
    assert Shape(t.nodes[q]) && Routes(t.nodes, t.nodes[q]);
    DividedApart(t.nodes, p, q, c);
    forall j | 0 <= j < |t.nodes[q].kids| && j != i ensures t.nodes[q].kids[j] != c {
      if i < j { DistinctKids(t.nodes, q, i, j); } else { DistinctKids(t.nodes, q, j, i); }
    }
  }

  lemma RehomeKeeps(t: Tree, u: int, op: Op, n: Ptr, s: Ptr, p: Ptr, q: Ptr, i: nat, seen: set<Found>)
    requires Ok(t) && RehomePhase(t, u, op, Rehome(n, s, p, q, i), seen) && i < |t.nodes[q].kids|
    ensures Live(t.nodes, t.nodes[q].kids[i])
    ensures var t' := SetParent(t, t.nodes[q].kids[i], q);
            Keeps(t, t', u) && RehomePhase(t', u, op, Rehome(n, s, p, q, i + 1), Seen(t', op, seen))
  {
    NextChild(t, u, op, n, s, p, q, i, seen);
    var c := t.nodes[q].kids[i];
    SetParentKeeps(t, c, q, u);
    SetParentRely(t, c, q, u);
    RehomedNext(t, s, p, q, i);
    PairFrame(t, SetParent(t, c, q), u, n, s, op, seen, Seen(SetParent(t, c, q), op, seen));
    LowerHomes(t, c, q, n);
    LowerHomes(t, c, q, s);
  }

  lemma RehomedKeeps(t: Tree, u: int, op: Op, n: Ptr, s: Ptr, p: Ptr, q: Ptr, seen: set<Found>)
    requires Ok(t) && Live(t.nodes, q) && RehomePhase(t, u, op, Rehome(n, s, p, q, |t.nodes[q].kids|), seen)
    ensures MidPhase(t, u, op, MidBump(n, s, p, q, 0), Seen(t, op, seen))
  {
    assert Shape(t.nodes[n]) && Shape(t.nodes[s]);
  }

  lemma RehomeStepKeeps(t: Tree, t': Tree, u: int, op: Op, n: Ptr, s: Ptr, p: Ptr, q: Ptr, i: nat, pc': PC,
      seen: set<Found>)
    requires Ok(t) && RehomePhase(t, u, op, Rehome(n, s, p, q, i), seen)
    requires DivideCan(t, Rehome(n, s, p, q, i)) && (t', pc') == DivideNext(t, Rehome(n, s, p, q, i))
    ensures Keeps(t, t', u)
    ensures if pc'.Dividing? then RehomePhase(t', u, op, pc'.div, Seen(t', op, seen))
            else pc'.Between? && MidPhase(t', u, op, pc'.mid, Seen(t', op, seen))
  {
    if i < |t.nodes[q].kids| { RehomeKeeps(t, u, op, n, s, p, q, i, seen); }
    else { SameKeeps(t, u); RehomedKeeps(t, u, op, n, s, p, q, seen); }
  }

  lemma DivideStepKeeps(t: Tree, t': Tree, u: int, op: Op, pc: DividePC, pc': PC, seen: set<Found>)
    requires Ok(t) && RehomePhase(t, u, op, pc, seen) && DivideCan(t, pc) && (t', pc') == DivideNext(t, pc)
    ensures Keeps(t, t', u) && Knows(t', u, op, pc', Seen(t', op, seen))
  {
    match pc
    case RehomeSib(n, s, p, q) => RehomeSibKeeps(t, u, op, n, s, p, q, seen);
    case Rehome(n, s, p, q, i) => RehomeStepKeeps(t, t', u, op, n, s, p, q, i, pc', seen);
  }

  // ---------------------------------------------------------------- between two rounds

  /** Changing the lower pair does not concern the upper one. */
  lemma UpperFrame(t: Tree, t': Tree, u: int, p: Ptr, q: Ptr)
    requires Splitting(t, p, q, u) && |t'.nodes| == |t.nodes| && t'.root == t.root
    requires t'.nodes[p] == t.nodes[p] && t'.nodes[q] == t.nodes[q]
    requires forall i :: 0 <= i < |t.nodes| ==> t'.nodes[i].parent == t.nodes[i].parent
    ensures Splitting(t', p, q, u)
  {
  }

  lemma MidBumpKeeps(t: Tree, t': Tree, u: int, op: Op, n: Ptr, s: Ptr, p: Ptr, q: Ptr, done: nat, pc': PC,
      seen: set<Found>)
    requires Ok(t) && MidPhase(t, u, op, MidBump(n, s, p, q, done), seen) && BetweenCan(t, MidBump(n, s, p, q, done)) &&
      (t', pc') == BetweenNext(t, op, MidBump(n, s, p, q, done))
    ensures Keeps(t, t', u) && pc'.Between? && MidPhase(t', u, op, pc'.mid, Seen(t', op, seen))
  {
    if done == 0 { BumpFirst(t, u, op, n, s, seen); } else { BumpSecond(t, u, op, n, s, seen); }
    UpperFrame(t, t', u, p, q);
  }

  lemma MidFreeKeeps(t: Tree, t': Tree, u: int, op: Op, n: Ptr, s: Ptr, p: Ptr, q: Ptr, done: nat, pc': PC,
      seen: set<Found>)
    requires Ok(t) && MidPhase(t, u, op, MidFree(n, s, p, q, done), seen) && BetweenCan(t, MidFree(n, s, p, q, done)) &&
      (t', pc') == BetweenNext(t, op, MidFree(n, s, p, q, done))
    ensures Keeps(t, t', u) && Knows(t', u, op, pc', Seen(t', op, seen))
  {
    UnlockKeeps(t, if done == 0 then n else s, u);
    UpperFrame(t, t', u, p, q);
  }

  lemma BetweenStepKeeps(t: Tree, t': Tree, u: int, op: Op, pc: BetweenPC, pc': PC, seen: set<Found>)
    requires Ok(t) && MidPhase(t, u, op, pc, seen) && BetweenCan(t, pc) && (t', pc') == BetweenNext(t, op, pc)
    ensures Keeps(t, t', u) && Knows(t', u, op, pc', Seen(t', op, seen))
  {
    match pc
    case MidBump(n, s, p, q, done) => MidBumpKeeps(t, t', u, op, n, s, p, q, done, pc', seen);
    case MidFree(n, s, p, q, done) => MidFreeKeeps(t, t', u, op, n, s, p, q, done, pc', seen);
  }
}
