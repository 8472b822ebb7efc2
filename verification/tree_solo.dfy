/** Every operation of the concurrent map comes to an end: while no other thread holds a lock, a thread returns after
    a number of its own steps that its position and the tree bound (distcache/concurrent_map_impl.h:29-195, 304-510). */
module TreeSolo {
  import Maps
  import opened TreeNodes
  import opened TreeOps
  import opened TreeSplits
  import opened TreeThreads
  import opened TreeMachine
  import opened TreeSafety
  import opened TreeProgress

  // ---------------------------------------------------------------- how much is left

  function LevelOf(ns: seq<Node>, n: Ptr): nat { if 0 <= n < |ns| then ns[n].level else 0 }

  function ParentOf(ns: seq<Node>, n: Ptr): Ptr { if 0 <= n < |ns| then ns[n].parent else NULL }

  /** The version read is the current one. */
  predicate Current(ns: seq<Node>, n: Ptr, v: nat) { 0 <= n < |ns| && ns[n].version == v }

  /** The nodes further to the right. */
  function Right(ns: seq<Node>, n: Ptr): set<Ptr> {
    if 0 <= n < |ns| then set i | 0 <= i < |ns| && ns[i].low > ns[n].low else {}
  }

  /** Handing siblings over, level by level, from `level` up to the root. */
  function Climb(t: Tree, level: nat): int { (t.height - level + 1) * (CAPACITY + 11) + 9 }

  /** From a leaf whose version is the current one. */
  function Bottom(t: Tree, op: Op): int { if op.Get? then CAPACITY + 7 else 4 + Climb(t, 0) }

  /** Down from a node of `level`. */
  function Descend(t: Tree, op: Op, level: nat): int { (level + 1) * (CAPACITY + 6) + Bottom(t, op) }

  /** From the root. */
  function Again(t: Tree, op: Op): int { 3 + Descend(t, op, t.height) }

  /** Along the leaf chain. */
  function Chase(t: Tree, op: Op, n: Ptr): int { 3 * |Right(t.nodes, n)| + 3 + Bottom(t, op) }

  /** From a leaf with an old version. */
  function Stale(t: Tree, op: Op, n: Ptr): int { CAPACITY + 7 + Chase(t, op, n) }

  /** From any node. */
  function FromNode(t: Tree, op: Op, n: Ptr, v: nat): int {
    if Current(t.nodes, n, v) then Descend(t, op, LevelOf(t.nodes, n))
    else CAPACITY + 6 + Again(t, op) + Stale(t, op, n)
  }

  function FromLeaf(t: Tree, op: Op, n: Ptr, v: nat): int {
    if Current(t.nodes, n, v) then Bottom(t, op) else Stale(t, op, n)
  }

  function LocateWork(t: Tree, op: Op, pc: LocatePC): int {
    match pc
    case LoadRoot => Again(t, op)
    case LoadRootVer(n) => 2 + if ParentOf(t.nodes, n) == NULL then Descend(t, op, LevelOf(t.nodes, n))
        else Again(t, op)
    case CheckRoot(n, v) => 1 + if ParentOf(t.nodes, n) == NULL then FromNode(t, op, n, v) else Again(t, op)
    case Visit(n, v) => FromNode(t, op, n, v)
    case Find(n, v, lo, hi) => (if lo < hi then hi - lo else 0) + 5 + BelowWork(t, op, n, v)
    case LoadKid(n, v, _) => 4 + BelowWork(t, op, n, v)
    case LoadKidVer(n, v, _, c) =>
      3 + if Current(t.nodes, n, v) then Descend(t, op, LevelOf(t.nodes, c)) else Again(t, op)
    case CheckLock(n, v, _, c, cv) => 2 + if Current(t.nodes, n, v) then FromNode(t, op, c, cv) else Again(t, op)
    case CheckVer(n, v, c, cv) => 1 + if Current(t.nodes, n, v) then FromNode(t, op, c, cv) else Again(t, op)
  }

  /** From a child of the node on, once it is reached. */
  function BelowWork(t: Tree, op: Op, n: Ptr, v: nat): int {
    var level := LevelOf(t.nodes, n);
    if Current(t.nodes, n, v) then Descend(t, op, if level > 0 then level - 1 else 0) else Again(t, op)
  }

  function MissWork(t: Tree, op: Op, n: Ptr, v: nat): int { if Current(t.nodes, n, v) then 0 else Chase(t, op, n) }

  function SeekWork(t: Tree, op: Op, pc: SeekPC): int {
    match pc
    case Search(n, v) => CAPACITY + 7 + MissWork(t, op, n, v)
    case Seek(n, v, lo, hi) => (if lo < hi then hi - lo else 0) + 6 + MissWork(t, op, n, v)
    case SeekCount(n, v, _) => 5 + MissWork(t, op, n, v)
    case SeekKey(n, v, _) => 4 + MissWork(t, op, n, v)
    case SeekVal(n, v, _) => 3 + MissWork(t, op, n, v)
    case GetLock(n, v, _) => 2 + MissWork(t, op, n, v)
    case GetVer(n, v, _) => 1 + MissWork(t, op, n, v)
    case ChaseVer(n) => Chase(t, op, n)
    case ChaseNext(n, v) => Chase(t, op, n) - 1 + if Current(t.nodes, n, v) then 0 else Stale(t, op, n)
    case ChaseKey(n, v, nx) =>
      1 + if MovesOn(t.nodes, op, nx) then Chase(t, op, nx) else FromLeaf(t, op, n, v)
  }

  predicate MovesOn(ns: seq<Node>, op: Op, nx: Ptr) { 0 <= nx < |ns| && |ns[nx].keys| > 0 && ns[nx].keys[0] <= op.key }

  function LeafWork(t: Tree, op: Op, pc: LeafPC): int {
    match pc
    case Lock(n, v) => if Current(t.nodes, n, v) then 4 + Climb(t, 0) else 3 + Chase(t, op, n)
    case LockCheck(n, v) => if Current(t.nodes, n, v) then 3 + Climb(t, 0) else 2 + Chase(t, op, n)
    case LockStale(n) => 1 + Chase(t, op, n)
    case Hold(_) => 2 + Climb(t, 0)
    case LinkSib(_, _) => 1 + Climb(t, 0)
    case LeafBump(_) => 2
    case Release(_, _) => 1
  }

  function ParentWork(t: Tree, pc: ParentPC): int {
    var climb := Climb(t, LevelOf(t.nodes, pc.n));
    match pc
    case LoadPar(n, _) => climb
    case LockPar(n, _, p) => if ParentOf(t.nodes, n) == p then climb - 1 else climb + 3
    case CheckPar(n, _, p) => if ParentOf(t.nodes, n) == p then climb - 2 else climb + 2
    case DropPar(_, _, _) => climb + 1
    case HoldPar(_, _, _) => climb - 3
    case Crown(_, _) => 9
  }

  function HandWork(pc: HandPC): int {
    match pc
    case TellSib(_, _, _) => 7
    case CrownSib(_, _, _) => 8
    case CrownRoot(_, _, _) => 7
  }

  function FinWork(pc: FinPC): int { if pc.FinBump? then 6 - pc.done else 3 - pc.done }

  function KidsOf(ns: seq<Node>, n: Ptr): nat { if 0 <= n < |ns| then |ns[n].kids| else 0 }

  function DivideWork(t: Tree, pc: DividePC): int {
    var climb := Climb(t, LevelOf(t.nodes, pc.p));
    match pc
    case RehomeSib(_, _, p, q) => KidsOf(t.nodes, q) + 6 + climb
    case Rehome(_, _, p, q, i) => KidsOf(t.nodes, q) - i + 5 + climb
  }

  function BetweenWork(t: Tree, pc: BetweenPC): int {
    (if pc.MidBump? then 4 - pc.done else 2 - pc.done) + Climb(t, LevelOf(t.nodes, pc.p))
  }

  /** No more steps than this are left of the operation. */
  function Work(t: Tree, op: Op, pc: PC): int {
    match pc
    case Idle => 0
    case Done(_) => 0
    case Locating(l) => LocateWork(t, op, l)
    case Seeking(l) => SeekWork(t, op, l)
    case AtLeaf(l) => LeafWork(t, op, l)
    case AtParent(l) => ParentWork(t, l)
    case Handing(l) => HandWork(l)
    case Finishing(l) => FinWork(l)
    case Dividing(l) => DivideWork(t, l)
    case Between(l) => BetweenWork(t, l)
  }

  // ---------------------------------------------------------------- with nothing locked

  ghost predicate NoneLocked(ns: seq<Node>) { forall i :: 0 <= i < |ns| ==> ns[i].owner == FREE }

  /** Every node but the root has a parent, one level up; so the root has none. */
  lemma {:induction false} NoTopBut(t: Tree, i: Ptr)
    requires Ok(t) && NoneLocked(t.nodes) && Live(t.nodes, i) && t.nodes[t.root].parent != NULL
    ensures false
    decreases t.height - t.nodes[i].level
  {
    assert FreeOk(t, i) && ParentOk(t.nodes, i);
    var p := t.nodes[i].parent;
    assert t.nodes[p].level <= t.height;
    NoTopBut(t, p);
  }

  lemma RootAlone(t: Tree)
    requires Ok(t) && NoneLocked(t.nodes)
    ensures t.nodes[t.root].parent == NULL && t.nodes[t.root].level == t.height
  {
    if t.nodes[t.root].parent != NULL { NoTopBut(t, t.root); }
  }

  lemma RightShrinks(ns: seq<Node>, n: Ptr, nx: Ptr)
    requires Live(ns, n) && Live(ns, nx) && ns[n].low < ns[nx].low
    ensures |Right(ns, nx)| < |Right(ns, n)|
  {
    var a, b := Right(ns, nx), Right(ns, n);
    assert a <= b - {nx} && nx in b;
    Maps.Subset(a, b - {nx});
  }

  /** All that is left is positive. */
  lemma Positive(t: Tree, op: Op, n: Ptr)
    requires Ok(t)
    ensures Climb(t, 0) > 0 && Bottom(t, op) > 0 && Chase(t, op, n) > 0 && Again(t, op) > 0 && Stale(t, op, n) > 0
    ensures Live(t.nodes, n) ==> LevelOf(t.nodes, n) <= t.height && Climb(t, LevelOf(t.nodes, n)) >= CAPACITY + 20
    ensures Live(t.nodes, n) ==> 3 + Descend(t, op, LevelOf(t.nodes, n)) <= Again(t, op)
  {
  }

  lemma RootWorks(t: Tree, op: Op, pc: LocatePC, o: int)
    requires Ok(t) && NoneLocked(t.nodes) && LocateOk(t.nodes, op.key, pc) && LocateCan(t, pc, o)
    requires pc.LoadRoot? || pc.LoadRootVer? || pc.CheckRoot?
    ensures Work(t, op, LocateNext(t, op, pc, o)) < LocateWork(t, op, pc)
  {
    RootAlone(t);
    Positive(t, op, t.root);
  }

  lemma VisitWorks(t: Tree, op: Op, n: Ptr, v: nat, o: int)
    requires Ok(t) && NoneLocked(t.nodes) && LocateOk(t.nodes, op.key, Visit(n, v)) && LocateCan(t, Visit(n, v), o)
    ensures Work(t, op, LocateNext(t, op, Visit(n, v), o)) < LocateWork(t, op, Visit(n, v))
  {
    assert Shape(t.nodes[n]) && FreeOk(t, n);
    Positive(t, op, n);
  }

  lemma FindWorks(t: Tree, op: Op, pc: LocatePC, o: int)
    requires Ok(t) && NoneLocked(t.nodes) && LocateOk(t.nodes, op.key, pc) && LocateCan(t, pc, o) && pc.Find?
    ensures Work(t, op, LocateNext(t, op, pc, o)) < LocateWork(t, op, pc)
  {
  }

  lemma LoadKidWorks(t: Tree, op: Op, n: Ptr, v: nat, slot: nat, o: int)
    requires Ok(t) && NoneLocked(t.nodes) && LocateOk(t.nodes, op.key, LoadKid(n, v, slot))
    requires LocateCan(t, LoadKid(n, v, slot), o)
    ensures Work(t, op, LocateNext(t, op, LoadKid(n, v, slot), o)) < LocateWork(t, op, LoadKid(n, v, slot))
  {
    assert FreeOk(t, n) && Shape(t.nodes[n]) && Routes(t.nodes, t.nodes[n]);
    if Current(t.nodes, n, v) { assert KidOk(t.nodes, t.nodes[n], slot); }
  }

  lemma KidWorks(t: Tree, op: Op, pc: LocatePC, o: int)
    requires NoneLocked(t.nodes) && LocateCan(t, pc, o) && (pc.LoadKidVer? || pc.CheckLock? || pc.CheckVer?)
    ensures Work(t, op, LocateNext(t, op, pc, o)) < LocateWork(t, op, pc)
  {
  }

  lemma LocateWorks(t: Tree, op: Op, pc: LocatePC, o: int)
    requires Ok(t) && NoneLocked(t.nodes) && LocateOk(t.nodes, op.key, pc) && LocateCan(t, pc, o)
    ensures Work(t, op, LocateNext(t, op, pc, o)) < LocateWork(t, op, pc)
  {
    match pc
    case LoadRoot => RootWorks(t, op, pc, o);
    case LoadRootVer(_) => RootWorks(t, op, pc, o);
    case CheckRoot(_, _) => RootWorks(t, op, pc, o);
    case Visit(n, v) => VisitWorks(t, op, n, v, o);
    case Find(_, _, _, _) => FindWorks(t, op, pc, o);
    case LoadKid(n, v, slot) => LoadKidWorks(t, op, n, v, slot, o);
    case LoadKidVer(_, _, _, _) => KidWorks(t, op, pc, o);
    case CheckLock(_, _, _, _, _) => KidWorks(t, op, pc, o);
    case CheckVer(_, _, _, _) => KidWorks(t, op, pc, o);
  }

  lemma WindowWorks(t: Tree, op: Op, pc: SeekPC, o: int)
    requires AllShape(t.nodes) && NoneLocked(t.nodes) && AllFree(t) && SeekCan(t, pc, o) && (pc.Search? || pc.Seek?)
    requires Live(t.nodes, pc.n)
    ensures Work(t, op, SeekNext(t, op, pc, o)) < SeekWork(t, op, pc)
  {
    assert Shape(t.nodes[pc.n]) && FreeOk(t, pc.n);
  }

  lemma ReadWorks(t: Tree, op: Op, pc: SeekPC, o: int)
    requires Ok(t) && NoneLocked(t.nodes) && SeekCan(t, pc, o) && Live(t.nodes, pc.n)
    requires pc.SeekCount? || pc.SeekKey? || pc.SeekVal? || pc.GetLock? || pc.GetVer?
    ensures Work(t, op, SeekNext(t, op, pc, o)) < SeekWork(t, op, pc)
  {
  }

  lemma NextWorks(t: Tree, op: Op, n: Ptr, v: nat)
    requires Ok(t) && Live(t.nodes, n) && t.nodes[n].level == 0
    ensures SeekWork(t, op, ChaseKey(n, v, t.nodes[n].next)) < SeekWork(t, op, ChaseNext(n, v))
  {
    Positive(t, op, n);
    assert ChainOk(t.nodes, t.nodes[n]);
    if t.nodes[n].next != NULL { RightShrinks(t.nodes, n, t.nodes[n].next); }
  }

  lemma ChaseWorks(t: Tree, op: Op, pc: SeekPC, o: int)
    requires Ok(t) && SeekCan(t, pc, o) && (pc.ChaseVer? || pc.ChaseKey?) && Live(t.nodes, pc.n)
    ensures Work(t, op, SeekNext(t, op, pc, o)) < SeekWork(t, op, pc)
  {
  }

  lemma SeekWorks(t: Tree, op: Op, pc: SeekPC, seen: set<Found>, o: int)
    requires Ok(t) && NoneLocked(t.nodes) && SeekOk(t.nodes, op.key, pc, seen) && SeekCan(t, pc, o)
    ensures Work(t, op, SeekNext(t, op, pc, o)) < SeekWork(t, op, pc)
  {
    if pc.ChaseNext? {
      NextWorks(t, op, pc.n, pc.v);
    } else if pc.ChaseVer? || pc.ChaseKey? {
      ChaseWorks(t, op, pc, o);
    } else if pc.Search? || pc.Seek? {
      WindowWorks(t, op, pc, o);
    } else {
      ReadWorks(t, op, pc, o);
    }
  }

  // ---------------------------------------------------------------- with a lock or more

  lemma SameRight(ns: seq<Node>, i: Ptr, owner: int, n: Ptr)
    requires Live(ns, i)
    ensures Right(ns[i := ns[i].(owner := owner)], n) == Right(ns, n)
  {
  }

  lemma LockWorks(t: Tree, u: int, op: Op, pc: LeafPC)
    requires LeafCan(t, op, pc) && (pc.Lock? || pc.LockCheck? || pc.LockStale?)
    ensures Work(LeafNext(t, u, op, pc).0, op, LeafNext(t, u, op, pc).1) < LeafWork(t, op, pc)
  {
    SameRight(t.nodes, pc.n, if pc.Lock? then u else FREE, pc.n);
  }

  lemma StoreWorks(t: Tree, u: int, op: Op, pc: LeafPC)
    requires Ok(t) && LeafCan(t, op, pc) && !pc.Lock? && !pc.LockCheck? && !pc.LockStale?
    requires pc.LinkSib? ==> t.nodes[pc.n].level == 0
    ensures Work(LeafNext(t, u, op, pc).0, op, LeafNext(t, u, op, pc).1) < LeafWork(t, op, pc)
  {
    Positive(t, op, pc.n);
  }

  lemma FindParentWorks(t: Tree, u: int, op: Op, pc: ParentPC)
    requires Ok(t) && ParentCan(t, pc) && !pc.HoldPar? && Live(t.nodes, pc.n)
    ensures Work(ParentNext(t, u, pc).0, op, ParentNext(t, u, pc).1) < ParentWork(t, pc)
  {
    Positive(t, op, pc.n);
  }

  /** A parent that is split stays where it is, and the new node has no more children than a node can have. */
  lemma SplitFacts(t: Tree, u: int, n: Ptr, s: Ptr, p: Ptr)
    requires Ok(t) && ReadyParent(t, n, s, p, u) && |t.nodes[p].keys| == CAPACITY && ParentCan(t, HoldPar(n, s, p))
    ensures var t' := KidSplit(t, n, s, p);
      && t'.height == t.height && KidsOf(t'.nodes, |t.nodes|) <= CAPACITY + 1
      && LevelOf(t'.nodes, p) == LevelOf(t.nodes, n) + 1
  {
    assert ParentOk(t.nodes, n);
    KidSplitKeeps(t, n, s, p, u);
    assert Shape(KidSplit(t, n, s, p).nodes[|t.nodes|]);
  }

  lemma HoldParWorks(t: Tree, u: int, op: Op, n: Ptr, s: Ptr, p: Ptr)
    requires ParentCan(t, HoldPar(n, s, p)) && LevelOf(t.nodes, n) <= t.height
    requires |t.nodes[p].keys| == CAPACITY ==>
      var t' := KidSplit(t, n, s, p);
      && t'.height == t.height && KidsOf(t'.nodes, |t.nodes|) <= CAPACITY + 1
      && LevelOf(t'.nodes, p) == LevelOf(t.nodes, n) + 1
    ensures Work(ParentNext(t, u, HoldPar(n, s, p)).0, op, ParentNext(t, u, HoldPar(n, s, p)).1) <
      ParentWork(t, HoldPar(n, s, p))
  {
  }

  lemma ParentWorks(t: Tree, u: int, op: Op, pc: ParentPC, seen: set<Found>)
    requires Ok(t) && ParentPhase(t, u, op, pc, seen) && ParentCan(t, pc)
    ensures Work(ParentNext(t, u, pc).0, op, ParentNext(t, u, pc).1) < ParentWork(t, pc)
  {
    match pc
    case HoldPar(n, s, p) =>
      Positive(t, op, n);
      if |t.nodes[p].keys| == CAPACITY { SplitFacts(t, u, n, s, p); }
      HoldParWorks(t, u, op, n, s, p);
    case _ => FindParentWorks(t, u, op, pc);
  }

  lemma FinWorks(t: Tree, op: Op, pc: FinPC)
    requires FinCan(t, pc) && pc.done <= 2
    ensures Work(FinNext(t, op, pc).0, op, FinNext(t, op, pc).1) < FinWork(pc)
  {
  }

  lemma DivideWorks(t: Tree, op: Op, pc: DividePC)
    requires DivideCan(t, pc) && (pc.Rehome? ==> pc.i <= KidsOf(t.nodes, pc.q))
    ensures Work(DivideNext(t, pc).0, op, DivideNext(t, pc).1) < DivideWork(t, pc)
  {
  }

  lemma BetweenWorks(t: Tree, op: Op, pc: BetweenPC)
    requires BetweenCan(t, pc) && pc.done <= 1
    ensures Work(BetweenNext(t, op, pc).0, op, BetweenNext(t, op, pc).1) < BetweenWork(t, pc)
  {
  }

  lemma HolderWorks(t: Tree, u: int, op: Op, pc: PC, o: int, seen: set<Found>)
    requires Ok(t) && Knows(t, u, op, pc, seen) && ThreadCan(t, op, pc, o) && (pc.AtLeaf? || pc.AtParent?)
    ensures Work(ThreadNext(t, u, op, pc, o).0, op, ThreadNext(t, u, op, pc, o).1) < Work(t, op, pc)
  {
    match pc
    case AtLeaf(l) => LeafWorks(t, u, op, l, seen);
    case AtParent(l) => ParentWorks(t, u, op, l, seen);
  }

  lemma LeafWorks(t: Tree, u: int, op: Op, pc: LeafPC, seen: set<Found>)
    requires Ok(t) && LeafPhase(t, u, op, pc, seen) && LeafCan(t, op, pc)
    ensures Work(LeafNext(t, u, op, pc).0, op, LeafNext(t, u, op, pc).1) < LeafWork(t, op, pc)
  {
    if pc.Lock? || pc.LockCheck? || pc.LockStale? { LockWorks(t, u, op, pc); }
    else { StoreWorks(t, u, op, pc); }
  }

  lemma SplitterWorks(t: Tree, u: int, op: Op, pc: PC, o: int, seen: set<Found>)
    requires Knows(t, u, op, pc, seen) && ThreadCan(t, op, pc, o)
    requires pc.Handing? || pc.Finishing? || pc.Dividing? || pc.Between?
    ensures Work(ThreadNext(t, u, op, pc, o).0, op, ThreadNext(t, u, op, pc, o).1) < Work(t, op, pc)
  {
    match pc
    case Handing(_) =>
    case Finishing(l) => FinWorks(t, op, l);
    case Dividing(l) => DivideWorks(t, op, l);
    case Between(l) => BetweenWorks(t, op, l);
  }

  // ---------------------------------------------------------------- a thread on its own

  /** No other thread holds a lock. */
  predicate OthersFree(s: State, u: int) {
    forall w :: 0 <= w < |s.threads| && w != u ==> Holds(s.threads[w].pc) == {}
  }

  /** A reader on its own finds nothing locked. */
  lemma AloneUnlocked(s: State, u: int)
    requires OwnersOk(s) && OthersFree(s, u) && 0 <= u < |s.threads| && Holds(s.threads[u].pc) == {}
    ensures NoneLocked(s.tree.nodes)
  {
    forall w | 0 <= w < |s.threads| ensures HeldOnly(s.tree.nodes, w, {}) {
      assert HeldOnly(s.tree.nodes, w, Holds(s.threads[w].pc));
    }
    forall i | 0 <= i < |s.tree.nodes| ensures s.tree.nodes[i].owner == FREE {
      assert s.tree.nodes[i].owner == FREE || HeldOnly(s.tree.nodes, s.tree.nodes[i].owner, {});
    }
  }

  /** Every step of a thread on its own brings its operation nearer to the end. */
  lemma ThreadWorks(t: Tree, u: int, op: Op, pc: PC, o: int, seen: set<Found>)
    requires Ok(t) && Knows(t, u, op, pc, seen) && ThreadCan(t, op, pc, o) && (Holds(pc) == {} ==> NoneLocked(t.nodes))
    ensures Work(ThreadNext(t, u, op, pc, o).0, op, ThreadNext(t, u, op, pc, o).1) < Work(t, op, pc)
  {
    if pc.Locating? {
      LocateWorks(t, op, pc.locate, o);
    } else if pc.Seeking? {
      SeekWorks(t, op, pc.seek, seen, o);
    } else if pc.AtLeaf? || pc.AtParent? {
      HolderWorks(t, u, op, pc, o, seen);
    } else {
      SplitterWorks(t, u, op, pc, o, seen);
    }
  }

  ghost function WorkOf(s: State, u: int): int
    requires 0 <= u < |s.threads|
  {
    Work(s.tree, s.threads[u].op, s.threads[u].pc)
  }

  lemma ActWorks(s: State, s': State, u: int, o: int)
    requires Ok(s.tree) && Act(s, s', u, o) && ThreadOk(s.tree, u, s.threads[u])
    requires Holds(s.threads[u].pc) == {} ==> NoneLocked(s.tree.nodes)
    ensures WorkOf(s', u) < WorkOf(s, u)
  {
    ThreadWorks(s.tree, u, s.threads[u].op, s.threads[u].pc, o, s.threads[u].seen);
  }

  lemma OthersStay(s: State, s': State, u: int, o: int)
    requires OthersFree(s, u) && Act(s, s', u, o)
    ensures OthersFree(s', u)
  {
  }

  lemma StepWorks(s: State, s': State, u: int, o: int)
    requires Inv(s) && OwnersOk(s) && OthersFree(s, u) && Act(s, s', u, o)
    ensures WorkOf(s', u) < WorkOf(s, u) && OthersFree(s', u)
  {
    if Holds(s.threads[u].pc) == {} { AloneUnlocked(s, u); }
    ActWorks(s, s', u, o);
    OthersStay(s, s', u, o);
  }

  lemma FromPositive(t: Tree, op: Op, n: Ptr, v: nat)
    requires Ok(t)
    ensures FromNode(t, op, n, v) > 0 && FromLeaf(t, op, n, v) > 0 && BelowWork(t, op, n, v) > 0
    ensures MissWork(t, op, n, v) >= 0 && Descend(t, op, LevelOf(t.nodes, n)) > 0
  {
    Positive(t, op, n);
  }

  lemma LocateLeft(t: Tree, op: Op, pc: LocatePC)
    requires Ok(t)
    ensures LocateWork(t, op, pc) > 0
  {
    Positive(t, op, NULL);
    if !pc.LoadRoot? { FromPositive(t, op, pc.n, if pc.LoadRootVer? then 0 else pc.v); }
    if pc.LoadKidVer? { FromPositive(t, op, pc.c, 0); }
    if pc.CheckLock? || pc.CheckVer? { FromPositive(t, op, pc.c, pc.cv); }
  }

  lemma SeekLeft(t: Tree, op: Op, pc: SeekPC)
    requires Ok(t)
    ensures SeekWork(t, op, pc) > 0
  {
    Positive(t, op, pc.n);
    if !pc.ChaseVer? { FromPositive(t, op, pc.n, pc.v); }
    if pc.ChaseKey? { Positive(t, op, pc.nx); }
  }

  lemma LeafLeft(t: Tree, op: Op, pc: LeafPC)
    requires Ok(t)
    ensures LeafWork(t, op, pc) > 0
  {
    Positive(t, op, pc.n);
  }

  lemma ParentLeft(t: Tree, op: Op, pc: ParentPC)
    requires Ok(t) && Live(t.nodes, pc.n)
    ensures ParentWork(t, pc) > 0
  {
    Positive(t, op, pc.n);
  }

  lemma DivideLeft(t: Tree, op: Op, pc: DividePC)
    requires Ok(t) && Live(t.nodes, pc.p) && (pc.Rehome? ==> pc.i <= KidsOf(t.nodes, pc.q))
    ensures DivideWork(t, pc) > 0
  {
    Positive(t, op, pc.p);
  }

  lemma BetweenLeft(t: Tree, op: Op, pc: BetweenPC)
    requires Ok(t) && Live(t.nodes, pc.p) && pc.done <= 1
    ensures BetweenWork(t, pc) > 0
  {
    Positive(t, op, pc.p);
  }

  /** Something is left exactly while the operation is under way. */
  lemma WorkLeft(t: Tree, u: int, op: Op, pc: PC, seen: set<Found>)
    requires Ok(t) && Knows(t, u, op, pc, seen)
    ensures Work(t, op, pc) >= 0 && (Work(t, op, pc) > 0 <==> Busy(pc))
  {
    match pc
    case Idle =>
    case Done(_) =>
    case Locating(l) => LocateLeft(t, op, l);
    case Seeking(l) => SeekLeft(t, op, l);
    case AtLeaf(l) => LeafLeft(t, op, l);
    case AtParent(l) => ParentLeft(t, op, l);
    case Handing(_) =>
    case Finishing(_) =>
    case Dividing(l) => DivideLeft(t, op, l);
    case Between(l) => BetweenLeft(t, op, l);
  }

  // ---------------------------------------------------------------- every run

  ghost predicate Moves(s: State, s': State, u: int) { exists o :: Act(s, s', u, o) }

  ghost predicate SoloAt(run: seq<State>, u: int, k: int) { 0 <= k && k + 1 < |run| && Moves(run[k], run[k + 1], u) }

  lemma {:induction false} SoloWorks(run: seq<State>, i: nat, j: nat, u: int)
    requires IsRun(run) && i <= j < |run| && 0 <= u < |run[i].threads| && OthersFree(run[i], u)
    requires forall k :: i <= k < j ==> SoloAt(run, u, k)
    ensures u < |run[j].threads| && OthersFree(run[j], u) && WorkOf(run[j], u) <= WorkOf(run[i], u) - (j - i)
  {
    if i < j {
      SoloWorks(run, i, j - 1, u);
      assert SoloAt(run, u, j - 1);
      var o :| Act(run[j - 1], run[j], u, o);
      RunSafe(run, j - 1);
      RunOwners(run, j - 1);
      StepWorks(run[j - 1], run[j], u, o);
    }
  }

  lemma CanTake(s: State, u: int) returns (o: int)
    requires Inv(s) && OwnersOk(s) && OthersFree(s, u) && 0 <= u < |s.threads| && Busy(s.threads[u].pc)
    ensures ThreadCan(s.tree, s.threads[u].op, s.threads[u].pc, o)
  {
    if Wants(s.threads[u].pc) != NULL {
      Above(s, u);
      WantedFree(s, u);
    }
    o := MoveNow(s.tree, u, s.threads[u]);
  }

  lemma Above(s: State, u: int)
    requires 0 <= u < |s.threads| && ThreadOk(s.tree, u, s.threads[u]) && Wants(s.threads[u].pc) != NULL
    ensures Live(s.tree.nodes, Wants(s.threads[u].pc))
    ensures forall i :: i in Holds(s.threads[u].pc) && Live(s.tree.nodes, i) ==>
      s.tree.nodes[i].level < s.tree.nodes[Wants(s.threads[u].pc)].level
  {
    WantsAbove(s.tree, u, s.threads[u].op, s.threads[u].pc, s.threads[u].seen);
  }

  lemma TakeStep(s: State, u: int, o: int) returns (s': State)
    requires 0 <= u < |s.threads| && ThreadCan(s.tree, s.threads[u].op, s.threads[u].pc, o)
    ensures Act(s, s', u, o)
  {
    var (t', pc') := ThreadNext(s.tree, u, s.threads[u].op, s.threads[u].pc, o);
    s' := State(t', seq(|s.threads|, x requires 0 <= x < |s.threads| =>
      Witness(t'.contents, if x == u then Stepped(s.tree, s.threads[x], pc') else s.threads[x])));
  }

  /** What a thread waits for it does not hold itself. */
  lemma WantedFree(s: State, u: int)
    requires OwnersOk(s) && OthersFree(s, u) && 0 <= u < |s.threads| && Live(s.tree.nodes, Wants(s.threads[u].pc))
    requires forall i :: i in Holds(s.threads[u].pc) && Live(s.tree.nodes, i) ==>
      s.tree.nodes[i].level < s.tree.nodes[Wants(s.threads[u].pc)].level
    ensures s.tree.nodes[Wants(s.threads[u].pc)].owner == FREE
  {
    forall w | 0 <= w < |s.threads| && w != u ensures HeldOnly(s.tree.nodes, w, {}) {
      assert HeldOnly(s.tree.nodes, w, Holds(s.threads[w].pc));
    }
    var p := Wants(s.threads[u].pc);
    assert HeldOnly(s.tree.nodes, u, Holds(s.threads[u].pc)) && p !in Holds(s.threads[u].pc);
    assert s.tree.nodes[p].owner in {FREE, u} || HeldOnly(s.tree.nodes, s.tree.nodes[p].owner, {});
  }

  /** In every run, from every moment at which no other thread holds a lock: on its own, a thread takes no more steps
      than there is work left, can take one while its operation is under way, and so returns. */
  lemma {:induction false} SoloReturns(run: seq<State>, i: nat, j: nat, u: int)
    requires IsRun(run) && i <= j < |run| && 0 <= u < |run[i].threads| && OthersFree(run[i], u)
    requires forall k :: i <= k < j ==> SoloAt(run, u, k)
    ensures j - i <= WorkOf(run[i], u) && u < |run[j].threads|
    ensures Busy(run[j].threads[u].pc) ==> j - i < WorkOf(run[i], u) && exists s' :: Moves(run[j], s', u)
  {
    SoloWorks(run, i, j, u);
    RunSafe(run, j);
    RunOwners(run, j);
    BusyMoves(run[j], u);
  }

  lemma BusyMoves(s: State, u: int)
    requires Inv(s) && OwnersOk(s) && OthersFree(s, u) && 0 <= u < |s.threads|
    ensures WorkOf(s, u) >= 0
    ensures Busy(s.threads[u].pc) ==> WorkOf(s, u) > 0 && exists s' :: Moves(s, s', u)
  {
    assert ThreadOk(s.tree, u, s.threads[u]);
    WorkLeft(s.tree, u, s.threads[u].op, s.threads[u].pc, s.threads[u].seen);
    if Busy(s.threads[u].pc) {
      var o := CanTake(s, u);
      var s' := TakeStep(s, u, o);
      assert Moves(s, s', u);
    }
  }
}
