/** The concurrent map as a state machine: any number of threads, every observable load and store a
    step of its own, any interleaving (distcache/concurrent_map_impl.h:29-510). */
module TreeMachine {
  import opened TreeNodes
  import opened TreeOps
  import opened TreeSplits
  import opened TreeThreads

  // ---------------------------------------------------------------- loads

  /** A load from an array slot.  While a writer is at work in the node, or beyond its live prefix,
      the load may return anything: `o`. */
  function KeyAt(n: Node, i: nat, o: int): int {
    if !n.dirty && i < |n.keys| then n.keys[i] else o
  }

  function KidAt(n: Node, i: nat, o: int): Ptr {
    if !n.dirty && i < |n.kids| then n.kids[i] else o
  }

  function ValAt(n: Node, i: nat, o: int): Val {
    if !n.dirty && i < |n.vals| then n.vals[i] else o
  }

  function CountAt(n: Node, o: nat): nat {
    if n.dirty then o else |n.keys|
  }

  // A step consists of what the machine must provide for it (`...Can`) and what it does (`...Next`).

  /** `locate_leaf` (lines 136-167). */
  ghost predicate LocateCan(t: Tree, pc: LocatePC, o: int) {
    var ns := t.nodes;
    match pc
    case LoadRoot => true
    case LoadRootVer(n) => Live(ns, n)
    case CheckRoot(n, v) => Live(ns, n)
    case Visit(n, v) => Live(ns, n) && 0 <= o <= CAPACITY
    case Find(n, v, lo, hi) => Live(ns, n)
    case LoadKid(n, v, slot) => Live(ns, n) && Live(ns, KidAt(ns[n], slot, o))
    case LoadKidVer(n, v, slot, c) => Live(ns, c)
    case CheckLock(n, v, slot, c, cv) => Live(ns, n)
    case CheckVer(n, v, c, cv) => Live(ns, n)
  }

  ghost function LocateNext(t: Tree, op: Op, pc: LocatePC, o: int): PC
    requires LocateCan(t, pc, o)
  {
    var k, ns := op.key, t.nodes;
    match pc
    case LoadRoot => Locating(LoadRootVer(t.root))
    case LoadRootVer(n) => Locating(CheckRoot(n, ns[n].version))
    case CheckRoot(n, v) => Locating(if ns[n].parent != NULL then LoadRoot else Visit(n, v))
    case Visit(n, v) =>
      if ns[n].level > 0 then Locating(Find(n, v, 0, CountAt(ns[n], o)))
      else if op.Get? then Seeking(Search(n, v)) else AtLeaf(Lock(n, v))
    case Find(n, v, lo, hi) =>
      Locating(if lo >= hi then LoadKid(n, v, lo)
               else if KeyAt(ns[n], (lo + hi) / 2, o) > k then Find(n, v, lo, (lo + hi) / 2)
               else Find(n, v, (lo + hi) / 2 + 1, hi))
    case LoadKid(n, v, slot) => Locating(LoadKidVer(n, v, slot, KidAt(ns[n], slot, o)))
    case LoadKidVer(n, v, slot, c) => Locating(CheckLock(n, v, slot, c, ns[c].version))
    case CheckLock(n, v, slot, c, cv) => Locating(if ns[n].owner != FREE then LoadRoot else CheckVer(n, v, c, cv))
    case CheckVer(n, v, c, cv) => Locating(if ns[n].version != v then LoadRoot else Visit(c, cv))
  }

  /** The loop of `get` (lines 33-57), and the chain walk it shares with `locate_leaf_locked` (lines 175-192). */
  ghost predicate SeekCan(t: Tree, pc: SeekPC, o: int) {
    && (pc.Search? || pc.SeekCount? ==> 0 <= o <= CAPACITY)
    && (if pc.ChaseKey? then pc.nx != NULL ==>
        Live(t.nodes, pc.nx) && |t.nodes[pc.nx].keys| > 0 else Live(t.nodes, pc.n))
  }

  ghost function SeekNext(t: Tree, op: Op, pc: SeekPC, o: int): PC
    requires SeekCan(t, pc, o)
  {
    var k, ns := op.key, t.nodes;
    match pc
    case Search(n, v) => Seeking(Seek(n, v, 0, CountAt(ns[n], o)))
    case Seek(n, v, lo, hi) =>
      Seeking(if lo >= hi then SeekCount(n, v, lo)
              else if KeyAt(ns[n], (lo + hi) / 2, o) >= k then Seek(n, v, lo, (lo + hi) / 2)
              else Seek(n, v, (lo + hi) / 2 + 1, hi))
    case SeekCount(n, v, slot) => Seeking(if slot < CountAt(ns[n], o) then SeekKey(n, v, slot)
        else GetLock(n, v, Absent))
    case SeekKey(n, v, slot) => Seeking(if KeyAt(ns[n], slot, o) == k then SeekVal(n, v, slot)
        else GetLock(n, v, Absent))
    case SeekVal(n, v, slot) => Seeking(GetLock(n, v, Present(ValAt(ns[n], slot, o))))
    case GetLock(n, v, res) => Seeking(if ns[n].owner != FREE then ChaseVer(n) else GetVer(n, v, res))
    case GetVer(n, v, res) => if ns[n].version != v then Seeking(ChaseVer(n)) else Done(res)
    case ChaseVer(n) => Seeking(ChaseNext(n, ns[n].version))
    case ChaseNext(n, v) => Seeking(ChaseKey(n, v, ns[n].next))
    case ChaseKey(n, v, nx) =>
      if nx != NULL && ns[nx].keys[0] <= k then Seeking(ChaseVer(nx))
      else if op.Get? then Seeking(Search(n, v)) else AtLeaf(Lock(n, v))
  }

  // ---------------------------------------------------------------- stores

  /** `locate_leaf_locked`, `update` and `insert_leaf` (lines 61-78, 170-288). */
  ghost predicate LeafCan(t: Tree, op: Op, pc: LeafPC) {
    && Live(t.nodes, pc.n)
    && (pc.Lock? ==> t.nodes[pc.n].owner == FREE)
    && (pc.Hold? ==> |t.nodes[pc.n].vals| == |t.nodes[pc.n].keys|
                     && LeafCut(CAPACITY, FirstGeq(t.nodes[pc.n].keys, op.key)) <= CAPACITY)
  }

  ghost function LeafNext(t: Tree, u: int, op: Op, pc: LeafPC): (Tree, PC)
    requires LeafCan(t, op, pc)
  {
    var k, v, ns := op.key, Val0(op), t.nodes;
    match pc
    case Lock(n, ver) => (SetOwner(t, n, u), AtLeaf(LockCheck(n, ver)))
    case LockCheck(n, ver) => (t, AtLeaf(if ns[n].version != ver then LockStale(n) else Hold(n)))
    case LockStale(n) => (SetOwner(t, n, FREE), Seeking(ChaseVer(n)))
    case Hold(n) =>
      var slot := FirstGeq(ns[n].keys, k);
      if slot < |ns[n].keys| && ns[n].keys[slot] == k then
        (ValUpdate(t, n, slot, v), AtLeaf(Release(n, Present(v))))
      else if !op.Insert? then
        (t, AtLeaf(Release(n, Absent)))
      else if |ns[n].keys| != CAPACITY then
        (LeafInsert(t, n, slot, k, v), AtLeaf(LeafBump(n)))
      else
        (LeafSplit(t, n, slot, k, v), AtLeaf(LinkSib(n, |ns|)))
    case LeafBump(n) => (Bump(t, n, k, v), AtLeaf(Release(n, Present(v))))
    case Release(n, res) => (SetOwner(t, n, FREE), Done(res))
    case LinkSib(n, s) => (Link(t, n, s), AtParent(LoadPar(n, s)))
  }

  /** The loop of `split_n_insert_leaf` (lines 304-509). */
  ghost predicate ParentCan(t: Tree, pc: ParentPC) {
    var ns := t.nodes;
    match pc
    case LoadPar(n, s) => Live(ns, n)
    case LockPar(n, s, p) => Live(ns, p) && ns[p].owner == FREE
    case CheckPar(n, s, p) => Live(ns, n)
    case DropPar(n, s, p) => Live(ns, p)
    case HoldPar(n, s, p) =>
      && Live(ns, n) && Live(ns, s) && Live(ns, p) && |ns[p].kids| == |ns[p].keys| + 1
      && InnerCut(CAPACITY, FirstGt(ns[p].keys, ns[s].low)) <= CAPACITY
    case Crown(n, s) => Live(ns, n) && Live(ns, s)
  }

  ghost function ParentNext(t: Tree, u: int, pc: ParentPC): (Tree, PC)
    requires ParentCan(t, pc)
  {
    var ns := t.nodes;
    match pc
    case LoadPar(n, s) => (t, AtParent(if ns[n].parent == NULL then Crown(n, s) else LockPar(n, s, ns[n].parent)))
    case LockPar(n, s, p) => (SetOwner(t, p, u), AtParent(CheckPar(n, s, p)))
    case CheckPar(n, s, p) => (t, AtParent(if ns[n].parent != p then DropPar(n, s, p) else HoldPar(n, s, p)))
    case DropPar(n, s, p) => (SetOwner(t, p, FREE), AtParent(LoadPar(n, s)))
    case HoldPar(n, s, p) =>
      if |ns[p].keys| != CAPACITY then (KidInsert(t, n, s, p), Handing(TellSib(n, s, p)))
      else (KidSplit(t, n, s, p), Dividing(RehomeSib(n, s, p, |ns|)))
    case Crown(n, s) => (NewRoot(t, n, s), Handing(CrownSib(n, s, |ns|)))
  }

  ghost predicate HandCan(t: Tree, pc: HandPC) {
    Live(t.nodes, pc.s)
  }

  ghost function HandNext(t: Tree, pc: HandPC): (Tree, PC)
    requires HandCan(t, pc)
  {
    match pc
    case TellSib(n, s, p) => (SetParent(t, s, p), Finishing(FinBump(n, s, p, 0)))
    case CrownSib(n, s, r) => (SetParent(t, s, r), Handing(CrownRoot(n, s, r)))
    case CrownRoot(n, s, r) => (t.(root := r), Finishing(FinBump(n, s, r, 0)))
  }

  ghost predicate FinCan(t: Tree, pc: FinPC) {
    Live(t.nodes, pc.n) && Live(t.nodes, pc.s) && Live(t.nodes, pc.p)
  }

  ghost function FinNext(t: Tree, op: Op, pc: FinPC): (Tree, PC)
    requires FinCan(t, pc)
  {
    var k, v := op.key, Val0(op);
    match pc
    case FinBump(n, s, p, done) =>
      if done == 0 then (Bump(t, p, k, v), Finishing(FinBump(n, s, p, 1)))
      else if done == 1 then (Bump(t, n, k, v), Finishing(FinBump(n, s, p, 2)))
      else (Bump(t, s, k, v), Finishing(FinFree(n, s, p, 0)))
    case FinFree(n, s, p, done) =>
      if done == 0 then (SetOwner(t, p, FREE), Finishing(FinFree(n, s, p, 1)))
      else if done == 1 then (SetOwner(t, n, FREE), Finishing(FinFree(n, s, p, 2)))
      else (SetOwner(t, s, FREE), Done(Present(v)))
  }

  ghost predicate DivideCan(t: Tree, pc: DividePC) {
    && Live(t.nodes, pc.s) && Live(t.nodes, pc.p) && Live(t.nodes, pc.q)
    && (pc.Rehome? && pc.i < |t.nodes[pc.q].kids| ==> Live(t.nodes, t.nodes[pc.q].kids[pc.i]))
  }

  ghost function DivideNext(t: Tree, pc: DividePC): (Tree, PC)
    requires DivideCan(t, pc)
  {
    var ns := t.nodes;
    match pc
    case RehomeSib(n, s, p, q) => (if s in ns[p].kids then SetParent(t, s, p) else t, Dividing(Rehome(n, s, p, q, 0)))
    case Rehome(n, s, p, q, i) =>
      if i < |ns[q].kids| then (SetParent(t, ns[q].kids[i], q), Dividing(Rehome(n, s, p, q, i + 1)))
      else (t, Between(MidBump(n, s, p, q, 0)))
  }

  ghost predicate BetweenCan(t: Tree, pc: BetweenPC) {
    Live(t.nodes, pc.n) && Live(t.nodes, pc.s)
  }

  ghost function BetweenNext(t: Tree, op: Op, pc: BetweenPC): (Tree, PC)
    requires BetweenCan(t, pc)
  {
    var k, v := op.key, Val0(op);
    match pc
    case MidBump(n, s, p, q, done) =>
      if done == 0 then (Bump(t, n, k, v), Between(MidBump(n, s, p, q, 1)))
      else (Bump(t, s, k, v), Between(MidFree(n, s, p, q, 0)))
    case MidFree(n, s, p, q, done) =>
      if done == 0 then (SetOwner(t, n, FREE), Between(MidFree(n, s, p, q, 1)))
      else (SetOwner(t, s, FREE), AtParent(LoadPar(p, q)))
  }

  /** The step that stores the pair: the value is replaced in place, or the version of the leaf that has
      the new entry is incremented. */
  ghost predicate Stores(t: Tree, op: Op, pc: PC) {
    match pc
    case AtLeaf(Hold(n)) => Live(t.nodes, n) && op.key in t.nodes[n].keys
    case AtLeaf(LeafBump(n)) => Publishes(t, op, n)
    case Finishing(FinBump(n, s, p, done)) => Publishes(t, op, if done == 0 then p else if done == 1 then n else s)
    case Between(MidBump(n, s, p, q, done)) => Publishes(t, op, if done == 0 then n else s)
    case _ => false
  }

  ghost predicate Publishes(t: Tree, op: Op, n: Ptr) {
    Live(t.nodes, n) && t.nodes[n].level == 0 && t.nodes[n].low <= op.key < t.nodes[n].high
  }

  // ---------------------------------------------------------------- readers

  /** What one step of thread `u` must achieve for the tree. */
  ghost predicate Keeps(t: Tree, t': Tree, u: int) {
    Ok(t') && Rely(u, t, t')
  }

  function Seen(t: Tree, op: Op, seen: set<Found>): set<Found> {
    seen + {Lookup(t.contents, op.key)}
  }

  lemma SameKeeps(t: Tree, u: int)
    requires Ok(t)
    ensures Keeps(t, t, u)
  {
    OwnerRely(t, t.root, t.nodes[t.root].owner, t.nodes[t.root].owner);
    assert SetOwner(t, t.root, t.nodes[t.root].owner) == t;
  }

  lemma NarrowGt(s: seq<int>, k: int, lo: nat, hi: nat)
    requires Sorted(s) && GtWindow(s, k, lo, hi) && lo < hi
    ensures s[(lo + hi) / 2] > k ==> GtWindow(s, k, lo, (lo + hi) / 2)
    ensures s[(lo + hi) / 2] <= k ==> GtWindow(s, k, (lo + hi) / 2 + 1, hi)
  {
  }

  lemma NarrowGeq(s: seq<int>, k: int, lo: nat, hi: nat)
    requires Sorted(s) && GeqWindow(s, k, lo, hi) && lo < hi
    ensures s[(lo + hi) / 2] >= k ==> GeqWindow(s, k, lo, (lo + hi) / 2)
    ensures s[(lo + hi) / 2] < k ==> GeqWindow(s, k, (lo + hi) / 2 + 1, hi)
  {
  }

  /** Going down one level: once the parent is seen unlocked and unchanged, the child covers the key,
      even if the child has been split since. */
  lemma DescendKeeps(t: Tree, k: int, n: Ptr, v: nat, slot: nat, c: Ptr, cv: nat)
    requires Ok(t) && LocateOk(t.nodes, k, CheckLock(n, v, slot, c, cv)) && t.nodes[n].owner == FREE
    ensures LocateOk(t.nodes, k, CheckVer(n, v, c, cv))
  {
    var ns := t.nodes;
    assert FreeOk(t, n) && Routes(ns, ns[n]) && PendOk(ns, ns[c]);
    if Clean(ns, n, v) { assert KidOk(ns, ns[n], slot); }
  }

  lemma FindKeeps(t: Tree, op: Op, pc: LocatePC, pc': PC, o: int)
    requires AllShape(t.nodes) && pc.Find?
    requires LocateOk(t.nodes, op.key, pc) && LocateCan(t, pc, o) && pc' == LocateNext(t, op, pc, o)
    ensures pc'.Locating? && LocateOk(t.nodes, op.key, pc'.locate)
  {
    assert Shape(t.nodes[pc.n]);
    if Clean(t.nodes, pc.n, pc.v) && pc.lo < pc.hi { NarrowGt(t.nodes[pc.n].keys, op.key, pc.lo, pc.hi); }
  }

  lemma LoadKidKeeps(t: Tree, op: Op, pc: LocatePC, pc': PC, o: int)
    requires AllShape(t.nodes) && pc.LoadKid?
    requires LocateOk(t.nodes, op.key, pc) && LocateCan(t, pc, o) && pc' == LocateNext(t, op, pc, o)
    ensures pc'.Locating? && LocateOk(t.nodes, op.key, pc'.locate)
  {
    assert Shape(t.nodes[pc.n]);
  }

  lemma RootKeeps(t: Tree, u: int, op: Op, pc: LocatePC, pc': PC, o: int, seen: set<Found>)
    requires Ok(t) && 0 <= op.key < TOP && LocateOk(t.nodes, op.key, pc) && LocateCan(t, pc, o) &&
      pc' == LocateNext(t, op, pc, o)
    requires pc.LoadRoot? || pc.LoadRootVer? || pc.CheckRoot? || pc.Visit?
    ensures Knows(t, u, op, pc', seen)
  {
    if pc.CheckRoot? { assert PendOk(t.nodes, t.nodes[pc.n]); }
  }

  lemma KidKeeps(t: Tree, u: int, op: Op, pc: LocatePC, pc': PC, o: int, seen: set<Found>)
    requires Ok(t) && 0 <= op.key < TOP && LocateOk(t.nodes, op.key, pc) && LocateCan(t, pc, o) &&
      pc' == LocateNext(t, op, pc, o)
    requires pc.LoadKidVer? || pc.CheckLock? || pc.CheckVer?
    ensures Knows(t, u, op, pc', seen)
  {
    if pc.CheckLock? && t.nodes[pc.n].owner == FREE { DescendKeeps(t, op.key, pc.n, pc.v, pc.slot, pc.c, pc.cv); }
  }

  lemma LocateKeeps(t: Tree, u: int, op: Op, pc: LocatePC, pc': PC, o: int, seen: set<Found>)
    requires Ok(t) && 0 <= op.key < TOP && LocateOk(t.nodes, op.key, pc) && LocateCan(t, pc, o) &&
      pc' == LocateNext(t, op, pc, o)
    ensures Knows(t, u, op, pc', seen)
  {
    if pc.Find? {
      FindKeeps(t, op, pc, pc', o);
    } else if pc.LoadKid? {
      LoadKidKeeps(t, op, pc, pc', o);
    } else if pc.LoadKidVer? || pc.CheckLock? || pc.CheckVer? {
      KidKeeps(t, u, op, pc, pc', o, seen);
    } else {
      RootKeeps(t, u, op, pc, pc', o, seen);
    }
  }

  /** What a clean leaf says about a key it covers is what the abstract map says. */
  lemma LeafTells(t: Tree, n: Ptr, k: int, slot: nat)
    requires Ok(t) && Live(t.nodes, n) && t.nodes[n].level == 0 && !t.nodes[n].dirty &&
      t.nodes[n].low <= k < t.nodes[n].high
    requires IsFirstGeq(t.nodes[n].keys, k, slot)
    ensures |t.nodes[n].vals| == |t.nodes[n].keys|
    ensures Lookup(t.contents, k) == if slot < |t.nodes[n].keys| && t.nodes[n].keys[slot] == k
      then Present(t.nodes[n].vals[slot]) else Absent
  {
    assert Shape(t.nodes[n]) && MatchOk(t.nodes[n], t.contents);
  }

  lemma WindowKeeps(t: Tree, op: Op, pc: SeekPC, pc': PC, o: int, seen: set<Found>)
    requires AllShape(t.nodes) && (pc.Search? || pc.Seek?)
    requires SeekOk(t.nodes, op.key, pc, seen) && SeekCan(t, pc, o) && pc' == SeekNext(t, op, pc, o)
    ensures pc'.Seeking? && SeekOk(t.nodes, op.key, pc'.seek, seen)
  {
    assert Shape(t.nodes[pc.n]);
    if pc.Seek? && Clean(t.nodes, pc.n, pc.v) && pc.lo < pc.hi { NarrowGeq(t.nodes[pc.n].keys, op.key, pc.lo, pc.hi); }
  }

  lemma ReadKeeps(t: Tree, op: Op, pc: SeekPC, pc': PC, o: int, seen: set<Found>)
    requires (pc.SeekCount? || pc.SeekKey? || pc.SeekVal?) && SeekOk(t.nodes, op.key, pc, {})
    requires Shape(t.nodes[pc.n]) && MatchOk(t.nodes[pc.n], t.contents) && SeekCan(t, pc, o) &&
      pc' == SeekNext(t, op, pc, o)
    ensures pc'.Seeking? && SeekOk(t.nodes, op.key, pc'.seek, Seen(t, op, seen))
  {
  }

  /** Moving right along the chain never passes the leaf that covers the key. */
  lemma ChaseKeeps(t: Tree, op: Op, pc: SeekPC, pc': PC, o: int, seen: set<Found>)
    requires AllShape(t.nodes) && AllChain(t.nodes) && (pc.ChaseVer? || pc.ChaseNext? || pc.ChaseKey?) && op.key < TOP
    requires SeekOk(t.nodes, op.key, pc, seen) && SeekCan(t, pc, o) && pc' == SeekNext(t, op, pc, o)
    ensures if pc'.AtLeaf?
      then pc'.leaf.Lock? && !op.Get? && Covers(t.nodes, pc'.leaf.n, pc'.leaf.v, op.key) &&
      t.nodes[pc'.leaf.n].level == 0
            else pc'.Seeking? && SeekOk(t.nodes, op.key, pc'.seek, seen)
  {
    var ns := t.nodes;
    if pc.ChaseNext? { assert ChainOk(ns, ns[pc.n]) && Shape(ns[pc.n]); }
    if pc.ChaseKey? && pc.nx != NULL { assert Shape(ns[pc.nx]); }
  }

  lemma GetKeeps(t: Tree, u: int, op: Op, pc: SeekPC, pc': PC, o: int, seen: set<Found>)
    requires Ok(t) && SeekOk(t.nodes, op.key, pc, seen) && op.Get? && (pc.GetLock? || pc.GetVer?)
    requires SeekCan(t, pc, o) && pc' == SeekNext(t, op, pc, o)
    ensures Knows(t, u, op, pc', Seen(t, op, seen))
  {
    assert FreeOk(t, pc.n);
  }

  lemma SeekKeeps(t: Tree, u: int, op: Op, pc: SeekPC, pc': PC, o: int, seen: set<Found>)
    requires Ok(t) && 0 <= op.key < TOP && SeekOk(t.nodes, op.key, pc, seen) &&
      (op.Get? || pc.ChaseVer? || pc.ChaseNext? || pc.ChaseKey?)
    requires SeekCan(t, pc, o) && pc' == SeekNext(t, op, pc, o)
    ensures Knows(t, u, op, pc', Seen(t, op, seen))
  {
    if pc.Search? || pc.Seek? {
      WindowKeeps(t, op, pc, pc', o, seen);
    } else if pc.SeekCount? || pc.SeekKey? || pc.SeekVal? {
      assert Shape(t.nodes[pc.n]) && MatchOk(t.nodes[pc.n], t.contents);
      ReadKeeps(t, op, pc, pc', o, seen);
    } else if pc.GetLock? || pc.GetVer? {
      GetKeeps(t, u, op, pc, pc', o, seen);
    } else {
      ChaseKeeps(t, op, pc, pc', o, seen);
    }
  }

  // ---------------------------------------------------------------- writers at the leaf

  lemma HoldInsert(t: Tree, u: int, op: Op, n: Ptr, slot: nat, seen: set<Found>)
    requires Ok(t) && op.Insert? && FitsLeaf(t, n, slot, op.key, u) && |t.nodes[n].keys| < CAPACITY
    ensures var t' := LeafInsert(t, n, slot, op.key, Val0(op));
      Keeps(t, t', u) && LeafPhase(t', u, op, LeafBump(n), seen)
  {
    assert HomeOk(t.nodes, n) && Shape(t.nodes[n]);
    LeafInsertKeeps(t, n, slot, op.key, Val0(op), u);
  }

  lemma HoldSplit(t: Tree, u: int, op: Op, n: Ptr, slot: nat, seen: set<Found>)
    requires Ok(t) && op.Insert? && FitsLeaf(t, n, slot, op.key, u) && |t.nodes[n].keys| == CAPACITY
    requires LeafCut(CAPACITY, slot) <= CAPACITY
    ensures var t' := LeafSplit(t, n, slot, op.key, Val0(op));
      Keeps(t, t', u) && LeafPhase(t', u, op, LinkSib(n, |t.nodes|), seen)
  {
    assert Shape(t.nodes[n]) && MatchOk(t.nodes[n], t.contents);
    LeafSplitHalves(t, n, slot, op.key, Val0(op));
    LeafSplitKeeps(t, n, slot, op.key, Val0(op), u);
    LeafSplitRely(t, n, slot, op.key, Val0(op), u);
  }

  /** `insert_leaf` or `update` with the lock held: the four branches. */
  lemma HoldKeeps(t: Tree, t': Tree, u: int, op: Op, n: Ptr, pc': PC, seen: set<Found>)
    requires Ok(t) && u != FREE && LeafPhase(t, u, op, Hold(n), seen) && LeafCan(t, op, Hold(n)) &&
      (t', pc') == LeafNext(t, u, op, Hold(n))
    ensures Keeps(t, t', u) && pc'.AtLeaf? && LeafPhase(t', u, op, pc'.leaf, Seen(t', op, seen))
  {
    var a, k, v := t.nodes[n], op.key, Val0(op);
    var slot := FirstGeq(a.keys, k);
    assert Shape(a);
    FirstGeqIs(a.keys, k);
    if slot < |a.keys| && a.keys[slot] == k {
      ValUpdateKeeps(t, n, slot, v, u);
    } else {
      assert k !in a.keys;
      if !op.Insert? {
        LeafTells(t, n, k, slot);
        SameKeeps(t, u);
      } else if |a.keys| != CAPACITY {
        HoldInsert(t, u, op, n, slot, Seen(t', op, seen));
      } else {
        HoldSplit(t, u, op, n, slot, Seen(t', op, seen));
      }
    }
  }

  lemma LeafBumpKeeps(t: Tree, u: int, op: Op, n: Ptr, seen: set<Found>)
    requires Ok(t) && LeafPhase(t, u, op, LeafBump(n), seen)
    ensures var t' := Bump(t, n, op.key, Val0(op));
            Keeps(t, t', u) && LeafPhase(t', u, op, Release(n, Present(Val0(op))), Seen(t', op, seen))
  {
    BumpKeeps(t, n, op.key, Val0(op), u);
    BumpRely(t, n, op.key, Val0(op), u);
  }

  lemma LinkSibKeeps(t: Tree, u: int, op: Op, n: Ptr, s: Ptr, seen: set<Found>)
    requires Ok(t) && LeafPhase(t, u, op, LinkSib(n, s), seen)
    ensures Keeps(t, Link(t, n, s), u) &&
      ParentPhase(Link(t, n, s), u, op, LoadPar(n, s), Seen(Link(t, n, s), op, seen))
  {
    LinkKeeps(t, n, s, u);
  }

  lemma LockLeafKeeps(t: Tree, t': Tree, u: int, op: Op, pc: LeafPC, pc': PC, seen: set<Found>)
    requires Ok(t) && u != FREE && LeafPhase(t, u, op, pc, seen) && (pc.Lock? || pc.LockCheck?)
    requires LeafCan(t, op, pc) && (t', pc') == LeafNext(t, u, op, pc)
    ensures Keeps(t, t', u) && pc'.AtLeaf? && LeafPhase(t', u, op, pc'.leaf, Seen(t', op, seen))
  {
    if pc.Lock? { LockKeeps(t, pc.n, u); } else { SameKeeps(t, u); }
  }

  lemma LeafFreeKeeps(t: Tree, t': Tree, u: int, op: Op, pc: LeafPC, pc': PC, seen: set<Found>)
    requires Ok(t) && u != FREE && LeafPhase(t, u, op, pc, seen) && (pc.LockStale? || pc.Release?)
    requires LeafCan(t, op, pc) && (t', pc') == LeafNext(t, u, op, pc)
    ensures Keeps(t, t', u) && Knows(t', u, op, pc', Seen(t', op, seen))
  {
    UnlockKeeps(t, pc.n, u);
  }

  lemma LeafStepKeeps(t: Tree, t': Tree, u: int, op: Op, pc: LeafPC, pc': PC, seen: set<Found>)
    requires Ok(t) && u != FREE && LeafPhase(t, u, op, pc, seen) && LeafCan(t, op, pc) &&
      (t', pc') == LeafNext(t, u, op, pc)
    ensures Keeps(t, t', u) && Knows(t', u, op, pc', Seen(t', op, seen))
  {
    match pc
    case Lock(n, v) => LockLeafKeeps(t, t', u, op, pc, pc', seen);
    case LockCheck(n, v) => LockLeafKeeps(t, t', u, op, pc, pc', seen);
    case LockStale(n) => LeafFreeKeeps(t, t', u, op, pc, pc', seen);
    case Hold(n) => HoldKeeps(t, t', u, op, n, pc', seen);
    case LeafBump(n) => LeafBumpKeeps(t, u, op, n, seen);
    case Release(n, res) => LeafFreeKeeps(t, t', u, op, pc, pc', seen);
    case LinkSib(n, s) => LinkSibKeeps(t, u, op, n, s, seen);
  }
}
