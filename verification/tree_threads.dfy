/** The threads of the concurrent map: one program counter per load or store that another thread
    can observe (distcache/concurrent_map_impl.h:29-195, 244-510), what each thread may assume at
    each of them, and why no step of another thread can take that away. */
module TreeThreads {
  import opened TreeNodes
  import opened TreeOps
  import opened TreeSplits

  datatype Op = Get(key: int) | Update(key: int, val: Val) | Insert(key: int, val: Val)

  /** What a lookup may report. */
  datatype Found = Absent | Present(val: Val)

  // Program counters.  `v`, `cv`: versions read; `lo`, `hi`: the binary search window; `c`, `nx`: pointers read.

  /** `locate_leaf` */
  datatype LocatePC =
    | LoadRoot
    | LoadRootVer(n: Ptr)
    | CheckRoot(n: Ptr, v: nat)
    | Visit(n: Ptr, v: nat)
    | Find(n: Ptr, v: nat, lo: nat, hi: nat)
    | LoadKid(n: Ptr, v: nat, slot: nat)
    | LoadKidVer(n: Ptr, v: nat, slot: nat, c: Ptr)
    | CheckLock(n: Ptr, v: nat, slot: nat, c: Ptr, cv: nat)
    | CheckVer(n: Ptr, v: nat, c: Ptr, cv: nat)

  /** `get` at a leaf, and the walk along the leaf chain that it shares with `locate_leaf_locked` */
  datatype SeekPC =
    | Search(n: Ptr, v: nat)
    | Seek(n: Ptr, v: nat, lo: nat, hi: nat)
    | SeekCount(n: Ptr, v: nat, slot: nat)
    | SeekKey(n: Ptr, v: nat, slot: nat)
    | SeekVal(n: Ptr, v: nat, slot: nat)
    | GetLock(n: Ptr, v: nat, res: Found)
    | GetVer(n: Ptr, v: nat, res: Found)
    | ChaseVer(n: Ptr)
    | ChaseNext(n: Ptr, v: nat)
    | ChaseKey(n: Ptr, v: nat, nx: Ptr)

  /** `locate_leaf_locked`, `update`, `insert_leaf` */
  datatype LeafPC =
    | Lock(n: Ptr, v: nat)
    | LockCheck(n: Ptr, v: nat)
    | LockStale(n: Ptr)
    | Hold(n: Ptr)
    | LeafBump(n: Ptr)
    | Release(n: Ptr, res: Found)
    | LinkSib(n: Ptr, s: Ptr)

  /** `split_n_insert_leaf`: finding and locking the parent */
  datatype ParentPC =
    | LoadPar(n: Ptr, s: Ptr)
    | LockPar(n: Ptr, s: Ptr, p: Ptr)
    | CheckPar(n: Ptr, s: Ptr, p: Ptr)
    | DropPar(n: Ptr, s: Ptr, p: Ptr)
    | HoldPar(n: Ptr, s: Ptr, p: Ptr)
    | Crown(n: Ptr, s: Ptr)

  /** ... handing the sibling to a parent with room, or to a new root */
  datatype HandPC =
    | TellSib(n: Ptr, s: Ptr, p: Ptr)
    | CrownSib(n: Ptr, s: Ptr, r: Ptr)
    | CrownRoot(n: Ptr, s: Ptr, r: Ptr)

  /** ... incrementing the versions and releasing the nodes of the last round */
  datatype FinPC =
    | FinBump(n: Ptr, s: Ptr, p: Ptr, done: nat)
    | FinFree(n: Ptr, s: Ptr, p: Ptr, done: nat)

  /** ... splitting a full parent, and releasing the lower pair */
  datatype DividePC =
    | RehomeSib(n: Ptr, s: Ptr, p: Ptr, q: Ptr)
    | Rehome(n: Ptr, s: Ptr, p: Ptr, q: Ptr, i: nat)

  datatype BetweenPC =
    | MidBump(n: Ptr, s: Ptr, p: Ptr, q: Ptr, done: nat)
    | MidFree(n: Ptr, s: Ptr, p: Ptr, q: Ptr, done: nat)

  datatype PC =
    | Idle
    | Done(res: Found)
    | Locating(locate: LocatePC)
    | Seeking(seek: SeekPC)
    | AtLeaf(leaf: LeafPC)
    | AtParent(par: ParentPC)
    | Handing(hand: HandPC)
    | Finishing(fin: FinPC)
    | Dividing(div: DividePC)
    | Between(mid: BetweenPC)

  /** Two fields are auxiliary: `seen` is everything the abstract map said about the key since the call
      began, `stores` how often the call has stored its pair. */
  datatype Thread = Thread(op: Op, pc: PC, seen: set<Found>, stores: nat)

  function Lookup(m: map<int, Val>, k: int): Found {
    if k in m then Present(m[k]) else Absent
  }

  function Val0(op: Op): Val {
    if op.Get? then 0 else op.val
  }

  /** A write that finds or makes its place answers with its own value; an insertion always does. */
  predicate Answers(op: Op, res: Found) {
    match op
    case Get(_) => true
    case Update(_, val) => res == Absent || res == Present(val)
    case Insert(_, val) => res == Present(val)
  }

  // ---------------------------------------------------------------- what a reader knows

  /** The version read is still current and no modification is under way. */
  ghost predicate Clean(ns: seq<Node>, n: Ptr, v: nat)
    requires Live(ns, n)
  {
    ns[n].version == v && !ns[n].dirty
  }

  /** The node can hold `k`, and if it is still as it was when its version was read, it does. */
  ghost predicate Covers(ns: seq<Node>, n: Ptr, v: nat, k: int) {
    && Live(ns, n) && ns[n].version >= v && ns[n].low <= k
    && (Clean(ns, n, v) ==> k < ns[n].high)
  }

  ghost predicate GtWindow(s: seq<int>, k: int, lo: nat, hi: nat) {
    && lo <= hi <= |s|
    && (forall i :: 0 <= i < lo ==> s[i] <= k)
    && (forall i :: hi <= i < |s| ==> s[i] > k)
  }

  ghost predicate GeqWindow(s: seq<int>, k: int, lo: nat, hi: nat) {
    && lo <= hi <= |s|
    && (forall i :: 0 <= i < lo ==> s[i] < k)
    && (forall i :: hi <= i < |s| ==> s[i] >= k)
  }

  /** Child `c` was read from slot `slot`, and `k` belongs there. */
  ghost predicate RoutesTo(n: Node, k: int, slot: nat, c: Ptr) {
    slot < |n.kids| && slot <= |n.keys| && n.kids[slot] == c && GtWindow(n.keys, k, slot, slot)
  }

  /** On the way down. */
  ghost predicate LocateOk(ns: seq<Node>, k: int, pc: LocatePC) {
    match pc
    case LoadRoot => true
    case LoadRootVer(n) => RootLike(ns, n)
    case CheckRoot(n, v) => RootLike(ns, n) && ns[n].version >= v
    case Visit(n, v) => Covers(ns, n, v, k)
    case Find(n, v, lo, hi) =>
      && Covers(ns, n, v, k) && ns[n].level > 0 && lo <= hi
      && (Clean(ns, n, v) ==> GtWindow(ns[n].keys, k, lo, hi))
    case LoadKid(n, v, slot) =>
      && Covers(ns, n, v, k) && ns[n].level > 0
      && (Clean(ns, n, v) ==> GtWindow(ns[n].keys, k, slot, slot))
    case LoadKidVer(n, v, slot, c) =>
      && Covers(ns, n, v, k) && Live(ns, c)
      && (Clean(ns, n, v) ==> RoutesTo(ns[n], k, slot, c))
    case CheckLock(n, v, slot, c, cv) =>
      && Covers(ns, n, v, k) && Live(ns, c) && ns[c].version >= cv
      && (Clean(ns, n, v) ==> RoutesTo(ns[n], k, slot, c))
    case CheckVer(n, v, c, cv) =>
      && Live(ns, n) && ns[n].version >= v && Live(ns, c) && ns[c].version >= cv
      && (ns[n].version == v ==> Covers(ns, c, cv, k))
  }

  /** At the leaves. */
  ghost predicate SeekOk(ns: seq<Node>, k: int, pc: SeekPC, seen: set<Found>) {
    match pc
    case Search(n, v) => Covers(ns, n, v, k) && ns[n].level == 0
    case Seek(n, v, lo, hi) =>
      && Covers(ns, n, v, k) && ns[n].level == 0 && lo <= hi
      && (Clean(ns, n, v) ==> GeqWindow(ns[n].keys, k, lo, hi))
    case SeekCount(n, v, slot) =>
      && Covers(ns, n, v, k) && ns[n].level == 0
      && (Clean(ns, n, v) ==> GeqWindow(ns[n].keys, k, slot, slot))
    case SeekKey(n, v, slot) =>
      && Covers(ns, n, v, k) && ns[n].level == 0
      && (Clean(ns, n, v) ==> slot < |ns[n].keys| && GeqWindow(ns[n].keys, k, slot, slot))
    case SeekVal(n, v, slot) =>
      && Covers(ns, n, v, k) && ns[n].level == 0
      && (Clean(ns, n, v) ==> slot < |ns[n].keys| && ns[n].keys[slot] == k)
    case GetLock(n, v, res) =>
      && Covers(ns, n, v, k) && ns[n].level == 0 && (Clean(ns, n, v) ==> res in seen)
    case GetVer(n, v, res) =>
      && Live(ns, n) && ns[n].version >= v && ns[n].low <= k && ns[n].level == 0
      && (ns[n].version == v ==> res in seen)
    case ChaseVer(n) => Live(ns, n) && ns[n].low <= k && ns[n].level == 0
    case ChaseNext(n, v) => Live(ns, n) && ns[n].low <= k && ns[n].level == 0 && ns[n].version >= v
    case ChaseKey(n, v, nx) =>
      && Live(ns, n) && ns[n].low <= k && ns[n].level == 0 && ns[n].version >= v
      && (nx != NULL ==> Live(ns, nx) && ns[nx].level == 0 && ns[nx].low > 0)
      && (Clean(ns, n, v) ==> if nx == NULL then ns[n].high == TOP else ns[nx].low == ns[n].high)
  }

  // ---------------------------------------------------------------- what a writer knows

  /** A leaf whose new key is in place, ready for its version to be incremented. */
  ghost predicate LeafReady(t: Tree, n: Ptr, k: int, val: Val) {
    Live(t.nodes, n) &&
        (t.nodes[n].level == 0 ==> NextExact(t.nodes, t.nodes[n]) && LeafAlmost(t.nodes[n], t.contents, k, val))
  }

  /** Either the key is still waiting in `n` or `s`, or it has been stored. */
  ghost predicate Waiting(t: Tree, n: Ptr, s: Ptr, op: Op, seen: set<Found>) {
    && Live(t.nodes, n) && Live(t.nodes, s)
    && (if t.nodes[n].level == 0 then t.nodes[n].low <= op.key < t.nodes[s].high else Present(Val0(op)) in seen)
  }

  ghost predicate Pair(t: Tree, n: Ptr, s: Ptr, op: Op, seen: set<Found>) {
    && LeafReady(t, n, op.key, Val0(op)) && LeafReady(t, s, op.key, Val0(op)) && Waiting(t, n, s, op, seen)
  }

  /** `done` of the nodes `n` and `s`, in this order, have had their version incremented. */
  ghost predicate Bumping(t: Tree, n: Ptr, s: Ptr, done: nat, op: Op, seen: set<Found>, u: int) {
    && u != FREE && Live(t.nodes, n) && Live(t.nodes, s) && n != s
    && t.nodes[n].owner == u && t.nodes[n].pend == NULL && Attached(t, n) && KidsHome(t.nodes, n)
    && t.nodes[s].owner == u && t.nodes[s].pend == NULL && Attached(t, s) && KidsHome(t.nodes, s)
    && t.nodes[s].level == t.nodes[n].level && t.nodes[s].low == t.nodes[n].high
    && Waiting(t, n, s, op, seen)
    && (if done == 0 then LeafReady(t, n, op.key, Val0(op))
        else !t.nodes[n].dirty && (op.key < t.nodes[n].high ==> Present(Val0(op)) in seen))
    && (if done <= 1 then LeafReady(t, s, op.key, Val0(op))
        else !t.nodes[s].dirty && Present(Val0(op)) in seen)
  }

  /** The parent that took `s` in, before and after its own version is incremented. */
  ghost predicate Taken(t: Tree, p: Ptr, u: int) {
    && u != FREE && Live(t.nodes, p) && t.nodes[p].owner == u && t.nodes[p].pend == NULL && t.nodes[p].level > 0
    && Attached(t, p) && KidsHome(t.nodes, p)
  }

  ghost predicate RehomedTo(t: Tree, s: Ptr, p: Ptr, q: Ptr, i: nat)
    requires Live(t.nodes, s) && Live(t.nodes, p) && Live(t.nodes, q)
  {
    && i <= |t.nodes[q].kids|
    && (s in t.nodes[p].kids || s in t.nodes[q].kids)
    && KidsHome(t.nodes, p)
    && (forall j :: 0 <= j < i ==> Live(t.nodes, t.nodes[q].kids[j]) && t.nodes[t.nodes[q].kids[j]].parent == q)
    && (forall j :: i <= j < |t.nodes[q].kids| ==> OldHome(t.nodes, t.nodes[q].kids[j], s, p))
  }

  /** The leaf a writer holds, up to the moment its sibling is linked. */
  ghost predicate LeafPhase(t: Tree, u: int, op: Op, pc: LeafPC, seen: set<Found>) {
    var k, ns := op.key, t.nodes;
    match pc
    case Lock(n, v) => !op.Get? && Covers(ns, n, v, k) && ns[n].level == 0
    case LockCheck(n, v) => !op.Get? && AtRest(t, n, u) && Covers(ns, n, v, k) && ns[n].level == 0
    case LockStale(n) => AtRest(t, n, u) && ns[n].low <= k && ns[n].level == 0
    case Hold(n) => !op.Get? && AtRest(t, n, u) && ns[n].level == 0 && ns[n].low <= k < ns[n].high
    case LeafBump(n) =>
      op.Insert? && Bumpable(t, n, k, Val0(op), u) && ns[n].level == 0 && ns[n].low <= k < ns[n].high
    case Release(n, res) => !op.Get? && AtRest(t, n, u) && res in seen && Answers(op, res)
    case LinkSib(n, s) =>
      && op.Insert? && Splitting(t, n, s, u) && ns[n].level == 0 && LeafReady(t, s, k, Val0(op))
      && LeafAlmost(ns[n], t.contents, k, Val0(op)) && Waiting(t, n, s, op, seen)
  }

  /** The search for the parent to lock. */
  ghost predicate ParentPhase(t: Tree, u: int, op: Op, pc: ParentPC, seen: set<Found>) {
    var k, ns := op.key, t.nodes;
    match pc
    case LoadPar(n, s) => op.Insert? && Splitting(t, n, s, u) && Pair(t, n, s, op, seen)
    case LockPar(n, s, p) =>
      op.Insert? && Splitting(t, n, s, u) && Pair(t, n, s, op, seen) && Live(ns, p) && ns[p].level == ns[n].level + 1
    case CheckPar(n, s, p) => op.Insert? && Splitting(t, n, s, u) && Pair(t, n, s, op, seen) && AtRest(t, p, u)
    case DropPar(n, s, p) => op.Insert? && Splitting(t, n, s, u) && Pair(t, n, s, op, seen) && AtRest(t, p, u)
    case HoldPar(n, s, p) => op.Insert? && ReadyParent(t, n, s, p, u) && Pair(t, n, s, op, seen)
    case Crown(n, s) => op.Insert? && Splitting(t, n, s, u) && Pair(t, n, s, op, seen) && ns[n].parent == NULL
  }

  /** Handing the sibling over to a parent with room, or to a new root. */
  ghost predicate HandPhase(t: Tree, u: int, op: Op, pc: HandPC, seen: set<Found>) {
    var k, ns := op.key, t.nodes;
    match pc
    case TellSib(n, s, p) =>
      && op.Insert? && Handed(t, n, s, u) && Pair(t, n, s, op, seen)
      && Live(ns, p) && ns[p].owner == u && ns[p].dirty && ns[p].pend == NULL && ns[p].level == ns[s].level + 1
      && Attached(t, p) && s in ns[p].kids && ns[s].parent == NULL
      && (forall j :: 0 <= j < |ns[p].kids| ==> OldHome(ns, ns[p].kids[j], s, p))
    case CrownSib(n, s, r) => op.Insert? && Crowning(t, n, s, r, u) && ns[s].parent == NULL && Pair(t, n, s, op, seen)
    case CrownRoot(n, s, r) => op.Insert? && Crowning(t, n, s, r, u) && ns[s].parent == r && Pair(t, n, s, op, seen)
  }

  /** Incrementing the versions and releasing the three nodes of the last round. */
  ghost predicate FinPhase(t: Tree, u: int, op: Op, pc: FinPC, seen: set<Found>) {
    var k, ns := op.key, t.nodes;
    match pc
    case FinBump(n, s, p, done) =>
      && op.Insert? && done <= 2 && Taken(t, p, u) && n != p && s != p
      && Bumping(t, n, s, if done == 0 then 0 else done - 1, op, seen, u)
      && (done > 0 ==> !ns[p].dirty)
    case FinFree(n, s, p, done) =>
      && op.Insert? && done <= 2 && n != p && s != p && n != s && Present(Val0(op)) in seen
      && Live(ns, n) && Live(ns, p)
      && (done == 0 ==> AtRest(t, p, u)) && (done <= 1 ==> AtRest(t, n, u)) && AtRest(t, s, u)
  }

  /** Splitting a full parent. */
  ghost predicate RehomePhase(t: Tree, u: int, op: Op, pc: DividePC, seen: set<Found>) {
    var k, ns := op.key, t.nodes;
    match pc
    case RehomeSib(n, s, p, q) => op.Insert? && Rehoming(t, n, s, p, q, u) && Pair(t, n, s, op, seen)
    case Rehome(n, s, p, q, i) =>
      && op.Insert? && SplitCore(t, p, q, u) && Handed(t, n, s, u) && ns[p].level == ns[s].level + 1
      && RehomedTo(t, s, p, q, i) && Pair(t, n, s, op, seen)
  }

  /** Releasing the lower pair before the upper pair is handed over in turn. */
  ghost predicate MidPhase(t: Tree, u: int, op: Op, pc: BetweenPC, seen: set<Found>) {
    var k, ns := op.key, t.nodes;
    match pc
    case MidBump(n, s, p, q, done) =>
      && op.Insert? && done <= 1 && Splitting(t, p, q, u)
      && Bumping(t, n, s, done, op, seen, u) && ns[p].level == ns[n].level + 1
    case MidFree(n, s, p, q, done) =>
      && op.Insert? && done <= 1 && Splitting(t, p, q, u) && n != s && ns[p].level > 0 && Present(Val0(op)) in seen
      && (done == 0 ==> AtRest(t, n, u)) && AtRest(t, s, u) && ns[s].level + 1 == ns[p].level
      && Live(ns, n) && (done == 0 ==> ns[n].level + 1 == ns[p].level)
  }

  /** Everything a thread knows at its program counter. */
  ghost predicate Knows(t: Tree, u: int, op: Op, pc: PC, seen: set<Found>) {
    match pc
    case Idle => true
    case Done(res) => res in seen && Answers(op, res)
    case Locating(l) => LocateOk(t.nodes, op.key, l)
    case Seeking(l) => SeekOk(t.nodes, op.key, l, seen) && (op.Get? || l.ChaseVer? || l.ChaseNext? || l.ChaseKey?)
    case AtLeaf(l) => LeafPhase(t, u, op, l, seen)
    case AtParent(l) => ParentPhase(t, u, op, l, seen)
    case Handing(l) => HandPhase(t, u, op, l, seen)
    case Finishing(l) => FinPhase(t, u, op, l, seen)
    case Dividing(l) => RehomePhase(t, u, op, l, seen)
    case Between(l) => MidPhase(t, u, op, l, seen)
  }

  ghost predicate ThreadOk(t: Tree, u: int, th: Thread) {
    0 <= th.op.key < TOP && Knows(t, u, th.op, th.pc, th.seen)
  }

  /** The thread after the abstract map may have changed. */
  function Witness(m: map<int, Val>, th: Thread): Thread {
    th.(seen := th.seen + {Lookup(m, th.op.key)})
  }

  // ---------------------------------------------------------------- stability

  /** No step of another thread invalidates what an optimistic reader knows. */
  lemma LocateStable(ns: seq<Node>, ns': seq<Node>, w: int, k: int, pc: LocatePC)
    requires NodesRely(w, ns, ns') && LocateOk(ns, k, pc)
    ensures LocateOk(ns', k, pc)
  {
  }

  lemma SeekStable(ns: seq<Node>, ns': seq<Node>, w: int, k: int, pc: SeekPC, seen: set<Found>, seen': set<Found>)
    requires NodesRely(w, ns, ns') && SeekOk(ns, k, pc, seen) && seen <= seen'
    ensures SeekOk(ns', k, pc, seen')
  {
  }

  /** A node held by `u` is untouched by `w`, except perhaps for its parent pointer. */
  ghost predicate Held(t: Tree, t': Tree, u: int, i: Ptr) {
    && Live(t.nodes, i) && Live(t'.nodes, i) && t.nodes[i].owner == u
    && t'.nodes[i] == t.nodes[i].(parent := t'.nodes[i].parent)
    && (t.nodes[i].parent == NULL <==> t'.nodes[i].parent == NULL)
    && (Attached(t, i) ==> Attached(t', i))
  }

  lemma HeldStable(t: Tree, t': Tree, w: int, u: int, i: Ptr)
    requires Rely(w, t, t') && u != w && u != FREE && Live(t.nodes, i) && t.nodes[i].owner == u
    ensures Held(t, t', u, i)
    ensures KidsHome(t.nodes, i) ==> KidsHome(t'.nodes, i)
    ensures NextExact(t.nodes, t.nodes[i]) ==> NextExact(t'.nodes, t'.nodes[i])
    ensures AtRest(t, i, u) ==> AtRest(t', i, u)
  {
    assert NodeRely(w, t.nodes[i], t'.nodes[i]);
    if KidsHome(t.nodes, i) {
      forall j | 0 <= j < |t.nodes[i].kids| ensures t'.nodes[t.nodes[i].kids[j]].parent == i {
        assert ParentRely(w, t.nodes, t'.nodes, t.nodes[i].kids[j]);
      }
    }
    if NextExact(t.nodes, t.nodes[i]) && t.nodes[i].next != NULL {
      assert NodeRely(w, t.nodes[t.nodes[i].next], t'.nodes[t.nodes[i].next]);
    }
  }

  lemma AlmostStable(t: Tree, t': Tree, w: int, u: int, i: Ptr, k: int, val: Val)
    requires Rely(w, t, t') && u != w && u != FREE && Live(t.nodes, i) && t.nodes[i].owner == u && t.nodes[i].level == 0
    requires Shape(t.nodes[i]) && LeafAlmost(t.nodes[i], t.contents, k, val)
    ensures LeafAlmost(t'.nodes[i], t'.contents, k, val)
  {
    HeldStable(t, t', w, u, i);
    assert RangeRely(w, t.nodes[i], t.contents, t'.contents);
    var n := t.nodes[i];
    forall j | 0 <= j < |n.keys| && n.keys[j] != k
        ensures n.keys[j] in t'.contents && t'.contents[n.keys[j]] == n.vals[j] {
      assert n.low <= n.keys[j] < n.high;
    }
  }

  lemma ReadyStable(t: Tree, t': Tree, w: int, u: int, i: Ptr, k: int, val: Val)
    requires AllShape(t.nodes) && Rely(w, t, t') && u != w && u != FREE && LeafReady(t, i, k, val) &&
      t.nodes[i].owner == u
    ensures LeafReady(t', i, k, val)
  {
    HeldStable(t, t', w, u, i);
    assert Shape(t.nodes[i]);
    if t.nodes[i].level == 0 { AlmostStable(t, t', w, u, i, k, val); }
  }

  lemma SplitStable(t: Tree, t': Tree, w: int, u: int, n: Ptr, s: Ptr)
    requires Rely(w, t, t') && u != w && SplitCore(t, n, s, u)
    ensures SplitCore(t', n, s, u) && (Splitting(t, n, s, u) ==> Splitting(t', n, s, u))
  {
    HeldStable(t, t', w, u, n);
    HeldStable(t, t', w, u, s);
  }

  lemma HandedStable(t: Tree, t': Tree, w: int, u: int, n: Ptr, s: Ptr)
    requires Rely(w, t, t') && u != w && Handed(t, n, s, u)
    ensures Handed(t', n, s, u) && (t.nodes[s].parent == NULL ==> t'.nodes[s].parent == NULL)
  {
    HeldStable(t, t', w, u, n);
    HeldStable(t, t', w, u, s);
  }

  lemma PairStable(t: Tree, t': Tree, w: int, u: int, n: Ptr, s: Ptr, op: Op, seen: set<Found>, seen': set<Found>)
    requires AllShape(t.nodes) && Rely(w, t, t') && u != w && u != FREE && Pair(t, n, s, op, seen) && seen <= seen'
    requires t.nodes[n].owner == u && t.nodes[s].owner == u
    ensures Pair(t', n, s, op, seen')
  {
    HeldStable(t, t', w, u, n);
    HeldStable(t, t', w, u, s);
    ReadyStable(t, t', w, u, n, op.key, Val0(op));
    ReadyStable(t, t', w, u, s, op.key, Val0(op));
  }

  lemma BumpingStable(t: Tree, t': Tree, w: int, u: int, n: Ptr, s: Ptr, done: nat, op: Op, seen: set<Found>,
      seen': set<Found>)
    requires AllShape(t.nodes) && Rely(w, t, t') && u != w && Bumping(t, n, s, done, op, seen, u) && seen <= seen'
    ensures Bumping(t', n, s, done, op, seen', u)
  {
    HeldStable(t, t', w, u, n);
    HeldStable(t, t', w, u, s);
    if done == 0 { ReadyStable(t, t', w, u, n, op.key, Val0(op)); }
    if done <= 1 { ReadyStable(t, t', w, u, s, op.key, Val0(op)); }
  }

  /** Where a child of a node held by `u` points does not change. */
  lemma OldHomeStable(t: Tree, t': Tree, w: int, u: int, c: Ptr, s: Ptr, p: Ptr)
    requires Rely(w, t, t') && u != w && u != FREE && Live(t.nodes, s) && t.nodes[s].owner == u && Live(t.nodes, p) &&
      t.nodes[p].owner == u
    requires OldHome(t.nodes, c, s, p)
    ensures OldHome(t'.nodes, c, s, p)
  {
    HeldStable(t, t', w, u, s);
    assert ParentRely(w, t.nodes, t'.nodes, c);
  }

  lemma RehomedStable(t: Tree, t': Tree, w: int, u: int, s: Ptr, p: Ptr, q: Ptr, i: nat)
    requires Rely(w, t, t') && u != w && u != FREE && Live(t.nodes, s) && Live(t.nodes, p) && Live(t.nodes, q)
    requires t.nodes[s].owner == u && t.nodes[p].owner == u && t.nodes[q].owner == u
    requires RehomedTo(t, s, p, q, i)
    ensures Live(t'.nodes, s) && Live(t'.nodes, p) && Live(t'.nodes, q) && RehomedTo(t', s, p, q, i)
  {
    HeldStable(t, t', w, u, p);
    HeldStable(t, t', w, u, q);
    forall j | 0 <= j < i ensures t'.nodes[t'.nodes[q].kids[j]].parent == q {
      assert ParentRely(w, t.nodes, t'.nodes, t.nodes[q].kids[j]);
    }
    forall j | i <= j < |t'.nodes[q].kids| ensures OldHome(t'.nodes, t'.nodes[q].kids[j], s, p) {
      OldHomeStable(t, t', w, u, t.nodes[q].kids[j], s, p);
    }
  }

  lemma RehomingStable(t: Tree, t': Tree, w: int, u: int, n: Ptr, s: Ptr, p: Ptr, q: Ptr)
    requires Rely(w, t, t') && u != w && Rehoming(t, n, s, p, q, u)
    ensures Rehoming(t', n, s, p, q, u)
  {
    SplitStable(t, t', w, u, p, q);
    HandedStable(t, t', w, u, n, s);
    HeldStable(t, t', w, u, p);
    HeldStable(t, t', w, u, q);
    HeldStable(t, t', w, u, s);
    forall j | 0 <= j < |t'.nodes[p].kids| ensures OldHome(t'.nodes, t'.nodes[p].kids[j], s, p) {
      OldHomeStable(t, t', w, u, t.nodes[p].kids[j], s, p);
    }
    forall j | 0 <= j < |t'.nodes[q].kids| ensures OldHome(t'.nodes, t'.nodes[q].kids[j], s, p) {
      OldHomeStable(t, t', w, u, t.nodes[q].kids[j], s, p);
    }
  }

  lemma CrowningStable(t: Tree, t': Tree, w: int, u: int, n: Ptr, s: Ptr, r: Ptr)
    requires Rely(w, t, t') && u != w && Crowning(t, n, s, r, u)
    ensures Crowning(t', n, s, r, u)
    ensures t.nodes[s].parent == r ==> t'.nodes[s].parent == r
    ensures t.nodes[s].parent == NULL ==> t'.nodes[s].parent == NULL
  {
    HandedStable(t, t', w, u, n, s);
    HeldStable(t, t', w, u, r);
    HeldStable(t, t', w, u, s);
    assert ParentRely(w, t.nodes, t'.nodes, n) && ParentRely(w, t.nodes, t'.nodes, s);
  }

  /** The leaf a writer holds, up to the moment its sibling is linked. */
  lemma LeafPhaseStable(t: Tree, t': Tree, w: int, u: int, op: Op, pc: LeafPC, seen: set<Found>, seen': set<Found>)
    requires AllShape(t.nodes) && Rely(w, t, t') && u != w && u != FREE && LeafPhase(t, u, op, pc, seen) &&
      seen <= seen'
    ensures LeafPhase(t', u, op, pc, seen')
  {
    match pc
    case Lock(n, v) => assert NodeRely(w, t.nodes[n], t'.nodes[n]);
    case LockCheck(n, v) => HeldStable(t, t', w, u, n);
    case LockStale(n) => HeldStable(t, t', w, u, n);
    case Hold(n) => HeldStable(t, t', w, u, n);
    case LeafBump(n) =>
      HeldStable(t, t', w, u, n);
      ReadyStable(t, t', w, u, n, op.key, Val0(op));
    case Release(n, res) => HeldStable(t, t', w, u, n);
    case LinkSib(n, s) =>
      SplitStable(t, t', w, u, n, s);
      HeldStable(t, t', w, u, n);
      HeldStable(t, t', w, u, s);
      ReadyStable(t, t', w, u, s, op.key, Val0(op));
      assert Shape(t.nodes[n]);
      AlmostStable(t, t', w, u, n, op.key, Val0(op));
  }

  /** The search for the parent to lock. */
  lemma ParentPhaseStable(t: Tree, t': Tree, w: int, u: int, op: Op, pc: ParentPC, seen: set<Found>, seen': set<Found>)
    requires AllShape(t.nodes) && Rely(w, t, t') && u != w && u != FREE && ParentPhase(t, u, op, pc, seen) &&
      seen <= seen'
    ensures ParentPhase(t', u, op, pc, seen')
  {
    match pc
    case LoadPar(n, s) =>
      SplitStable(t, t', w, u, n, s);
      PairStable(t, t', w, u, n, s, op, seen, seen');
    case LockPar(n, s, p) =>
      SplitStable(t, t', w, u, n, s);
      PairStable(t, t', w, u, n, s, op, seen, seen');
      assert NodeRely(w, t.nodes[n], t'.nodes[n]) && NodeRely(w, t.nodes[p], t'.nodes[p]);
    case CheckPar(n, s, p) =>
      SplitStable(t, t', w, u, n, s);
      PairStable(t, t', w, u, n, s, op, seen, seen');
      HeldStable(t, t', w, u, p);
    case DropPar(n, s, p) =>
      SplitStable(t, t', w, u, n, s);
      PairStable(t, t', w, u, n, s, op, seen, seen');
      HeldStable(t, t', w, u, p);
    case HoldPar(n, s, p) =>
      SplitStable(t, t', w, u, n, s);
      PairStable(t, t', w, u, n, s, op, seen, seen');
      HeldStable(t, t', w, u, p);
      assert ParentRely(w, t.nodes, t'.nodes, n);
    case Crown(n, s) =>
      SplitStable(t, t', w, u, n, s);
      PairStable(t, t', w, u, n, s, op, seen, seen');
      HeldStable(t, t', w, u, n);
  }

  lemma HandPhaseStable(t: Tree, t': Tree, w: int, u: int, op: Op, pc: HandPC, seen: set<Found>, seen': set<Found>)
    requires AllShape(t.nodes) && Rely(w, t, t') && u != w && u != FREE && HandPhase(t, u, op, pc, seen) &&
      seen <= seen'
    ensures HandPhase(t', u, op, pc, seen')
  {
    match pc
    case TellSib(n, s, p) =>
      HandedStable(t, t', w, u, n, s);
      PairStable(t, t', w, u, n, s, op, seen, seen');
      HeldStable(t, t', w, u, p);
      HeldStable(t, t', w, u, s);
      forall j | 0 <= j < |t'.nodes[p].kids| ensures OldHome(t'.nodes, t'.nodes[p].kids[j], s, p) {
        OldHomeStable(t, t', w, u, t.nodes[p].kids[j], s, p);
      }
    case CrownSib(n, s, r) =>
      CrowningStable(t, t', w, u, n, s, r);
      PairStable(t, t', w, u, n, s, op, seen, seen');
    case CrownRoot(n, s, r) =>
      CrowningStable(t, t', w, u, n, s, r);
      PairStable(t, t', w, u, n, s, op, seen, seen');
  }

  lemma FinPhaseStable(t: Tree, t': Tree, w: int, u: int, op: Op, pc: FinPC, seen: set<Found>, seen': set<Found>)
    requires AllShape(t.nodes) && Rely(w, t, t') && u != w && u != FREE && FinPhase(t, u, op, pc, seen) && seen <= seen'
    ensures FinPhase(t', u, op, pc, seen')
  {
    match pc
    case FinBump(n, s, p, done) =>
      BumpingStable(t, t', w, u, n, s, if done == 0 then 0 else done - 1, op, seen, seen');
      HeldStable(t, t', w, u, p);
    case FinFree(n, s, p, done) =>
      if done == 0 { HeldStable(t, t', w, u, p); }
      if done <= 1 { HeldStable(t, t', w, u, n); }
      HeldStable(t, t', w, u, s);
  }

  /** Splitting the parent. */
  lemma RehomePhaseStable(t: Tree, t': Tree, w: int, u: int, op: Op, pc: DividePC, seen: set<Found>, seen': set<Found>)
    requires AllShape(t.nodes) && Rely(w, t, t') && u != w && u != FREE && RehomePhase(t, u, op, pc, seen) &&
      seen <= seen'
    ensures RehomePhase(t', u, op, pc, seen')
  {
    match pc
    case RehomeSib(n, s, p, q) =>
      RehomingStable(t, t', w, u, n, s, p, q);
      PairStable(t, t', w, u, n, s, op, seen, seen');
    case Rehome(n, s, p, q, i) =>
      SplitStable(t, t', w, u, p, q);
      HandedStable(t, t', w, u, n, s);
      HeldStable(t, t', w, u, p);
      HeldStable(t, t', w, u, s);
      RehomedStable(t, t', w, u, s, p, q, i);
      PairStable(t, t', w, u, n, s, op, seen, seen');
  }

  lemma MidPhaseStable(t: Tree, t': Tree, w: int, u: int, op: Op, pc: BetweenPC, seen: set<Found>, seen': set<Found>)
    requires AllShape(t.nodes) && Rely(w, t, t') && u != w && u != FREE && MidPhase(t, u, op, pc, seen) && seen <= seen'
    ensures MidPhase(t', u, op, pc, seen')
  {
    match pc
    case MidBump(n, s, p, q, done) =>
      SplitStable(t, t', w, u, p, q);
      HeldStable(t, t', w, u, p);
      HeldStable(t, t', w, u, n);
      BumpingStable(t, t', w, u, n, s, done, op, seen, seen');
    case MidFree(n, s, p, q, done) =>
      SplitStable(t, t', w, u, p, q);
      HeldStable(t, t', w, u, p);
      if done == 0 { HeldStable(t, t', w, u, n); }
      HeldStable(t, t', w, u, s);
  }

  /** What thread `u` knows survives any step of any other thread. */
  lemma ThreadStable(t: Tree, t': Tree, w: int, u: int, th: Thread)
    requires AllShape(t.nodes) && Rely(w, t, t') && u != w && u != FREE && ThreadOk(t, u, th)
    ensures ThreadOk(t', u, Witness(t'.contents, th))
  {
    var op, pc, seen, seen' := th.op, th.pc, th.seen, Witness(t'.contents, th).seen;
    match pc
    case Idle =>
    case Done(_) =>
    case Locating(l) => LocateStable(t.nodes, t'.nodes, w, op.key, l);
    case Seeking(l) => SeekStable(t.nodes, t'.nodes, w, op.key, l, seen, seen');
    case AtLeaf(l) => LeafPhaseStable(t, t', w, u, op, l, seen, seen');
    case AtParent(l) => ParentPhaseStable(t, t', w, u, op, l, seen, seen');
    case Handing(l) => HandPhaseStable(t, t', w, u, op, l, seen, seen');
    case Finishing(l) => FinPhaseStable(t, t', w, u, op, l, seen, seen');
    case Dividing(l) => RehomePhaseStable(t, t', w, u, op, l, seen, seen');
    case Between(l) => MidPhaseStable(t, t', w, u, op, l, seen, seen');
  }
}
