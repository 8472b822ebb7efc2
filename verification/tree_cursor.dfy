/** A scan of the map while any number of threads change it (distcache/concurrent_map_impl.h:96-128, 687-776). The
    scanning thread only reads: it goes along with a run of the others, each of its loads a step of its own, made in
    whatever state the run has reached. */
module TreeCursor {
  import opened TreeNodes
  import opened TreeOps
  import opened TreeThreads
  import opened TreeMachine
  import opened TreeSafety
  import TreeProgress
  import opened TreeScan

  // ---------------------------------------------------------------- the scanning thread

  /** A leaf being copied: the version read first, whether it is the first leaf, where the copy starts, the number of
      entries the leaf is said to have, and the entries copied. */
  datatype Reading = Reading(n: Ptr, v: nat, first: bool, slot: nat, count: nat, buf: seq<(int, Val)>)

  datatype Cursor =
    | Descend(pc: PC)
    | ReadVer(n: Ptr)
    | ReadCount(n: Ptr, v: nat)
    | ReadVal(r: Reading)
    | ReadKey(r: Reading, val: Val)
    | TestLock(r: Reading, nx: Ptr)
    | TestVer(r: Reading, nx: Ptr)
    | AtEnd

  /** The cursor and the entries of the leaves it has read. */
  datatype Scanner = Scanner(c: Cursor, res: seq<(int, Val)>)

  const START := Scanner(Descend(Locating(LoadRoot)), [])

  ghost predicate CursorCan(t: Tree, c: Cursor, o: int) {
    match c
    case Descend(pc) => if pc.Locating? then LocateCan(t, pc.locate, o) else pc.Seeking? && SeekCan(t, pc.seek, o)
    case ReadVer(n) => Live(t.nodes, n)
    case ReadCount(n, v) => Live(t.nodes, n) && 0 <= o <= CAPACITY
    case ReadVal(r) => Live(t.nodes, r.n)
    case ReadKey(r, val) => Live(t.nodes, r.n)
    case TestLock(r, nx) => Live(t.nodes, r.n)
    case TestVer(r, nx) => Live(t.nodes, r.n)
    case AtEnd => false
  }

  /** A leaf found changed is read again; the first one only after a walk along the chain. */
  function Again(r: Reading): Cursor { if r.first then Descend(Seeking(ChaseVer(r.n))) else ReadVer(r.n) }

  ghost function CursorNext(t: Tree, begin: int, c: Cursor, o: int): Cursor
    requires CursorCan(t, c, o)
  {
    match c
    case Descend(pc) =>
      if pc.Locating? then Descend(LocateNext(t, Get(begin), pc.locate, o))
      else if pc.seek.SeekCount?
          then ReadVal(Reading(pc.seek.n, pc.seek.v, true, pc.seek.slot, CountAt(t.nodes[pc.seek.n], o), []))
      else Descend(SeekNext(t, Get(begin), pc.seek, o))
    case ReadVer(n) => ReadCount(n, t.nodes[n].version)
    case ReadCount(n, v) => ReadVal(Reading(n, v, false, 0, CountAt(t.nodes[n], o), []))
    case ReadVal(r) =>
      if r.slot + |r.buf| < r.count then ReadKey(r, ValAt(t.nodes[r.n], r.slot + |r.buf|, o))
          else TestLock(r, t.nodes[r.n].next)
    case ReadKey(r, val) => ReadVal(r.(buf := r.buf + [(KeyAt(t.nodes[r.n], r.slot + |r.buf|, o), val)]))
    case TestLock(r, nx) => if t.nodes[r.n].owner != FREE then Again(r) else TestVer(r, nx)
    case TestVer(r, nx) => if t.nodes[r.n].version != r.v then Again(r) else if nx == NULL then AtEnd else ReadVer(nx)
  }

  /** A leaf read without a change in between is handed out. */
  ghost function ScanNext(t: Tree, begin: int, sc: Scanner, o: int): Scanner
    requires CursorCan(t, sc.c, o)
  {
    Scanner(CursorNext(t, begin, sc.c, o),
            if sc.c.TestVer? && t.nodes[sc.c.r.n].version == sc.c.r.v then sc.res + sc.c.r.buf else sc.res)
  }

  // ---------------------------------------------------------------- what it knows

  /** The entries are in order, lie in `[from, to)`, each was in the map at some moment, and no key of the range that
      was there at the start is missing. */
  ghost predicate Covered(res: seq<(int, Val)>, from: int, to: int, start: map<int, Val>, ever: set<(int, Val)>) {
    && from <= to && Ascending(res) && (forall i :: 0 <= i < |res| ==> from <= res[i].0 < to && res[i] in ever)
    && (forall k {:trigger Listed(res, k)} :: k in start && from <= k < to ==> Listed(res, k))
  }

  ghost function To(ns: seq<Node>, nx: Ptr): int { if Live(ns, nx) then ns[nx].low else TOP }

  ghost predicate Follows(ns: seq<Node>, nx: Ptr) { nx == NULL || (Live(ns, nx) && ns[nx].level == 0) }

  ghost predicate Taken(ns: seq<Node>, from: int, buf: seq<(int, Val)>, nx: Ptr, start: map<int, Val>,
      ever: set<(int, Val)>)
  {
    Follows(ns, nx) && Covered(buf, from, To(ns, nx), start, ever)
  }

  /** Where the entries of the leaf being read begin. */
  ghost function From(ns: seq<Node>, begin: int, r: Reading): int { if r.first then begin else To(ns, r.n) }

  ghost predicate LeafAt(ns: seq<Node>, begin: int, n: Ptr, v: nat, first: bool) {
    Live(ns, n) && ns[n].level == 0 && ns[n].version >= v && (first ==> ns[n].low <= begin)
  }

  /** The entries copied are those of the leaf. */
  ghost predicate Copied(a: Node, begin: int, r: Reading, ever: set<(int, Val)>) {
    && r.count == |a.keys| && r.slot + |r.buf| <= |a.keys|
    && (if r.first then begin < a.high && GeqWindow(a.keys, begin, r.slot, r.slot) else r.slot == 0)
    && forall i :: 0 <= i < |r.buf| ==> r.buf[i].0 == a.keys[r.slot + i] && r.buf[i] in ever
  }

  /** And the value read belongs to the next key. */
  ghost predicate Fetched(a: Node, r: Reading, val: Val, ever: set<(int, Val)>) {
    r.slot + |r.buf| < |a.keys| && (a.keys[r.slot + |r.buf|], val) in ever
  }

  /** Looking for the first leaf, as `get` does. */
  ghost predicate Seeks(ns: seq<Node>, begin: int, pc: PC) {
    match pc
    case Locating(l) => LocateOk(ns, begin, l)
    case Seeking(l) =>
      && SeekOk(ns, begin, l, {})
      && (l.Search? || l.Seek? || l.SeekCount? || l.ChaseVer? || l.ChaseNext? || l.ChaseKey?)
    case _ => false
  }

  ghost predicate CursorOk(ns: seq<Node>, begin: int, start: map<int, Val>, ever: set<(int, Val)>, c: Cursor) {
    match c
    case Descend(pc) => Seeks(ns, begin, pc)
    case ReadVer(n) => Live(ns, n) && ns[n].level == 0
    case ReadCount(n, v) => LeafAt(ns, begin, n, v, false)
    case ReadVal(r) => LeafAt(ns, begin, r.n, r.v, r.first) && (Clean(ns, r.n, r.v) ==> Copied(ns[r.n], begin, r, ever))
    case ReadKey(r, val) =>
      && LeafAt(ns, begin, r.n, r.v, r.first)
      && (Clean(ns, r.n, r.v) ==> Copied(ns[r.n], begin, r, ever) && Fetched(ns[r.n], r, val, ever))
    case TestLock(r, nx) =>
      && LeafAt(ns, begin, r.n, r.v, r.first)
      && (Clean(ns, r.n, r.v) ==> Taken(ns, From(ns, begin, r), r.buf, nx, start, ever))
    case TestVer(r, nx) =>
      && LeafAt(ns, begin, r.n, r.v, r.first)
      && (ns[r.n].version == r.v ==> Taken(ns, From(ns, begin, r), r.buf, nx, start, ever))
    case AtEnd => true
  }

  /** The lowest key that the leaves read do not answer for. */
  ghost function Bound(ns: seq<Node>, begin: int, c: Cursor): int {
    match c
    case Descend(_) => begin
    case ReadVer(n) => To(ns, n)
    case ReadCount(n, _) => To(ns, n)
    case ReadVal(r) => From(ns, begin, r)
    case ReadKey(r, _) => From(ns, begin, r)
    case TestLock(r, _) => From(ns, begin, r)
    case TestVer(r, _) => From(ns, begin, r)
    case AtEnd => TOP
  }

  ghost predicate ScanOk(ns: seq<Node>, begin: int, start: map<int, Val>, ever: set<(int, Val)>, sc: Scanner) {
    CursorOk(ns, begin, start, ever, sc.c) && Covered(sc.res, begin, Bound(ns, begin, sc.c), start, ever)
  }

  // ---------------------------------------------------------------- steps of the others

  /** A leaf seen clean under the version read first has been clean and the same ever since. */
  lemma CleanBefore(ns: seq<Node>, ns': seq<Node>, w: int, n: Ptr, v: nat)
    requires NodesRely(w, ns, ns') && Live(ns, n) && ns[n].version >= v
    ensures ns'[n].version >= v && ns'[n].level == ns[n].level && ns'[n].low == ns[n].low
    ensures ns'[n].version == v ==> ns[n].version == v
    ensures Clean(ns', n, v) ==> Clean(ns, n, v) && ns'[n].keys == ns[n].keys && ns'[n].high == ns[n].high
  {
    assert NodeRely(w, ns[n], ns'[n]);
  }

  lemma TakenStable(ns: seq<Node>, ns': seq<Node>, w: int, from: int, buf: seq<(int, Val)>, nx: Ptr,
                    start: map<int, Val>, ever: set<(int, Val)>, ever': set<(int, Val)>)
    requires NodesRely(w, ns, ns') && Taken(ns, from, buf, nx, start, ever) && ever <= ever'
    ensures Taken(ns', from, buf, nx, start, ever')
  {
    if Live(ns, nx) { assert NodeRely(w, ns[nx], ns'[nx]); }
  }

  lemma SeeksStable(ns: seq<Node>, ns': seq<Node>, w: int, begin: int, pc: PC)
    requires NodesRely(w, ns, ns') && Seeks(ns, begin, pc)
    ensures Seeks(ns', begin, pc)
  {
    if pc.Locating? {
      LocateStable(ns, ns', w, begin, pc.locate);
    } else {
      SeekStable(ns, ns', w, begin, pc.seek, {}, {});
    }
  }

  lemma ReadingStable(ns: seq<Node>, ns': seq<Node>, w: int, begin: int, start: map<int, Val>, ever: set<(int, Val)>,
      ever': set<(int, Val)>, c: Cursor)
    requires NodesRely(w, ns, ns') && CursorOk(ns, begin, start, ever, c) && ever <= ever' && (c.ReadVal? || c.ReadKey?)
    ensures CursorOk(ns', begin, start, ever', c)
  {
    CleanBefore(ns, ns', w, c.r.n, c.r.v);
  }

  lemma TestStable(ns: seq<Node>, ns': seq<Node>, w: int, begin: int, start: map<int, Val>, ever: set<(int, Val)>,
      ever': set<(int, Val)>, c: Cursor)
    requires NodesRely(w, ns, ns') && CursorOk(ns, begin, start, ever, c) && ever <= ever' &&
      (c.TestLock? || c.TestVer?)
    ensures CursorOk(ns', begin, start, ever', c)
  {
    CleanBefore(ns, ns', w, c.r.n, c.r.v);
    var from := From(ns, begin, c.r);
    if Taken(ns, from, c.r.buf, c.nx, start, ever) { TakenStable(ns, ns', w, from, c.r.buf, c.nx, start, ever, ever'); }
  }

  lemma CursorStable(ns: seq<Node>, ns': seq<Node>, w: int, begin: int, start: map<int, Val>, ever: set<(int, Val)>,
      ever': set<(int, Val)>, c: Cursor)
    requires NodesRely(w, ns, ns') && CursorOk(ns, begin, start, ever, c) && ever <= ever'
    ensures CursorOk(ns', begin, start, ever', c) && Bound(ns', begin, c) == Bound(ns, begin, c)
  {
    match c
    case Descend(pc) => SeeksStable(ns, ns', w, begin, pc);
    case ReadVer(n) => CleanBefore(ns, ns', w, n, 0);
    case ReadCount(n, v) => CleanBefore(ns, ns', w, n, v);
    case ReadVal(r) => CleanBefore(ns, ns', w, r.n, r.v); ReadingStable(ns, ns', w, begin, start, ever, ever', c);
    case ReadKey(r, _) => CleanBefore(ns, ns', w, r.n, r.v); ReadingStable(ns, ns', w, begin, start, ever, ever', c);
    case TestLock(r, _) => CleanBefore(ns, ns', w, r.n, r.v); TestStable(ns, ns', w, begin, start, ever, ever', c);
    case TestVer(r, _) => CleanBefore(ns, ns', w, r.n, r.v); TestStable(ns, ns', w, begin, start, ever, ever', c);
    case AtEnd =>
  }

  // ---------------------------------------------------------------- its own steps

  /** What the scan has to know of the present: its pairs are among those that ever were, and no key has gone. */
  ghost predicate UpToDate(m: map<int, Val>, start: map<int, Val>, ever: set<(int, Val)>) {
    start.Keys <= m.Keys && forall k :: k in m ==> (k, m[k]) in ever
  }

  lemma DescentKeeps(t: Tree, begin: int, pc: PC, o: int)
    requires Ok(t) && 0 <= begin < TOP && Seeks(t.nodes, begin, pc) && CursorCan(t, Descend(pc), o)
    requires !(pc.Seeking? && pc.seek.SeekCount?)
    ensures CursorNext(t, begin, Descend(pc), o).Descend? &&
      Seeks(t.nodes, begin, CursorNext(t, begin, Descend(pc), o).pc)
  {
    var op := Get(begin);
    if pc.Locating? {
      LocateKeeps(t, 0, op, pc.locate, LocateNext(t, op, pc.locate, o), o, {});
    } else if pc.seek.Search? || pc.seek.Seek? {
      WindowKeeps(t, op, pc.seek, SeekNext(t, op, pc.seek, o), o, {});
    } else {
      ChaseKeeps(t, op, pc.seek, SeekNext(t, op, pc.seek, o), o, {});
    }
  }

  /** The last entry copied completes the leaf. */
  lemma CopyCovers(t: Tree, begin: int, r: Reading, start: map<int, Val>, ever: set<(int, Val)>)
    requires Ok(t) && LeafAt(t.nodes, begin, r.n, r.v, r.first) && Clean(t.nodes, r.n, r.v) &&
      UpToDate(t.contents, start, ever)
    requires Copied(t.nodes[r.n], begin, r, ever) && r.slot + |r.buf| == r.count
    ensures Taken(t.nodes, From(t.nodes, begin, r), r.buf, t.nodes[r.n].next, start, ever)
  {
    var a := t.nodes[r.n];
    assert Shape(a) && ChainOk(t.nodes, a) && MatchOk(a, t.contents);
    var from := From(t.nodes, begin, r);
    forall k | k in start && from <= k < a.high ensures Listed(r.buf, k) {
      assert k in t.contents && a.low <= k;
      var j :| 0 <= j < |a.keys| && a.keys[j] == k;
      assert j >= r.slot;
      assert r.buf[j - r.slot].0 == k;
    }
  }

  lemma ReadValKeeps(t: Tree, begin: int, start: map<int, Val>, ever: set<(int, Val)>, r: Reading, o: int)
    requires Ok(t) && UpToDate(t.contents, start, ever) && CursorOk(t.nodes, begin, start, ever, ReadVal(r))
    ensures CursorOk(t.nodes, begin, start, ever, CursorNext(t, begin, ReadVal(r), o))
  {
    var a := t.nodes[r.n];
    if Clean(t.nodes, r.n, r.v) {
      assert Shape(a) && MatchOk(a, t.contents);
      if r.slot + |r.buf| < r.count {
        assert a.keys[r.slot + |r.buf|] in t.contents;
      } else {
        CopyCovers(t, begin, r, start, ever);
      }
    }
  }

  lemma CopiedNext(a: Node, begin: int, r: Reading, val: Val, ever: set<(int, Val)>)
    requires Copied(a, begin, r, ever) && Fetched(a, r, val, ever)
    ensures Copied(a, begin, r.(buf := r.buf + [(a.keys[r.slot + |r.buf|], val)]), ever)
  {
  }

  lemma ReadKeyKeeps(t: Tree, begin: int, start: map<int, Val>, ever: set<(int, Val)>, r: Reading, val: Val, o: int)
    requires CursorOk(t.nodes, begin, start, ever, ReadKey(r, val))
    ensures CursorOk(t.nodes, begin, start, ever, CursorNext(t, begin, ReadKey(r, val), o))
  {
    var a := t.nodes[r.n];
    var r' := r.(buf := r.buf + [(KeyAt(a, r.slot + |r.buf|, o), val)]);
    if Clean(t.nodes, r.n, r.v) {
      CopiedNext(a, begin, r, val, ever);
      assert Copied(a, begin, r', ever);
    }
    assert CursorNext(t, begin, ReadKey(r, val), o) == ReadVal(r');
  }

  lemma CursorKeeps(t: Tree, begin: int, start: map<int, Val>, ever: set<(int, Val)>, c: Cursor, o: int)
    requires Ok(t) && 0 <= begin < TOP && UpToDate(t.contents, start, ever) && CursorCan(t, c, o)
    requires CursorOk(t.nodes, begin, start, ever, c)
    ensures CursorOk(t.nodes, begin, start, ever, CursorNext(t, begin, c, o))
  {
    match c
    case Descend(pc) => if !(pc.Seeking? && pc.seek.SeekCount?) { DescentKeeps(t, begin, pc, o); }
    case ReadVer(n) =>
    case ReadCount(n, v) =>
    case ReadVal(r) => ReadValKeeps(t, begin, start, ever, r, o);
    case ReadKey(r, val) => ReadKeyKeeps(t, begin, start, ever, r, val, o);
    case TestLock(r, nx) => assert FreeOk(t, r.n);
    case TestVer(r, nx) =>
  }

  lemma CoveredJoin(res: seq<(int, Val)>, buf: seq<(int, Val)>, from: int, mid: int, to: int, start: map<int, Val>,
      ever: set<(int, Val)>)
    requires Covered(res, from, mid, start, ever) && Covered(buf, mid, to, start, ever)
    ensures Covered(res + buf, from, to, start, ever)
  {
    forall k | k in start && from <= k < to ensures Listed(res + buf, k) {
      if k < mid {
        assert Listed(res, k);
        var i :| 0 <= i < |res| && res[i].0 == k;
        assert (res + buf)[i].0 == k;
      } else {
        assert Listed(buf, k);
        var i :| 0 <= i < |buf| && buf[i].0 == k;
        assert (res + buf)[|res| + i].0 == k;
      }
    }
  }

  lemma ScanKeeps(t: Tree, begin: int, start: map<int, Val>, ever: set<(int, Val)>, sc: Scanner, o: int)
    requires Ok(t) && 0 <= begin < TOP && UpToDate(t.contents, start, ever) && CursorCan(t, sc.c, o)
    requires ScanOk(t.nodes, begin, start, ever, sc)
    ensures ScanOk(t.nodes, begin, start, ever, ScanNext(t, begin, sc, o))
  {
    CursorKeeps(t, begin, start, ever, sc.c, o);
    if sc.c.TestVer? && t.nodes[sc.c.r.n].version == sc.c.r.v {
      var r := sc.c.r;
      CoveredJoin(sc.res, r.buf, begin, From(t.nodes, begin, r), To(t.nodes, sc.c.nx), start, ever);
    }
  }

  // ---------------------------------------------------------------- whole runs

  /** The pairs that were in the map at some moment from `a` to `i`. */
  ghost function Ever(run: seq<State>, a: nat, i: nat): set<(int, Val)>
    requires a <= i < |run|
    decreases i
  {
    run[i].tree.contents.Items + if i == a then {} else Ever(run, a, i - 1)
  }

  ghost predicate WasIn(run: seq<State>, a: nat, i: nat, x: (int, Val))
    requires i < |run|
  {
    exists h :: a <= h <= i && x.0 in run[h].tree.contents && run[h].tree.contents[x.0] == x.1
  }

  lemma {:induction false} EverMeans(run: seq<State>, a: nat, i: nat, x: (int, Val))
    requires a <= i < |run| && x in Ever(run, a, i)
    ensures WasIn(run, a, i, x)
    decreases i
  {
    if x !in run[i].tree.contents.Items {
      EverMeans(run, a, i - 1, x);
      var h :| a <= h <= i - 1 && x.0 in run[h].tree.contents && run[h].tree.contents[x.0] == x.1;
      assert a <= h <= i;
    }
  }

  lemma EverNow(run: seq<State>, a: nat, i: nat)
    requires a <= i < |run|
    ensures forall k :: k in run[i].tree.contents ==> (k, run[i].tree.contents[k]) in Ever(run, a, i)
  {
    forall k | k in run[i].tree.contents ensures (k, run[i].tree.contents[k]) in run[i].tree.contents.Items {}
  }

  lemma NextRely(s: State, s': State) returns (w: int)
    requires Inv(s) && Next(s, s')
    ensures NodesRely(w, s.tree.nodes, s'.tree.nodes)
  {
    if u, o :| Act(s, s', u, o) {
      assert ThreadOk(s.tree, u, s.threads[u]);
      TreeProgress.ActorRely(s, s', u, o);
      w := u;
    } else {
      w := FREE;
    }
  }

  /** The run goes on from `i` to `j` while the scan pauses. */
  lemma {:induction false} Pauses(run: seq<State>, begin: int, a: nat, i: nat, j: nat, sc: Scanner)
    requires IsRun(run) && a <= i <= j < |run| &&
      ScanOk(run[i].tree.nodes, begin, run[a].tree.contents, Ever(run, a, i), sc)
    ensures ScanOk(run[j].tree.nodes, begin, run[a].tree.contents, Ever(run, a, j), sc)
    decreases j
  {
    if i < j {
      Pauses(run, begin, a, i, j - 1, sc);
      RunSafe(run, j - 1);
      assert StepAt(run, j - 1);
      var w := NextRely(run[j - 1], run[j]);
      CursorStable(run[j - 1].tree.nodes, run[j].tree.nodes, w, begin, run[a].tree.contents, Ever(run, a, j - 1),
          Ever(run, a, j), sc.c);
    }
  }

  ghost predicate Loads(t: Tree, begin: int, sc: Scanner, sc': Scanner) {
    exists o :: CursorCan(t, sc.c, o) && sc' == ScanNext(t, begin, sc, o)
  }

  /** Load `j` of the scan is made in state `at[j + 1]` of the run. */
  ghost predicate LoadAt(run: seq<State>, begin: int, at: seq<nat>, scs: seq<Scanner>, j: int) {
    && 0 <= j && j + 1 < |at| == |scs| && at[j] <= at[j + 1] < |run|
    && Loads(run[at[j + 1]].tree, begin, scs[j], scs[j + 1])
  }

  /** A scan from `begin` that starts in state `at[0]`. */
  ghost predicate IsScan(run: seq<State>, begin: int, at: seq<nat>, scs: seq<Scanner>) {
    && |at| == |scs| > 0 && at[0] < |run| && scs[0] == START && 0 <= begin < TOP
    && forall j :: 0 <= j && j + 1 < |at| ==> LoadAt(run, begin, at, scs, j)
  }

  lemma {:induction false} ScanSafe(run: seq<State>, begin: int, at: seq<nat>, scs: seq<Scanner>, j: nat)
    requires IsRun(run) && IsScan(run, begin, at, scs) && j < |at|
    ensures at[0] <= at[j] < |run|
    ensures ScanOk(run[at[j]].tree.nodes, begin, run[at[0]].tree.contents, Ever(run, at[0], at[j]), scs[j])
  {
    if j > 0 {
      ScanSafe(run, begin, at, scs, j - 1);
      assert LoadAt(run, begin, at, scs, j - 1);
      Pauses(run, begin, at[0], at[j - 1], at[j], scs[j - 1]);
      RunSafe(run, at[j]);
      EverNow(run, at[0], at[j]);
      KeysGrow(run, at[0], at[j]);
      var o :| CursorCan(run[at[j]].tree, scs[j - 1].c, o) && scs[j] == ScanNext(run[at[j]].tree, begin, scs[j - 1], o);
      ScanKeeps(run[at[j]].tree, begin, run[at[0]].tree.contents, Ever(run, at[0], at[j]), scs[j - 1], o);
    }
  }

  /** However the map changes meanwhile: what a scan has handed out ascends from the start key on, every pair of it
      was in the map at some moment of the scan, and no key that was there when the scan started and lies between the
      start key and an entry handed out is missing. */
  lemma ScanSound(run: seq<State>, begin: int, at: seq<nat>, scs: seq<Scanner>, j: nat)
    requires IsRun(run) && IsScan(run, begin, at, scs) && j < |at|
    ensures at[0] <= at[j] < |run| && Ascending(scs[j].res)
    ensures forall i :: 0 <= i < |scs[j].res| ==> begin <= scs[j].res[i].0 && WasIn(run, at[0], at[j], scs[j].res[i])
    ensures forall i, k {:trigger scs[j].res[i], Listed(scs[j].res[..i], k)} ::
      0 <= i < |scs[j].res| && k in run[at[0]].tree.contents && begin <= k < scs[j].res[i].0 ==>
          Listed(scs[j].res[..i], k)
  {
    ScanSafe(run, begin, at, scs, j);
    var res := scs[j].res;
    forall i | 0 <= i < |res| ensures WasIn(run, at[0], at[j], res[i]) { EverMeans(run, at[0], at[j], res[i]); }
    forall i, k | 0 <= i < |res| && k in run[at[0]].tree.contents && begin <= k < res[i].0 ensures Listed(res[..i], k) {
      assert Listed(res, k);
      var h :| 0 <= h < |res| && res[h].0 == k;
      assert h < i && res[..i][h].0 == k;
    }
  }

  /** A scan that has come to the end of the chain has missed no key at all. */
  lemma ScanWhole(run: seq<State>, begin: int, at: seq<nat>, scs: seq<Scanner>, j: nat, k: int)
    requires IsRun(run) && IsScan(run, begin, at, scs) && j < |at| && scs[j].c.AtEnd?
    requires k in run[at[0]].tree.contents && begin <= k < TOP
    ensures Listed(scs[j].res, k)
  {
    ScanSafe(run, begin, at, scs, j);
  }

  /** And it can always go on: every pointer it follows leads to a node. */
  lemma ScanMoves(run: seq<State>, begin: int, at: seq<nat>, scs: seq<Scanner>, j: nat, i: nat) returns (o: int)
    requires IsRun(run) && IsScan(run, begin, at, scs) && j < |at| && at[j] <= i < |run| && !scs[j].c.AtEnd?
    ensures CursorCan(run[i].tree, scs[j].c, o)
  {
    ScanSafe(run, begin, at, scs, j);
    Pauses(run, begin, at[0], at[j], i, scs[j]);
    RunSafe(run, i);
    o := CursorMoves(run[i].tree, begin, run[at[0]].tree.contents, Ever(run, at[0], i), scs[j].c);
  }

  lemma CursorMoves(t: Tree, begin: int, start: map<int, Val>, ever: set<(int, Val)>, c: Cursor) returns (o: int)
    requires Ok(t) && CursorOk(t.nodes, begin, start, ever, c) && !c.AtEnd?
    ensures CursorCan(t, c, o)
  {
    o := 0;
    if c.Descend? {
      if c.pc.Locating? && c.pc.locate.LoadKid? {
        var l := c.pc.locate;
        o := t.root;
        assert Routes(t.nodes, t.nodes[l.n]);
        if !t.nodes[l.n].dirty && l.slot < |t.nodes[l.n].kids| { assert KidOk(t.nodes, t.nodes[l.n], l.slot); }
      } else if c.pc.Seeking? && c.pc.seek.ChaseKey? && c.pc.seek.nx != NULL {
        assert Shape(t.nodes[c.pc.seek.nx]);
      }
    }
  }
}
