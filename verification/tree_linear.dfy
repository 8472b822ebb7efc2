/** Every operation of the concurrent map takes effect once, at one step of its own
    (distcache/concurrent_map_impl.h:29-510). */
module TreeLinear {
  import opened TreeNodes
  import opened TreeOps
  import opened TreeSplits
  import opened TreeThreads
  import opened TreeMachine
  import opened TreeWriters
  import opened TreeSafety

  // ---------------------------------------------------------------- one step

  /** Whether a call has stored its pair by the time it is at `pc`. */
  ghost predicate Stored(t: Tree, op: Op, pc: PC) {
    match pc
    case Done(res) => !op.Get? && res.Present?
    case AtLeaf(Release(_, res)) => res.Present?
    case AtParent(l) => Above(t, l.n)
    case Handing(l) => Above(t, l.n)
    case Dividing(l) => Above(t, l.n)
    case Finishing(FinBump(n, s, _, done)) => Above(t, n) || (done == 2 && Before(t, op, s))
    case Finishing(FinFree(_, _, _, _)) => true
    case Between(MidBump(n, s, _, _, done)) => Above(t, n) || (done == 1 && Before(t, op, s))
    case Between(MidFree(_, _, _, _, _)) => true
    case _ => false
  }

  /** The split has left the leaves. */
  ghost predicate Above(t: Tree, n: Ptr) { Live(t.nodes, n) && t.nodes[n].level > 0 }

  /** The key does not belong to the new sibling. */
  ghost predicate Before(t: Tree, op: Op, s: Ptr) { Live(t.nodes, s) && op.key < t.nodes[s].low }

  lemma FoundAt(s: seq<int>, k: int)
    ensures k in s && Sorted(s) ==> FirstGeq(s, k) < |s| && s[FirstGeq(s, k)] == k
    ensures FirstGeq(s, k) < |s| && s[FirstGeq(s, k)] == k ==> k in s
  {
    FirstGeqBounds(s, k);
  }

  lemma FirstGeqBounds(s: seq<int>, k: int)
    ensures k in s && Sorted(s) ==> FirstGeq(s, k) < |s| && s[FirstGeq(s, k)] <= k
  {
    if k in s {
      var i :| 0 <= i < |s| && s[i] == k;
    }
  }

  /** Only writes store, and an update only where its key is. */
  lemma StoresMeans(t: Tree, u: int, op: Op, pc: PC, seen: set<Found>)
    requires Ok(t) && Knows(t, u, op, pc, seen) && Stores(t, op, pc)
    ensures !op.Get? && (op.Update? ==> op.key in t.contents)
  {
    match pc
    case AtLeaf(Hold(n)) => assert Shape(t.nodes[n]) && MatchOk(t.nodes[n], t.contents);
    case _ =>
  }

  /** A step that stores changes the abstract map at the operation's key to its value, and no other step changes
      the abstract map; after a step the call has stored if it had before or does so now, and it never does both. */
  ghost predicate OnceMore(t: Tree, t': Tree, op: Op, pc: PC, pc': PC) {
    && t'.contents == (if Stores(t, op, pc) then t.contents[op.key := Val0(op)] else t.contents)
    && (Stored(t', op, pc') <==> Stored(t, op, pc) || Stores(t, op, pc))
    && !(Stored(t, op, pc) && Stores(t, op, pc))
  }

  lemma ReaderOnce(t: Tree, t': Tree, u: int, op: Op, pc: PC, pc': PC, o: int, seen: set<Found>)
    requires Knows(t, u, op, pc, seen) && ThreadCan(t, op, pc, o) && (t', pc') == ThreadNext(t, u, op, pc, o)
    requires pc.Locating? || pc.Seeking?
    ensures OnceMore(t, t', op, pc, pc')
  {
  }

  lemma HoldOnce(t: Tree, t': Tree, u: int, op: Op, n: Ptr, pc': PC)
    requires LeafCan(t, op, Hold(n)) && Sorted(t.nodes[n].keys) && (t', pc') == LeafNext(t, u, op, Hold(n))
    ensures OnceMore(t, t', op, AtLeaf(Hold(n)), pc')
  {
    FoundAt(t.nodes[n].keys, op.key);
  }

  lemma LeafOnce(t: Tree, t': Tree, u: int, op: Op, pc: LeafPC, pc': PC, seen: set<Found>)
    requires AllShape(t.nodes) && LeafPhase(t, u, op, pc, seen) && LeafCan(t, op, pc) &&
      (t', pc') == LeafNext(t, u, op, pc)
    ensures OnceMore(t, t', op, AtLeaf(pc), pc')
  {
    match pc
    case Hold(n) =>
      assert Shape(t.nodes[n]);
      HoldOnce(t, t', u, op, n, pc');
    case _ =>
  }

  lemma ParentOnce(t: Tree, t': Tree, u: int, op: Op, pc: ParentPC, pc': PC, seen: set<Found>)
    requires ParentPhase(t, u, op, pc, seen) && ParentCan(t, pc) && (t', pc') == ParentNext(t, u, pc)
    ensures OnceMore(t, t', op, AtParent(pc), pc')
  {
  }

  lemma HandOnce(t: Tree, t': Tree, u: int, op: Op, pc: HandPC, pc': PC, seen: set<Found>)
    requires HandPhase(t, u, op, pc, seen) && HandCan(t, pc) && (t', pc') == HandNext(t, pc)
    ensures OnceMore(t, t', op, Handing(pc), pc')
  {
  }

  lemma FinOnce(t: Tree, t': Tree, u: int, op: Op, pc: FinPC, pc': PC, seen: set<Found>)
    requires FinPhase(t, u, op, pc, seen) && FinCan(t, pc) && (t', pc') == FinNext(t, op, pc)
    ensures OnceMore(t, t', op, Finishing(pc), pc')
  {
  }

  lemma DivideOnce(t: Tree, t': Tree, u: int, op: Op, pc: DividePC, pc': PC, seen: set<Found>)
    requires RehomePhase(t, u, op, pc, seen) && DivideCan(t, pc) && (t', pc') == DivideNext(t, pc)
    ensures OnceMore(t, t', op, Dividing(pc), pc')
  {
  }

  lemma BetweenOnce(t: Tree, t': Tree, u: int, op: Op, pc: BetweenPC, pc': PC, seen: set<Found>)
    requires MidPhase(t, u, op, pc, seen) && BetweenCan(t, pc) && (t', pc') == BetweenNext(t, op, pc)
    ensures OnceMore(t, t', op, Between(pc), pc')
  {
  }

  lemma StepOnce(t: Tree, t': Tree, u: int, op: Op, pc: PC, pc': PC, o: int, seen: set<Found>)
    requires Ok(t) && Knows(t, u, op, pc, seen) && ThreadCan(t, op, pc, o) && (t', pc') == ThreadNext(t, u, op, pc, o)
    ensures OnceMore(t, t', op, pc, pc')
  {
    match pc
    case Locating(_) => ReaderOnce(t, t', u, op, pc, pc', o, seen);
    case Seeking(_) => ReaderOnce(t, t', u, op, pc, pc', o, seen);
    case AtLeaf(l) => LeafOnce(t, t', u, op, l, pc', seen);
    case AtParent(l) => ParentOnce(t, t', u, op, l, pc', seen);
    case Handing(l) => HandOnce(t, t', u, op, l, pc', seen);
    case Finishing(l) => FinOnce(t, t', u, op, l, pc', seen);
    case Dividing(l) => DivideOnce(t, t', u, op, l, pc', seen);
    case Between(l) => BetweenOnce(t, t', u, op, l, pc', seen);
  }

  /** Steps of others do not matter. */
  lemma StoredStable(t: Tree, t': Tree, w: int, u: int, op: Op, pc: PC, seen: set<Found>)
    requires Knows(t, u, op, pc, seen) && NodesRely(w, t.nodes, t'.nodes)
    ensures Stored(t', op, pc) <==> Stored(t, op, pc)
  {
    match pc
    case AtParent(l) => assert NodeRely(w, t.nodes[l.n], t'.nodes[l.n]);
    case Handing(l) => assert NodeRely(w, t.nodes[l.n], t'.nodes[l.n]);
    case Dividing(l) => assert NodeRely(w, t.nodes[l.n], t'.nodes[l.n]);
    case Finishing(l) => assert NodeRely(w, t.nodes[l.n], t'.nodes[l.n]) && NodeRely(w, t.nodes[l.s], t'.nodes[l.s]);
    case Between(l) => assert NodeRely(w, t.nodes[l.n], t'.nodes[l.n]) && NodeRely(w, t.nodes[l.s], t'.nodes[l.s]);
    case _ =>
  }

  // ---------------------------------------------------------------- every run

  /** The call has stored as often as it should have: once, or not yet. */
  ghost predicate CountOk(t: Tree, th: Thread) {
    th.pc != Idle ==> th.stores == if Stored(t, th.op, th.pc) then 1 else 0
  }

  lemma ActorCounts(t: Tree, t': Tree, u: int, th: Thread, pc': PC, o: int)
    requires Ok(t) && ThreadOk(t, u, th) && ThreadCan(t, th.op, th.pc, o) &&
      (t', pc') == ThreadNext(t, u, th.op, th.pc, o)
    requires CountOk(t, th)
    ensures CountOk(t', Witness(t'.contents, Stepped(t, th, pc')))
  {
    StepOnce(t, t', u, th.op, th.pc, pc', o, th.seen);
  }

  lemma OtherCounts(t: Tree, t': Tree, w: int, u: int, th: Thread)
    requires ThreadOk(t, u, th) && NodesRely(w, t.nodes, t'.nodes) && CountOk(t, th)
    ensures CountOk(t', Witness(t'.contents, th))
  {
    StoredStable(t, t', w, u, th.op, th.pc, th.seen);
  }

  lemma ActCounts(s: State, s': State, u: int, o: int)
    requires Inv(s) && Act(s, s', u, o) && Rely(u, s.tree, s'.tree)
    requires forall w :: 0 <= w < |s.threads| ==> CountOk(s.tree, s.threads[w])
    ensures forall w :: 0 <= w < |s'.threads| ==> CountOk(s'.tree, s'.threads[w])
  {
    ActorCounts(s.tree, s'.tree, u, s.threads[u], s'.threads[u].pc, o);
    forall w | 0 <= w < |s'.threads| ensures CountOk(s'.tree, s'.threads[w]) {
      if w != u { OtherCounts(s.tree, s'.tree, u, w, s.threads[w]); }
    }
  }

  lemma {:induction false} RunCounts(run: seq<State>, i: nat)
    requires IsRun(run) && i < |run|
    ensures forall w :: 0 <= w < |run[i].threads| ==> CountOk(run[i].tree, run[i].threads[w])
  {
    if i > 0 {
      RunCounts(run, i - 1);
      RunSafe(run, i - 1);
      assert StepAt(run, i - 1);
      var s, s' := run[i - 1], run[i];
      if u, o :| Act(s, s', u, o) {
        ActKeeps(s, s', u, o);
        ActCounts(s, s', u, o);
      } else {
        var u, op :| Begin(s, s', u, op);
        forall w | 0 <= w < |s'.threads| ensures CountOk(s'.tree, s'.threads[w]) {
          assert w != u ==> CountOk(s.tree, s.threads[w]);
        }
      }
    }
  }

  /** Thread `u` takes this step, and with it stores its pair. */
  ghost predicate StoresNow(s: State, s': State, u: int) {
    0 <= u < |s.threads| && Stores(s.tree, s.threads[u].op, s.threads[u].pc) && exists o :: Act(s, s', u, o)
  }

  /** The abstract map changes only when some thread takes a storing step, and then to the pair of the very
      operation that takes it, which is not a `get`. */
  lemma OnlyOwnWrites(s: State, s': State)
    requires Inv(s) && Next(s, s')
    ensures s'.tree.contents == s.tree.contents || exists u :: StoresNow(s, s', u)
    ensures forall u :: StoresNow(s, s', u) ==> Effect(s.tree.contents, s'.tree.contents, s.threads[u].op)
  {
    forall u | StoresNow(s, s', u) ensures Effect(s.tree.contents, s'.tree.contents, s.threads[u].op) {
      var o :| Act(s, s', u, o);
      ActContents(s, s', u, o);
    }
    if s'.tree.contents != s.tree.contents {
      if u, o :| Act(s, s', u, o) { ActContents(s, s', u, o); }
    }
  }

  /** What a write does to the abstract map. */
  ghost predicate Effect(m: map<int, Val>, m': map<int, Val>, op: Op) {
    !op.Get? && m' == m[op.key := op.val] && (op.Update? ==> op.key in m)
  }

  lemma StepEffect(t: Tree, t': Tree, u: int, th: Thread, pc': PC, o: int)
    requires Ok(t) && ThreadOk(t, u, th) && ThreadCan(t, th.op, th.pc, o) &&
      (t', pc') == ThreadNext(t, u, th.op, th.pc, o)
    ensures if Stores(t, th.op, th.pc) then Effect(t.contents, t'.contents, th.op) else t'.contents == t.contents
  {
    StepOnce(t, t', u, th.op, th.pc, pc', o, th.seen);
    if Stores(t, th.op, th.pc) { StoresMeans(t, u, th.op, th.pc, th.seen); }
  }

  lemma ActContents(s: State, s': State, u: int, o: int)
    requires Inv(s) && Act(s, s', u, o)
    ensures if StoresNow(s, s', u) then Effect(s.tree.contents, s'.tree.contents, s.threads[u].op)
      else s'.tree.contents == s.tree.contents
  {
    StepEffect(s.tree, s'.tree, u, s.threads[u], s'.threads[u].pc, o);
  }

  // ---------------------------------------------------------------- every call

  lemma CountStep(s: State, s': State, u: int)
    requires Next(s, s') && 0 <= u < |s.threads| && !s.threads[u].pc.Done? && s.threads[u].pc != Idle
    ensures |s'.threads| == |s.threads| && s'.threads[u].op == s.threads[u].op
    ensures s'.threads[u].stores == s.threads[u].stores + if StoresNow(s, s', u) then 1 else 0
  {
    if w, o :| Act(s, s', w, o) {
    } else {
      var w, op :| Begin(s, s', w, op);
    }
  }

  ghost predicate Storing(run: seq<State>, u: int, i: int) {
    0 <= i && i + 1 < |run| && StoresNow(run[i], run[i + 1], u)
  }

  /** The steps of the run at which thread `u` stores. */
  ghost function StoresOf(run: seq<State>, u: int): set<int> { set i | 0 <= i < |run| && Storing(run, u, i) }

  /** Between `a` and `j` there is step `i` and no other. */
  ghost predicate OnlyAt(steps: set<int>, a: nat, j: nat, i: nat) {
    a < i < j && i in steps && forall h :: a < h < j && h != i ==> h !in steps
  }

  ghost predicate NeverIn(steps: set<int>, a: nat, j: nat) { forall h :: a < h < j ==> h !in steps }

  ghost predicate EffectAt(run: seq<State>, i: nat, op: Op) {
    i + 1 < |run| && Effect(run[i].tree.contents, run[i + 1].tree.contents, op)
  }

  /** There are `n` steps between `a` and `j`, as far as 0 and 1 are concerned. */
  ghost predicate CountIs(steps: set<int>, a: nat, j: nat, n: nat) {
    (n == 0 ==> NeverIn(steps, a, j)) && (n == 1 ==> exists i: nat :: OnlyAt(steps, a, j, i))
  }

  lemma CountNext(steps: set<int>, a: nat, j: nat, n: nat, n': nat)
    requires a < j && CountIs(steps, a, j, n) && n' == n + if j in steps then 1 else 0
    ensures CountIs(steps, a, j + 1, n')
  {
    if n' == 1 {
      if n == 0 {
        assert OnlyAt(steps, a, j + 1, j);
      } else {
        var i: nat :| OnlyAt(steps, a, j, i);
        assert OnlyAt(steps, a, j + 1, i);
      }
    }
  }

  /** The step of an operation under way. */
  lemma CallStep(run: seq<State>, u: int, op: Op, a: nat, b: nat, j: nat)
    requires IsRun(run) && Call(run, u, op, a, b) && a < j < b
    ensures run[j + 1].threads[u].op == run[j].threads[u].op
    ensures run[j + 1].threads[u].stores == run[j].threads[u].stores + if j in StoresOf(run, u) then 1 else 0
  {
    assert StepAt(run, j);
    CountStep(run[j], run[j + 1], u);
    assert j in StoresOf(run, u) <==> Storing(run, u, j);
  }

  /** The count tells which steps of the call have stored. */
  lemma {:induction false} CountMeans(run: seq<State>, u: int, op: Op, a: nat, b: nat, j: nat)
    requires IsRun(run) && Call(run, u, op, a, b) && a < j <= b
    ensures run[j].threads[u].op == op && CountIs(StoresOf(run, u), a, j, run[j].threads[u].stores)
    decreases j
  {
    if j > a + 1 {
      CountMeans(run, u, op, a, b, j - 1);
      CallStep(run, u, op, a, b, j - 1);
      CountNext(StoresOf(run, u), a, j - 1, run[j - 1].threads[u].stores, run[j].threads[u].stores);
    }
  }

  /** Every call takes effect at one moment between its begin and its end. A `get`, and an update that does not
      find its key, store nothing, and the abstract map gave their answer at some moment of the call. An insertion,
      and an update that finds its key, store at exactly one step of the call, their own: there the abstract map
      becomes the old one with the pair, an update finds its key there, and the answer is the value stored. */
  lemma Linearizable(run: seq<State>, u: int, op: Op, a: nat, b: nat)
    requires IsRun(run) && Call(run, u, op, a, b)
    ensures var res := run[b].threads[u].pc.res;
      if op.Get? || res.Absent? then !op.Insert? && NeverIn(StoresOf(run, u), a, b) && Answered(run, a, b, op.key, res)
      else res == Present(op.val) && exists i: nat :: OnlyAt(StoresOf(run, u), a, b, i) && EffectAt(run, i, op)
  {
    AnswerHeld(run, u, op, a, b);
    CountMeans(run, u, op, a, b, b);
    RunCounts(run, b);
    assert CountOk(run[b].tree, run[b].threads[u]);
    if !op.Get? && run[b].threads[u].pc.res.Present? {
      var i: nat :| OnlyAt(StoresOf(run, u), a, b, i);
      StoreAt(run, u, op, a, b, i);
    }
  }

  lemma StoreAt(run: seq<State>, u: int, op: Op, a: nat, b: nat, i: nat)
    requires IsRun(run) && Call(run, u, op, a, b) && OnlyAt(StoresOf(run, u), a, b, i)
    ensures EffectAt(run, i, op)
  {
    CountMeans(run, u, op, a, b, i);
    RunSafe(run, i);
    assert StepAt(run, i);
    OnlyOwnWrites(run[i], run[i + 1]);
  }
}
