/** Whole runs of the concurrent map: in every interleaving the tree stays in order, every operation
    answers what the abstract map said at some moment during the call, and no thread is ever stuck
    except on a lock that another thread holds (distcache/concurrent_map_impl.h:29-510). */
module TreeSafety {
  import opened TreeNodes
  import opened TreeOps
  import opened TreeSplits
  import opened TreeThreads
  import opened TreeMachine
  import opened TreeWriters

  datatype State = State(tree: Tree, threads: seq<Thread>)

  // ---------------------------------------------------------------- the machine

  /** The constructor (lines 9-19): one empty leaf, which is both the root and the first leaf. */
  function EmptyTree(): Tree {
    Tree([Node(0, 0, TOP, [], [], [], NULL, NULL, FREE, 0, false, NULL)], 0, 0, map[])
  }

  ghost predicate Init(s: State) {
    s.tree == EmptyTree() && forall u ::
        0 <= u < |s.threads| ==> s.threads[u].pc == Idle && 0 <= s.threads[u].op.key < TOP
  }

  ghost predicate ThreadCan(t: Tree, op: Op, pc: PC, o: int) {
    match pc
    case Idle => false
    case Done(_) => false
    case Locating(l) => LocateCan(t, l, o)
    case Seeking(l) => SeekCan(t, l, o)
    case AtLeaf(l) => LeafCan(t, op, l)
    case AtParent(l) => ParentCan(t, l)
    case Handing(l) => HandCan(t, l)
    case Finishing(l) => FinCan(t, l)
    case Dividing(l) => DivideCan(t, l)
    case Between(l) => BetweenCan(t, l)
  }

  ghost function ThreadNext(t: Tree, u: int, op: Op, pc: PC, o: int): (Tree, PC)
    requires ThreadCan(t, op, pc, o)
  {
    match pc
    case Locating(l) => (t, LocateNext(t, op, l, o))
    case Seeking(l) => (t, SeekNext(t, op, l, o))
    case AtLeaf(l) => LeafNext(t, u, op, l)
    case AtParent(l) => ParentNext(t, u, l)
    case Handing(l) => HandNext(t, l)
    case Finishing(l) => FinNext(t, op, l)
    case Dividing(l) => DivideNext(t, l)
    case Between(l) => BetweenNext(t, op, l)
  }

  /** Thread `th` after its step. */
  ghost function Stepped(t: Tree, th: Thread, pc: PC): Thread {
    th.(pc := pc, stores := th.stores + if Stores(t, th.op, th.pc) then 1 else 0)
  }

  /** Thread `u` performs one load or store. */
  ghost predicate Act(s: State, s': State, u: int, o: int) {
    && 0 <= u < |s.threads| == |s'.threads|
    && ThreadCan(s.tree, s.threads[u].op, s.threads[u].pc, o)
    && (s'.tree, s'.threads[u].pc) == ThreadNext(s.tree, u, s.threads[u].op, s.threads[u].pc, o)
    && (forall w :: 0 <= w < |s.threads| ==>
          s'.threads[w] ==
              Witness(s'.tree.contents, if w == u then Stepped(s.tree, s.threads[w], s'.threads[u].pc)
              else s.threads[w]))
  }

  /** Thread `u` calls an operation. */
  ghost predicate Begin(s: State, s': State, u: int, op: Op) {
    && 0 <= u < |s.threads| && (s.threads[u].pc == Idle || s.threads[u].pc.Done?) && 0 <= op.key < TOP
    && s' == s.(threads := s.threads[u := Thread(op, Locating(LoadRoot), {Lookup(s.tree.contents, op.key)}, 0)])
  }

  ghost predicate Next(s: State, s': State) {
    || (exists u, o :: Act(s, s', u, o))
    || (exists u, op :: Begin(s, s', u, op))
  }

  ghost predicate StepAt(run: seq<State>, i: int) {
    0 <= i && i + 1 < |run| && Next(run[i], run[i + 1])
  }

  ghost predicate IsRun(run: seq<State>) {
    |run| > 0 && Init(run[0]) && forall i :: 0 <= i && i + 1 < |run| ==> StepAt(run, i)
  }

  // ---------------------------------------------------------------- the invariant

  ghost predicate Inv(s: State) {
    Ok(s.tree) && forall u :: 0 <= u < |s.threads| ==> ThreadOk(s.tree, u, s.threads[u])
  }

  lemma EmptyOk()
    ensures Ok(EmptyTree())
  {
    var t := EmptyTree();
    assert Shape(t.nodes[0]) && Routes(t.nodes, t.nodes[0]) && PendOk(t.nodes, t.nodes[0]) &&
        ChainOk(t.nodes, t.nodes[0]);
    assert ParentOk(t.nodes, 0) && HomeOk(t.nodes, 0) && FreeOk(t, 0) && MatchOk(t.nodes[0], t.contents);
  }

  lemma ReaderStepKeeps(t: Tree, t': Tree, u: int, op: Op, pc: PC, pc': PC, o: int, seen: set<Found>)
    requires Ok(t) && 0 <= op.key < TOP && Knows(t, u, op, pc, seen) && ThreadCan(t, op, pc, o) &&
      (t', pc') == ThreadNext(t, u, op, pc, o)
    requires pc.Locating? || pc.Seeking?
    ensures Keeps(t, t', u) && Knows(t', u, op, pc', Seen(t', op, seen))
  {
    SameKeeps(t, u);
    if pc.Locating? { LocateKeeps(t, u, op, pc.locate, pc', o, Seen(t', op, seen)); }
    else { SeekKeeps(t, u, op, pc.seek, pc', o, seen); }
  }

  lemma HolderStepKeeps(t: Tree, t': Tree, u: int, op: Op, pc: PC, pc': PC, o: int, seen: set<Found>)
    requires Ok(t) && 0 <= u && Knows(t, u, op, pc, seen) && ThreadCan(t, op, pc, o) &&
      (t', pc') == ThreadNext(t, u, op, pc, o)
    requires pc.AtLeaf? || pc.AtParent?
    ensures Keeps(t, t', u) && Knows(t', u, op, pc', Seen(t', op, seen))
  {
    if pc.AtLeaf? { LeafStepKeeps(t, t', u, op, pc.leaf, pc', seen); }
    else { ParentStepKeeps(t, t', u, op, pc.par, pc', seen); }
  }

  lemma SplitterStepKeeps(t: Tree, t': Tree, u: int, op: Op, pc: PC, pc': PC, o: int, seen: set<Found>)
    requires Ok(t) && 0 <= u && Knows(t, u, op, pc, seen) && ThreadCan(t, op, pc, o) &&
      (t', pc') == ThreadNext(t, u, op, pc, o)
    requires pc.Handing? || pc.Finishing? || pc.Dividing? || pc.Between?
    ensures Keeps(t, t', u) && Knows(t', u, op, pc', Seen(t', op, seen))
  {
    match pc
    case Handing(l) => HandStepKeeps(t, t', u, op, l, pc', seen);
    case Finishing(l) => FinStepKeeps(t, t', u, op, l, pc', seen);
    case Dividing(l) => DivideStepKeeps(t, t', u, op, l, pc', seen);
    case Between(l) => BetweenStepKeeps(t, t', u, op, l, pc', seen);
  }

  lemma WriterStepKeeps(t: Tree, t': Tree, u: int, op: Op, pc: PC, pc': PC, o: int, seen: set<Found>)
    requires Ok(t) && 0 <= u && Knows(t, u, op, pc, seen) && ThreadCan(t, op, pc, o) &&
      (t', pc') == ThreadNext(t, u, op, pc, o)
    requires !pc.Locating? && !pc.Seeking?
    ensures Keeps(t, t', u) && Knows(t', u, op, pc', Seen(t', op, seen))
  {
    if pc.AtLeaf? || pc.AtParent? { HolderStepKeeps(t, t', u, op, pc, pc', o, seen); }
    else { SplitterStepKeeps(t, t', u, op, pc, pc', o, seen); }
  }

  lemma ThreadStepKeeps(t: Tree, t': Tree, u: int, op: Op, pc: PC, pc': PC, o: int, seen: set<Found>)
    requires Ok(t) && 0 <= u && 0 <= op.key < TOP && Knows(t, u, op, pc, seen) && ThreadCan(t, op, pc, o) &&
      (t', pc') == ThreadNext(t, u, op, pc, o)
    ensures Keeps(t, t', u) && Knows(t', u, op, pc', Seen(t', op, seen))
  {
    if pc.Locating? || pc.Seeking? { ReaderStepKeeps(t, t', u, op, pc, pc', o, seen); }
    else { WriterStepKeeps(t, t', u, op, pc, pc', o, seen); }
  }

  lemma OthersKeep(s: State, s': State, u: int, w: int)
    requires AllShape(s.tree.nodes) && Rely(u, s.tree, s'.tree) && 0 <= w < |s.threads| == |s'.threads| && w != u
    requires ThreadOk(s.tree, w, s.threads[w]) && s'.threads[w] == Witness(s'.tree.contents, s.threads[w])
    ensures ThreadOk(s'.tree, w, s'.threads[w])
  {
    ThreadStable(s.tree, s'.tree, u, w, s.threads[w]);
  }

  lemma ActorKeeps(s: State, s': State, u: int, o: int)
    requires Ok(s.tree) && Act(s, s', u, o) && ThreadOk(s.tree, u, s.threads[u])
    ensures Ok(s'.tree) && Rely(u, s.tree, s'.tree) && ThreadOk(s'.tree, u, s'.threads[u])
  {
    var th := s.threads[u];
    ThreadStepKeeps(s.tree, s'.tree, u, th.op, th.pc, s'.threads[u].pc, o, th.seen);
  }

  lemma AllOthersKeep(s: State, s': State, u: int, o: int)
    requires AllShape(s.tree.nodes) && Rely(u, s.tree, s'.tree) && Act(s, s', u, o)
    requires forall w :: 0 <= w < |s.threads| ==> ThreadOk(s.tree, w, s.threads[w])
    ensures forall w :: 0 <= w < |s'.threads| && w != u ==> ThreadOk(s'.tree, w, s'.threads[w])
  {
    forall w | 0 <= w < |s'.threads| && w != u ensures ThreadOk(s'.tree, w, s'.threads[w]) { OthersKeep(s, s', u, w); }
  }

  lemma ActKeeps(s: State, s': State, u: int, o: int)
    requires Inv(s) && Act(s, s', u, o)
    ensures Inv(s') && Rely(u, s.tree, s'.tree)
  {
    ActorKeeps(s, s', u, o);
    AllOthersKeep(s, s', u, o);
  }

  lemma BeginKeeps(s: State, s': State, u: int, op: Op)
    requires Inv(s) && Begin(s, s', u, op)
    ensures Inv(s')
  {
    forall w | 0 <= w < |s'.threads| ensures ThreadOk(s'.tree, w, s'.threads[w]) {
      if w != u { assert ThreadOk(s.tree, w, s.threads[w]); }
    }
  }

  lemma NextKeeps(s: State, s': State)
    requires Inv(s) && Next(s, s')
    ensures Inv(s') && s.tree.contents.Keys <= s'.tree.contents.Keys && |s'.threads| == |s.threads|
  {
    if u, o :| Act(s, s', u, o) {
      ActKeeps(s, s', u, o);
    } else {
      var u, op :| Begin(s, s', u, op);
      BeginKeeps(s, s', u, op);
    }
  }

  /** In every state of every run the tree and all threads are in order. */
  lemma {:induction false} RunSafe(run: seq<State>, i: nat)
    requires IsRun(run) && i < |run|
    ensures Inv(run[i])
  {
    if i == 0 {
      EmptyOk();
    } else {
      RunSafe(run, i - 1);
      assert StepAt(run, i - 1);
      NextKeeps(run[i - 1], run[i]);
    }
  }

  /** No step of a run removes a key. */
  lemma StepGrows(run: seq<State>, i: nat)
    requires IsRun(run) && i + 1 < |run|
    ensures run[i].tree.contents.Keys <= run[i + 1].tree.contents.Keys
  {
    RunSafe(run, i);
    assert StepAt(run, i);
    NextKeeps(run[i], run[i + 1]);
  }

  // ---------------------------------------------------------------- what an operation answers

  /** Thread `u` calls `op` in state `a` and returns in state `b`. */
  ghost predicate Call(run: seq<State>, u: int, op: Op, a: nat, b: nat) {
    && a < b < |run| && Begin(run[a], run[a + 1], u, op)
    && (forall i :: a < i <= b ==> 0 <= u < |run[i].threads|)
    && (forall i :: a < i < b ==> !run[i].threads[u].pc.Done? && run[i].threads[u].pc != Idle)
    && run[b].threads[u].pc.Done?
  }

  lemma StepSeen(s: State, s': State, u: int)
    requires Next(s, s') && 0 <= u < |s.threads| && !s.threads[u].pc.Done? && s.threads[u].pc != Idle
    ensures |s'.threads| == |s.threads| && s'.threads[u].op == s.threads[u].op
    ensures s'.threads[u].seen <= s.threads[u].seen + {Lookup(s'.tree.contents, s.threads[u].op.key)}
  {
    if w, o :| Act(s, s', w, o) {
    } else {
      var w, op :| Begin(s, s', w, op);
    }
  }

  ghost predicate Answered(run: seq<State>, a: nat, b: nat, k: int, f: Found)
    requires b < |run|
  {
    exists i :: a < i <= b && Lookup(run[i].tree.contents, k) == f
  }

  lemma {:induction false} SeenInCall(run: seq<State>, u: int, op: Op, a: nat, b: nat, j: nat)
    requires IsRun(run) && Call(run, u, op, a, b) && a < j <= b
    ensures run[j].threads[u].op == op
    ensures forall f :: f in run[j].threads[u].seen ==> Answered(run, a, j, op.key, f)
    decreases j
  {
    if j == a + 1 {
      assert Lookup(run[j].tree.contents, op.key) == Lookup(run[a].tree.contents, op.key);
    } else {
      SeenInCall(run, u, op, a, b, j - 1);
      assert StepAt(run, j - 1);
      StepSeen(run[j - 1], run[j], u);
      forall f | f in run[j].threads[u].seen ensures Answered(run, a, j, op.key, f) {
        if f in run[j - 1].threads[u].seen {
          var i :| a < i <= j - 1 && Lookup(run[i].tree.contents, op.key) == f;
          assert a < i <= j;
        } else {
          assert Lookup(run[j].tree.contents, op.key) == f;
        }
      }
    }
  }

  /** Whatever an operation returns, the abstract map said so at some moment during the call. */
  lemma AnswerHeld(run: seq<State>, u: int, op: Op, a: nat, b: nat)
    requires IsRun(run) && Call(run, u, op, a, b)
    ensures run[b].threads[u].op == op && Answers(op, run[b].threads[u].pc.res)
    ensures Answered(run, a, b, op.key, run[b].threads[u].pc.res)
  {
    SeenInCall(run, u, op, a, b, b);
    RunSafe(run, b);
    assert ThreadOk(run[b].tree, u, run[b].threads[u]);
  }

  lemma {:induction false} KeysGrow(run: seq<State>, a: nat, b: nat)
    requires IsRun(run) && a <= b < |run|
    ensures run[a].tree.contents.Keys <= run[b].tree.contents.Keys
    decreases b
  {
    if a < b {
      KeysGrow(run, a, b - 1);
      StepGrows(run, b - 1);
    }
  }

  /** A key that was there when the call began is found, whatever splits meanwhile. */
  lemma NeverMisses(run: seq<State>, u: int, op: Op, a: nat, b: nat)
    requires IsRun(run) && Call(run, u, op, a, b) && op.key in run[a].tree.contents
    ensures run[b].threads[u].pc.res.Present?
  {
    AnswerHeld(run, u, op, a, b);
    var i :| a < i <= b && Lookup(run[i].tree.contents, op.key) == run[b].threads[u].pc.res;
    KeysGrow(run, a, i);
  }
}
