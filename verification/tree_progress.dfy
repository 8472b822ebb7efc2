/** Progress of the concurrent map: a thread can be held up only by a lock that another thread holds,
    locks are taken from the leaves upwards, and so some thread can always move
    (distcache/concurrent_map_impl.h:170-195, 304-346). */
module TreeProgress {
  import opened TreeNodes
  import opened TreeOps
  import opened TreeSplits
  import opened TreeThreads
  import opened TreeMachine
  import opened TreeWriters
  import opened TreeSafety

  /** The nodes a thread holds at each program counter. */
  function Holds(pc: PC): set<Ptr> {
    match pc
    case Idle => {}
    case Done(_) => {}
    case Locating(_) => {}
    case Seeking(_) => {}
    case AtLeaf(l) => if l.Lock? then {} else if l.LinkSib? then {l.n, l.s} else {l.n}
    case AtParent(l) => if l.LoadPar? || l.LockPar? || l.Crown? then {l.n, l.s} else {l.n, l.s, l.p}
    case Handing(l) => if l.TellSib? then {l.n, l.s, l.p} else {l.n, l.s, l.r}
    case Finishing(l) => if l.FinBump? || l.done == 0 then {l.n, l.s, l.p} else if l.done == 1 then {l.n, l.s}
        else {l.s}
    case Dividing(l) => {l.n, l.s, l.p, l.q}
    case Between(l) => if l.MidBump? || l.done == 0 then {l.n, l.s, l.p, l.q} else {l.s, l.p, l.q}
  }

  /** The node whose lock a thread is waiting for, or none. */
  function Wants(pc: PC): Ptr {
    match pc
    case AtLeaf(l) => if l.Lock? then l.n else NULL
    case AtParent(l) => if l.LockPar? then l.p else NULL
    case _ => NULL
  }

  /** The nodes that `u` has locked are among `held`. */
  ghost predicate HeldOnly(ns: seq<Node>, u: int, held: set<Ptr>) {
    forall i :: 0 <= i < |ns| && ns[i].owner == u ==> i in held
  }

  // A step locks and releases exactly what the program counter says.

  lemma LeafHolds(t: Tree, u: int, op: Op, pc: LeafPC, seen: set<Found>)
    requires LeafCan(t, op, pc) && LeafPhase(t, u, op, pc, seen) && u != FREE && HeldOnly(t.nodes, u, Holds(AtLeaf(pc)))
    ensures HeldOnly(LeafNext(t, u, op, pc).0.nodes, u, Holds(LeafNext(t, u, op, pc).1))
  {
  }

  lemma ParentHolds(t: Tree, u: int, op: Op, pc: ParentPC, seen: set<Found>)
    requires ParentCan(t, pc) && ParentPhase(t, u, op, pc, seen) && u != FREE &&
      HeldOnly(t.nodes, u, Holds(AtParent(pc)))
    ensures HeldOnly(ParentNext(t, u, pc).0.nodes, u, Holds(ParentNext(t, u, pc).1))
  {
  }

  lemma SplitHolds(t: Tree, u: int, op: Op, pc: PC, o: int, seen: set<Found>)
    requires ThreadCan(t, op, pc, o) && u != FREE && HeldOnly(t.nodes, u, Holds(pc))
    requires pc.Handing? || pc.Finishing? || pc.Dividing? || pc.Between?
    requires pc.Finishing? ==> pc.fin.done <= 2
    requires pc.Between? ==> pc.mid.done <= 1
    ensures HeldOnly(ThreadNext(t, u, op, pc, o).0.nodes, u, Holds(ThreadNext(t, u, op, pc, o).1))
  {
  }

  lemma StepHolds(t: Tree, u: int, op: Op, pc: PC, o: int, seen: set<Found>)
    requires ThreadCan(t, op, pc, o) && Knows(t, u, op, pc, seen) && u != FREE && HeldOnly(t.nodes, u, Holds(pc))
    ensures HeldOnly(ThreadNext(t, u, op, pc, o).0.nodes, u, Holds(ThreadNext(t, u, op, pc, o).1))
  {
    if pc.AtLeaf? { LeafHolds(t, u, op, pc.leaf, seen); }
    else if pc.AtParent? { ParentHolds(t, u, op, pc.par, seen); }
    else if !pc.Locating? && !pc.Seeking? { SplitHolds(t, u, op, pc, o, seen); }
  }

  /** Every locked node is held by the thread that locked it. */
  ghost predicate OwnersOk(s: State) {
    && (forall i :: 0 <= i < |s.tree.nodes| ==>
        s.tree.nodes[i].owner == FREE || 0 <= s.tree.nodes[i].owner < |s.threads|)
    && (forall u :: 0 <= u < |s.threads| ==> HeldOnly(s.tree.nodes, u, Holds(s.threads[u].pc)))
  }

  lemma ActOwners(s: State, s': State, u: int, o: int)
    requires 0 <= u < |s.threads| && ThreadOk(s.tree, u, s.threads[u]) && OwnersOk(s) && Act(s, s', u, o)
    requires Rely(u, s.tree, s'.tree)
    requires forall i :: |s.tree.nodes| <= i < |s'.tree.nodes| ==> s'.tree.nodes[i].owner == u
    ensures OwnersOk(s')
  {
    var t, t', th := s.tree, s'.tree, s.threads[u];
    StepHolds(t, u, th.op, th.pc, o, th.seen);
    forall i | 0 <= i < |t'.nodes| ensures t'.nodes[i].owner == FREE || 0 <= t'.nodes[i].owner < |s'.threads| {
      if i < |t.nodes| { assert NodeRely(u, t.nodes[i], t'.nodes[i]); }
    }
    forall w | 0 <= w < |s'.threads| ensures HeldOnly(t'.nodes, w, Holds(s'.threads[w].pc)) {
      if w != u {
        assert HeldOnly(t.nodes, w, Holds(s.threads[w].pc));
        forall i | 0 <= i < |t'.nodes| && t'.nodes[i].owner == w ensures i in Holds(s'.threads[w].pc) {
          if i < |t.nodes| { assert NodeRely(u, t.nodes[i], t'.nodes[i]); }
        }
      }
    }
  }

  /** Whoever allocates a node holds it. */
  lemma FreshHeld(t: Tree, u: int, op: Op, pc: PC, o: int, seen: set<Found>)
    requires ThreadCan(t, op, pc, o) && Knows(t, u, op, pc, seen)
    ensures var t' := ThreadNext(t, u, op, pc, o).0; forall i :: |t.nodes| <= i < |t'.nodes| ==> t'.nodes[i].owner == u
  {
  }

  lemma BeginOwners(s: State, s': State, u: int, op: Op)
    requires OwnersOk(s) && Begin(s, s', u, op)
    ensures OwnersOk(s')
  {
    forall w | 0 <= w < |s'.threads| ensures HeldOnly(s'.tree.nodes, w, Holds(s'.threads[w].pc)) {
      assert HeldOnly(s.tree.nodes, w, Holds(s.threads[w].pc));
    }
  }

  lemma ActFresh(s: State, s': State, u: int, o: int)
    requires Act(s, s', u, o) && ThreadOk(s.tree, u, s.threads[u])
    ensures forall i :: |s.tree.nodes| <= i < |s'.tree.nodes| ==> s'.tree.nodes[i].owner == u
  {
    FreshHeld(s.tree, u, s.threads[u].op, s.threads[u].pc, o, s.threads[u].seen);
  }

  lemma ActorRely(s: State, s': State, u: int, o: int)
    requires Ok(s.tree) && Act(s, s', u, o) && ThreadOk(s.tree, u, s.threads[u])
    ensures Rely(u, s.tree, s'.tree)
  {
    ActorKeeps(s, s', u, o);
  }

  lemma ActorOwners(s: State, s': State, u: int, o: int)
    requires Ok(s.tree) && OwnersOk(s) && Act(s, s', u, o) && ThreadOk(s.tree, u, s.threads[u])
    ensures OwnersOk(s')
  {
    ActorRely(s, s', u, o);
    ActFresh(s, s', u, o);
    ActOwners(s, s', u, o);
  }

  lemma NextOwners(s: State, s': State)
    requires Inv(s) && OwnersOk(s) && Next(s, s')
    ensures OwnersOk(s')
  {
    if u, o :| Act(s, s', u, o) {
      ActorOwners(s, s', u, o);
    } else {
      var u, op :| Begin(s, s', u, op);
      BeginOwners(s, s', u, op);
    }
  }

  lemma {:induction false} RunOwners(run: seq<State>, i: nat)
    requires IsRun(run) && i < |run|
    ensures OwnersOk(run[i])
  {
    if i > 0 {
      RunOwners(run, i - 1);
      RunSafe(run, i - 1);
      assert StepAt(run, i - 1);
      NextOwners(run[i - 1], run[i]);
    }
  }

  /** A thread holds what its program counter says. */
  lemma HoldsOwned(t: Tree, u: int, op: Op, pc: PC, seen: set<Found>, i: Ptr)
    requires Knows(t, u, op, pc, seen) && i in Holds(pc)
    ensures Live(t.nodes, i) && t.nodes[i].owner == u
  {
  }

  /** In every reachable state, that and no more. */
  lemma HoldsExactly(run: seq<State>, i: nat, u: int, n: Ptr)
    requires IsRun(run) && i < |run| && 0 <= u < |run[i].threads|
    ensures Live(run[i].tree.nodes, n) && run[i].tree.nodes[n].owner == u <==> n in Holds(run[i].threads[u].pc)
  {
    var s := run[i];
    RunSafe(run, i);
    RunOwners(run, i);
    assert ThreadOk(s.tree, u, s.threads[u]) && HeldOnly(s.tree.nodes, u, Holds(s.threads[u].pc));
    if n in Holds(s.threads[u].pc) { HoldsOwned(s.tree, u, s.threads[u].op, s.threads[u].pc, s.threads[u].seen, n); }
  }

  // ---------------------------------------------------------------- nobody waits in a circle

  ghost predicate Busy(pc: PC) {
    pc != Idle && !pc.Done?
  }

  /** A thread that waits for no lock, or for a free one, can move: every array access is within bounds, and every
      pointer it follows leads to a node. What is read from a node under change is arbitrary, except that a child read
      from it is taken to be some node: `o` is chosen so. */
  lemma CanMove(t: Tree, u: int, op: Op, pc: PC, seen: set<Found>) returns (o: int)
    requires Ok(t) && 0 <= u && Knows(t, u, op, pc, seen) && Busy(pc)
    requires Wants(pc) != NULL ==> Live(t.nodes, Wants(pc)) && t.nodes[Wants(pc)].owner == FREE
    ensures ThreadCan(t, op, pc, o)
  {
    o := 0;
    match pc
    case Locating(l) =>
      if l.LoadKid? {
        o := t.root;
        assert Routes(t.nodes, t.nodes[l.n]);
        if !t.nodes[l.n].dirty && l.slot < |t.nodes[l.n].kids| { assert KidOk(t.nodes, t.nodes[l.n], l.slot); }
      }
    case Seeking(l) => if l.ChaseKey? && l.nx != NULL { assert Shape(t.nodes[l.nx]); }
    case AtLeaf(l) => if l.Hold? { assert Shape(t.nodes[l.n]); LeafCutBounds(FirstGeq(t.nodes[l.n].keys, op.key)); }
    case AtParent(l) =>
      if l.HoldPar? {
        assert Shape(t.nodes[l.p]) && ParentOk(t.nodes, l.n);
        InnerCutBounds(FirstGt(t.nodes[l.p].keys, t.nodes[l.s].low));
      }
    case Handing(_) =>
    case Finishing(_) =>
    case Dividing(l) => if l.Rehome? && l.i < |t.nodes[l.q].kids| {
      assert OldHome(t.nodes, t.nodes[l.q].kids[l.i], l.s, l.p);
    }
    case Between(_) =>
  }

  /** A waiting thread wants a lock above everything it holds. */
  lemma WantsAbove(t: Tree, u: int, op: Op, pc: PC, seen: set<Found>)
    requires Knows(t, u, op, pc, seen) && Wants(pc) != NULL
    ensures Live(t.nodes, Wants(pc))
    ensures forall i :: i in Holds(pc) && Live(t.nodes, i) ==> t.nodes[i].level < t.nodes[Wants(pc)].level
  {
  }

  /** How far below the top a thread is waiting. */
  ghost function Rank(s: State, u: int): int
    requires 0 <= u < |s.threads|
  {
    var p := Wants(s.threads[u].pc);
    if Live(s.tree.nodes, p) then s.tree.height - s.tree.nodes[p].level + 1 else 0
  }

  /** The holder of a wanted lock is busy, and if it waits itself, it waits further up. */
  lemma HolderAbove(s: State, u: int)
    requires 0 <= u < |s.threads| && OwnersOk(s) && RootOk(s.tree)
    requires forall w :: 0 <= w < |s.threads| ==> ThreadOk(s.tree, w, s.threads[w])
    requires Live(s.tree.nodes, Wants(s.threads[u].pc)) && s.tree.nodes[Wants(s.threads[u].pc)].owner != FREE
    ensures var v := s.tree.nodes[Wants(s.threads[u].pc)].owner;
            0 <= v < |s.threads| && Busy(s.threads[v].pc) && 0 <= Rank(s, v) < Rank(s, u)
  {
    var t, v := s.tree, s.tree.nodes[Wants(s.threads[u].pc)].owner;
    assert HeldOnly(t.nodes, v, Holds(s.threads[v].pc));
    assert ThreadOk(t, v, s.threads[v]);
    if Wants(s.threads[v].pc) != NULL { WantsAbove(t, v, s.threads[v].op, s.threads[v].pc, s.threads[v].seen); }
  }

  /** From any busy thread, following who holds the wanted lock leads to one that can move. */
  lemma {:induction false} Mover(s: State, u: int) returns (w: int, o: int)
    requires Inv(s) && OwnersOk(s) && 0 <= u < |s.threads| && Busy(s.threads[u].pc)
    ensures 0 <= w < |s.threads| && ThreadCan(s.tree, s.threads[w].op, s.threads[w].pc, o)
    decreases Rank(s, u)
  {
    var t, th := s.tree, s.threads[u];
    if Live(t.nodes, Wants(th.pc)) && t.nodes[Wants(th.pc)].owner != FREE {
      HolderAbove(s, u);
      w, o := Mover(s, t.nodes[Wants(th.pc)].owner);
    } else {
      w := u;
      assert ThreadOk(t, u, th);
      o := MoveNow(t, u, th);
    }
  }

  lemma MoveNow(t: Tree, u: int, th: Thread) returns (o: int)
    requires Ok(t) && 0 <= u && ThreadOk(t, u, th) && Busy(th.pc)
    requires Live(t.nodes, Wants(th.pc)) ==> t.nodes[Wants(th.pc)].owner == FREE
    ensures ThreadCan(t, th.op, th.pc, o)
  {
    if Wants(th.pc) != NULL { WantsAbove(t, u, th.op, th.pc, th.seen); }
    o := CanMove(t, u, th.op, th.pc, th.seen);
  }

  /** In every reachable state in which some operation is under way, some thread can take a step. */
  lemma NoDeadlock(run: seq<State>, i: nat, u: int)
    requires IsRun(run) && i < |run| && 0 <= u < |run[i].threads| && Busy(run[i].threads[u].pc)
    ensures exists s', w, o :: Act(run[i], s', w, o)
  {
    RunSafe(run, i);
    RunOwners(run, i);
    var s := run[i];
    var w, o := Mover(s, u);
    var (t', pc') := ThreadNext(s.tree, w, s.threads[w].op, s.threads[w].pc, o);
    var s' := State(t', seq(|s.threads|, x requires 0 <= x < |s.threads| =>
      Witness(t'.contents, if x == w then Stepped(s.tree, s.threads[x], pc') else s.threads[x])));
    assert Act(s, s', w, o);
  }
}
