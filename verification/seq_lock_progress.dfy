/** `read` and `update` of `ConcurrentVal` (distcache/concurrent_val.h:65-95) come to an end: a thread that no other
    writer is in the way of returns after a number of its own steps that is known beforehand. */
module SeqLockProgress {
  import opened SeqLock

  /** Nobody else is between its compare-and-swap and the store that unlocks. */
  predicate Free(s: State, t: nat) { s.owner == NOBODY || s.owner == t }

  predicate Busy(pc: PC) { pc.Reading? || pc.Updating? }

  ghost function Missing(tmp: map<nat, Word>, n: nat): set<nat> { set i: nat | i < n && i !in tmp }

  /** What a reader does over if the version it started from is no longer the current one. */
  ghost function Again(s: State, st: nat): nat {
    if Locked(s.status) || Version(st) != Version(s.status) then |s.val| + 3 else 0
  }

  /** The steps that are left of the call that thread `t` is in. */
  ghost function Work(s: State, t: nat): nat
    requires t < |s.pcs|
  {
    match s.pcs[t]
    case Idle => 0
    case Returned(_) => 0
    case Reading(StatusLoad) => |s.val| + 3
    case Reading(Copying(st, tmp)) => |Missing(tmp, |s.val|)| + 2 + Again(s, st)
    case Reading(Recheck(st, tmp)) => 1 + Again(s, st)
    case Updating(_, LockLoad) => |s.val| + 8
    case Updating(_, LockCas(was)) => if s.status == Cleared(was) then |s.val| + 7 else |s.val| + 9
    case Updating(_, Writing(todo)) => |todo| + 6
    case Updating(_, IncrLoad) => 5
    case Updating(_, IncrStore(_)) => 4
    case Updating(_, IncrCheck(_)) => 3
    case Updating(_, UnlockLoad) => 2
    case Updating(_, UnlockStore(_)) => 1
  }

  lemma {:induction false} IndicesCount(n: nat)
    ensures |Indices(n)| == n
  {
    if n > 0 { IndicesCount(n - 1); }
  }

  lemma {:induction false} MissingCount(tmp: map<nat, Word>, n: nat)
    ensures |Missing(tmp, n)| <= n && (tmp == map[] ==> |Missing(tmp, n)| == n)
    ensures Missing(tmp, n) == {} <==> Complete(tmp, n)
  {
    if n > 0 {
      MissingCount(tmp, n - 1);
      assert Missing(tmp, n) == Missing(tmp, n - 1) + if n - 1 in tmp then {} else {n - 1};
    }
  }

  lemma MissingNext(tmp: map<nat, Word>, n: nat, i: nat, w: Word)
    requires i < n && i !in tmp
    ensures |Missing(tmp[i := w], n)| == |Missing(tmp, n)| - 1
  {
    assert Missing(tmp[i := w], n) == Missing(tmp, n) - {i};
  }

  lemma ReadWorks(s: State, s': State, t: nat, pc: ReadPC)
    requires Inv(s) && t < |s.pcs| && s.owner == NOBODY && s.pcs[t] == Reading(pc) && ReadStep(s, s', t, pc)
    ensures Work(s', t) == Work(s, t) - 1 && s'.owner == NOBODY
  {
    StatusBits(|s.hist| - 1, false);
    match pc
    case StatusLoad => MissingCount(map[], |s.val|);
    case Copying(st, tmp) =>
      MissingCount(tmp, |s.val|);
      if !Complete(tmp, |s.val|) {
        var i: nat :| CopyStep(s, s', t, st, tmp, i);
        MissingNext(tmp, |s.val|, i, s.val[i]);
      }
    case Recheck(_, _) =>
  }

  lemma AcquireWorks(s: State, s': State, t: nat, v: Value, pc: UpdatePC)
    requires t < |s.pcs| && s.owner == NOBODY && Cleared(s.status) == s.status && (pc.LockLoad? || pc.LockCas?)
    requires s.pcs[t] == Updating(v, pc) && UpdateStep(s, s', t, v, pc)
    ensures Work(s', t) == Work(s, t) - 1 && Free(s', t)
  {
    IndicesCount(|s.val|);
  }

  lemma OwnerWorks(s: State, s': State, t: nat, v: Value, pc: UpdatePC)
    requires t < |s.pcs| && s.owner == t && !pc.LockLoad? && !pc.LockCas?
    requires s.pcs[t] == Updating(v, pc) && UpdateStep(s, s', t, v, pc)
    ensures Work(s', t) == Work(s, t) - 1 && Free(s', t)
  {
  }

  lemma UpdateWorks(s: State, s': State, t: nat, v: Value, pc: UpdatePC)
    requires Inv(s) && t < |s.pcs| && Free(s, t) && s.pcs[t] == Updating(v, pc) && UpdateStep(s, s', t, v, pc)
    ensures Work(s', t) == Work(s, t) - 1 && Free(s', t)
  {
    assert OwnerOk(s, t);
    if pc.LockLoad? || pc.LockCas? {
      StatusBits(|s.hist| - 1, false);
      AcquireWorks(s, s', t, v, pc);
    } else {
      OwnerWorks(s, s', t, v, pc);
    }
  }

  /** Every step of a thread that is not kept out brings its call one step nearer to the end. */
  lemma StepWorks(s: State, s': State, t: nat)
    requires Inv(s) && t < |s.pcs| && Free(s, t) && Busy(s.pcs[t]) && ThreadStep(s, s', t)
    ensures |s'.pcs| == |s.pcs| && Work(s', t) == Work(s, t) - 1 && Free(s', t)
  {
    assert OwnerOk(s, t);
    StepFrame(s, s', t);
    match s.pcs[t]
    case Updating(v, u) => UpdateWorks(s, s', t, v, u);
    case Reading(r) => ReadWorks(s, s', t, r);
  }

  /** And there always is a step: also the assert of `incr_version` holds. */
  lemma CanStep(s: State, t: nat) returns (s': State)
    requires Inv(s) && t < |s.pcs| && Busy(s.pcs[t])
    ensures ThreadStep(s, s', t)
  {
    assert OwnerOk(s, t) && Fits(s.pcs[t], |s.val|);
    match s.pcs[t]
    case Updating(v, u) => s' := UpdateMove(s, t, v, u);
    case Reading(r) => s' := ReadMove(s, t, r);
  }

  lemma ReadMove(s: State, t: nat, pc: ReadPC) returns (s': State)
    requires t < |s.pcs|
    ensures ReadStep(s, s', t, pc)
  {
    match pc
    case StatusLoad => s' := At(s, t, Reading(Copying(s.status, map[])));
    case Copying(st, tmp) =>
      if Complete(tmp, |s.val|) {
        s' := At(s, t, Reading(Recheck(st, tmp)));
      } else {
        var i: nat :| i < |s.val| && i !in tmp;
        s' := At(s, t, Reading(Copying(st, tmp[i := s.val[i]])));
        assert CopyStep(s, s', t, st, tmp, i);
      }
    case Recheck(st, tmp) =>
      s' := At(s, t, if Locked(s.status) || Version(st) != Version(s.status) then Reading(StatusLoad)
          else Returned(tmp));
  }

  lemma UpdateMove(s: State, t: nat, v: Value, pc: UpdatePC) returns (s': State)
    requires Inv(s) && t < |s.pcs| && s.pcs[t] == Updating(v, pc)
    ensures UpdateStep(s, s', t, v, pc)
  {
    assert OwnerOk(s, t) && Fits(s.pcs[t], |s.val|);
    match pc
    case LockLoad => s' := At(s, t, Updating(v, LockCas(s.status)));
    case LockCas(was) =>
      s' := if s.status == Cleared(was)
        then At(s, t, Updating(v, Writing(Indices(|s.val|)))).(status := WithLock(was), owner := t)
        else At(s, t, Updating(v, LockLoad));
    case Writing(todo) =>
      if todo == {} {
        s' := At(s, t, Updating(v, IncrLoad));
      } else {
        var i :| i in todo;
        s' := At(s, t, Updating(v, Writing(todo - {i}))).(val := s.val[i := v[i]]);
        assert WriteStep(s, s', t, v, todo, i);
      }
    case IncrLoad => s' := At(s, t, Updating(v, IncrStore(s.status)));
    case IncrStore(was) => s' := At(s, t, Updating(v, IncrCheck(was))).(status := Incremented(was),
        hist := s.hist + [v]);
    case IncrCheck(was) =>
      StatusBits(|s.hist| - 1, true);
      StatusBits(|s.hist| - 2, true);
      s' := At(s, t, Updating(v, UnlockLoad));
    case UnlockLoad => s' := At(s, t, Updating(v, UnlockStore(s.status)));
    case UnlockStore(was) => s' := At(s, t, Idle).(status := Cleared(was), owner := NOBODY);
  }

  // ---------------------------------------------------------------- a thread on its own

  ghost predicate SoloAt(run: seq<State>, t: nat, i: int) {
    && 0 <= i && i + 1 < |run| && t < |run[i].pcs| && Busy(run[i].pcs[t]) && ThreadStep(run[i], run[i + 1], t)
    && |run[i + 1].hist| <= VERSIONS
  }

  /** Only thread `t` steps, and it is inside one call until the last state. */
  ghost predicate IsSolo(run: seq<State>, t: nat) { |run| > 0 && forall i :: 0 <= i < |run| - 1 ==> SoloAt(run, t, i) }

  lemma {:induction false} SoloWorks(run: seq<State>, t: nat, i: nat)
    requires IsSolo(run, t) && i < |run| && Inv(run[0]) && t < |run[0].pcs| && Free(run[0], t)
    ensures Inv(run[i]) && |run[i].pcs| == |run[0].pcs| && Free(run[i], t)
    ensures i <= Work(run[0], t) && Work(run[i], t) == Work(run[0], t) - i
  {
    if i > 0 {
      SoloWorks(run, t, i - 1);
      assert SoloAt(run, t, i - 1);
      StepWorks(run[i - 1], run[i], t);
      ThreadKeeps(run[i - 1], run[i], t);
    }
  }

  lemma WorkBound(s: State, t: nat)
    requires Inv(s) && t < |s.pcs|
    ensures Work(s, t) <= 2 * |s.val| + 9 && (Work(s, t) == 0 <==> !Busy(s.pcs[t]))
  {
    assert Fits(s.pcs[t], |s.val|);
    match s.pcs[t]
    case Reading(Copying(st, tmp)) => MissingCount(tmp, |s.val|);
    case Updating(_, Writing(todo)) => Fewer(todo, |s.val|);
    case _ =>
  }

  lemma {:induction false} Fewer(todo: set<nat>, n: nat)
    requires forall i :: i in todo ==> i < n
    ensures |todo| <= n
  {
    if n > 0 {
      Fewer(todo - {n - 1}, n - 1);
    } else {
      assert (forall i :: i !in todo) ==> todo == {};
    }
  }

  /** From every reachable state in which no other writer holds the lock: alone, a reader or a writer is done after
      exactly `Work` steps, at most twice the words of the value and nine; while there are fewer it can go on. */
  lemma {:induction false} SoloReturns(before: seq<State>, run: seq<State>, t: nat)
    requires IsRun(before) && |before[|before| - 1].hist| <= VERSIONS && IsSolo(run, t)
    requires run[0] == before[|before| - 1] && t < |run[0].pcs| && Free(run[0], t)
    ensures var last := run[|run| - 1];
      && |run| - 1 <= Work(run[0], t) <= 2 * |run[0].val| + 9 && t < |last.pcs|
      && (|run| - 1 == Work(run[0], t) <==> !Busy(last.pcs[t]))
      && (|run| - 1 < Work(run[0], t) ==> exists next :: ThreadStep(last, next, t))
  {
    RunInv(before, |before| - 1);
    SoloWorks(run, t, |run| - 1);
    WorkBound(run[0], t);
    WorkBound(run[|run| - 1], t);
    if Busy(run[|run| - 1].pcs[t]) { var next := CanStep(run[|run| - 1], t); }
  }
}
