/** `ConcurrentVal` (distcache/concurrent_val.h): a value that is copied word by word under a
    version-and-lock word, as a machine whose steps are single loads, stores and compare-and-swaps
    of any number of threads. The words of a value are copied in any order. */
module SeqLock {
  type Word = int
  type Value = seq<Word>

  /** 60 bits of version; the bit above them is the lock. */
  const VERSIONS: int := 0x1000_0000_0000_0000
  const WORD64: int := 0x1_0000_0000_0000_0000

  /** Lines 36-37. */
  predicate Locked(status: nat) { status / VERSIONS % 2 == 1 }
  function Version(status: nat): nat { status % VERSIONS }

  /** `status & ~lock_mask`, `status | lock_mask` and `status++` on 64 bits. */
  function Cleared(status: nat): nat { if Locked(status) then status - VERSIONS else status }
  function WithLock(status: nat): nat { if Locked(status) then status else status + VERSIONS }
  function Incremented(status: nat): nat { (status + 1) % WORD64 }

  /** Positions inside `update` (lines 87-95). */
  datatype UpdatePC =
    | LockLoad | LockCas(was: nat) | Writing(todo: set<nat>)
    | IncrLoad | IncrStore(was: nat) | IncrCheck(was: nat) | UnlockLoad | UnlockStore(was: nat)

  /** Positions inside `read` (lines 65-86). */
  datatype ReadPC = StatusLoad | Copying(s: nat, tmp: map<nat, Word>) | Recheck(s: nat, tmp: map<nat, Word>)

  datatype PC = Idle | Updating(v: Value, u: UpdatePC) | Reading(r: ReadPC) | Returned(copy: map<nat, Word>)

  /** `owner` and `hist` only record: who passed the compare-and-swap last, and the values in the
      order their versions were published, the constructor's first. */
  datatype State = State(status: nat, val: Value, pcs: seq<PC>, owner: int, hist: seq<Value>)

  const NOBODY := -1

  ghost predicate Init(s: State) {
    && s.status == 0 && s.hist == [s.val] && s.owner == NOBODY
    && forall t :: 0 <= t < |s.pcs| ==> s.pcs[t] == Idle
  }

  function At(s: State, t: nat, pc: PC): State
    requires t < |s.pcs|
  {
    s.(pcs := s.pcs[t := pc])
  }

  // ---------------------------------------------------------------- steps

  function Indices(n: nat): (r: set<nat>)
    ensures forall i: nat :: i in r <==> i < n
  {
    if n == 0 then {} else Indices(n - 1) + {n - 1}
  }

  /** One access of thread `t` inside `update(v)`. */
  ghost predicate UpdateStep(s: State, s': State, t: nat, v: Value, pc: UpdatePC)
    requires t < |s.pcs|
  {
    match pc
    case LockLoad => s' == At(s, t, Updating(v, LockCas(s.status)))
    case LockCas(was) =>
      if s.status == Cleared(was) then
        s' == At(s, t, Updating(v, Writing(Indices(|s.val|)))).(status := WithLock(was), owner := t)
      else s' == At(s, t, Updating(v, LockLoad))
    case Writing(todo) => if todo == {} then s' == At(s, t, Updating(v, IncrLoad)) else exists i ::
        WriteStep(s, s', t, v, todo, i)
    case IncrLoad => s' == At(s, t, Updating(v, IncrStore(s.status)))
    case IncrStore(was) => s' ==
        At(s, t, Updating(v, IncrCheck(was))).(status := Incremented(was), hist := s.hist + [v])
    case IncrCheck(was) => Version(s.status) == Version(was) + 1 && s' == At(s, t, Updating(v, UnlockLoad))
    case UnlockLoad => s' == At(s, t, Updating(v, UnlockStore(s.status)))
    case UnlockStore(was) => s' == At(s, t, Idle).(status := Cleared(was), owner := NOBODY)
  }

  ghost predicate WriteStep(s: State, s': State, t: nat, v: Value, todo: set<nat>, i: nat)
    requires t < |s.pcs|
  {
    i in todo && i < |s.val| && i < |v| && s' == At(s, t, Updating(v, Writing(todo - {i}))).(val := s.val[i := v[i]])
  }

  /** One access of thread `t` inside `read`. */
  ghost predicate ReadStep(s: State, s': State, t: nat, pc: ReadPC)
    requires t < |s.pcs|
  {
    match pc
    case StatusLoad => s' == At(s, t, Reading(Copying(s.status, map[])))
    case Copying(st, tmp) =>
      if Complete(tmp, |s.val|) then s' == At(s, t, Reading(Recheck(st, tmp))) else exists i ::
          CopyStep(s, s', t, st, tmp, i)
    case Recheck(st, tmp) =>
      if Locked(s.status) || Version(st) != Version(s.status) then s' == At(s, t, Reading(StatusLoad))
      else s' == At(s, t, Returned(tmp))
  }

  ghost predicate CopyStep(s: State, s': State, t: nat, st: nat, tmp: map<nat, Word>, i: nat)
    requires t < |s.pcs|
  {
    i < |s.val| && i !in tmp && s' == At(s, t, Reading(Copying(st, tmp[i := s.val[i]])))
  }

  ghost predicate Complete(tmp: map<nat, Word>, n: nat) {
    forall i: nat :: i < n ==> i in tmp
  }

  /** An idle thread calls `update` or `read`; a reader leaves with its copy. */
  ghost predicate CallStep(s: State, s': State, t: nat, pc: PC)
    requires t < |s.pcs|
  {
    && s' == At(s, t, pc)
    && (if s.pcs[t] == Idle then pc == Reading(StatusLoad) || (pc.Updating? && pc.u == LockLoad && |pc.v| == |s.val|)
        else s.pcs[t].Returned? && pc == Idle)
  }

  ghost predicate ThreadStep(s: State, s': State, t: nat)
    requires t < |s.pcs|
  {
    match s.pcs[t]
    case Updating(v, u) => UpdateStep(s, s', t, v, u)
    case Reading(r) => ReadStep(s, s', t, r)
    case Idle => exists pc :: CallStep(s, s', t, pc)
    case Returned(_) => CallStep(s, s', t, Idle)
  }

  ghost predicate Next(s: State, s': State) {
    exists t: nat :: t < |s.pcs| && ThreadStep(s, s', t)
  }

  ghost predicate StepAt(run: seq<State>, i: int) {
    0 <= i && i + 1 < |run| && Next(run[i], run[i + 1])
  }

  ghost predicate IsRun(run: seq<State>) {
    |run| > 0 && Init(run[0]) && forall i :: 0 <= i < |run| - 1 ==> StepAt(run, i)
  }

  // ---------------------------------------------------------------- invariant

  /** Between the successful compare-and-swap and the store that unlocks. */
  predicate Critical(pc: PC) { pc.Updating? && !pc.u.LockLoad? && !pc.u.LockCas? }

  /** The value is being replaced and its version not yet incremented. */
  predicate Torn(pc: PC) { pc.Updating? && (pc.u.Writing? || pc.u.IncrLoad? || pc.u.IncrStore?) }

  /** The value last published. */
  ghost function Current(s: State): Value
    requires |s.hist| > 0
  {
    s.hist[|s.hist| - 1]
  }

  ghost predicate Fits(pc: PC, n: nat) {
    pc.Updating? ==>
      && |pc.v| == n && (pc.u.LockCas? ==> pc.u.was < 2 * VERSIONS)
      && (pc.u.Writing? ==> forall i :: i in pc.u.todo ==> i < n)
  }

  ghost predicate Sized(s: State) {
    && 0 < |s.hist| <= VERSIONS && |Current(s)| == |s.val| && (s.owner == NOBODY || 0 <= s.owner < |s.pcs|)
    && (forall t :: 0 <= t < |s.pcs| ==> Fits(s.pcs[t], |s.val|))
  }

  /** The version counts what was published; the lock bit is set exactly while there is an owner. */
  ghost predicate StatusOk(s: State) {
    s.status == |s.hist| - 1 + (if s.owner == NOBODY then 0 else VERSIONS)
  }

  ghost predicate OwnerOk(s: State, t: int)
    requires 0 <= t < |s.pcs|
  {
    Critical(s.pcs[t]) <==> s.owner == t
  }

  /** What the owner's position says about the words, and about the status it has loaded. */
  ghost predicate HeldOk(s: State, v: Value, pc: UpdatePC)
    requires Sized(s) && |v| == |s.val|
  {
    match pc
    case Writing(todo) => forall i :: 0 <= i < |s.val| ==> s.val[i] == if i in todo then Current(s)[i] else v[i]
    case IncrLoad => s.val == v
    case IncrStore(was) => s.val == v && was == s.status
    case IncrCheck(was) => s.val == v == Current(s) && was + 1 == s.status && |s.hist| > 1
    case UnlockLoad => s.val == v == Current(s)
    case UnlockStore(was) => s.val == v == Current(s) && was == s.status
    case LockLoad => true
    case LockCas(_) => true
  }

  ghost predicate WordsOk(s: State)
    requires Sized(s)
  {
    if s.owner == NOBODY then s.val == Current(s)
    else s.pcs[s.owner].Updating? && Fits(s.pcs[s.owner], |s.val|) && HeldOk(s, s.pcs[s.owner].v, s.pcs[s.owner].u)
  }

  /** A value is being replaced right now. */
  ghost predicate Dirty(s: State) { 0 <= s.owner < |s.pcs| && Torn(s.pcs[s.owner]) }

  /** A reader whose version is still the current one has copied only current words. */
  ghost predicate CopyOk(version: nat, current: Value, dirty: bool, pc: PC) {
    pc.Reading? && !pc.r.StatusLoad? ==>
      && Version(pc.r.s) <= version && (pc.r.Recheck? ==> Complete(pc.r.tmp, |current|))
      && (Version(pc.r.s) == version && !dirty ==> CopiedFrom(pc.r.tmp, current))
  }

  ghost predicate CopiedFrom(tmp: map<nat, Word>, current: Value) {
    forall i :: i in tmp && i < |current| ==> tmp[i] == current[i]
  }

  ghost predicate Copies(s: State)
    requires Sized(s)
  {
    forall t :: 0 <= t < |s.pcs| ==> CopyOk(|s.hist| - 1, Current(s), Dirty(s), s.pcs[t])
  }

  ghost predicate Inv(s: State) {
    && Sized(s) && StatusOk(s) && WordsOk(s) && Copies(s)
    && (forall t :: 0 <= t < |s.pcs| ==> OwnerOk(s, t))
  }

  /** A status word below twice the version range, read back. */
  lemma StatusBits(version: nat, locked: bool)
    requires version < VERSIONS
    ensures var st := version + (if locked then VERSIONS else 0);
      Locked(st) == locked && Version(st) == version && Cleared(st) == version && WithLock(st) == version + VERSIONS
  {
    assert (version + VERSIONS) / VERSIONS == 1 && version / VERSIONS == 0;
    assert (version + VERSIONS) % VERSIONS == version;
  }

  /** `incr_version` (lines 51-56) does what its assert says, and keeps the lock, exactly until the
      versions run out. */
  lemma IncrExact(version: nat)
    requires version < VERSIONS
    ensures var st := Incremented(version + VERSIONS);
      (Version(st) == version + 1 <==> version + 1 < VERSIONS) && (Locked(st) <==> version + 1 < VERSIONS)
  {
    var st := Incremented(version + VERSIONS);
    assert st == version + 1 + VERSIONS;
    if version + 1 < VERSIONS {
      StatusBits(version + 1, true);
    } else {
      assert st / VERSIONS == 2 && st % VERSIONS == 0;
    }
  }

  // ---------------------------------------------------------------- every step keeps it

  /** A step that touches nothing shared. */
  lemma LocalKeeps(s: State, t: nat, pc: PC)
    requires Inv(s) && t < |s.pcs| && Fits(pc, |s.val|)
    requires Critical(pc) == Critical(s.pcs[t]) && Torn(pc) == Torn(s.pcs[t])
    requires s.owner == t ==> pc.Updating? && HeldOk(s, pc.v, pc.u)
    requires CopyOk(|s.hist| - 1, Current(s), Dirty(s), pc)
    ensures Inv(At(s, t, pc))
  {
    var s' := At(s, t, pc);
    forall j | 0 <= j < |s'.pcs| ensures OwnerOk(s', j) && Fits(s'.pcs[j], |s'.val|) {
      assert OwnerOk(s, j) && Fits(s.pcs[j], |s.val|);
    }
    assert Dirty(s') == Dirty(s);
    forall j | 0 <= j < |s'.pcs| ensures CopyOk(|s'.hist| - 1, Current(s'), Dirty(s'), s'.pcs[j]) {
      assert CopyOk(|s.hist| - 1, Current(s), Dirty(s), s.pcs[j]);
    }
  }

  /** The compare-and-swap succeeds only on an unlocked status. */
  lemma AcquireKeeps(s: State, s': State, t: nat, v: Value, was: nat)
    requires Inv(s) && t < |s.pcs| && s.pcs[t] == Updating(v, LockCas(was)) && s.status == Cleared(was)
    requires s' == At(s, t, Updating(v, Writing(Indices(|s.val|)))).(status := WithLock(was), owner := t)
    ensures Inv(s') && s.owner == NOBODY
  {
    assert Fits(s.pcs[t], |s.val|) && was == was % VERSIONS + (if was >= VERSIONS then VERSIONS else 0);
    StatusBits(was % VERSIONS, was >= VERSIONS);
    forall j | 0 <= j < |s'.pcs| ensures OwnerOk(s', j) && Fits(s'.pcs[j], |s'.val|) {
      assert OwnerOk(s, j) && Fits(s.pcs[j], |s.val|);
    }
    forall j | 0 <= j < |s'.pcs| ensures CopyOk(|s'.hist| - 1, Current(s'), Dirty(s'), s'.pcs[j]) {
      assert CopyOk(|s.hist| - 1, Current(s), Dirty(s), s.pcs[j]);
    }
  }

  lemma WriteKeeps(s: State, s': State, t: nat, v: Value, todo: set<nat>, i: nat)
    requires Inv(s) && t < |s.pcs| && s.pcs[t] == Updating(v, Writing(todo)) && WriteStep(s, s', t, v, todo, i)
    ensures Inv(s')
  {
    assert OwnerOk(s, t);
    forall j | 0 <= j < |s'.pcs| ensures OwnerOk(s', j) && Fits(s'.pcs[j], |s'.val|) {
      assert OwnerOk(s, j) && Fits(s.pcs[j], |s.val|);
    }
    forall j | 0 <= j < |s'.pcs| ensures CopyOk(|s'.hist| - 1, Current(s'), Dirty(s'), s'.pcs[j]) {
      assert CopyOk(|s.hist| - 1, Current(s), Dirty(s), s.pcs[j]);
    }
  }

  /** Incrementing the version turns away every reader that may have copied a torn value. */
  lemma PublishKeeps(s: State, s': State, t: nat, v: Value, was: nat)
    requires Inv(s) && t < |s.pcs| && s.pcs[t] == Updating(v, IncrStore(was)) && |s.hist| < VERSIONS
    requires s' == At(s, t, Updating(v, IncrCheck(was))).(status := Incremented(was), hist := s.hist + [v])
    ensures Inv(s')
  {
    assert OwnerOk(s, t) && Fits(s.pcs[t], |s.val|);
    forall j | 0 <= j < |s'.pcs| ensures OwnerOk(s', j) && Fits(s'.pcs[j], |s'.val|) {
      assert OwnerOk(s, j) && Fits(s.pcs[j], |s.val|);
    }
    forall j | 0 <= j < |s'.pcs| ensures CopyOk(|s'.hist| - 1, Current(s'), Dirty(s'), s'.pcs[j]) {
      assert CopyOk(|s.hist| - 1, Current(s), Dirty(s), s.pcs[j]);
    }
  }

  lemma ReleaseKeeps(s: State, s': State, t: nat, v: Value, was: nat)
    requires Inv(s) && t < |s.pcs| && s.pcs[t] == Updating(v, UnlockStore(was))
    requires s' == At(s, t, Idle).(status := Cleared(was), owner := NOBODY)
    ensures Inv(s')
  {
    assert OwnerOk(s, t);
    StatusBits(|s.hist| - 1, true);
    forall j | 0 <= j < |s'.pcs| ensures OwnerOk(s', j) && Fits(s'.pcs[j], |s'.val|) {
      assert OwnerOk(s, j) && Fits(s.pcs[j], |s.val|);
    }
    forall j | 0 <= j < |s'.pcs| ensures CopyOk(|s'.hist| - 1, Current(s'), Dirty(s'), s'.pcs[j]) {
      assert CopyOk(|s.hist| - 1, Current(s), Dirty(s), s.pcs[j]);
    }
  }

  lemma UpdateKeeps(s: State, s': State, t: nat, v: Value, pc: UpdatePC)
    requires Inv(s) && t < |s.pcs| && s.pcs[t] == Updating(v, pc) && UpdateStep(s, s', t, v, pc) &&
      |s'.hist| <= VERSIONS
    ensures Inv(s')
  {
    assert OwnerOk(s, t) && Fits(s.pcs[t], |s.val|);
    StatusBits(|s.hist| - 1, s.owner != NOBODY);
    match pc
    case LockLoad => LocalKeeps(s, t, Updating(v, LockCas(s.status)));
    case LockCas(was) => if s.status == Cleared(was) { AcquireKeeps(s, s', t, v, was); } else {
      LocalKeeps(s, t, Updating(v, LockLoad));
    }
    case Writing(todo) =>
      if todo == {} {
        LocalKeeps(s, t, Updating(v, IncrLoad));
      } else {
        var i :| WriteStep(s, s', t, v, todo, i);
        WriteKeeps(s, s', t, v, todo, i);
      }
    case IncrLoad => LocalKeeps(s, t, Updating(v, IncrStore(s.status)));
    case IncrStore(was) => PublishKeeps(s, s', t, v, was);
    case IncrCheck(was) => LocalKeeps(s, t, Updating(v, UnlockLoad));
    case UnlockLoad => LocalKeeps(s, t, Updating(v, UnlockStore(s.status)));
    case UnlockStore(was) => ReleaseKeeps(s, s', t, v, was);
  }

  /** A reader that returns has copied the value current at that moment. */
  lemma ReadKeeps(s: State, s': State, t: nat, pc: ReadPC)
    requires Inv(s) && t < |s.pcs| && s.pcs[t] == Reading(pc) && ReadStep(s, s', t, pc)
    ensures Inv(s')
    ensures s'.pcs[t].Returned? ==> IsCopy(s'.pcs[t].copy, Current(s))
  {
    StatusBits(|s.hist| - 1, s.owner != NOBODY);
    assert CopyOk(|s.hist| - 1, Current(s), Dirty(s), s.pcs[t]) && OwnerOk(s, t);
    match pc
    case StatusLoad => LocalKeeps(s, t, Reading(Copying(s.status, map[])));
    case Copying(st, tmp) =>
      if Complete(tmp, |s.val|) {
        LocalKeeps(s, t, Reading(Recheck(st, tmp)));
      } else {
        var i: nat :| CopyStep(s, s', t, st, tmp, i);
        if !Dirty(s) { WordCurrent(s); }
        LocalKeeps(s, t, Reading(Copying(st, tmp[i := s.val[i]])));
      }
    case Recheck(st, tmp) =>
      if Locked(s.status) || Version(st) != Version(s.status) {
        LocalKeeps(s, t, Reading(StatusLoad));
      } else {
        LocalKeeps(s, t, Returned(tmp));
      }
  }

  /** While no value is being replaced, the words are the current ones. */
  lemma WordCurrent(s: State)
    requires Inv(s) && !Dirty(s)
    ensures s.val == Current(s)
  {
    if s.owner != NOBODY { assert OwnerOk(s, s.owner); }
  }

  /** `copy` is the whole of `v`. */
  ghost predicate IsCopy(copy: map<nat, Word>, v: Value) {
    Complete(copy, |v|) && CopiedFrom(copy, v)
  }

  lemma ThreadKeeps(s: State, s': State, t: nat)
    requires Inv(s) && t < |s.pcs| && ThreadStep(s, s', t) && |s'.hist| <= VERSIONS
    ensures Inv(s')
    ensures |s'.pcs| == |s.pcs| && s'.pcs[t].Returned? ==> IsCopy(s'.pcs[t].copy, Current(s'))
  {
    assert OwnerOk(s, t);
    match s.pcs[t]
    case Updating(v, u) => UpdateKeeps(s, s', t, v, u);
    case Reading(r) => ReadKeeps(s, s', t, r);
    case Idle => var pc :| CallStep(s, s', t, pc); LocalKeeps(s, t, pc);
    case Returned(_) => LocalKeeps(s, t, Idle);
  }

  /** Only the thread that steps moves, and history only grows. */
  lemma StepFrame(s: State, s': State, t: nat)
    requires t < |s.pcs| && ThreadStep(s, s', t)
    ensures |s'.pcs| == |s.pcs| && s'.pcs == s.pcs[t := s'.pcs[t]]
    ensures s'.hist == s.hist ||
      (exists was :: s.pcs[t].Updating? && s.pcs[t].u == IncrStore(was) && s'.hist == s.hist + [s.pcs[t].v])
  {
    match s.pcs[t]
    case Updating(v, u) => assert u.IncrStore? ==> s.pcs[t].u == IncrStore(u.was);
    case Reading(r) =>
    case Idle =>
    case Returned(_) =>
  }

  // ---------------------------------------------------------------- every run

  lemma {:induction false} RunInv(run: seq<State>, i: nat)
    requires IsRun(run) && i < |run| && |run[i].hist| <= VERSIONS
    ensures Inv(run[i])
  {
    if i > 0 {
      assert StepAt(run, i - 1);
      var t: nat :| t < |run[i - 1].pcs| && ThreadStep(run[i - 1], run[i], t);
      StepFrame(run[i - 1], run[i], t);
      RunInv(run, i - 1);
      ThreadKeeps(run[i - 1], run[i], t);
    }
  }

  /** Writers exclude each other in every reachable state. */
  lemma {:induction false} Exclusion(run: seq<State>, i: nat, t: nat, u: nat)
    requires IsRun(run) && i < |run| && |run[i].hist| <= VERSIONS
    requires t < |run[i].pcs| && u < |run[i].pcs| && Critical(run[i].pcs[t]) && Critical(run[i].pcs[u])
    ensures t == u && Locked(run[i].status)
  {
    RunInv(run, i);
    assert OwnerOk(run[i], t) && OwnerOk(run[i], u);
    StatusBits(|run[i].hist| - 1, true);
  }

  /** `incr_version`'s assert never fires. */
  lemma {:induction false} AssertHolds(run: seq<State>, i: nat, t: nat, v: Value, was: nat)
    requires IsRun(run) && i < |run| && |run[i].hist| <= VERSIONS
    requires t < |run[i].pcs| && run[i].pcs[t] == Updating(v, IncrCheck(was))
    ensures Version(run[i].status) == Version(was) + 1
  {
    RunInv(run, i);
    assert OwnerOk(run[i], t);
    StatusBits(|run[i].hist| - 1, true);
    StatusBits(|run[i].hist| - 2, true);
  }

  /** At step `k` thread `u` has copied all of `v` in and is about to publish it. */
  ghost predicate Publishes(s: State, u: int, v: Value) {
    0 <= u < |s.pcs| && s.pcs[u].Updating? && s.pcs[u].v == v && s.pcs[u].u.IncrStore? && s.val == v
  }

  ghost predicate PublishedBefore(run: seq<State>, i: nat, v: Value)
    requires i <= |run|
  {
    exists k, u :: 0 <= k < i && Publishes(run[k], u, v)
  }

  /** Every published value is the constructor's or was written, whole, by one `update`. */
  lemma {:induction false} Provenance(run: seq<State>, i: nat, j: nat)
    requires IsRun(run) && i < |run| && |run[i].hist| <= VERSIONS && j < |run[i].hist|
    ensures (j == 0 && run[i].hist[0] == run[0].val) || PublishedBefore(run, i, run[i].hist[j])
  {
    if i > 0 {
      var s, s' := run[i - 1], run[i];
      assert StepAt(run, i - 1);
      var t: nat :| t < |s.pcs| && ThreadStep(s, s', t);
      StepFrame(s, s', t);
      if j < |s.hist| {
        Provenance(run, i - 1, j);
      } else {
        RunInv(run, i - 1);
        assert OwnerOk(s, t) && Publishes(s, t, s'.hist[j]);
      }
    }
  }

  /** In every run, a `read` that returns at step `i` returns the value published last at that moment:
      one that the constructor or one single `update` wrote completely. */
  lemma {:induction false} ReadIsWhole(run: seq<State>, i: nat, t: nat)
    requires IsRun(run) && i + 1 < |run| && |run[i + 1].hist| <= VERSIONS
    requires t < |run[i].pcs| && t < |run[i + 1].pcs| && run[i + 1].pcs[t].Returned? && !run[i].pcs[t].Returned?
    ensures |run[i + 1].hist| > 0 && IsCopy(run[i + 1].pcs[t].copy, Current(run[i + 1]))
    ensures Current(run[i + 1]) == run[0].val || PublishedBefore(run, i + 1, Current(run[i + 1]))
  {
    var s, s' := run[i], run[i + 1];
    assert StepAt(run, i);
    var u: nat :| u < |s.pcs| && ThreadStep(s, s', u);
    StepFrame(s, s', u);
    RunInv(run, i);
    ThreadKeeps(s, s', u);
    Provenance(run, i + 1, |s'.hist| - 1);
  }
}
