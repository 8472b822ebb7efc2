/** `MessagePtrQueue` (distcache/message_queue_impl.h:27-49): a ring shared by one writer and one
    reader, as a machine that makes one access at a time to what the other thread may change. */
module MessageQueue {
  import opened Arith

  /** A pointer; `NULL` marks an empty slot. */
  type Obj = int
  const NULL: Obj := 0

  /** Positions inside `write`: load `_tail`, check the slot, fill it, store `_head`. */
  datatype Writer = Rests | LoadTail(x: Obj) | CheckFree(x: Obj) | Fill(x: Obj) | StoreHead(x: Obj) | Wrote(ok: bool)

  /** Positions inside `read`: load `_head`, check the slot, load it, empty it, store `_tail`. */
  datatype Reader = Waits | LoadHead | CheckFull | Take | Clear(x: Obj) | StoreTail(x: Obj) | Read(x: Obj)

  /** `written` and `got` only record: the objects of the writes that stored `_head` and of the
      reads that stored `_tail`, in that order. */
  datatype State = State(size: nat, slots: seq<Obj>, head: nat, tail: nat, w: Writer, r: Reader, written: seq<Obj>,
      got: seq<Obj>)

  ghost predicate Init(s: State) {
    && s.size > 0 && |s.slots| == s.size && (forall i :: 0 <= i < s.size ==> s.slots[i] == NULL)
    && s.head == 0 && s.tail == 0 && s.w == Rests && s.r == Waits && s.written == [] && s.got == []
  }

  ghost predicate WriterStep(s: State, s': State) {
    match s.w
    case Rests => exists x :: x != NULL && s' == s.(w := LoadTail(x))
    case LoadTail(x) => s.size > 0 &&
        s' == s.(w := if (s.head + 1) % s.size != s.tail then CheckFree(x) else Wrote(false))
    case CheckFree(x) => s' == s.(w := Fill(x))
    case Fill(x) => s.head < |s.slots| && s' == s.(slots := s.slots[s.head := x], w := StoreHead(x))
    case StoreHead(x) => s.size > 0 &&
        s' == s.(head := (s.head + 1) % s.size, w := Wrote(true), written := s.written + [x])
    case Wrote(_) => s' == s.(w := Rests)
  }

  ghost predicate ReaderStep(s: State, s': State) {
    match s.r
    case Waits => s' == s.(r := LoadHead)
    case LoadHead => s' == s.(r := if s.tail != s.head then CheckFull else Read(NULL))
    case CheckFull => s' == s.(r := Take)
    case Take => s.tail < |s.slots| && s' == s.(r := Clear(s.slots[s.tail]))
    case Clear(x) => s.tail < |s.slots| && s' == s.(slots := s.slots[s.tail := NULL], r := StoreTail(x))
    case StoreTail(x) => s.size > 0 && s' == s.(tail := (s.tail + 1) % s.size, r := Read(x), got := s.got + [x])
    case Read(_) => s' == s.(r := Waits)
  }

  ghost predicate Next(s: State, s': State) { WriterStep(s, s') || ReaderStep(s, s') }

  ghost predicate StepAt(run: seq<State>, i: int) {
    0 <= i && i + 1 < |run| && Next(run[i], run[i + 1])
  }

  ghost predicate IsRun(run: seq<State>) {
    |run| > 0 && Init(run[0]) && forall i :: 0 <= i < |run| - 1 ==> StepAt(run, i)
  }

  // ---------------------------------------------------------------- invariant

  /** What the slot of the `j`-th object ever written holds. */
  ghost function Expected(s: State, j: int): Obj
    requires 0 <= j
  {
    if j == |s.got| && s.r.StoreTail? then NULL
    else if j < |s.written| then s.written[j]
    else if j == |s.written| && s.w.StoreHead? then s.w.x
    else NULL
  }

  ghost predicate Counts(s: State) {
    && s.size > 0 && |s.slots| == s.size && |s.got| <= |s.written| < |s.got| + s.size
    && s.head == |s.written| % s.size && s.tail == |s.got| % s.size
  }

  /** The slots not NULL are exactly those of the objects written and not yet read. */
  ghost predicate SlotsOk(s: State)
    requires Counts(s)
  {
    forall j :: |s.got| <= j < |s.got| + s.size ==> s.slots[j % s.size] == Expected(s, j)
  }

  ghost predicate WriterOk(s: State) {
    && (s.w.CheckFree? || s.w.Fill? || s.w.StoreHead? ==> |s.written| + 1 < |s.got| + s.size)
    && (s.w.LoadTail? || s.w.CheckFree? || s.w.Fill? || s.w.StoreHead? ==> s.w.x != NULL)
  }

  ghost predicate ReaderOk(s: State) {
    && (s.r.CheckFull? || s.r.Take? || s.r.Clear? || s.r.StoreTail? ==> |s.got| < |s.written|)
    && (s.r.Clear? || s.r.StoreTail? ==> |s.got| < |s.written| && s.r.x == s.written[|s.got|])
  }

  ghost predicate Inv(s: State) {
    && Counts(s) && SlotsOk(s) && WriterOk(s) && ReaderOk(s)
    && s.got == s.written[..|s.got|] && (forall j :: 0 <= j < |s.written| ==> s.written[j] != NULL)
  }

  /** Storing into one slot leaves the others alone. */
  lemma StoreSlot(s: State, at: nat, x: Obj, s': State)
    requires Counts(s) && SlotsOk(s) && |s.got| <= at < |s.got| + s.size && Counts(s') && s'.size == s.size
    requires s'.slots == s.slots[at % s.size := x] && s'.got == s.got && s'.written == s.written
    requires Expected(s', at) == x && forall j ::
      |s.got| <= j < |s.got| + s.size && j != at ==> Expected(s', j) == Expected(s, j)
    ensures SlotsOk(s')
  {
    forall j | |s.got| <= j < |s.got| + s.size ensures s'.slots[j % s.size] == Expected(s', j) {
      assert s.slots[j % s.size] == Expected(s, j);
      if j % s.size == at % s.size { if j <= at { SameMod(j, at, s.size); } else { SameMod(at, j, s.size); } }
    }
  }

  lemma WriterKeeps(s: State, s': State)
    requires Inv(s) && WriterStep(s, s')
    ensures Inv(s')
  {
    NextMod(|s.written|, s.size);
    WrapMod(|s.got|, s.size);
    if s.w.Fill? {
      StoreSlot(s, |s.written|, s.w.x, s');
    } else {
      forall j | |s'.got| <= j < |s'.got| + s'.size ensures s'.slots[j % s'.size] == Expected(s', j) {
        assert s.slots[j % s.size] == Expected(s, j);
      }
    }
  }

  lemma ReaderKeeps(s: State, s': State)
    requires Inv(s) && ReaderStep(s, s')
    ensures Inv(s')
  {
    NextMod(|s.got|, s.size);
    assert s.slots[|s.got| % s.size] == Expected(s, |s.got|);
    if s.r.Clear? {
      StoreSlot(s, |s.got|, NULL, s');
    } else {
      forall j | |s'.got| <= j < |s'.got| + s'.size ensures s'.slots[j % s'.size] == Expected(s', j) {
        if j < |s.got| + s.size { assert s.slots[j % s.size] == Expected(s, j); } else { WrapMod(|s.got|, s.size); }
      }
    }
  }

  lemma {:induction false} RunInv(run: seq<State>, i: nat)
    requires IsRun(run) && i < |run|
    ensures Inv(run[i])
  {
    if i > 0 {
      assert StepAt(run, i - 1);
      RunInv(run, i - 1);
      if WriterStep(run[i - 1], run[i]) { WriterKeeps(run[i - 1], run[i]); } else { ReaderKeeps(run[i - 1], run[i]); }
    }
  }

  /** In every run the objects read are, in order, the first objects written, and neither check of a
      slot ever fails (lines 30, 42 and 46). */
  lemma {:induction false} Fifo(run: seq<State>, i: nat)
    requires IsRun(run) && i < |run|
    ensures run[i].got <= run[i].written && |run[i].written| - |run[i].got| < run[i].size
    ensures run[i].head < |run[i].slots| && run[i].tail < |run[i].slots|
    ensures run[i].w.CheckFree? ==> run[i].slots[run[i].head] == NULL
    ensures run[i].r.CheckFull? ==> run[i].slots[run[i].tail] != NULL
    ensures run[i].r.StoreTail? ==> run[i].r.x != NULL
  {
    var s := run[i];
    RunInv(run, i);
    assert s.slots[|s.got| % s.size] == Expected(s, |s.got|);
    assert s.slots[|s.written| % s.size] == Expected(s, |s.written|);
  }

  /** `write` refuses exactly when the ring holds `size - 1` objects, `read` answers NULL exactly when
      it holds none, at the moment the other index is loaded. */
  lemma {:induction false} AnswersExact(run: seq<State>, i: nat)
    requires IsRun(run) && i < |run|
    ensures run[i].size > 0
    ensures var s := run[i];
      && ((s.head + 1) % s.size == s.tail <==> |s.written| - |s.got| == s.size - 1)
      && (s.tail == s.head <==> s.written == s.got)
  {
    var s := run[i];
    RunInv(run, i);
    NextMod(|s.written|, s.size);
    WrapMod(|s.got|, s.size);
    if s.tail == s.head { SameMod(|s.got|, |s.written|, s.size); }
    if (|s.written| + 1) % s.size == |s.got| % s.size && |s.written| + 1 < |s.got| + s.size {
      SameMod(|s.got|, |s.written| + 1, s.size);
    }
  }

  // ---------------------------------------------------------------- what the calls answer

  /** The reader loads `_head` at step `a` and answers with step `b`. */
  ghost predicate ReadCall(run: seq<State>, a: nat, b: nat) {
    && a <= b && b + 1 < |run| && run[a].r == LoadHead && run[a + 1].r != LoadHead && run[b + 1].r.Read?
    && forall k :: a < k <= b ==> Reads(run[k].r)
  }

  predicate Reads(r: Reader) { r.CheckFull? || r.Take? || r.Clear? || r.StoreTail? }

  /** The writer, called with `x`, loads `_tail` at step `a` and answers with step `b`. */
  ghost predicate WriteCall(run: seq<State>, x: Obj, a: nat, b: nat) {
    && a <= b && b + 1 < |run| && run[a].w == LoadTail(x) && run[a + 1].w != LoadTail(x) && run[b + 1].w.Wrote?
    && forall k :: a < k <= b ==> Writes(run[k].w)
  }

  predicate Writes(w: Writer) { w.CheckFree? || w.Fill? || w.StoreHead? }

  /** Until the answer nothing has been read; the objects there at the load are still to come. */
  lemma {:induction false} WhileReading(run: seq<State>, a: nat, b: nat, k: nat)
    requires IsRun(run) && ReadCall(run, a, b) && a <= k <= b
    ensures run[k].got == run[a].got && run[a].written <= run[k].written
    ensures a < k ==> run[a].got != run[a].written
    decreases k
  {
    RunInv(run, a);
    if k > a {
      WhileReading(run, a, b, k - 1);
      assert StepAt(run, k - 1);
      if k == a + 1 { AnswersExact(run, a); }
    }
  }

  /** `read` answers NULL exactly if the ring held nothing when `_head` was loaded, and then takes nothing; otherwise it
      answers the oldest object that the ring held, and has taken exactly that. */
  lemma ReadAnswers(run: seq<State>, a: nat, b: nat)
    requires IsRun(run) && ReadCall(run, a, b)
    ensures run[a].got <= run[a].written
    ensures var x := run[b + 1].r.x;
      && (x == NULL <==> run[a].written == run[a].got)
      && (x == NULL ==> run[b + 1].got == run[a].got)
      && (x != NULL ==> |run[a].got| < |run[a].written| && x == run[a].written[|run[a].got|])
      && (x != NULL ==> run[b + 1].got == run[a].got + [x])
  {
    RunInv(run, a);
    RunInv(run, b);
    WhileReading(run, a, b, b);
    assert StepAt(run, b);
    AnswersExact(run, a);
  }

  /** Until the answer nothing has been written; the objects read meanwhile only make room. */
  lemma {:induction false} WhileWriting(run: seq<State>, x: Obj, a: nat, b: nat, k: nat)
    requires IsRun(run) && WriteCall(run, x, a, b) && a <= k <= b
    ensures run[k].written == run[a].written && run[k].size == run[a].size
    ensures a < k ==> run[k].w.x == x && |run[a].written| - |run[a].got| != run[a].size - 1
    decreases k
  {
    RunInv(run, a);
    if k > a {
      WhileWriting(run, x, a, b, k - 1);
      assert StepAt(run, k - 1);
      if k == a + 1 { AnswersExact(run, a); }
    }
  }

  /** `write` answers false exactly if the ring held `size - 1` objects when `_tail` was loaded, and then writes
      nothing; otherwise it answers true and has written exactly what it was given. */
  lemma WriteAnswers(run: seq<State>, x: Obj, a: nat, b: nat)
    requires IsRun(run) && WriteCall(run, x, a, b)
    ensures var ok := run[b + 1].w.ok;
      && (!ok <==> |run[a].written| - |run[a].got| == run[a].size - 1)
      && run[b + 1].written == if ok then run[a].written + [x] else run[a].written
  {
    RunInv(run, a);
    WhileWriting(run, x, a, b, b);
    assert StepAt(run, b);
    AnswersExact(run, a);
  }

  /** Every answer belongs to such a call. */
  lemma {:induction false} ReadBegan(run: seq<State>, k: nat) returns (a: nat)
    requires IsRun(run) && k < |run| && (Reads(run[k].r) || run[k].r == LoadHead)
    ensures a <= k && run[a].r == LoadHead && forall j :: a < j <= k ==> Reads(run[j].r)
  {
    if run[k].r == LoadHead {
      a := k;
    } else {
      assert k > 0;
      assert StepAt(run, k - 1);
      a := ReadBegan(run, k - 1);
    }
  }

  lemma {:induction false} WriteBegan(run: seq<State>, k: nat) returns (a: nat, x: Obj)
    requires IsRun(run) && k < |run| && (Writes(run[k].w) || run[k].w.LoadTail?)
    ensures a <= k && run[a].w == LoadTail(x) && forall j :: a < j <= k ==> Writes(run[j].w)
  {
    if run[k].w.LoadTail? {
      a, x := k, run[k].w.x;
    } else {
      assert k > 0;
      assert StepAt(run, k - 1);
      a, x := WriteBegan(run, k - 1);
    }
  }

  lemma EveryAnswer(run: seq<State>, b: nat)
    requires IsRun(run) && b + 1 < |run|
    ensures run[b + 1].r.Read? && !run[b].r.Read? ==> exists a :: ReadCall(run, a, b)
    ensures run[b + 1].w.Wrote? && !run[b].w.Wrote? ==> exists x, a :: WriteCall(run, x, a, b)
  {
    assert StepAt(run, b);
    if run[b + 1].r.Read? && !run[b].r.Read? {
      var a := ReadBegan(run, b);
      assert ReadCall(run, a, b);
    }
    if run[b + 1].w.Wrote? && !run[b].w.Wrote? {
      var a, x := WriteBegan(run, b);
      assert WriteCall(run, x, a, b);
    }
  }

  // ---------------------------------------------------------------- neither waits for the other

  /** The steps that are left of a call. */
  function ReadLeft(r: Reader): nat {
    match r
    case LoadHead => 5
    case CheckFull => 4
    case Take => 3
    case Clear(_) => 2
    case StoreTail(_) => 1
    case _ => 0
  }

  function WriteLeft(w: Writer): nat {
    match w
    case LoadTail(_) => 4
    case CheckFree(_) => 3
    case Fill(_) => 2
    case StoreHead(_) => 1
    case _ => 0
  }

  /** In every reachable state a call can go on, and each of its own steps leaves fewer, whatever the other thread
      does: it answers after five steps at most, or four. */
  lemma WaitFree(run: seq<State>, i: nat)
    requires IsRun(run) && i < |run|
    ensures ReadLeft(run[i].r) > 0 ==> exists s' :: ReaderStep(run[i], s')
    ensures WriteLeft(run[i].w) > 0 ==> exists s' :: WriterStep(run[i], s')
    ensures forall s' :: ReaderStep(run[i], s') ==>
      s'.w == run[i].w && (ReadLeft(run[i].r) > 0 ==> ReadLeft(s'.r) < ReadLeft(run[i].r))
    ensures forall s' :: WriterStep(run[i], s') ==>
      s'.r == run[i].r && (WriteLeft(run[i].w) > 0 ==> WriteLeft(s'.w) < WriteLeft(run[i].w))
  {
    RunInv(run, i);
    var s := run[i];
    if ReadLeft(s.r) > 0 { var s' := ReaderMove(s); }
    if WriteLeft(s.w) > 0 { var s' := WriterMove(s); }
  }

  lemma ReaderMove(s: State) returns (s': State)
    requires Counts(s) && ReadLeft(s.r) > 0
    ensures ReaderStep(s, s')
  {
    match s.r
    case LoadHead => s' := s.(r := if s.tail != s.head then CheckFull else Read(NULL));
    case CheckFull => s' := s.(r := Take);
    case Take => s' := s.(r := Clear(s.slots[s.tail]));
    case Clear(x) => s' := s.(slots := s.slots[s.tail := NULL], r := StoreTail(x));
    case StoreTail(x) => s' := s.(tail := (s.tail + 1) % s.size, r := Read(x), got := s.got + [x]);
  }

  lemma WriterMove(s: State) returns (s': State)
    requires Counts(s) && WriteLeft(s.w) > 0
    ensures WriterStep(s, s')
  {
    match s.w
    case LoadTail(x) => s' := s.(w := if (s.head + 1) % s.size != s.tail then CheckFree(x) else Wrote(false));
    case CheckFree(x) => s' := s.(w := Fill(x));
    case Fill(x) => s' := s.(slots := s.slots[s.head := x], w := StoreHead(x));
    case StoreHead(x) => s' := s.(head := (s.head + 1) % s.size, w := Wrote(true), written := s.written + [x]);
  }
}
