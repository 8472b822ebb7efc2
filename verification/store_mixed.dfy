/** The store as the server uses it (farreach/server_impl.h:406-409, 746-831, 1649-1652): what the switch hands back is
    written with the check of the stored number, ordinary requests without. */
module StoreMixed {
  import opened Common
  import opened DeletedSets
  import opened Maps
  import opened Store

  // ---------------------------------------------------------------- one operation

  /** A write gets through: no newer deletion is known and, if that is checked, no newer record is stored. */
  ghost predicate Through(s: Db, op: Op, flag: bool)
    requires !op.Get?
  {
    !NewerThan(s.tombs, op.key, op.seqno) && !(flag && Outdated(s.data, op.key, op.seqno))
  }

  /** What an operation does to its key; all others are left alone. */
  ghost predicate Done(s: Db, s': Db, op: Op, flag: bool) {
    && SameBut(s.data, s'.data, op.key) && SameBut(s.tombs.byKey, s'.tombs.byKey, op.key)
    && (op.Get? ==> SameAt(s, s', op.key))
    && (!op.Get? && !Through(s, op, flag) ==> SameAt(s, s', op.key))
    && (op.Put? && Through(s, op, flag) ==>
          op.key in s'.data && s'.data[op.key] == Rec(op.val, op.seqno) && op.key !in s'.tombs.byKey)
    && (op.Remove? && Through(s, op, flag) ==>
          op.key !in s'.data && op.key in s'.tombs.byKey && s'.tombs.byKey[op.key] == op.seqno)
  }

  ghost predicate SameAt(s: Db, s': Db, k: int) {
    && (k in s.data <==> k in s'.data) && (k in s.data ==> s.data[k] == s'.data[k])
    && (k in s.tombs.byKey <==> k in s'.tombs.byKey) && (k in s.tombs.byKey ==> s.tombs.byKey[k] == s'.tombs.byKey[k])
  }

  // ---------------------------------------------------------------- what is known of every state

  /** The deletion of `k` is one of the run's or of the start. */
  ghost predicate DeletedBy(s0: Db, ops: seq<Op>, k: int, seqno: int) {
    (exists i :: 0 <= i < |ops| && ops[i] == Remove(k, seqno)) || (k in s0.tombs.byKey && s0.tombs.byKey[k] == seqno)
  }

  ghost predicate NotNewer(s: Db, k: int, w: Option<Op>) {
    && (k in s.data ==> w.Some? && !w.value.Get? && s.data[k].seqno <= w.value.seqno)
    && (k in s.tombs.byKey ==> w.Some? && !w.value.Get? && s.tombs.byKey[k] <= w.value.seqno)
  }

  ghost predicate Known(s0: Db, s: Db, ops: seq<Op>) {
    && Disjoint(s) && InSync(s.tombs) && s.tombs.byKey.Keys <= DeletedKeys(s0, ops)
    && (forall k :: NotNewer(s, k, Winner(s0, ops, k)))
    && (forall k :: k in s.tombs.byKey ==> DeletedBy(s0, ops, k, s.tombs.byKey[k]))
  }

  lemma DeletedNext(s0: Db, ops: seq<Op>, op: Op, k: int, seqno: int)
    requires DeletedBy(s0, ops, k, seqno)
    ensures DeletedBy(s0, ops + [op], k, seqno)
  {
    if i :| 0 <= i < |ops| && ops[i] == Remove(k, seqno) { assert (ops + [op])[i] == Remove(k, seqno); }
  }

  /** A deletion has a positive number, and not that of the next write. */
  lemma DeletedApart(s0: Db, ops: seq<Op>, op: Op, k: int, seqno: int)
    requires Startable(s0) && NumberedFrom(s0, ops + [op]) && DeletedBy(s0, ops, k, seqno)
    ensures seqno > 0 && (!op.Get? ==> seqno != op.seqno)
  {
    var ops' := ops + [op];
    assert !op.Get? ==> NumberFree(s0, ops'[|ops|]);
    if i :| 0 <= i < |ops| && ops[i] == Remove(k, seqno) { assert ops'[i] == Remove(k, seqno) && ops'[|ops|] == op; }
  }

  lemma Roomy(s0: Db, s: Db, ops: seq<Op>, op: Op, maxSize: nat)
    requires Startable(s0) && Known(s0, s, ops) && NumberedFrom(s0, ops + [op]) && op.Remove?
    requires |DeletedKeys(s0, ops + [op])| <= maxSize && !NewerThan(s.tombs, op.key, op.seqno)
    ensures var t := Checked(s.tombs, op.key, op.seqno); var t' := Added(t, op.key, op.seqno, maxSize);
      InSync(t') && t'.byKey == t.byKey[op.key := op.seqno] && t'.byKey.Keys <= DeletedKeys(s0, ops + [op])
  {
    assert (ops + [op])[..|ops|] == ops;
    var t := Checked(s.tombs, op.key, op.seqno);
    CheckKeepsSync(s.tombs, op.key, op.seqno);
    forall k | k in t.byKey ensures t.byKey[k] != op.seqno { DeletedApart(s0, ops, op, k, t.byKey[k]); }
    RoomFor(t.byKey, op.key, DeletedKeys(s0, ops + [op]));
    Grown(t.byKey, op.key, op.seqno);
    InsertKeepsSync(t, op.key, op.seqno);
  }

  lemma PutDone(s: Db, op: Op, flag: bool)
    requires op.Put? && Disjoint(s) && InSync(s.tombs)
    ensures var s' := PutStep(s, op.key, op.val, op.seqno, flag);
      Done(s, s', op, flag) && InSync(s'.tombs) && s'.tombs.byKey.Keys <= s.tombs.byKey.Keys
  {
    CheckKeepsSync(s.tombs, op.key, op.seqno);
  }

  lemma RemoveDone(s: Db, op: Op, flag: bool, maxSize: nat)
    requires op.Remove? && Disjoint(s) && InSync(s.tombs)
    requires !NewerThan(s.tombs, op.key, op.seqno) ==>
      var t := Checked(s.tombs, op.key, op.seqno); var t' := Added(t, op.key, op.seqno, maxSize);
      InSync(t') && t'.byKey == t.byKey[op.key := op.seqno]
    ensures var s' := RemoveStep(s, op.key, op.seqno, flag, maxSize);
      Done(s, s', op, flag) && InSync(s'.tombs) && s'.tombs.byKey.Keys <= s.tombs.byKey.Keys + {op.key}
  {
    CheckKeepsSync(s.tombs, op.key, op.seqno);
    var t := Checked(s.tombs, op.key, op.seqno);
    if !NewerThan(s.tombs, op.key, op.seqno) { Took(s, t, Added(t, op.key, op.seqno, maxSize), op, flag); }
  }

  /** No newer deletion is known; `t` and `t'` are the deletions without the key's and with the new one. */
  lemma Took(s: Db, t: Tombs, t': Tombs, op: Op, flag: bool)
    requires op.Remove? && Disjoint(s) && !NewerThan(s.tombs, op.key, op.seqno)
    requires t.byKey == s.tombs.byKey - {op.key} && t'.byKey == t.byKey[op.key := op.seqno]
    ensures var s1 := s.(maxSeq := Raised(s.maxSeq, op.seqno));
      var s' := if flag && Outdated(s.data, op.key, op.seqno) then s1.(tombs := t)
        else s1.(data := s.data - {op.key}, tombs := t');
      Done(s, s', op, flag) && s'.tombs.byKey.Keys <= s.tombs.byKey.Keys + {op.key}
  {
  }

  lemma StepDone(s0: Db, s: Db, ops: seq<Op>, op: Op, flag: bool, maxSize: nat)
    requires Startable(s0) && Known(s0, s, ops) && NumberedFrom(s0, ops + [op])
    requires |DeletedKeys(s0, ops + [op])| <= maxSize
    ensures var s' := StoreStep(s, op, flag, maxSize);
      Done(s, s', op, flag) && InSync(s'.tombs) && s'.tombs.byKey.Keys <= DeletedKeys(s0, ops + [op])
  {
    assert (ops + [op])[..|ops|] == ops;
    match op
    case Put(_, _, _) => PutDone(s, op, flag);
    case Remove(_, _) =>
      if !NewerThan(s.tombs, op.key, op.seqno) { Roomy(s0, s, ops, op, maxSize); }
      RemoveDone(s, op, flag, maxSize);
    case Get(key) =>
      if key in s.tombs.byKey { DeletedApart(s0, ops, op, key, s.tombs.byKey[key]); }
  }

  lemma WinnerNext(s0: Db, ops: seq<Op>, op: Op, k: int)
    ensures var w := Winner(s0, ops, k);
      Winner(s0, ops + [op], k) == if Writes(op, k) && (w == None || w.value.seqno < op.seqno) then Some(op) else w
  {
    assert (ops + [op])[..|ops|] == ops;
  }

  lemma KnownNext(s0: Db, s: Db, s': Db, ops: seq<Op>, op: Op, flag: bool)
    requires Known(s0, s, ops) && Done(s, s', op, flag) && InSync(s'.tombs) && Disjoint(s')
    requires s'.tombs.byKey.Keys <= DeletedKeys(s0, ops + [op])
    ensures Known(s0, s', ops + [op])
  {
    forall k ensures NotNewer(s', k, Winner(s0, ops + [op], k)) {
      assert NotNewer(s, k, Winner(s0, ops, k));
      WinnerNext(s0, ops, op, k);
    }
    forall k | k in s'.tombs.byKey ensures DeletedBy(s0, ops + [op], k, s'.tombs.byKey[k]) {
      if k in s.tombs.byKey && s.tombs.byKey[k] == s'.tombs.byKey[k] {
        DeletedNext(s0, ops, op, k, s.tombs.byKey[k]);
      } else {
        assert (ops + [op])[|ops|] == Remove(k, s'.tombs.byKey[k]);
      }
    }
  }

  // ---------------------------------------------------------------- when the newest write stays

  /** An unchecked write of the key came after its newest one, a put. */
  ghost predicate Overwritten(s0: Db, ops: seq<Op>, flags: seq<bool>, key: int)
    requires |flags| == |ops|
  {
    Winner(s0, ops, key).Some? && Winner(s0, ops, key).value.Put? && exists j :: LateAt(s0, ops, flags, key, j)
  }

  ghost predicate LateAt(s0: Db, ops: seq<Op>, flags: seq<bool>, key: int, j: int)
    requires |flags| == |ops|
  {
    0 <= j < |ops| && !flags[j] && Writes(ops[j], key) && Winner(s0, ops[..j], key) == Winner(s0, ops, key)
  }

  /** It comes before, or it is the last one, older than the newest. */
  lemma LateNext(s0: Db, ops: seq<Op>, flags: seq<bool>, op: Op, flag: bool, key: int)
    requires |flags| == |ops| && Winner(s0, ops + [op], key) == Winner(s0, ops, key)
    ensures Overwritten(s0, ops + [op], flags + [flag], key) <==>
      || Overwritten(s0, ops, flags, key)
      || (!flag && Writes(op, key) && Winner(s0, ops, key).Some? && Winner(s0, ops, key).value.Put?)
  {
    var ops', flags', n := ops + [op], flags + [flag], |ops|;
    assert ops'[..n] == ops;
    forall j | 0 <= j < n ensures LateAt(s0, ops', flags', key, j) <==> LateAt(s0, ops, flags, key, j) {
      assert ops'[..j] == ops[..j];
    }
    assert LateAt(s0, ops', flags', key, n) <==> !flag && Writes(op, key);
    if Overwritten(s0, ops, flags, key) {
      var j :| LateAt(s0, ops, flags, key, j);
      assert LateAt(s0, ops', flags', key, j);
    }
    if Overwritten(s0, ops', flags', key) {
      var j :| LateAt(s0, ops', flags', key, j);
      if j < n { assert LateAt(s0, ops, flags, key, j); }
    }
  }

  /** The newest write is not there before it comes. */
  lemma NotLate(s0: Db, ops: seq<Op>, flags: seq<bool>, op: Op, flag: bool, key: int)
    requires |flags| == |ops| && NumberedFrom(s0, ops + [op]) && Writes(op, key)
    requires Winner(s0, ops + [op], key) == Some(op) && Winner(s0, ops, key) != Some(op)
    ensures !Overwritten(s0, ops + [op], flags + [flag], key)
  {
    var ops', n := ops + [op], |ops|;
    assert ops'[n] == op && NumberFree(s0, ops'[n]);
    assert forall i :: 0 <= i < n ==> ops'[i] != op;
    assert Initial(s0, key) != Some(op);
    forall j | 0 <= j <= n ensures Winner(s0, ops'[..j], key) != Some(op) { assert op !in ops'[..j]; }
  }

  /** One key, one operation. */
  lemma KeptNext(s0: Db, s: Db, s': Db, ops: seq<Op>, flags: seq<bool>, op: Op, flag: bool, key: int)
    requires |flags| == |ops| && Startable(s0) && NumberedFrom(s0, ops + [op])
    requires Disjoint(s) && NotNewer(s, key, Winner(s0, ops, key)) && Done(s, s', op, flag)
    requires Holds(s, key, Winner(s0, ops, key)) <==> !Overwritten(s0, ops, flags, key)
    ensures Holds(s', key, Winner(s0, ops + [op], key)) <==> !Overwritten(s0, ops + [op], flags + [flag], key)
  {
    var w := Winner(s0, ops, key);
    WinnerNext(s0, ops, op, key);
    if Writes(op, key) && (w == None || w.value.seqno < op.seqno) {
      NotLate(s0, ops, flags, op, flag, key);
    } else {
      LateNext(s0, ops, flags, op, flag, key);
      if Writes(op, key) {
        NotAgain(s0, ops, op, key);
        OlderComes(s, s', w.value, op, flag, key);
      }
    }
  }

  /** A write older than the newest: it gets through exactly if that is a put and unchecked, or is gone already. */
  lemma OlderComes(s: Db, s': Db, w: Op, op: Op, flag: bool, key: int)
    requires Disjoint(s) && Done(s, s', op, flag) && Writes(op, key) && Writes(w, key) && op.seqno < w.seqno
    requires w.Remove? ==> Holds(s, key, Some(w))
    ensures Holds(s', key, Some(w)) <==> Holds(s, key, Some(w)) && (w.Remove? || flag)
  {
  }

  /** From any start, in any run of checked and unchecked operations with room for its deletions: a key ends with its
      newest write if and only if that is a deletion, or no unchecked write of the key comes after it. */
  lemma {:induction false} KeptIff(s0: Db, ops: seq<Op>, flags: seq<bool>, key: int, maxSize: nat)
    requires |flags| == |ops| && Startable(s0) && NumberedFrom(s0, ops) && |DeletedKeys(s0, ops)| <= maxSize
    ensures Known(s0, RunEach(s0, ops, flags, maxSize), ops)
    ensures Holds(RunEach(s0, ops, flags, maxSize), key, Winner(s0, ops, key)) <==> !Overwritten(s0, ops, flags, key)
  {
    if ops == [] {
      KnownStart(s0);
    } else {
      var n := |ops| - 1;
      var pre, op, flag := ops[..n], ops[n], flags[n];
      assert ops == pre + [op] && flags == flags[..n] + [flag];
      Subset(DeletedKeys(s0, pre), DeletedKeys(s0, ops));
      KeptIff(s0, pre, flags[..n], key, maxSize);
      var s := RunEach(s0, pre, flags[..n], maxSize);
      StepDone(s0, s, pre, op, flag, maxSize);
      StepDisjoint(s, op, flag, maxSize);
      KnownNext(s0, s, StoreStep(s, op, flag, maxSize), pre, op, flag);
      KeptNext(s0, s, StoreStep(s, op, flag, maxSize), pre, flags[..n], op, flag, key);
    }
  }

  lemma KnownStart(s0: Db)
    requires Startable(s0)
    ensures Known(s0, s0, [])
  {
  }

  /** Every unchecked write of the key is newer than those before it. */
  ghost predicate InOrder(s0: Db, ops: seq<Op>, flags: seq<bool>, key: int)
    requires |flags| == |ops|
  {
    forall j :: 0 <= j < |ops| && !flags[j] && Writes(ops[j], key) ==> NewerAt(s0, ops, key, j)
  }

  ghost predicate NewerAt(s0: Db, ops: seq<Op>, key: int, j: int)
    requires 0 <= j < |ops| && !ops[j].Get?
  {
    Winner(s0, ops[..j], key).Some? ==> Winner(s0, ops[..j], key).value.seqno < ops[j].seqno
  }

  lemma OrderKeeps(s0: Db, ops: seq<Op>, flags: seq<bool>, key: int)
    requires |flags| == |ops| && InOrder(s0, ops, flags, key)
    ensures !Overwritten(s0, ops, flags, key)
  {
    WinnerIsNewest(s0, ops, key);
    assert forall j :: LateAt(s0, ops, flags, key, j) ==> NewerAt(s0, ops, key, j) && ops[j] in ops;
  }

  /** So `get` reports the newest write of a key whose unchecked writes come in the order of their numbers. */
  lemma InOrderReports(s0: Db, ops: seq<Op>, flags: seq<bool>, key: int, maxSize: nat)
    requires |flags| == |ops| && Startable(s0) && NumberedFrom(s0, ops) && |DeletedKeys(s0, ops)| <= maxSize
    requires InOrder(s0, ops, flags, key)
    ensures IsNewest(s0, ops, key, Winner(s0, ops, key))
    ensures GetAnswer(RunEach(s0, ops, flags, maxSize), key) ==
      match Winner(s0, ops, key)
      case None => Missing(0)
      case Some(op) => if op.Put? then Found(op.val, op.seqno) else Missing(op.seqno)
  {
    WinnerIsNewest(s0, ops, key);
    OrderKeeps(s0, ops, flags, key);
    KeptIff(s0, ops, flags, key, maxSize);
    var s := RunEach(s0, ops, flags, maxSize);
    if key in s.tombs.byKey { DeletedPositive(s0, ops, key, s.tombs.byKey[key]); }
  }

  lemma DeletedPositive(s0: Db, ops: seq<Op>, k: int, seqno: int)
    requires Startable(s0) && Numbered(ops) && DeletedBy(s0, ops, k, seqno)
    ensures seqno > 0
  {
  }

  /** Out of order the older one stays: two unchecked puts. */
  lemma OlderStays(maxSize: nat)
    ensures var s := RunEach(EMPTY, [Put(5, 7, 2), Put(5, 8, 1)], [false, false], maxSize);
      GetAnswer(s, 5) == Found(8, 1)
  {
    var ops, flags := [Put(5, 7, 2), Put(5, 8, 1)], [false, false];
    assert ops[..1] == [Put(5, 7, 2)] && flags[..1] == [false];
    assert ops[..1][..0] == [] && flags[..1][..0] == [];
    assert RunEach(EMPTY, ops[..1], flags[..1], maxSize) == StoreStep(EMPTY, Put(5, 7, 2), false, maxSize);
  }
}
