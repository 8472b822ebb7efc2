/** `RocksdbWrapper::get/put/remove` (common/rocksdb_wrapper.c:328-611): a database of sequence-numbered
    records beside the set of recent deletions. The database is an ordered map from key ranks. */
module Store {
  import opened Common
  import opened DeletedSets
  import opened Maps

  type Val = int
  datatype Rec = Rec(val: Val, seqno: int)

  datatype Db = Db(data: map<int, Rec>, tombs: Tombs, maxSeq: int)

  const EMPTY := Db(map[], NONE, 0)

  datatype Op = Put(key: int, val: Val, seqno: int) | Remove(key: int, seqno: int) | Get(key: int)

  predicate Writes(op: Op, key: int) { !op.Get? && op.key == key }

  function Raised(maxSeq: int, seqno: int): int { if seqno > maxSeq then seqno else maxSeq }

  /** The database has a newer record of the key. */
  predicate Outdated(data: map<int, Rec>, key: int, seqno: int) { key in data && data[key].seqno > seqno }

  /** `put` (lines 408-520), for the methods that keep deletions. */
  function PutStep(s: Db, key: int, val: Val, seqno: int, checkSeq: bool): Db {
    var s1 := s.(maxSeq := Raised(s.maxSeq, seqno));
    if NewerThan(s.tombs, key, seqno) then s1
    else
      var s2 := s1.(tombs := Checked(s.tombs, key, seqno));
      if checkSeq && Outdated(s.data, key, seqno) then s2
      else s2.(data := s.data[key := Rec(val, seqno)])
  }

  /** `remove` (lines 522-611). */
  function RemoveStep(s: Db, key: int, seqno: int, checkSeq: bool, maxSize: nat): Db {
    var s1 := s.(maxSeq := Raised(s.maxSeq, seqno));
    if NewerThan(s.tombs, key, seqno) then s1
    else
      var s2 := s1.(tombs := Checked(s.tombs, key, seqno));
      if checkSeq && Outdated(s.data, key, seqno) then s2
      else s2.(data := s.data - {key}, tombs := Added(s2.tombs, key, seqno, maxSize))
  }

  /** `get` (lines 328-406): it asks the deletions with sequence number 0, and so may drop one of number 0. */
  function GetStep(s: Db, key: int): Db {
    if key in s.data then s else s.(tombs := Checked(s.tombs, key, 0))
  }

  /** Whether a record was found, and the sequence number reported. */
  datatype Answer = Found(val: Val, seqno: int) | Missing(seqno: int)

  function GetAnswer(s: Db, key: int): Answer {
    if key in s.data then Found(s.data[key].val, s.data[key].seqno)
    else Missing(if key in s.tombs.byKey && s.tombs.byKey[key] > 0 then s.tombs.byKey[key] else 0)
  }

  function StoreStep(s: Db, op: Op, checkSeq: bool, maxSize: nat): Db {
    match op
    case Put(key, val, seqno) => PutStep(s, key, val, seqno, checkSeq)
    case Remove(key, seqno) => RemoveStep(s, key, seqno, checkSeq, maxSize)
    case Get(key) => GetStep(s, key)
  }

  function Run(s: Db, ops: seq<Op>, checkSeq: bool, maxSize: nat): Db {
    if ops == [] then s else StoreStep(Run(s, ops[..|ops| - 1], checkSeq, maxSize), ops[|ops| - 1], checkSeq, maxSize)
  }

  /** A run in which each operation has its own flag: `flags[i]` is `checkseq` of `ops[i]`. */
  function RunEach(s: Db, ops: seq<Op>, flags: seq<bool>, maxSize: nat): Db
    requires |flags| == |ops|
  {
    if ops == [] then s
    else
      var n := |ops| - 1;
      StoreStep(RunEach(s, ops[..n], flags[..n], maxSize), ops[n], flags[n], maxSize)
  }

  lemma {:induction false} RunIsEach(s: Db, ops: seq<Op>, flags: seq<bool>, maxSize: nat)
    requires |flags| == |ops| && forall i :: 0 <= i < |flags| ==> flags[i]
    ensures RunEach(s, ops, flags, maxSize) == Run(s, ops, true, maxSize)
  {
    if ops != [] { RunIsEach(s, ops[..|ops| - 1], flags[..|ops| - 1], maxSize); }
  }

  // ---------------------------------------------------------------- no key is both stored and deleted

  ghost predicate Disjoint(s: Db) { forall k :: k in s.data ==> k !in s.tombs.byKey }

  /** Whatever the sequence numbers, and with or without the check: also equal, zero and decreasing ones. */
  lemma StepDisjoint(s: Db, op: Op, checkSeq: bool, maxSize: nat)
    requires Disjoint(s)
    ensures Disjoint(StoreStep(s, op, checkSeq, maxSize))
  {
  }

  lemma {:induction false} RunDisjoint(s: Db, ops: seq<Op>, checkSeq: bool, maxSize: nat)
    requires Disjoint(s)
    ensures Disjoint(Run(s, ops, checkSeq, maxSize))
  {
    if ops != [] {
      RunDisjoint(s, ops[..|ops| - 1], checkSeq, maxSize);
      StepDisjoint(Run(s, ops[..|ops| - 1], checkSeq, maxSize), ops[|ops| - 1], checkSeq, maxSize);
    }
  }

  // ---------------------------------------------------------------- the newest operation wins

  /** Writes have positive sequence numbers, all different. */
  ghost predicate Numbered(ops: seq<Op>) {
    && (forall i :: 0 <= i < |ops| && !ops[i].Get? ==> ops[i].seqno > 0)
    && (forall i, j :: 0 <= i < j < |ops| && !ops[i].Get? && !ops[j].Get? ==> ops[i].seqno != ops[j].seqno)
  }

  function RemovedKeys(ops: seq<Op>): set<int> {
    if ops == [] then {}
        else RemovedKeys(ops[..|ops| - 1]) + (if ops[|ops| - 1].Remove? then {ops[|ops| - 1].key} else {})
  }

  /** What the store held at the start, as a write before all others. */
  ghost function Initial(s0: Db, key: int): (w: Option<Op>)
    ensures w.Some? ==> Writes(w.value, key)
  {
    if key in s0.data then Some(Put(key, s0.data[key].val, s0.data[key].seqno))
    else if key in s0.tombs.byKey then Some(Remove(key, s0.tombs.byKey[key]))
    else None
  }

  /** A store to start from: no key both stored and deleted, the deletions numbered and in sync. Records may have
      any number; the loader gives them 0. */
  ghost predicate Startable(s0: Db) {
    Disjoint(s0) && InSync(s0.tombs) && forall k :: k in s0.tombs.byKey ==> s0.tombs.byKey[k] > 0
  }

  /** As the loader leaves it: every record has number 0 and nothing is deleted. */
  ghost predicate JustLoaded(s0: Db) { s0.tombs == NONE && forall k :: k in s0.data ==> s0.data[k].seqno == 0 }

  lemma LoadedIsStart(s0: Db, ops: seq<Op>)
    requires JustLoaded(s0) && Numbered(ops)
    ensures Startable(s0) && NumberedFrom(s0, ops)
  {
  }

  /** The writes have numbers of their own, also apart from what the store starts with. */
  ghost predicate NumberedFrom(s0: Db, ops: seq<Op>) {
    Numbered(ops) && forall i :: 0 <= i < |ops| && !ops[i].Get? ==> NumberFree(s0, ops[i])
  }

  ghost predicate NumberFree(s0: Db, op: Op)
    requires !op.Get?
  {
    && (op.key in s0.data ==> s0.data[op.key].seqno != op.seqno)
    && (forall k :: k in s0.tombs.byKey ==> s0.tombs.byKey[k] != op.seqno)
  }

  /** The newest write of a key, taken in order. */
  ghost function Winner(s0: Db, ops: seq<Op>, key: int): (w: Option<Op>)
    ensures w.Some? ==> Writes(w.value, key) && (w.value in ops || w == Initial(s0, key))
  {
    if ops == [] then Initial(s0, key)
    else
      var w, op := Winner(s0, ops[..|ops| - 1], key), ops[|ops| - 1];
      if Writes(op, key) && (w == None || w.value.seqno < op.seqno) then Some(op) else w
  }

  ghost predicate IsNewest(s0: Db, ops: seq<Op>, key: int, w: Option<Op>) {
    match w
    case None => Initial(s0, key) == None && forall o :: o in ops ==> !Writes(o, key)
    case Some(op) =>
      && Writes(op, key) && (op in ops || w == Initial(s0, key))
      && (forall o :: o in ops && Writes(o, key) ==> o.seqno <= op.seqno)
      && (Initial(s0, key).Some? ==> Initial(s0, key).value.seqno <= op.seqno)
  }

  /** Whatever the order: the winner is the write with the largest sequence number. */
  lemma {:induction false} WinnerIsNewest(s0: Db, ops: seq<Op>, key: int)
    ensures IsNewest(s0, ops, key, Winner(s0, ops, key))
  {
    if ops != [] {
      var n := |ops| - 1;
      WinnerIsNewest(s0, ops[..n], key);
      assert ops == ops[..n] + [ops[n]];
    }
  }

  /** What the store must hold of a key. */
  ghost predicate Holds(s: Db, key: int, w: Option<Op>) {
    match w
    case None => key !in s.data && key !in s.tombs.byKey
    case Some(op) =>
      if op.Put? then key in s.data && s.data[key] == Rec(op.val, op.seqno) && key !in s.tombs.byKey
      else op.Remove? && key !in s.data && key in s.tombs.byKey && s.tombs.byKey[key] == op.seqno
  }

  /** Keys whose deletion may have to be remembered. */
  ghost function DeletedKeys(s0: Db, ops: seq<Op>): set<int> { s0.tombs.byKey.Keys + RemovedKeys(ops) }

  ghost predicate Settled(s0: Db, s: Db, ops: seq<Op>) {
    && InSync(s.tombs) && s.tombs.byKey.Keys <= DeletedKeys(s0, ops)
    && forall k :: Holds(s, k, Winner(s0, ops, k))
  }

  lemma PutSettles(s0: Db, s: Db, ops: seq<Op>, op: Op)
    requires Startable(s0) && Settled(s0, s, ops) && NumberedFrom(s0, ops + [op]) && op.Put?
    ensures Settled(s0, PutStep(s, op.key, op.val, op.seqno, true), ops + [op])
  {
    var ops', s', key := ops + [op], PutStep(s, op.key, op.val, op.seqno, true), op.key;
    assert ops'[..|ops|] == ops;
    CheckKeepsSync(s.tombs, key, op.seqno);
    assert Holds(s, key, Winner(s0, ops, key));
    NotAgain(s0, ops, op, key);
    forall k ensures Holds(s', k, Winner(s0, ops', k)) { assert Holds(s, k, Winner(s0, ops, k)); }
  }

  /** The winner so far has another sequence number. */
  lemma NotAgain(s0: Db, ops: seq<Op>, op: Op, key: int)
    requires Startable(s0) && NumberedFrom(s0, ops + [op])
    requires op.Get? || op.key == key || (Winner(s0, ops, key).Some? && Winner(s0, ops, key).value.Remove?)
    ensures var w := Winner(s0, ops, key);
      w.Some? ==> (!op.Get? ==> w.value.seqno != op.seqno) && (w.value.Remove? ==> w.value.seqno > 0)
  {
    var w := Winner(s0, ops, key);
    assert !op.Get? ==> NumberFree(s0, (ops + [op])[|ops|]);
    if w.Some? && w.value in ops {
      var i :| 0 <= i < |ops| && ops[i] == w.value;
      assert (ops + [op])[i] == w.value && (ops + [op])[|ops|] == op;
    }
  }

  /** A deletion that is not outdated is remembered and pushes no other out. */
  lemma Remembered(s0: Db, s: Db, ops: seq<Op>, op: Op, maxSize: nat)
    requires Startable(s0) && Settled(s0, s, ops) && NumberedFrom(s0, ops + [op]) && op.Remove? &&
      |DeletedKeys(s0, ops + [op])| <= maxSize
    requires !NewerThan(s.tombs, op.key, op.seqno)
    ensures var t := Checked(s.tombs, op.key, op.seqno); var t' := Added(t, op.key, op.seqno, maxSize);
      InSync(t') && t'.byKey == t.byKey[op.key := op.seqno] && t'.byKey.Keys <= DeletedKeys(s0, ops + [op])
  {
    assert (ops + [op])[..|ops|] == ops;
    var t := Checked(s.tombs, op.key, op.seqno);
    CheckKeepsSync(s.tombs, op.key, op.seqno);
    forall k | k in t.byKey ensures t.byKey[k] != op.seqno {
      assert Holds(s, k, Winner(s0, ops, k));
      NotAgain(s0, ops, op, k);
    }
    RoomFor(t.byKey, op.key, DeletedKeys(s0, ops + [op]));
    Grown(t.byKey, op.key, op.seqno);
    InsertKeepsSync(t, op.key, op.seqno);
  }

  ghost predicate SameBut<V>(m: map<int, V>, m': map<int, V>, key: int) {
    forall k :: k != key ==> (k in m <==> k in m') && (k in m ==> m[k] == m'[k])
  }

  /** The three outcomes of `remove`. */
  ghost predicate Removed(s: Db, s': Db, key: int, seqno: int) {
    && SameBut(s.data, s'.data, key) && SameBut(s.tombs.byKey, s'.tombs.byKey, key)
    && (if NewerThan(s.tombs, key, seqno) then s'.data == s.data && s'.tombs == s.tombs
        else if Outdated(s.data, key, seqno) then s'.data == s.data && key !in s'.tombs.byKey
        else key !in s'.data && key in s'.tombs.byKey && s'.tombs.byKey[key] == seqno)
  }

  lemma RemoveGives(s: Db, key: int, seqno: int, maxSize: nat)
    requires !NewerThan(s.tombs, key, seqno) ==>
      Added(Checked(s.tombs, key, seqno), key, seqno, maxSize).byKey == Checked(s.tombs, key, seqno).byKey[key := seqno]
    ensures Removed(s, RemoveStep(s, key, seqno, true, maxSize), key, seqno)
  {
  }

  lemma RemoveHolds(s: Db, s': Db, w: Option<Op>, op: Op, k: int)
    requires op.Remove? && Holds(s, k, w) && Removed(s, s', op.key, op.seqno)
    requires w.Some? ==> Writes(w.value, k) && (op.key == k ==> w.value.seqno != op.seqno)
    ensures Holds(s', k, if Writes(op, k) && (w == None || w.value.seqno < op.seqno) then Some(op) else w)
  {
  }

  lemma RemoveSettles(s0: Db, s: Db, ops: seq<Op>, op: Op, maxSize: nat)
    requires Startable(s0) && Settled(s0, s, ops) && NumberedFrom(s0, ops + [op]) && op.Remove? &&
      |DeletedKeys(s0, ops + [op])| <= maxSize
    ensures Settled(s0, RemoveStep(s, op.key, op.seqno, true, maxSize), ops + [op])
  {
    var s' := RemoveStep(s, op.key, op.seqno, true, maxSize);
    if !NewerThan(s.tombs, op.key, op.seqno) { Remembered(s0, s, ops, op, maxSize); }
    RemoveGives(s, op.key, op.seqno, maxSize);
    CheckKeepsSync(s.tombs, op.key, op.seqno);
    assert (ops + [op])[..|ops|] == ops;
    assert s'.tombs.byKey.Keys <= DeletedKeys(s0, ops + [op]);
    NotAgain(s0, ops, op, op.key);
    forall k ensures Holds(s', k, Winner(s0, ops + [op], k)) {
      assert Holds(s, k, Winner(s0, ops, k));
      RemoveHolds(s, s', Winner(s0, ops, k), op, k);
    }
  }

  lemma RoomFor(m: map<int, int>, key: int, keys: set<int>)
    requires m.Keys <= keys && key in keys && key !in m
    ensures |m| + 1 <= |keys|
  {
    assert m.Keys <= keys - {key};
    Subset(m.Keys, keys - {key});
  }

  lemma GetSettles(s0: Db, s: Db, ops: seq<Op>, op: Op)
    requires Startable(s0) && Settled(s0, s, ops) && NumberedFrom(s0, ops + [op]) && op.Get?
    ensures Settled(s0, GetStep(s, op.key), ops + [op])
  {
    var ops' := ops + [op];
    assert ops'[..|ops|] == ops;
    assert Holds(s, op.key, Winner(s0, ops, op.key));
    NotAgain(s0, ops, op, op.key);
    forall k ensures Holds(s, k, Winner(s0, ops', k)) { assert Holds(s, k, Winner(s0, ops, k)); }
  }

  /** From any start, after any run, every key holds its newest write. */
  lemma {:induction false} RunSettles(s0: Db, ops: seq<Op>, maxSize: nat)
    requires Startable(s0) && NumberedFrom(s0, ops) && |DeletedKeys(s0, ops)| <= maxSize
    ensures Settled(s0, Run(s0, ops, true, maxSize), ops)
  {
    if ops != [] {
      var n := |ops| - 1;
      var op := ops[n];
      assert ops == ops[..n] + [op];
      Subset(DeletedKeys(s0, ops[..n]), DeletedKeys(s0, ops));
      RunSettles(s0, ops[..n], maxSize);
      var s := Run(s0, ops[..n], true, maxSize);
      match op
      case Put(_, _, _) => PutSettles(s0, s, ops[..n], op);
      case Remove(_, _) => RemoveSettles(s0, s, ops[..n], op, maxSize);
      case Get(_) => GetSettles(s0, s, ops[..n], op);
    }
  }

  // ---------------------------------------------------------------- order does not matter

  /** `m` is the largest of `m0` and the numbers of the writes. */
  ghost predicate IsMaxSeq(m0: int, ops: seq<Op>, m: int) {
    && m >= m0 && (m == m0 || exists o :: o in ops && !o.Get? && o.seqno == m)
    && forall o :: o in ops && !o.Get? ==> o.seqno <= m
  }

  lemma MaxSeqNext(m0: int, ops: seq<Op>, m: int, op: Op)
    requires IsMaxSeq(m0, ops, m)
    ensures IsMaxSeq(m0, ops + [op], if !op.Get? && op.seqno > m then op.seqno else m)
  {
    assert forall o :: o in ops + [op] <==> o in ops || o == op;
  }

  /** Refused or not, and with or without the check, every write counts for the largest number. */
  lemma {:induction false} MaxSeqIs(s0: Db, ops: seq<Op>, flags: seq<bool>, maxSize: nat)
    requires |flags| == |ops|
    ensures IsMaxSeq(s0.maxSeq, ops, RunEach(s0, ops, flags, maxSize).maxSeq)
  {
    if ops != [] {
      var n := |ops| - 1;
      MaxSeqIs(s0, ops[..n], flags[..n], maxSize);
      MaxSeqNext(s0.maxSeq, ops[..n], RunEach(s0, ops[..n], flags[..n], maxSize).maxSeq, ops[n]);
      assert ops == ops[..n] + [ops[n]];
    }
  }

  lemma MaxSeqOf(s0: Db, ops: seq<Op>, maxSize: nat)
    ensures IsMaxSeq(s0.maxSeq, ops, Run(s0, ops, true, maxSize).maxSeq)
  {
    var flags := seq(|ops|, _ => true);
    MaxSeqIs(s0, ops, flags, maxSize);
    RunIsEach(s0, ops, flags, maxSize);
  }

  lemma SameWinner(s0: Db, a: seq<Op>, b: seq<Op>, key: int)
    requires NumberedFrom(s0, a) && NumberedFrom(s0, b) && forall o :: o in a <==> o in b
    ensures Winner(s0, a, key) == Winner(s0, b, key)
  {
    WinnerIsNewest(s0, a, key);
    WinnerIsNewest(s0, b, key);
    var v, w := Winner(s0, a, key), Winner(s0, b, key);
    if v.Some? && w.Some? {
      if v.value in a { var i :| 0 <= i < |a| && a[i] == v.value; assert NumberFree(s0, a[i]); }
      if w.value in a { var j :| 0 <= j < |a| && a[j] == w.value; assert NumberFree(s0, a[j]); }
    }
  }

  lemma {:induction false} RemovedIs(ops: seq<Op>, k: int)
    ensures k in RemovedKeys(ops) <==> exists o :: o in ops && o.Remove? && o.key == k
  {
    if ops != [] {
      var n := |ops| - 1;
      RemovedIs(ops[..n], k);
      assert forall o :: o in ops <==> o in ops[..n] || o == ops[n];
    }
  }

  lemma SameRemoved(a: seq<Op>, b: seq<Op>)
    requires forall o :: o in a <==> o in b
    ensures RemovedKeys(a) == RemovedKeys(b)
  {
    forall k ensures k in RemovedKeys(a) <==> k in RemovedKeys(b) {
      RemovedIs(a, k);
      RemovedIs(b, k);
    }
  }

  /** Every order of the same reads and writes ends in the same database and the same deletions. */
  lemma {:induction false} Converges(s0: Db, a: seq<Op>, b: seq<Op>, maxSize: nat)
    requires Startable(s0) && multiset(a) == multiset(b) && NumberedFrom(s0, a) && NumberedFrom(s0, b)
    requires |DeletedKeys(s0, a)| <= maxSize
    ensures Run(s0, a, true, maxSize) == Run(s0, b, true, maxSize)
  {
    var s, t := Run(s0, a, true, maxSize), Run(s0, b, true, maxSize);
    assert forall o :: o in a <==> o in multiset(a);
    assert forall o :: o in b <==> o in multiset(b);
    SameRemoved(a, b);
    RunSettles(s0, a, maxSize);
    RunSettles(s0, b, maxSize);
    forall k ensures Winner(s0, a, k) == Winner(s0, b, k) && Holds(s, k, Winner(s0, a, k)) &&
        Holds(t, k, Winner(s0, a, k)) {
      SameWinner(s0, a, b, k);
    }
    SameHeld(s0, s, t, a);
    MaxSeqOf(s0, a, maxSize);
    MaxSeqOf(s0, b, maxSize);
  }

  lemma SameHeld(s0: Db, s: Db, t: Db, ops: seq<Op>)
    requires InSync(s.tombs) && InSync(t.tombs) && forall k ::
      Holds(s, k, Winner(s0, ops, k)) && Holds(t, k, Winner(s0, ops, k))
    ensures s.data == t.data && s.tombs == t.tombs
  {
    forall k ensures k in s.data <==> k in t.data { assert Holds(s, k, Winner(s0, ops, k)); }
    forall k | k in s.data ensures s.data[k] == t.data[k] { assert Holds(s, k, Winner(s0, ops, k)); }
    SameMap(s.data, t.data);
    forall k ensures k in s.tombs.byKey <==> k in t.tombs.byKey { assert Holds(s, k, Winner(s0, ops, k)); }
    forall k | k in s.tombs.byKey ensures s.tombs.byKey[k] == t.tombs.byKey[k] {
      assert Holds(s, k, Winner(s0, ops, k));
    }
    SameMap(s.tombs.byKey, t.tombs.byKey);
    SameInverse(s.tombs, t.tombs);
    SameInverse(t.tombs, s.tombs);
    SameMap(s.tombs.bySeq, t.tombs.bySeq);
  }

  /** `get` reports the newest write: its value and number, or the number of the deletion. */
  lemma {:induction false} GetReports(s0: Db, ops: seq<Op>, key: int, maxSize: nat)
    requires Startable(s0) && NumberedFrom(s0, ops) && |DeletedKeys(s0, ops)| <= maxSize
    ensures IsNewest(s0, ops, key, Winner(s0, ops, key))
    ensures GetAnswer(Run(s0, ops, true, maxSize), key) ==
      match Winner(s0, ops, key)
      case None => Missing(0)
      case Some(op) => if op.Put? then Found(op.val, op.seqno) else Missing(op.seqno)
  {
    RunSettles(s0, ops, maxSize);
    assert Holds(Run(s0, ops, true, maxSize), key, Winner(s0, ops, key));
    WinnerIsNewest(s0, ops, key);
    assert (ops + [Get(key)])[..|ops|] == ops;
    NotAgain(s0, ops, Get(key), key);
  }

  // ---------------------------------------------------------------- the limit is tight

  /** Keys 0, 1, ... deleted with numbers 2, 3, ... */
  function Removals(n: nat): (ops: seq<Op>)
    ensures |ops| == n && forall i :: 0 <= i < n ==> ops[i] == Remove(i, i + 2)
  {
    if n == 0 then [] else Removals(n - 1) + [Remove(n - 1, n + 1)]
  }

  /** Deleting a key that is neither stored nor remembered. */
  lemma RemoveNew(s: Db, key: int, seqno: int, maxSize: nat)
    requires InSync(s.tombs) && UnusedSeq(s.tombs, key, seqno) && key !in s.tombs.byKey && key !in s.data
    ensures var s' := RemoveStep(s, key, seqno, true, maxSize);
      && s'.data == s.data && InSync(s'.tombs) && Remembers(s.tombs.byKey, s'.tombs.byKey, key, seqno, maxSize)
  {
    AddKeepsSync(s.tombs, key, seqno, maxSize);
    assert s.data - {key} == s.data;
  }

  /** Exactly the keys below `n` are remembered, key `k` with number `k + 2`. */
  ghost predicate Counted(m: map<int, int>, n: nat) {
    |m| == n && (forall k :: k in m <==> 0 <= k < n) && forall k :: k in m ==> m[k] == k + 2
  }

  lemma RunNext(ops: seq<Op>, op: Op, maxSize: nat)
    ensures Run(EMPTY, ops + [op], true, maxSize) == StoreStep(Run(EMPTY, ops, true, maxSize), op, true, maxSize)
  {
    assert (ops + [op])[..|ops|] == ops;
  }

  lemma CountedNext(s: Db, n: nat, maxSize: nat)
    requires s.data == map[] && InSync(s.tombs) && Counted(s.tombs.byKey, n) && n < maxSize
    ensures var s' := RemoveStep(s, n, n + 2, true, maxSize);
      s'.data == map[] && InSync(s'.tombs) && Counted(s'.tombs.byKey, n + 1)
  {
    RemoveNew(s, n, n + 2, maxSize);
    Grown(s.tombs.byKey, n, n + 2);
  }

  lemma {:induction false} AllRemembered(n: nat, maxSize: nat)
    requires n <= maxSize
    ensures var s := Run(EMPTY, Removals(n), true, maxSize);
      s.data == map[] && InSync(s.tombs) && Counted(s.tombs.byKey, n)
  {
    if n > 0 {
      AllRemembered(n - 1, maxSize);
      RunNext(Removals(n - 1), Remove(n - 1, n + 1), maxSize);
      CountedNext(Run(EMPTY, Removals(n - 1), true, maxSize), n - 1, maxSize);
    }
  }

  /** Keys 0 to `maxSize` are deleted, then the stale write of key 0 arrives, then the other keys below `n` go. */
  function TooMany(maxSize: nat, n: nat): seq<Op>
    requires n > maxSize
    decreases n
  {
    if n == maxSize + 1 then Removals(n) + [Put(0, 7, 1)] else TooMany(maxSize, n - 1) + [Remove(n - 1, n + 1)]
  }

  lemma {:induction false} TooManyOps(maxSize: nat, n: nat)
    requires n > maxSize
    ensures forall o ::
      o in TooMany(maxSize, n) ==> o == Put(0, 7, 1) || (o.Remove? && 0 <= o.key < n && o.seqno == o.key + 2)
    ensures Remove(0, 2) in TooMany(maxSize, n)
    decreases n
  {
    if n == maxSize + 1 {
      assert TooMany(maxSize, n)[0] == Remove(0, 2);
    } else {
      TooManyOps(maxSize, n - 1);
    }
  }

  /** `n` deleted keys, the numbers below `n`. */
  ghost predicate DeletesBelow(ops: seq<Op>, n: nat) {
    |RemovedKeys(ops)| == n && forall k :: k in RemovedKeys(ops) ==> 0 <= k < n
  }

  lemma DeleteNext(ops: seq<Op>, n: nat)
    requires DeletesBelow(ops, n)
    ensures DeletesBelow(ops + [Remove(n, n + 2)], n + 1)
  {
    assert (ops + [Remove(n, n + 2)])[..|ops|] == ops;
    assert RemovedKeys(ops + [Remove(n, n + 2)]) == RemovedKeys(ops) + {n};
  }

  lemma PutNext(ops: seq<Op>, n: nat, key: int, val: Val, seqno: int)
    requires DeletesBelow(ops, n)
    ensures DeletesBelow(ops + [Put(key, val, seqno)], n)
  {
    assert (ops + [Put(key, val, seqno)])[..|ops|] == ops;
  }

  lemma {:induction false} CountRemovals(n: nat)
    ensures DeletesBelow(Removals(n), n)
  {
    if n > 0 {
      CountRemovals(n - 1);
      DeleteNext(Removals(n - 1), n - 1);
    }
  }

  lemma {:induction false} TooManyKeys(maxSize: nat, n: nat)
    requires n > maxSize
    ensures DeletesBelow(TooMany(maxSize, n), n)
    decreases n
  {
    if n == maxSize + 1 {
      CountRemovals(n);
      PutNext(Removals(n), n, 0, 7, 1);
    } else {
      TooManyKeys(maxSize, n - 1);
      DeleteNext(TooMany(maxSize, n - 1), n - 1);
    }
  }

  lemma NumberedNext(ops: seq<Op>, op: Op)
    requires Numbered(ops) && !op.Get? && op.seqno > 0 && forall o :: o in ops && !o.Get? ==> o.seqno != op.seqno
    ensures Numbered(ops + [op])
  {
    forall i | 0 <= i < |ops| && !ops[i].Get? ensures ops[i].seqno != op.seqno { assert ops[i] in ops; }
  }

  lemma {:induction false} TooManyNumbered(maxSize: nat, n: nat)
    requires n > maxSize
    ensures Numbered(TooMany(maxSize, n))
    decreases n
  {
    if n == maxSize + 1 {
      NumberedNext(Removals(n), Put(0, 7, 1));
    } else {
      TooManyNumbered(maxSize, n - 1);
      TooManyOps(maxSize, n - 1);
      NumberedNext(TooMany(maxSize, n - 1), Remove(n - 1, n + 1));
    }
  }

  /** The stale write comes back and stays. */
  lemma RevivedFirst(maxSize: nat)
    ensures 0 in Run(EMPTY, TooMany(maxSize, maxSize + 1), true, maxSize).data
  {
    AllRemembered(maxSize, maxSize);
    RunNext(Removals(maxSize), Remove(maxSize, maxSize + 2), maxSize);
    ForgetsFirst(Run(EMPTY, Removals(maxSize), true, maxSize), maxSize);
    RunNext(Removals(maxSize + 1), Put(0, 7, 1), maxSize);
  }

  /** Deletions of other keys leave it there. */
  lemma StepStays(s: Db, op: Op, maxSize: nat)
    requires 0 in s.data && op.Remove? && op.key != 0
    ensures 0 in StoreStep(s, op, true, maxSize).data
  {
  }

  lemma {:induction false} RevivedStays(s: Db, more: seq<Op>, maxSize: nat)
    requires 0 in s.data && forall o :: o in more ==> o.Remove? && o.key != 0
    ensures 0 in Run(s, more, true, maxSize).data
  {
    if more != [] {
      var n := |more| - 1;
      RevivedStays(s, more[..n], maxSize);
      assert more[n] in more;
      StepStays(Run(s, more[..n], true, maxSize), more[n], maxSize);
    }
  }

  lemma {:induction false} RunConcat(a: seq<Op>, b: seq<Op>, maxSize: nat)
    ensures Run(EMPTY, a + b, true, maxSize) == Run(Run(EMPTY, a, true, maxSize), b, true, maxSize)
  {
    if b == [] {
      assert a + b == a;
    } else {
      var n := |b| - 1;
      RunConcat(a, b[..n], maxSize);
      assert (a + b)[..|a + b| - 1] == a + b[..n];
    }
  }

  lemma {:induction false} TooManySplit(maxSize: nat, n: nat) returns (more: seq<Op>)
    requires n > maxSize
    ensures TooMany(maxSize, n) == TooMany(maxSize, maxSize + 1) + more && forall o ::
      o in more ==> o.Remove? && o.key != 0
    decreases n
  {
    if n == maxSize + 1 {
      more := [];
    } else {
      more := TooManySplit(maxSize, n - 1);
      more := more + [Remove(n - 1, n + 1)];
    }
  }

  /** Every run with `n` deleted keys ends with every key holding its newest write if and only if the set of deletions
      has room for `n`. */
  lemma SettlesIff(n: nat, maxSize: nat)
    ensures (forall ops ::
      Numbered(ops) && |RemovedKeys(ops)| == n ==> Settled(EMPTY, Run(EMPTY, ops, true, maxSize), ops)) <==>
      n <= maxSize
  {
    if n <= maxSize {
      forall ops | Numbered(ops) && |RemovedKeys(ops)| == n
          ensures Settled(EMPTY, Run(EMPTY, ops, true, maxSize), ops) {
        assert DeletedKeys(EMPTY, ops) == RemovedKeys(ops);
        RunSettles(EMPTY, ops, maxSize);
      }
    } else {
      var ops := TooMany(maxSize, n);
      TooManyNumbered(maxSize, n);
      TooManyKeys(maxSize, n);
      var more := TooManySplit(maxSize, n);
      RevivedFirst(maxSize);
      RunConcat(TooMany(maxSize, maxSize + 1), more, maxSize);
      RevivedStays(Run(EMPTY, TooMany(maxSize, maxSize + 1), true, maxSize), more, maxSize);
      NotSettled(n, maxSize, ops);
    }
  }

  lemma NotSettled(n: nat, maxSize: nat, ops: seq<Op>)
    requires n > maxSize && ops == TooMany(maxSize, n) && 0 in Run(EMPTY, ops, true, maxSize).data
    ensures !Settled(EMPTY, Run(EMPTY, ops, true, maxSize), ops)
  {
    TooManyOps(maxSize, n);
    WinnerIsNewest(EMPTY, ops, 0);
    assert Winner(EMPTY, ops, 0) == Some(Remove(0, 2));
    assert !Holds(Run(EMPTY, ops, true, maxSize), 0, Winner(EMPTY, ops, 0));
  }

  lemma ForgetsFirst(s: Db, n: nat)
    requires s.data == map[] && InSync(s.tombs) && Counted(s.tombs.byKey, n)
    ensures var s' := RemoveStep(s, n, n + 2, true, n); s'.data == map[] && 0 !in s'.tombs.byKey
  {
    RemoveNew(s, n, n + 2, n);
    ForgetsOldest(s.tombs.byKey, RemoveStep(s, n, n + 2, true, n).tombs.byKey, n);
  }

  lemma ForgetsOldest(m: map<int, int>, m': map<int, int>, n: nat)
    requires Counted(m, n) && Remembers(m, m', n, n + 2, n)
    ensures 0 !in m'
  {
    var k :| Oldest(m[n := n + 2], k) && m' == m[n := n + 2] - {k};
    assert 0 in m[n := n + 2];
  }
}
