/** What the files of the snapshots mean over whole runs (common/rocksdb_wrapper.c:809-1103): the largest sequence
    number they bring back, the in-switch records, and which of them are there. */
module SnapshotFiles {
  import opened DeletedSets
  import opened Store
  import opened RangeScans
  import opened Snapshots

  // ---------------------------------------------------------------- the largest sequence number

  /** The step loads files of a snapshot. */
  predicate Loads(w: Wrapper, a: Act) {
    match a
    case Clean(at) => at == InitStep(w).id
    case Update(_, _) => w.latest == NoSnap
    case _ => false
  }

  ghost predicate WriteAt(acts: seq<Act>, k: int, seqno: int) {
    0 <= k < |acts| && acts[k].Access? && !acts[k].op.Get? && acts[k].op.seqno == seqno
  }

  /** `m` is the largest of `m0` and the numbers written from step `i` on and before step `j`. */
  ghost predicate LargestSince(acts: seq<Act>, i: nat, j: nat, m0: int, m: int) {
    && m >= m0 && (m == m0 || exists k :: i <= k < j && WriteAt(acts, k, m))
    && forall k, seqno :: i <= k < j && WriteAt(acts, k, seqno) ==> seqno <= m
  }

  /** While no files are loaded the largest number is that of all writes, refused or not, checked or not. */
  lemma {:induction false} SeqSince(run: seq<Wrapper>, acts: seq<Act>, i: nat, j: nat, maxSize: nat)
    requires IsRun(run, acts, maxSize) && i <= j < |run| && forall k :: i <= k < j ==> !Loads(run[k], acts[k])
    ensures LargestSince(acts, i, j, run[i].db.maxSeq, run[j].db.maxSeq)
  {
    if i < j {
      SeqSince(run, acts, i, j - 1, maxSize);
      assert StepAt(run, acts, j - 1, maxSize);
      var m0, m, m' := run[i].db.maxSeq, run[j - 1].db.maxSeq, run[j].db.maxSeq;
      if m' != m {
        assert WriteAt(acts, j - 1, m');
      } else if m != m0 {
        var k :| i <= k < j - 1 && WriteAt(acts, k, m);
        assert i <= k < j && WriteAt(acts, k, m');
      }
    }
  }

  lemma LoadIs(run: seq<Wrapper>, acts: seq<Act>, l: nat, maxSize: nat) returns (n: int)
    requires IsRun(run, acts, maxSize) && run[0] == Fresh() && l < |acts| && Loads(run[l], acts[l])
    ensures n in run[l].disk && LoadsAt(run, acts, l, n, run[l].disk[n])
    ensures run[l + 1].db.maxSeq == run[l].disk[n].maxSeq && InUse(run[l + 1], run[l].disk[n], run[l].db.data)
  {
    assert StepAt(run, acts, l, maxSize);
    RunDiskOk(run, acts, l, maxSize);
    n := if acts[l].Clean? then acts[l].at - 1 else acts[l].at;
  }

  /** A load brings back the largest number of the moment at which the files were written; from there on it is the
      largest of that and what was written since the load. */
  lemma SeqAfterLoad(run: seq<Wrapper>, acts: seq<Act>, l: nat, j: nat, maxSize: nat) returns (k: nat, n: int, f: Files)
    requires IsRun(run, acts, maxSize) && run[0] == Fresh() && l < j < |run| && Loads(run[l], acts[l])
    requires forall m :: l < m < j ==> !Loads(run[m], acts[m])
    ensures k < l && LoadsAt(run, acts, l, n, f) && WroteAt(run, acts, l, k, n, f)
    ensures LargestSince(acts, l + 1, j, run[k].db.maxSeq, run[j].db.maxSeq)
  {
    n := LoadIs(run, acts, l, maxSize);
    f := run[l].disk[n];
    k := DiskWritten(run, acts, l, n, maxSize);
    SeqSince(run, acts, l + 1, j, maxSize);
  }

  // ---------------------------------------------------------------- the in-switch records

  ghost predicate UpdatesAt(acts: seq<Act>, k: int, n: int) { 0 <= k < |acts| && acts[k].Update? && acts[k].at == n }

  /** Before step `i`, `c` are the in-switch records of the last update to snapshot `n`; the initial snapshot, to
      which there is no update, has none. */
  ghost predicate RecordsOf(acts: seq<Act>, i: nat, n: int, c: map<int, SRec>) {
    if n == 0 then c == map[]
    else exists k :: LastUpdate(acts, i, k, n) && acts[k].inswitch == c
  }

  ghost predicate LastUpdate(acts: seq<Act>, i: nat, k: int, n: int) {
    k < i && UpdatesAt(acts, k, n) && forall m :: k < m < i ==> !UpdatesAt(acts, m, n)
  }

  /** The in-switch records are stored for every snapshot that was in use and has files, and for none but the one in use
      and its predecessor. */
  ghost predicate CachesOk(w: Wrapper) {
    && (forall n :: n in w.disk && n <= w.id ==> n in w.caches) && (w.id == -1 ==> w.caches == map[])
    && (forall n :: n in w.caches ==> 0 <= n && w.id - 1 <= n <= w.id)
  }

  lemma {:induction false} RunCachesOk(run: seq<Wrapper>, acts: seq<Act>, i: nat, maxSize: nat)
    requires IsRun(run, acts, maxSize) && run[0] == Fresh() && i < |run|
    ensures CachesOk(run[i])
  {
    if i > 0 {
      RunCachesOk(run, acts, i - 1, maxSize);
      RunDiskOk(run, acts, i - 1, maxSize);
      assert StepAt(run, acts, i - 1, maxSize);
    }
  }

  lemma RecordsNext(acts: seq<Act>, i: nat, n: int, c: map<int, SRec>)
    requires RecordsOf(acts, i, n, c) && i < |acts| && (n != 0 ==> !UpdatesAt(acts, i, n))
    ensures RecordsOf(acts, i + 1, n, c)
  {
    if n != 0 {
      var k :| LastUpdate(acts, i, k, n) && acts[k].inswitch == c;
      assert LastUpdate(acts, i + 1, k, n);
    }
  }

  lemma {:induction false} CachesAre(run: seq<Wrapper>, acts: seq<Act>, i: nat, n: int, maxSize: nat)
    requires IsRun(run, acts, maxSize) && run[0] == Fresh() && i < |run| && n in run[i].caches
    ensures RecordsOf(acts, i, n, run[i].caches[n])
    decreases i
  {
    assert i > 0;
    var w, a := run[i - 1], acts[i - 1];
    assert StepAt(run, acts, i - 1, maxSize);
    RunDiskOk(run, acts, i - 1, maxSize);
    RunCachesOk(run, acts, i - 1, maxSize);
    if a.Update? && n == a.at {
      NothingInUseUpdates(run, acts, i - 1, maxSize);
      assert LastUpdate(acts, i, i - 1, n);
    } else if n in w.caches {
      CachesAre(run, acts, i - 1, n, maxSize);
      RecordsNext(acts, i - 1, n, w.caches[n]);
    }
  }

  lemma {:induction false} NothingCaptured(run: seq<Wrapper>, acts: seq<Act>, i: nat, maxSize: nat)
    requires IsRun(run, acts, maxSize) && run[0] == Fresh() && i < |run|
    ensures run[i].id == -1 ==> run[i].latest == NoSnap
  {
    if i > 0 {
      NothingCaptured(run, acts, i - 1, maxSize);
      RunDiskOk(run, acts, i - 1, maxSize);
      assert StepAt(run, acts, i - 1, maxSize);
    }
  }

  lemma NothingInUseUpdates(run: seq<Wrapper>, acts: seq<Act>, i: nat, maxSize: nat)
    requires IsRun(run, acts, maxSize) && run[0] == Fresh() && i < |acts| && acts[i].Update?
    ensures acts[i].at > 0
  {
    assert StepAt(run, acts, i, maxSize);
    NothingCaptured(run, acts, i, maxSize);
    RunDiskOk(run, acts, i, maxSize);
  }

  /** The step takes the snapshot in use back. */
  predicate RollsBack(w: Wrapper, a: Act) { w.id >= 0 && a == Clean(w.id) }

  /** After a roll-back range queries read the in-switch records that the update to the predecessor was given. */
  lemma RolledRecords(run: seq<Wrapper>, acts: seq<Act>, l: nat, maxSize: nat)
    requires IsRun(run, acts, maxSize) && run[0] == Fresh() && l < |acts| && RollsBack(run[l], acts[l])
    ensures run[l + 1].id == run[l].id - 1 && RecordsOf(acts, l, run[l].id - 1, run[l + 1].cache)
  {
    assert StepAt(run, acts, l, maxSize);
    RunCachesOk(run, acts, l, maxSize);
    CachesAre(run, acts, l, run[l].id - 1, maxSize);
  }

  // ---------------------------------------------------------------- which files there are

  /** The files of the snapshot in use, and none older than those of its predecessor. */
  ghost predicate FilesOk(w: Wrapper) {
    && (w.id >= 0 ==> w.id in w.disk) && (w.latest.Snap? ==> w.id + 1 in w.disk)
    && forall n :: n in w.disk ==> n >= w.id - 1
  }

  lemma {:induction false} RunFilesOk(run: seq<Wrapper>, acts: seq<Act>, i: nat, maxSize: nat)
    requires IsRun(run, acts, maxSize) && run[0] == Fresh() && i < |run|
    ensures FilesOk(run[i])
  {
    if i > 0 {
      RunFilesOk(run, acts, i - 1, maxSize);
      RunDiskOk(run, acts, i - 1, maxSize);
      assert StepAt(run, acts, i - 1, maxSize);
    }
  }

  /** Since the last update before step `i` nothing was taken back. */
  ghost predicate UpdatedLast(run: seq<Wrapper>, acts: seq<Act>, i: nat)
    requires i < |run| == |acts| + 1
  {
    exists k :: 0 <= k < i && acts[k].Update? && forall m :: k < m < i ==> !RollsBack(run[m], acts[m])
  }

  lemma UpdatedNext(run: seq<Wrapper>, acts: seq<Act>, i: nat)
    requires i < |acts| && |run| == |acts| + 1
    ensures UpdatedLast(run, acts, i + 1) <==>
      acts[i].Update? || (UpdatedLast(run, acts, i) && !RollsBack(run[i], acts[i]))
  {
    if UpdatedLast(run, acts, i + 1) && !acts[i].Update? {
      var k :| 0 <= k < i + 1 && acts[k].Update? && forall m :: k < m < i + 1 ==> !RollsBack(run[m], acts[m]);
      assert k < i;
    }
    if UpdatedLast(run, acts, i) && !RollsBack(run[i], acts[i]) {
      var k :| 0 <= k < i && acts[k].Update? && forall m :: k < m < i ==> !RollsBack(run[m], acts[m]);
      assert 0 <= k < i + 1;
    }
  }

  /** The snapshot in use can be taken back exactly if something was updated, and nothing taken back since. */
  lemma {:induction false} RollBackAllowedIff(run: seq<Wrapper>, acts: seq<Act>, i: nat, maxSize: nat)
    requires IsRun(run, acts, maxSize) && run[0] == Fresh() && i < |run|
    ensures run[i].id >= 0 ==> (Allowed(run[i], Clean(run[i].id)) <==> UpdatedLast(run, acts, i))
    ensures run[i].id == -1 ==> !UpdatedLast(run, acts, i)
  {
    if i > 0 {
      RollBackAllowedIff(run, acts, i - 1, maxSize);
      RunFilesOk(run, acts, i - 1, maxSize);
      RunDiskOk(run, acts, i - 1, maxSize);
      UpdatedNext(run, acts, i - 1);
      assert StepAt(run, acts, i - 1, maxSize);
      if acts[i - 1].Update? { NothingInUseUpdates(run, acts, i - 1, maxSize); }
    }
  }

  // ---------------------------------------------------------------- the first snapshot, and the next one

  /** Before step `i` a snapshot was made and not stopped since. */
  ghost predicate Unstopped(run: seq<Wrapper>, acts: seq<Act>, i: nat)
    requires i < |run| == |acts| + 1
  {
    exists k :: 0 <= k < i && MakesAt(run, acts, k) && forall m :: k < m < i ==> !acts[m].Stop?
  }

  ghost predicate MakesAt(run: seq<Wrapper>, acts: seq<Act>, k: int) {
    0 <= k < |acts| && k < |run| && acts[k].Make? && Makes(run[k])
  }

  lemma UnstoppedNext(run: seq<Wrapper>, acts: seq<Act>, i: nat)
    requires i < |acts| && |run| == |acts| + 1
    ensures Unstopped(run, acts, i + 1) <==> MakesAt(run, acts, i) || (Unstopped(run, acts, i) && !acts[i].Stop?)
  {
    if Unstopped(run, acts, i + 1) && !MakesAt(run, acts, i) {
      var k :| 0 <= k < i + 1 && MakesAt(run, acts, k) && forall m :: k < m < i + 1 ==> !acts[m].Stop?;
      assert k < i;
    }
    if Unstopped(run, acts, i) && !acts[i].Stop? {
      var k :| 0 <= k < i && MakesAt(run, acts, k) && forall m :: k < m < i ==> !acts[m].Stop?;
      assert 0 <= k < i + 1;
    }
  }

  /** `make_snapshot` takes one exactly if there is a first snapshot and the last one made was stopped. */
  lemma {:induction false} MakesIff(run: seq<Wrapper>, acts: seq<Act>, i: nat, maxSize: nat)
    requires IsRun(run, acts, maxSize) && run[0] == Fresh() && i < |run|
    ensures run[i].busy <==> Unstopped(run, acts, i)
    ensures Makes(run[i]) <==> run[i].id >= 0 && !Unstopped(run, acts, i)
  {
    RunDiskOk(run, acts, i, maxSize);
    if i > 0 {
      MakesIff(run, acts, i - 1, maxSize);
      UnstoppedNext(run, acts, i - 1);
      assert StepAt(run, acts, i - 1, maxSize);
    }
  }

  /** The first snapshot is the database of the moment, with no deletions and no in-switch records. */
  lemma FirstSnapshot(run: seq<Wrapper>, acts: seq<Act>, k: nat, maxSize: nat)
    requires IsRun(run, acts, maxSize) && run[0] == Fresh() && k < |acts| && run[k].id == -1 && run[k + 1].id != -1
    ensures var w := run[k + 1];
      w.id == 0 && w.sp == Snap(run[k].db.data) && w.spTombs == NONE && w.cache == map[]
  {
    assert StepAt(run, acts, k, maxSize);
    RunDiskOk(run, acts, k, maxSize);
    NothingInUse(run, acts, k, maxSize);
    NothingCaptured(run, acts, k, maxSize);
  }

  /** What a round captured is used once. */
  lemma RoundOver(run: seq<Wrapper>, acts: seq<Act>, j: nat, maxSize: nat)
    requires IsRun(run, acts, maxSize) && j < |acts| && acts[j].Update?
    ensures run[j + 1].latest == NoSnap && run[j + 1].id == acts[j].at == run[j].id + 1
  {
    assert StepAt(run, acts, j, maxSize);
  }
}
