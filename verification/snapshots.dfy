/** The server's store with its snapshots (common/rocksdb_wrapper.c:328-611, 769-1041): each method is one
    step. RocksDB's own snapshots are copies of the database. */
module Snapshots {
  import opened DeletedSets
  import opened Store
  import opened RangeScans

  /** A database snapshot, or none. */
  datatype Snap = NoSnap | Snap(data: map<int, Rec>)

  /** The server's files of a snapshot: the deletions and the largest sequence number. A sequence number of the database
      is stored too, but loading overwrites it before use: RocksDB sets it to the number of the checkpoint it makes. */
  datatype Files = Files(tombs: Tombs, maxSeq: int)

  /** `id` is `snapshotid`, `busy` is `is_snapshot`; `sp`, `spTombs`, `cache` are what range queries read,
      `latest`, `latestTombs` what `make_snapshot` took; `recovered` is the checkpoint made by a load;
      `disk` and `caches` are the files by snapshot id. */
  datatype Wrapper = Wrapper(db: Db, id: int, busy: bool, sp: Snap, spTombs: Tombs, cache: map<int, SRec>,
                             latest: Snap, latestTombs: Tombs, recovered: Snap,
                             disk: map<int, Files>, caches: map<int, map<int, SRec>>)

  function Fresh(): Wrapper { Wrapper(EMPTY, -1, false, NoSnap, NONE, map[], NoSnap, NONE, NoSnap, map[], map[]) }

  datatype Act =
    | Access(op: Op, checkSeq: bool)
    | Init
    | Clean(at: int)
    | Make(at: int)
    | Update(inswitch: map<int, SRec>, at: int)
    | Stop

  /** The checks of `init_snapshot` on the state after loading (lines 792-803). */
  predicate NothingYet(w: Wrapper) {
    w.recovered == NoSnap && w.spTombs.byKey == map[] && w.cache == map[] && w.latest == NoSnap &&
        w.latestTombs.byKey == map[]
  }

  /** What is written to disk: the deletions of the snapshot in use, not those being captured (lines 809-823,
      935-948). */
  function Written(w: Wrapper): Files { Files(w.spTombs, w.db.maxSeq) }

  /** `init_snapshot` (lines 769-835). */
  function InitStep(w: Wrapper): Wrapper {
    if w.id != -1 || w.busy then w
    else w.(sp := Snap(w.db.data), id := 0, disk := w.disk[0 := Written(w)], caches := w.caches[0 := w.cache])
  }

  /** `load_serverside_snapshot_files` (lines 1047-1103): a checkpoint of the database as it is now, beside the
      deletions that were stored. */
  function LoadStep(w: Wrapper, at: int): Wrapper
    requires at in w.disk
  {
    w.(sp := NoSnap, spTombs := w.disk[at].tombs, recovered := Snap(w.db.data),
        db := w.db.(maxSeq := w.disk[at].maxSeq))
  }

  /** The snapshot in use gives way to what loading the files of its predecessor gives (lines 862-884). */
  function RolledBack(w: Wrapper): Wrapper
    requires w.id - 1 in w.disk
  {
    LoadStep(w, w.id - 1).(cache := if w.id - 1 in w.caches then w.caches[w.id - 1] else map[], id := w.id - 1)
  }

  /** `clean_snapshot` (lines 838-885), after the initial snapshot was made if need be. */
  function CleanStep(w: Wrapper, at: int): Wrapper {
    var w1 := w.(latest := NoSnap, latestTombs := NONE, disk := w.disk - {at}, caches := w.caches - {at});
    if at == w.id && at - 1 in w1.disk then RolledBack(w1) else w1
  }

  predicate Makes(w: Wrapper) { w.id != -1 && !w.busy }

  /** `make_snapshot` (lines 889-964). */
  function MakeStep(w: Wrapper): Wrapper {
    if Makes(w) then w.(busy := true, latest := Snap(w.db.data), latestTombs := w.db.tombs,
        disk := w.disk[w.id + 1 := Written(w)]) else w
  }

  /** The snapshot whose files are no longer kept once `id` is in use (lines 1024-1027). */
  function Expired(id: int): set<int> { if id >= 2 then {id - 2} else {} }

  /** The captured pair comes into use, or else what loading the files of the next snapshot gives (lines 986-1003). */
  function Installed(w: Wrapper): Wrapper {
    if w.latest.Snap? then w.(sp := w.latest, spTombs := w.latestTombs)
    else if w.id + 1 in w.disk then LoadStep(w, w.id + 1)
    else w
  }

  /** `update_snapshot` (lines 968-1030). */
  function UpdateStep(w: Wrapper, inswitch: map<int, SRec>): Wrapper {
    Installed(w).(latest := NoSnap, latestTombs := NONE, cache := inswitch, id := w.id + 1,
                  disk := w.disk - Expired(w.id + 1), caches := w.caches[w.id + 1 := inswitch] - Expired(w.id + 1))
  }

  /** The checks that end the program when they fail. */
  predicate Allowed(w: Wrapper, a: Act) {
    match a
    case Access(_, _) => true
    case Init => w.id != -1 || w.busy || NothingYet(w)
    case Clean(at) =>
      && (w.id == -1 && !w.busy ==> NothingYet(w)) && (at == InitStep(w).id || at == InitStep(w).id + 1)
      && (at == InitStep(w).id ==> at - 1 in InitStep(w).disk)
    case Make(at) => at >= 0
    case Update(_, at) => at == w.id + 1 && (w.latest.Snap? || at in w.disk)
    case Stop => true
  }

  function Step(w: Wrapper, a: Act, maxSize: nat): Wrapper {
    match a
    case Access(op, checkSeq) => w.(db := StoreStep(w.db, op, checkSeq, maxSize))
    case Init => InitStep(w)
    case Clean(at) => CleanStep(InitStep(w), at)
    case Make(_) => MakeStep(w)
    case Update(inswitch, _) => UpdateStep(w, inswitch)
    case Stop => w.(busy := false)
  }

  ghost predicate StepAt(run: seq<Wrapper>, acts: seq<Act>, i: int, maxSize: nat) {
    0 <= i < |acts| && i + 1 < |run| && Allowed(run[i], acts[i]) && run[i + 1] == Step(run[i], acts[i], maxSize)
  }

  ghost predicate IsRun(run: seq<Wrapper>, acts: seq<Act>, maxSize: nat) {
    |run| == |acts| + 1 && forall i :: 0 <= i < |acts| ==> StepAt(run, acts, i, maxSize)
  }

  // ---------------------------------------------------------------- one snapshot per stop

  lemma {:induction false} BusyUntilStop(run: seq<Wrapper>, acts: seq<Act>, i: nat, j: nat, maxSize: nat)
    requires IsRun(run, acts, maxSize) && i <= j < |run| && run[i].busy && forall k :: i <= k < j ==> !acts[k].Stop?
    ensures run[j].busy
  {
    if i < j {
      BusyUntilStop(run, acts, i, j - 1, maxSize);
      assert StepAt(run, acts, j - 1, maxSize);
    }
  }

  /** Between two successful `make_snapshot` there is a `stop_snapshot`. */
  lemma {:induction false} MakeOncePerStop(run: seq<Wrapper>, acts: seq<Act>, i: nat, j: nat, maxSize: nat)
    requires IsRun(run, acts, maxSize) && i < j < |acts|
    requires acts[i].Make? && Makes(run[i]) && acts[j].Make? && Makes(run[j])
    ensures exists k :: i < k < j && acts[k].Stop?
  {
    assert StepAt(run, acts, i, maxSize);
    if forall k :: i + 1 <= k < j ==> !acts[k].Stop? { BusyUntilStop(run, acts, i + 1, j, maxSize); }
  }

  // ---------------------------------------------------------------- what a range query reads

  function StoredRecords(data: map<int, Rec>): map<int, SRec> {
    map k | k in data :: SRec(data[k].val, data[k].seqno, true)
  }

  function Deletions(byKey: map<int, int>): map<int, SRec> { map k | k in byKey :: SRec(0, byKey[k], false) }

  /** The database, deletions and cache of the snapshot in use. */
  function ViewOf(w: Wrapper): View
    requires w.sp.Snap? || w.recovered.Snap?
  {
    View(StoredRecords(if w.sp.Snap? then w.sp.data else w.recovered.data), Deletions(w.spTombs.byKey), w.cache)
  }

  /** `x` is the record that counts for its key in a database, its deletions and its in-switch records, and is not a
      deletion. */
  ghost predicate Counts(data: map<int, Rec>, deletions: map<int, int>, cache: map<int, SRec>, x: Entry) {
    var (k, r) := x;
    r.stat &&
    (|| (k in data && data[k] == Rec(r.val, r.seqno) && (k in cache ==> cache[k].seqno <= r.seqno))
     || (k in cache && cache[k] == r && (k in data ==> data[k].seqno < r.seqno) &&
           (k in deletions ==> deletions[k] < r.seqno)))
  }

  /** A query answers from the snapshot's own maps. */
  lemma ViewCounts(data: map<int, Rec>, deletions: map<int, int>, cache: map<int, SRec>, start: int, limit: Limit,
      x: Entry)
    requires ScansApart(View(StoredRecords(data), Deletions(deletions), cache), start, limit)
    ensures IsLive(CutView(View(StoredRecords(data), Deletions(deletions), cache), start, limit), x) <==>
      Counts(CutTo(data, start, limit), CutTo(deletions, start, limit), CutTo(cache, start, limit), x)
  {
    assert StoredRecords(data).Keys == data.Keys && Deletions(deletions).Keys == deletions.Keys;
    assert Reached(data.Keys, start, limit, x.0) ==> !Reached(deletions.Keys, start, limit, x.0);
  }

  /** Steps that leave the snapshot in use alone: all but `update_snapshot` and the roll-back of the current one. */
  predicate KeepsView(w: Wrapper, a: Act) { !a.Update? && (a.Clean? ==> a.at != w.id) }

  ghost predicate SameView(w: Wrapper, w': Wrapper) {
    w'.sp == w.sp && w'.spTombs == w.spTombs && w'.cache == w.cache && w'.recovered == w.recovered && w'.id == w.id
  }

  /** Whatever is written, deleted, captured or stopped meanwhile. */
  lemma {:induction false} ViewStable(run: seq<Wrapper>, acts: seq<Act>, i: nat, j: nat, maxSize: nat)
    requires IsRun(run, acts, maxSize) && i <= j < |run| && run[i].id >= 0
    requires forall k :: i <= k < j ==> KeepsView(run[k], acts[k])
    ensures SameView(run[i], run[j])
  {
    if i < j {
      ViewStable(run, acts, i, j - 1, maxSize);
      assert StepAt(run, acts, j - 1, maxSize);
    }
  }

  // ---------------------------------------------------------------- what an update installs

  /** Step `k` of a round is the successful capture: no other one since. */
  ghost predicate CapturedAt(run: seq<Wrapper>, acts: seq<Act>, i: nat, j: nat, k: int)
    requires |run| == |acts| + 1 && i <= j < |run|
  {
    i <= k < j && acts[k].Make? && Makes(run[k]) && forall n :: k < n < j ==> !(acts[n].Make? && Makes(run[n]))
  }

  ghost predicate AnyCapture(run: seq<Wrapper>, acts: seq<Act>, i: nat, j: nat)
    requires |run| == |acts| + 1 && i <= j < |run|
  {
    exists k :: CapturedAt(run, acts, i, j, k)
  }

  /** Steps of a round: neither `clean_snapshot` nor `update_snapshot`. */
  predicate InRound(a: Act) { !a.Clean? && !a.Update? }

  /** Within a round that starts with nothing captured: the captured pair is the database and the deletions
      at the last successful `make_snapshot`, and there is none exactly if none succeeded. */
  lemma {:induction false} Captured(run: seq<Wrapper>, acts: seq<Act>, i: nat, j: nat, maxSize: nat)
    requires IsRun(run, acts, maxSize) && i <= j < |run| && run[i].latest == NoSnap
    requires forall k :: i <= k < j ==> InRound(acts[k])
    ensures run[j].latest.Snap? <==> AnyCapture(run, acts, i, j)
    ensures forall k :: CapturedAt(run, acts, i, j, k) ==>
      run[j].latest == Snap(run[k].db.data) && run[j].latestTombs == run[k].db.tombs
  {
    if i < j {
      Captured(run, acts, i, j - 1, maxSize);
      assert StepAt(run, acts, j - 1, maxSize);
      if acts[j - 1].Make? && Makes(run[j - 1]) {
        assert CapturedAt(run, acts, i, j, j - 1);
      } else {
        forall k ensures CapturedAt(run, acts, i, j, k) <==> CapturedAt(run, acts, i, j - 1, k) {}
        if AnyCapture(run, acts, i, j - 1) {
          var k :| CapturedAt(run, acts, i, j - 1, k);
          assert CapturedAt(run, acts, i, j, k);
        }
      }
    }
  }

  /** Files are numbered from 0, and there are none before the first snapshot. */
  ghost predicate DiskOk(w: Wrapper) {
    w.id >= -1 && (w.id == -1 ==> w.disk == map[]) && forall n :: n in w.disk ==> n >= 0
  }

  lemma {:induction false} RunDiskOk(run: seq<Wrapper>, acts: seq<Act>, i: nat, maxSize: nat)
    requires IsRun(run, acts, maxSize) && run[0] == Fresh() && i < |run|
    ensures DiskOk(run[i])
  {
    if i > 0 {
      RunDiskOk(run, acts, i - 1, maxSize);
      assert StepAt(run, acts, i - 1, maxSize);
    }
  }

  /** In a round nothing is captured only if the files of the next snapshot are not there either. */
  lemma {:induction false} NeverLoads(run: seq<Wrapper>, acts: seq<Act>, i: nat, j: nat, maxSize: nat)
    requires IsRun(run, acts, maxSize) && run[0] == Fresh() && i < j < |run| && acts[i].Clean?
    requires forall k :: i < k < j ==> InRound(acts[k])
    ensures run[j].latest == NoSnap ==> run[j].id + 1 !in run[j].disk
  {
    RunDiskOk(run, acts, j - 1, maxSize);
    assert StepAt(run, acts, j - 1, maxSize);
    if i < j - 1 { NeverLoads(run, acts, i, j - 1, maxSize); }
  }

  /** `clean_snapshot` opens a round with nothing captured, and the `update_snapshot` that ends it installs the database
      and the deletions of the one moment at which a `make_snapshot` of the round succeeded last, with the
      in-switch records it was given. */
  lemma {:induction false} UpdateInstalls(run: seq<Wrapper>, acts: seq<Act>, i: nat, j: nat, maxSize: nat)
    requires IsRun(run, acts, maxSize) && run[0] == Fresh() && i < j < |acts| && acts[i].Clean? && acts[j].Update?
    requires forall k :: i < k < j ==> InRound(acts[k])
    ensures run[j + 1].cache == acts[j].inswitch && AnyCapture(run, acts, i + 1, j)
    ensures forall k :: CapturedAt(run, acts, i + 1, j, k) ==>
      run[j + 1].sp == Snap(run[k].db.data) && run[j + 1].spTombs == run[k].db.tombs
  {
    assert StepAt(run, acts, i, maxSize) && StepAt(run, acts, j, maxSize);
    Captured(run, acts, i + 1, j, maxSize);
    NeverLoads(run, acts, i, j, maxSize);
  }

  /** With no `stop_snapshot` inside the round, one `make_snapshot` at most succeeds in it: the first. */
  lemma {:induction false} CaptureUnique(run: seq<Wrapper>, acts: seq<Act>, i: nat, j: nat, k: nat, n: nat,
      maxSize: nat)
    requires IsRun(run, acts, maxSize) && i <= k < n < j < |run| && forall m :: i <= m < j ==> !acts[m].Stop?
    requires acts[k].Make? && Makes(run[k]) && acts[n].Make?
    ensures !Makes(run[n])
  {
    if Makes(run[n]) { MakeOncePerStop(run, acts, k, n, maxSize); }
  }

  // ---------------------------------------------------------------- stored and deleted keys stay apart

  ghost predicate ApartIn(data: map<int, Rec>, t: Tombs) { forall k :: k in data ==> k !in t.byKey }

  /** The pairs in memory: the store's own, the captured one, and the one in use unless it was restored from disk. */
  ghost predicate AllApart(w: Wrapper) {
    && Disjoint(w.db) && (w.latest.Snap? ==> ApartIn(w.latest.data, w.latestTombs)) &&
        (w.sp.Snap? ==> ApartIn(w.sp.data, w.spTombs))
  }

  lemma StepApart(w: Wrapper, a: Act, maxSize: nat)
    requires AllApart(w) && Allowed(w, a) && (w.id == -1 ==> w.spTombs == NONE)
    ensures AllApart(Step(w, a, maxSize))
  {
    if a.Access? { StepDisjoint(w.db, a.op, a.checkSeq, maxSize); }
  }

  lemma {:induction false} NothingInUse(run: seq<Wrapper>, acts: seq<Act>, i: nat, maxSize: nat)
    requires IsRun(run, acts, maxSize) && run[0] == Fresh() && i < |run|
    ensures run[i].id == -1 ==> run[i].spTombs == NONE && run[i].sp == NoSnap && run[i].recovered == NoSnap
  {
    if i > 0 {
      NothingInUse(run, acts, i - 1, maxSize);
      RunDiskOk(run, acts, i - 1, maxSize);
      assert StepAt(run, acts, i - 1, maxSize);
    }
  }

  /** In every run the pairs in memory keep stored and deleted keys apart. While the snapshot in use is one of them, the
      first merge of a range query never meets an equal key. */
  lemma {:induction false} RunApart(run: seq<Wrapper>, acts: seq<Act>, i: nat, maxSize: nat)
    requires IsRun(run, acts, maxSize) && run[0] == Fresh() && i < |run|
    ensures AllApart(run[i]) && (run[i].sp.Snap? ==> ViewOk(ViewOf(run[i])))
  {
    if i > 0 {
      RunApart(run, acts, i - 1, maxSize);
      NothingInUse(run, acts, i - 1, maxSize);
      assert StepAt(run, acts, i - 1, maxSize);
      StepApart(run[i - 1], acts[i - 1], maxSize);
    }
  }

  // ---------------------------------------------------------------- a snapshot restored from disk

  /** The step writes files of snapshot `n`. */
  predicate Writes(w: Wrapper, a: Act, n: int) {
    match a
    case Init => n == 0 && w.id == -1 && !w.busy
    case Clean(_) => n == 0 && w.id == -1 && !w.busy
    case Make(_) => n == w.id + 1 && Makes(w)
    case _ => false
  }

  ghost predicate WritesAt(run: seq<Wrapper>, acts: seq<Act>, k: int, n: int) {
    0 <= k < |acts| && k < |run| && Writes(run[k], acts[k], n)
  }

  /** Before step `i`, step `k` was the last to write files of snapshot `n`, and `f` are these: the deletions in use
      and the largest number, then. */
  ghost predicate WroteAt(run: seq<Wrapper>, acts: seq<Act>, i: int, k: int, n: int, f: Files) {
    && WritesAt(run, acts, k, n) && k < i && (forall m :: k < m < i ==> !WritesAt(run, acts, m, n))
    && f.tombs == run[k].spTombs && f.maxSeq == run[k].db.maxSeq
  }

  lemma {:induction false} DiskWritten(run: seq<Wrapper>, acts: seq<Act>, i: nat, n: int, maxSize: nat) returns (k: nat)
    requires IsRun(run, acts, maxSize) && run[0] == Fresh() && i < |run| && n in run[i].disk
    ensures WroteAt(run, acts, i, k, n, run[i].disk[n])
    decreases i
  {
    assert i > 0;
    assert StepAt(run, acts, i - 1, maxSize);
    if WritesAt(run, acts, i - 1, n) {
      k := i - 1;
    } else {
      k := DiskWritten(run, acts, i - 1, n, maxSize);
    }
  }

  /** Step `l` loads the files `f` of snapshot `n`. */
  ghost predicate LoadsAt(run: seq<Wrapper>, acts: seq<Act>, l: int, n: int, f: Files) {
    && 0 <= l < |acts| && l < |run| && n in run[l].disk && run[l].disk[n] == f
    && match acts[l]
       case Clean(at) => at == InitStep(run[l]).id && n == at - 1
       case Update(_, at) => run[l].latest == NoSnap && n == at
       case _ => false
  }

  /** The restored pair in use: the deletions of the files, and the data of the moment of the load. */
  ghost predicate InUse(w: Wrapper, f: Files, data: map<int, Rec>) {
    w.sp == NoSnap && w.recovered == Snap(data) && w.spTombs == f.tombs
  }

  lemma {:induction false} RestoredFrom(run: seq<Wrapper>, acts: seq<Act>, i: nat, maxSize: nat)
      returns (f: Files, k: nat, l: nat, n: int)
    requires IsRun(run, acts, maxSize) && run[0] == Fresh() && i < |run| && run[i].sp == NoSnap &&
      run[i].recovered.Snap?
    ensures l < i && LoadsAt(run, acts, l, n, f) && InUse(run[i], f, run[l].db.data) && WroteAt(run, acts, l, k, n, f)
    decreases i
  {
    assert i > 0;
    assert StepAt(run, acts, i - 1, maxSize);
    var w, a := run[i - 1], acts[i - 1];
    NothingInUse(run, acts, i - 1, maxSize);
    RunDiskOk(run, acts, i - 1, maxSize);
    if a.Clean? && a.at == InitStep(w).id {
      l, n := i - 1, a.at - 1;
      f := w.disk[n];
      k := DiskWritten(run, acts, l, n, maxSize);
    } else if a.Update? {
      l, n := i - 1, a.at;
      f := w.disk[n];
      k := DiskWritten(run, acts, l, n, maxSize);
    } else {
      f, k, l, n := RestoredFrom(run, acts, i - 1, maxSize);
    }
  }

  /** A snapshot restored from disk has the data of step `l`, which loaded it, beside the deletions of the snapshot that
      was in use at step `k`, which wrote it. It keeps stored and deleted keys apart exactly if no key stored at the
      one was deleted at the other; and a range query up to an end key meets an equal key, and ends the program,
      exactly if there is such a key in its range. */
  lemma RestoredApartIff(run: seq<Wrapper>, acts: seq<Act>, i: nat, maxSize: nat)
      returns (f: Files, k: nat, l: nat, n: int)
    requires IsRun(run, acts, maxSize) && run[0] == Fresh() && i < |run| && run[i].sp == NoSnap &&
      run[i].recovered.Snap?
    ensures k < l < i && WroteAt(run, acts, l, k, n, f) && LoadsAt(run, acts, l, n, f) &&
      InUse(run[i], f, run[l].db.data)
    ensures ViewOk(ViewOf(run[i])) <==> forall key :: key in run[l].db.data ==> key !in run[k].spTombs.byKey
    ensures forall start, end {:trigger ScansApart(ViewOf(run[i]), start, UpTo(end))} ::
      ScansApart(ViewOf(run[i]), start, UpTo(end)) <==>
      forall key :: key in run[l].db.data && start <= key <= end ==> key !in run[k].spTombs.byKey
  {
    f, k, l, n := RestoredFrom(run, acts, i, maxSize);
    var v := ViewOf(run[i]);
    assert forall key :: key in v.db <==> key in run[l].db.data;
    assert forall key :: key in v.dead <==> key in run[k].spTombs.byKey;
    forall start, end ensures ScansApart(v, start, UpTo(end)) <==>
        forall key :: key in run[l].db.data && start <= key <= end ==> key !in run[k].spTombs.byKey {
      RangeApart(v, start, end);
    }
  }

  // ---------------------------------------------------------------- how that comes about

  function Acts(w: Wrapper, acts: seq<Act>, maxSize: nat): Wrapper
    decreases |acts|
  {
    if acts == [] then w else Acts(Step(w, acts[0], maxSize), acts[1..], maxSize)
  }

  ghost predicate AllAllowed(w: Wrapper, acts: seq<Act>, maxSize: nat)
    decreases |acts|
  {
    acts == [] || (Allowed(w, acts[0]) && AllAllowed(Step(w, acts[0], maxSize), acts[1..], maxSize))
  }

  /** The snapshot protocol in the order in which the controller drives it. */
  function Round(at: int): seq<Act> { [Clean(at), Make(at), Update(map[], at), Act.Stop] }

  lemma FourActs(w: Wrapper, acts: seq<Act>, maxSize: nat)
    requires |acts| == 4
    ensures var w1 := Step(w, acts[0], maxSize); var w2 := Step(w1, acts[1], maxSize);
      var w3 := Step(w2, acts[2], maxSize);
      && Acts(w, acts, maxSize) == Step(w3, acts[3], maxSize)
      && (Allowed(w, acts[0]) && Allowed(w1, acts[1]) && Allowed(w2, acts[2]) && Allowed(w3, acts[3]) ==>
          AllAllowed(w, acts, maxSize))
  {
    var a1 := acts[1..];
    var a2 := a1[1..];
    var a3 := a2[1..];
    assert a1[0] == acts[1] && a2[0] == acts[2] && a3[0] == acts[3] && a3[1..] == [];
    var w1 := Step(w, acts[0], maxSize);
    var w2 := Step(w1, acts[1], maxSize);
    var w3 := Step(w2, acts[2], maxSize);
    assert Acts(w1, a1, maxSize) == Acts(w2, a2, maxSize) && Acts(w2, a2, maxSize) == Acts(w3, a3, maxSize);
    assert Acts(w3, a3, maxSize) == Acts(Step(w3, acts[3], maxSize), a3[1..], maxSize);
    assert Allowed(w3, acts[3]) ==> AllAllowed(w3, a3, maxSize);
    assert Allowed(w2, acts[2]) && AllAllowed(w3, a3, maxSize) ==> AllAllowed(w2, a2, maxSize);
    assert Allowed(w1, acts[1]) && AllAllowed(w2, a2, maxSize) ==> AllAllowed(w1, a1, maxSize);
  }

  /** What a round leaves: the store's pair is in use; on disk are the deletions of the one before. */
  ghost predicate Turned(w: Wrapper, w': Wrapper) {
    && w'.db == w.db && w'.id == w.id + 1 && !w'.busy && w'.spTombs == w.db.tombs && w'.sp == Snap(w.db.data)
    && w'.disk == (w.disk - {w.id + 1})[w.id + 1 := Written(w)] - Expired(w.id + 1)
  }

  lemma RoundDoes(w: Wrapper, maxSize: nat)
    requires w.id >= 0 && !w.busy
    ensures AllAllowed(w, Round(w.id + 1), maxSize) && Turned(w, Acts(w, Round(w.id + 1), maxSize))
  {
    FourActs(w, Round(w.id + 1), maxSize);
  }

  lemma ReachRound(w: Wrapper, maxSize: nat) returns (w': Wrapper)
    requires Reachable(w, maxSize) && w.id >= 0 && !w.busy
    ensures Reachable(w', maxSize) && Turned(w, w')
  {
    RoundDoes(w, maxSize);
    ReachActs(w, Round(w.id + 1), maxSize);
    w' := Acts(w, Round(w.id + 1), maxSize);
  }

  lemma PutBack(w: Wrapper, w': Wrapper, val: Val, maxSize: nat)
    requires w' == Step(w, Access(Put(5, val, 2), true), maxSize) && 5 !in w.db.data && w.db.tombs.byKey == map[5 := 1]
    ensures 5 in w'.db.data && w'.spTombs == w.spTombs && w'.id == w.id && w'.busy == w.busy && w'.disk == w.disk
  {
  }

  lemma DeletedOnce(maxSize: nat)
    requires maxSize > 0
    ensures var w := Step(Fresh(), Access(Remove(5, 1), true), maxSize);
      w.db.data == map[] && w.db.tombs.byKey == map[5 := 1]
  {
    var none: map<int, Rec> := map[];
    assert none - {5} == none;
  }

  /** Some run from the fresh state ends in `w`. */
  ghost predicate Reachable(w: Wrapper, maxSize: nat) {
    exists run, acts :: IsRun(run, acts, maxSize) && run[0] == Fresh() && run[|run| - 1] == w
  }

  lemma FreshReachable(maxSize: nat)
    ensures Reachable(Fresh(), maxSize)
  {
    assert IsRun([Fresh()], [], maxSize);
  }

  lemma ReachStep(w: Wrapper, a: Act, maxSize: nat)
    requires (Reachable(w, maxSize) || w == Fresh()) && Allowed(w, a)
    ensures Reachable(Step(w, a, maxSize), maxSize)
  {
    FreshReachable(maxSize);
    var run, acts :| IsRun(run, acts, maxSize) && run[0] == Fresh() && run[|run| - 1] == w;
    var run', acts' := run + [Step(w, a, maxSize)], acts + [a];
    forall i | 0 <= i < |acts'| ensures StepAt(run', acts', i, maxSize) {
      if i < |acts| { assert StepAt(run, acts, i, maxSize); }
    }
    assert IsRun(run', acts', maxSize) && run'[|run'| - 1] == Step(w, a, maxSize);
  }

  lemma {:induction false} ReachActs(w: Wrapper, acts: seq<Act>, maxSize: nat)
    requires Reachable(w, maxSize) && AllAllowed(w, acts, maxSize)
    ensures Reachable(Acts(w, acts, maxSize), maxSize)
    decreases |acts|
  {
    if acts != [] {
      ReachStep(w, acts[0], maxSize);
      ReachActs(Step(w, acts[0], maxSize), acts[1..], maxSize);
    }
  }

  /** A key is deleted and a snapshot taken. */
  lemma Deleted(maxSize: nat) returns (w: Wrapper)
    requires maxSize > 0
    ensures Reachable(w, maxSize) && w.id == 1 && !w.busy && 5 !in w.db.data && w.db.tombs.byKey == map[5 := 1] &&
      w.spTombs == w.db.tombs
  {
    var w0 := Step(Fresh(), Access(Remove(5, 1), true), maxSize);
    DeletedOnce(maxSize);
    ReachStep(Fresh(), Access(Remove(5, 1), true), maxSize);
    ReachStep(w0, Init, maxSize);
    w := ReachRound(Step(w0, Init, maxSize), maxSize);
  }

  /** The key is written again and two more snapshots are taken. */
  lemma Rewritten(val: Val, maxSize: nat) returns (w: Wrapper)
    requires maxSize > 0
    ensures Reachable(w, maxSize) && w.id == 3 && 2 in w.disk && 5 in w.db.data && 5 in w.disk[2].tombs.byKey
  {
    var w0 := Deleted(maxSize);
    var w1 := Step(w0, Access(Put(5, val, 2), true), maxSize);
    ReachStep(w0, Access(Put(5, val, 2), true), maxSize);
    PutBack(w0, w1, val, maxSize);
    var w2 := ReachRound(w1, maxSize);
    w := ReachRound(w2, maxSize);
  }

  /** Cleaning the last snapshot then restores a pair that has the key both stored and deleted. */
  lemma RestoredShares(val: Val, maxSize: nat) returns (w: Wrapper)
    requires maxSize > 0
    ensures w.sp == NoSnap && w.recovered.Snap? && !ViewOk(ViewOf(w)) && Reachable(w, maxSize)
  {
    var w0 := Rewritten(val, maxSize);
    ReachStep(w0, Clean(3), maxSize);
    w := Step(w0, Clean(3), maxSize);
    assert 5 in ViewOf(w).db && 5 in ViewOf(w).dead;
  }

  /** The key need not be stored when the files are written: deleted, two snapshots taken, written again, one more
      snapshot taken, and the last one cleaned. */
  lemma RestoredSharesLater(val: Val, maxSize: nat) returns (w: Wrapper)
    requires maxSize > 0
    ensures w.sp == NoSnap && w.recovered.Snap? && !ViewOk(ViewOf(w)) && Reachable(w, maxSize)
  {
    var w0 := Deleted(maxSize);
    var w1 := ReachRound(w0, maxSize);
    var w2 := Step(w1, Access(Put(5, val, 2), true), maxSize);
    ReachStep(w1, Access(Put(5, val, 2), true), maxSize);
    PutBack(w1, w2, val, maxSize);
    var w3 := ReachRound(w2, maxSize);
    assert 2 in w3.disk && 5 in w3.disk[2].tombs.byKey;
    ReachStep(w3, Clean(3), maxSize);
    w := Step(w3, Clean(3), maxSize);
    assert 5 in ViewOf(w).db && 5 in ViewOf(w).dead;
  }

  /** What a caller can look at before the roll-back: the present database and the deletions in the files. */
  lemma RollBackIff(w: Wrapper, at: int, maxSize: nat)
    requires Allowed(w, Clean(at)) && w.id >= 0 && at == w.id
    ensures var w' := Step(w, Clean(at), maxSize);
      at - 1 in w.disk && w'.recovered.Snap? &&
      (ViewOk(ViewOf(w')) <==> forall key :: key in w.db.data ==> key !in w.disk[at - 1].tombs.byKey)
  {
    var v := ViewOf(Step(w, Clean(at), maxSize));
    assert forall key :: key in v.db <==> key in w.db.data;
    assert forall key :: key in v.dead <==> key in w.disk[at - 1].tombs.byKey;
  }
}
