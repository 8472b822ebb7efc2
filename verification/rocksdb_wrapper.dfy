/** `RocksdbWrapper` (common/rocksdb_wrapper.c:328-1041) over its three deleted sets. Each method takes the step of
    `Snapshots` it is named after, and says what that means for its callers. */
module RocksdbWrappers {
  import opened DeletedSets
  import opened Store
  import opened RangeScans
  import opened Snapshots

  /** What `get` answers for a key is the same in both states. */
  ghost predicate SameAnswer(s: Db, s': Db, key: int) { GetAnswer(s, key) == GetAnswer(s', key) }

  /** The write of `key` is refused: a newer deletion is known, or the database has a newer record. */
  ghost predicate Stale(s: Db, key: int, seqno: int, checkSeq: bool) {
    || (key in s.tombs.byKey && s.tombs.byKey[key] > seqno)
    || (checkSeq && key in s.data && s.data[key].seqno > seqno)
  }

  /** After `put` the key reads as the write or, if that is stale, as before; every other key reads as before. */
  lemma PutReads(s: Db, key: int, val: Val, seqno: int, checkSeq: bool)
    requires Disjoint(s)
    ensures var s' := PutStep(s, key, val, seqno, checkSeq);
      && Disjoint(s') && (forall k :: k != key ==> SameAnswer(s, s', k))
      && if Stale(s, key, seqno, checkSeq) then SameAnswer(s, s', key) else GetAnswer(s', key) == Found(val, seqno)
  {
    StepDisjoint(s, Put(key, val, seqno), checkSeq, 0);
  }

  /** A number that no remembered deletion of another key has, in a set that is not full: nothing is forgotten. */
  ghost predicate Room(t: Tombs, key: int, seqno: int, maxSize: nat) {
    InSync(t) && UnusedSeq(t, key, seqno) && (key in t.byKey || |t.byKey| < maxSize)
  }

  lemma RoomAfterCheck(t: Tombs, key: int, seqno: int, maxSize: nat)
    requires Room(t, key, seqno, maxSize) && !NewerThan(t, key, seqno) && (key in t.byKey ==> |t.byKey| <= maxSize)
    ensures Added(Checked(t, key, seqno), key, seqno, maxSize).byKey == t.byKey[key := seqno]
  {
    var t1 := Checked(t, key, seqno);
    CheckKeepsSync(t, key, seqno);
    AddKeepsSync(t1, key, seqno, maxSize);
    assert key in t.byKey ==> t1.byKey.Keys == t.byKey.Keys - {key};
    assert t1.byKey[key := seqno] == t.byKey[key := seqno];
  }

  /** After `remove` the key is gone or, if the removal is stale, reads as before; no stored record of another key is
      lost, and while there is room no other key reads differently. */
  ghost predicate RemovedFor(s: Db, s': Db, key: int, seqno: int, checkSeq: bool, maxSize: nat) {
    && Disjoint(s') && (forall k :: k != key && k in s.data ==> SameAnswer(s, s', k))
    && (if Stale(s, key, seqno, checkSeq) then SameAnswer(s, s', key) else GetAnswer(s', key).Missing?)
    && (Room(s.tombs, key, seqno, maxSize) && |s.tombs.byKey| <= maxSize ==>
          && (forall k :: k != key ==> SameAnswer(s, s', k))
          && (!Stale(s, key, seqno, checkSeq) && seqno > 0 ==> GetAnswer(s', key) == Missing(seqno)))
  }

  lemma RemoveReads(s: Db, key: int, seqno: int, checkSeq: bool, maxSize: nat)
    requires Disjoint(s)
    ensures RemovedFor(s, RemoveStep(s, key, seqno, checkSeq, maxSize), key, seqno, checkSeq, maxSize)
  {
    StepDisjoint(s, Remove(key, seqno), checkSeq, maxSize);
    RemoveGone(s, key, seqno, checkSeq, maxSize);
    if Room(s.tombs, key, seqno, maxSize) && |s.tombs.byKey| <= maxSize {
      if !NewerThan(s.tombs, key, seqno) { RoomAfterCheck(s.tombs, key, seqno, maxSize); }
      RemoveRemembered(s, key, seqno, checkSeq, maxSize);
    }
  }

  lemma RemoveGone(s: Db, key: int, seqno: int, checkSeq: bool, maxSize: nat)
    requires Disjoint(s)
    ensures var s' := RemoveStep(s, key, seqno, checkSeq, maxSize);
      && (forall k :: k != key && k in s.data ==> SameAnswer(s, s', k))
      && (if Stale(s, key, seqno, checkSeq) then SameAnswer(s, s', key) else GetAnswer(s', key).Missing?)
  {
  }

  lemma RemoveRemembered(s: Db, key: int, seqno: int, checkSeq: bool, maxSize: nat)
    requires Disjoint(s)
    requires !NewerThan(s.tombs, key, seqno) ==>
      Added(Checked(s.tombs, key, seqno), key, seqno, maxSize).byKey == s.tombs.byKey[key := seqno]
    ensures var s' := RemoveStep(s, key, seqno, checkSeq, maxSize);
      && (forall k :: k != key ==> SameAnswer(s, s', k))
      && (!Stale(s, key, seqno, checkSeq) && seqno > 0 ==> GetAnswer(s', key) == Missing(seqno))
  {
  }

  /** What cleaning means for range queries. */
  lemma CleanMeans(w: Wrapper, at: int, maxSize: nat)
    requires Allowed(w, Clean(at))
    ensures var w' := Step(w, Clean(at), maxSize);
      && w'.latest == NoSnap && at !in w'.disk && at !in w'.caches && (w.id >= 0 && at == w.id + 1 ==> SameView(w, w'))
      && (w.id >= 0 && at == w.id ==>
            && at - 1 in w.disk && w'.id == at - 1 && w'.sp == NoSnap
            && w'.recovered == Snap(w.db.data) && w'.spTombs == w.disk[at - 1].tombs)
  {
  }

  class RocksdbWrapper {
    const deleted: DeletedSet
    const spDeleted: DeletedSet
    const latestDeleted: DeletedSet
    var data: map<int, Rec>
    var maxSeq: int
    var id: int
    var busy: bool
    var sp: Snap
    var cache: map<int, SRec>
    var latest: Snap
    var recovered: Snap
    var disk: map<int, Files>
    var caches: map<int, map<int, SRec>>

    ghost predicate Valid() { deleted != spDeleted && deleted != latestDeleted && spDeleted != latestDeleted }

    ghost function Db(): Store.Db
      reads this, deleted
    {
      Store.Db(data, deleted.State(), maxSeq)
    }

    ghost function State(): Wrapper
      reads this, deleted, spDeleted, latestDeleted
    {
      Wrapper(Db(), id, busy, sp, spDeleted.State(), cache, latest, latestDeleted.State(), recovered, disk, caches)
    }

    constructor (c: nat, rtt: nat)
      ensures Valid() && State() == Fresh() && deleted.maxSize == 10 * c * rtt
      ensures fresh(deleted) && fresh(spDeleted) && fresh(latestDeleted)
    {
      deleted := new DeletedSet(c, rtt);
      spDeleted := new DeletedSet(c, rtt);
      latestDeleted := new DeletedSet(c, rtt);
      data, maxSeq, id, busy, sp, cache := map[], 0, -1, false, NoSnap, map[];
      latest, recovered, disk, caches := NoSnap, NoSnap, map[], map[];
    }

    /** `get` (lines 328-406): reading changes nothing that can be read. */
    method Get(key: int) returns (r: Answer)
      requires Valid()
      modifies deleted
      ensures State() == Step(old(State()), Access(Op.Get(key), false), deleted.maxSize) &&
        r == GetAnswer(old(Db()), key)
      ensures SameView(old(State()), State()) && forall k :: SameAnswer(old(Db()), Db(), k)
      ensures r == if key in data then Found(data[key].val, data[key].seqno)
        else Missing(if key in old(deleted.byKey) && old(deleted.byKey)[key] > 0 then old(deleted.byKey)[key] else 0)
      ensures deleted.byKey == if key !in data && key in old(deleted.byKey) && old(deleted.byKey)[key] <= 0
        then old(deleted.byKey) - {key} else old(deleted.byKey)
    {
      if key in data { return Found(data[key].val, data[key].seqno); }
      var isDeleted, deletedSeq := deleted.CheckAndRemove(key, 0);
      return Missing(if deletedSeq > 0 then deletedSeq else 0);
    }

    /** `put` (lines 408-520); false when a newer deletion is known. */
    method Put(key: int, val: Val, seqno: int, checkSeq: bool) returns (r: bool)
      requires Valid()
      modifies this`data, this`maxSeq, deleted
      ensures State() == Step(old(State()), Access(Op.Put(key, val, seqno), checkSeq), deleted.maxSize)
      ensures SameView(old(State()), State()) && maxSeq == if seqno > old(maxSeq) then seqno else old(maxSeq)
      ensures r <==> !(key in old(deleted.byKey) && old(deleted.byKey)[key] > seqno)
      ensures old(Disjoint(Db())) ==>
        && Disjoint(Db()) && (forall k :: k != key ==> SameAnswer(old(Db()), Db(), k))
        && if Stale(old(Db()), key, seqno, checkSeq) then SameAnswer(old(Db()), Db(), key)
            else GetAnswer(Db(), key) == Found(val, seqno)
    {
      if Disjoint(Db()) { PutReads(Db(), key, val, seqno, checkSeq); }
      if seqno > maxSeq { maxSeq := seqno; }
      var isDeleted, deletedSeq := deleted.CheckAndRemove(key, seqno);
      if isDeleted && deletedSeq > seqno { return false; }
      if checkSeq && key in data && data[key].seqno > seqno { return true; }
      data := data[key := Rec(val, seqno)];
      return true;
    }

    /** `remove` (lines 522-611). */
    method Remove(key: int, seqno: int, checkSeq: bool) returns (r: bool)
      requires Valid()
      modifies this`data, this`maxSeq, deleted
      ensures State() == Step(old(State()), Access(Op.Remove(key, seqno), checkSeq), deleted.maxSize)
      ensures SameView(old(State()), State()) && maxSeq == if seqno > old(maxSeq) then seqno else old(maxSeq)
      ensures r <==> !(key in old(deleted.byKey) && old(deleted.byKey)[key] > seqno)
      ensures old(Disjoint(Db())) ==> RemovedFor(old(Db()), Db(), key, seqno, checkSeq, deleted.maxSize)
    {
      if Disjoint(Db()) { RemoveReads(Db(), key, seqno, checkSeq, deleted.maxSize); }
      r := RemoveRecord(key, seqno, checkSeq);
    }

    method RemoveRecord(key: int, seqno: int, checkSeq: bool) returns (r: bool)
      requires Valid()
      modifies this`data, this`maxSeq, deleted
      ensures Db() == RemoveStep(old(Db()), key, seqno, checkSeq, deleted.maxSize) &&
        r == !NewerThan(old(deleted.State()), key, seqno)
      ensures maxSeq == if seqno > old(maxSeq) then seqno else old(maxSeq)
    {
      if seqno > maxSeq { maxSeq := seqno; }
      var isDeleted, deletedSeq := deleted.CheckAndRemove(key, seqno);
      if isDeleted && deletedSeq > seqno { return false; }
      if checkSeq && key in data && data[key].seqno > seqno { return true; }
      data := data - {key};
      deleted.Add(key, seqno);
      return true;
    }

    /** `init_snapshot` (lines 769-835). */
    method InitSnapshot()
      requires Valid() && Allowed(State(), Init)
      modifies this`sp, this`id, this`disk, this`caches
      ensures State() == Step(old(State()), Init, deleted.maxSize)
      ensures old(id) == -1 && !busy ==> ViewOf(State()) == View(StoredRecords(data), map[], map[])
    {
      if id != -1 || busy { return; }
      sp, id := Snap(data), id + 1;
      disk := disk[id := Files(Tombs(spDeleted.byKey, spDeleted.bySeq), maxSeq)];
      caches := caches[id := cache];
    }

    /** `load_serverside_snapshot_files` (lines 1047-1103). */
    method LoadServerside(at: int)
      requires Valid() && at in disk
      modifies this`sp, this`recovered, this`maxSeq, spDeleted
      ensures State() == LoadStep(old(State()), at)
    {
      recovered, sp := Snap(data), NoSnap;
      spDeleted.Restore(disk[at].tombs);
      maxSeq := disk[at].maxSeq;
    }

    method RollBack()
      requires Valid() && id - 1 in disk
      modifies this, spDeleted
      ensures State() == RolledBack(old(State()))
    {
      cache := map[];
      LoadServerside(id - 1);
      if id - 1 in caches { cache := caches[id - 1]; }
      id := id - 1;
    }

    method Forget(at: int)
      requires Valid()
      modifies this`latest, this`disk, this`caches, latestDeleted
      ensures State() ==
        old(State()).(latest := NoSnap, latestTombs := NONE, disk := old(disk) - {at}, caches := old(caches) - {at})
    {
      disk, caches := disk - {at}, caches - {at};
      latest := NoSnap;
      latestDeleted.Clear();
    }

    /** `clean_snapshot` (lines 838-885): the next snapshot is forgotten and the one in use stays, or the one in use
        gives way to the database as it is now, beside the deletions in the files of its predecessor. */
    method CleanSnapshot(at: int)
      requires Valid() && Allowed(State(), Clean(at))
      modifies this, spDeleted, latestDeleted
      ensures State() == Step(old(State()), Clean(at), deleted.maxSize)
      ensures latest == NoSnap && at !in disk
      ensures old(id) >= 0 && at == old(id) + 1 ==> SameView(old(State()), State())
      ensures old(id) >= 0 && at == old(id) ==>
        && at - 1 in old(disk) && id == at - 1 && sp == NoSnap
        && recovered == Snap(data) && data == old(data) && spDeleted.State() == old(disk)[at - 1].tombs
    {
      CleanMeans(State(), at, deleted.maxSize);
      if id == -1 { InitSnapshot(); }
      Forget(at);
      if at == id { RollBack(); }
    }

    /** `make_snapshot` (lines 889-964): it succeeds once until the next stop, and then holds the store as it is. */
    method MakeSnapshot(at: int) returns (r: bool)
      requires Valid() && Allowed(State(), Make(at))
      modifies this`busy, this`latest, this`disk, latestDeleted
      ensures State() == Step(old(State()), Make(at), deleted.maxSize) && (r <==> old(id) != -1 && !old(busy))
      ensures SameView(old(State()), State()) && Db() == old(Db())
      ensures if r then busy && latest == Snap(data) && latestDeleted.State() == deleted.State()
        else State() == old(State())
    {
      if id == -1 || busy { return false; }
      busy := true;
      latest := Snap(data);
      latestDeleted.Assign(deleted);
      disk := disk[id + 1 := Files(Tombs(spDeleted.byKey, spDeleted.bySeq), maxSeq)];
      return true;
    }

    method Install()
      requires Valid() && (latest.Snap? || id + 1 in disk)
      modifies this`sp, this`recovered, this`maxSeq, spDeleted
      ensures State() == Installed(old(State()))
    {
      sp := NoSnap;
      if latest.Snap? {
        sp := latest;
        spDeleted.Assign(latestDeleted);
      } else {
        LoadServerside(id + 1);
      }
    }

    /** The records of the switch are stored, and the files of an older snapshot removed (lines 1015-1027). */
    method KeepFiles()
      requires Valid()
      modifies this`disk, this`caches
      ensures disk == old(disk) - Expired(id) && caches == old(caches)[id := cache] - Expired(id)
    {
      caches := caches[id := cache];
      if id >= 2 {
        disk, caches := disk - {id - 2}, caches - {id - 2};
      } else {
        assert disk - {} == disk && caches - {} == caches;
      }
    }

    /** `update_snapshot` (lines 968-1030): range queries read the captured pair and the records of the switch. */
    method UpdateSnapshot(inswitch: map<int, SRec>, at: int)
      requires Valid() && Allowed(State(), Update(inswitch, at))
      modifies this, spDeleted, latestDeleted
      ensures State() == Step(old(State()), Update(inswitch, at), deleted.maxSize)
      ensures id == at && data == old(data) && deleted.State() == old(deleted.State()) && cache == inswitch
      ensures old(latest).Snap? ==> sp == old(latest) && spDeleted.State() == old(latestDeleted.State())
    {
      Install();
      latest := NoSnap;
      latestDeleted.Clear();
      cache, id := inswitch, id + 1;
      KeepFiles();
    }

    /** `stop_snapshot` (lines 1033-1041). */
    method StopSnapshot()
      requires Valid()
      modifies this`busy
      ensures State() == Step(old(State()), Act.Stop, deleted.maxSize) && SameView(old(State()), State())
    {
      busy := false;
    }

    /** The database that range queries read: the snapshot, or else the checkpoint of a load. */
    ghost function InUseData(): map<int, Rec>
      requires sp.Snap? || recovered.Snap?
      reads this
    {
      if sp.Snap? then sp.data else recovered.data
    }

    /** `range_scan` (lines 613-737): it reads nothing but the snapshot in use. It ends the program exactly on a bad
        count or on a key that its scans get to among both the records and the deletions, and else answers the live
        records among what the scans of its three sources get to. */
    method RangeQuery(start: int, limit: Limit) returns (ok: bool, res: Entries, ghost full: Entries)
      requires Valid() && (sp.Snap? || recovered.Snap?)
      ensures ok <==> (limit.UpTo? || 0 < limit.n <= 1000) && ScansApart(ViewOf(State()), start, limit)
      ensures ok ==> Ascending(full)
      ensures ok ==> forall x: Entry :: x in full <==> IsLive(CutView(ViewOf(State()), start, limit), x)
      ensures ok ==> res == if limit.AtMost? && |full| > limit.n then full[..limit.n] else full
      ensures ok && limit.UpTo? ==>
        forall x: Entry :: x in res <==> start <= x.0 <= limit.end && IsLive(ViewOf(State()), x)
      ensures ok <==> (limit.UpTo? || 0 < limit.n <= 1000) && forall k ::
        Reached(InUseData().Keys, start, limit, k) ==> !Reached(spDeleted.byKey.Keys, start, limit, k)
      ensures ok ==> forall x: Entry :: x in full <==>
        Counts(CutTo(InUseData(), start, limit), CutTo(spDeleted.byKey, start, limit), CutTo(cache, start, limit), x)
      ensures limit.UpTo? ==>
        (ok <==> forall k :: start <= k <= limit.end && k in InUseData() ==> k !in spDeleted.byKey)
      ensures ok && limit.UpTo? ==> forall x: Entry :: x in res <==>
        start <= x.0 <= limit.end && Counts(InUseData(), spDeleted.byKey, cache, x)
    {
      var source := if sp.Snap? then sp.data else recovered.data;
      var view := View(StoredRecords(source), Deletions(spDeleted.byKey), cache);
      assert view.db.Keys == source.Keys && view.dead.Keys == spDeleted.byKey.Keys;
      ok, res, full := RangeScan(view, start, limit);
      if limit.UpTo? { RangeApart(view, start, limit.end); }
      if !ok { return; }
      forall x: Entry ensures x in full <==>
        Counts(CutTo(source, start, limit), CutTo(spDeleted.byKey, start, limit), CutTo(cache, start, limit), x) {
        ViewCounts(source, spDeleted.byKey, cache, start, limit, x);
      }
      if limit.UpTo? {
        forall x: Entry ensures IsLive(CutView(ViewOf(State()), start, limit), x) <==>
            start <= x.0 <= limit.end && IsLive(ViewOf(State()), x) {
          RangeIsRight(ViewOf(State()), start, limit.end, x);
        }
      }
    }
  }
}
