/** Range queries over a snapshot (common/rocksdb_wrapper.c:613-737, 1219-1309): records of the database,
    of the deletions and of the in-switch cache, merged by sequence number. */
module RangeScans {
  import opened Common
  import opened DeletedSets
  import opened Maps

  /** `snapshot_record_t`; `stat` is false for a deletion. */
  datatype SRec = SRec(val: int, seqno: int, stat: bool)
  type Entry = (int, SRec)
  type Entries = seq<Entry>

  ghost predicate Ascending(e: Entries) { forall i, j :: 0 <= i < j < |e| ==> e[i].0 < e[j].0 }

  ghost predicate Below(e: Entries, k: int) { forall x :: x in e ==> x.0 < k }

  /** Of two records of a key the one with the larger number counts; the first list has precedence. */
  ghost predicate Wins(a: Entries, b: Entries, x: Entry) {
    || (x in a && forall y :: y in b && y.0 == x.0 ==> x.1.seqno >= y.1.seqno)
    || (x in b && forall y :: y in a && y.0 == x.0 ==> y.1.seqno < x.1.seqno)
  }

  /** `res` merges `a` and `b`; with `live`, deletions are left out. */
  ghost predicate MergeOf(a: Entries, b: Entries, res: Entries, live: bool) {
    Ascending(res) && forall x :: x in res <==> Wins(a, b, x) && (live ==> x.1.stat)
  }

  function Kept(res: Entries, x: Entry, live: bool): Entries { if !live || x.1.stat then res + [x] else res }

  lemma AppendAscending(res: Entries, x: Entry)
    requires Ascending(res) && Below(res, x.0)
    ensures Ascending(res + [x]) && forall y :: y in res + [x] <==> y in res || y == x
  {
    assert forall i :: 0 <= i < |res| ==> res[i] in res;
  }

  /** The next entry comes from the first list alone. */
  lemma MergeFirst(a: Entries, b: Entries, res: Entries, x: Entry, live: bool)
    requires MergeOf(a, b, res, live) && Below(a, x.0) && Below(b, x.0)
    ensures MergeOf(a + [x], b, Kept(res, x, live), live)
  {
    if !live || x.1.stat { AppendAscending(res, x); }
    forall y ensures Wins(a + [x], b, y) <==> Wins(a, b, y) || y == x {}
  }

  /** The next entry comes from the second list alone. */
  lemma MergeSecond(a: Entries, b: Entries, res: Entries, x: Entry, live: bool)
    requires MergeOf(a, b, res, live) && Below(a, x.0) && Below(b, x.0)
    ensures MergeOf(a, b + [x], Kept(res, x, live), live)
  {
    if !live || x.1.stat { AppendAscending(res, x); }
    forall y ensures Wins(a, b + [x], y) <==> Wins(a, b, y) || y == x {}
  }

  /** Both lists have the key. */
  lemma MergeBoth(a: Entries, b: Entries, res: Entries, x: Entry, y: Entry, live: bool)
    requires MergeOf(a, b, res, live) && Below(a, x.0) && Below(b, x.0) && x.0 == y.0
    ensures MergeOf(a + [x], b + [y], Kept(res, if x.1.seqno >= y.1.seqno then x else y, live), live)
  {
    var w := if x.1.seqno >= y.1.seqno then x else y;
    if !live || w.1.stat { AppendAscending(res, w); }
    forall z ensures Wins(a + [x], b + [y], z) <==> Wins(a, b, z) || z == w {}
  }

  /** The state of the two-index loop: the first `i` and `j` entries are merged, the rest comes after them. */
  ghost predicate Merging(a: Entries, b: Entries, i: nat, j: nat, res: Entries, live: bool) {
    && i <= |a| && j <= |b| && MergeOf(a[..i], b[..j], res, live)
    && (i < |a| ==> Below(b[..j], a[i].0)) && (j < |b| ==> Below(a[..i], b[j].0))
  }

  lemma TakeFirst(a: Entries, b: Entries, i: nat, j: nat, res: Entries, live: bool)
    requires Ascending(a) && Ascending(b) && Merging(a, b, i, j, res, live) && i < |a| && (j < |b| ==> a[i].0 < b[j].0)
    ensures Merging(a, b, i + 1, j, Kept(res, a[i], live), live)
  {
    assert a[..i + 1] == a[..i] + [a[i]];
    MergeFirst(a[..i], b[..j], res, a[i], live);
  }

  lemma TakeSecond(a: Entries, b: Entries, i: nat, j: nat, res: Entries, live: bool)
    requires Ascending(a) && Ascending(b) && Merging(a, b, i, j, res, live) && j < |b| && (i < |a| ==> b[j].0 < a[i].0)
    ensures Merging(a, b, i, j + 1, Kept(res, b[j], live), live)
  {
    assert b[..j + 1] == b[..j] + [b[j]];
    MergeSecond(a[..i], b[..j], res, b[j], live);
  }

  lemma TakeBoth(a: Entries, b: Entries, i: nat, j: nat, res: Entries, live: bool)
    requires Ascending(a) && Ascending(b) && Merging(a, b, i, j, res, live) && i < |a| && j < |b| && a[i].0 == b[j].0
    ensures Merging(a, b, i + 1, j + 1, Kept(res, if a[i].1.seqno >= b[j].1.seqno then a[i] else b[j], live), live)
  {
    assert a[..i + 1] == a[..i] + [a[i]] && b[..j + 1] == b[..j] + [b[j]];
    MergeBoth(a[..i], b[..j], res, a[i], b[j], live);
  }

  ghost predicate NoShared(a: Entries, b: Entries) { forall x, y :: x in a && y in b ==> x.0 != y.0 }

  /** An entry before everything left of the other list, and after what was taken of it, has a key of its own. */
  lemma PassFirst(a: Entries, b: Entries, i: nat, j: nat)
    requires Ascending(b) && i < |a| && j < |b| && a[i].0 < b[j].0 && Below(b[..j], a[i].0) && NoShared(a[..i], b)
    ensures NoShared(a[..i + 1], b)
  {
    assert a[..i + 1] == a[..i] + [a[i]];
    forall y | y in b ensures y.0 != a[i].0 {
      var n :| 0 <= n < |b| && b[n] == y;
      if n < j { assert y in b[..j]; }
    }
  }

  /** Lines 1246-1293: until one list is used up. */
  method MergeBothLists(a: Entries, b: Entries, live: bool) returns (ok: bool, res: Entries, i: nat, j: nat)
    requires Ascending(a) && Ascending(b)
    ensures ok ==> Merging(a, b, i, j, res, live) && (i == |a| || j == |b|)
    ensures ok && !live ==> NoShared(a[..i], b) && NoShared(b[..j], a)
    ensures !ok ==> !live && !NoShared(a, b)
  {
    res, i, j := [], 0, 0;
    while i < |a| && j < |b|
      invariant Merging(a, b, i, j, res, live) && (live || (NoShared(a[..i], b) && NoShared(b[..j], a)))
      decreases |a| + |b| - i - j
    {
      if a[i].0 < b[j].0 {
        TakeFirst(a, b, i, j, res, live);
        if !live { PassFirst(a, b, i, j); }
        res, i := Kept(res, a[i], live), i + 1;
      } else if a[i].0 > b[j].0 {
        TakeSecond(a, b, i, j, res, live);
        if !live { PassFirst(b, a, j, i); }
        res, j := Kept(res, b[j], live), j + 1;
      } else {
        if !live {
          assert a[i] in a && b[j] in b;
          return false, [], i, j;
        }
        TakeBoth(a, b, i, j, res, live);
        res := Kept(res, if a[i].1.seqno >= b[j].1.seqno then a[i] else b[j], live);
        i, j := i + 1, j + 1;
      }
    }
    ok := true;
  }

  /** `merge_sort` (lines 1219-1309); `ok` is false where the source ends the program on an equal key. */
  method MergeSort(a: Entries, b: Entries, live: bool) returns (ok: bool, res: Entries)
    requires Ascending(a) && Ascending(b)
    ensures ok <==> live || NoShared(a, b)
    ensures ok ==> MergeOf(a, b, res, live)
  {
    var i, j;
    ok, res, i, j := MergeBothLists(a, b, live);
    if !ok { return; }
    assert a[..|a|] == a && b[..|b|] == b;
    assert live || NoShared(a, b);
    while i < |a|
      invariant Merging(a, b, i, j, res, live) && (i == |a| || j == |b|)
    {
      TakeFirst(a, b, i, j, res, live);
      res, i := Kept(res, a[i], live), i + 1;
    }
    while j < |b|
      invariant Merging(a, b, i, j, res, live) && i == |a|
    {
      TakeSecond(a, b, i, j, res, live);
      res, j := Kept(res, b[j], live), j + 1;
    }
  }

  // ---------------------------------------------------------------- one source

  /** The two builds: scan up to an end key, or scan a number of records of each source. */
  datatype Limit = UpTo(end: int) | AtMost(n: nat)

  predicate InRange(limit: Limit, start: int, k: int) { start <= k && (limit.UpTo? ==> k <= limit.end) }

  /** The keys of a source from `start` to `k`. */
  ghost function Upto(keys: set<int>, start: int, k: int): set<int> { set j | j in keys && start <= j <= k }

  /** The scan of a source gets as far as `k`: it is in range, and the count is not used up before it. */
  ghost predicate Reached(keys: set<int>, start: int, limit: Limit, k: int) {
    k in keys && InRange(limit, start, k) && (limit.AtMost? ==> |Upto(keys, start, k)| <= limit.n)
  }

  /** `e` lists, in order, the entries of `m` that the scan gets to. */
  ghost predicate SourceOf(m: map<int, SRec>, start: int, limit: Limit, e: Entries) {
    Ascending(e) && forall x :: x in e <==> Reached(m.Keys, start, limit, x.0) && m[x.0] == x.1
  }

  /** Scanning one ordered map (lines 651-690 and 703-711; deleted_set_impl.h:109-122). */
  method ScanSource(m: map<int, SRec>, start: int, limit: Limit) returns (e: Entries)
    ensures SourceOf(m, start, limit, e)
  {
    e := [];
    var left := set k | k in m && start <= k;
    while left != {}
      invariant left <= m.Keys && (forall k :: k in left ==> start <= k) && (limit.AtMost? ==> |e| <= limit.n)
      invariant Ascending(e) && (forall x :: x in e ==> x.0 in m && m[x.0] == x.1 && InRange(limit, start, x.0))
      invariant forall k :: k in left ==> Below(e, k)
      invariant forall k :: k in m && start <= k && k !in left ==> (k, m[k]) in e
      decreases |left|
    {
      var k := Least(left);
      if limit.AtMost? && |e| >= limit.n { break; }
      if limit.UpTo? && k > limit.end { break; }
      AppendAscending(e, (k, m[k]));
      e := e + [(k, m[k])];
      left := left - {k};
    }
    forall x: Entry ensures x in e <==> Reached(m.Keys, start, limit, x.0) && m[x.0] == x.1 {
      ScannedIs(m, start, limit, e, left, x);
    }
  }

  lemma {:induction false} DistinctKeys(keys: set<int>, e: Entries)
    requires Ascending(e) && forall i :: 0 <= i < |e| ==> e[i].0 in keys
    ensures |e| <= |keys|
  {
    if e != [] {
      var n := |e| - 1;
      DistinctKeys(keys - {e[n].0}, e[..n]);
    }
  }

  /** As many keys as the list has places, at most. */
  lemma {:induction false} FewKeys(keys: set<int>, e: Entries)
    requires forall k :: k in keys ==> exists i :: 0 <= i < |e| && e[i].0 == k
    ensures |keys| <= |e|
  {
    if e == [] {
      assert (forall k :: k !in keys) ==> keys == {};
    } else {
      var n := |e| - 1;
      forall k | k in keys - {e[n].0} ensures exists i :: 0 <= i < |e[..n]| && e[..n][i].0 == k {
        var i :| 0 <= i < |e| && e[i].0 == k;
        assert e[..n][i].0 == k;
      }
      FewKeys(keys - {e[n].0}, e[..n]);
    }
  }

  /** `left` was not scanned because the end of the range or the count was reached. */
  lemma ScannedIs(m: map<int, SRec>, start: int, limit: Limit, e: Entries, left: set<int>, x: Entry)
    requires Ascending(e) && (forall y :: y in e ==> y.0 in m && m[y.0] == y.1 && InRange(limit, start, y.0))
    requires left <= m.Keys && (forall k :: k in left ==> start <= k && Below(e, k)) &&
      (limit.AtMost? ==> |e| <= limit.n)
    requires forall k :: k in m && start <= k && k !in left ==> (k, m[k]) in e
    requires left != {} ==> if limit.AtMost? then |e| >= limit.n else forall k :: k in left ==> k > limit.end
    ensures x in e <==> Reached(m.Keys, start, limit, x.0) && m[x.0] == x.1
  {
    var k := x.0;
    if x in e && limit.AtMost? {
      forall j | j in Upto(m.Keys, start, k) ensures exists i :: 0 <= i < |e| && e[i].0 == j {
        assert (j, m[j]) in e;
        var i :| 0 <= i < |e| && e[i] == (j, m[j]);
        assert e[i].0 == j;
      }
      FewKeys(Upto(m.Keys, start, k), e);
    }
    if k in left && limit.AtMost? {
      var keys := Upto(m.Keys, start, k);
      forall i | 0 <= i < |e| ensures e[i].0 in keys - {k} { assert e[i] in e; }
      DistinctKeys(keys - {k}, e);
    }
  }

  // ---------------------------------------------------------------- the query

  /** What a range query reads: the database, the deletions and the in-switch records of one snapshot. */
  datatype View = View(db: map<int, SRec>, dead: map<int, SRec>, cache: map<int, SRec>)

  ghost predicate ViewOk(v: View) { forall k :: k in v.db ==> k !in v.dead }

  /** The record of a key that counts: the largest sequence number, the server's side first. */
  ghost function Best(v: View, k: int): Option<SRec> {
    var server := if k in v.db then Some(v.db[k]) else if k in v.dead then Some(v.dead[k]) else None;
    if k !in v.cache then server
    else if server.Some? && server.value.seqno >= v.cache[k].seqno then server
    else Some(v.cache[k])
  }

  ghost predicate IsLive(v: View, x: Entry) { Best(v, x.0) == Some(x.1) && x.1.stat }

  /** What the scans of the three sources get to. */
  ghost function CutTo<T>(m: map<int, T>, start: int, limit: Limit): map<int, T> {
    map k | k in m && Reached(m.Keys, start, limit, k) :: m[k]
  }

  ghost function CutView(v: View, start: int, limit: Limit): View {
    View(CutTo(v.db, start, limit), CutTo(v.dead, start, limit), CutTo(v.cache, start, limit))
  }

  /** No key is among the records and the deletions that the scans get to. */
  ghost predicate ScansApart(v: View, start: int, limit: Limit) {
    forall k :: Reached(v.db.Keys, start, limit, k) ==> !Reached(v.dead.Keys, start, limit, k)
  }

  lemma ServerIs(v: View, a: Entries, d: Entries, server: Entries, k: int)
    requires ViewOk(v) && MergeOf(a, d, server, false)
    requires (forall r :: (k, r) in a <==> k in v.db && v.db[k] == r) &&
      (forall r :: (k, r) in d <==> k in v.dead && v.dead[k] == r)
    ensures forall r :: (k, r) in server <==> (k in v.db && v.db[k] == r) || (k in v.dead && v.dead[k] == r)
  {
    forall r ensures (k, r) in server <==> (k, r) in a || (k, r) in d {
      assert (k, r) in server <==> Wins(a, d, (k, r));
    }
  }

  /** Merging three lists of a view gives its live records. */
  lemma MergedIsLive(v: View, a: Entries, d: Entries, c: Entries, server: Entries, full: Entries, x: Entry)
    requires ViewOk(v) && MergeOf(a, d, server, false) && MergeOf(server, c, full, true)
    requires forall r :: (x.0, r) in a <==> x.0 in v.db && v.db[x.0] == r
    requires forall r :: (x.0, r) in d <==> x.0 in v.dead && v.dead[x.0] == r
    requires forall r :: (x.0, r) in c <==> x.0 in v.cache && v.cache[x.0] == r
    ensures x in full <==> IsLive(v, x)
  {
    var k := x.0;
    ServerIs(v, a, d, server, k);
    if k in v.db { assert (k, v.db[k]) in server; }
    if k in v.dead && k !in v.db { assert (k, v.dead[k]) in server; }
    if k in v.cache { assert (k, v.cache[k]) in c; }
  }

  /** The merged lists are the live records of what the scans got to. */
  lemma MergedIsBest(v: View, start: int, limit: Limit, a: Entries, d: Entries, c: Entries, server: Entries,
      full: Entries, x: Entry)
    requires ScansApart(v, start, limit) && SourceOf(v.db, start, limit, a) && SourceOf(v.dead, start, limit, d)
    requires SourceOf(v.cache, start, limit, c) && MergeOf(a, d, server, false) && MergeOf(server, c, full, true)
    ensures x in full <==> IsLive(CutView(v, start, limit), x)
  {
    MergedIsLive(CutView(v, start, limit), a, d, c, server, full, x);
  }

  /** `range_scan` (lines 613-737) over a snapshot. `full` is the merged list before it is cut to the count: exactly the
      live records of what the scans of the three sources got to. The program ends on a bad count, and on a key that
      the scans get to among both the records and the deletions. */
  method RangeScan(v: View, start: int, limit: Limit) returns (ok: bool, res: Entries, ghost full: Entries)
    ensures ok <==> (limit.UpTo? || 0 < limit.n <= 1000) && ScansApart(v, start, limit)
    ensures ok ==> Ascending(full) && forall x: Entry :: x in full <==> IsLive(CutView(v, start, limit), x)
    ensures ok ==> res == if limit.AtMost? && |full| > limit.n then full[..limit.n] else full
  {
    res, full := [], [];
    if limit.AtMost? && !(0 < limit.n <= 1000) { return false, [], []; }
    var a := ScanSource(v.db, start, limit);
    var d := ScanSource(v.dead, start, limit);
    var c := ScanSource(v.cache, start, limit);
    NoneShared(v, start, limit, a, d);
    var server, merged;
    ok, server := MergeSort(a, d, false);
    if !ok { return; }
    ok, merged := MergeSort(server, c, true);
    full := merged;
    res := if limit.AtMost? && |merged| > limit.n then merged[..limit.n] else merged;
    forall x: Entry ensures x in full <==> IsLive(CutView(v, start, limit), x) {
      MergedIsBest(v, start, limit, a, d, c, server, full, x);
    }
  }

  lemma NoneShared(v: View, start: int, limit: Limit, a: Entries, d: Entries)
    requires SourceOf(v.db, start, limit, a) && SourceOf(v.dead, start, limit, d)
    ensures NoShared(a, d) <==> ScansApart(v, start, limit)
  {
    if !ScansApart(v, start, limit) {
      var k :| Reached(v.db.Keys, start, limit, k) && Reached(v.dead.Keys, start, limit, k);
      assert (k, v.db[k]) in a && (k, v.dead[k]) in d;
    }
  }

  // ---------------------------------------------------------------- when the answer is right

  /** With an end key the scans get to the whole range, so the answer is exactly its live records. */
  lemma RangeIsRight(v: View, start: int, end: int, x: Entry)
    ensures IsLive(CutView(v, start, UpTo(end)), x) <==> start <= x.0 <= end && IsLive(v, x)
  {
  }

  /** And it ends the program exactly on a key of the range among both the records and the deletions. */
  lemma RangeApart(v: View, start: int, end: int)
    ensures ScansApart(v, start, UpTo(end)) <==> forall k :: k in v.db && start <= k <= end ==> k !in v.dead
  {
    if ScansApart(v, start, UpTo(end)) {
      forall k | k in v.db && start <= k <= end ensures k !in v.dead { assert Reached(v.db.Keys, start, UpTo(end), k); }
    }
  }

  /** The scan of a source misses nothing up to `k`: either nothing at all, or it gets to a key from `k` on. */
  ghost predicate CoversTo(m: map<int, SRec>, start: int, n: nat, k: int) {
    || (forall j :: j in m && start <= j ==> Reached(m.Keys, start, AtMost(n), j))
    || (exists j :: k <= j && Reached(m.Keys, start, AtMost(n), j))
  }

  lemma CoversAll(m: map<int, SRec>, start: int, n: nat, k: int)
    requires CoversTo(m, start, n, k)
    ensures k in m && start <= k <==> Reached(m.Keys, start, AtMost(n), k)
  {
    if k in m && start <= k && exists j :: k <= j && Reached(m.Keys, start, AtMost(n), j) {
      var j :| k <= j && Reached(m.Keys, start, AtMost(n), j);
      Subset(Upto(m.Keys, start, k), Upto(m.Keys, start, j));
    }
  }

  /** With a count the answer is exactly the live records up to the least of the last keys that the scans cut short get
      to. */
  lemma CountIsRight(v: View, start: int, n: nat, x: Entry)
    requires CoversTo(v.db, start, n, x.0) && CoversTo(v.dead, start, n, x.0) && CoversTo(v.cache, start, n, x.0)
    ensures IsLive(CutView(v, start, AtMost(n)), x) <==> start <= x.0 && IsLive(v, x)
  {
    CoversAll(v.db, start, n, x.0);
    CoversAll(v.dead, start, n, x.0);
    CoversAll(v.cache, start, n, x.0);
  }

  /** The record of the server's side: the database's or the deletion's. */
  ghost function ServerSide(v: View): map<int, SRec> { v.dead + v.db }

  /** The server's side has the record that counts for `k`. */
  ghost predicate ServerWins(v: View, k: int) {
    k in ServerSide(v) && (k in v.cache ==> ServerSide(v)[k].seqno >= v.cache[k].seqno)
  }

  ghost predicate ServerReached(v: View, start: int, limit: Limit, k: int) {
    Reached(v.db.Keys, start, limit, k) || Reached(v.dead.Keys, start, limit, k)
  }

  lemma CutSides(v: View, start: int, limit: Limit, k: int)
    requires ViewOk(v)
    ensures var cut := CutView(v, start, limit);
      && (k in cut.db || k in cut.dead <==> ServerReached(v, start, limit, k)) &&
          (k in cut.cache <==> Reached(v.cache.Keys, start, limit, k))
      && (k in ServerSide(v) <==> k in v.db || k in v.dead)
      && (k in v.db ==> ServerSide(v)[k] == v.db[k]) && (k in v.dead ==> ServerSide(v)[k] == v.dead[k])
  {
  }

  /** With a count, a live record is missed exactly if no scan of a source that has it gets to it. */
  lemma MissedIff(v: View, start: int, limit: Limit, x: Entry)
    requires ViewOk(v) && IsLive(v, x)
    ensures !IsLive(CutView(v, start, limit), x) <==>
      && (x.0 in ServerSide(v) && ServerSide(v)[x.0] == x.1 ==> !ServerReached(v, start, limit, x.0))
      && (x.0 in v.cache && v.cache[x.0] == x.1 ==> !Reached(v.cache.Keys, start, limit, x.0))
  {
    CutSides(v, start, limit, x.0);
  }

  /** And a record that does not count comes out exactly if the scan of the source that has it gets to it, and that
      of the source with the better record does not. */
  lemma RevivedIff(v: View, start: int, limit: Limit, x: Entry)
    requires ViewOk(v) && !IsLive(v, x)
    ensures IsLive(CutView(v, start, limit), x) <==>
      && x.1.stat && x.0 in v.cache && x.0 in ServerSide(v)
      && if ServerWins(v, x.0)
         then x.1 == v.cache[x.0] && Reached(v.cache.Keys, start, limit, x.0) && !ServerReached(v, start, limit, x.0)
         else
           x.1 == ServerSide(v)[x.0] && ServerReached(v, start, limit, x.0) &&
               !Reached(v.cache.Keys, start, limit, x.0)
  {
    CutSides(v, start, limit, x.0);
  }

  /** Counting records is not counting live ones: with one record per source, the scan of the deletions stops at
      key 1 and the cached record of key 5, deleted since, comes back. */
  lemma CutShortRevives()
    ensures var v, x := View(map[], map[1 := SRec(0, 2, false), 5 := SRec(0, 3, false)], map[5 := SRec(7, 1, true)]),
      (5, SRec(7, 1, true));
      IsLive(CutView(v, 0, AtMost(1)), x) && !IsLive(v, x)
  {
    var v := View(map[], map[1 := SRec(0, 2, false), 5 := SRec(0, 3, false)], map[5 := SRec(7, 1, true)]);
    assert Upto(v.cache.Keys, 0, 5) == {5} && Upto(v.dead.Keys, 0, 5) == {1, 5};
    RevivedIff(v, 0, AtMost(1), (5, SRec(7, 1, true)));
  }
}
