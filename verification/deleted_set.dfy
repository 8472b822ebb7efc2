/** `DeletedSet` (common/deleted_set_impl.h): the recently deleted keys with the sequence numbers of
    their deletion, indexed both ways. Keys are ranks (see `Keys`). */
module DeletedSets {
  import opened Common
  import opened Keys
  import opened Maps

  /** `records_sorted_bykey` and `records_sorted_byseq`. */
  datatype Tombs = Tombs(byKey: map<int, int>, bySeq: map<int, int>)

  const NONE := Tombs(map[], map[])

  // ---------------------------------------------------------------- ordered maps

  ghost predicate IsLeast(s: set<int>, x: int) { x in s && forall y :: y in s ==> x <= y }

  lemma {:induction false} LeastExists(s: set<int>)
    requires s != {}
    ensures exists x :: IsLeast(s, x)
  {
    assert (forall x :: x !in s) ==> s == {};
    var x :| x in s;
    if s - {x} == {} {
      assert s == {x};
      assert IsLeast(s, x);
    } else {
      LeastExists(s - {x});
      var y :| IsLeast(s - {x}, y);
      forall z | z in s ensures (if x <= y then x else y) <= z { assert z == x || z in s - {x}; }
      assert IsLeast(s, if x <= y then x else y);
    }
  }

  /** `begin()` of an ordered map. */
  function Least(s: set<int>): (x: int)
    requires s != {}
    ensures IsLeast(s, x)
  {
    LeastExists(s);
    var x :| x in s && forall y :: y in s ==> x <= y;
    x
  }

  /** `std::map::insert` keeps an entry that is there. */
  function Inserted(m: map<int, int>, k: int, v: int): map<int, int> { if k in m then m else m[k := v] }

  // ---------------------------------------------------------------- operations

  /** `add` (lines 29-60). */
  function Added(d: Tombs, key: int, seqno: int, maxSize: nat): Tombs {
    if key !in d.byKey then
      var d1 := Tombs(d.byKey[key := seqno], Inserted(d.bySeq, seqno, key));
      if |d1.byKey| > maxSize then
        assert seqno in d1.bySeq.Keys;
        var least := Least(d1.bySeq.Keys);
        Tombs(d1.byKey - {d1.bySeq[least]}, d1.bySeq - {least})
      else d1
    else if d.byKey[key] < seqno then
      Tombs(d.byKey[key := seqno], Inserted(d.bySeq - {d.byKey[key]}, seqno, key))
    else d
  }

  /** `check_and_remove` (lines 75-104): the key counts as deleted if its deletion is newer. */
  predicate NewerThan(d: Tombs, key: int, seqno: int) { key in d.byKey && d.byKey[key] > seqno }

  function Checked(d: Tombs, key: int, seqno: int): Tombs {
    if key in d.byKey && d.byKey[key] <= seqno then Tombs(d.byKey - {key}, d.bySeq - {d.byKey[key]}) else d
  }

  /** The two maps are inverses of each other. */
  ghost predicate InSync(d: Tombs) {
    && (forall k :: k in d.byKey ==> d.byKey[k] in d.bySeq && d.bySeq[d.byKey[k]] == k)
    && (forall s :: s in d.bySeq ==> d.bySeq[s] in d.byKey && d.byKey[d.bySeq[s]] == s)
  }

  ghost predicate UnusedSeq(d: Tombs, key: int, seqno: int) {
    forall k :: k in d.byKey && k != key ==> d.byKey[k] != seqno
  }

  /** What remembering a deletion does to the keys: the newer deletion of a key stays; past the limit the
      oldest deletion of all is forgotten. */
  ghost predicate Remembers(m: map<int, int>, m': map<int, int>, key: int, seqno: int, maxSize: nat) {
    if key in m then m' == (if m[key] < seqno then m[key := seqno] else m)
    else if |m| < maxSize then m' == m[key := seqno]
    else exists k :: Oldest(m[key := seqno], k) && m' == m[key := seqno] - {k}
  }

  ghost predicate Oldest(m: map<int, int>, k: int) {
    k in m && forall j :: j in m ==> m[k] <= m[j]
  }

  lemma EvictOldest(d: Tombs)
    requires InSync(d) && d.bySeq.Keys != {}
    ensures var least := Least(d.bySeq.Keys); var k := d.bySeq[least];
      InSync(Tombs(d.byKey - {k}, d.bySeq - {least})) && Oldest(d.byKey, k) && |d.byKey - {k}| == |d.byKey| - 1
  {
    var least := Least(d.bySeq.Keys);
    var k := d.bySeq[least];
    assert (d.byKey - {k}).Keys == d.byKey.Keys - {k};
    forall j | j in d.byKey ensures d.byKey[k] <= d.byKey[j] { assert d.byKey[j] in d.bySeq.Keys; }
  }

  /** A key not remembered so far, before the limit is applied. */
  lemma InsertKeepsSync(d: Tombs, key: int, seqno: int)
    requires InSync(d) && UnusedSeq(d, key, seqno) && key !in d.byKey
    ensures var d1 := Tombs(d.byKey[key := seqno], Inserted(d.bySeq, seqno, key));
      InSync(d1) && |d1.byKey| == |d.byKey| + 1 && seqno in d1.bySeq.Keys
  {
    assert forall k :: k in d.byKey ==> d.byKey[k] != seqno;
    assert seqno !in d.bySeq;
    Grown(d.byKey, key, seqno);
  }

  lemma ReplaceKeepsSync(d: Tombs, key: int, seqno: int)
    requires InSync(d) && UnusedSeq(d, key, seqno) && key in d.byKey && d.byKey[key] < seqno
    ensures var d1 := Tombs(d.byKey[key := seqno], Inserted(d.bySeq - {d.byKey[key]}, seqno, key));
      InSync(d1) && |d1.byKey| == |d.byKey|
  {
    assert forall k :: k in d.byKey ==> d.byKey[k] != seqno;
    assert seqno !in d.bySeq;
    assert d.byKey[key := seqno].Keys == d.byKey.Keys;
  }

  lemma AddKeepsSync(d: Tombs, key: int, seqno: int, maxSize: nat)
    requires InSync(d) && UnusedSeq(d, key, seqno)
    ensures InSync(Added(d, key, seqno, maxSize)) &&
      Remembers(d.byKey, Added(d, key, seqno, maxSize).byKey, key, seqno, maxSize)
    ensures |d.byKey| <= maxSize ==> |Added(d, key, seqno, maxSize).byKey| <= maxSize
  {
    if key !in d.byKey {
      InsertKeepsSync(d, key, seqno);
      EvictOldest(Tombs(d.byKey[key := seqno], Inserted(d.bySeq, seqno, key)));
    } else if d.byKey[key] < seqno {
      ReplaceKeepsSync(d, key, seqno);
    }
  }

  lemma CheckKeepsSync(d: Tombs, key: int, seqno: int)
    requires InSync(d)
    ensures InSync(Checked(d, key, seqno))
    ensures Checked(d, key, seqno).byKey == if key in d.byKey && !NewerThan(d, key, seqno) then d.byKey - {key}
      else d.byKey
  {
  }

  // ---------------------------------------------------------------- on disk

  const SEQ_LIMIT := 0x1_0000_0000

  /** A 32-bit number as it lies in memory on a little-endian host. */
  function Little(w: int): (b: Bytes)
    ensures |b| == 4
  {
    [w % 256, w / 256 % 256, w / 0x1_0000 % 256, w / 0x100_0000 % 256]
  }

  function FromLittle(b: Bytes): int
    requires |b| == 4
  {
    ((b[3] * 256 + b[2]) * 256 + b[1]) * 256 + b[0]
  }

  lemma LittleBack(w: int)
    requires 0 <= w < SEQ_LIMIT
    ensures FromLittle(Little(w)) == w
  {
    Quotients(w);
  }

  function Record(e: (int, int)): (b: Bytes)
    ensures |b| == 20
  {
    Serialize(Unrank(e.0)) + Little(e.1)
  }

  function Records(es: seq<(int, int)>): (b: Bytes)
    ensures |b| == 20 * |es|
  {
    if es == [] then [] else Records(es[..|es| - 1]) + Record(es[|es| - 1])
  }

  function Encoded(es: seq<(int, int)>): Bytes { Little(|es|) + Records(es) }

  ghost predicate Storable(es: seq<(int, int)>) {
    && |es| < SEQ_LIMIT
    && (forall i :: 0 <= i < |es| ==> 0 <= es[i].0 < RANKS && 0 <= es[i].1 < SEQ_LIMIT)
    && (forall i, j :: 0 <= i < j < |es| ==> es[i].0 != es[j].0 && es[i].1 != es[j].1)
  }

  /** The entries both ways, inserted one after the other. */
  ghost function Loaded(es: seq<(int, int)>): Tombs {
    if es == [] then NONE
    else
      var d, e := Loaded(es[..|es| - 1]), es[|es| - 1];
      Tombs(Inserted(d.byKey, e.0, e.1), Inserted(d.bySeq, e.1, e.0))
  }

  lemma {:induction false} RecordAt(es: seq<(int, int)>, i: nat)
    requires i < |es|
    ensures Records(es)[20 * i..20 * i + 20] == Record(es[i])
  {
    var n := |es| - 1;
    if i < n {
      RecordAt(es[..n], i);
      assert Records(es)[20 * i..20 * i + 20] == Records(es[..n])[20 * i..20 * i + 20];
    }
  }

  lemma RecordBack(e: (int, int))
    requires 0 <= e.0 < RANKS && 0 <= e.1 < SEQ_LIMIT
    ensures Rank(Deserialize(Record(e)[..16])) == e.0 && FromLittle(Record(e)[16..20]) == e.1
  {
    assert Record(e)[..16] == Serialize(Unrank(e.0)) && Record(e)[16..20] == Little(e.1);
    UnrankRank(e.0);
    SerializeBack(Unrank(e.0));
    LittleBack(e.1);
  }

  lemma EncodedAt(es: seq<(int, int)>, i: nat)
    requires i < |es|
    ensures |Encoded(es)| == 4 + 20 * |es| && Encoded(es)[..4] == Little(|es|)
    ensures Encoded(es)[4 + 20 * i..24 + 20 * i] == Record(es[i])
  {
    RecordAt(es, i);
    assert Encoded(es)[4 + 20 * i..24 + 20 * i] == Records(es)[20 * i..20 * i + 20];
  }

  lemma LittleAt(b: Bytes, i: nat, w: int)
    requires 0 <= w < SEQ_LIMIT && i + 4 <= |b| && b[i..i + 4] == Little(w)
    ensures LongReversed(b, i, w)
  {
    var x := b[i..i + 4];
    assert b[i] == x[0] && b[i + 1] == x[1] && b[i + 2] == x[2] && b[i + 3] == x[3];
    Quotients(w);
  }

  /** The file: the number of entries, then 20 bytes for each, its key and its number. */
  lemma FileLayout(es: seq<(int, int)>, i: nat)
    requires Storable(es) && i < |es|
    ensures var b := Encoded(es);
      && |b| == 4 + 20 * |es| && LongReversed(b, 0, |es|)
      && b[4 + 20 * i..20 + 20 * i] == Serialize(Unrank(es[i].0)) && LongReversed(b, 20 + 20 * i, es[i].1)
  {
    var b, at := Encoded(es), 4 + 20 * i;
    EncodedAt(es, i);
    assert b[0..4] == b[..4];
    LittleAt(b, 0, |es|);
    assert b[at..at + 16] == b[at..at + 20][..16] && b[at + 16..at + 20] == b[at..at + 20][16..20];
    assert Record(es[i])[..16] == Serialize(Unrank(es[i].0)) && Record(es[i])[16..20] == Little(es[i].1);
    LittleAt(b, at + 16, es[i].1);
  }

  /** The entries inserted one by one give the map the entries list, and its inverse. */
  lemma {:induction false} LoadedIs(es: seq<(int, int)>)
    requires Storable(es)
    ensures forall i :: 0 <= i < |es| ==> es[i].0 in Loaded(es).byKey && Loaded(es).byKey[es[i].0] == es[i].1
    ensures forall k {:trigger Listed(es, k)} :: k in Loaded(es).byKey ==> Listed(es, k)
    ensures InSync(Loaded(es))
  {
    if es != [] {
      var n := |es| - 1;
      var d, e := Loaded(es[..n]), es[n];
      LoadedIs(es[..n]);
      assert forall i :: 0 <= i < n ==> es[..n][i] == es[i];
      assert !Listed(es[..n], e.0);
      forall k | k in d.byKey ensures d.byKey[k] != e.1 {
        assert Listed(es[..n], k);
        var i :| 0 <= i < n && es[..n][i].0 == k;
        assert es[..n][i] == es[i];
      }
      InsertKeepsSync(d, e.0, e.1);
      forall i | 0 <= i < |es| ensures es[i].0 in Loaded(es).byKey && Loaded(es).byKey[es[i].0] == es[i].1 {
        if i < n { assert es[..n][i] == es[i]; }
      }
      forall k | k in Loaded(es).byKey ensures Listed(es, k) {
        if k in d.byKey {
          assert Listed(es[..n], k);
          var i :| 0 <= i < n && es[..n][i].0 == k;
          assert es[i].0 == k;
        }
      }
    }
  }

  ghost predicate Listed(es: seq<(int, int)>, k: int) { exists i :: 0 <= i < |es| && es[i].0 == k }

  /** `es` lists the entries of `m` for the keys in `done`, in order. */
  ghost predicate Lists(es: seq<(int, int)>, m: map<int, int>, done: set<int>) {
    && (forall i :: 0 <= i < |es| ==> es[i].0 in done && es[i].0 in m && m[es[i].0] == es[i].1)
    && (forall k {:trigger Listed(es, k)} :: k in done ==> Listed(es, k))
    && (forall i, j :: 0 <= i < j < |es| ==> es[i].0 < es[j].0)
  }

  /** One record more (lines 189-191). */
  method Written(records: Bytes, ghost es: seq<(int, int)>, e: (int, int)) returns (r: Bytes)
    requires records == Records(es)
    ensures r == Records(es + [e])
  {
    assert (es + [e])[..|es|] == es;
    r := records + (Serialize(Unrank(e.0)) + Little(e.1));
  }

  lemma ListNext(es: seq<(int, int)>, m: map<int, int>, done: set<int>, k: int)
    requires Lists(es, m, done) && k in m && forall i :: 0 <= i < |es| ==> es[i].0 < k
    ensures Lists(es + [(k, m[k])], m, done + {k})
  {
    var es' := es + [(k, m[k])];
    forall j | j in done + {k} ensures Listed(es', j) {
      if j == k {
        assert es'[|es|].0 == j;
      } else {
        assert Listed(es, j);
        var i :| 0 <= i < |es| && es[i].0 == j;
        assert es'[i].0 == j;
      }
    }
  }

  /** All entries but those of `left` are listed, and these come behind them. */
  ghost predicate Listing(es: seq<(int, int)>, m: map<int, int>, left: set<int>) {
    && left <= m.Keys && Lists(es, m, m.Keys - left)
    && forall i, k :: 0 <= i < |es| && k in left ==> es[i].0 < k
  }

  lemma ListingNext(es: seq<(int, int)>, m: map<int, int>, left: set<int>)
    requires Listing(es, m, left) && left != {}
    ensures var k := Least(left); Listing(es + [(k, m[k])], m, left - {k})
  {
    var k := Least(left);
    ListNext(es, m, m.Keys - left, k);
    assert m.Keys - (left - {k}) == m.Keys - left + {k};
  }

  /** The number of records a file announces: a file of fewer than four bytes is mapped with zeros behind it. */
  function Announced(content: Bytes): int { FromLittle((content + [0, 0, 0, 0])[..4]) }

  class DeletedSet {
    const maxSize: nat
    var byKey: map<int, int>
    var bySeq: map<int, int>

    ghost function State(): Tombs
      reads this
    {
      Tombs(byKey, bySeq)
    }

    /** Lines 10-13. */
    constructor (c: nat, rtt: nat)
      ensures State() == NONE && maxSize == 10 * c * rtt
    {
      maxSize := 10 * c * rtt;
      byKey, bySeq := map[], map[];
    }

    /** `add` (lines 29-60). */
    method Add(key: int, seqno: int)
      modifies this
      ensures State() == Added(old(State()), key, seqno, maxSize)
      ensures old(InSync(State()) && UnusedSeq(State(), key, seqno)) ==>
        InSync(State()) && Remembers(old(byKey), byKey, key, seqno, maxSize)
    {
      if InSync(State()) && UnusedSeq(State(), key, seqno) { AddKeepsSync(State(), key, seqno, maxSize); }
      if key !in byKey {
        byKey, bySeq := byKey[key := seqno], Inserted(bySeq, seqno, key);
        if |byKey| > maxSize {
          assert seqno in bySeq.Keys;
          var least := Least(bySeq.Keys);
          byKey, bySeq := byKey - {bySeq[least]}, bySeq - {least};
        }
      } else if byKey[key] < seqno {
        byKey, bySeq := byKey[key := seqno], Inserted(bySeq - {byKey[key]}, seqno, key);
      }
    }

    /** `check_and_remove` (lines 75-104); `deletedSeq` is -1 where the source leaves the caller's value. */
    method CheckAndRemove(key: int, seqno: int) returns (isDeleted: bool, deletedSeq: int)
      modifies this
      ensures State() == Checked(old(State()), key, seqno) && isDeleted == NewerThan(old(State()), key, seqno)
      ensures deletedSeq == if key in old(byKey) then old(byKey)[key] else -1
      ensures old(InSync(State())) ==> InSync(State())
    {
      if InSync(State()) { CheckKeepsSync(State(), key, seqno); }
      if key !in byKey { return false, -1; }
      deletedSeq := byKey[key];
      isDeleted := deletedSeq > seqno;
      if !isDeleted { byKey, bySeq := byKey - {key}, bySeq - {deletedSeq}; }
    }

    /** `operator=` (lines 16-20): the records are copied, so later changes to either set leave the other alone. */
    method Assign(other: DeletedSet)
      modifies this
      ensures State() == old(other.State())
    {
      byKey, bySeq := other.byKey, other.bySeq;
    }

    /** `load` of what `store` wrote, on values; `StoreThenLoad` is the same on bytes. */
    method Restore(stored: Tombs)
      modifies this
      ensures State() == stored
    {
      byKey, bySeq := stored.byKey, stored.bySeq;
    }

    /** `clear` (lines 127-130). */
    method Clear()
      modifies this
      ensures State() == NONE
    {
      byKey, bySeq := map[], map[];
    }

    /** The entries in the order of the map's iterator (line 188). */
    method Entries() returns (es: seq<(int, int)>)
      ensures Lists(es, byKey, byKey.Keys)
    {
      es := [];
      var left := byKey.Keys;
      while left != {}
        invariant Listing(es, byKey, left)
        decreases |left|
      {
        var k := Least(left);
        ListingNext(es, byKey, left);
        es := es + [(k, byKey[k])];
        left := left - {k};
      }
      assert byKey.Keys - left == byKey.Keys;
    }

    /** `store` (lines 174-196), as the bytes of the file. */
    method Store() returns (content: Bytes)
      ensures exists es :: content == Encoded(es) && Lists(es, byKey, byKey.Keys)
    {
      var entries := Entries();
      var records := [];
      for i := 0 to |entries|
        invariant records == Records(entries[..i])
      {
        assert entries[..i + 1] == entries[..i] + [entries[i]];
        records := Written(records, entries[..i], entries[i]);
      }
      assert entries[..|entries|] == entries;
      content := Little(|entries|) + records;
      assert content == Encoded(entries);
    }

    /** `load` (lines 133-171); `ok` is false where the file is empty or too short for what it announces. */
    method Load(content: Bytes, ghost es: seq<(int, int)>) returns (ok: bool)
      modifies this
      ensures ok <==> |content| > 0 && (Announced(content) <= 0 || |content| >= 4 + 20 * Announced(content))
      ensures IsFile(content, es) ==> ok && State() == Loaded(es)
    {
      byKey, bySeq := map[], map[];
      if |content| == 0 { return false; }
      var count := Announced(content);
      if IsFile(content, es) { FileAnnounces(content, es); }
      var i := 0;
      while i < count
        invariant 0 <= i && (i <= count || i == 0) && (i > 0 ==> |content| >= 4 + 20 * i)
        invariant IsFile(content, es) ==> i <= |es| && State() == Loaded(es[..i])
      {
        if |content| < 24 + 20 * i { return false; }
        var e := ReadRecord(content, i, es);
        assert IsFile(content, es) ==> es[..i + 1][..i] == es[..i];
        byKey, bySeq := Inserted(byKey, e.0, e.1), Inserted(bySeq, e.1, e.0);
        i := i + 1;
      }
      assert IsFile(content, es) ==> es[..i] == es;
      return true;
    }
  }

  ghost predicate IsFile(content: Bytes, es: seq<(int, int)>) { content == Encoded(es) && Storable(es) }

  lemma FileAnnounces(content: Bytes, es: seq<(int, int)>)
    requires IsFile(content, es)
    ensures |content| == 4 + 20 * |es| && Announced(content) == |es|
  {
    assert (content + [0, 0, 0, 0])[..4] == Little(|es|);
    LittleBack(|es|);
  }

  /** One record (lines 152-157). */
  method ReadRecord(content: Bytes, i: nat, ghost es: seq<(int, int)>) returns (e: (int, int))
    requires |content| >= 24 + 20 * i
    ensures IsFile(content, es) && i < |es| ==> e == es[i]
  {
    if IsFile(content, es) && i < |es| { EncodedAt(es, i); RecordBack(es[i]); }
    var r := content[4 + 20 * i..24 + 20 * i];
    e := (Rank(Deserialize(r[..16])), FromLittle(r[16..20]));
  }

  /** `load` after `store` restores both maps. */
  method StoreThenLoad(d: DeletedSet, into: DeletedSet)
    requires InSync(d.State()) && |d.byKey| < SEQ_LIMIT && d != into
    requires forall k :: k in d.byKey ==> 0 <= k < RANKS && 0 <= d.byKey[k] < SEQ_LIMIT
    modifies into
    ensures into.State() == d.State()
  {
    var content := d.Store();
    ghost var es :| content == Encoded(es) && Lists(es, d.byKey, d.byKey.Keys);
    EntriesStorable(d.State(), es);
    var ok := into.Load(content, es);
    SameTombs(into.State(), d.State(), es);
  }

  lemma EntriesStorable(d: Tombs, es: seq<(int, int)>)
    requires InSync(d) && |d.byKey| < SEQ_LIMIT && Lists(es, d.byKey, d.byKey.Keys)
    requires forall k :: k in d.byKey ==> 0 <= k < RANKS && 0 <= d.byKey[k] < SEQ_LIMIT
    ensures Storable(es)
  {
    ListedOnce(d.byKey.Keys, es);
    assert |d.byKey.Keys| == |d.byKey|;
    forall i, j | 0 <= i < j < |es| ensures es[i].0 != es[j].0 && es[i].1 != es[j].1 {
      assert es[i].0 < es[j].0;
      assert d.bySeq[d.byKey[es[i].0]] == es[i].0 && d.bySeq[d.byKey[es[j].0]] == es[j].0;
    }
  }

  lemma {:induction false} ListedOnce(keys: set<int>, es: seq<(int, int)>)
    requires forall i :: 0 <= i < |es| ==> es[i].0 in keys
    requires forall i, j :: 0 <= i < j < |es| ==> es[i].0 < es[j].0
    ensures |es| <= |keys|
  {
    if es != [] {
      var n := |es| - 1;
      ListedOnce(keys - {es[n].0}, es[..n]);
    }
  }

  lemma SameTombs(a: Tombs, b: Tombs, es: seq<(int, int)>)
    requires Storable(es) && InSync(b) && a == Loaded(es) && Lists(es, b.byKey, b.byKey.Keys)
    ensures a == b
  {
    LoadedIs(es);
    forall k | k in a.byKey ensures k in b.byKey && a.byKey[k] == b.byKey[k] {
      assert Listed(es, k);
      var i :| 0 <= i < |es| && es[i].0 == k;
    }
    forall k | k in b.byKey ensures k in a.byKey { assert Listed(es, k); var i :| 0 <= i < |es| && es[i].0 == k; }
    SameMap(a.byKey, b.byKey);
    SameInverse(a, b);
    SameInverse(b, a);
    SameMap(a.bySeq, b.bySeq);
  }

  lemma SameInverse(a: Tombs, b: Tombs)
    requires InSync(a) && InSync(b) && a.byKey == b.byKey
    ensures forall s :: s in a.bySeq ==> s in b.bySeq && b.bySeq[s] == a.bySeq[s]
  {
    forall s | s in a.bySeq ensures s in b.bySeq && b.bySeq[s] == a.bySeq[s] {
      var k := a.bySeq[s];
      assert k in b.byKey && b.byKey[k] == s;
    }
  }
}
