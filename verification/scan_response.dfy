/** The reply to a range query (common/packet_format_impl.h:1142-1295) with its keys and values
    (common/val.c:8-17, 369-452), as bytes in a fixed buffer, in a growing buffer, and back. */
module ScanResponses {
  import opened Common
  import opened Fragments
  import Keys
  import DynamicArrays
  import DeletedSets

  datatype Response = Response(optype: int, global: int, spine: int, leaf: int, key: Keys.Key, endKey: Keys.Key,
                               curScan: int, maxScan: int, curSwitch: int, maxSwitch: int, node: int, snapshot: int,
                               pairs: seq<(Keys.Key, Bytes)>)

  // ---------------------------------------------------------------- layout

  predicate SingleSwitch(m: MethodId) { m == FarReach || m == NoCache || m == NetCache }

  /** `get_split_prev_bytes` (lines 108-134). */
  function SplitPrevBytes(m: MethodId): nat { if SingleSwitch(m) then 3 else 4 }

  /** `get_padding_size` (val.c:8-17): short values are padded to whole 8 bytes. */
  function Padding(len: nat): (n: nat)
    ensures n < 8 && (len <= 128 ==> (len + n) % 8 == 0) && (len > 128 ==> n == 0)
  {
    if len <= 128 && len % 8 != 0 then 8 - len % 8 else 0
  }

  function Zeros(n: nat): (b: Bytes)
    ensures |b| == n
  {
    seq(n, _ => 0)
  }

  /** The fields of the header in order (lines 211-233, 1156-1187). */
  function Fields(m: MethodId, r: Response): seq<Bytes> {
    [Big16(r.optype)]
    + (if m == DistCache then [Big16(r.spine), Big16(r.leaf)] else if SingleSwitch(m) then [] else [Big16(r.global)])
    + [Keys.Serialize(r.key), Keys.Serialize(r.endKey), Zeros(SplitPrevBytes(m)), Big16(r.curScan), Big16(r.maxScan)]
    + (if SingleSwitch(m) then [] else [Big16(r.curSwitch), Big16(r.maxSwitch)])
    + [Big16(r.node), DeletedSets.Little(r.snapshot), Keys.Word(|r.pairs|)]
  }

  /** Their sizes. */
  function Sizes(m: MethodId): seq<nat> {
    [2] + (if m == DistCache then [2, 2] else if SingleSwitch(m) then [] else [2])
    + [16, 16, SplitPrevBytes(m), 2, 2] + (if SingleSwitch(m) then [] else [2, 2]) + [2, 4, 4]
  }

  ghost predicate Sized(fields: seq<Bytes>, sizes: seq<nat>) {
    |fields| == |sizes| && forall i :: 0 <= i < |fields| ==> |fields[i]| == sizes[i]
  }

  lemma FieldSizes(m: MethodId, r: Response)
    ensures Sized(Fields(m, r), Sizes(m))
  {
  }

  function Joined(fields: seq<Bytes>): Bytes {
    if fields == [] then [] else Joined(fields[..|fields| - 1]) + fields[|fields| - 1]
  }

  /** A key and a value of any length (val.c:418-434). */
  function Pair(p: (Keys.Key, Bytes)): (b: Bytes)
    ensures |b| == 20 + |p.1| + Padding(|p.1|)
  {
    Keys.Serialize(p.0) + Keys.Word(|p.1|) + p.1 + Zeros(Padding(|p.1|))
  }

  function Pairs(ps: seq<(Keys.Key, Bytes)>): (items: seq<Bytes>)
    ensures |items| == |ps| && forall i :: 0 <= i < |ps| ==> items[i] == Pair(ps[i])
  {
    seq(|ps|, i requires 0 <= i < |ps| => Pair(ps[i]))
  }

  function Encoded(m: MethodId, r: Response): Bytes { Joined(Fields(m, r) + Pairs(r.pairs)) }

  // ---------------------------------------------------------------- writing

  lemma JoinedNext(fields: seq<Bytes>, i: nat)
    requires i < |fields|
    ensures Joined(fields[..i + 1]) == Joined(fields[..i]) + fields[i]
  {
    assert fields[..i + 1][..i] == fields[..i];
  }

  /** `memcpy` to the cursor of a fixed buffer. */
  method Write(data: array<int>, off: nat, b: Bytes, ghost done: Bytes) returns (off': nat)
    requires off + |b| <= data.Length && data[..off] == done
    modifies data
    ensures off' == off + |b| && data[..off'] == done + b
  {
    forall i | 0 <= i < |b| { data[off + i] := b[i]; }
    off' := off + |b|;
    assert data[..off] == done;
  }

  /** Field after field, then pair after pair. */
  method WriteFields(data: array<int>, fields: seq<Bytes>) returns (ok: bool, off: nat)
    modifies data
    ensures ok <==> |Joined(fields)| <= data.Length
    ensures ok ==> off == |Joined(fields)| && data[..off] == Joined(fields)
  {
    off := 0;
    for i := 0 to |fields|
      invariant off <= data.Length && data[..off] == Joined(fields[..i])
    {
      JoinedNext(fields, i);
      JoinedLength(fields, i + 1);
      if off + |fields[i]| > data.Length { return false, off; }
      off := Write(data, off, fields[i], Joined(fields[..i]));
    }
    assert fields[..|fields|] == fields;
    ok := true;
  }

  /** `serialize` (lines 1152-1198); `ok` is false where the buffer is too small. */
  method Serialize(m: MethodId, r: Response, data: array<int>) returns (ok: bool, size: nat)
    modifies data
    ensures ok <==> |Encoded(m, r)| <= data.Length
    ensures ok ==> size == |Encoded(m, r)| && data[..size] == Encoded(m, r)
  {
    ok, size := WriteFields(data, Fields(m, r) + Pairs(r.pairs));
  }

  /** `dynamic_memcpy` at the cursor of a growing buffer. */
  method Append(dyn: DynamicArrays.DynamicArray, off: nat, b: Bytes, ghost done: Bytes) returns (ok: bool)
    requires dyn.Valid() && dyn.data.Length > 0 && off <= |dyn.Contents()| && dyn.Contents()[..off] == done
    modifies dyn, dyn.data
    ensures dyn.Valid() && (dyn.data == old(dyn.data) || fresh(dyn.data)) && dyn.data.Length > 0
    ensures ok <==> off + |b| <= dyn.maxCapability
    ensures ok ==> off + |b| <= |dyn.Contents()| && dyn.Contents()[..off + |b|] == done + b
  {
    DynamicArrays.SplicedPrefix(dyn.Contents(), off, b);
    ok := dyn.Memcpy(off, b);
  }

  method AppendFields(dyn: DynamicArrays.DynamicArray, fields: seq<Bytes>) returns (ok: bool, off: nat)
    requires dyn.Valid() && dyn.data.Length > 0
    modifies dyn, dyn.data
    ensures dyn.Valid() && (dyn.data == old(dyn.data) || fresh(dyn.data)) && dyn.data.Length > 0
    ensures ok <==> |Joined(fields)| <= dyn.maxCapability
    ensures ok ==> off == |Joined(fields)| <= |dyn.Contents()| && dyn.Contents()[..off] == Joined(fields)
  {
    off := 0;
    for i := 0 to |fields|
      invariant dyn.Valid() && (dyn.data == old(dyn.data) || fresh(dyn.data)) && dyn.data.Length > 0
      invariant off <= |dyn.Contents()| && off <= dyn.maxCapability && dyn.Contents()[..off] == Joined(fields[..i])
    {
      JoinedNext(fields, i);
      JoinedLength(fields, i + 1);
      ok := Append(dyn, off, fields[i], Joined(fields[..i]));
      if !ok { return; }
      off := off + |fields[i]|;
    }
    assert fields[..|fields|] == fields;
    ok := true;
  }

  // ---------------------------------------------------------------- the second sequence of writes

  /** `Key::dynamic_serialize` (common/key.c): five copies. */
  function KeyWrites(k: Keys.Key): seq<Bytes> {
    [Keys.Word(k.lolo), Keys.Word(k.lohi), Keys.Word(k.hilo), Big16(k.hihi % WORD16), Big16(k.hihi / WORD16 % WORD16)]
  }

  /** `dynamic_serialize_large` (val.c:436-452): nothing but the length is written of an empty value. */
  function ValWrites(v: Bytes): seq<Bytes> {
    [Keys.Word(|v|)] + if |v| == 0 then [] else [v] + if Padding(|v|) > 0 then [Zeros(Padding(|v|))] else []
  }

  /** `dynamic_serialize_ophdr` (lines 236-255), up to the key. */
  function OpWrites(m: MethodId, optype: int, global: int, spine: int, leaf: int): seq<Bytes> {
    if SingleSwitch(m) then [Big16(optype)]
    else if m == DistCache then [Big16(optype), Big16(spine), Big16(leaf)]
    else [Big16(optype), Big16(global)]
  }

  function TypeWrites(m: MethodId, r: Response): seq<Bytes> { OpWrites(m, r.optype, r.global, r.spine, r.leaf) }

  /** What follows the end key (lines 1211-1236). */
  function SplitWrites(m: MethodId, r: Response): seq<Bytes> {
    [Zeros(SplitPrevBytes(m)), Big16(r.curScan), Big16(r.maxScan)]
    + (if !SingleSwitch(m) then [Big16(r.curSwitch), Big16(r.maxSwitch)] else [])
    + [Big16(r.node), DeletedSets.Little(r.snapshot), Keys.Word(|r.pairs|)]
  }

  function HdrWrites(m: MethodId, r: Response): seq<Bytes> {
    TypeWrites(m, r) + KeyWrites(r.key) + KeyWrites(r.endKey) + SplitWrites(m, r)
  }

  /** The pairs (lines 1238-1245). */
  function PairWrites(ps: seq<(Keys.Key, Bytes)>): seq<Bytes> {
    if ps == [] then [] else PairWrites(ps[..|ps| - 1]) + KeyWrites(ps[|ps| - 1].0) + ValWrites(ps[|ps| - 1].1)
  }

  lemma {:induction false} JoinedConcat(a: seq<Bytes>, b: seq<Bytes>)
    ensures Joined(a + b) == Joined(a) + Joined(b)
  {
    if b == [] {
      assert a + b == a;
    } else {
      var n := |b| - 1;
      JoinedConcat(a, b[..n]);
      assert (a + b)[..|a + b| - 1] == a + b[..n];
    }
  }

  lemma JoinedOne(a: Bytes)
    ensures Joined([a]) == a
  {
    assert [a][..0] == [];
  }

  lemma JoinedTwo(a: Bytes, b: Bytes)
    ensures Joined([a, b]) == a + b
  {
    assert [a, b][..1] == [a];
    JoinedOne(a);
  }

  lemma JoinedThree(a: Bytes, b: Bytes, c: Bytes)
    ensures Joined([a, b, c]) == a + b + c
  {
    assert [a, b, c][..2] == [a, b];
    JoinedTwo(a, b);
  }

  lemma TwoHalves(h: int)
    ensures Big16(h % WORD16) + Big16(h / WORD16 % WORD16) ==
      [h / 256 % 256, h % 256, h / 0x100_0000 % 256, h / 0x1_0000 % 256]
  {
    Half(h);
    Half(h / WORD16);
    assert h / WORD16 / 256 == h / 0x100_0000;
  }

  lemma Half(h: int)
    ensures h % WORD16 / 256 == h / 256 % 256 && h % WORD16 % 256 == h % 256
  {
    var q, r := h / WORD16, h % WORD16;
    assert h == q * WORD16 + r && h / 256 == q * 256 + r / 256;
  }

  lemma KeyJoined(k: Keys.Key)
    ensures Joined(KeyWrites(k)) == Keys.Serialize(k)
  {
    var a, b, c := Keys.Word(k.lolo), Keys.Word(k.lohi), Keys.Word(k.hilo);
    var d, e := Big16(k.hihi % WORD16), Big16(k.hihi / WORD16 % WORD16);
    JoinedThree(a, b, c);
    JoinedTwo(d, e);
    JoinedConcat([a, b, c], [d, e]);
    TwoHalves(k.hihi);
    assert KeyWrites(k) == [a, b, c] + [d, e];
  }

  lemma ValJoined(v: Bytes)
    ensures Joined(ValWrites(v)) == Keys.Word(|v|) + v + Zeros(Padding(|v|))
  {
    JoinedOne(Keys.Word(|v|));
    var w, z := Keys.Word(|v|), Zeros(Padding(|v|));
    if |v| > 0 {
      JoinedOne(v);
      JoinedOne(z);
      JoinedConcat([w], [v]);
      JoinedConcat([w] + [v], [z]);
      assert Padding(|v|) > 0 ==> ValWrites(v) == [w] + [v] + [z];
      assert Padding(|v|) == 0 ==> ValWrites(v) == [w] + [v] && z == [];
    }
  }

  lemma {:induction false} PairsJoined(ps: seq<(Keys.Key, Bytes)>)
    ensures Joined(PairWrites(ps)) == Joined(Pairs(ps))
  {
    if ps != [] {
      var n := |ps| - 1;
      PairsJoined(ps[..n]);
      KeyJoined(ps[n].0);
      ValJoined(ps[n].1);
      JoinedConcat(PairWrites(ps[..n]), KeyWrites(ps[n].0));
      JoinedConcat(PairWrites(ps[..n]) + KeyWrites(ps[n].0), ValWrites(ps[n].1));
      assert Pairs(ps)[..n] == Pairs(ps[..n]);
    }
  }

  /** A key written in five copies stands for the one field of its bytes, wherever it stands. */
  lemma KeyInside(a: seq<Bytes>, k: Keys.Key, b: seq<Bytes>)
    ensures Joined(a + KeyWrites(k) + b) == Joined(a + [Keys.Serialize(k)] + b)
  {
    KeyJoined(k);
    JoinedOne(Keys.Serialize(k));
    JoinedConcat(a, KeyWrites(k));
    JoinedConcat(a, [Keys.Serialize(k)]);
    JoinedConcat(a + KeyWrites(k), b);
    JoinedConcat(a + [Keys.Serialize(k)], b);
  }

  lemma FieldsAre(m: MethodId, r: Response)
    ensures Fields(m, r) == TypeWrites(m, r) + [Keys.Serialize(r.key)] + [Keys.Serialize(r.endKey)] + SplitWrites(m, r)
  {
  }

  lemma HdrJoined(m: MethodId, r: Response)
    ensures Joined(HdrWrites(m, r)) == Joined(Fields(m, r))
  {
    var a, b, key, end := TypeWrites(m, r), SplitWrites(m, r), Keys.Serialize(r.key), Keys.Serialize(r.endKey);
    KeyInside(a, r.key, KeyWrites(r.endKey) + b);
    KeyInside(a + [key], r.endKey, b);
    assert HdrWrites(m, r) == a + KeyWrites(r.key) + (KeyWrites(r.endKey) + b);
    assert a + [key] + (KeyWrites(r.endKey) + b) == a + [key] + KeyWrites(r.endKey) + b;
    FieldsAre(m, r);
  }

  /** Both sequences of writes give the same bytes. */
  lemma SameBytes(m: MethodId, r: Response)
    ensures Joined(HdrWrites(m, r) + PairWrites(r.pairs)) == Encoded(m, r)
  {
    HdrJoined(m, r);
    PairsJoined(r.pairs);
    JoinedConcat(HdrWrites(m, r), PairWrites(r.pairs));
    JoinedConcat(Fields(m, r), Pairs(r.pairs));
  }

  /** `dynamic_serialize` (lines 1201-1247): the bytes that `serialize` writes. */
  method DynamicSerialize(m: MethodId, r: Response, dyn: DynamicArrays.DynamicArray) returns (ok: bool, size: nat)
    requires dyn.Valid() && dyn.data.Length > 0
    modifies dyn, dyn.data
    ensures dyn.Valid() && (ok <==> |Encoded(m, r)| <= dyn.maxCapability)
    ensures ok ==> size == |Encoded(m, r)| <= |dyn.Contents()| && dyn.Contents()[..size] == Encoded(m, r)
  {
    SameBytes(m, r);
    ok, size := AppendFields(dyn, HdrWrites(m, r) + PairWrites(r.pairs));
  }

  lemma {:induction false} JoinedLength(fields: seq<Bytes>, i: nat)
    requires i <= |fields|
    ensures |Joined(fields[..i])| <= |Joined(fields)|
    decreases |fields| - i
  {
    if i < |fields| {
      JoinedNext(fields, i);
      JoinedLength(fields, i + 1);
    } else {
      assert fields[..i] == fields;
    }
  }

  // ---------------------------------------------------------------- reading

  /** The fields that travel for a method; the others come back as zero. */
  function Carried(m: MethodId, r: Response): Response {
    r.(global := if SingleSwitch(m) || m == DistCache then 0 else r.global,
       spine := if m == DistCache then r.spine else 0, leaf := if m == DistCache then r.leaf else 0,
       curSwitch := if SingleSwitch(m) then 0 else r.curSwitch, maxSwitch := if SingleSwitch(m) then 0 else r.maxSwitch)
  }

  /** All fields fit their widths. */
  ghost predicate Fits(r: Response) {
    && 0 <= r.optype < WORD16 && 0 <= r.global < WORD16 && 0 <= r.spine < WORD16 && 0 <= r.leaf < WORD16
    && 0 <= r.curScan < WORD16 && 0 <= r.maxScan < WORD16 && 0 <= r.curSwitch < WORD16 && 0 <= r.maxSwitch < WORD16
    && 0 <= r.node < WORD16 && 0 <= r.snapshot < 0x8000_0000 && |r.pairs| < 0x8000_0000
    && Keys.IsKey(r.key) && Keys.IsKey(r.endKey)
    && (forall i :: 0 <= i < |r.pairs| ==> Keys.IsKey(r.pairs[i].0) && |r.pairs[i].1| < Keys.WORD32)
  }

  /** What is left of a joined list after its first `i` pieces. */
  ghost predicate Left(data: Bytes, off: nat, pieces: seq<Bytes>, i: nat) {
    i <= |pieces| && off <= |data| && data[..off] == Joined(pieces[..i]) && data == Joined(pieces)
  }

  lemma {:induction false} NextPiece(data: Bytes, off: nat, pieces: seq<Bytes>, i: nat)
    requires Left(data, off, pieces, i) && i < |pieces|
    ensures off + |pieces[i]| <= |data| && data[off..off + |pieces[i]|] == pieces[i] &&
      Left(data, off + |pieces[i]|, pieces, i + 1)
  {
    JoinedNext(pieces, i);
    JoinedPrefix(pieces, i + 1);
    assert data[..off + |pieces[i]|] == Joined(pieces[..i + 1]);
    assert data[off..off + |pieces[i]|] == data[..off + |pieces[i]|][off..];
  }

  lemma {:induction false} JoinedPrefix(pieces: seq<Bytes>, i: nat)
    requires i <= |pieces|
    ensures |Joined(pieces[..i])| <= |Joined(pieces)| && Joined(pieces)[..|Joined(pieces[..i])|] == Joined(pieces[..i])
    decreases |pieces| - i
  {
    if i < |pieces| {
      JoinedNext(pieces, i);
      JoinedPrefix(pieces, i + 1);
      var a, b := Joined(pieces[..i]), Joined(pieces[..i + 1]);
      assert Joined(pieces)[..|a|] == b[..|a|];
    } else {
      assert pieces[..i] == pieces;
    }
  }

  /** The header's fields, cut by their sizes. */
  method ReadFields(data: Bytes, sizes: seq<nat>, ghost pieces: seq<Bytes>)
      returns (ok: bool, fields: seq<Bytes>, off: nat)
    ensures ok ==> Sized(fields, sizes)
    ensures data == Joined(pieces) && |sizes| <= |pieces| && Sized(pieces[..|sizes|], sizes) ==>
      ok && fields == pieces[..|sizes|] && Left(data, off, pieces, |sizes|)
  {
    ghost var genuine := data == Joined(pieces) && |sizes| <= |pieces| && Sized(pieces[..|sizes|], sizes);
    fields, off := [], 0;
    for i := 0 to |sizes|
      invariant off <= |data| && |fields| == i && forall j :: 0 <= j < i ==> |fields[j]| == sizes[j]
      invariant genuine ==> Left(data, off, pieces, i) && fields == pieces[..i]
    {
      if genuine { NextPiece(data, off, pieces, i); assert pieces[..|sizes|][i] == pieces[i]; }
      if off + sizes[i] > |data| { return false, [], 0; }
      fields := fields + [data[off..off + sizes[i]]];
      off := off + sizes[i];
    }
    ok := true;
  }

  /** The pair `q` is encoded at `off`. */
  ghost predicate PairAt(data: Bytes, off: nat, q: (Keys.Key, Bytes)) {
    Keys.IsKey(q.0) && |q.1| < Keys.WORD32 && off + |Pair(q)| <= |data| && data[off..off + |Pair(q)|] == Pair(q)
  }

  /** One key and value (lines 1288-1293; val.c:369-416). */
  method ReadPair(data: Bytes, off: nat, ghost q: (Keys.Key, Bytes)) returns (ok: bool, p: (Keys.Key, Bytes), off': nat)
    requires off <= |data|
    ensures off' <= |data|
    ensures PairAt(data, off, q) ==> ok && p == q && off' == off + |Pair(q)|
  {
    p := (Keys.Key(0, 0, 0, 0), []);
    if PairAt(data, off, q) { PairParts(data, off, q); }
    if off + 20 > |data| { return false, p, off; }
    var key, len := Keys.Deserialize(data[off..off + 16]), Keys.FromWord(data[off + 16..off + 20]);
    if len < 0 || off + 20 + len + Padding(len) > |data| { return false, p, off; }
    p := (key, data[off + 20..off + 20 + len]);
    return true, p, off + 20 + len + Padding(len);
  }

  lemma PairParts(data: Bytes, off: nat, q: (Keys.Key, Bytes))
    requires PairAt(data, off, q)
    ensures data[off..off + 16] == Keys.Serialize(q.0) && data[off + 16..off + 20] == Keys.Word(|q.1|) &&
      data[off + 20..off + 20 + |q.1|] == q.1
    ensures Keys.Deserialize(data[off..off + 16]) == q.0 && Keys.FromWord(data[off + 16..off + 20]) == |q.1|
  {
    var b := data[off..off + |Pair(q)|];
    FourParts(Keys.Serialize(q.0), Keys.Word(|q.1|), q.1, Zeros(Padding(|q.1|)));
    SubSlice(data, off, |b|, 0, 16);
    SubSlice(data, off, |b|, 16, 20);
    SubSlice(data, off, |b|, 20, 20 + |q.1|);
    Keys.SerializeBack(q.0);
    Keys.WordBack(|q.1|);
  }

  lemma SubSlice(data: Bytes, off: nat, n: nat, i: nat, j: nat)
    requires off + n <= |data| && i <= j <= n
    ensures data[off..off + n][i..j] == data[off + i..off + j]
  {
    var a, b := data[off..off + n][i..j], data[off + i..off + j];
    assert |a| == |b| == j - i;
    forall k | 0 <= k < j - i ensures a[k] == b[k] { assert a[k] == data[off..off + n][i + k] == data[off + (i + k)]; }
  }

  lemma FourParts(a: Bytes, b: Bytes, c: Bytes, d: Bytes)
    ensures var x := a + b + c + d;
      x[..|a|] == a && x[|a|..|a| + |b|] == b && x[|a| + |b|..|a| + |b| + |c|] == c
  {
  }

  lemma HeaderBack(r: Response)
    requires Fits(r)
    ensures FromBig16(Big16(r.optype)) == r.optype && FromBig16(Big16(r.global)) == r.global
    ensures FromBig16(Big16(r.spine)) == r.spine && FromBig16(Big16(r.leaf)) == r.leaf
    ensures FromBig16(Big16(r.curScan)) == r.curScan && FromBig16(Big16(r.maxScan)) == r.maxScan
    ensures FromBig16(Big16(r.curSwitch)) == r.curSwitch && FromBig16(Big16(r.maxSwitch)) == r.maxSwitch
    ensures FromBig16(Big16(r.node)) == r.node && DeletedSets.FromLittle(DeletedSets.Little(r.snapshot)) == r.snapshot
    ensures Keys.FromWord(Keys.Word(|r.pairs|)) == |r.pairs|
    ensures Keys.Deserialize(Keys.Serialize(r.key)) == r.key && Keys.Deserialize(Keys.Serialize(r.endKey)) == r.endKey
  {
    Keys.SerializeBack(r.key);
    Keys.SerializeBack(r.endKey);
    Keys.WordBack(|r.pairs|);
    DeletedSets.LittleBack(r.snapshot);
  }

  /** The header without its pairs, and how many pairs follow. */
  datatype Header = Header(r: Response, count: int)

  function ParseHeader(m: MethodId, f: seq<Bytes>): Header
    requires Sized(f, Sizes(m))
  {
    var k := if m == DistCache then 2 else if SingleSwitch(m) then 0 else 1;
    var j := if SingleSwitch(m) then k + 6 else k + 8;
    Header(Response(FromBig16(f[0]), if k == 1 then FromBig16(f[1]) else 0,
                    if k == 2 then FromBig16(f[1]) else 0, if k == 2 then FromBig16(f[2]) else 0,
                    Keys.Deserialize(f[k + 1]), Keys.Deserialize(f[k + 2]), FromBig16(f[k + 4]), FromBig16(f[k + 5]),
                    if SingleSwitch(m) then 0 else FromBig16(f[k + 6]), if SingleSwitch(m) then 0
                        else FromBig16(f[k + 7]),
                    FromBig16(f[j]), DeletedSets.FromLittle(f[j + 1]), []),
           Keys.FromWord(f[j + 2]))
  }

  lemma ParseBack(m: MethodId, r: Response)
    requires Fits(r)
    ensures Sized(Fields(m, r), Sizes(m)) &&
      ParseHeader(m, Fields(m, r)) == Header(Carried(m, r).(pairs := []), |r.pairs|)
  {
    FieldSizes(m, r);
    HeaderBack(r);
  }


  /** The fields come first ... */
  lemma FieldsFirst(m: MethodId, r: Response)
    ensures var pieces := Fields(m, r) + Pairs(r.pairs);
      |Sizes(m)| <= |pieces| && pieces[..|Sizes(m)|] == Fields(m, r) && Sized(Fields(m, r), Sizes(m))
  {
    FieldSizes(m, r);
  }

  /** ... and then the pairs. */
  lemma PairsLast(m: MethodId, r: Response, data: Bytes, off: nat)
    requires Fits(r) && Left(data, off, Fields(m, r) + Pairs(r.pairs), |Sizes(m)|)
    ensures PairsAhead(data, off, |r.pairs|, Fields(m, r) + Pairs(r.pairs), |Sizes(m)|, r.pairs)
  {
    FieldSizes(m, r);
  }

  /** `deserialize` (lines 1250-1295) of a whole packet: what was encoded comes back, for every method and any
      number of pairs of any length. */
  method Deserialize(m: MethodId, data: Bytes, ghost r: Response) returns (o: Option<Response>)
    ensures data == Encoded(m, r) && Fits(r) ==> o == Some(Carried(m, r))
  {
    ghost var genuine := data == Encoded(m, r) && Fits(r);
    ghost var pieces := Fields(m, r) + Pairs(r.pairs);
    FieldsFirst(m, r);
    var ok, f, off := ReadFields(data, Sizes(m), pieces);
    if !ok { return None; }
    if genuine {
      ParseBack(m, r);
      PairsLast(m, r, data, off);
    }
    var h := ParseHeader(m, f);
    if !(0 <= h.count < 0x8000_0000) { return None; }
    var pairs;
    ok, pairs := ReadPairs(data, off, h.count, pieces, |Sizes(m)|, r.pairs);
    return if ok then Some(h.r.(pairs := pairs)) else None;
  }

  /** From piece `n` on there are the pairs and nothing else. */
  ghost predicate Ends(pieces: seq<Bytes>, n: nat, ps: seq<(Keys.Key, Bytes)>) {
    && n + |ps| == |pieces|
    && (forall i :: 0 <= i < |ps| ==> pieces[n + i] == Pair(ps[i]) && Keys.IsKey(ps[i].0) && |ps[i].1| < Keys.WORD32)
  }

  ghost predicate PairsAhead(data: Bytes, start: nat, count: nat, pieces: seq<Bytes>, n: nat,
      ps: seq<(Keys.Key, Bytes)>)
  {
    Ends(pieces, n, ps) && count == |ps| && Left(data, start, pieces, n)
  }

  /** The packet as it was put together. */
  datatype Layout = Layout(data: Bytes, pieces: seq<Bytes>, n: nat, ps: seq<(Keys.Key, Bytes)>)

  /** The first `i` pairs have been read. */
  ghost predicate PairNow(l: Layout, off: nat, i: nat, pairs: seq<(Keys.Key, Bytes)>) {
    match l
    case Layout(data, pieces, n, ps) =>
      Ends(pieces, n, ps) && i <= |ps| && Left(data, off, pieces, n + i) && pairs == ps[..i]
  }

  lemma PieceNext(data: Bytes, off: nat, pieces: seq<Bytes>, i: nat, q: (Keys.Key, Bytes))
    requires Left(data, off, pieces, i) && i < |pieces| && pieces[i] == Pair(q)
    requires Keys.IsKey(q.0) && |q.1| < Keys.WORD32
    ensures PairAt(data, off, q) && Left(data, off + |Pair(q)|, pieces, i + 1)
  {
    NextPiece(data, off, pieces, i);
  }

  lemma TakeNext(ps: seq<(Keys.Key, Bytes)>, i: nat)
    requires i < |ps|
    ensures ps[..i] + [ps[i]] == ps[..i + 1]
  {
  }

  lemma PairNext(l: Layout, off: nat, i: nat, pairs: seq<(Keys.Key, Bytes)>)
    requires PairNow(l, off, i, pairs) && i < |l.ps|
    ensures PairAt(l.data, off, l.ps[i]) && PairNow(l, off + |Pair(l.ps[i])|, i + 1, pairs + [l.ps[i]])
  {
    PieceNext(l.data, off, l.pieces, l.n + i, l.ps[i]);
    TakeNext(l.ps, i);
  }

  method ReadNext(data: Bytes, off: nat, pairs: seq<(Keys.Key, Bytes)>, ghost now: bool, ghost l: Layout, ghost i: nat)
    returns (ok: bool, pairs': seq<(Keys.Key, Bytes)>, off': nat)
    requires off <= |data| && (now ==> l.data == data && PairNow(l, off, i, pairs) && i < |l.ps|)
    ensures off' <= |data| && (now ==> ok && PairNow(l, off', i + 1, pairs'))
  {
    ghost var q := (Keys.Key(0, 0, 0, 0), []);
    if now {
      PairNext(l, off, i, pairs);
      q := l.ps[i];
    }
    var p;
    ok, p, off' := ReadPair(data, off, q);
    pairs' := pairs + [p];
  }

  lemma AllRead(l: Layout, off: nat, pairs: seq<(Keys.Key, Bytes)>)
    requires PairNow(l, off, |l.ps|, pairs)
    ensures pairs == l.ps
  {
  }

  lemma NoneRead(data: Bytes, start: nat, count: nat, pieces: seq<Bytes>, n: nat, ps: seq<(Keys.Key, Bytes)>)
    requires PairsAhead(data, start, count, pieces, n, ps)
    ensures PairNow(Layout(data, pieces, n, ps), start, 0, []) && count == |ps| && start <= |data|
  {
  }

  /** Lines 1286-1294. */
  method ReadPairs(data: Bytes, start: nat, count: nat, ghost pieces: seq<Bytes>, ghost n: nat,
      ghost ps: seq<(Keys.Key, Bytes)>) returns (ok: bool, pairs: seq<(Keys.Key, Bytes)>)
    ensures PairsAhead(data, start, count, pieces, n, ps) ==> ok && pairs == ps
  {
    ghost var l := Layout(data, pieces, n, ps);
    ghost var now := PairsAhead(data, start, count, pieces, n, ps);
    if now { NoneRead(data, start, count, pieces, n, ps); }
    ok, pairs := ReadAll(data, start, count, now, l);
  }

  method ReadAll(data: Bytes, start: nat, count: nat, ghost now: bool, ghost l: Layout)
    returns (ok: bool, pairs: seq<(Keys.Key, Bytes)>)
    requires now ==> l.data == data && PairNow(l, start, 0, []) && count == |l.ps| && start <= |data|
    ensures now ==> ok && pairs == l.ps
  {
    var off: nat := start;
    pairs := [];
    if off > |data| { return false, []; }
    for i := 0 to count
      invariant off <= |data| && (now ==> PairNow(l, off, i, pairs))
    {
      ok, pairs, off := ReadNext(data, off, pairs, now, l, i);
      if !ok { return; }
    }
    ok := true;
    if now { AllRead(l, off, pairs); }
  }
}
