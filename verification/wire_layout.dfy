/** Where the fields of the reply to a range query are, byte by byte (common/packet_format_impl.h:13-39, 1142-1368), and
    whether the offsets that the client reads them at are right. */
module WireLayouts {
  import opened Common
  import opened Fragments
  import opened ScanResponses
  import Keys
  import DeletedSets

  // ---------------------------------------------------------------- pieces

  lemma ShortAt(b: Bytes, i: nat, x: int)
    requires 0 <= x < WORD16 && i + 2 <= |b| && b[i..i + 2] == Big16(x)
    ensures Short(b, i, x)
  {
    assert b[i] == b[i..i + 2][0] && b[i + 1] == b[i..i + 2][1];
  }

  lemma LongAt(b: Bytes, i: nat, x: int)
    requires 0 <= x < Keys.WORD32 && i + 4 <= |b| && b[i..i + 4] == Keys.Word(x)
    ensures Long(b, i, x)
  {
    var w := b[i..i + 4];
    assert b[i] == w[0] && b[i + 1] == w[1] && b[i + 2] == w[2] && b[i + 3] == w[3];
    Keys.WordAt(x);
  }

  // ---------------------------------------------------------------- the header

  /** How many switch indexes follow the packet type. */
  function Indexes(m: MethodId): nat { if SingleSwitch(m) then 0 else if m == DistCache then 2 else 1 }

  ghost function Pieces(m: MethodId, r: Response): seq<Bytes> { Fields(m, r) + Pairs(r.pairs) }

  /** Type, switch indexes and the two keys: the first key ends where the header of every packet does. */
  ghost predicate FrontAt(m: MethodId, r: Response, e: Bytes) {
    var h := OpHdrSize(m);
    && Short(e, 0, r.optype) && h + 16 <= |e| && h == 18 + 2 * Indexes(m)
    && (Indexes(m) == 1 ==> Short(e, 2, r.global)) && (m == DistCache ==> Short(e, 2, r.spine) && Short(e, 4, r.leaf))
    && e[h - 16..h] == Keys.Serialize(r.key) && e[h..h + 16] == Keys.Serialize(r.endKey)
  }

  /** The counts of servers, and of switches where there are several, behind a gap of zeros. */
  ghost predicate SplitAt(m: MethodId, r: Response, e: Bytes, at: nat) {
    var i := at + SplitPrevBytes(m);
    && i + 4 <= |e| && (forall j :: at <= j < i ==> e[j] == 0) && Short(e, i, r.curScan) && Short(e, i + 2, r.maxScan)
    && (!SingleSwitch(m) ==> Short(e, i + 4, r.curSwitch) && Short(e, i + 6, r.maxSwitch))
  }

  /** The server, the snapshot, lowest byte first, and the number of pairs. */
  ghost predicate TailAt(r: Response, e: Bytes, at: nat) {
    Short(e, at, r.node) && LongReversed(e, at + 2, r.snapshot) && Long(e, at + 6, |r.pairs|)
  }

  /** Where the server's index starts. */
  function TailOff(m: MethodId): nat { OpHdrSize(m) + 16 + SplitPrevBytes(m) + if SingleSwitch(m) then 4 else 8 }

  /** Piece `i` is `b`, and ends at `off`. */
  lemma PieceEnds(e: Bytes, p: seq<Bytes>, off: nat, i: nat, b: Bytes)
    requires Left(e, off, p, i) && i < |p| && p[i] == b
    ensures off + |b| <= |e| && e[off..off + |b|] == b && Left(e, off + |b|, p, i + 1)
  {
    NextPiece(e, off, p, i);
  }

  lemma ShortPiece(e: Bytes, p: seq<Bytes>, off: nat, i: nat, x: int)
    requires Left(e, off, p, i) && i < |p| && p[i] == Big16(x) && 0 <= x < WORD16
    ensures Short(e, off, x) && Left(e, off + 2, p, i + 1)
  {
    PieceEnds(e, p, off, i, Big16(x));
    ShortAt(e, off, x);
  }

  lemma LeftStart(m: MethodId, r: Response)
    ensures Left(Encoded(m, r), 0, Pieces(m, r), 0)
  {
  }

  /** The pieces of the front, in order. */
  ghost predicate FrontPieces(m: MethodId, r: Response, p: seq<Bytes>) {
    var k := Indexes(m);
    && |p| >= 3 + k && p[0] == Big16(r.optype) && (k == 1 ==> p[1] == Big16(r.global))
    && (k == 2 ==> p[1] == Big16(r.spine) && p[2] == Big16(r.leaf))
    && p[1 + k] == Keys.Serialize(r.key) && p[2 + k] == Keys.Serialize(r.endKey)
  }

  ghost predicate SplitPieces(m: MethodId, r: Response, p: seq<Bytes>, n: nat) {
    && |p| >= n + (if SingleSwitch(m) then 3 else 5) && p[n] == Zeros(SplitPrevBytes(m))
    && p[n + 1] == Big16(r.curScan) && p[n + 2] == Big16(r.maxScan)
    && (!SingleSwitch(m) ==> p[n + 3] == Big16(r.curSwitch) && p[n + 4] == Big16(r.maxSwitch))
  }

  ghost predicate TailPieces(r: Response, p: seq<Bytes>, n: nat) {
    && |p| >= n + 3 && p[n] == Big16(r.node) && p[n + 1] == DeletedSets.Little(r.snapshot)
    && p[n + 2] == Keys.Word(|r.pairs|)
  }

  /** The number of pieces before the server's index. */
  function TailPiece(m: MethodId): nat { 3 + Indexes(m) + if SingleSwitch(m) then 3 else 5 }

  lemma PiecesAre(m: MethodId, r: Response)
    ensures FrontPieces(m, r, Pieces(m, r)) && SplitPieces(m, r, Pieces(m, r), 3 + Indexes(m))
    ensures TailPieces(r, Pieces(m, r), TailPiece(m)) && |ScanResponses.Sizes(m)| == TailPiece(m) + 3
  {
  }

  lemma IndexesIs(m: MethodId, r: Response, e: Bytes, p: seq<Bytes>)
    requires Fits(r) && Left(e, 0, p, 0) && FrontPieces(m, r, p)
    ensures Short(e, 0, r.optype) && Left(e, 2 + 2 * Indexes(m), p, 1 + Indexes(m))
    ensures Indexes(m) == 1 ==> Short(e, 2, r.global)
    ensures Indexes(m) == 2 ==> Short(e, 2, r.spine) && Short(e, 4, r.leaf)
  {
    ShortPiece(e, p, 0, 0, r.optype);
    if Indexes(m) == 1 {
      ShortPiece(e, p, 2, 1, r.global);
    } else if Indexes(m) == 2 {
      ShortPiece(e, p, 2, 1, r.spine);
      ShortPiece(e, p, 4, 2, r.leaf);
    }
  }

  lemma FrontIs(m: MethodId, r: Response, e: Bytes, p: seq<Bytes>)
    requires Fits(r) && Left(e, 0, p, 0) && FrontPieces(m, r, p)
    ensures FrontAt(m, r, e) && Left(e, OpHdrSize(m) + 16, p, 3 + Indexes(m))
  {
    IndexesIs(m, r, e, p);
    PieceEnds(e, p, 2 + 2 * Indexes(m), 1 + Indexes(m), Keys.Serialize(r.key));
    PieceEnds(e, p, 18 + 2 * Indexes(m), 2 + Indexes(m), Keys.Serialize(r.endKey));
  }

  lemma SplitIs(m: MethodId, r: Response, e: Bytes, p: seq<Bytes>, at: nat, n: nat)
    requires Fits(r) && Left(e, at, p, n) && SplitPieces(m, r, p, n)
    ensures SplitAt(m, r, e, at)
    ensures var single := SingleSwitch(m);
      Left(e, at + SplitPrevBytes(m) + (if single then 4 else 8), p, n + if single then 3 else 5)
  {
    var i := at + SplitPrevBytes(m);
    PieceEnds(e, p, at, n, Zeros(SplitPrevBytes(m)));
    assert forall j :: at <= j < i ==> e[j] == e[at..i][j - at];
    ShortPiece(e, p, i, n + 1, r.curScan);
    ShortPiece(e, p, i + 2, n + 2, r.maxScan);
    if !SingleSwitch(m) {
      ShortPiece(e, p, i + 4, n + 3, r.curSwitch);
      ShortPiece(e, p, i + 6, n + 4, r.maxSwitch);
    }
  }

  lemma TailIs(r: Response, e: Bytes, p: seq<Bytes>, at: nat, n: nat)
    requires Fits(r) && Left(e, at, p, n) && TailPieces(r, p, n)
    ensures TailAt(r, e, at) && Left(e, at + 10, p, n + 3)
  {
    ShortPiece(e, p, at, n, r.node);
    PieceEnds(e, p, at + 2, n + 1, DeletedSets.Little(r.snapshot));
    DeletedSets.LittleAt(e, at + 2, r.snapshot);
    PieceEnds(e, p, at + 6, n + 2, Keys.Word(|r.pairs|));
    LongAt(e, at + 6, |r.pairs|);
  }

  /** Where pair `i` starts: behind the header, each pair takes its key, its length and its padded value. */
  function PairOff(m: MethodId, ps: seq<(Keys.Key, Bytes)>, i: nat): nat
    requires i <= |ps|
  {
    if i == 0 then TailOff(m) + 10 else PairOff(m, ps, i - 1) + 20 + |ps[i - 1].1| + Padding(|ps[i - 1].1|)
  }

  /** A packet and the pieces it was put together from. */
  ghost predicate PutTogether(m: MethodId, r: Response, e: Bytes, p: seq<Bytes>) {
    && Left(e, 0, p, 0) && FrontPieces(m, r, p) && SplitPieces(m, r, p, 3 + Indexes(m))
    && TailPieces(r, p, TailPiece(m)) && PairPieces(p, TailPiece(m) + 3, r.pairs)
  }

  ghost predicate PairPieces(p: seq<Bytes>, n: nat, ps: seq<(Keys.Key, Bytes)>) {
    |p| == n + |ps| && forall i :: 0 <= i < |ps| ==> PieceIs(p, n, i, ps)
  }

  ghost predicate PieceIs(p: seq<Bytes>, n: nat, i: int, ps: seq<(Keys.Key, Bytes)>) {
    0 <= i < |ps| && n + i < |p| && p[n + i] == Pair(ps[i])
  }

  lemma EncodedIs(m: MethodId, r: Response)
    ensures PutTogether(m, r, Encoded(m, r), Pieces(m, r))
  {
    LeftStart(m, r);
    PiecesAre(m, r);
    FieldSizes(m, r);
  }

  lemma HeaderIs(m: MethodId, r: Response, e: Bytes, p: seq<Bytes>)
    requires Fits(r) && PutTogether(m, r, e, p)
    ensures FrontAt(m, r, e) && SplitAt(m, r, e, OpHdrSize(m) + 16) && TailAt(r, e, TailOff(m))
    ensures Left(e, TailOff(m) + 10, p, TailPiece(m) + 3)
  {
    FrontIs(m, r, e, p);
    SplitIs(m, r, e, p, OpHdrSize(m) + 16, 3 + Indexes(m));
    TailIs(r, e, p, TailOff(m), TailPiece(m));
  }

  /** Every field of the header where the receiver of any method looks for it. */
  lemma HeaderLayout(m: MethodId, r: Response)
    requires Fits(r)
    ensures var e := Encoded(m, r);
      FrontAt(m, r, e) && SplitAt(m, r, e, OpHdrSize(m) + 16) && TailAt(r, e, TailOff(m))
  {
    EncodedIs(m, r);
    HeaderIs(m, r, Encoded(m, r), Pieces(m, r));
  }

  // ---------------------------------------------------------------- the pairs

  lemma {:induction false} PairLeft(m: MethodId, ps: seq<(Keys.Key, Bytes)>, e: Bytes, p: seq<Bytes>, n: nat, i: nat)
    requires Left(e, TailOff(m) + 10, p, n) && PairPieces(p, n, ps) && i <= |ps|
    ensures Left(e, PairOff(m, ps, i), p, n + i)
  {
    if i > 0 {
      PairLeft(m, ps, e, p, n, i - 1);
      assert PieceIs(p, n, i - 1, ps);
      PieceEnds(e, p, PairOff(m, ps, i - 1), n + (i - 1), Pair(ps[i - 1]));
    }
  }

  /** Key, length and value of a pair. */
  ghost predicate PairFound(e: Bytes, at: nat, q: (Keys.Key, Bytes)) {
    at + 20 + |q.1| <= |e| && e[at..at + 16] == Keys.Serialize(q.0) && Long(e, at + 16, |q.1|) &&
        e[at + 20..at + 20 + |q.1|] == q.1
  }

  lemma PairThere(e: Bytes, p: seq<Bytes>, at: nat, n: nat, q: (Keys.Key, Bytes))
    requires Left(e, at, p, n) && n < |p| && p[n] == Pair(q) && Keys.IsKey(q.0) && |q.1| < Keys.WORD32
    ensures PairFound(e, at, q)
  {
    PieceEnds(e, p, at, n, Pair(q));
    PairParts(e, at, q);
    LongAt(e, at + 16, |q.1|);
  }

  lemma PairIs(m: MethodId, ps: seq<(Keys.Key, Bytes)>, e: Bytes, p: seq<Bytes>, n: nat, i: nat)
    requires Left(e, TailOff(m) + 10, p, n) && PairPieces(p, n, ps) && i < |ps|
    requires Keys.IsKey(ps[i].0) && |ps[i].1| < Keys.WORD32
    ensures PairFound(e, PairOff(m, ps, i), ps[i])
  {
    PairLeft(m, ps, e, p, n, i);
    assert PieceIs(p, n, i, ps);
    PairThere(e, p, PairOff(m, ps, i), n + i, ps[i]);
  }

  lemma EndIs(m: MethodId, ps: seq<(Keys.Key, Bytes)>, e: Bytes, p: seq<Bytes>, n: nat)
    requires Left(e, TailOff(m) + 10, p, n) && PairPieces(p, n, ps)
    ensures |e| == PairOff(m, ps, |ps|)
  {
    PairLeft(m, ps, e, p, n, |ps|);
    assert p[..|p|] == p;
  }

  /** Each key and value, and nothing behind the last of them. */
  lemma PairLayout(m: MethodId, r: Response, i: nat)
    requires Fits(r) && i < |r.pairs|
    ensures PairFound(Encoded(m, r), PairOff(m, r.pairs, i), r.pairs[i])
    ensures |Encoded(m, r)| == PairOff(m, r.pairs, |r.pairs|)
  {
    EncodedIs(m, r);
    HeaderIs(m, r, Encoded(m, r), Pieces(m, r));
    PairIs(m, r.pairs, Encoded(m, r), Pieces(m, r), TailPiece(m) + 3, i);
    EndIs(m, r.pairs, Encoded(m, r), Pieces(m, r), TailPiece(m) + 3);
  }

  // ---------------------------------------------------------------- the offsets the client uses

  /** `get_srcid_off`, `get_srcnum_off`, `get_srcswitchnum_off` and `get_srcswitchid_off` (lines 1309-1358). The last
      one adds the size of the packet header where the gap is meant. */
  function SrcIdOff(m: MethodId): nat { OpHdrSize(m) + 16 + SplitPrevBytes(m) }

  function SrcNumOff(m: MethodId): nat { OpHdrSize(m) + 16 + SplitPrevBytes(m) + 2 }

  function SrcSwitchNumOff(m: MethodId): nat { OpHdrSize(m) + 16 + SplitPrevBytes(m) + 2 + 2 + 2 }

  function SrcSwitchIdOff(m: MethodId): nat { OpHdrSize(m) + 16 + OpHdrSize(m) + 2 + 2 }

  /** Three of the four are right for every method. */
  lemma OffsetsRight(m: MethodId, r: Response)
    requires Fits(r)
    ensures Short(Encoded(m, r), SrcIdOff(m), r.curScan) && Short(Encoded(m, r), SrcNumOff(m), r.maxScan)
    ensures !SingleSwitch(m) ==> Short(Encoded(m, r), SrcSwitchNumOff(m), r.maxSwitch)
  {
    HeaderLayout(m, r);
  }

  /** The offset of the switch index would be right exactly if the packet header were as long as the gap; it is past
      the header of the reply for every method with several switches. */
  lemma SwitchIdWrong(m: MethodId, r: Response)
    requires Fits(r) && !SingleSwitch(m)
    ensures Short(Encoded(m, r), SrcSwitchNumOff(m) - 2, r.curSwitch)
    ensures SrcSwitchIdOff(m) == SrcSwitchNumOff(m) - 2 <==> OpHdrSize(m) == SplitPrevBytes(m)
    ensures SrcSwitchIdOff(m) >= TailOff(m) + 10
  {
    HeaderLayout(m, r);
  }
}
