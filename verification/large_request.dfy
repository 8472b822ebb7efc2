/** Requests with large values (common/packet_format_impl.h:2526-2621, 3656-3850, 4489-4580): the header that every
    fragment repeats, as the client writes it and the switch extends it, and what the server reads of it. */
module LargeRequests {
  import opened Common
  import opened Fragments
  import opened ScanResponses
  import opened WireLayouts
  import Keys

  datatype Header = Header(optype: int, global: int, spine: int, leaf: int, key: Keys.Key, seqno: int, token: int,
                           client: int, fragseq: int)

  ghost predicate FitsWidths(h: Header) {
    && 0 <= h.optype < WORD16 && 0 <= h.global < WORD16 && 0 <= h.spine < WORD16 && 0 <= h.leaf < WORD16
    && Keys.IsKey(h.key) && 0 <= h.seqno < Keys.WORD32 && 0 <= h.token < Keys.WORD32
    && 0 <= h.client < WORD16 && 0 <= h.fragseq < Keys.WORD32
  }

  /** What the switch adds: the type again, the sequence number, and for FarReach the snapshot token
      (lines 3801-3817). */
  function Added(m: MethodId, op: LargeOp, h: Header): seq<Bytes> {
    if !op.PutReqSeq? then []
    else [Big16(h.optype), Keys.Word(h.seqno)] + if m == FarReach then [Keys.Word(h.token)] else []
  }

  /** The fields before the fragment index (lines 2569-2580, 3700-3711, 3801-3823); an answer to a client has no more
      than the header of every packet. */
  function HdrFields(m: MethodId, op: LargeOp, h: Header): seq<Bytes> {
    OpWrites(m, h.optype, h.global, h.spine, h.leaf) + [Keys.Serialize(h.key)] + Added(m, op, h)
    + if op.GetRes? then [] else [Big16(h.client), Keys.Word(h.fragseq)]
  }

  ghost function Hdr(m: MethodId, op: LargeOp, h: Header): Bytes { Joined(HdrFields(m, op, h)) }

  /** Where `get_packet_clientlogicalidx` and `get_packet_fragseq` (lines 4531-4580) look; they end the program on an
      answer to a client, which carries neither. */
  function ClientOff(m: MethodId, op: LargeOp): nat
    requires !op.GetRes?
  {
    if op.PutReqSeq? then OpHdrSize(m) + 2 + 4 + (if m == FarReach then 4 else 0) else OpHdrSize(m)
  }

  function FragseqOff(m: MethodId, op: LargeOp): nat
    requires !op.GetRes?
  {
    if op.PutReqSeq? then OpHdrSize(m) + 2 + 4 + 2 + (if m == FarReach then 4 else 0) else OpHdrSize(m) + 2
  }

  lemma FourIndexes(m: MethodId, h: Header)
    ensures |OpWrites(m, h.optype, h.global, h.spine, h.leaf)| == 1 + Indexes(m)
    ensures |Joined(OpWrites(m, h.optype, h.global, h.spine, h.leaf))| == 2 + 2 * Indexes(m)
  {
    JoinedOne(Big16(h.optype));
    JoinedTwo(Big16(h.optype), Big16(h.global));
    JoinedThree(Big16(h.optype), Big16(h.spine), Big16(h.leaf));
  }

  /** The header of every packet: type, switch indexes, key. */
  lemma OpHdrIs(m: MethodId, h: Header)
    ensures |Joined(OpWrites(m, h.optype, h.global, h.spine, h.leaf) + [Keys.Serialize(h.key)])| == OpHdrSize(m)
  {
    FourIndexes(m, h);
    JoinedOne(Keys.Serialize(h.key));
    JoinedConcat(OpWrites(m, h.optype, h.global, h.spine, h.leaf), [Keys.Serialize(h.key)]);
  }

  lemma AddedIs(m: MethodId, op: LargeOp, h: Header)
    ensures |Joined(Added(m, op, h))| == if !op.PutReqSeq? then 0 else if m == FarReach then 10 else 6
  {
    JoinedTwo(Big16(h.optype), Keys.Word(h.seqno));
    JoinedThree(Big16(h.optype), Keys.Word(h.seqno), Keys.Word(h.token));
    assert [Big16(h.optype), Keys.Word(h.seqno)] + [Keys.Word(h.token)] ==
      [Big16(h.optype), Keys.Word(h.seqno), Keys.Word(h.token)];
  }

  /** Up to the client's index; then that and the fragment sequence number. */
  lemma HdrParts(m: MethodId, op: LargeOp, h: Header)
    requires !op.GetRes?
    ensures var front := Joined(OpWrites(m, h.optype, h.global, h.spine, h.leaf) + [Keys.Serialize(h.key)]
      + Added(m, op, h));
      |front| == ClientOff(m, op) && Hdr(m, op, h) == front + (Big16(h.client) + Keys.Word(h.fragseq))
  {
    var a := OpWrites(m, h.optype, h.global, h.spine, h.leaf) + [Keys.Serialize(h.key)];
    OpHdrIs(m, h);
    AddedIs(m, op, h);
    JoinedConcat(a, Added(m, op, h));
    JoinedTwo(Big16(h.client), Keys.Word(h.fragseq));
    JoinedConcat(a + Added(m, op, h), [Big16(h.client), Keys.Word(h.fragseq)]);
  }

  /** `get_frag_hdrsize` is the length of the fields before the fragment index, for every type and method. */
  lemma HdrSizeIs(m: MethodId, op: LargeOp, h: Header)
    ensures |Hdr(m, op, h)| == FragHdrSize(m, op)
  {
    if op.GetRes? {
      OpHdrIs(m, h);
      var a := OpWrites(m, h.optype, h.global, h.spine, h.leaf) + [Keys.Serialize(h.key)];
      assert HdrFields(m, op, h) == a;
    } else {
      HdrParts(m, op, h);
    }
  }

  /** Whatever follows the header, the receiver reads the client and the fragment sequence number that are in it. */
  lemma ReadsHeader(m: MethodId, op: LargeOp, h: Header, rest: Bytes)
    requires FitsWidths(h) && !op.GetRes?
    ensures var d := Hdr(m, op, h) + rest; Short(d, ClientOff(m, op), h.client) && Long(d, FragseqOff(m, op), h.fragseq)
  {
    var d, i := Hdr(m, op, h) + rest, ClientOff(m, op);
    HdrParts(m, op, h);
    var front := Joined(OpWrites(m, h.optype, h.global, h.spine, h.leaf) + [Keys.Serialize(h.key)] + Added(m, op, h));
    assert d == front + (Big16(h.client) + Keys.Word(h.fragseq)) + rest;
    assert d[i..i + 2] == Big16(h.client) && d[i + 2..i + 6] == Keys.Word(h.fragseq);
    ShortAt(d, i, h.client);
    LongAt(d, i + 2, h.fragseq);
  }

  // ---------------------------------------------------------------- reading the packet itself

  /** `deserialize` (lines 2613-2615, 3743-3745, 3846-3848) converts the four bytes of the fragment sequence number as
      if they were two: on a little-endian machine the first two bytes are all that is left. */
  function DeserializedFragseq(d: Bytes, i: nat): int
    requires i + 4 <= |d|
  {
    d[i] * 256 + d[i + 1]
  }

  /** So what a packet says its fragment sequence number is, is right exactly if that is zero. */
  lemma FragseqIff(m: MethodId, op: LargeOp, h: Header, rest: Bytes)
    requires FitsWidths(h) && !op.GetRes?
    ensures var d := Hdr(m, op, h) + rest;
      && FragseqOff(m, op) + 4 <= |d| && DeserializedFragseq(d, FragseqOff(m, op)) == h.fragseq / WORD16
      && (DeserializedFragseq(d, FragseqOff(m, op)) == h.fragseq <==> h.fragseq == 0)
  {
    ReadsHeader(m, op, h, rest);
  }
}
