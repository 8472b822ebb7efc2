/** Cutting a packet into fragments and putting it together again (common/socket_helper.c:483-528,
    539-850 for one source), with the sizes that the packet formats prescribe
    (common/packet_format_impl.h:4489-4530). */
module Fragments {
  import opened Common
  import opened Arith
  import opened Assembly
  import opened DynamicArrays

  type pos = n: nat | n > 0 witness 1

  /** `fragidx` and `fragnum`, 16 bits each, after the header. */
  const INDEXES := 4
  const WORD16 := 0x10000

  /** `htons` on a little-endian host, as the two bytes that travel. */
  function Big16(n: int): Bytes { [n / 256, n % 256] }
  function FromBig16(b: Bytes): int
    requires |b| == 2
  {
    b[0] * 256 + b[1]
  }

  // ---------------------------------------------------------------- where a body is cut

  /** `total` bytes cut every `size` bytes: fragment `i` starts at byte `i * size`, the last one takes the rest,
      and there is one fragment at least. */
  ghost predicate EvenCuts(cuts: seq<nat>, total: nat, size: pos) {
    && CutsOk(cuts, total) && (total > 0 ==> cuts[|cuts| - 2] < total) && (total == 0 ==> |cuts| == 2)
    && (forall i :: 0 <= i < |cuts| - 1 ==> EvenCut(cuts, i, size))
  }

  ghost predicate EvenCut(cuts: seq<nat>, i: nat, size: pos) {
    i + 1 < |cuts| && cuts[i] == i * size && cuts[i + 1] - cuts[i] <= size
  }

  /** The number of fragments is what the sender computes (lines 490-492). */
  function FragNum(total: nat, size: pos): nat { if total > 0 then (total + size - 1) / size else 1 }

  lemma CutCount(cuts: seq<nat>, total: nat, size: pos)
    requires EvenCuts(cuts, total, size)
    ensures |cuts| - 1 == FragNum(total, size)
  {
    var n := |cuts| - 1;
    assert EvenCut(cuts, n - 1, size);
    if total > 0 {
      assert n * size == (n - 1) * size + size;
      DivMod(total + size - 1, size, n, total - 1 - (n - 1) * size);
    }
  }

  /** There is only one way. */
  lemma SameCuts(a: seq<nat>, b: seq<nat>, total: nat, size: pos)
    requires EvenCuts(a, total, size) && EvenCuts(b, total, size)
    ensures a == b
  {
    CutCount(a, total, size);
    CutCount(b, total, size);
    forall i | 0 <= i < |a| ensures a[i] == b[i] {
      if i < |a| - 1 { assert EvenCut(a, i, size) && EvenCut(b, i, size); }
    }
  }

  /** And there is one. */
  function Plan(total: nat, size: pos): (cuts: seq<nat>)
    ensures EvenCuts(cuts, total, size)
  {
    if total <= size then [0, total]
    else
      var cuts := Plan(total - 1, size);
      PlanNext(cuts, total, size);
      if total - cuts[|cuts| - 2] <= size then cuts[|cuts| - 1 := total] else cuts + [total]
  }

  lemma PlanNext(cuts: seq<nat>, total: nat, size: pos)
    requires total > size && EvenCuts(cuts, total - 1, size)
    ensures EvenCuts(if total - cuts[|cuts| - 2] <= size then cuts[|cuts| - 1 := total]
      else cuts + [total], total, size)
  {
    var n := |cuts| - 1;
    var cuts' := if total - cuts[n - 1] <= size then cuts[n := total] else cuts + [total];
    assert EvenCut(cuts, n - 1, size) && CutOk(cuts, n - 1, total - 1);
    assert n * size == (n - 1) * size + size;
    forall i | 0 <= i < |cuts'| - 1 ensures EvenCut(cuts', i, size) && CutOk(cuts', i, total) {
      if i < n { assert EvenCut(cuts, i, size) && CutOk(cuts, i, total - 1); }
    }
  }

  /** The bytes that fragment `i` carries. */
  function Part(body: Bytes, cuts: seq<nat>, i: nat): Bytes
    requires CutOk(cuts, i, |body|)
  {
    body[cuts[i]..cuts[i + 1]]
  }

  /** What is on the wire (lines 498-526). */
  function Fragment(hdr: Bytes, body: Bytes, cuts: seq<nat>, i: nat): Bytes
    requires CutOk(cuts, i, |body|)
  {
    hdr + Big16(i) + Big16(|cuts| - 1) + Part(body, cuts, i)
  }

  // ---------------------------------------------------------------- sending

  /** What `udpsendlarge` hands to the socket, or that it copied past its fragment buffer. */
  datatype Sent = Sent(frags: seq<Bytes>) | Overrun

  /** The size the loop gives to fragment `i` (lines 518-521): with the count cut to 16 bits the last fragment
      sent takes all the rest. */
  lemma CutStep(cuts: seq<nat>, total: nat, size: pos, i: nat, bodySize: int)
    requires EvenCuts(cuts, total, size) && i < (|cuts| - 1) % WORD16
    requires bodySize == if i == (|cuts| - 1) % WORD16 - 1 then total - size * i else size
    ensures var n := |cuts| - 1; var num := n % WORD16;
      && i < n && cuts[i] <= total
      && (n < WORD16 ==> 0 <= bodySize <= size && cuts[i] + bodySize == cuts[i + 1] <= total)
      && (n >= WORD16 ==> (bodySize > size <==> i == num - 1))
      && (i + 1 < num ==> bodySize == size && cuts[i] + size == cuts[i + 1] <= total)
  {
    var n := |cuts| - 1;
    assert EvenCut(cuts, i, size) && CutOk(cuts, i, total);
    assert size * i == i * size && (i + 1) * size == i * size + size;
    if i + 1 < n {
      assert EvenCut(cuts, i + 1, size) && CutOk(cuts, i + 1, total);
      NotYetAll(cuts, total, size, i + 1);
    }
  }

  /** A fragment that starts before the end of the body. */
  lemma NotYetAll(cuts: seq<nat>, total: nat, size: pos, i: nat)
    requires EvenCuts(cuts, total, size) && 0 < i < |cuts| - 1
    ensures cuts[i] < total
  {
    var n := |cuts| - 1;
    assert EvenCut(cuts, i, size) && EvenCut(cuts, n - 1, size);
    Scaled(i, n - 1, size);
  }

  /** `frags` are the first fragments, in order. */
  ghost predicate AllCut(frags: seq<Bytes>, hdr: Bytes, body: Bytes, cuts: seq<nat>) {
    |frags| < |cuts| && forall j ::
        0 <= j < |frags| ==> CutOk(cuts, j, |body|) && frags[j] == Fragment(hdr, body, cuts, j)
  }

  lemma CutNext(buf: Bytes, hdrSize: nat, cuts: seq<nat>, frags: seq<Bytes>, lo: nat, hi: nat, frag: Bytes)
    requires hdrSize <= |buf| && AllCut(frags, buf[..hdrSize], buf[hdrSize..], cuts) && |frags| + 1 < |cuts|
    requires lo == cuts[|frags|] <= hi == cuts[|frags| + 1] <= |buf| - hdrSize
    requires frag == buf[..hdrSize] + Big16(|frags|) + Big16(|cuts| - 1) + buf[hdrSize + lo..hdrSize + hi]
    ensures AllCut(frags + [frag], buf[..hdrSize], buf[hdrSize..], cuts)
  {
    assert buf[hdrSize..][lo..hi] == buf[hdrSize + lo..hdrSize + hi];
    assert frag == Fragment(buf[..hdrSize], buf[hdrSize..], cuts, |frags|);
  }

  /** The loop body (lines 504-527): one more fragment, or a copy longer than the fragment buffer. */
  method CutOne(buf: Bytes, hdrSize: nat, size: pos, frags: seq<Bytes>, num: nat, sentSize: nat, ghost cuts: seq<nat>)
      returns (ok: bool, frag: Bytes, sentSize': nat)
    requires hdrSize <= |buf| && EvenCuts(cuts, |buf| - hdrSize, size) && |frags| < num == (|cuts| - 1) % WORD16
    requires sentSize == hdrSize + cuts[|frags|]
    requires |cuts| - 1 < WORD16 ==> AllCut(frags, buf[..hdrSize], buf[hdrSize..], cuts)
    ensures ok == (|cuts| - 1 < WORD16 || |frags| + 1 < num)
    ensures |cuts| - 1 < WORD16 ==> AllCut(frags + [frag], buf[..hdrSize], buf[hdrSize..], cuts)
    ensures ok && |frags| + 1 < num ==> sentSize' == hdrSize + cuts[|frags| + 1]
  {
    var i, total := |frags|, |buf| - hdrSize;
    var bodySize: int := size;
    if i == num - 1 { bodySize := total - size * i; }
    CutStep(cuts, total, size, i, bodySize);
    if bodySize > size { return false, [], sentSize; }
    ok := true;
    frag := buf[..hdrSize] + Big16(i) + Big16(num) + buf[sentSize..sentSize + bodySize];
    sentSize' := sentSize + bodySize;
    if |cuts| - 1 < WORD16 { CutNext(buf, hdrSize, cuts, frags, sentSize - hdrSize, sentSize' - hdrSize, frag); }
  }

  /** `udpsendlarge` (lines 483-528). The fragment count is cut to 16 bits. */
  method SendLarge(buf: Bytes, hdrSize: nat, maxSize: nat, ghost cuts: seq<nat>) returns (r: Sent)
    requires hdrSize <= |buf| && hdrSize + INDEXES < maxSize &&
      EvenCuts(cuts, |buf| - hdrSize, maxSize - hdrSize - INDEXES)
    ensures if |cuts| - 1 < WORD16
      then r.Sent? && |r.frags| == |cuts| - 1 && AllCut(r.frags, buf[..hdrSize], buf[hdrSize..], cuts)
            else r == if (|cuts| - 1) % WORD16 == 0 then Sent([]) else Overrun
  {
    var size := maxSize - hdrSize - INDEXES;
    var total := |buf| - hdrSize;
    CutCount(cuts, total, size);
    var fragNum := if total > 0 then (total + size - 1) / size else 1;
    var i, num, sentSize := 0, fragNum % WORD16, hdrSize;
    var frags := [];
    while i < num
      invariant i <= num && |frags| == i && (i < num ==> sentSize == hdrSize + cuts[i])
      invariant if |cuts| - 1 < WORD16 then AllCut(frags, buf[..hdrSize], buf[hdrSize..], cuts) else i == 0 || i < num
    {
      var ok, frag, next := CutOne(buf, hdrSize, size, frags, num, sentSize, cuts);
      if !ok { return Overrun; }
      frags, sentSize, i := frags + [frag], next, i + 1;
    }
    return Sent(frags);
  }

  // ---------------------------------------------------------------- receiving

  /** The fragments that arrive: any order, and each with a header of its own. */
  ghost predicate Arrivals(arrivals: seq<Bytes>, hdrs: seq<Bytes>, body: Bytes, h: nat, cuts: seq<nat>,
      order: seq<nat>)
  {
    && |hdrs| == |order| == |arrivals| == |cuts| - 1
    && (forall i :: 0 <= i < |hdrs| ==> |hdrs[i]| == h)
    && (forall k :: 0 <= k < |order| ==>
        CutOk(cuts, order[k], |body|) && arrivals[k] == Fragment(hdrs[order[k]], body, cuts, order[k]))
    && (forall j, k :: 0 <= j < k < |order| ==> order[j] != order[k])
  }

  /** What the receiver reads in a fragment. */
  lemma ReadFragment(hdr: Bytes, body: Bytes, cuts: seq<nat>, i: nat)
    requires CutOk(cuts, i, |body|) && |cuts| - 1 < WORD16
    ensures var f := Fragment(hdr, body, cuts, i); var h := |hdr|;
      && |f| == h + INDEXES + cuts[i + 1] - cuts[i] && f[..h] == hdr && f[h + INDEXES..] == Part(body, cuts, i)
      && FromBig16(f[h..h + 2]) == i && FromBig16(f[h + 2..h + 4]) == |cuts| - 1
      && Short(f, h, i) && Short(f, h + 2, |cuts| - 1)
  {
    var f, h := Fragment(hdr, body, cuts, i), |hdr|;
    assert f[h..h + 2] == Big16(i) && f[h + 2..h + 4] == Big16(|cuts| - 1);
  }

  /** What one fragment does to the buffer (lines 803-817): its part, and its header if it is the first. */
  function Absorbed(buf: Bytes, h: nat, size: pos, idx: nat, hdr: Bytes, part: Bytes): Bytes {
    Written(buf, h + idx * size, part, hdr, idx == 0)
  }

  datatype Received = Assembled(buf: Bytes) | TimedOut | Aborted

  /** After `cur` arrivals: their parts are in place, and the header of the first fragment if it came. */
  ghost predicate Filling(x: Filled, hdrs: seq<Bytes>, order: seq<nat>, cur: nat)
    requires cur <= |order| && |hdrs| > 0
  {
    match x
    case Filled(buf, h, body, _, got) =>
      && Assembling(x) && |buf| <= h + |body| && |got| == cur && (forall i :: i in got ==> i in order[..cur])
      && (0 in got ==> buf[..h] == hdrs[0])
  }

  lemma FillNext(arrivals: seq<Bytes>, hdrs: seq<Bytes>, body: Bytes, h: nat, size: pos, cuts: seq<nat>,
      order: seq<nat>, cur: nat, got: set<nat>, buf: Bytes)
    requires Arrivals(arrivals, hdrs, body, h, cuts, order) && |cuts| - 1 < WORD16 && EvenCuts(cuts, |body|, size)
    requires cur < |order| && Filling(Filled(buf, h, body, cuts, got), hdrs, order, cur)
    ensures var f, i := arrivals[cur], order[cur];
      && |f| >= h + INDEXES && FromBig16(f[h..h + 2]) == i < |cuts| - 1
      && Filling(Filled(Absorbed(buf, h, size, i, f[..h], f[h + INDEXES..]), h, body, cuts, got + {i}), hdrs, order,
          cur + 1)
  {
    var i, f := order[cur], arrivals[cur];
    ReadFragment(hdrs[i], body, cuts, i);
    GotNext(order, cur, got);
    assert EvenCut(cuts, i, size);
    FillStep(buf, h, body, size, cuts, hdrs, order, cur, got, i, f[..h], f[h + INDEXES..]);
  }

  lemma FillStep(buf: Bytes, h: nat, body: Bytes, size: pos, cuts: seq<nat>, hdrs: seq<Bytes>, order: seq<nat>,
      cur: nat, got: set<nat>, i: nat, hdr: Bytes, part: Bytes)
    requires CutOk(cuts, i, |body|) && cuts[i] == i * size && part == Part(body, cuts, i) && |hdr| == h
    requires cur < |order| && i < |hdrs| && hdr == hdrs[i] && Filling(Filled(buf, h, body, cuts, got), hdrs, order, cur)
    requires |got + {i}| == cur + 1 && forall j :: j in got + {i} ==> j in order[..cur + 1]
    ensures Filling(Filled(Absorbed(buf, h, size, i, hdr, part), h, body, cuts, got + {i}), hdrs, order, cur + 1)
  {
    WrittenKeeps(buf, h, body, cuts, got, i, h + i * size, part, hdr, i == 0);
    WrittenSize(buf, h + i * size, part, hdr, i == 0);
    FillHeld(buf, Filled(Absorbed(buf, h, size, i, hdr, part), h, body, cuts, got + {i}), hdrs, order, cur, got, i);
  }

  lemma FillHeld(buf: Bytes, x: Filled, hdrs: seq<Bytes>, order: seq<nat>, cur: nat, got: set<nat>, i: nat)
    requires cur < |order| && i < |hdrs| && |buf| >= x.h && x.got == got + {i} && (0 in got ==> buf[..x.h] == hdrs[0])
    requires |got + {i}| == cur + 1 && forall j :: j in got + {i} ==> j in order[..cur + 1]
    requires Holding(x, if i == 0 then hdrs[i] else buf[..x.h]) && |x.buf| <= x.h + |x.body|
    ensures Filling(x, hdrs, order, cur + 1)
  {
  }

  lemma GotNext(order: seq<nat>, cur: nat, got: set<nat>)
    requires cur < |order| && |got| == cur && (forall i :: i in got ==> i in order[..cur])
    requires forall j, k :: 0 <= j < k < |order| ==> order[j] != order[k]
    ensures |got + {order[cur]}| == cur + 1 && order[cur] !in got && forall i ::
      i in got + {order[cur]} ==> i in order[..cur + 1]
  {
    assert order[..cur + 1] == order[..cur] + [order[cur]];
    assert order[cur] !in order[..cur];
  }

  lemma FillAll(hdrs: seq<Bytes>, body: Bytes, h: nat, cuts: seq<nat>, order: seq<nat>, got: set<nat>, buf: Bytes)
    requires |hdrs| > 0 && |order| == |cuts| - 1 && Filling(Filled(buf, h, body, cuts, got), hdrs, order, |order|)
    ensures buf == hdrs[0] + body
  {
    WholeBody(buf, h, body, cuts, got);
    assert buf == buf[..h] + buf[h..];
  }

  /** `udprecvlarge` for one source (lines 616-850): `arrivals` are the fragments the socket yields;
      when there are no more it times out. */
  method RecvLarge(arrivals: seq<Bytes>, h: nat, size: pos, ghost hdrs: seq<Bytes>, ghost body: Bytes,
      ghost cuts: seq<nat>, ghost order: seq<nat>) returns (r: Received)
    ensures EvenCuts(cuts, |body|, size) && Arrivals(arrivals, hdrs, body, h, cuts, order) && |cuts| - 1 < WORD16 ==>
      r == Assembled(hdrs[0] + body)
    ensures arrivals == [] ==> r == TimedOut
  {
    ghost var genuine := EvenCuts(cuts, |body|, size) && Arrivals(arrivals, hdrs, body, h, cuts, order) &&
        |cuts| - 1 < WORD16;
    if |arrivals| == 0 { return TimedOut; }
    if genuine { ReadFragment(hdrs[order[0]], body, cuts, order[0]); assert EvenCut(cuts, order[0], size); }
    if !(h + INDEXES <= |arrivals[0]| <= h + INDEXES + size) { return Aborted; }
    var buf := arrivals[0][..h];
    var max := FromBig16(arrivals[0][h + 2..h + 4]);
    var cur := 0;
    ghost var got: set<nat> := {};
    while cur < |arrivals|
      invariant 0 <= cur <= |arrivals|
      invariant genuine ==> cur < max == |cuts| - 1 && Filling(Filled(buf, h, body, cuts, got), hdrs, order, cur)
    {
      var f := arrivals[cur];
      if genuine { FillNext(arrivals, hdrs, body, h, size, cuts, order, cur, got, buf); }
      if |f| < h + INDEXES { return Aborted; }
      var idx := FromBig16(f[h..h + 2]);
      if !(0 <= idx < max) { return Aborted; }
      buf := Absorbed(buf, h, size, idx, f[..h], f[h + INDEXES..]);
      cur := cur + 1;
      got := got + {idx};
      if cur >= max {
        if genuine { FillAll(hdrs, body, h, cuts, order, got, buf); }
        return Assembled(buf);
      }
    }
    return TimedOut;
  }

  /** What the switch does to a fragment: another header, the same indexes and part. */
  lemma Relabelled(hdr: Bytes, hdr': Bytes, body: Bytes, cuts: seq<nat>, i: nat)
    requires CutOk(cuts, i, |body|)
    ensures |Fragment(hdr, body, cuts, i)| >= |hdr| &&
      hdr' + Fragment(hdr, body, cuts, i)[|hdr|..] == Fragment(hdr', body, cuts, i)
  {
    assert Fragment(hdr, body, cuts, i)[|hdr|..] == Big16(i) + Big16(|cuts| - 1) + Part(body, cuts, i);
  }

  /** The switch gives each fragment a header of its own; `order` is the order of arrival. */
  method Travel(frags: seq<Bytes>, hdrSize: nat, hdrs: seq<Bytes>, order: seq<nat>, ghost hdr: Bytes, ghost body: Bytes,
      ghost cuts: seq<nat>) returns (arrivals: seq<Bytes>)
    requires |frags| == |hdrs| == |order| == |cuts| - 1 && AllCut(frags, hdr, body, cuts) && |hdr| == hdrSize
    requires forall k :: 0 <= k < |order| ==> order[k] < |hdrs|
    ensures |arrivals| == |order|
    ensures forall j ::
      0 <= j < |order| ==>
      CutOk(cuts, order[j], |body|) && arrivals[j] == Fragment(hdrs[order[j]], body, cuts, order[j])
  {
    arrivals := [];
    for k := 0 to |order|
      invariant |arrivals| == k
      invariant forall j ::
        0 <= j < k ==> CutOk(cuts, order[j], |body|) && arrivals[j] == Fragment(hdrs[order[j]], body, cuts, order[j])
    {
      Relabelled(hdr, hdrs[order[k]], body, cuts, order[k]);
      arrivals := arrivals + [hdrs[order[k]] + frags[order[k]][hdrSize..]];
    }
  }

  /** Fragment, relabel, reorder, reassemble: the body comes back behind the header of fragment 0 exactly when
      the fragment count fits 16 bits. */
  method RoundTrip(buf: Bytes, hdrSize: nat, maxSize: nat, hdrs: seq<Bytes>, h: nat, order: seq<nat>)
      returns (r: Received)
    requires hdrSize <= |buf| && hdrSize + INDEXES < maxSize
    requires |hdrs| == |order| == FragNum(|buf| - hdrSize, maxSize - hdrSize - INDEXES) > 0
    requires forall i :: 0 <= i < |hdrs| ==> |hdrs[i]| == h
    requires (forall k :: 0 <= k < |order| ==> order[k] < |hdrs|) && forall j, k ::
      0 <= j < k < |order| ==> order[j] != order[k]
    ensures r == Assembled(hdrs[0] + buf[hdrSize..]) <==> FragNum(|buf| - hdrSize, maxSize - hdrSize - INDEXES) < WORD16
  {
    ghost var cuts := Plan(|buf| - hdrSize, maxSize - hdrSize - INDEXES);
    CutCount(cuts, |buf| - hdrSize, maxSize - hdrSize - INDEXES);
    var sent := SendLarge(buf, hdrSize, maxSize, cuts);
    if sent.Overrun? { return Aborted; }
    var arrivals := [];
    var size := (maxSize + h - hdrSize) - h - INDEXES;
    if sent.frags != [] { arrivals := Travel(sent.frags, hdrSize, hdrs, order, buf[..hdrSize], buf[hdrSize..], cuts); }
    r := RecvLarge(arrivals, h, size, hdrs, buf[hdrSize..], cuts, order);
  }

  // ---------------------------------------------------------------- sizes per packet type

  datatype MethodId = FarReach | NoCache | NetCache | DistFarReach | DistNoCache | DistCache

  /** The packet types that travel in fragments. The switch turns `PutReq` into one of the `PutReqSeq` kinds. */
  datatype LargeOp = PutReq | PutReqSeq(kind: SeqKind) | LoadReq | GetRes
  datatype SeqKind = Plain | Cached | Case3 | BeingEvicted | Case3BeingEvicted

  /** Type, switch indexes, key (packet_format_impl.h:13-39). */
  function OpHdrSize(m: MethodId): nat {
    match m
    case FarReach => 18
    case NoCache => 18
    case NetCache => 18
    case DistFarReach => 20
    case DistNoCache => 20
    case DistCache => 22
  }

  /** `get_frag_hdrsize` (packet_format_impl.h:4489-4515). */
  function FragHdrSize(m: MethodId, op: LargeOp): nat {
    match op
    case PutReq => OpHdrSize(m) + 2 + 4
    case LoadReq => OpHdrSize(m) + 2 + 4
    case PutReqSeq(_) => OpHdrSize(m) + 2 + 4 + 2 + 4 + (if m == FarReach then 4 else 0)
    case GetRes => OpHdrSize(m)
  }

  /** `get_frag_totalsize` (packet_format_impl.h:4519-4530). */
  function FragTotalSize(m: MethodId, op: LargeOp, maxSize: int): int {
    if op.PutReqSeq? then maxSize + (FragHdrSize(m, op) - FragHdrSize(m, PutReq)) else maxSize
  }

  const IP_FRAGMENT_MAXSIZE := 1412

  /** The body size the receiver computes for the type it sees (socket_helper.c:664-678) is the one the
      sender used, whatever headers the switch has added. */
  function FragBodySize(m: MethodId, op: LargeOp): (size: nat)
    ensures size == IP_FRAGMENT_MAXSIZE - FragHdrSize(m, SentAs(op)) - INDEXES > 0
  {
    FragTotalSize(m, op, IP_FRAGMENT_MAXSIZE) - (FragHdrSize(m, op) + INDEXES)
  }

  /** The type under which the client sent it. */
  function SentAs(op: LargeOp): LargeOp { if op.PutReqSeq? then PutReq else op }

  /** The sizes by packet type, the same for all types that count as one (packet_format_impl.h:4478-4485). */
  datatype Sizes = Sizes(hdr: LargeOp -> nat, body: LargeOp -> pos)

  function Kindless(op: LargeOp): LargeOp { if op.PutReqSeq? then PutReqSeq(Plain) else op }

  function HdrSize(z: Sizes, op: LargeOp): nat { z.hdr(Kindless(op)) }

  function BodySize(z: Sizes, op: LargeOp): pos { z.body(SentAs(op)) }

  /** The sizes of a method. */
  function SizesOf(m: MethodId): Sizes { Sizes(op => FragHdrSize(m, op), op => FragBodySize(m, op)) }

  lemma SizesOfAre(m: MethodId, op: LargeOp)
    ensures HdrSize(SizesOf(m), op) == FragHdrSize(m, op)
    ensures BodySize(SizesOf(m), op) == FragBodySize(m, op) ==
      IP_FRAGMENT_MAXSIZE - FragHdrSize(m, SentAs(op)) - INDEXES
  {
  }
}
