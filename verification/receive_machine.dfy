/** The server side of `udprecvlarge` (common/socket_helper.c:574-850), one packet or timeout at a time:
    what each does to the queue of parked packets and to the large packet being pursued. */
module ReceiveMachine {
  import opened Common
  import opened Assembly
  import opened DynamicArrays
  import opened Fragments
  import opened PktRingBuffers

  /** A fragment as the receiver parses it. */
  datatype Frag = Frag(op: LargeOp, key: int, client: int, fragseq: int, hdr: Bytes, idx: nat, num: nat, part: Bytes)
  datatype Packet = Small(code: int, key: int, bytes: Bytes) | Large(f: Frag)

  /** The server calls `udprecvlarge`; the socket times out or yields a packet. */
  datatype Input = Call | Timeout | Arrive(p: Packet)

  /** Why the process ends: the ring is full, a packet type no server gets, a fragment that contradicts
      its packet, a buffer limit, or a check on the receiver's own state. */
  datatype Why = Overflow | NotForServer | BadFragment | TooBig | Broken

  /** Not in a call; waiting for a first packet; pursuing a large packet; ended. */
  datatype Mode = Between | First | Pursuing(p: Slot) | Stopped(why: Why)

  /** `q` is the ring, `out` what the calls so far have returned. */
  datatype Server = Server(q: seq<Slot>, mode: Mode, out: seq<Slot>)

  function Return(s: Server, p: Slot): Server { s.(mode := Between, out := s.out + [p]) }

  function Stop(s: Server, why: Why): Server { s.(mode := Stopped(why)) }

  /** Lines 574-613: a call first takes the oldest parked packet. */
  function OnCall(s: Server): Server {
    if s.q == [] then s.(mode := First)
    else
      var p, s' := s.q[0], s.(q := s.q[1..]);
      if p.max == 0 || p.cur >= p.max then Return(s', p)
      else if !p.optype.LargeType? then Stop(s', Broken)
      else s'.(mode := Pursuing(p))
  }

  /** Lines 803-829: a fragment of the packet being pursued. */
  function Take(m: Sizes, s: Server, p: Slot, f: Frag): Server
    requires p.optype.LargeType?
  {
    var h, size := HdrSize(m, p.optype.op), BodySize(m, p.optype.op);
    if f.idx >= p.max then Stop(s, BadFragment)
    else if h + f.idx * size + |f.part| > MAX_LARGE_BUFSIZE then Stop(s, TooBig)
    else
      var p' := p.(buf := Absorbed(p.buf, h, size, f.idx, f.hdr, f.part), cur := (p.cur + 1) % WORD16);
      if p'.cur >= p'.max then Return(s, p') else s.(mode := Pursuing(p'))
  }

  /** Lines 616-688: the first packet of a call. */
  function OnFirst(m: Sizes, s: Server, p: Packet): Server {
    match p
    case Small(code, key, bytes) => Return(s, SmallSlot(SmallType(code), key, bytes))
    case Large(f) =>
      if f.op.GetRes? then Stop(s, NotForServer)
      else if |f.part| > BodySize(m, f.op) then Stop(s, BadFragment)
      else Take(m, s, Slot(LargeType(f.op), f.key, f.hdr, 0, f.num, f.client, f.fragseq), f)
  }

  /** Where the part of a fragment goes. */
  function Off(m: Sizes, f: Frag): nat { HdrSize(m, f.op) + f.idx * BodySize(m, f.op) }

  /** Lines 726-771: a fragment from another client is parked. */
  function Park(m: Sizes, s: Server, f: Frag, capacity: nat): Server {
    var off, j := Off(m, f), Find(s.q, f.client);
    if |f.part| > BodySize(m, f.op) then Stop(s, BadFragment)
    else if j < |s.q| then
      if !MayUpdate(s.q[j], LargeType(f.op), f.key, f.fragseq, f.hdr, off, f.part) then Stop(s, BadFragment)
      else s.(q := s.q[j := Updated(s.q[j], f.hdr, off, f.part, f.fragseq, f.idx == 0)])
    else if f.num == 0 then Stop(s, BadFragment)
    else if |s.q| == capacity - 1 then Stop(s, Overflow)
    else if off + |f.part| > MAX_LARGE_BUFSIZE || |f.hdr| > MAX_LARGE_BUFSIZE then Stop(s, TooBig)
    else s.(q := s.q + [LargeSlot(LargeType(f.op), f.key, f.hdr, off, f.part, 1, f.num, f.client, f.fragseq)])
  }

  /** Lines 689-799: a packet that arrives while `p` is being pursued. */
  function OnPursuing(m: Sizes, s: Server, p: Slot, pkt: Packet, capacity: nat): Server
    requires p.optype.LargeType?
  {
    match pkt
    case Small(code, key, bytes) =>
      if |s.q| == capacity - 1 then Stop(s, Overflow)
      else if |bytes| > MAX_LARGE_BUFSIZE then Stop(s, TooBig)
      else s.(q := s.q + [SmallSlot(SmallType(code), key, bytes)])
    case Large(f) =>
      if f.op.GetRes? then Stop(s, NotForServer)
      else if f.client != p.client then Park(m, s, f, capacity)
      else if f.key != p.key || !SameType(LargeType(f.op), p.optype) || f.fragseq < p.fragseq then s
      else Take(m, s, Rebased(p, f), f)
  }

  /** Lines 779-783: a larger sequence number starts the count again. */
  function Rebased(p: Slot, f: Frag): Slot {
    if f.fragseq > p.fragseq then p.(fragseq := f.fragseq, cur := 0) else p
  }

  /** Lines 832-847: a timeout parks the packet being pursued. */
  function OnTimeout(m: Sizes, s: Server, p: Slot, capacity: nat): Server
    requires p.optype.LargeType?
  {
    var h := HdrSize(m, p.optype.op);
    if Find(s.q, p.client) < |s.q| || p.cur < 1 || |p.buf| < h || p.max <= 0 then Stop(s, Broken)
    else if |s.q| == capacity - 1 then Stop(s, Overflow)
    else if |p.buf| > MAX_LARGE_BUFSIZE then Stop(s, TooBig)
    else s.(q := s.q + [LargeSlot(p.optype, p.key, p.buf[..h], h, p.buf[h..], p.cur, p.max, p.client, p.fragseq)],
        mode := Between)
  }

  /** One input. Inputs that do not fit the mode change nothing. */
  function Step(m: Sizes, capacity: nat, s: Server, i: Input): Server {
    match s.mode
    case Between => if i.Call? then OnCall(s) else s
    case First =>
      (match i
       case Call => s
       case Timeout => s.(mode := Between)
       case Arrive(p) => OnFirst(m, s, p))
    case Pursuing(p) =>
      if !p.optype.LargeType? then s else
      (match i
       case Call => s
       case Timeout => OnTimeout(m, s, p, capacity)
       case Arrive(pkt) => OnPursuing(m, s, p, pkt, capacity))
    case Stopped(_) => s
  }

  // ---------------------------------------------------------------- the network

  /** What a client sent under one fragment sequence number, and where it cut the value. */
  datatype Request = Request(op: LargeOp, key: int, value: Bytes, cuts: seq<nat>)
  type Requests = (int, int) -> Request

  /** Which fragments have arrived, with the headers they arrived with. */
  type Arrived = map<(int, int, nat), Bytes>

  function Id(f: Frag): (int, int, nat) { (f.client, f.fragseq, f.idx) }

  /** `f` is a fragment of what its client sent, whatever the switch has put in its header. */
  ghost predicate Genuine(m: Sizes, sent: Requests, f: Frag) {
    match sent(f.client, f.fragseq)
    case Request(op, key, value, cuts) =>
      && EvenCuts(cuts, |value|, BodySize(m, f.op)) && !f.op.GetRes? && SentAs(f.op) == op && f.key == key &&
          |f.hdr| == HdrSize(m, f.op)
      && f.num == |cuts| - 1 < WORD16 && CutOk(cuts, f.idx, |value|) && f.part == Part(value, cuts, f.idx)
  }

  /** What the clients and the network guarantee: fragments are genuine and none arrives twice. */
  ghost predicate Expected(m: Sizes, sent: Requests, arrived: Arrived, f: Frag) {
    Genuine(m, sent, f) && Id(f) !in arrived
  }

  // ---------------------------------------------------------------- invariant

  /** `p` holds the parts in `got`, and the first fragment's header if that has come. */
  ghost predicate Holds(m: Sizes, sent: Requests, arrived: Arrived, p: Slot, got: set<nat>)
    requires p.optype.LargeType?
  {
    match p
    case Slot(optype, _, buf, cur, _, client, fragseq) =>
      && Assembling(Filled(buf, HdrSize(m, optype.op), sent(client, fragseq).value, sent(client, fragseq).cuts, got)) &&
          |got| == cur
      && (forall i :: i in got ==> (client, fragseq, i) in arrived)
      && (0 in got ==> buf[..HdrSize(m, optype.op)] == arrived[(client, fragseq, 0)])
  }

  /** How many fragments a client cut a transmission into. */
  function Count(sent: Requests, client: int, fragseq: int): int { |sent(client, fragseq).cuts| - 1 }

  ghost predicate FromRequest(m: Sizes, sent: Requests, p: Slot) {
    match sent(p.client, p.fragseq)
    case Request(op, key, value, cuts) =>
      && p.optype.LargeType? && !p.optype.op.GetRes? && SentAs(p.optype.op) == op && p.key == key
      && EvenCuts(cuts, |value|, BodySize(m, p.optype.op)) && |cuts| - 1 < WORD16 && p.max > 0
  }

  /** A large packet: some fragments of one transmission, each taken once. The count `max` may be that of an
      earlier transmission which this one overtook. */
  ghost predicate PartOk(m: Sizes, sent: Requests, arrived: Arrived, p: Slot) {
    FromRequest(m, sent, p) && p.cur > 0 && exists got :: Holds(m, sent, arrived, p, got)
  }

  /** The first fragment's header, then the value; all fragments have arrived. */
  ghost predicate Whole(sent: Requests, arrived: Arrived, p: Slot) {
    && (forall i: nat :: i < Count(sent, p.client, p.fragseq) ==> (p.client, p.fragseq, i) in arrived)
    && (p.client, p.fragseq, 0) in arrived
    && p.buf == arrived[(p.client, p.fragseq, 0)] + sent(p.client, p.fragseq).value
  }

  /** All fragments are in, and nothing behind them. */
  ghost predicate Complete(m: Sizes, sent: Requests, p: Slot)
    requires p.optype.LargeType?
  {
    p.cur == Count(sent, p.client, p.fragseq) && |p.buf| <= HdrSize(m, p.optype.op) + |sent(p.client, p.fragseq).value|
  }

  ghost predicate QueueOk(m: Sizes, sent: Requests, arrived: Arrived, q: seq<Slot>) {
    && OnePerClient(q)
    && (forall j :: 0 <= j < |q| && q[j].max != 0 ==> PartOk(m, sent, arrived, q[j]))
  }

  ghost predicate HandOk(m: Sizes, sent: Requests, arrived: Arrived, s: Server) {
    match s.mode
    case Between => true
    case First => s.q == []
    case Pursuing(p) => PartOk(m, sent, arrived, p) && p.cur < p.max && Find(s.q, p.client) == |s.q|
    case Stopped(why) => why != Broken
  }

  ghost predicate OutOk(m: Sizes, sent: Requests, arrived: Arrived, out: seq<Slot>) {
    forall i :: 0 <= i < |out| && out[i].max != 0 ==> PartOk(m, sent, arrived, out[i]) && out[i].cur >= out[i].max
  }

  ghost predicate Inv(m: Sizes, sent: Requests, arrived: Arrived, s: Server) {
    QueueOk(m, sent, arrived, s.q) && HandOk(m, sent, arrived, s) && OutOk(m, sent, arrived, s.out)
  }

  // ---------------------------------------------------------------- one fragment

  /** A large packet holds one part more. */
  lemma Grows(m: Sizes, sent: Requests, arrived: Arrived, p: Slot, got: set<nat>, f: Frag, p': Slot, withHdr: bool)
    requires p.optype.LargeType? && Holds(m, sent, arrived, p, got) && Genuine(m, sent, f) && Id(f) !in arrived
    requires p.client == f.client && p.fragseq == f.fragseq && SameType(p.optype, LargeType(f.op))
    requires (f.idx == 0 ==> withHdr) && (withHdr ==> f.idx == 0 || 0 !in got)
    requires p' == p.(buf := Written(p.buf, HdrSize(m, p.optype.op) + f.idx * BodySize(m, p.optype.op), f.part, f.hdr,
      withHdr), cur := p.cur + 1)
    ensures Holds(m, sent, arrived[Id(f) := f.hdr], p', got + {f.idx})
  {
    GenuineParts(m, sent, p, f);
    GrowsStep(m, sent, arrived, p, got, f, withHdr);
  }

  /** What a genuine fragment brings to a packet of its transmission. */
  ghost predicate BringsPart(m: Sizes, r: Request, p: Slot, f: Frag)
    requires p.optype.LargeType?
  {
    && CutOk(r.cuts, f.idx, |r.value|) && r.cuts[f.idx] == f.idx * BodySize(m, p.optype.op)
    && f.part == Part(r.value, r.cuts, f.idx) && |f.hdr| == HdrSize(m, p.optype.op)
  }

  lemma GenuineParts(m: Sizes, sent: Requests, p: Slot, f: Frag)
    requires p.optype.LargeType? && Genuine(m, sent, f) && p.client == f.client && p.fragseq == f.fragseq &&
      SameType(p.optype, LargeType(f.op))
    ensures BringsPart(m, sent(p.client, p.fragseq), p, f)
  {
    assert EvenCut(sent(p.client, p.fragseq).cuts, f.idx, BodySize(m, p.optype.op));
  }

  lemma GrowsStep(m: Sizes, sent: Requests, arrived: Arrived, p: Slot, got: set<nat>, f: Frag, withHdr: bool)
    requires p.optype.LargeType? && Holds(m, sent, arrived, p, got) && Id(f) !in arrived && p.client == f.client &&
      p.fragseq == f.fragseq
    requires (f.idx == 0 ==> withHdr) && (withHdr ==> f.idx == 0 || 0 !in got) &&
      BringsPart(m, sent(p.client, p.fragseq), p, f)
    ensures var buf := Written(p.buf, HdrSize(m, p.optype.op) + f.idx * BodySize(m, p.optype.op), f.part, f.hdr,
      withHdr);
      Holds(m, sent, arrived[Id(f) := f.hdr], p.(buf := buf, cur := p.cur + 1), got + {f.idx})
  {
    var h, off, r := HdrSize(m, p.optype.op), HdrSize(m, p.optype.op) + f.idx * BodySize(m, p.optype.op),
        sent(p.client, p.fragseq);
    WrittenKeeps(p.buf, h, r.value, r.cuts, got, f.idx, off, f.part, f.hdr, withHdr);
    GrowsHeld(m, sent, arrived, p, got, f, Written(p.buf, off, f.part, f.hdr, withHdr), withHdr);
  }

  lemma GrowsHeld(m: Sizes, sent: Requests, arrived: Arrived, p: Slot, got: set<nat>, f: Frag, buf: Bytes,
      withHdr: bool)
    requires p.optype.LargeType? && Holds(m, sent, arrived, p, got) && Id(f) !in arrived && p.client == f.client &&
      p.fragseq == f.fragseq
    requires (f.idx == 0 ==> withHdr) && (withHdr ==> f.idx == 0 || 0 !in got) && |p.buf| >= HdrSize(m, p.optype.op)
    requires Holding(Filled(buf, HdrSize(m, p.optype.op), sent(p.client, p.fragseq).value,
      sent(p.client, p.fragseq).cuts, got + {f.idx}),
                     if withHdr then f.hdr else p.buf[..HdrSize(m, p.optype.op)])
    ensures Holds(m, sent, arrived[Id(f) := f.hdr], p.(buf := buf, cur := p.cur + 1), got + {f.idx})
  {
    assert f.idx !in got;
  }

  /** A packet about to take its first fragment. */
  lemma Starts(m: Sizes, sent: Requests, arrived: Arrived, f: Frag)
    requires Genuine(m, sent, f)
    ensures var p := Slot(LargeType(f.op), f.key, f.hdr, 0, f.num, f.client, f.fragseq);
      FromRequest(m, sent, p) && Holds(m, sent, arrived, p, {})
  {
  }

  lemma Bounded(m: Sizes, sent: Requests, arrived: Arrived, p: Slot, got: set<nat>)
    requires FromRequest(m, sent, p) && Holds(m, sent, arrived, p, got)
    ensures p.cur <= Count(sent, p.client, p.fragseq) && forall i :: i in got ==> i < Count(sent, p.client, p.fragseq)
  {
    WholeBody(p.buf, HdrSize(m, p.optype.op), sent(p.client, p.fragseq).value, sent(p.client, p.fragseq).cuts, got);
  }

  /** A packet under way, about to take a fragment of the same or a later transmission. */
  lemma Joins(m: Sizes, sent: Requests, arrived: Arrived, p: Slot, f: Frag) returns (got: set<nat>)
    requires PartOk(m, sent, arrived, p) && Genuine(m, sent, f)
    requires p.client == f.client && p.key == f.key && SameType(p.optype, LargeType(f.op)) && p.fragseq <= f.fragseq
    ensures var p1 := Rebased(p, f); FromRequest(m, sent, p1) && Holds(m, sent, arrived, p1, got)
    ensures p.fragseq < f.fragseq ==> got == {}
  {
    var held :| Holds(m, sent, arrived, p, held);
    got := if p.fragseq < f.fragseq then {} else held;
    assert SentAs(p.optype.op) == SentAs(f.op) && BodySize(m, p.optype.op) == BodySize(m, f.op);
  }

  /** The packet after the fragment. */
  lemma Advances(m: Sizes, sent: Requests, arrived: Arrived, p: Slot, got: set<nat>, f: Frag, p': Slot, withHdr: bool)
    requires FromRequest(m, sent, p) && Holds(m, sent, arrived, p, got) && Genuine(m, sent, f) && Id(f) !in arrived
    requires p.client == f.client && p.fragseq == f.fragseq && SameType(p.optype, LargeType(f.op))
    requires (f.idx == 0 ==> withHdr) && (withHdr ==> f.idx == 0 || 0 !in got)
    requires p' == p.(buf := Written(p.buf, HdrSize(m, p.optype.op) + f.idx * BodySize(m, p.optype.op), f.part, f.hdr,
      withHdr), cur := p.cur + 1)
    ensures PartOk(m, sent, arrived[Id(f) := f.hdr], p') && 0 < p'.cur <= Count(sent, p.client, p.fragseq) < WORD16
  {
    Grows(m, sent, arrived, p, got, f, p', withHdr);
    assert FromRequest(m, sent, p');
    Bounded(m, sent, arrived[Id(f) := f.hdr], p', got + {f.idx});
  }

  // ---------------------------------------------------------------- whole packets

  /** A packet that has taken all fragments, with nothing behind them, is whole. */
  lemma Completes(m: Sizes, sent: Requests, arrived: Arrived, p: Slot)
    requires PartOk(m, sent, arrived, p) && Complete(m, sent, p)
    ensures Whole(sent, arrived, p)
  {
    var got :| Holds(m, sent, arrived, p, got);
    var h := HdrSize(m, p.optype.op);
    Bounded(m, sent, arrived, p, got);
    WholeBody(p.buf, h, sent(p.client, p.fragseq).value, sent(p.client, p.fragseq).cuts, got);
    AllIndices(got, p.cur);
    assert p.buf == p.buf[..h] + p.buf[h..];
  }

  /** The fragments taken are not all there are. */
  ghost predicate Lacks(m: Sizes, sent: Requests, arrived: Arrived, p: Slot, i: nat)
    requires p.optype.LargeType?
  {
    i < Count(sent, p.client, p.fragseq) && exists got :: Holds(m, sent, arrived, p, got) && i !in got
  }

  /** A packet that is not complete lacks a fragment, or is longer than what was sent. */
  lemma Incomplete(m: Sizes, sent: Requests, arrived: Arrived, p: Slot)
    requires PartOk(m, sent, arrived, p) && !Complete(m, sent, p)
    ensures || (exists i: nat :: Lacks(m, sent, arrived, p, i))
            || |p.buf| > HdrSize(m, p.optype.op) + |sent(p.client, p.fragseq).value|
  {
    var got :| Holds(m, sent, arrived, p, got);
    var n := Count(sent, p.client, p.fragseq);
    Bounded(m, sent, arrived, p, got);
    if p.cur < n {
      var i := Missing(got, n);
      assert Lacks(m, sent, arrived, p, i);
    }
  }

  /** Fewer different indices than there are leave one out. */
  lemma {:induction false} Missing(got: set<nat>, n: nat) returns (i: nat)
    requires |got| < n && forall j :: j in got ==> j < n
    ensures i < n && i !in got
  {
    if n - 1 !in got { return n - 1; }
    i := Missing(got - {n - 1}, n - 1);
  }

  // ---------------------------------------------------------------- more arrivals change nothing else

  lemma PartStays(m: Sizes, sent: Requests, arrived: Arrived, p: Slot, id: (int, int, nat), hdr: Bytes)
    requires PartOk(m, sent, arrived, p) && id !in arrived
    ensures PartOk(m, sent, arrived[id := hdr], p)
  {
    var got :| Holds(m, sent, arrived, p, got);
    assert Holds(m, sent, arrived[id := hdr], p, got);
  }

  lemma QueueStays(m: Sizes, sent: Requests, arrived: Arrived, q: seq<Slot>, id: (int, int, nat), hdr: Bytes)
    requires QueueOk(m, sent, arrived, q) && id !in arrived
    ensures QueueOk(m, sent, arrived[id := hdr], q)
  {
    forall j | 0 <= j < |q| && q[j].max != 0 ensures PartOk(m, sent, arrived[id := hdr], q[j]) {
      PartStays(m, sent, arrived, q[j], id, hdr);
    }
  }

  lemma OutStays(m: Sizes, sent: Requests, arrived: Arrived, out: seq<Slot>, id: (int, int, nat), hdr: Bytes)
    requires OutOk(m, sent, arrived, out) && id !in arrived
    ensures OutOk(m, sent, arrived[id := hdr], out)
  {
    forall i | 0 <= i < |out| && out[i].max != 0 ensures PartOk(m, sent, arrived[id := hdr], out[i]) {
      PartStays(m, sent, arrived, out[i], id, hdr);
    }
  }

  // ---------------------------------------------------------------- the server's steps

  lemma CallKeeps(m: Sizes, sent: Requests, arrived: Arrived, s: Server)
    requires Inv(m, sent, arrived, s) && s.mode.Between?
    ensures Inv(m, sent, arrived, OnCall(s))
  {
    if s.q != [] {
      FindDrop(s.q, s.q[0].client);
      assert QueueOk(m, sent, arrived, s.q[1..]);
      if s.q[0].max != 0 { assert PartOk(m, sent, arrived, s.q[0]); }
    }
  }

  function Taken(m: Sizes, p: Slot, f: Frag): Slot
    requires p.optype.LargeType?
  {
    p.(buf := Absorbed(p.buf, HdrSize(m, p.optype.op), BodySize(m, p.optype.op), f.idx, f.hdr, f.part),
        cur := (p.cur + 1) % WORD16)
  }

  lemma TakeGives(m: Sizes, sent: Requests, arrived: Arrived, p: Slot, got: set<nat>, f: Frag)
    requires FromRequest(m, sent, p) && Holds(m, sent, arrived, p, got) && Expected(m, sent, arrived, f)
    requires p.client == f.client && p.fragseq == f.fragseq && SameType(p.optype, LargeType(f.op))
    ensures PartOk(m, sent, arrived[Id(f) := f.hdr], Taken(m, p, f)) && Taken(m, p, f).cur == p.cur + 1
  {
    var p' := p.(buf := Absorbed(p.buf, HdrSize(m, p.optype.op), BodySize(m, p.optype.op), f.idx, f.hdr, f.part),
        cur := p.cur + 1);
    Advances(m, sent, arrived, p, got, f, p', f.idx == 0);
  }

  lemma TakeKeeps(m: Sizes, sent: Requests, arrived: Arrived, s: Server, p: Slot, got: set<nat>, f: Frag)
    requires QueueOk(m, sent, arrived, s.q) && OutOk(m, sent, arrived, s.out) && Find(s.q, f.client) == |s.q|
    requires FromRequest(m, sent, p) && Holds(m, sent, arrived, p, got) && Expected(m, sent, arrived, f)
    requires p.client == f.client && p.fragseq == f.fragseq && SameType(p.optype, LargeType(f.op))
    ensures Inv(m, sent, arrived[Id(f) := f.hdr], Take(m, s, p, f))
  {
    TakeGives(m, sent, arrived, p, got, f);
    QueueStays(m, sent, arrived, s.q, Id(f), f.hdr);
    OutStays(m, sent, arrived, s.out, Id(f), f.hdr);
  }

  lemma FirstKeeps(m: Sizes, sent: Requests, arrived: Arrived, s: Server, f: Frag)
    requires Inv(m, sent, arrived, s) && s.mode.First? && Expected(m, sent, arrived, f)
    ensures Inv(m, sent, arrived[Id(f) := f.hdr], OnFirst(m, s, Large(f)))
  {
    assert EvenCut(sent(f.client, f.fragseq).cuts, f.idx, BodySize(m, f.op));
    Starts(m, sent, arrived, f);
    TakeKeeps(m, sent, arrived, s, Slot(LargeType(f.op), f.key, f.hdr, 0, f.num, f.client, f.fragseq), {}, f);
  }

  /** More has arrived; nothing else has changed. */
  lemma IdleKeeps(m: Sizes, sent: Requests, arrived: Arrived, s: Server, id: (int, int, nat), hdr: Bytes)
    requires Inv(m, sent, arrived, s) && id !in arrived
    ensures Inv(m, sent, arrived[id := hdr], s) && forall why ::
      why != Broken ==> Inv(m, sent, arrived[id := hdr], Stop(s, why))
  {
    QueueStays(m, sent, arrived, s.q, id, hdr);
    OutStays(m, sent, arrived, s.out, id, hdr);
    if s.mode.Pursuing? { PartStays(m, sent, arrived, s.mode.p, id, hdr); }
  }

  lemma SameClientKeeps(m: Sizes, sent: Requests, arrived: Arrived, s: Server, f: Frag, capacity: nat)
    requires Inv(m, sent, arrived, s) && s.mode.Pursuing? && Expected(m, sent, arrived, f) &&
      f.client == s.mode.p.client
    ensures Inv(m, sent, arrived[Id(f) := f.hdr], OnPursuing(m, s, s.mode.p, Large(f), capacity))
  {
    var p := s.mode.p;
    if f.key != p.key || !SameType(LargeType(f.op), p.optype) || f.fragseq < p.fragseq {
      IdleKeeps(m, sent, arrived, s, Id(f), f.hdr);
    } else {
      var got := Joins(m, sent, arrived, p, f);
      TakeKeeps(m, sent, arrived, s, Rebased(p, f), got, f);
    }
  }

  /** A queue with one packet replaced or added; `c` is some other client. */
  lemma QueueReplace(m: Sizes, sent: Requests, arrived: Arrived, q: seq<Slot>, j: nat, p: Slot, c: int)
    requires QueueOk(m, sent, arrived, q) && j < |q| && q[j].max > 0 && p.max > 0 && p.client == q[j].client
    requires PartOk(m, sent, arrived, p)
    ensures QueueOk(m, sent, arrived, q[j := p]) && Find(q[j := p], c) == Find(q, c)
  {
    FindReplace(q, j, p, c);
  }

  lemma QueueAdd(m: Sizes, sent: Requests, arrived: Arrived, q: seq<Slot>, p: Slot, c: int)
    requires QueueOk(m, sent, arrived, q)
    requires p.max != 0 ==> PartOk(m, sent, arrived, p) && Find(q, p.client) == |q|
    ensures QueueOk(m, sent, arrived, q + [p])
    ensures Find(q, c) == |q| && !IsOf(p, c) ==> Find(q + [p], c) == |q| + 1
  {
    FindAppend(q, p, c);
  }

  function UpdatedBy(m: Sizes, p: Slot, f: Frag): Slot { Updated(p, f.hdr, Off(m, f), f.part, f.fragseq, f.idx == 0) }

  function ParkedBy(m: Sizes, f: Frag): Slot {
    LargeSlot(LargeType(f.op), f.key, f.hdr, Off(m, f), f.part, 1, f.num, f.client, f.fragseq)
  }

  lemma ParkUpdates(m: Sizes, sent: Requests, arrived: Arrived, q: seq<Slot>, j: nat, f: Frag, c: int)
    requires QueueOk(m, sent, arrived, q) && QueueOk(m, sent, arrived[Id(f) := f.hdr], q) &&
      Expected(m, sent, arrived, f)
    requires j < |q| && IsOf(q[j], f.client) && q[j].key == f.key && SameType(q[j].optype, LargeType(f.op)) &&
      q[j].fragseq <= f.fragseq
    ensures QueueOk(m, sent, arrived[Id(f) := f.hdr], q[j := UpdatedBy(m, q[j], f)])
    ensures Find(q[j := UpdatedBy(m, q[j], f)], c) == Find(q, c)
  {
    assert PartOk(m, sent, arrived, q[j]);
    UpdatedIs(m, sent, arrived, q[j], f);
    QueueReplace(m, sent, arrived[Id(f) := f.hdr], q, j, UpdatedBy(m, q[j], f), c);
  }

  lemma ParkAdds(m: Sizes, sent: Requests, arrived: Arrived, q: seq<Slot>, f: Frag, c: int)
    requires QueueOk(m, sent, arrived[Id(f) := f.hdr], q) && Expected(m, sent, arrived, f)
    requires Find(q, f.client) == |q| == Find(q, c) && c != f.client
    ensures QueueOk(m, sent, arrived[Id(f) := f.hdr], q + [ParkedBy(m, f)]) && Find(q + [ParkedBy(m, f)], c) == |q| + 1
  {
    ParkedIs(m, sent, arrived, f);
    QueueAdd(m, sent, arrived[Id(f) := f.hdr], q, ParkedBy(m, f), c);
  }

  /** The outcomes of parking a fragment. */
  lemma ParkGives(m: Sizes, s: Server, f: Frag, capacity: nat)
    ensures var s', j := Park(m, s, f, capacity), Find(s.q, f.client);
      || (exists why :: why != Broken && s' == Stop(s, why))
      || (j < |s.q| && MayUpdate(s.q[j], LargeType(f.op), f.key, f.fragseq, f.hdr, Off(m, f), f.part) &&
          s' == s.(q := s.q[j := UpdatedBy(m, s.q[j], f)]))
      || (j == |s.q| && s' == s.(q := s.q + [ParkedBy(m, f)]))
  {
    var s' := Park(m, s, f, capacity);
    if s'.mode.Stopped? && !s.mode.Stopped? { assert s' == Stop(s, s'.mode.why); }
  }

  /** The queue has changed, the rest has not. */
  lemma RequeueKeeps(m: Sizes, sent: Requests, arrived: Arrived, s: Server, q: seq<Slot>)
    requires Inv(m, sent, arrived, s) && s.mode.Pursuing? && QueueOk(m, sent, arrived, q) &&
      Find(q, s.mode.p.client) == |q|
    ensures Inv(m, sent, arrived, s.(q := q))
  {
  }

  lemma ParkKeeps(m: Sizes, sent: Requests, arrived: Arrived, s: Server, f: Frag, capacity: nat)
    requires Inv(m, sent, arrived, s) && s.mode.Pursuing? && Expected(m, sent, arrived, f) &&
      f.client != s.mode.p.client
    ensures Inv(m, sent, arrived[Id(f) := f.hdr], Park(m, s, f, capacity))
  {
    var s', j, c, arrived' := Park(m, s, f, capacity), Find(s.q, f.client), s.mode.p.client, arrived[Id(f) := f.hdr];
    IdleKeeps(m, sent, arrived, s, Id(f), f.hdr);
    ParkGives(m, s, f, capacity);
    if exists why :: why != Broken && s' == Stop(s, why) {
    } else if j < |s.q| {
      ParkUpdates(m, sent, arrived, s.q, j, f, c);
      RequeueKeeps(m, sent, arrived', s, s.q[j := UpdatedBy(m, s.q[j], f)]);
    } else {
      ParkAdds(m, sent, arrived, s.q, f, c);
      RequeueKeeps(m, sent, arrived', s, s.q + [ParkedBy(m, f)]);
    }
  }

  lemma UpdatedIs(m: Sizes, sent: Requests, arrived: Arrived, p: Slot, f: Frag)
    requires PartOk(m, sent, arrived, p) && Expected(m, sent, arrived, f)
    requires p.client == f.client && p.key == f.key && SameType(p.optype, LargeType(f.op)) && p.fragseq <= f.fragseq
    ensures PartOk(m, sent, arrived[Id(f) := f.hdr], UpdatedBy(m, p, f)) &&
      UpdatedBy(m, p, f).cur == Rebased(p, f).cur + 1
  {
    var got := Joins(m, sent, arrived, p, f);
    var p1, withHdr := Rebased(p, f), p.fragseq < f.fragseq || f.idx == 0;
    var p' := p1.(buf := Written(p1.buf, Off(m, f), f.part, f.hdr, withHdr), cur := p1.cur + 1);
    Advances(m, sent, arrived, p1, got, f, p', withHdr);
    assert UpdatedBy(m, p, f) == p';
  }

  lemma ParkedIs(m: Sizes, sent: Requests, arrived: Arrived, f: Frag)
    requires Expected(m, sent, arrived, f)
    ensures PartOk(m, sent, arrived[Id(f) := f.hdr], ParkedBy(m, f))
  {
    var p := Slot(LargeType(f.op), f.key, f.hdr, 0, f.num, f.client, f.fragseq);
    var p' := p.(buf := Written(f.hdr, Off(m, f), f.part, f.hdr, f.idx == 0), cur := 1);
    Starts(m, sent, arrived, f);
    Advances(m, sent, arrived, p, {}, f, p', f.idx == 0);
    assert Written(f.hdr, Off(m, f), f.part, f.hdr, f.idx == 0) == Spliced(f.hdr, Off(m, f), f.part);
  }

  lemma TimeoutKeeps(m: Sizes, sent: Requests, arrived: Arrived, s: Server, capacity: nat)
    requires Inv(m, sent, arrived, s) && s.mode.Pursuing?
    ensures Inv(m, sent, arrived, OnTimeout(m, s, s.mode.p, capacity))
  {
    var p, h := s.mode.p, HdrSize(m, s.mode.p.optype.op);
    var got :| Holds(m, sent, arrived, p, got);
    assert Spliced(p.buf[..h], h, p.buf[h..]) == p.buf;
    QueueAdd(m, sent, arrived, s.q, p, p.client);
  }

  lemma SmallKeeps(m: Sizes, sent: Requests, arrived: Arrived, s: Server, capacity: nat, p: Packet)
    requires Inv(m, sent, arrived, s) && p.Small?
    ensures s.mode.First? ==> Inv(m, sent, arrived, OnFirst(m, s, p))
    ensures s.mode.Pursuing? ==> Inv(m, sent, arrived, OnPursuing(m, s, s.mode.p, p, capacity))
  {
    if s.mode.Pursuing? {
      QueueAdd(m, sent, arrived, s.q, SmallSlot(SmallType(p.code), p.key, p.bytes), s.mode.p.client);
    }
  }
}
