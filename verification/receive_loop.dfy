/** `udprecvlarge` for a server worker (common/socket_helper.c:539-850) over the ring buffer object,
    proved to take exactly the steps of the receive machine. */
module ReceiveLoop {
  import opened DynamicArrays
  import opened Fragments
  import opened PktRingBuffers
  import opened ReceiveMachine

  /** The machine fed with a list of inputs. */
  ghost function Run(m: Sizes, capacity: nat, s: Server, inputs: seq<Input>): Server {
    if inputs == [] then s else Step(m, capacity, Run(m, capacity, s, inputs[..|inputs| - 1]), inputs[|inputs| - 1])
  }

  lemma RunSnoc(m: Sizes, capacity: nat, s: Server, inputs: seq<Input>, i: Input)
    ensures Run(m, capacity, s, inputs + [i]) == Step(m, capacity, Run(m, capacity, s, inputs), i)
  {
    assert (inputs + [i])[..|inputs|] == inputs;
  }

  /** What the socket will yield: a packet, or nothing before the timeout. */
  datatype Recv = Nothing | Got(p: Packet)

  function AsInput(r: Recv): Input { if r.Nothing? then Timeout else Arrive(r.p) }

  function AsInputs(rs: seq<Recv>): seq<Input> { seq(|rs|, i requires 0 <= i < |rs| => AsInput(rs[i])) }

  predicate Waits(mode: Mode) { mode.First? || mode.Pursuing? }

  /** Each of these inputs is taken by a server that waits for one. */
  ghost predicate AllAwaited(m: Sizes, capacity: nat, s: Server, inputs: seq<Input>) {
    forall i :: 0 <= i < |inputs| ==> Waits(Run(m, capacity, s, inputs[..i]).mode)
  }

  lemma AwaitedNext(m: Sizes, capacity: nat, s: Server, inputs: seq<Input>, i: Input)
    requires AllAwaited(m, capacity, s, inputs) && Waits(Run(m, capacity, s, inputs).mode)
    ensures AllAwaited(m, capacity, s, inputs + [i])
  {
    forall j | 0 <= j < |inputs + [i]| ensures Waits(Run(m, capacity, s, (inputs + [i])[..j]).mode) {
      assert (inputs + [i])[..j] == inputs[..j];
      assert inputs[..|inputs|] == inputs;
    }
  }

  /** The inputs are what was taken from the network, and one timeout if that ran dry. */
  ghost predicate TakenFrom(before: seq<Recv>, after: seq<Recv>, inputs: seq<Input>) {
    && |after| <= |before| && after == before[|before| - |after|..]
    && (|| inputs == AsInputs(before[..|before| - |after|])
        || (after == [] && inputs == AsInputs(before) + [Timeout]))
  }

  lemma TakenNext(before: seq<Recv>, after: seq<Recv>, inputs: seq<Input>)
    requires |after| <= |before| && after == before[|before| - |after|..] &&
      inputs == AsInputs(before[..|before| - |after|])
    ensures after == [] ==> TakenFrom(before, [], inputs + [Timeout])
    ensures after != [] ==>
      after[1..] == before[|before| - |after[1..]|..] &&
      inputs + [AsInput(after[0])] == AsInputs(before[..|before| - |after[1..]|])
  {
    if after == [] { assert before[..|before|] == before; }
  }

  /** What a call has done so far: from `s0`, with `net0` to come and `out0` returned, it has taken `used`. */
  datatype Trace = Trace(m: Sizes, capacity: nat, s0: Server, net0: seq<Recv>, out0: seq<Slot>, used: seq<Input>)

  /** ... and is now in state `s`; `got` is what came last, `p` what is to be returned. */
  ghost predicate Going(h: Trace, s: Server, net: seq<Recv>, got: Recv, p: Slot) {
    match h
    case Trace(m, capacity, s0, net0, out0, used) =>
      && s == Run(m, capacity, s0, used) && AllAwaited(m, capacity, s0, used)
      && if got.Nothing? then
           TakenFrom(net0, net, used) && !Waits(s.mode) && (s.mode.Between? ==> s.out == out0)
         else
           && |net| <= |net0| && net == net0[|net0| - |net|..] && used == AsInputs(net0[..|net0| - |net|])
           && if s.mode.Between? then s.out == out0 + [p] else s.mode.Stopped? || s.out == out0
  }

  lemma GoingNext(h: Trace, s: Server, net: seq<Recv>, got: Recv, p: Slot, s': Server, net': seq<Recv>, got': Recv,
      p': Slot)
    requires Going(h, s, net, got, p) && Waits(s.mode) && s' == Step(h.m, h.capacity, s, AsInput(got'))
    requires if net == [] then got' == Nothing && net' == [] else got' == net[0] && net' == net[1..]
    requires got'.Nothing? ==> !Waits(s'.mode) && (s'.mode.Between? ==> s'.out == s.out)
    requires !got'.Nothing? ==> if s'.mode.Between? then s'.out == s.out + [p'] else s'.mode.Stopped? || s'.out == s.out
    ensures Going(h.(used := h.used + [AsInput(got')]), s', net', got', p')
  {
    TakenNext(h.net0, net, h.used);
    RunSnoc(h.m, h.capacity, h.s0, h.used, AsInput(got'));
    AwaitedNext(h.m, h.capacity, h.s0, h.used, AsInput(got'));
  }

  datatype Outcome = TimedOut | Received(p: Slot) | Ended(why: Why)

  class Receiver {
    /** The sizes of the method's packets. */
    const sizes: Sizes
    const ring: PktRingBuffer
    var net: seq<Recv>
    /** Everything returned so far. */
    ghost var out: seq<Slot>

    constructor (m: MethodId, capacity: nat, arrivals: seq<Recv>)
      requires capacity > 0
      ensures net == arrivals && out == [] && fresh(ring) && ring.Valid() && ring.capacity == capacity &&
        ring.queue == []
    {
      sizes, net, out := SizesOf(m), arrivals, [];
      ring := new PktRingBuffer(capacity);
    }

    /** The state between or inside calls. */
    ghost function State(mode: Mode): Server
      reads this, ring
    {
      Server(ring.queue, mode, out)
    }

    /** `udprecvfrom`: the next arrival, or the timeout when nothing more comes. */
    method Receive() returns (r: Recv)
      modifies this`net
      ensures old(net) == [] ==> r == Nothing && net == []
      ensures old(net) != [] ==> r == old(net)[0] && net == old(net)[1..]
    {
      if net == [] { return Nothing; }
      r := net[0];
      net := net[1..];
    }

    /** Lines 803-829: `p` takes the fragment; the packet may now be complete. */
    method TakeFragment(p: Slot, f: Frag) returns (mode: Mode, p': Slot)
      requires p.optype.LargeType?
      modifies this`out
      ensures State(mode) == Take(sizes, old(State(Between)), p, f)
      ensures match mode
        case Between => out == old(out) + [p']
        case Pursuing(next) => out == old(out) && next.optype.LargeType?
        case Stopped(_) => true
        case First => false
    {
      var h, size := HdrSize(sizes, p.optype.op), BodySize(sizes, p.optype.op);
      if f.idx >= p.max { return Stopped(BadFragment), p; }
      if h + f.idx * size + |f.part| > MAX_LARGE_BUFSIZE { return Stopped(TooBig), p; }
      p' := p.(buf := Absorbed(p.buf, h, size, f.idx, f.hdr, f.part), cur := (p.cur + 1) % WORD16);
      if p'.cur >= p'.max {
        out := out + [p'];
        return Between, p';
      }
      return Pursuing(p'), p';
    }

    /** Lines 746-756: the client has a packet in the ring. */
    method UpdateParked(f: Frag) returns (r: Stat)
      requires ring.Valid() && Find(ring.queue, f.client) < |ring.queue|
      modifies ring
      ensures ring.Valid()
      ensures var q := old(ring.queue); var j := Find(q, f.client);
        if MayUpdate(q[j], LargeType(f.op), f.key, f.fragseq, f.hdr, Off(sizes, f), f.part)
        then r == Done && ring.queue == q[j := UpdatedBy(sizes, q[j], f)] else r != Done && ring.queue == q
    {
      r := ring.UpdateLarge(LargeType(f.op), f.key, f.hdr, Off(sizes, f), f.part, f.client, f.fragseq, f.idx == 0);
    }

    /** Lines 757-768: it has none. */
    method PushParked(f: Frag) returns (r: Stat)
      requires ring.Valid() && Find(ring.queue, f.client) == |ring.queue|
      modifies ring
      ensures ring.Valid()
      ensures r == if f.num == 0 then Exit else if |old(ring.queue)| == ring.capacity - 1 then Full
                   else if Off(sizes, f) + |f.part| > MAX_LARGE_BUFSIZE || |f.hdr| > MAX_LARGE_BUFSIZE then Exit
                       else Done
      ensures ring.queue == if r == Done then old(ring.queue) + [ParkedBy(sizes, f)] else old(ring.queue)
    {
      r := ring.PushLarge(LargeType(f.op), f.key, f.hdr, Off(sizes, f), f.part, 1, f.num, f.client, f.fragseq);
    }

    /** Lines 726-771: a fragment from another client. */
    method ParkFragment(p: Slot, f: Frag) returns (mode: Mode)
      requires ring.Valid() && p.optype.LargeType?
      modifies ring
      ensures ring.Valid() && State(mode) == Park(sizes, old(State(Pursuing(p))), f, ring.capacity)
      ensures mode == Pursuing(p) || mode.Stopped?
    {
      if |f.part| > BodySize(sizes, f.op) { return Stopped(BadFragment); }
      var found := ring.HasClient(f.client);
      var r;
      if found {
        r := UpdateParked(f);
        return if r == Done then Pursuing(p) else Stopped(BadFragment);
      }
      r := PushParked(f);
      match r
      case Done => return Pursuing(p);
      case Full => return Stopped(Overflow);
      case Exit => return Stopped(if f.num == 0 then BadFragment else TooBig);
    }

    /** Lines 689-799: a packet that arrives while `p` is pursued. */
    method Pursue(p: Slot, pkt: Packet) returns (mode: Mode, p': Slot)
      requires ring.Valid() && p.optype.LargeType?
      modifies this`out, ring
      ensures ring.Valid() && State(mode) == OnPursuing(sizes, old(State(Pursuing(p))), p, pkt, ring.capacity)
      ensures pkt.Small? ==>
        if |old(ring.queue)| == ring.capacity - 1 then mode == Stopped(Overflow) && ring.queue == old(ring.queue)
        else if |pkt.bytes| > MAX_LARGE_BUFSIZE then mode == Stopped(TooBig) && ring.queue == old(ring.queue)
        else mode == Pursuing(p) && ring.queue == old(ring.queue) + [SmallSlot(SmallType(pkt.code), pkt.key, pkt.bytes)]
      ensures match mode
        case Between => out == old(out) + [p']
        case Pursuing(next) => out == old(out) && next.optype.LargeType?
        case Stopped(_) => true
        case First => false
    {
      p' := p;
      match pkt
      case Small(code, key, bytes) =>
        var r := ring.Push(SmallType(code), key, bytes);
        if r == Full { return Stopped(Overflow), p; }
        if r == Exit { return Stopped(TooBig), p; }
        mode := Pursuing(p);
      case Large(f) =>
        if f.op.GetRes? { return Stopped(NotForServer), p; }
        if f.client != p.client {
          mode := ParkFragment(p, f);
        } else if f.key != p.key || !SameType(LargeType(f.op), p.optype) || f.fragseq < p.fragseq {
          mode := Pursuing(p);
        } else {
          mode, p' := TakeFragment(Rebased(p, f), f);
        }
    }

    /** Lines 616-688: the first packet of a call. */
    method FirstPacket(pkt: Packet) returns (mode: Mode, p: Slot)
      modifies this`out
      ensures State(mode) == OnFirst(sizes, old(State(First)), pkt)
      ensures match mode
        case Between => out == old(out) + [p]
        case Pursuing(next) => out == old(out) && next.optype.LargeType?
        case Stopped(_) => true
        case First => false
    {
      match pkt
      case Small(code, key, bytes) =>
        p := SmallSlot(SmallType(code), key, bytes);
        out := out + [p];
        mode := Between;
      case Large(f) =>
        p := Slot(LargeType(f.op), f.key, f.hdr, 0, f.num, f.client, f.fragseq);
        if f.op.GetRes? { return Stopped(NotForServer), p; }
        if |f.part| > BodySize(sizes, f.op) { return Stopped(BadFragment), p; }
        mode, p := TakeFragment(p, f);
    }

    /** Lines 832-847: a timeout while `p` is pursued. */
    method ParkPursued(p: Slot) returns (mode: Mode)
      requires ring.Valid() && p.optype.LargeType?
      modifies ring
      ensures ring.Valid() && State(mode) == OnTimeout(sizes, old(State(Pursuing(p))), p, ring.capacity)
      ensures mode == Between || mode.Stopped?
    {
      var h := HdrSize(sizes, p.optype.op);
      var found := ring.HasClient(p.client);
      if found || p.cur < 1 || |p.buf| < h || p.max <= 0 { return Stopped(Broken); }
      assert |p.buf[..h]| <= h + |p.buf[h..]| == |p.buf|;
      var r := ring.PushLarge(p.optype, p.key, p.buf[..h], h, p.buf[h..], p.cur, p.max, p.client, p.fragseq);
      match r
      case Done => return Between;
      case Full => return Stopped(Overflow);
      case Exit => return Stopped(TooBig);
    }

    /** Lines 574-613: the oldest packet of the ring, if there is one. */
    method PopFirst() returns (mode: Mode, p: Slot)
      requires ring.Valid()
      modifies this`out, ring
      ensures ring.Valid() && State(mode) == OnCall(old(State(Between)))
      ensures match mode
        case Between => out == old(out) + [p]
        case Pursuing(next) => out == old(out) && next.optype.LargeType?
        case Stopped(_) => true
        case First => out == old(out)
    {
      var found;
      found, p := ring.Pop();
      if !found { return First, p; }
      if p.max == 0 || p.cur >= p.max {
        out := out + [p];
        return Between, p;
      }
      if !p.optype.LargeType? { return Stopped(Broken), p; }
      return Pursuing(p), p;
    }

    /** One input: a datagram, or the timeout (lines 616-848). */
    method Next(before: Mode, p0: Slot) returns (got: Recv, mode: Mode, p: Slot)
      requires ring.Valid() && Waits(before) && (before.Pursuing? ==> before.p.optype.LargeType?)
      modifies this`net, this`out, ring
      ensures if old(net) == [] then got == Nothing && net == [] else got == old(net)[0] && net == old(net)[1..]
      ensures ring.Valid() && State(mode) == Step(sizes, ring.capacity, old(State(before)), AsInput(got))
      ensures mode.Pursuing? ==> mode.p.optype.LargeType?
      ensures got.Nothing? ==> !Waits(mode) && (mode.Between? ==> out == old(out))
      ensures !got.Nothing? ==> if mode.Between? then out == old(out) + [p] else mode.Stopped? || out == old(out)
    {
      mode, p := before, p0;
      got := Receive();
      if got.Nothing? {
        if before.First? { mode := Between; } else { mode := ParkPursued(before.p); }
      } else if before.First? {
        mode, p := FirstPacket(got.p);
      } else {
        mode, p := Pursue(before.p, got.p);
      }
    }

    /** The loop (lines 615-830). */
    method Serve(before: Mode, p0: Slot, ghost h0: Trace) returns (got: Recv, mode: Mode, p: Slot, ghost h: Trace)
      requires ring.Valid() && Going(h0, State(before), net, Got(Small(0, 0, [])), p0) && h0.m == sizes &&
        h0.capacity == ring.capacity
      requires before.Pursuing? ==> before.p.optype.LargeType?
      modifies this`net, this`out, ring
      ensures ring.Valid() && !Waits(mode) && Going(h, State(mode), net, got, p) && h == h0.(used := h.used)
    {
      got, mode, p, h := Got(Small(0, 0, [])), before, p0, h0;
      while Waits(mode)
        invariant ring.Valid() && Going(h, State(mode), net, got, p) && (mode.Pursuing? ==> mode.p.optype.LargeType?)
        invariant h == h0.(used := h.used)
        decreases |net|, Waits(mode)
      {
        ghost var s, net1, got1, p1 := State(mode), net, got, p;
        got, mode, p := Next(mode, p);
        GoingNext(h, s, net1, got1, p1, State(mode), net, got, p);
        h := h.(used := h.used + [AsInput(got)]);
      }
    }

    /** One call. `used` is, in order, what it took from the network, with one timeout at the end if that ran dry. The
        object has gone through the machine's steps for exactly that, each of them taken by a server that was
        waiting for it, and what the caller gets is what the machine returned. */
    method UdpRecvLarge() returns (r: Outcome, ghost used: seq<Input>)
      requires ring.Valid()
      modifies this`net, this`out, ring
      ensures ring.Valid() && TakenFrom(old(net), net, used)
      ensures AllAwaited(sizes, ring.capacity, OnCall(old(State(Between))), used)
      ensures var s := Run(sizes, ring.capacity, OnCall(old(State(Between))), used);
        match r
        case TimedOut => s == State(Between) && out == old(out)
        case Received(p) => s == State(Between) && out == old(out) + [p]
        case Ended(why) => s == State(Stopped(why))
    {
      ghost var h := Trace(sizes, ring.capacity, OnCall(State(Between)), net, out, []);
      var mode, p := PopFirst();
      var got;
      got, mode, p, h := Serve(mode, p, h);
      return if mode.Stopped? then Ended(mode.why) else if got.Nothing? then Outcome.TimedOut else Received(p), h.used;
    }
  }
}
