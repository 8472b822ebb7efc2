/** When a genuine fragment ends the server: `update_large` checks what it is given against the parked packet
    (common/pkt_ring_buffer.c:110-149), where a packet pursued lets a fragment that does not belong to it pass
    (common/socket_helper.c:772-817). */
module ReceiveStops {
  import opened Common
  import opened DynamicArrays
  import opened Fragments
  import opened PktRingBuffers
  import opened ReceiveDelivery
  import opened ReceiveMachine
  import opened ReceiveRepeats
  import opened ReceiveSafety

  // ---------------------------------------------------------------- exactly when

  /** A fragment that the parked packet of its client does not take: of another key or type, of an older transmission,
      or beyond the largest buffer. */
  predicate Contradicts(m: Sizes, p: Slot, f: Frag) {
    || p.key != f.key || !SameType(p.optype, LargeType(f.op)) || f.fragseq < p.fragseq
    || Off(m, f) + |f.part| > MAX_LARGE_BUFSIZE || |f.hdr| > MAX_LARGE_BUFSIZE
  }

  /** A fragment that belongs to the packet pursued, or overtakes it, but lies beyond the count of fragments. */
  predicate Beyond(p: Slot, f: Frag) {
    p.key == f.key && SameType(p.optype, LargeType(f.op)) && p.fragseq <= f.fragseq && p.max <= f.idx
  }

  predicate Clashes(m: Sizes, s: Server, i: Input) {
    match i
    case Arrive(Large(f)) =>
      s.mode.Pursuing? &&
      if f.client == s.mode.p.client then Beyond(s.mode.p, f)
      else Find(s.q, f.client) < |s.q| && Contradicts(m, s.q[Find(s.q, f.client)], f)
    case _ => false
  }

  /** A genuine fragment has a place among those announced, and no more bytes than a fragment may have. */
  lemma GenuineSmall(m: Sizes, sent: Requests, f: Frag)
    requires Genuine(m, sent, f)
    ensures f.idx < f.num && |f.part| <= BodySize(m, f.op)
  {
    assert EvenCut(sent(f.client, f.fragseq).cuts, f.idx, BodySize(m, f.op));
  }

  /** The ring has no room for what comes: a small packet, the packet pursued, or the first fragment of a client. */
  predicate Overfull(capacity: nat, s: Server, i: Input) {
    s.mode.Pursuing? && |s.q| == capacity - 1 &&
    match i
    case Call => false
    case Timeout => true
    case Arrive(Small(_, _, _)) => true
    case Arrive(Large(f)) => f.client != s.mode.p.client && Find(s.q, f.client) == |s.q|
  }

  /** A small packet to be parked, or a fragment that is taken up, ends beyond the largest buffer. */
  predicate TooLong(m: Sizes, s: Server, i: Input) {
    match i
    case Arrive(Small(_, _, bytes)) => s.mode.Pursuing? && |bytes| > MAX_LARGE_BUFSIZE
    case Arrive(Large(f)) =>
      && Off(m, f) + |f.part| > MAX_LARGE_BUFSIZE
      && (s.mode.First? || (s.mode.Pursuing? && TakenUp(s, s.mode.p, f)))
    case _ => false
  }

  /** A fragment of the packet pursued, or the first of its client. */
  predicate TakenUp(s: Server, p: Slot, f: Frag) {
    if f.client == p.client
    then p.key == f.key && SameType(p.optype, LargeType(f.op)) && p.fragseq <= f.fragseq && f.idx < p.max
    else Find(s.q, f.client) == |s.q|
  }

  /** The input ends the server for that reason. */
  predicate Ends(m: Sizes, capacity: nat, s: Server, i: Input, why: Why) {
    match why
    case Overflow => Overfull(capacity, s, i)
    case TooBig => TooLong(m, s, i) && !Overfull(capacity, s, i)
    case BadFragment => Clashes(m, s, i)
    case NotForServer => false
    case Broken => false
  }

  /** What is kept of large packets, and the small packets parked, fit the largest buffer. */
  ghost predicate BufsOk(s: Server) {
    (s.mode.Pursuing? ==> |s.mode.p.buf| <= MAX_LARGE_BUFSIZE) &&
    forall j :: 0 <= j < |s.q| ==> |s.q[j].buf| <= MAX_LARGE_BUFSIZE
  }

  /** What a genuine fragment is like, and a packet in hand. */
  predicate Proper(m: Sizes, f: Frag) {
    !f.op.GetRes? && f.idx < f.num && |f.part| <= BodySize(m, f.op) && |f.hdr| == HdrSize(m, f.op)
  }

  predicate InHand(m: Sizes, s: Server, p: Slot) {
    p.optype.LargeType? && p.cur >= 1 && p.max > 0 && |p.buf| >= HdrSize(m, p.optype.op) &&
        Find(s.q, p.client) == |s.q|
  }

  /** The server is at a point where this input can come. */
  ghost predicate Waiting(m: Sizes, s: Server, i: Input) {
    && (s.mode.Pursuing? ==> InHand(m, s, s.mode.p)) && (i.Call? <==> s.mode.Between?) && !s.mode.Stopped?
    && (s.q != [] ==> s.q[0].max == 0 || s.q[0].optype.LargeType?)
  }

  ghost predicate Ready(m: Sizes, s: Server, i: Input) {
    Waiting(m, s, i) && (i.Arrive? && i.p.Large? ==> Proper(m, i.p.f))
  }

  lemma GetsReady(m: Sizes, sent: Requests, c: Config, i: Input)
    requires Inv(m, sent, c.arrived, c.s) && MayFeed(m, sent, c, i)
    ensures Ready(m, c.s, i)
  {
    if i.Arrive? && i.p.Large? { GenuineSmall(m, sent, i.p.f); }
    if c.s.q != [] && c.s.q[0].max != 0 { assert PartOk(m, sent, c.arrived, c.s.q[0]); }
  }

  lemma TakeBufsOk(m: Sizes, s: Server, p: Slot, f: Frag)
    requires BufsOk(s) && p.optype.LargeType? && SameType(p.optype, LargeType(f.op)) && Proper(m, f) &&
      |p.buf| <= MAX_LARGE_BUFSIZE
    ensures BufsOk(Take(m, s, p, f))
  {
  }

  lemma ParkBufsOk(m: Sizes, s: Server, f: Frag, capacity: nat)
    requires BufsOk(s) && s.mode.Pursuing? && Proper(m, f)
    ensures BufsOk(Park(m, s, f, capacity))
  {
  }

  lemma FirstBufsOk(m: Sizes, s: Server, f: Frag)
    requires BufsOk(s) && Proper(m, f)
    ensures BufsOk(OnFirst(m, s, Large(f)))
  {
    if Off(m, f) + |f.part| <= MAX_LARGE_BUFSIZE {
      TakeBufsOk(m, s, Slot(LargeType(f.op), f.key, f.hdr, 0, f.num, f.client, f.fragseq), f);
    }
  }

  lemma StepBufsOk(m: Sizes, capacity: nat, s: Server, i: Input)
    requires Ready(m, s, i) && BufsOk(s)
    ensures BufsOk(Step(m, capacity, s, i))
  {
    if i.Arrive? && i.p.Large? {
      if s.mode.First? {
        FirstBufsOk(m, s, i.p.f);
      } else if i.p.f.client != s.mode.p.client {
        ParkBufsOk(m, s, i.p.f, capacity);
      } else if SameType(LargeType(i.p.f.op), s.mode.p.optype) {
        TakeBufsOk(m, s, Rebased(s.mode.p, i.p.f), i.p.f);
      }
    }
  }

  lemma {:induction false} RunBufsOk(m: Sizes, capacity: nat, sent: Requests, run: seq<Config>, inputs: seq<Input>,
      k: nat)
    requires IsRun(m, capacity, sent, run, inputs) && k < |run|
    ensures BufsOk(run[k].s)
  {
    if k > 0 {
      RunBufsOk(m, capacity, sent, run, inputs, k - 1);
      assert StepAt(m, capacity, sent, run, inputs, k - 1);
      StartSafe(m, sent);
      RunSafe(m, capacity, sent, Start(), run, inputs, k - 1);
      GetsReady(m, sent, run[k - 1], inputs[k - 1]);
      StepBufsOk(m, capacity, run[k - 1].s, inputs[k - 1]);
    }
  }

  // ---------------------------------------------------------------- fragments of any kind

  /** A header has the length of its type, whoever sent the fragment. */
  predicate Parsed(m: Sizes, i: Input) { i.Arrive? && i.p.Large? ==> |i.p.f.hdr| == HdrSize(m, i.p.f.op) }

  /** More bytes than a fragment may have; or, where a packet starts, no place among the fragments announced. */
  predicate Malformed(m: Sizes, s: Server, f: Frag) {
    || |f.part| > BodySize(m, f.op)
    || (if s.mode.First? then f.num <= f.idx else Find(s.q, f.client) == |s.q| && f.num == 0)
  }

  /** What ends the server if fragments may be anything. */
  predicate EndsAny(m: Sizes, capacity: nat, s: Server, i: Input, why: Why) {
    match i
    case Arrive(Large(f)) =>
      var own := s.mode.Pursuing? && f.client == s.mode.p.client;
      if f.op.GetRes? then why == NotForServer
      else if !own && Malformed(m, s, f) then why == BadFragment
      else if Clashes(m, s, i) then why == BadFragment
      else if Overfull(capacity, s, i) then why == Overflow
      else why == TooBig && TooLong(m, s, i)
    case _ =>
      if Overfull(capacity, s, i) then why == Overflow else why == TooBig && TooLong(m, s, i)
  }

  lemma TakeEndsIff(m: Sizes, s: Server, p: Slot, f: Frag, why: Why)
    requires p.optype.LargeType? && SameType(p.optype, LargeType(f.op)) && !s.mode.Stopped?
    ensures Take(m, s, p, f).mode == Stopped(why) <==>
      if p.max <= f.idx then why == BadFragment
      else why == TooBig && Off(m, f) + |f.part| > MAX_LARGE_BUFSIZE
  {
  }

  lemma ParkEndsIff(m: Sizes, s: Server, f: Frag, capacity: nat, why: Why)
    requires s.mode.Pursuing? && |f.hdr| == HdrSize(m, f.op)
    ensures Park(m, s, f, capacity).mode == Stopped(why) <==>
      if Malformed(m, s, f) then why == BadFragment
      else if Find(s.q, f.client) < |s.q| then why == BadFragment && Contradicts(m, s.q[Find(s.q, f.client)], f)
      else if |s.q| == capacity - 1 then why == Overflow
      else why == TooBig && Off(m, f) + |f.part| > MAX_LARGE_BUFSIZE
  {
  }

  /** For every packet, whoever sent it. */
  lemma EndsAnyIff(m: Sizes, capacity: nat, s: Server, i: Input, why: Why)
    requires Waiting(m, s, i) && Parsed(m, i) && BufsOk(s)
    ensures Step(m, capacity, s, i).mode == Stopped(why) <==> EndsAny(m, capacity, s, i, why)
  {
    if i.Arrive? && i.p.Large? && !i.p.f.op.GetRes? {
      var f := i.p.f;
      if s.mode.First? {
        TakeEndsIff(m, s, Slot(LargeType(f.op), f.key, f.hdr, 0, f.num, f.client, f.fragseq), f, why);
      } else if f.client != s.mode.p.client {
        ParkEndsIff(m, s, f, capacity, why);
      } else if SameType(LargeType(f.op), s.mode.p.optype) {
        TakeEndsIff(m, s, Rebased(s.mode.p, f), f, why);
      }
    }
  }

  lemma StepEndsIff(m: Sizes, capacity: nat, s: Server, i: Input, why: Why)
    requires Ready(m, s, i) && BufsOk(s)
    ensures Step(m, capacity, s, i).mode == Stopped(why) <==> Ends(m, capacity, s, i, why)
  {
    EndsAnyIff(m, capacity, s, i, why);
  }

  /** Of all runs of small packets and genuine fragments, those in which the server ends are exactly those whose last
      input finds the ring full, is too long, or is a fragment that clashes with its client's packet. */
  lemma EndsIff(m: Sizes, capacity: nat, sent: Requests, run: seq<Config>, inputs: seq<Input>, why: Why)
    requires IsRun(m, capacity, sent, run, inputs)
    ensures run[|inputs|].s.mode == Stopped(why) <==>
      inputs != [] && Ends(m, capacity, run[|inputs| - 1].s, inputs[|inputs| - 1], why)
  {
    if inputs != [] {
      var k := |inputs| - 1;
      assert StepAt(m, capacity, sent, run, inputs, k);
      StartSafe(m, sent);
      RunSafe(m, capacity, sent, Start(), run, inputs, k);
      RunBufsOk(m, capacity, sent, run, inputs, k);
      GetsReady(m, sent, run[k], inputs[k]);
      StepEndsIff(m, capacity, run[k].s, inputs[k], why);
    }
  }

  /** A late fragment of an older transmission, or of another key: while the client's packet is parked it ends the
      server, while the same packet is pursued it changes nothing. */
  lemma TwoFates(m: Sizes, capacity: nat, sent: Requests, c: Config, f: Frag, r: Slot)
    requires Inv(m, sent, c.arrived, c.s) && MayFeed(m, sent, c, Arrive(Large(f)))
    requires Parked(c.s, f.client, r) || Pursued(c.s, f.client, r)
    requires f.fragseq < r.fragseq || f.key != r.key
    ensures var s' := Step(m, capacity, c.s, Arrive(Large(f)));
      if Parked(c.s, f.client, r) then s'.mode == Stopped(BadFragment) else s' == c.s
  {
    if Parked(c.s, f.client, r) { GenuineSmall(m, sent, f); }
  }

  // ---------------------------------------------------------------- a fitting transmission

  /** How far a fragment reaches. */
  lemma OwnReaches(m: Sizes, sent: Requests, x: Sending, f: Frag)
    requires Genuine(m, sent, f) && f.client == x.client && f.fragseq == x.fragseq
    requires x.ty.LargeType? && SameType(x.ty, LargeType(f.op)) && Size(m, sent, x) <= MAX_LARGE_BUFSIZE
    ensures f.idx < f.num == Count(sent, x.client, x.fragseq) && |f.part| <= BodySize(m, f.op)
    ensures Off(m, f) + |f.part| <= MAX_LARGE_BUFSIZE && |f.hdr| <= MAX_LARGE_BUFSIZE
  {
    GenuineSmall(m, sent, f);
    Reaches(m, sent, Slot(x.ty, f.key, [], 0, 0, f.client, f.fragseq), f);
  }

  /** A packet of its client that it fits takes its fragment. */
  lemma TakenGladly(m: Sizes, capacity: nat, sent: Requests, c: Config, f: Frag, x: Sending, k: nat, r: Slot)
    requires Inv(m, sent, c.arrived, c.s) && MayFeed(m, sent, c, Arrive(Large(f)))
    requires f.client == x.client && f.fragseq == x.fragseq && SameType(x.ty, LargeType(f.op)) && x.ty.LargeType?
    requires CanTake(m, sent, x, r, k) && (Parked(c.s, x.client, r) || Pursued(c.s, x.client, r))
    requires Size(m, sent, x) <= MAX_LARGE_BUFSIZE
    ensures !Step(m, capacity, c.s, Arrive(Large(f))).mode.Stopped?
  {
    OwnReaches(m, sent, x, f);
    if Pursued(c.s, x.client, r) { Reaches(m, sent, r, f); }
  }

  /** With no packet of its client there, only a full ring is in the way. */
  lemma WelcomeNew(m: Sizes, capacity: nat, sent: Requests, c: Config, f: Frag, x: Sending)
    requires Inv(m, sent, c.arrived, c.s) && MayFeed(m, sent, c, Arrive(Large(f))) && Nowhere(c.s, x.client)
    requires f.client == x.client && f.fragseq == x.fragseq && SameType(x.ty, LargeType(f.op)) && x.ty.LargeType?
    requires Size(m, sent, x) <= MAX_LARGE_BUFSIZE
    ensures var s' := Step(m, capacity, c.s, Arrive(Large(f)));
      s'.mode.Stopped? ==> s'.mode == Stopped(Overflow) && c.s.mode.Pursuing? && |c.s.q| == capacity - 1
  {
    OwnReaches(m, sent, x, f);
    if c.s.mode.First? {
      Reaches(m, sent, Slot(LargeType(f.op), f.key, f.hdr, 0, f.num, f.client, f.fragseq), f);
    }
  }

  /** The fragments of a request that fits the earlier packet of its client, if there is one, never end the server, in
      whatever order and among whatever else they arrive; unless the first of them finds the ring full. */
  lemma OwnNeverEnds(m: Sizes, capacity: nat, sent: Requests, c: Config, run: seq<Config>, inputs: seq<Input>,
      x: Sending, p: Slot)
    requires Safe(m, sent, c) && IsRunFrom(m, capacity, sent, c, run, inputs) && Undisturbed(x, inputs)
    requires || Nowhere(c.s, x.client)
             || (Earlier(sent, x, p) && Fitting(m, sent, x, p) &&
                 (Parked(c.s, x.client, p) || Pursued(c.s, x.client, p)))
    requires x.ty.LargeType? && CameOf(c, x) == 0 < Count(sent, x.client, x.fragseq)
    requires Size(m, sent, x) <= MAX_LARGE_BUFSIZE
    requires inputs != [] && Own(inputs[|inputs| - 1], x.client)
    ensures var s, s' := run[|inputs| - 1].s, run[|inputs|].s;
      s'.mode.Stopped? ==>
        s'.mode == Stopped(Overflow) && s.mode.Pursuing? && |s.q| == capacity - 1 && CameOf(run[|inputs| - 1], x) == 0
  {
    var k := |inputs| - 1;
    var f := inputs[k].p.f;
    RunFollows(m, capacity, sent, c, run, inputs, x, p, k);
    RunSafe(m, capacity, sent, c, run, inputs, k);
    RunLeads(m, capacity, sent, c, run, inputs, x, k + 1);
    assert StepAt(m, capacity, sent, run, inputs, k) && inputs[k] == Arrive(Large(f)) && Joining(x, inputs[k]);
    OwnStep(m, capacity, sent, run[k], f, x, p, CameOf(run[k], x));
  }

  lemma OwnStep(m: Sizes, capacity: nat, sent: Requests, c: Config, f: Frag, x: Sending, p: Slot, k: nat)
    requires Inv(m, sent, c.arrived, c.s) && MayFeed(m, sent, c, Arrive(Large(f)))
    requires f.client == x.client && f.fragseq == x.fragseq && SameType(x.ty, LargeType(f.op)) && x.ty.LargeType?
    requires Following(m, sent, x, p, c.s, k) && k < Count(sent, x.client, x.fragseq)
    requires Size(m, sent, x) <= MAX_LARGE_BUFSIZE
    ensures var s' := Step(m, capacity, c.s, Arrive(Large(f)));
      s'.mode.Stopped? ==> s'.mode == Stopped(Overflow) && c.s.mode.Pursuing? && |c.s.q| == capacity - 1 && k == 0
  {
    if k == 0 && Nowhere(c.s, x.client) {
      WelcomeNew(m, capacity, sent, c, f, x);
    } else {
      var r :| CanTake(m, sent, x, r, k) && (Parked(c.s, x.client, r) || Pursued(c.s, x.client, r));
      TakenGladly(m, capacity, sent, c, f, x, k, r);
    }
  }
}
