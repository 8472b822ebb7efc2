/** When a client starts again under a larger fragment sequence number while an earlier packet of its own is under
    way (common/socket_helper.c:745-787, 803-829; common/pkt_ring_buffer.c:110-149): exactly when the later
    transmission comes out whole. */
module ReceiveRepeats {
  import opened Common
  import opened Assembly
  import opened DynamicArrays
  import opened Fragments
  import opened PktRingBuffers
  import opened ReceiveCounts
  import opened ReceiveDelivery
  import opened ReceiveMachine
  import opened ReceiveSafety

  /** The size of a packet that holds `x` and nothing else. */
  ghost function Size(m: Sizes, sent: Requests, x: Sending): nat
    requires x.ty.LargeType?
  {
    HdrSize(m, x.ty.op) + |sent(x.client, x.fragseq).value|
  }

  // ---------------------------------------------------------------- overtaking in the queue

  /** What the parked packet `p` has become after `k` fragments of `x`. */
  ghost predicate Became(m: Sizes, sent: Requests, x: Sending, p: Slot, r: Slot, k: nat) {
    if k == 0 then r == p else
      && x.ty.LargeType? && r.client == x.client && r.fragseq == x.fragseq && r.cur == k && r.max == p.max
      && r.key == sent(x.client, x.fragseq).key && SameType(x.ty, r.optype)
      && |r.buf| >= |p.buf| && (|p.buf| <= Size(m, sent, x) ==> |r.buf| <= Size(m, sent, x))
  }

  lemma UpdatedBecomes(m: Sizes, sent: Requests, arrived: Arrived, x: Sending, p: Slot, r: Slot, k: nat, f: Frag)
    requires PartOk(m, sent, arrived, r) && Expected(m, sent, arrived, f) && Earlier(sent, x, p) &&
      Became(m, sent, x, p, r, k)
    requires f.client == x.client && f.fragseq == x.fragseq && SameType(x.ty, LargeType(f.op))
    ensures Became(m, sent, x, p, UpdatedBy(m, r, f), k + 1)
  {
    UpdatedIs(m, sent, arrived, r, f);
    HasHeader(m, sent, arrived, r);
    Reaches(m, sent, r, f);
    WrittenSize(r.buf, Off(m, f), f.part, f.hdr, r.fragseq < f.fragseq || f.idx == 0);
    WrittenSize(r.buf, Off(m, f), f.part, f.hdr, true);
    WrittenSize(r.buf, Off(m, f), f.part, f.hdr, false);
  }

  ghost predicate InQueue(s: Server, c: int) { !s.mode.Stopped? && Find(s.q, c) < |s.q| }

  ghost function Slotted(s: Server, c: int): Slot
    requires InQueue(s, c)
  {
    s.q[Find(s.q, c)]
  }

  ghost predicate Queued(m: Sizes, sent: Requests, x: Sending, p: Slot, c: Config) {
    match c
    case Config(s, _, _) => InQueue(s, x.client) && Became(m, sent, x, p, Slotted(s, x.client), CameOf(c, x))
  }

  lemma StepBecomes(m: Sizes, capacity: nat, sent: Requests, c: Config, i: Input, c': Config, x: Sending, p: Slot)
    requires Leads(m, capacity, sent, c, i, c', x) && Earlier(sent, x, p) && Queued(m, sent, x, p, c) &&
      InQueue(c'.s, x.client)
    ensures Queued(m, sent, x, p, c')
  {
    var r := Slotted(c.s, x.client);
    UnderWay(m, sent, c.arrived, c.s, x.client, r);
    if Own(i, x.client) {
      var f := i.p.f;
      assert i == Arrive(Large(f));
      OwnParked(m, capacity, sent, c, f, r);
      UpdatedBecomes(m, sent, c.arrived, x, p, r, CameOf(c, x), f);
    } else {
      OtherParked(m, capacity, sent, c, i, x.client, r);
      FeedKeeps(m, capacity, sent, c, i);
    }
  }

  ghost predicate QueuedAt(run: seq<Config>, c: int, k: int) { 0 <= k < |run| && InQueue(run[k].s, c) }

  ghost predicate StaysQueued(run: seq<Config>, c: int) { forall k :: 0 <= k < |run| ==> QueuedAt(run, c, k) }

  lemma {:induction false} RunBecomes(m: Sizes, capacity: nat, sent: Requests, c: Config, run: seq<Config>,
      inputs: seq<Input>, x: Sending, p: Slot, k: nat)
    requires Safe(m, sent, c) && IsRunFrom(m, capacity, sent, c, run, inputs) && Undisturbed(x, inputs) && k < |run|
    requires StaysQueued(run, x.client) && Parked(c.s, x.client, p) && Earlier(sent, x, p)
    requires CameOf(c, x) == 0 <= Count(sent, x.client, x.fragseq)
    ensures Queued(m, sent, x, p, run[k])
  {
    assert QueuedAt(run, x.client, k);
    if k > 0 {
      RunBecomes(m, capacity, sent, c, run, inputs, x, p, k - 1);
      RunLeads(m, capacity, sent, c, run, inputs, x, k);
      StepBecomes(m, capacity, sent, run[k - 1], inputs[k - 1], run[k], x, p);
    }
  }

  /** A packet that has taken all fragments of `x`. */
  lemma WholeIff(m: Sizes, sent: Requests, arrived: Arrived, x: Sending, p: Slot, r: Slot, n: nat)
    requires PartOk(m, sent, arrived, r) && Became(m, sent, x, p, r, n) && n == Count(sent, x.client, x.fragseq) > 0
    ensures IsWhole(sent, arrived, x, r) <==> n >= p.max && |p.buf| <= Size(m, sent, x)
  {
    assert HdrSize(m, r.optype.op) == HdrSize(m, x.ty.op);
    if n >= p.max && |p.buf| <= Size(m, sent, x) { Completes(m, sent, arrived, r); }
    var got :| Holds(m, sent, arrived, r, got);
    WholeBody(r.buf, HdrSize(m, r.optype.op), sent(r.client, r.fragseq).value, sent(r.client, r.fragseq).cuts, got);
  }

  /** A packet waits in the queue while all fragments of a later transmission of its client arrive, in any order and
      among any other packets, calls and timeouts: what the queue then holds is the later transmission, whole and
      ready to be returned, if and only if that has at least as many fragments as the earlier one, and is no
      shorter than what the earlier one had brought. */
  lemma ParkedIff(m: Sizes, capacity: nat, sent: Requests, c: Config, run: seq<Config>, inputs: seq<Input>, x: Sending,
      p: Slot)
    requires Safe(m, sent, c) && IsRunFrom(m, capacity, sent, c, run, inputs) && Undisturbed(x, inputs)
    requires StaysQueued(run, x.client) && Parked(c.s, x.client, p) && Earlier(sent, x, p) && x.ty.LargeType?
    requires CameOf(c, x) == 0 < Count(sent, x.client, x.fragseq) == CameOf(run[|run| - 1], x)
    ensures InQueue(run[|run| - 1].s, x.client)
    ensures IsWhole(sent, run[|run| - 1].arrived, x, Slotted(run[|run| - 1].s, x.client)) <==>
      Count(sent, x.client, x.fragseq) >= p.max && |p.buf| <= Size(m, sent, x)
  {
    var last := run[|run| - 1];
    assert QueuedAt(run, x.client, |run| - 1);
    RunBecomes(m, capacity, sent, c, run, inputs, x, p, |run| - 1);
    RunSafe(m, capacity, sent, c, run, inputs, |run| - 1);
    var r := Slotted(last.s, x.client);
    UnderWay(m, sent, last.arrived, last.s, x.client, r);
    WholeIff(m, sent, last.arrived, x, p, r, CameOf(last, x));
  }

  // ---------------------------------------------------------------- overtaking the packet pursued

  /** Nothing of `x` has been returned but the whole, and once all its fragments have arrived it has been returned
      or waits whole for the next call. */
  ghost predicate Good(sent: Requests, c: Config, x: Sending) {
    && (forall j :: 0 <= j < |c.s.out| && OfSending(c.s.out[j], x) ==> Whole(sent, c.arrived, c.s.out[j]))
    && (CameOf(c, x) == Count(sent, x.client, x.fragseq) ==> Delivered(sent, c, x))
  }

  ghost predicate OfSending(r: Slot, x: Sending) { r.max != 0 && r.client == x.client && r.fragseq == x.fragseq }

  /** Any arrival of the fragments of `x`, among any other packets, calls and timeouts. */
  ghost predicate Pattern(m: Sizes, capacity: nat, sent: Requests, c: Config, run: seq<Config>, inputs: seq<Input>,
      x: Sending)
  {
    && IsRunFrom(m, capacity, sent, c, run, inputs) && Undisturbed(x, inputs) && !run[|run| - 1].s.mode.Stopped?
  }

  /** What is counted elsewhere has not been returned. */
  lemma NoneOut(m: Sizes, sent: Requests, c: Config, x: Sending, j: nat)
    requires Inv(m, sent, c.arrived, c.s) && Balanced(sent, c.arrived, c.s) && j < |c.s.out| && OfSending(c.s.out[j], x)
    ensures Counted(c.s.q, x.client, x.fragseq) + (if c.s.mode.Pursuing? then Mine(c.s.mode.p, x.client, x.fragseq)
      else 0) < CameOf(c, x)
  {
    CountedOne(c.s.out, j, x.client, x.fragseq);
    assert PartOk(m, sent, c.arrived, c.s.out[j]);
    assert Weight(c.s, x.client, x.fragseq) <= CameOf(c, x);
  }

  lemma StillHeld(m: Sizes, sent: Requests, c: Config, x: Sending, r: Slot, j: nat)
    requires Inv(m, sent, c.arrived, c.s) && Balanced(sent, c.arrived, c.s) && j < |c.s.out|
    requires Carries(m, sent, x, r, CameOf(c, x)) && (Parked(c.s, x.client, r) || Pursued(c.s, x.client, r))
    ensures !OfSending(c.s.out[j], x)
  {
    if Parked(c.s, x.client, r) { CountedOne(c.s.q, Find(c.s.q, x.client), x.client, x.fragseq); }
    if OfSending(c.s.out[j], x) { NoneOut(m, sent, c, x, j); }
  }

  lemma HasLeft(m: Sizes, sent: Requests, c: Config, x: Sending, i: int, j: nat)
    requires Inv(m, sent, c.arrived, c.s) && Balanced(sent, c.arrived, c.s) && j < |c.s.out| && OfSending(c.s.out[j], x)
    requires CameOf(c, x) == Count(sent, x.client, x.fragseq) && Out(m, sent, x, c.s.out, i, CameOf(c, x))
    ensures Whole(sent, c.arrived, c.s.out[j])
  {
    if i != j { OnlyOne(m, sent, c.arrived, c.s, i, j); }
    assert PartOk(m, sent, c.arrived, c.s.out[j]);
    CarriesAll(m, sent, c.arrived, x, c.s.out[j]);
  }

  lemma FollowedGood(m: Sizes, sent: Requests, c: Config, x: Sending, p: Slot)
    requires Inv(m, sent, c.arrived, c.s) && Balanced(sent, c.arrived, c.s) && Count(sent, x.client, x.fragseq) > 0
    requires !c.s.mode.Stopped? && Following(m, sent, x, p, c.s, CameOf(c, x))
    ensures Good(sent, c, x)
  {
    var s, k := c.s, CameOf(c, x);
    forall j | 0 <= j < |s.out| && OfSending(s.out[j], x) ensures Whole(sent, c.arrived, s.out[j]) {
      if k == 0 {
        NoneOut(m, sent, c, x, j);
      } else if r :| Carries(m, sent, x, r, k) && (Parked(s, x.client, r) || Pursued(s, x.client, r)) {
        StillHeld(m, sent, c, x, r, j);
      } else {
        var i :| Out(m, sent, x, s.out, i, k);
        HasLeft(m, sent, c, x, i, j);
      }
    }
    if k == Count(sent, x.client, x.fragseq) { FollowedHome(m, sent, c, x, p); }
  }

  lemma FittingGood(m: Sizes, capacity: nat, sent: Requests, c: Config, run: seq<Config>, inputs: seq<Input>,
      x: Sending, p: Slot)
    requires Safe(m, sent, c) && Pattern(m, capacity, sent, c, run, inputs, x) &&
      CameOf(c, x) == 0 < Count(sent, x.client, x.fragseq)
    requires Pursued(c.s, x.client, p) && Earlier(sent, x, p) && Fitting(m, sent, x, p)
    ensures Good(sent, run[|run| - 1], x)
  {
    RunFollows(m, capacity, sent, c, run, inputs, x, p, |run| - 1);
    RunSafe(m, capacity, sent, c, run, inputs, |run| - 1);
    FollowedGood(m, sent, run[|run| - 1], x, p);
  }

  // ---------------------------------------------------------------- in order and without interruption

  function Blank(n: nat): (b: Bytes)
    ensures |b| == n
  {
    seq(n, _ => 0)
  }

  ghost function PlainFrag(m: Sizes, sent: Requests, x: Sending, i: nat): Frag
    requires WellSent(m, sent, x) && i < Count(sent, x.client, x.fragseq)
  {
    var r := sent(x.client, x.fragseq);
    assert CutOk(r.cuts, i, |r.value|);
    Frag(x.ty.op, r.key, x.client, x.fragseq, Blank(HdrSize(m, x.ty.op)), i, |r.cuts| - 1, Part(r.value, r.cuts, i))
  }

  lemma PlainGenuine(m: Sizes, sent: Requests, x: Sending, i: nat)
    requires WellSent(m, sent, x) && i < Count(sent, x.client, x.fragseq)
    ensures Genuine(m, sent, PlainFrag(m, sent, x, i))
  {
    var r := sent(x.client, x.fragseq);
    assert CutOk(r.cuts, i, |r.value|);
  }

  /** The first `k` fragments of `x` arrive in order and without interruption. */
  ghost function Straight(m: Sizes, capacity: nat, sent: Requests, x: Sending, c: Config, k: nat): Config
    requires WellSent(m, sent, x) && k <= Count(sent, x.client, x.fragseq)
  {
    if k == 0 then c
        else Feed(m, capacity, Straight(m, capacity, sent, x, c, k - 1), Arrive(Large(PlainFrag(m, sent, x, k - 1))))
  }

  /** Then they are all counted, and the packet is returned when the earlier count is reached. */
  ghost predicate Onward(m: Sizes, x: Sending, p: Slot, c: Config, t: Config, k: nat) {
    match t
    case Config(s, arrived, _) =>
      && s.q == c.s.q && FirstOnes(arrived, x, k) && (k > 0 ==> HdrIn(m, arrived, x))
      && if k < p.max then
           && s.out == c.s.out && s.mode.Pursuing? && Onto(x, p, s.mode.p, k)
         else
           s.mode.Between? && |s.out| == |c.s.out| + 1 && s.out[..|c.s.out|] == c.s.out &&
               Onto(x, p, s.out[|c.s.out|], k)
  }

  /** The fragments of `x` that have arrived are the first `k`. */
  ghost predicate FirstOnes(arrived: Arrived, x: Sending, k: nat) {
    forall i: nat :: (x.client, x.fragseq, i) in arrived <==> i < k
  }

  /** Fragment 0 came with a header of the right size. */
  ghost predicate HdrIn(m: Sizes, arrived: Arrived, x: Sending) {
    x.ty.LargeType? && (x.client, x.fragseq, 0) in arrived && |arrived[(x.client, x.fragseq, 0)]| == HdrSize(m, x.ty.op)
  }

  ghost predicate Onto(x: Sending, p: Slot, r: Slot, k: nat) {
    && r.client == x.client && r.max == p.max && r.key == p.key && r.optype == p.optype && |r.buf| >= |p.buf|
    && if k == 0 then r == p else r.fragseq == x.fragseq && r.cur == k
  }

  lemma OnwardArrived(m: Sizes, sent: Requests, x: Sending, arrived: Arrived, k: nat)
    requires WellSent(m, sent, x) && k < Count(sent, x.client, x.fragseq) && FirstOnes(arrived, x, k) &&
      (k > 0 ==> HdrIn(m, arrived, x))
    ensures var f := PlainFrag(m, sent, x, k); var arrived' := arrived[Id(f) := f.hdr];
      FirstOnes(arrived', x, k + 1) && HdrIn(m, arrived', x)
  {
  }

  /** The slot a fragment goes to: the packet pursued, begun anew by fragment 0. */
  lemma OnwardTaken(m: Sizes, capacity: nat, sent: Requests, x: Sending, p: Slot, c: Config, t: Config, k: nat)
      returns (r: Slot)
    requires WellSent(m, sent, x) && Earlier(sent, x, p) && Onward(m, x, p, c, t, k) && k < p.max &&
      k < Count(sent, x.client, x.fragseq)
    ensures var f := PlainFrag(m, sent, x, k);
      && r.optype.LargeType? && Step(m, capacity, t.s, Arrive(Large(f))) == Take(m, t.s, r, f)
      && r.client == x.client && r.fragseq == x.fragseq && r.max == p.max && r.key == p.key && r.optype == p.optype
      && r.cur == k && |r.buf| >= |p.buf|
  {
    PlainGenuine(m, sent, x, k);
    r := Rebased(t.s.mode.p, PlainFrag(m, sent, x, k));
  }

  lemma OnwardNext(m: Sizes, capacity: nat, sent: Requests, x: Sending, p: Slot, c: Config, t: Config, k: nat)
    requires WellSent(m, sent, x) && Earlier(sent, x, p) && Onward(m, x, p, c, t, k) && k < p.max &&
      k < Count(sent, x.client, x.fragseq)
    requires Size(m, sent, x) <= MAX_LARGE_BUFSIZE && HdrSize(m, x.ty.op) <= |p.buf|
    ensures Onward(m, x, p, c, Feed(m, capacity, t, Arrive(Large(PlainFrag(m, sent, x, k)))), k + 1)
  {
    var f := PlainFrag(m, sent, x, k);
    PlainGenuine(m, sent, x, k);
    var r := OnwardTaken(m, capacity, sent, x, p, c, t, k);
    Reaches(m, sent, r, f);
    WrittenSize(r.buf, Off(m, f), f.part, f.hdr, k == 0);
    OnwardArrived(m, sent, x, t.arrived, k);
  }

  lemma {:induction false} StraightOnward(m: Sizes, capacity: nat, sent: Requests, x: Sending, p: Slot, c: Config,
      k: nat)
    requires WellSent(m, sent, x) && Earlier(sent, x, p) && Pursued(c.s, x.client, p) && k <= p.max &&
      k <= Count(sent, x.client, x.fragseq)
    requires Size(m, sent, x) <= MAX_LARGE_BUFSIZE && HdrSize(m, x.ty.op) <= |p.buf|
    requires FirstOnes(c.arrived, x, 0)
    ensures Onward(m, x, p, c, Straight(m, capacity, sent, x, c, k), k)
  {
    if k > 0 {
      StraightOnward(m, capacity, sent, x, p, c, k - 1);
      OnwardNext(m, capacity, sent, x, p, c, Straight(m, capacity, sent, x, c, k - 1), k - 1);
    }
  }

  /** It is a pattern. */
  lemma StraightPattern(m: Sizes, capacity: nat, sent: Requests, x: Sending, p: Slot, c: Config, n: nat)
    returns (run: seq<Config>, inputs: seq<Input>)
    requires WellSent(m, sent, x) && Earlier(sent, x, p) && Pursued(c.s, x.client, p) && n <= p.max &&
      n <= Count(sent, x.client, x.fragseq)
    requires Size(m, sent, x) <= MAX_LARGE_BUFSIZE && HdrSize(m, x.ty.op) <= |p.buf|
    requires FirstOnes(c.arrived, x, 0)
    ensures Pattern(m, capacity, sent, c, run, inputs, x) && run[|run| - 1] == Straight(m, capacity, sent, x, c, n)
  {
    run := seq(n + 1, k requires 0 <= k <= n => Straight(m, capacity, sent, x, c, k));
    inputs := seq(n, k requires 0 <= k < n => Arrive(Large(PlainFrag(m, sent, x, k))));
    StraightSteps(m, capacity, sent, x, p, c, n, run, inputs);
    StraightOnward(m, capacity, sent, x, p, c, n);
    assert run[n] == Straight(m, capacity, sent, x, c, n);
  }

  lemma StraightSteps(m: Sizes, capacity: nat, sent: Requests, x: Sending, p: Slot, c: Config, n: nat, run: seq<Config>,
      inputs: seq<Input>)
    requires WellSent(m, sent, x) && Earlier(sent, x, p) && Pursued(c.s, x.client, p) && n <= p.max &&
      n <= Count(sent, x.client, x.fragseq)
    requires Size(m, sent, x) <= MAX_LARGE_BUFSIZE && HdrSize(m, x.ty.op) <= |p.buf| && FirstOnes(c.arrived, x, 0)
    requires |run| == n + 1 && forall k :: 0 <= k <= n ==> run[k] == Straight(m, capacity, sent, x, c, k)
    requires |inputs| == n && forall k :: 0 <= k < n ==> inputs[k] == Arrive(Large(PlainFrag(m, sent, x, k)))
    ensures IsRunFrom(m, capacity, sent, c, run, inputs) && Undisturbed(x, inputs)
  {
    forall k | 0 <= k < n ensures StepAt(m, capacity, sent, run, inputs, k) {
      StraightFeeds(m, capacity, sent, x, p, c, k);
      assert run[k + 1] == Straight(m, capacity, sent, x, c, k + 1);
    }
  }

  lemma StraightFeeds(m: Sizes, capacity: nat, sent: Requests, x: Sending, p: Slot, c: Config, k: nat)
    requires WellSent(m, sent, x) && Earlier(sent, x, p) && Pursued(c.s, x.client, p) && k < p.max &&
      k < Count(sent, x.client, x.fragseq)
    requires Size(m, sent, x) <= MAX_LARGE_BUFSIZE && HdrSize(m, x.ty.op) <= |p.buf| && FirstOnes(c.arrived, x, 0)
    ensures MayFeed(m, sent, Straight(m, capacity, sent, x, c, k), Arrive(Large(PlainFrag(m, sent, x, k))))
  {
    StraightOnward(m, capacity, sent, x, p, c, k);
    PlainGenuine(m, sent, x, k);
  }

  lemma CameStraight(x: Sending, c: Config, k: nat)
    requires FirstOnes(c.arrived, x, k)
    ensures CameOf(c, x) == k
  {
    var came := Came(c.arrived, x.client, x.fragseq);
    forall i: nat ensures i in came <==> i < k { assert (x.client, x.fragseq, i) in c.arrived <==> i < k; }
    UpTo(came, k);
  }

  lemma NoneCame(c: Config, x: Sending)
    requires CameOf(c, x) == 0
    ensures FirstOnes(c.arrived, x, 0)
  {
    forall i: nat ensures (x.client, x.fragseq, i) !in c.arrived {
      assert (x.client, x.fragseq, i) in c.arrived ==> i in Came(c.arrived, x.client, x.fragseq);
    }
  }

  lemma {:induction false} UpTo(s: set<nat>, k: nat)
    requires forall i: nat :: i in s <==> i < k
    ensures |s| == k
  {
    if k == 0 { assert s == {}; } else { UpTo(s - {k - 1}, k - 1); }
  }

  /** Where the packet pursued does not fit, the fragments in order and without interruption do harm. */
  lemma NotFittingBad(m: Sizes, capacity: nat, sent: Requests, c: Config, x: Sending, p: Slot)
    requires Safe(m, sent, c) && Pursued(c.s, x.client, p) && Earlier(sent, x, p) && WellSent(m, sent, x) &&
      CameOf(c, x) == 0
    requires Size(m, sent, x) <= MAX_LARGE_BUFSIZE && HdrSize(m, x.ty.op) <= |p.buf| && !Fitting(m, sent, x, p)
    requires FirstOnes(c.arrived, x, 0)
    ensures exists run, inputs :: Pattern(m, capacity, sent, c, run, inputs, x) && !Good(sent, run[|run| - 1], x)
  {
    var n := Count(sent, x.client, x.fragseq);
    var k := if n < p.max then n else p.max;
    var run, inputs := StraightPattern(m, capacity, sent, x, p, c, k);
    StraightOnward(m, capacity, sent, x, p, c, k);
    var t := Straight(m, capacity, sent, x, c, k);
    CameStraight(x, t, k);
    if n < p.max { NotDelivered(m, sent, c, x, p, t); } else { ReturnedBad(m, sent, c, x, p, t); }
  }

  /** With too few fragments the packet is pursued for ever. */
  lemma NotDelivered(m: Sizes, sent: Requests, c: Config, x: Sending, p: Slot, t: Config)
    requires Safe(m, sent, c) && Pursued(c.s, x.client, p) && CameOf(c, x) == 0
    requires 0 <= Count(sent, x.client, x.fragseq) < p.max && Onward(m, x, p, c, t, Count(sent, x.client, x.fragseq))
    ensures !Delivered(sent, t, x)
  {
    forall r | r in t.s.out || r in t.s.q ensures !IsWhole(sent, t.arrived, x, r) {
      if r in t.s.q {
        var j :| 0 <= j < |t.s.q| && t.s.q[j] == r;
        assert !IsOf(c.s.q[j], x.client);
      } else {
        var j :| 0 <= j < |c.s.out| && c.s.out[j] == r;
        if OfSending(r, x) { NoneOut(m, sent, c, x, j); }
      }
    }
  }

  /** With too many it is returned before all have come, and with too few bytes what is behind them stays. */
  lemma ReturnedBad(m: Sizes, sent: Requests, c: Config, x: Sending, p: Slot, t: Config)
    requires WellSent(m, sent, x) && Earlier(sent, x, p) && Onward(m, x, p, c, t, p.max) &&
      p.max <= Count(sent, x.client, x.fragseq)
    requires !Fitting(m, sent, x, p)
    ensures !Good(sent, t, x)
  {
    var r, n := t.s.out[|c.s.out|], Count(sent, x.client, x.fragseq);
    assert OfSending(r, x);
    if p.max < n { assert (x.client, x.fragseq, p.max) !in t.arrived; }
  }

  /** The server pursues a packet when its client starts again, under the same key and type. The later transmission
      comes out whole under every arrival of its fragments, among any other packets, calls and timeouts, if and
      only if it has as many fragments as the packet pursued and is no shorter than what that has brought. */
  lemma PursuedIff(m: Sizes, capacity: nat, sent: Requests, c: Config, x: Sending, p: Slot)
    requires Safe(m, sent, c) && Pursued(c.s, x.client, p) && Earlier(sent, x, p) && WellSent(m, sent, x) &&
      CameOf(c, x) == 0
    requires Size(m, sent, x) <= MAX_LARGE_BUFSIZE
    ensures (forall run, inputs :: Pattern(m, capacity, sent, c, run, inputs, x) ==> Good(sent, run[|run| - 1], x)) <==>
      Fitting(m, sent, x, p)
  {
    if Fitting(m, sent, x, p) {
      forall run, inputs | Pattern(m, capacity, sent, c, run, inputs, x) ensures Good(sent, run[|run| - 1], x) {
        FittingGood(m, capacity, sent, c, run, inputs, x, p);
      }
    } else {
      UnderWay(m, sent, c.arrived, c.s, x.client, p);
      HasHeader(m, sent, c.arrived, p);
      NoneCame(c, x);
      NotFittingBad(m, capacity, sent, c, x, p);
    }
  }
}
