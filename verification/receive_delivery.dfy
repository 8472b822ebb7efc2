/** What becomes of one large request among all other traffic: where its fragments go, and that it comes out whole
    (common/socket_helper.c:574-850, common/pkt_ring_buffer.c:110-149). */
module ReceiveDelivery {
  import opened Assembly
  import opened DynamicArrays
  import opened Fragments
  import opened PktRingBuffers
  import opened ReceiveCounts
  import opened ReceiveMachine
  import opened ReceiveSafety

  /** A transmission of a client, and the type under which its fragments arrive. */
  datatype Sending = Sending(client: int, fragseq: int, ty: PacketType)

  // ---------------------------------------------------------------- where the client's packet is

  ghost predicate Parked(s: Server, c: int, r: Slot) { Find(s.q, c) < |s.q| && s.q[Find(s.q, c)] == r }

  ghost predicate Pursued(s: Server, c: int, r: Slot) { s.mode == Pursuing(r) && r.client == c && r.max > 0 }

  ghost predicate Nowhere(s: Server, c: int) {
    Find(s.q, c) == |s.q| && (s.mode.Pursuing? ==> s.mode.p.client != c)
  }

  predicate Own(i: Input, c: int) { i.Arrive? && i.p.Large? && i.p.f.client == c }

  lemma OtherParked(m: Sizes, capacity: nat, sent: Requests, c0: Config, i: Input, c: int, r: Slot)
    requires Inv(m, sent, c0.arrived, c0.s) && MayFeed(m, sent, c0, i) && !Own(i, c) && Parked(c0.s, c, r)
    ensures var s' := Step(m, capacity, c0.s, i);
      || s'.mode.Stopped? || Parked(s', c, r) || (Pursued(s', c, r) && r.cur < r.max)
      || (r.cur >= r.max && s'.out == c0.s.out + [r] && Nowhere(s', c))
  {
    var s := c0.s;
    match i
    case Call => FindDrop(s.q, c);
    case Timeout => if s.mode.Pursuing? { ParkedAfterTimeout(m, capacity, sent, c0.arrived, s, c); }
    case Arrive(p) =>
      if p.Small? { FindAppend(s.q, SmallSlot(SmallType(p.code), p.key, p.bytes), c); }
      else if s.mode.Pursuing? && p.f.client != s.mode.p.client { OtherPark(m, capacity, s, p.f, c); }
  }

  /** A timeout puts the packet pursued, as it is, at the end of the queue. */
  lemma ParkedAfterTimeout(m: Sizes, capacity: nat, sent: Requests, arrived: Arrived, s: Server, c: int)
    requires Inv(m, sent, arrived, s) && s.mode.Pursuing?
    ensures var s' := OnTimeout(m, s, s.mode.p, capacity);
      s'.mode.Stopped? || (s'.mode.Between? && s'.q == s.q + [s.mode.p] && s'.out == s.out)
    ensures Find(s.q + [s.mode.p], c) == if Find(s.q, c) < |s.q| then Find(s.q, c) else if IsOf(s.mode.p, c) then |s.q|
      else |s.q| + 1
  {
    var p, h := s.mode.p, HdrSize(m, s.mode.p.optype.op);
    HasHeader(m, sent, arrived, p);
    assert Spliced(p.buf[..h], h, p.buf[h..]) == p.buf;
    FindAppend(s.q, p, c);
  }

  /** Parking another client's fragment. */
  lemma OtherPark(m: Sizes, capacity: nat, s: Server, f: Frag, c: int)
    requires f.client != c
    ensures var s' := Park(m, s, f, capacity);
      || s'.mode.Stopped?
      || (s'.mode == s.mode && s'.out == s.out
          && (Find(s'.q, c) < |s'.q| <==> Find(s.q, c) < |s.q|)
          && (Find(s.q, c) < |s.q| ==> s'.q[Find(s'.q, c)] == s.q[Find(s.q, c)]))
  {
    var j := Find(s.q, f.client);
    ParkGives(m, s, f, capacity);
    if j < |s.q| { FindReplace(s.q, j, UpdatedBy(m, s.q[j], f), c); }
    FindAppend(s.q, ParkedBy(m, f), c);
  }

  lemma OtherPursued(m: Sizes, capacity: nat, sent: Requests, c0: Config, i: Input, c: int, r: Slot)
    requires Inv(m, sent, c0.arrived, c0.s) && MayFeed(m, sent, c0, i) && !Own(i, c) && Pursued(c0.s, c, r)
    ensures var s' := Step(m, capacity, c0.s, i); s'.mode.Stopped? || Parked(s', c, r) || Pursued(s', c, r)
  {
    if i.Timeout? { ParkedAfterTimeout(m, capacity, sent, c0.arrived, c0.s, c); }
    else if i.p.Large? { OtherPark(m, capacity, c0.s, i.p.f, c); }
  }

  lemma OtherNowhere(m: Sizes, capacity: nat, sent: Requests, c0: Config, i: Input, c: int)
    requires Inv(m, sent, c0.arrived, c0.s) && MayFeed(m, sent, c0, i) && !Own(i, c) && Nowhere(c0.s, c)
    ensures var s' := Step(m, capacity, c0.s, i); s'.mode.Stopped? || Nowhere(s', c)
  {
    var s := c0.s;
    match i
    case Call => if s.q != [] { FindDrop(s.q, c); }
    case Timeout => if s.mode.Pursuing? { ParkedAfterTimeout(m, capacity, sent, c0.arrived, s, c); }
    case Arrive(p) =>
      if p.Small? { FindAppend(s.q, SmallSlot(SmallType(p.code), p.key, p.bytes), c); }
      else if s.mode.Pursuing? && p.f.client != s.mode.p.client { OtherPark(m, capacity, s, p.f, c); }
  }

  // ---------------------------------------------------------------- its own fragments

  lemma OwnParked(m: Sizes, capacity: nat, sent: Requests, c0: Config, f: Frag, r: Slot)
    requires Inv(m, sent, c0.arrived, c0.s) && MayFeed(m, sent, c0, Arrive(Large(f))) && Parked(c0.s, f.client, r)
    ensures var s' := Step(m, capacity, c0.s, Arrive(Large(f)));
      s'.mode.Stopped? || (Parked(s', f.client, UpdatedBy(m, r, f)) && s'.out == c0.s.out && r.fragseq <= f.fragseq)
  {
    var s, c := c0.s, f.client;
    if s.mode.Pursuing? && s.mode.p.client != c {
      ParkGives(m, s, f, capacity);
      FindReplace(s.q, Find(s.q, c), UpdatedBy(m, r, f), c);
    }
  }

  lemma OwnPursued(m: Sizes, capacity: nat, s: Server, f: Frag, r: Slot)
    requires Pursued(s, f.client, r) && r.optype.LargeType? && Find(s.q, f.client) == |s.q|
    requires !f.op.GetRes? && f.key == r.key && SameType(r.optype, LargeType(f.op)) && r.fragseq <= f.fragseq
    ensures var s', t := Step(m, capacity, s, Arrive(Large(f))), Taken(m, Rebased(r, f), f);
      || s'.mode.Stopped?
      || (if t.cur >= t.max then s'.out == s.out + [t] && Nowhere(s', f.client)
          else Pursued(s', f.client, t) && s'.out == s.out)
  {
  }

  lemma OwnNew(m: Sizes, capacity: nat, s: Server, f: Frag)
    requires Nowhere(s, f.client) && (s.mode.First? || (s.mode.Pursuing? && s.mode.p.optype.LargeType?)) && f.num > 0
    ensures var s' := Step(m, capacity, s, Arrive(Large(f)));
      var t := Taken(m, Slot(LargeType(f.op), f.key, f.hdr, 0, f.num, f.client, f.fragseq), f);
      || s'.mode.Stopped? || Parked(s', f.client, ParkedBy(m, f))
      || (if t.cur >= t.max then s'.out == s.out + [t] && Nowhere(s', f.client)
          else Pursued(s', f.client, t) && s'.out == s.out)
  {
    if s.mode.Pursuing? && !f.op.GetRes? {
      ParkGives(m, s, f, capacity);
      FindAppend(s.q, ParkedBy(m, f), f.client);
    }
  }

  // ---------------------------------------------------------------- following it

  /** The transmission `x` as the client cut it. */
  ghost predicate WellSent(m: Sizes, sent: Requests, x: Sending) {
    match sent(x.client, x.fragseq)
    case Request(op, key, value, cuts) =>
      && x.ty.LargeType? && !x.ty.op.GetRes? && SentAs(x.ty.op) == op
      && EvenCuts(cuts, |value|, BodySize(m, x.ty.op)) && 0 < |cuts| - 1 < WORD16
  }

  /** While `x` is under way the client sends nothing else. */
  ghost predicate Joining(x: Sending, i: Input) {
    Own(i, x.client) ==> i.p.f.fragseq == x.fragseq && SameType(x.ty, LargeType(i.p.f.op))
  }

  /** `p` is an earlier packet of the client under the same key and type. */
  ghost predicate Earlier(sent: Requests, x: Sending, p: Slot) {
    && p.client == x.client && p.max > 0 && p.fragseq < x.fragseq
    && p.key == sent(x.client, x.fragseq).key && SameType(x.ty, p.optype)
  }

  /** ... that has as many fragments, and no more bytes than `x`. */
  ghost predicate Fitting(m: Sizes, sent: Requests, x: Sending, p: Slot) {
    && x.ty.LargeType? && p.max == Count(sent, x.client, x.fragseq)
    && |p.buf| <= HdrSize(m, x.ty.op) + |sent(x.client, x.fragseq).value|
  }

  /** A packet that has taken `k` fragments of `x`. */
  ghost predicate Carries(m: Sizes, sent: Requests, x: Sending, r: Slot, k: nat) {
    && r.client == x.client && r.fragseq == x.fragseq && r.max > 0 && r.cur == k
    && r.key == sent(x.client, x.fragseq).key && SameType(x.ty, r.optype) && r.optype.LargeType? && Tight(m, sent, r)
  }

  /** After `k` fragments of `x`: with none, its client's packet is `p` or there is none; with some, they are all in
      one packet; with all of them, that may have been returned. */
  ghost predicate Following(m: Sizes, sent: Requests, x: Sending, p: Slot, s: Server, k: nat) {
    match s.mode
    case Stopped(_) => true
    case _ =>
      if k == 0 then
        Nowhere(s, x.client) ||
            (Earlier(sent, x, p) && Fitting(m, sent, x, p) && (Parked(s, x.client, p) || Pursued(s, x.client, p)))
      else
        || (exists r :: Carries(m, sent, x, r, k) && (Parked(s, x.client, r) || Pursued(s, x.client, r)))
        || (k == Count(sent, x.client, x.fragseq) && exists j :: Out(m, sent, x, s.out, j, k))
  }

  ghost predicate Out(m: Sizes, sent: Requests, x: Sending, out: seq<Slot>, j: int, k: nat) {
    0 <= j < |out| && Carries(m, sent, x, out[j], k)
  }

  /** Other traffic leaves it alone, or moves it between the queue and the server's hands. */
  lemma OtherFollows(m: Sizes, capacity: nat, sent: Requests, c0: Config, i: Input, x: Sending, p: Slot, k: nat)
    requires Inv(m, sent, c0.arrived, c0.s) && MayFeed(m, sent, c0, i) && !Own(i, x.client)
    requires Following(m, sent, x, p, c0.s, k) && k <= Count(sent, x.client, x.fragseq)
    ensures Following(m, sent, x, p, Step(m, capacity, c0.s, i), k)
  {
    var s, s', c := c0.s, Step(m, capacity, c0.s, i), x.client;
    if Nowhere(s, c) && k == 0 {
      OtherNowhere(m, capacity, sent, c0, i, c);
    } else if k == 0 {
      MovesOn(m, capacity, sent, c0, i, c, p);
    } else if r :| Carries(m, sent, x, r, k) && (Parked(s, c, r) || Pursued(s, c, r)) {
      MovesOn(m, capacity, sent, c0, i, c, r);
      if s'.out == s.out + [r] { assert Out(m, sent, x, s'.out, |s.out|, k); }
    } else {
      var j :| Out(m, sent, x, s.out, j, k);
      OutGrows(m, capacity, s, i);
      assert Out(m, sent, x, s'.out, j, k);
    }
  }

  lemma MovesOn(m: Sizes, capacity: nat, sent: Requests, c0: Config, i: Input, c: int, r: Slot)
    requires Inv(m, sent, c0.arrived, c0.s) && MayFeed(m, sent, c0, i) && !Own(i, c)
    requires Parked(c0.s, c, r) || Pursued(c0.s, c, r)
    ensures var s' := Step(m, capacity, c0.s, i);
      || s'.mode.Stopped? || Parked(s', c, r) || Pursued(s', c, r)
      || (r.cur >= r.max && s'.out == c0.s.out + [r] && Nowhere(s', c))
  {
    if Parked(c0.s, c, r) { OtherParked(m, capacity, sent, c0, i, c, r); }
    else { OtherPursued(m, capacity, sent, c0, i, c, r); }
  }

  /** What has been returned stays returned. */
  lemma OutGrows(m: Sizes, capacity: nat, s: Server, i: Input)
    ensures s.out <= Step(m, capacity, s, i).out
  {
  }

  // ---------------------------------------------------------------- a fragment of its own

  lemma NewCarries(m: Sizes, sent: Requests, arrived: Arrived, x: Sending, f: Frag)
    requires Expected(m, sent, arrived, f) && f.client == x.client && f.fragseq == x.fragseq &&
      SameType(x.ty, LargeType(f.op))
    ensures Carries(m, sent, x, Taken(m, Slot(LargeType(f.op), f.key, f.hdr, 0, f.num, f.client, f.fragseq), f), 1)
    ensures Carries(m, sent, x, ParkedBy(m, f), 1)
  {
    NewTight(m, sent, f);
  }

  /** Overtaking an earlier packet that fits, or going on with its own. */
  ghost predicate CanTake(m: Sizes, sent: Requests, x: Sending, r: Slot, k: nat) {
    if k == 0 then Earlier(sent, x, r) && Fitting(m, sent, x, r) else Carries(m, sent, x, r, k)
  }

  lemma NextCarries(m: Sizes, sent: Requests, arrived: Arrived, x: Sending, r: Slot, k: nat, f: Frag)
    requires PartOk(m, sent, arrived, r) && Expected(m, sent, arrived, f) && CanTake(m, sent, x, r, k)
    requires f.client == x.client && f.fragseq == x.fragseq && SameType(x.ty, LargeType(f.op))
    ensures Carries(m, sent, x, Taken(m, Rebased(r, f), f), k + 1) && Carries(m, sent, x, UpdatedBy(m, r, f), k + 1)
  {
    var got := Joins(m, sent, arrived, r, f);
    TakeGives(m, sent, arrived, Rebased(r, f), got, f);
    UpdatedIs(m, sent, arrived, r, f);
    HasHeader(m, sent, arrived, r);
    Reaches(m, sent, r, f);
    TakenTight(m, sent, r, f);
  }

  /** A fragment of `x` arrives. */
  lemma OwnFollows(m: Sizes, capacity: nat, sent: Requests, c0: Config, f: Frag, x: Sending, p: Slot, k: nat)
    requires Inv(m, sent, c0.arrived, c0.s) && MayFeed(m, sent, c0, Arrive(Large(f)))
    requires f.client == x.client && f.fragseq == x.fragseq && SameType(x.ty, LargeType(f.op))
    requires Following(m, sent, x, p, c0.s, k) && k < Count(sent, x.client, x.fragseq)
    ensures Following(m, sent, x, p, Step(m, capacity, c0.s, Arrive(Large(f))), k + 1)
  {
    var s, c := c0.s, x.client;
    if k == 0 && Nowhere(s, c) {
      NewFollows(m, capacity, sent, c0, f, x, p);
    } else {
      var r :| CanTake(m, sent, x, r, k) && (Parked(s, c, r) || Pursued(s, c, r));
      TakeFollows(m, capacity, sent, c0, f, x, p, k, r);
    }
  }

  lemma NewFollows(m: Sizes, capacity: nat, sent: Requests, c0: Config, f: Frag, x: Sending, p: Slot)
    requires Inv(m, sent, c0.arrived, c0.s) && MayFeed(m, sent, c0, Arrive(Large(f))) && Nowhere(c0.s, x.client)
    requires f.client == x.client && f.fragseq == x.fragseq && SameType(x.ty, LargeType(f.op))
    ensures Following(m, sent, x, p, Step(m, capacity, c0.s, Arrive(Large(f))), 1)
  {
    var s, s' := c0.s, Step(m, capacity, c0.s, Arrive(Large(f)));
    NewCarries(m, sent, c0.arrived, x, f);
    OwnNew(m, capacity, s, f);
    var t := Taken(m, Slot(LargeType(f.op), f.key, f.hdr, 0, f.num, f.client, f.fragseq), f);
    Landed(m, sent, x, p, s, s', 1, ParkedBy(m, f), t);
  }

  lemma TakeFollows(m: Sizes, capacity: nat, sent: Requests, c0: Config, f: Frag, x: Sending, p: Slot, k: nat, r: Slot)
    requires Inv(m, sent, c0.arrived, c0.s) && MayFeed(m, sent, c0, Arrive(Large(f))) &&
      k < Count(sent, x.client, x.fragseq)
    requires f.client == x.client && f.fragseq == x.fragseq && SameType(x.ty, LargeType(f.op))
    requires CanTake(m, sent, x, r, k) && (Parked(c0.s, x.client, r) || Pursued(c0.s, x.client, r))
    ensures Following(m, sent, x, p, Step(m, capacity, c0.s, Arrive(Large(f))), k + 1)
  {
    var s, s' := c0.s, Step(m, capacity, c0.s, Arrive(Large(f)));
    UnderWay(m, sent, c0.arrived, s, x.client, r);
    NextCarries(m, sent, c0.arrived, x, r, k, f);
    if Parked(s, x.client, r) {
      OwnParked(m, capacity, sent, c0, f, r);
    } else {
      TakesOwn(m, capacity, sent, c0, f, x, k, r);
    }
    Landed(m, sent, x, p, s, s', k + 1, UpdatedBy(m, r, f), Taken(m, Rebased(r, f), f));
  }

  lemma UnderWay(m: Sizes, sent: Requests, arrived: Arrived, s: Server, c: int, r: Slot)
    requires Inv(m, sent, arrived, s) && (Parked(s, c, r) || Pursued(s, c, r))
    ensures PartOk(m, sent, arrived, r) && IsOf(r, c) && (Pursued(s, c, r) ==> Find(s.q, c) == |s.q| && r.cur < r.max)
  {
  }

  lemma TakesOwn(m: Sizes, capacity: nat, sent: Requests, c0: Config, f: Frag, x: Sending, k: nat, r: Slot)
    requires PartOk(m, sent, c0.arrived, r) && Expected(m, sent, c0.arrived, f) && Find(c0.s.q, x.client) == |c0.s.q|
    requires f.client == x.client && f.fragseq == x.fragseq && SameType(x.ty, LargeType(f.op))
    requires CanTake(m, sent, x, r, k) && Pursued(c0.s, x.client, r)
    ensures var s', t := Step(m, capacity, c0.s, Arrive(Large(f))), Taken(m, Rebased(r, f), f);
      || s'.mode.Stopped?
      || (if t.cur >= t.max then s'.out == c0.s.out + [t] && Nowhere(s', x.client) else Pursued(s', x.client, t))
  {
    OwnPursued(m, capacity, c0.s, f, r);
  }

  /** In the queue as `r`, or in the server's hands or out as `t`. */
  lemma Landed(m: Sizes, sent: Requests, x: Sending, p: Slot, s: Server, s': Server, k: nat, r: Slot, t: Slot)
    requires Carries(m, sent, x, r, k) && Carries(m, sent, x, t, k) && 0 < k
    requires || s'.mode.Stopped? || Parked(s', x.client, r)
             || (if t.cur >= t.max then s'.out == s.out + [t] && Nowhere(s', x.client) else Pursued(s', x.client, t))
    requires k <= Count(sent, x.client, x.fragseq)
    ensures Following(m, sent, x, p, s', k)
  {
    if !s'.mode.Stopped? && !Parked(s', x.client, r) && t.cur >= t.max {
      assert Out(m, sent, x, s'.out, |s.out|, k);
    }
  }

  // ---------------------------------------------------------------- every run

  ghost predicate Undisturbed(x: Sending, inputs: seq<Input>) {
    forall k :: 0 <= k < |inputs| ==> Joining(x, inputs[k])
  }

  ghost function CameOf(c: Config, x: Sending): nat { |Came(c.arrived, x.client, x.fragseq)| }

  lemma FeedCame(m: Sizes, capacity: nat, sent: Requests, c: Config, i: Input, x: Sending)
    requires Safe(m, sent, c) && MayFeed(m, sent, c, i) && Joining(x, i) && Count(sent, x.client, x.fragseq) >= 0
    ensures CameOf(Feed(m, capacity, c, i), x) == CameOf(c, x) + if Own(i, x.client) then 1 else 0
    ensures CameOf(Feed(m, capacity, c, i), x) <= Count(sent, x.client, x.fragseq)
  {
    if i.Arrive? && i.p.Large? { CameMore(c.arrived, i.p.f, x.client, x.fragseq); }
    FeedSafe(m, capacity, sent, c, i);
    CameBound(sent, Feed(m, capacity, c, i).arrived, x.client, x.fragseq);
  }

  lemma FeedFollows(m: Sizes, capacity: nat, sent: Requests, c: Config, i: Input, x: Sending, p: Slot, k: nat)
    requires Inv(m, sent, c.arrived, c.s) && MayFeed(m, sent, c, i) && Joining(x, i) && Following(m, sent, x, p, c.s, k)
    requires k + (if Own(i, x.client) then 1 else 0) <= Count(sent, x.client, x.fragseq)
    ensures Following(m, sent, x, p, Step(m, capacity, c.s, i), k + if Own(i, x.client) then 1 else 0)
  {
    if Own(i, x.client) {
      var f := i.p.f;
      assert i == Arrive(Large(f));
      OwnFollows(m, capacity, sent, c, f, x, p, k);
    } else {
      OtherFollows(m, capacity, sent, c, i, x, p, k);
    }
  }

  /** A step of a run, during which `x` is undisturbed. */
  ghost predicate Leads(m: Sizes, capacity: nat, sent: Requests, c: Config, i: Input, c': Config, x: Sending) {
    match c
    case Config(s, arrived, _) =>
      && Inv(m, sent, arrived, s) && MayFeed(m, sent, c, i) && Joining(x, i) && c'.s == Step(m, capacity, s, i)
      && CameOf(c', x) == CameOf(c, x) + (if Own(i, x.client) then 1 else 0) <= Count(sent, x.client, x.fragseq)
  }

  lemma RunLeads(m: Sizes, capacity: nat, sent: Requests, c: Config, run: seq<Config>, inputs: seq<Input>, x: Sending,
      k: nat)
    requires Safe(m, sent, c) && IsRunFrom(m, capacity, sent, c, run, inputs) && Undisturbed(x, inputs) && 0 < k < |run|
    requires Count(sent, x.client, x.fragseq) >= 0
    ensures Leads(m, capacity, sent, run[k - 1], inputs[k - 1], run[k], x)
  {
    assert StepAt(m, capacity, sent, run, inputs, k - 1);
    RunSafe(m, capacity, sent, c, run, inputs, k - 1);
    FeedCame(m, capacity, sent, run[k - 1], inputs[k - 1], x);
  }

  lemma StepFollows(m: Sizes, capacity: nat, sent: Requests, c: Config, i: Input, c': Config, x: Sending, p: Slot)
    requires Leads(m, capacity, sent, c, i, c', x) && Following(m, sent, x, p, c.s, CameOf(c, x))
    ensures Following(m, sent, x, p, c'.s, CameOf(c', x))
  {
    FeedFollows(m, capacity, sent, c, i, x, p, CameOf(c, x));
  }

  lemma {:induction false} RunFollows(m: Sizes, capacity: nat, sent: Requests, c: Config, run: seq<Config>,
      inputs: seq<Input>, x: Sending, p: Slot, k: nat)
    requires Safe(m, sent, c) && IsRunFrom(m, capacity, sent, c, run, inputs) && Undisturbed(x, inputs) && k < |run|
    requires CameOf(c, x) == 0 <= Count(sent, x.client, x.fragseq) && Following(m, sent, x, p, c.s, 0)
    ensures Following(m, sent, x, p, run[k].s, CameOf(run[k], x))
  {
    if k > 0 {
      RunFollows(m, capacity, sent, c, run, inputs, x, p, k - 1);
      RunLeads(m, capacity, sent, c, run, inputs, x, k);
      StepFollows(m, capacity, sent, run[k - 1], inputs[k - 1], run[k], x, p);
    }
  }

  /** It has been returned whole, or waits whole in the queue for the next call. */
  ghost predicate Delivered(sent: Requests, c: Config, x: Sending) {
    exists r :: (r in c.s.out || r in c.s.q) && IsWhole(sent, c.arrived, x, r)
  }

  ghost predicate IsWhole(sent: Requests, arrived: Arrived, x: Sending, r: Slot) {
    && r.client == x.client && r.fragseq == x.fragseq && r.max > 0 && r.cur >= r.max && Whole(sent, arrived, r)
  }

  lemma CarriesAll(m: Sizes, sent: Requests, arrived: Arrived, x: Sending, r: Slot)
    requires PartOk(m, sent, arrived, r) && r.cur >= 0 && Carries(m, sent, x, r, r.cur) &&
      r.cur == Count(sent, x.client, x.fragseq)
    ensures IsWhole(sent, arrived, x, r)
  {
    Completes(m, sent, arrived, r);
  }

  lemma FollowedHome(m: Sizes, sent: Requests, c: Config, x: Sending, p: Slot)
    requires Inv(m, sent, c.arrived, c.s) && !c.s.mode.Stopped? && CameOf(c, x) == Count(sent, x.client, x.fragseq) > 0
    requires Following(m, sent, x, p, c.s, CameOf(c, x))
    ensures Delivered(sent, c, x)
  {
    var s, n := c.s, Count(sent, x.client, x.fragseq);
    if r :| Carries(m, sent, x, r, n) && (Parked(s, x.client, r) || Pursued(s, x.client, r)) {
      UnderWay(m, sent, c.arrived, s, x.client, r);
      CarriesAll(m, sent, c.arrived, x, r);
      assert r in s.q;
    } else {
      var j :| Out(m, sent, x, s.out, j, n);
      assert PartOk(m, sent, c.arrived, s.out[j]);
      CarriesAll(m, sent, c.arrived, x, s.out[j]);
      assert s.out[j] in s.out;
    }
  }

  /** Whatever else arrives, however often the server calls and times out, and whether or not an earlier packet of
      the client that it fits is under way: once all its fragments have arrived, a large request has been returned
      whole or waits whole for the next call. */
  lemma Delivers(m: Sizes, capacity: nat, sent: Requests, c: Config, run: seq<Config>, inputs: seq<Input>, x: Sending,
      p: Slot)
    requires Safe(m, sent, c) && IsRunFrom(m, capacity, sent, c, run, inputs) && Undisturbed(x, inputs)
    requires || Nowhere(c.s, x.client)
             || (Earlier(sent, x, p) && Fitting(m, sent, x, p) &&
                 (Parked(c.s, x.client, p) || Pursued(c.s, x.client, p)))
    requires CameOf(c, x) == 0 < Count(sent, x.client, x.fragseq) == CameOf(run[|run| - 1], x) &&
      !run[|run| - 1].s.mode.Stopped?
    ensures Delivered(sent, run[|run| - 1], x)
  {
    var k := |run| - 1;
    RunFollows(m, capacity, sent, c, run, inputs, x, p, k);
    RunSafe(m, capacity, sent, c, run, inputs, k);
    FollowedHome(m, sent, run[k], x, p);
  }
}
