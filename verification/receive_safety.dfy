/** Every run of the server's receive loop over every arrival order and timeout pattern. */
module ReceiveSafety {
  import opened Common
  import opened Assembly
  import opened DynamicArrays
  import opened Fragments
  import opened PktRingBuffers
  import opened ReceiveCounts
  import opened ReceiveMachine

  /** The server, the fragments that have arrived and the small packets that have arrived, in order. */
  datatype Config = Config(s: Server, arrived: Arrived, came: seq<Slot>)

  function Start(): Config { Config(Server([], Between, []), map[], []) }

  function Feed(m: Sizes, capacity: nat, c: Config, i: Input): Config {
    Config(Step(m, capacity, c.s, i),
           if i.Arrive? && i.p.Large? then c.arrived[Id(i.p.f) := i.p.f.hdr] else c.arrived,
           if i.Arrive? && i.p.Small? then c.came + [SmallSlot(SmallType(i.p.code), i.p.key, i.p.bytes)] else c.came)
  }

  /** The socket is asked only inside a call, and what it yields is as the clients sent it. */
  ghost predicate MayFeed(m: Sizes, sent: Requests, c: Config, i: Input) {
    match i
    case Call => c.s.mode.Between?
    case Timeout => c.s.mode.First? || c.s.mode.Pursuing?
    case Arrive(p) => (c.s.mode.First? || c.s.mode.Pursuing?) && (p.Large? ==> Expected(m, sent, c.arrived, p.f))
  }

  ghost predicate StepAt(m: Sizes, capacity: nat, sent: Requests, run: seq<Config>, inputs: seq<Input>, k: int) {
    0 <= k < |inputs| && k + 1 < |run| && MayFeed(m, sent, run[k], inputs[k]) &&
        run[k + 1] == Feed(m, capacity, run[k], inputs[k])
  }

  /** A run from `c`: any calls, timeouts and packets of any clients in any order. */
  ghost predicate IsRunFrom(m: Sizes, capacity: nat, sent: Requests, c: Config, run: seq<Config>, inputs: seq<Input>) {
    |run| == |inputs| + 1 && run[0] == c && forall k :: 0 <= k < |inputs| ==> StepAt(m, capacity, sent, run, inputs, k)
  }

  ghost predicate IsRun(m: Sizes, capacity: nat, sent: Requests, run: seq<Config>, inputs: seq<Input>) {
    IsRunFrom(m, capacity, sent, Start(), run, inputs)
  }

  // ---------------------------------------------------------------- large packets

  lemma FeedKeeps(m: Sizes, capacity: nat, sent: Requests, c: Config, i: Input)
    requires Inv(m, sent, c.arrived, c.s) && MayFeed(m, sent, c, i)
    ensures Inv(m, sent, Feed(m, capacity, c, i).arrived, Feed(m, capacity, c, i).s)
  {
    var s := c.s;
    match i
    case Call => CallKeeps(m, sent, c.arrived, s);
    case Timeout => if s.mode.Pursuing? { TimeoutKeeps(m, sent, c.arrived, s, capacity); }
    case Arrive(p) =>
      if p.Small? {
        SmallKeeps(m, sent, c.arrived, s, capacity, p);
      } else if s.mode.First? {
        FirstKeeps(m, sent, c.arrived, s, p.f);
      } else if p.f.client == s.mode.p.client {
        SameClientKeeps(m, sent, c.arrived, s, p.f, capacity);
      } else {
        ParkKeeps(m, sent, c.arrived, s, p.f, capacity);
      }
  }

  // ---------------------------------------------------------------- small packets

  function Smalls(q: seq<Slot>): seq<Slot> {
    if q == [] then [] else (if q[0].max == 0 then [q[0]] else []) + Smalls(q[1..])
  }

  lemma {:induction false} SmallsConcat(a: seq<Slot>, b: seq<Slot>)
    ensures Smalls(a + b) == Smalls(a) + Smalls(b)
  {
    if a == [] {
      assert a + b == b;
    } else {
      var ab, rest, first := a + b, a[1..], if a[0].max == 0 then [a[0]] else [];
      SmallsConcat(rest, b);
      assert ab[0] == a[0] && ab[1..] == rest + b;
      assert Smalls(ab) == first + Smalls(rest + b) && Smalls(a) == first + Smalls(rest);
      assert first + (Smalls(rest) + Smalls(b)) == first + Smalls(rest) + Smalls(b);
    }
  }

  lemma {:induction false} SmallsReplace(q: seq<Slot>, j: nat, p: Slot)
    requires j < |q| && q[j].max != 0 && p.max != 0
    ensures Smalls(q[j := p]) == Smalls(q)
  {
    if j > 0 {
      assert q[j := p][1..] == q[1..][j - 1 := p];
      SmallsReplace(q[1..], j - 1, p);
    } else {
      assert q[j := p][1..] == q[1..];
    }
  }

  /** The small packets that have arrived are, in order, those returned and then those parked. */
  ghost predicate InOrder(c: Config) {
    c.s.mode.Stopped? ||
        (c.came == Smalls(c.s.out) + Smalls(c.s.q) && (c.s.mode.First? ==> c.s.q == []) &&
        (c.s.mode.Pursuing? ==> c.s.mode.p.max != 0))
  }

  lemma OrderReturn(out: seq<Slot>, q: seq<Slot>, p: Slot)
    ensures Smalls(out + [p]) + Smalls(q) == Smalls(out) + (Smalls([p]) + Smalls(q))
    ensures Smalls(q + [p]) == Smalls(q) + Smalls([p])
    ensures Smalls([p] + q) == Smalls([p]) + Smalls(q)
  {
    SmallsConcat(out, [p]);
    SmallsConcat(q, [p]);
    SmallsConcat([p], q);
  }

  lemma CallOrder(c: Config)
    requires InOrder(c) && c.s.mode.Between?
    ensures InOrder(c.(s := OnCall(c.s)))
  {
    if c.s.q != [] {
      OrderReturn(c.s.out, c.s.q[1..], c.s.q[0]);
      assert c.s.q == [c.s.q[0]] + c.s.q[1..];
    }
  }

  lemma TakeOrder(m: Sizes, c: Config, p: Slot, f: Frag)
    requires c.came == Smalls(c.s.out) + Smalls(c.s.q) && p.optype.LargeType? && p.max != 0
    ensures InOrder(c.(s := Take(m, c.s, p, f)))
  {
    OrderReturn(c.s.out, c.s.q,
        p.(buf := Absorbed(p.buf, HdrSize(m, p.optype.op), BodySize(m, p.optype.op), f.idx, f.hdr, f.part),
        cur := (p.cur + 1) % WORD16));
  }

  lemma ParkOrder(m: Sizes, c: Config, f: Frag, capacity: nat)
    requires InOrder(c) && c.s.mode.Pursuing?
    ensures InOrder(c.(s := Park(m, c.s, f, capacity)))
  {
    var j := Find(c.s.q, f.client);
    if j < |c.s.q| {
      SmallsReplace(c.s.q, j, UpdatedBy(m, c.s.q[j], f));
    } else {
      OrderReturn(c.s.out, c.s.q, ParkedBy(m, f));
    }
  }

  lemma TimeoutOrder(m: Sizes, c: Config, capacity: nat)
    requires InOrder(c) && c.s.mode.Pursuing? && c.s.mode.p.optype.LargeType?
    ensures InOrder(c.(s := OnTimeout(m, c.s, c.s.mode.p, capacity)))
  {
    var p := c.s.mode.p;
    var h := HdrSize(m, p.optype.op);
    if |p.buf| >= h {
      OrderReturn(c.s.out, c.s.q,
          LargeSlot(p.optype, p.key, p.buf[..h], h, p.buf[h..], p.cur, p.max, p.client, p.fragseq));
    }
  }

  lemma SmallOrder(m: Sizes, c: Config, p: Packet, capacity: nat)
    requires InOrder(c) && p.Small?
    ensures var c' := c.(came := c.came + [SmallSlot(SmallType(p.code), p.key, p.bytes)]);
      && (c.s.mode.First? ==> InOrder(c'.(s := OnFirst(m, c.s, p))))
      && (c.s.mode.Pursuing? && c.s.mode.p.optype.LargeType? ==>
          InOrder(c'.(s := OnPursuing(m, c.s, c.s.mode.p, p, capacity))))
  {
    OrderReturn(c.s.out, c.s.q, SmallSlot(SmallType(p.code), p.key, p.bytes));
  }

  lemma LargeOrder(m: Sizes, c: Config, f: Frag, capacity: nat)
    requires InOrder(c) && c.s.mode.Pursuing? && c.s.mode.p.optype.LargeType?
    ensures InOrder(c.(s := OnPursuing(m, c.s, c.s.mode.p, Large(f), capacity)))
  {
    TakeOrder(m, c, Rebased(c.s.mode.p, f), f);
    ParkOrder(m, c, f, capacity);
  }

  lemma FeedOrder(m: Sizes, capacity: nat, sent: Requests, c: Config, i: Input)
    requires InOrder(c) && MayFeed(m, sent, c, i) && (c.s.mode.Pursuing? ==> c.s.mode.p.optype.LargeType?)
    ensures InOrder(Feed(m, capacity, c, i))
  {
    match i
    case Call => CallOrder(c);
    case Timeout => if c.s.mode.Pursuing? { TimeoutOrder(m, c, capacity); }
    case Arrive(p) =>
      if p.Small? {
        SmallOrder(m, c, p, capacity);
      } else if c.s.mode.First? {
        TakeOrder(m, c, Slot(LargeType(p.f.op), p.f.key, p.f.hdr, 0, p.f.num, p.f.client, p.f.fragseq), p.f);
      } else {
        LargeOrder(m, c, p.f, capacity);
      }
  }

  // ---------------------------------------------------------------- every run

  ghost predicate Safe(m: Sizes, sent: Requests, c: Config) {
    Inv(m, sent, c.arrived, c.s) && InOrder(c) && Balanced(sent, c.arrived, c.s)
  }

  lemma StartSafe(m: Sizes, sent: Requests)
    ensures Safe(m, sent, Start())
  {
  }

  lemma FeedSafe(m: Sizes, capacity: nat, sent: Requests, c: Config, i: Input)
    requires Safe(m, sent, c) && MayFeed(m, sent, c, i)
    ensures Safe(m, sent, Feed(m, capacity, c, i))
  {
    FeedKeeps(m, capacity, sent, c, i);
    FeedOrder(m, capacity, sent, c, i);
    if i.Arrive? && i.p.Large? {
      ArriveBalanced(m, capacity, sent, c.arrived, c.s, i.p.f);
    } else {
      OtherBalanced(m, capacity, sent, c.arrived, c.s, i);
    }
  }

  lemma {:induction false} RunSafe(m: Sizes, capacity: nat, sent: Requests, c: Config, run: seq<Config>,
      inputs: seq<Input>, k: nat)
    requires Safe(m, sent, c) && IsRunFrom(m, capacity, sent, c, run, inputs) && k < |run|
    ensures Safe(m, sent, run[k])
  {
    if k > 0 {
      assert StepAt(m, capacity, sent, run, inputs, k - 1);
      RunSafe(m, capacity, sent, c, run, inputs, k - 1);
      FeedSafe(m, capacity, sent, run[k - 1], inputs[k - 1]);
    }
  }

  /** Over every run, whatever transmissions overtake others: a large packet that a call returns has taken some
      fragments of one transmission, each once. If they are all there are and there is nothing behind them, it
      is byte for byte what the client sent, behind the header that fragment 0 arrived with, and nothing else is
      ever returned of that transmission. Otherwise it lacks a fragment or is longer than what was sent. */
  lemma {:induction false} ReturnsExact(m: Sizes, capacity: nat, sent: Requests, run: seq<Config>, inputs: seq<Input>,
      k: nat, i: nat)
    requires IsRun(m, capacity, sent, run, inputs) && k < |run| && i < |run[k].s.out| && run[k].s.out[i].max != 0
    ensures var p, arrived := run[k].s.out[i], run[k].arrived;
      && p.optype.LargeType? && SentAs(p.optype.op) == sent(p.client, p.fragseq).op && PartOk(m, sent, arrived, p)
      && (Complete(m, sent, p) ==> Whole(sent, arrived, p) && Alone(run[k].s.out, i))
      && (!Complete(m, sent, p) ==>
            || (exists n: nat :: Lacks(m, sent, arrived, p, n))
            || |p.buf| > HdrSize(m, p.optype.op) + |sent(p.client, p.fragseq).value|)
  {
    StartSafe(m, sent);
    RunSafe(m, capacity, sent, Start(), run, inputs, k);
    ExactAt(m, sent, run[k].arrived, run[k].s, i);
  }

  /** No other packet of the same transmission. */
  ghost predicate Alone(out: seq<Slot>, i: nat) {
    i < |out| && forall j ::
        0 <= j < |out| && j != i && out[j].max != 0 ==>
        out[j].client != out[i].client || out[j].fragseq != out[i].fragseq
  }

  lemma ExactAt(m: Sizes, sent: Requests, arrived: Arrived, s: Server, i: nat)
    requires Inv(m, sent, arrived, s) && Balanced(sent, arrived, s) && i < |s.out| && s.out[i].max != 0
    ensures var p := s.out[i];
      && PartOk(m, sent, arrived, p)
      && (Complete(m, sent, p) ==> Whole(sent, arrived, p) && Alone(s.out, i))
      && (!Complete(m, sent, p) ==>
            || (exists n: nat :: Lacks(m, sent, arrived, p, n))
            || |p.buf| > HdrSize(m, p.optype.op) + |sent(p.client, p.fragseq).value|)
  {
    var p := s.out[i];
    assert PartOk(m, sent, arrived, p);
    if Complete(m, sent, p) {
      Completes(m, sent, arrived, p);
      forall j | 0 <= j < |s.out| && j != i && s.out[j].max != 0
          ensures s.out[j].client != p.client || s.out[j].fragseq != p.fragseq {
        OnlyOne(m, sent, arrived, s, i, j);
      }
    } else {
      Incomplete(m, sent, arrived, p);
    }
  }

  /** The end of the server leaves what was parked and returned. */
  lemma StopLeaves(m: Sizes, capacity: nat, s: Server, i: Input)
    requires var s' := Step(m, capacity, s, i); s'.mode.Stopped? && s'.mode.why != Broken
    ensures Step(m, capacity, s, i).q == s.q && Step(m, capacity, s, i).out == s.out
  {
  }

  /** The small packet that an ended server could not park. */
  function Refused(s: Server, inputs: seq<Input>): nat {
    if s.mode.Stopped? && inputs != [] && inputs[|inputs| - 1].Arrive? && inputs[|inputs| - 1].p.Small? then 1 else 0
  }

  lemma RunOrder(m: Sizes, capacity: nat, sent: Requests, run: seq<Config>, inputs: seq<Input>, k: nat)
    requires IsRun(m, capacity, sent, run, inputs) && k < |run|
    ensures InOrder(run[k]) && run[k].s.mode != Stopped(Broken)
    ensures run[k].s.mode.Stopped? ==> k > 0 && !run[k - 1].s.mode.Stopped?
  {
    StartSafe(m, sent);
    RunSafe(m, capacity, sent, Start(), run, inputs, k);
    if k > 0 { assert StepAt(m, capacity, sent, run, inputs, k - 1); }
  }

  /** No small packet is lost or reordered, but for one that ends the server, and no check on the receiver's own state
      ever fails. */
  lemma {:induction false} SmallsKept(m: Sizes, capacity: nat, sent: Requests, run: seq<Config>, inputs: seq<Input>,
      k: nat)
    requires IsRun(m, capacity, sent, run, inputs) && k < |run|
    ensures var n := |run[k].came| - Refused(run[k].s, inputs[..k]);
      n >= 0 && run[k].came[..n] == Smalls(run[k].s.out) + Smalls(run[k].s.q)
    ensures run[k].s.mode != Stopped(Broken)
  {
    RunOrder(m, capacity, sent, run, inputs, k);
    if run[k].s.mode.Stopped? {
      RunOrder(m, capacity, sent, run, inputs, k - 1);
      assert StepAt(m, capacity, sent, run, inputs, k - 1);
      assert inputs[..k][k - 1] == inputs[k - 1];
      SmallsAtStop(m, capacity, run[k - 1], inputs[k - 1]);
    }
  }

  lemma SmallsAtStop(m: Sizes, capacity: nat, c: Config, i: Input)
    requires var s' := Step(m, capacity, c.s, i); s'.mode.Stopped? && s'.mode.why != Broken
    requires InOrder(c) && !c.s.mode.Stopped?
    ensures var c' := Feed(m, capacity, c, i); var n := |c'.came| - if i.Arrive? && i.p.Small? then 1 else 0;
      n >= 0 && c'.came[..n] == Smalls(c'.s.out) + Smalls(c'.s.q)
  {
    StopLeaves(m, capacity, c.s, i);
  }

  // ---------------------------------------------------------------- when later transmissions fit

  /** Transmission `f` under a larger sequence number fits the packet under way: it has as many fragments and no
      fewer bytes than have come so far. */
  ghost predicate Fits(sent: Requests, p: Slot, f: Frag) {
    IsOf(p, f.client) && p.fragseq < f.fragseq && p.key == f.key && SameType(p.optype, LargeType(f.op)) ==>
      p.max == f.num && |p.buf| <= |f.hdr| + |sent(f.client, f.fragseq).value|
  }

  ghost predicate FitsAll(sent: Requests, s: Server, f: Frag) {
    (s.mode.Pursuing? ==> Fits(sent, s.mode.p, f)) && forall j :: 0 <= j < |s.q| ==> Fits(sent, s.q[j], f)
  }

  ghost predicate FitRun(sent: Requests, run: seq<Config>, inputs: seq<Input>) {
    |run| == |inputs| + 1 &&
    forall k :: 0 <= k < |inputs| && inputs[k].Arrive? && inputs[k].p.Large? ==> FitsAll(sent, run[k].s, inputs[k].p.f)
  }

  /** The packet has the count of its own transmission, and nothing behind what was sent. */
  ghost predicate Tight(m: Sizes, sent: Requests, p: Slot) {
    p.max != 0 && p.optype.LargeType? ==>
      p.max == Count(sent, p.client, p.fragseq) &&
          |p.buf| <= HdrSize(m, p.optype.op) + |sent(p.client, p.fragseq).value|
  }

  ghost predicate AllTight(m: Sizes, sent: Requests, s: Server) {
    && (forall j :: 0 <= j < |s.q| ==> Tight(m, sent, s.q[j])) &&
        (forall j :: 0 <= j < |s.out| ==> Tight(m, sent, s.out[j]))
    && (s.mode.Pursuing? ==> Tight(m, sent, s.mode.p))
  }

  /** Where a genuine fragment reaches. */
  lemma Reaches(m: Sizes, sent: Requests, p: Slot, f: Frag)
    requires Genuine(m, sent, f) && p.optype.LargeType? && SameType(p.optype, LargeType(f.op))
    ensures HdrSize(m, p.optype.op) == |f.hdr| && BodySize(m, p.optype.op) == BodySize(m, f.op)
    ensures |f.hdr| + f.idx * BodySize(m, f.op) + |f.part| <= |f.hdr| + |sent(f.client, f.fragseq).value|
  {
    assert EvenCut(sent(f.client, f.fragseq).cuts, f.idx, BodySize(m, f.op));
  }

  lemma TakenTight(m: Sizes, sent: Requests, p: Slot, f: Frag)
    requires Genuine(m, sent, f) && p.max > 0 && p.optype.LargeType? && |p.buf| >= |f.hdr|
    requires if p.fragseq == f.fragseq then Tight(m, sent, p) else Fits(sent, p, f)
    requires p.client == f.client && p.key == f.key && SameType(p.optype, LargeType(f.op)) && p.fragseq <= f.fragseq
    ensures Tight(m, sent, Taken(m, Rebased(p, f), f)) && Tight(m, sent, UpdatedBy(m, p, f))
  {
    Reaches(m, sent, p, f);
    WrittenSize(p.buf, Off(m, f), f.part, f.hdr, f.idx == 0);
    WrittenSize(p.buf, Off(m, f), f.part, f.hdr, true);
    WrittenSize(p.buf, Off(m, f), f.part, f.hdr, false);
  }

  lemma NewTight(m: Sizes, sent: Requests, f: Frag)
    requires Genuine(m, sent, f)
    ensures var p := Slot(LargeType(f.op), f.key, f.hdr, 0, f.num, f.client, f.fragseq);
      Tight(m, sent, Taken(m, p, f)) && Tight(m, sent, ParkedBy(m, f))
  {
    var p := Slot(LargeType(f.op), f.key, f.hdr, 0, f.num, f.client, f.fragseq);
    Reaches(m, sent, p, f);
    WrittenSize(f.hdr, Off(m, f), f.part, f.hdr, f.idx == 0);
  }

  /** A packet under way has room for its header. */
  lemma HasHeader(m: Sizes, sent: Requests, arrived: Arrived, p: Slot)
    requires PartOk(m, sent, arrived, p)
    ensures |p.buf| >= HdrSize(m, p.optype.op)
  {
    var got :| Holds(m, sent, arrived, p, got);
  }

  lemma ParkTight(m: Sizes, capacity: nat, sent: Requests, arrived: Arrived, s: Server, f: Frag)
    requires Inv(m, sent, arrived, s) && AllTight(m, sent, s) && Genuine(m, sent, f) && FitsAll(sent, s, f)
    ensures AllTight(m, sent, Park(m, s, f, capacity))
  {
    var j := Find(s.q, f.client);
    ParkGives(m, s, f, capacity);
    NewTight(m, sent, f);
    if j < |s.q| && MayUpdate(s.q[j], LargeType(f.op), f.key, f.fragseq, f.hdr, Off(m, f), f.part) {
      HasHeader(m, sent, arrived, s.q[j]);
      Reaches(m, sent, s.q[j], f);
      TakenTight(m, sent, s.q[j], f);
    }
  }

  lemma OwnTight(m: Sizes, capacity: nat, sent: Requests, arrived: Arrived, s: Server, f: Frag)
    requires Inv(m, sent, arrived, s) && AllTight(m, sent, s) && Genuine(m, sent, f) && FitsAll(sent, s, f)
    requires s.mode.Pursuing? && f.client == s.mode.p.client
    ensures AllTight(m, sent, OnPursuing(m, s, s.mode.p, Large(f), capacity))
  {
    var p := s.mode.p;
    if f.key == p.key && SameType(LargeType(f.op), p.optype) && f.fragseq >= p.fragseq {
      HasHeader(m, sent, arrived, p);
      Reaches(m, sent, p, f);
      TakenTight(m, sent, p, f);
    }
  }

  lemma TimeoutTight(m: Sizes, capacity: nat, sent: Requests, arrived: Arrived, s: Server)
    requires Inv(m, sent, arrived, s) && AllTight(m, sent, s) && s.mode.Pursuing?
    ensures AllTight(m, sent, OnTimeout(m, s, s.mode.p, capacity))
  {
    HasHeader(m, sent, arrived, s.mode.p);
  }

  lemma FeedTight(m: Sizes, capacity: nat, sent: Requests, c: Config, i: Input)
    requires Inv(m, sent, c.arrived, c.s) && MayFeed(m, sent, c, i) && AllTight(m, sent, c.s)
    requires i.Arrive? && i.p.Large? ==> FitsAll(sent, c.s, i.p.f)
    ensures AllTight(m, sent, Feed(m, capacity, c, i).s)
  {
    var s := c.s;
    match i
    case Call =>
    case Timeout => if s.mode.Pursuing? { TimeoutTight(m, capacity, sent, c.arrived, s); }
    case Arrive(p) =>
      if p.Large? {
        if s.mode.First? { NewTight(m, sent, p.f); }
        else if p.f.client == s.mode.p.client { OwnTight(m, capacity, sent, c.arrived, s, p.f); }
        else { ParkTight(m, capacity, sent, c.arrived, s, p.f); }
      }
  }

  lemma {:induction false} RunTight(m: Sizes, capacity: nat, sent: Requests, run: seq<Config>, inputs: seq<Input>,
      k: nat)
    requires IsRun(m, capacity, sent, run, inputs) && FitRun(sent, run, inputs) && k < |run|
    ensures AllTight(m, sent, run[k].s)
  {
    if k > 0 {
      assert StepAt(m, capacity, sent, run, inputs, k - 1);
      RunTight(m, capacity, sent, run, inputs, k - 1);
      StartSafe(m, sent);
      RunSafe(m, capacity, sent, Start(), run, inputs, k - 1);
      FeedTight(m, capacity, sent, run[k - 1], inputs[k - 1]);
    }
  }

  /** In every run in which a transmission that overtakes another one fits it, which a retry of the same value
      does: every large request that a call returns is complete and is what the client sent, behind the header
      that fragment 0 arrived with; no transmission is returned twice. */
  lemma {:induction false} ReturnsWhole(m: Sizes, capacity: nat, sent: Requests, run: seq<Config>, inputs: seq<Input>,
      k: nat, i: nat)
    requires IsRun(m, capacity, sent, run, inputs) && FitRun(sent, run, inputs)
    requires k < |run| && i < |run[k].s.out| && run[k].s.out[i].max != 0
    ensures Whole(sent, run[k].arrived, run[k].s.out[i]) && Alone(run[k].s.out, i)
  {
    ReturnsExact(m, capacity, sent, run, inputs, k, i);
    RunTight(m, capacity, sent, run, inputs, k);
    StartSafe(m, sent);
    RunSafe(m, capacity, sent, Start(), run, inputs, k);
    TightIsComplete(m, sent, run[k].arrived, run[k].s, i);
  }

  lemma TightIsComplete(m: Sizes, sent: Requests, arrived: Arrived, s: Server, i: nat)
    requires OutOk(m, sent, arrived, s.out) && AllTight(m, sent, s) && i < |s.out| && s.out[i].max != 0
    ensures s.out[i].optype.LargeType? && Complete(m, sent, s.out[i])
  {
    assert PartOk(m, sent, arrived, s.out[i]) && Tight(m, sent, s.out[i]);
    var got :| Holds(m, sent, arrived, s.out[i], got);
    Bounded(m, sent, arrived, s.out[i], got);
  }

  /** A retry of the same value fits. */
  lemma SameValueFits(m: Sizes, sent: Requests, arrived: Arrived, p: Slot, f: Frag)
    requires PartOk(m, sent, arrived, p) && Genuine(m, sent, f) && Tight(m, sent, p)
    requires sent(p.client, p.fragseq).value == sent(f.client, f.fragseq).value
    ensures Fits(sent, p, f)
  {
    if IsOf(p, f.client) && p.fragseq < f.fragseq && p.key == f.key && SameType(p.optype, LargeType(f.op)) {
      Reaches(m, sent, p, f);
      SameCuts(sent(p.client, p.fragseq).cuts, sent(f.client, f.fragseq).cuts, |sent(p.client, p.fragseq).value|,
          BodySize(m, f.op));
    }
  }

  // ---------------------------------------------------------------- why one outstanding request

  function LoadFrag(client: int, fragseq: int, hdr: Bytes, value: Bytes, cuts: seq<nat>, i: nat): Frag
    requires CutOk(cuts, i, |value|)
  {
    Frag(LoadReq, 7, client, fragseq, hdr, i, |cuts| - 1, Part(value, cuts, i))
  }

  /** A client that abandons a request and writes the same key again: the server keeps the fragment
      count of the first request and returns the second one cut short. */
  lemma AbandonedRequest(client: int, hdr: Bytes, first: Bytes, second: Bytes)
    requires |hdr| == FragHdrSize(FarReach, LoadReq) && |first| == 2768 && |second| == 4152
    ensures EvenCuts([0, 1384, 2768], |first|, FragBodySize(FarReach, LoadReq)) &&
      EvenCuts([0, 1384, 2768, 4152], |second|, FragBodySize(FarReach, LoadReq))
    ensures var s0 := Server([], First, []);
      var s1 := OnFirst(SizesOf(FarReach), s0, Large(LoadFrag(client, 1, hdr, first, [0, 1384, 2768], 0)));
      && s1.mode.Pursuing? && s1.mode.p.optype.LargeType?
      && var s2 := OnPursuing(SizesOf(FarReach), s1, s1.mode.p,
          Large(LoadFrag(client, 2, hdr, second, [0, 1384, 2768, 4152], 0)), 2048);
         && s2.mode.Pursuing? && s2.mode.p.optype.LargeType?
         && var s3 := OnPursuing(SizesOf(FarReach), s2, s2.mode.p,
             Large(LoadFrag(client, 2, hdr, second, [0, 1384, 2768, 4152], 1)), 2048);
            |s3.out| == 1 && s3.out[0].fragseq == 2 && |s3.out[0].buf| < |hdr + second|
  {
    SizesOfAre(FarReach, LoadReq);
    assert FragBodySize(FarReach, LoadReq) == 1384;
    var f0, f1, f2 := LoadFrag(client, 1, hdr, first, [0, 1384, 2768], 0),
        LoadFrag(client, 2, hdr, second, [0, 1384, 2768, 4152], 0),
        LoadFrag(client, 2, hdr, second, [0, 1384, 2768, 4152], 1);
    assert |f0.part| == 1384 && |f1.part| == 1384 && |f2.part| == 1384;
    var s1 := OnFirst(SizesOf(FarReach), Server([], First, []), Large(f0));
    assert s1.mode.Pursuing? && |s1.mode.p.buf| == 24 + 1384 && s1.mode.p.max == 2;
    var s2 := OnPursuing(SizesOf(FarReach), s1, s1.mode.p, Large(f1), 2048);
    assert s2.mode.Pursuing? && |s2.mode.p.buf| == 24 + 1384 && s2.mode.p.cur == 1;
  }
}
