/** No fragment is counted twice: over all packets that a receiver holds or has returned, the counts of one
    transmission add up to no more than the fragments of it that have arrived
    (common/socket_helper.c:574-850, common/pkt_ring_buffer.c:110-149). */
module ReceiveCounts {
  import opened Assembly
  import opened DynamicArrays
  import opened Fragments
  import opened PktRingBuffers
  import opened ReceiveMachine

  /** How many fragments of transmission `b` of client `c` a packet counts. */
  function Mine(p: Slot, c: int, b: int): nat {
    if p.max != 0 && p.client == c && p.fragseq == b && p.cur > 0 then p.cur else 0
  }

  function Counted(q: seq<Slot>, c: int, b: int): nat {
    if q == [] then 0 else Mine(q[0], c, b) + Counted(q[1..], c, b)
  }

  function Weight(s: Server, c: int, b: int): nat {
    Counted(s.out, c, b) + Counted(s.q, c, b) + if s.mode.Pursuing? then Mine(s.mode.p, c, b) else 0
  }

  /** The fragments of it that have arrived. */
  ghost function Came(arrived: Arrived, c: int, b: int): set<nat> {
    set id | id in arrived && id.0 == c && id.1 == b :: id.2
  }

  lemma {:induction false} CountedConcat(p: seq<Slot>, q: seq<Slot>, c: int, b: int)
    ensures Counted(p + q, c, b) == Counted(p, c, b) + Counted(q, c, b)
  {
    if p == [] {
      assert p + q == q;
    } else {
      assert (p + q)[1..] == p[1..] + q;
      CountedConcat(p[1..], q, c, b);
    }
  }

  lemma CountedAdd(q: seq<Slot>, p: Slot, c: int, b: int)
    ensures Counted(q + [p], c, b) == Counted(q, c, b) + Mine(p, c, b)
  {
    CountedConcat(q, [p], c, b);
  }

  lemma CountedReplace(q: seq<Slot>, j: nat, p: Slot, c: int, b: int)
    requires j < |q|
    ensures Counted(q[j := p], c, b) + Mine(q[j], c, b) == Counted(q, c, b) + Mine(p, c, b)
  {
    assert q == q[..j] + ([q[j]] + q[j + 1..]) && q[j := p] == q[..j] + ([p] + q[j + 1..]);
    CountedConcat(q[..j], [q[j]] + q[j + 1..], c, b);
    CountedConcat(q[..j], [p] + q[j + 1..], c, b);
  }

  /** Two places count for at least what is in them. */
  lemma {:induction false} CountedTwo(q: seq<Slot>, i: nat, j: nat, c: int, b: int)
    requires i < j < |q|
    ensures Counted(q, c, b) >= Mine(q[i], c, b) + Mine(q[j], c, b)
  {
    if i > 0 { CountedTwo(q[1..], i - 1, j - 1, c, b); } else { CountedOne(q[1..], j - 1, c, b); }
  }

  lemma {:induction false} CountedOne(q: seq<Slot>, j: nat, c: int, b: int)
    requires j < |q|
    ensures Counted(q, c, b) >= Mine(q[j], c, b)
  {
    if j > 0 { CountedOne(q[1..], j - 1, c, b); }
  }

  // ---------------------------------------------------------------- one step

  function One(f: Frag, c: int, b: int): nat { if f.client == c && f.fragseq == b then 1 else 0 }

  lemma TakenMine(m: Sizes, p: Slot, f: Frag, c: int, b: int)
    requires p.optype.LargeType? && p.client == f.client && p.fragseq <= f.fragseq && p.cur >= 0
    ensures Mine(Taken(m, Rebased(p, f), f), c, b) <= Mine(p, c, b) + One(f, c, b)
  {
  }

  lemma TakeWeight(m: Sizes, s: Server, p: Slot, f: Frag, c: int, b: int)
    requires p.optype.LargeType?
    ensures Weight(Take(m, s, p, f), c, b) <= Counted(s.out, c, b) + Counted(s.q, c, b) + Mine(Taken(m, p, f), c, b)
      || Take(m, s, p, f).mode.Stopped?
  {
    CountedAdd(s.out, Taken(m, p, f), c, b);
  }

  lemma UpdatedMine(m: Sizes, p: Slot, f: Frag, c: int, b: int)
    requires p.client == f.client && p.fragseq <= f.fragseq && p.cur >= 0
    ensures Mine(UpdatedBy(m, p, f), c, b) <= Mine(p, c, b) + One(f, c, b)
  {
  }

  lemma ParkWeight(m: Sizes, s: Server, f: Frag, capacity: nat, c: int, b: int)
    requires forall j :: 0 <= j < |s.q| && s.q[j].max != 0 ==> s.q[j].cur >= 0
    ensures Weight(Park(m, s, f, capacity), c, b) <= Weight(s, c, b) + One(f, c, b)
  {
    var j := Find(s.q, f.client);
    ParkGives(m, s, f, capacity);
    if j < |s.q| {
      CountedReplace(s.q, j, UpdatedBy(m, s.q[j], f), c, b);
      if s.q[j].fragseq <= f.fragseq { UpdatedMine(m, s.q[j], f, c, b); }
    }
    CountedAdd(s.q, ParkedBy(m, f), c, b);
  }

  lemma CallWeight(s: Server, c: int, b: int)
    ensures Weight(OnCall(s), c, b) <= Weight(s, c, b) || !s.mode.Between?
  {
    if s.q != [] { CountedAdd(s.out, s.q[0], c, b); }
  }

  lemma TimeoutWeight(m: Sizes, s: Server, p: Slot, capacity: nat, c: int, b: int)
    requires p.optype.LargeType? && s.mode == Pursuing(p)
    ensures Weight(OnTimeout(m, s, p, capacity), c, b) <= Weight(s, c, b)
  {
    var h := HdrSize(m, p.optype.op);
    if |p.buf| >= h {
      CountedAdd(s.q, LargeSlot(p.optype, p.key, p.buf[..h], h, p.buf[h..], p.cur, p.max, p.client, p.fragseq), c, b);
    }
  }

  lemma SmallWeight(m: Sizes, s: Server, capacity: nat, pkt: Packet, c: int, b: int)
    requires pkt.Small?
    ensures s.mode.First? ==> Weight(OnFirst(m, s, pkt), c, b) <= Weight(s, c, b)
    ensures s.mode.Pursuing? && s.mode.p.optype.LargeType? ==>
      Weight(OnPursuing(m, s, s.mode.p, pkt, capacity), c, b) <= Weight(s, c, b)
  {
    var slot := SmallSlot(SmallType(pkt.code), pkt.key, pkt.bytes);
    CountedAdd(s.out, slot, c, b);
    CountedAdd(s.q, slot, c, b);
  }

  lemma OwnWeight(m: Sizes, s: Server, f: Frag, capacity: nat, c: int, b: int)
    requires s.mode.Pursuing? && s.mode.p.optype.LargeType? && s.mode.p.cur >= 0 && f.client == s.mode.p.client
    ensures Weight(OnPursuing(m, s, s.mode.p, Large(f), capacity), c, b) <= Weight(s, c, b) + One(f, c, b)
  {
    var p := s.mode.p;
    if p.fragseq <= f.fragseq {
      TakenMine(m, p, f, c, b);
      TakeWeight(m, s, Rebased(p, f), f, c, b);
    }
  }

  lemma FirstWeight(m: Sizes, s: Server, f: Frag, c: int, b: int)
    requires s.mode.First?
    ensures Weight(OnFirst(m, s, Large(f)), c, b) <= Weight(s, c, b) + One(f, c, b)
  {
    TakeWeight(m, s, Slot(LargeType(f.op), f.key, f.hdr, 0, f.num, f.client, f.fragseq), f, c, b);
  }

  /** A step adds at most the fragment that arrives with it. */
  lemma StepWeight(m: Sizes, capacity: nat, sent: Requests, arrived: Arrived, s: Server, i: Input, c: int, b: int)
    requires Inv(m, sent, arrived, s)
    ensures Weight(Step(m, capacity, s, i), c, b) <= Weight(s, c, b) + if i.Arrive? && i.p.Large? then One(i.p.f, c, b)
      else 0
  {
    forall j | 0 <= j < |s.q| && s.q[j].max != 0 ensures s.q[j].cur >= 0 { assert PartOk(m, sent, arrived, s.q[j]); }
    match i
    case Call => CallWeight(s, c, b);
    case Timeout => if s.mode.Pursuing? { TimeoutWeight(m, s, s.mode.p, capacity, c, b); }
    case Arrive(pkt) =>
      if pkt.Small? {
        SmallWeight(m, s, capacity, pkt, c, b);
      } else if s.mode.First? {
        FirstWeight(m, s, pkt.f, c, b);
      } else if s.mode.Pursuing? && pkt.f.client == s.mode.p.client {
        OwnWeight(m, s, pkt.f, capacity, c, b);
      } else {
        ParkWeight(m, s, pkt.f, capacity, c, b);
      }
  }

  // ---------------------------------------------------------------- the balance

  /** Nothing is counted that has not arrived, and nothing arrives that was not sent. */
  ghost predicate Balanced(sent: Requests, arrived: Arrived, s: Server) {
    && (forall c, b :: Weight(s, c, b) <= |Came(arrived, c, b)|)
    && (forall id :: id in arrived ==> id.2 < Count(sent, id.0, id.1))
  }

  lemma CameMore(arrived: Arrived, f: Frag, c: int, b: int)
    requires Id(f) !in arrived
    ensures |Came(arrived[Id(f) := f.hdr], c, b)| == |Came(arrived, c, b)| + One(f, c, b)
  {
    var came, came' := Came(arrived, c, b), Came(arrived[Id(f) := f.hdr], c, b);
    if f.client == c && f.fragseq == b {
      assert f.idx !in came;
      assert came' == came + {f.idx} by {
        forall i | i in came + {f.idx} ensures i in came' { assert (c, b, i) in arrived[Id(f) := f.hdr]; }
      }
    } else {
      assert came' == came by {
        forall i | i in came ensures i in came' { assert (c, b, i) in arrived[Id(f) := f.hdr]; }
      }
    }
  }

  lemma ArriveBalanced(m: Sizes, capacity: nat, sent: Requests, arrived: Arrived, s: Server, f: Frag)
    requires Inv(m, sent, arrived, s) && Balanced(sent, arrived, s) && Expected(m, sent, arrived, f)
    ensures Balanced(sent, arrived[Id(f) := f.hdr], Step(m, capacity, s, Arrive(Large(f))))
  {
    forall c, b ensures Weight(Step(m, capacity, s, Arrive(Large(f))), c, b) <= |Came(arrived[Id(f) := f.hdr], c, b)| {
      StepWeight(m, capacity, sent, arrived, s, Arrive(Large(f)), c, b);
      CameMore(arrived, f, c, b);
    }
  }

  lemma OtherBalanced(m: Sizes, capacity: nat, sent: Requests, arrived: Arrived, s: Server, i: Input)
    requires Inv(m, sent, arrived, s) && Balanced(sent, arrived, s) && (i.Arrive? ==> i.p.Small?)
    ensures Balanced(sent, arrived, Step(m, capacity, s, i))
  {
    forall c, b ensures Weight(Step(m, capacity, s, i), c, b) <= |Came(arrived, c, b)| {
      StepWeight(m, capacity, sent, arrived, s, i, c, b);
    }
  }

  lemma CameBound(sent: Requests, arrived: Arrived, c: int, b: int)
    requires (forall id :: id in arrived ==> id.2 < Count(sent, id.0, id.1)) && Count(sent, c, b) >= 0
    ensures |Came(arrived, c, b)| <= Count(sent, c, b)
  {
    TooMany(Came(arrived, c, b), Count(sent, c, b));
  }

  /** A packet that took every fragment of its transmission is the only one returned of it. */
  lemma OnlyOne(m: Sizes, sent: Requests, arrived: Arrived, s: Server, i: nat, j: nat)
    requires Inv(m, sent, arrived, s) && Balanced(sent, arrived, s) && i < |s.out| && j < |s.out| && i != j
    requires s.out[i].max != 0 && s.out[j].max != 0 && s.out[i].cur == Count(sent, s.out[i].client, s.out[i].fragseq)
    ensures s.out[i].client != s.out[j].client || s.out[i].fragseq != s.out[j].fragseq
  {
    var c, b := s.out[i].client, s.out[i].fragseq;
    assert PartOk(m, sent, arrived, s.out[i]) && PartOk(m, sent, arrived, s.out[j]);
    CameBound(sent, arrived, c, b);
    if i < j { CountedTwo(s.out, i, j, c, b); } else { CountedTwo(s.out, j, i, c, b); }
    assert Weight(s, c, b) <= |Came(arrived, c, b)|;
  }
}
