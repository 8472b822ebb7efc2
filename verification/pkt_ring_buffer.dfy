/** `PktRingBuffer` (common/pkt_ring_buffer.c): the packets a server worker has received and not yet
    processed, with an index from clients to their unfinished large packets. */
module PktRingBuffers {
  import opened Common
  import opened Arith
  import opened DynamicArrays
  import opened Fragments

  const MAX_LARGE_BUFSIZE := 8388608

  datatype PacketType = SmallType(code: int) | LargeType(op: LargeOp)

  /** `is_same_optype` (packet_format_impl.h:4478-4485). */
  predicate SameType(a: PacketType, b: PacketType) {
    (a.LargeType? && a.op.PutReqSeq? && b.LargeType? && b.op.PutReqSeq?) || a == b
  }

  /** One slot of the parallel vectors; `max == 0` marks a small packet. */
  datatype Slot = Slot(optype: PacketType, key: int, buf: Bytes, cur: int, max: int, client: int, fragseq: int)

  const EMPTY := Slot(SmallType(0), 0, [], 0, 0, 0, 0)

  function SmallSlot(optype: PacketType, key: int, buf: Bytes): Slot { Slot(optype, key, buf, 0, 0, 0, 0) }

  function LargeSlot(optype: PacketType, key: int, hdr: Bytes, off: nat, body: Bytes, cur: int, max: int, client: int,
      fragseq: int): Slot
  {
    Slot(optype, key, Spliced(hdr, off, body), cur, max, client, fragseq)
  }

  /** One more fragment; a larger fragment sequence number starts the count again (lines 132-148). */
  function Updated(s: Slot, hdr: Bytes, off: nat, body: Bytes, fragseq: int, isFrag0: bool): Slot {
    var cur := if fragseq > s.fragseq then 1 else (s.cur + 1) % WORD16;
    var buf := Spliced(s.buf, off, body);
    s.(buf := if cur == 1 || isFrag0 then Spliced(buf, 0, hdr) else buf, cur := cur, fragseq := fragseq)
  }

  /** The part is where it belongs. The start of the buffer is the fragment's header if it is fragment 0, or the first
      one counted, of a new transmission or after a full turn of the count; else it is left as it was. */
  lemma UpdatedBytes(s: Slot, hdr: Bytes, off: nat, body: Bytes, fragseq: int, isFrag0: bool)
    requires |hdr| <= off && |hdr| <= |s.buf|
    ensures var buf := Updated(s, hdr, off, body, fragseq, isFrag0).buf;
      && |buf| >= off + |body| && buf[off..off + |body|] == body
      && buf[..|hdr|] == if isFrag0 || fragseq > s.fragseq || s.cur % WORD16 == 0 then hdr else s.buf[..|hdr|]
  {
    var b := Spliced(s.buf, off, body);
    assert b[..|hdr|] == s.buf[..|hdr|] && b[off..off + |body|] == body;
    assert Spliced(b, 0, hdr)[..|hdr|] == hdr && Spliced(b, 0, hdr)[off..off + |body|] == body;
    assert (s.cur + 1) % WORD16 == 1 <==> s.cur % WORD16 == 0;
  }

  // ---------------------------------------------------------------- queues of slots

  predicate IsOf(s: Slot, client: int) { s.max > 0 && s.client == client }

  /** The position of the client's large packet, or the length. */
  function Find(q: seq<Slot>, client: int): (j: nat)
    ensures j <= |q| && (j < |q| ==> IsOf(q[j], client)) && forall i :: 0 <= i < j ==> !IsOf(q[i], client)
  {
    if q == [] then 0 else if IsOf(q[0], client) then 0 else Find(q[1..], client) + 1
  }

  /** At most one large packet per client. */
  ghost predicate OnePerClient(q: seq<Slot>) {
    forall i, j :: 0 <= i < j < |q| && q[i].max > 0 && q[j].max > 0 ==> q[i].client != q[j].client
  }

  // ---------------------------------------------------------------- the ring as a window of slots

  /** The slot of the `j`-th queued packet after `popped` packets have left. */
  function Index(popped: nat, j: nat, capacity: nat): (i: nat)
    requires capacity > 0
    ensures i < capacity
  {
    (popped + j) % capacity
  }

  /** Different places of the window are different slots. */
  lemma Apart(popped: nat, i: nat, j: nat, capacity: nat)
    requires i < capacity && j < capacity && i != j
    ensures Index(popped, i, capacity) != Index(popped, j, capacity)
  {
    if Index(popped, i, capacity) == Index(popped, j, capacity) {
      if i < j { SameMod(popped + i, popped + j, capacity); } else { SameMod(popped + j, popped + i, capacity); }
    }
  }

  /** The window is full, or empty, exactly when the indexes say so (lines 33, 79 and 152). */
  lemma FullIff(popped: nat, count: nat, capacity: nat)
    requires count < capacity
    ensures (Index(popped, count, capacity) + 1) % capacity == Index(popped, count + 1, capacity)
    ensures Index(popped, count + 1, capacity) == Index(popped, 0, capacity) <==> count == capacity - 1
    ensures Index(popped, 0, capacity) == Index(popped, count, capacity) <==> count == 0
  {
    NextMod(popped + count, capacity);
    WrapMod(popped, capacity);
    if count + 1 < capacity { Apart(popped, count + 1, 0, capacity); }
    if count > 0 { Apart(popped, count, 0, capacity); }
  }

  /** `q` is what the window holds; the valid flags mark exactly the window. */
  ghost predicate Window(q: seq<Slot>, popped: nat, capacity: nat, slots: seq<Slot>, valid: seq<bool>) {
    && |q| < capacity == |slots| == |valid|
    && (forall j :: 0 <= j < |q| ==> slots[Index(popped, j, capacity)] == q[j])
    && (forall j :: 0 <= j < capacity ==> valid[Index(popped, j, capacity)] == (j < |q|))
  }

  /** The client map is a bijection onto the large packets queued. */
  ghost predicate Clients(q: seq<Slot>, popped: nat, capacity: nat, bufIdx: map<int, nat>)
    requires capacity > 0
  {
    && OnePerClient(q)
    && (forall c :: c in bufIdx <==> Find(q, c) < |q|)
    && (forall c :: c in bufIdx ==> bufIdx[c] == Index(popped, Find(q, c), capacity))
  }

  ghost predicate RingOk(q: seq<Slot>, popped: nat, capacity: nat, slots: seq<Slot>, valid: seq<bool>, head: nat,
      tail: nat, bufIdx: map<int, nat>)
  {
    && Window(q, popped, capacity, slots, valid) && Clients(q, popped, capacity, bufIdx)
    && tail == Index(popped, 0, capacity) && head == Index(popped, |q|, capacity)
  }

  lemma StoreWindow(q: seq<Slot>, popped: nat, capacity: nat, slots: seq<Slot>, valid: seq<bool>, s: Slot)
    requires Window(q, popped, capacity, slots, valid) && |q| < capacity - 1
    ensures var h := Index(popped, |q|, capacity); Window(q + [s], popped, capacity, slots[h := s], valid[h := true])
  {
    var h := Index(popped, |q|, capacity);
    forall j: nat | j < capacity && j != |q| ensures Index(popped, j, capacity) != h {
      Apart(popped, j, |q|, capacity);
    }
  }

  lemma StoreClients(q: seq<Slot>, popped: nat, capacity: nat, bufIdx: map<int, nat>, s: Slot)
    requires capacity > 0 && Clients(q, popped, capacity, bufIdx) && (s.max > 0 ==> s.client !in bufIdx)
    ensures Clients(q + [s], popped, capacity, if s.max > 0 then bufIdx[s.client := Index(popped, |q|, capacity)]
      else bufIdx)
  {
    var more := if s.max > 0 then bufIdx[s.client := Index(popped, |q|, capacity)] else bufIdx;
    forall c ensures c in more <==> Find(q + [s], c) < |q| + 1 { FindAppend(q, s, c); }
    forall c | c in more ensures more[c] == Index(popped, Find(q + [s], c), capacity) { FindAppend(q, s, c); }
    forall i | 0 <= i < |q| && q[i].max > 0 && s.max > 0 ensures q[i].client != s.client {
      assert Find(q, q[i].client) <= i;
    }
  }

  lemma FindAppend(q: seq<Slot>, s: Slot, c: int)
    ensures Find(q + [s], c) == if Find(q, c) < |q| then Find(q, c) else if IsOf(s, c) then |q| else |q| + 1
  {
    assert forall i :: 0 <= i < |q| ==> (q + [s])[i] == q[i];
    assert (q + [s])[|q|] == s;
  }

  /** Replacing a large packet by one of the same client. */
  lemma ReplaceKeeps(q: seq<Slot>, popped: nat, capacity: nat, slots: seq<Slot>, valid: seq<bool>,
      bufIdx: map<int, nat>, j: nat, s: Slot)
    requires Window(q, popped, capacity, slots, valid) && Clients(q, popped, capacity, bufIdx)
    requires j < |q| && q[j].max > 0 && s.max > 0 && s.client == q[j].client
    ensures Window(q[j := s], popped, capacity, slots[Index(popped, j, capacity) := s], valid) &&
      Clients(q[j := s], popped, capacity, bufIdx)
  {
    forall i: nat | i < capacity && i != j ensures Index(popped, i, capacity) != Index(popped, j, capacity) {
      Apart(popped, i, j, capacity);
    }
    forall c ensures Find(q[j := s], c) == Find(q, c) { FindReplace(q, j, s, c); }
  }

  lemma FindReplace(q: seq<Slot>, j: nat, s: Slot, c: int)
    requires j < |q| && q[j].max > 0 && s.max > 0 && s.client == q[j].client
    ensures Find(q[j := s], c) == Find(q, c)
  {
    assert forall i :: 0 <= i < |q| ==> IsOf(q[j := s][i], c) == IsOf(q[i], c);
  }

  lemma DropWindow(q: seq<Slot>, popped: nat, capacity: nat, slots: seq<Slot>, valid: seq<bool>)
    requires Window(q, popped, capacity, slots, valid) && |q| > 0
    ensures var t := Index(popped, 0, capacity);
      Window(q[1..], popped + 1, capacity, slots[t := EMPTY], valid[t := false])
  {
    var t := Index(popped, 0, capacity);
    WrapMod(popped, capacity);
    assert forall j: nat {:trigger Index(popped + 1, j, capacity)} :: j < capacity ==>
      Index(popped + 1, j, capacity) == if j + 1 < capacity then Index(popped, j + 1, capacity) else t;
    forall j: nat | 0 < j < capacity ensures Index(popped, j, capacity) != t { Apart(popped, j, 0, capacity); }
  }

  /** What the client map says of one client after the first packet has left. */
  lemma DropClient(q: seq<Slot>, popped: nat, capacity: nat, bufIdx: map<int, nat>, c: int)
    requires capacity > 0 && |q| > 0 && Clients(q, popped, capacity, bufIdx)
    ensures var left := if q[0].max > 0 then bufIdx - {q[0].client} else bufIdx;
      && (c in left <==> Find(q[1..], c) < |q| - 1) &&
          (c in left ==> left[c] == Index(popped + 1, Find(q[1..], c), capacity))
  {
    FindDrop(q, c);
    if 0 < Find(q, c) < |q| { assert (popped + 1) + (Find(q, c) - 1) == popped + Find(q, c); }
  }

  lemma DropClients(q: seq<Slot>, popped: nat, capacity: nat, bufIdx: map<int, nat>)
    requires capacity > 0 && |q| > 0 && Clients(q, popped, capacity, bufIdx)
    ensures Clients(q[1..], popped + 1, capacity, if q[0].max > 0 then bufIdx - {q[0].client} else bufIdx)
  {
    var left := if q[0].max > 0 then bufIdx - {q[0].client} else bufIdx;
    forall c ensures c in left <==> Find(q[1..], c) < |q| - 1 { DropClient(q, popped, capacity, bufIdx, c); }
    forall c | c in left ensures left[c] == Index(popped + 1, Find(q[1..], c), capacity) {
      DropClient(q, popped, capacity, bufIdx, c);
    }
  }

  lemma FindDrop(q: seq<Slot>, c: int)
    requires |q| > 0 && OnePerClient(q)
    ensures Find(q[1..], c) == if Find(q, c) > 0 then Find(q, c) - 1 else |q| - 1
  {
    if IsOf(q[0], c) { assert forall i :: 0 <= i < |q[1..]| ==> !IsOf(q[1..][i], c); }
  }

  lemma StoreKeeps(q: seq<Slot>, popped: nat, capacity: nat, slots: seq<Slot>, valid: seq<bool>, head: nat, tail: nat,
      bufIdx: map<int, nat>, s: Slot)
    requires RingOk(q, popped, capacity, slots, valid, head, tail, bufIdx)
    ensures (head + 1) % capacity == tail <==> |q| == capacity - 1
    ensures |q| < capacity - 1 && (s.max > 0 ==> s.client !in bufIdx) ==>
      RingOk(q + [s], popped, capacity, slots[head := s], valid[head := true], (head + 1) % capacity, tail,
             if s.max > 0 then bufIdx[s.client := head] else bufIdx)
  {
    FullIff(popped, |q|, capacity);
    if |q| < capacity - 1 && (s.max > 0 ==> s.client !in bufIdx) {
      StoreWindow(q, popped, capacity, slots, valid, s);
      StoreClients(q, popped, capacity, bufIdx, s);
    }
  }

  lemma DropKeeps(q: seq<Slot>, popped: nat, capacity: nat, slots: seq<Slot>, valid: seq<bool>, head: nat, tail: nat,
      bufIdx: map<int, nat>)
    requires RingOk(q, popped, capacity, slots, valid, head, tail, bufIdx)
    ensures tail == head <==> q == []
    ensures q != [] ==> (
      && slots[tail] == q[0] && valid[tail]
      && RingOk(q[1..], popped + 1, capacity, slots[tail := EMPTY], valid[tail := false], head, (tail + 1) % capacity,
                if q[0].max > 0 then bufIdx - {q[0].client} else bufIdx))
  {
    FullIff(popped, |q|, capacity);
    if q != [] {
      DropWindow(q, popped, capacity, slots, valid);
      DropClients(q, popped, capacity, bufIdx);
      NextMod(popped, capacity);
    }
  }

  // ---------------------------------------------------------------- the class

  datatype Stat = Done | Full | Exit

  class PktRingBuffer {
    const capacity: nat
    var slots: seq<Slot>
    var valid: seq<bool>
    var head: nat
    var tail: nat
    /** `clientlogicalidx_bufidx_map` */
    var bufIdx: map<int, nat>
    /** The packets queued, oldest first, and how many have left. */
    ghost var queue: seq<Slot>
    ghost var popped: nat

    ghost predicate Valid()
      reads this
    {
      RingOk(queue, popped, capacity, slots, valid, head, tail, bufIdx)
    }

    /** `init` (lines 10-28). */
    constructor (cap: nat)
      requires cap > 0
      ensures Valid() && capacity == cap && queue == []
    {
      capacity := cap;
      slots, valid := seq(cap, _ => EMPTY), seq(cap, _ => false);
      head, tail, bufIdx, queue, popped := 0, 0, map[], [], 0;
    }

    /** `push` (lines 30-59): a small packet. */
    method Push(optype: PacketType, key: int, buf: Bytes) returns (r: Stat)
      requires Valid()
      modifies this
      ensures Valid() && r == if |old(queue)| == capacity - 1 then Full else if |buf| > MAX_LARGE_BUFSIZE then Exit
        else Done
      ensures queue == if r == Done then old(queue) + [SmallSlot(optype, key, buf)] else old(queue)
    {
      var s := SmallSlot(optype, key, buf);
      StoreKeeps(queue, popped, capacity, slots, valid, head, tail, bufIdx, s);
      if (head + 1) % capacity == tail { return Full; }
      if |buf| > MAX_LARGE_BUFSIZE { return Exit; }
      slots, valid, head, queue := slots[head := s], valid[head := true], (head + 1) % capacity, queue + [s];
      return Done;
    }

    /** `is_clientlogicalidx_exist` (lines 61-72); its checks never fail. */
    method HasClient(client: int) returns (found: bool)
      requires Valid()
      ensures found <==> Find(queue, client) < |queue|
      ensures found ==>
        client in bufIdx && bufIdx[client] < |slots| && valid[bufIdx[client]] && slots[bufIdx[client]].max > 0
    {
      found := client in bufIdx;
    }

    /** `push_large` (lines 74-108). */
    method PushLarge(optype: PacketType, key: int, hdr: Bytes, off: nat, body: Bytes, cur: int, max: int, client: int,
        fragseq: int) returns (r: Stat)
      requires Valid()
      modifies this
      ensures Valid()
      ensures r == if max <= 0 then Exit else if |old(queue)| == capacity - 1 then Full
                   else if off + |body| > MAX_LARGE_BUFSIZE || |hdr| > MAX_LARGE_BUFSIZE ||
                       Find(old(queue), client) < |old(queue)| then Exit else Done
      ensures queue == if r == Done
        then old(queue) + [LargeSlot(optype, key, hdr, off, body, cur, max, client, fragseq)] else old(queue)
    {
      if max <= 0 { return Exit; }
      var s := LargeSlot(optype, key, hdr, off, body, cur, max, client, fragseq);
      StoreKeeps(queue, popped, capacity, slots, valid, head, tail, bufIdx, s);
      if (head + 1) % capacity == tail { return Full; }
      if off + |body| > MAX_LARGE_BUFSIZE || |hdr| > MAX_LARGE_BUFSIZE || client in bufIdx { return Exit; }
      slots, valid, bufIdx, head, queue := slots[head := s], valid[head := true], bufIdx[client := head],
          (head + 1) % capacity, queue + [s];
      return Done;
    }

    /** `update_large` (lines 110-149): one more fragment for a packet already queued. */
    method UpdateLarge(optype: PacketType, key: int, hdr: Bytes, off: nat, body: Bytes, client: int, fragseq: int,
        isFrag0: bool) returns (r: Stat)
      requires Valid()
      modifies this`slots, this`queue
      ensures Valid()
      ensures var j := Find(old(queue), client);
        && r == (if j < |old(queue)| && MayUpdate(old(queue)[j], optype, key, fragseq, hdr, off, body) then Done
            else Exit)
        && queue == if r == Done then old(queue)[j := Updated(old(queue)[j], hdr, off, body, fragseq, isFrag0)]
            else old(queue)
    {
      if client !in bufIdx { return Exit; }
      var b := bufIdx[client];
      ghost var j := Find(queue, client);
      if !MayUpdate(slots[b], optype, key, fragseq, hdr, off, body) { return Exit; }
      var s := Updated(slots[b], hdr, off, body, fragseq, isFrag0);
      ReplaceKeeps(queue, popped, capacity, slots, valid, bufIdx, j, s);
      slots, queue := slots[b := s], queue[j := s];
      return Done;
    }

    /** `pop` (lines 151-198). */
    method Pop() returns (found: bool, s: Slot)
      requires Valid()
      modifies this
      ensures Valid() && (found <==> old(queue) != [])
      ensures if found then s == old(queue)[0] && queue == old(queue)[1..] else queue == old(queue)
    {
      DropKeeps(queue, popped, capacity, slots, valid, head, tail, bufIdx);
      if tail == head { return false, EMPTY; }
      s := slots[tail];
      slots, valid, bufIdx, tail, queue, popped :=
        slots[tail := EMPTY], valid[tail := false], if s.max > 0 then bufIdx - {s.client}
            else bufIdx, (tail + 1) % capacity, queue[1..], popped + 1;
      found := true;
    }
  }

  /** The checks of `update_large` (lines 124-138) and the buffer's limit. */
  predicate MayUpdate(s: Slot, optype: PacketType, key: int, fragseq: int, hdr: Bytes, off: nat, body: Bytes) {
    SameType(s.optype, optype) && s.key == key && fragseq >= s.fragseq && off + |body| <= MAX_LARGE_BUFSIZE &&
        |hdr| <= MAX_LARGE_BUFSIZE
  }
}
