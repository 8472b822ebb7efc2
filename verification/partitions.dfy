/** Which server, leaf switch and spine switch a key belongs to (common/key.c:508-570). */
module Partitions {
  import opened Arith

  const HASHES32 := 0x1_0000_0000
  const HASHES16 := 0x1_0000

  /** `get_hashpartition_idx` and `get_spineswitch_idx` (lines 508-516, 530-538): `hash` is a CRC-32 for the one,
      a 16-bit checksum for the other. */
  function HashIdx(hash: nat, partitions: nat, servers: nat): nat
    requires 0 < servers <= partitions
  {
    Positive(partitions, servers);
    var idx := hash % partitions / (partitions / servers);
    if idx == servers then idx - 1 else idx
  }

  /** `get_rangepartition_idx` (lines 518-528): by the highest 16 bits of the key. */
  function RangeIdx(top: nat, servers: nat): nat
    requires 0 < servers <= HASHES16
  {
    Positive(HASHES16, servers);
    top / (HASHES16 / servers)
  }

  /** `get_leafswitch_idx` (lines 558-570), before the spine switches are counted in. */
  function LeafIdx(server: nat, servers: nat, leaves: nat): nat
    requires 0 < leaves <= servers
  {
    Positive(servers, leaves);
    server / (servers / leaves)
  }

  lemma Positive(p: nat, s: nat)
    requires 0 < s <= p
    ensures p / s > 0
  {
    assert p == p / s * s + p % s;
  }

  /** `x / b <= s` is `x < (s + 1) * b`. */
  lemma QuotientBound(x: nat, b: nat, s: int)
    requires b > 0 && s >= 0
    ensures x / b <= s <==> x < (s + 1) * b
  {
    var q, r := x / b, x % b;
    assert x == q * b + r;
    if q <= s { Scaled(q, s, b); assert (s + 1) * b == s * b + b; } else { Scaled(s + 1, q, b); }
  }

  lemma QuotientMonotone(x: nat, y: nat, b: nat)
    requires x <= y && b > 0
    ensures x / b <= y / b
  {
    assert y == y / b * b + y % b;
    assert (y / b + 1) * b == y / b * b + b;
    assert y / b >= 0 by { if y / b < 0 { Scaled(y / b, -1, b); } }
    QuotientBound(x, b, y / b);
  }

  /** Part `j` of numbers cut into parts of `b`. */
  predicate InPart(x: nat, b: nat, j: nat) { j * b <= x < j * b + b }

  lemma QuotientIff(x: nat, b: nat, j: nat)
    requires b > 0
    ensures x / b == j <==> InPart(x, b, j)
  {
    QuotientBound(x, b, j);
    assert (j + 1) * b == j * b + b;
    if j > 0 { QuotientBound(x, b, j - 1); }
  }

  /** A server has the part of its number, and the last one the part after it too. */
  lemma {:induction false} HashIdxAt(hash: nat, partitions: nat, servers: nat, j: nat)
    requires 0 < servers <= partitions && j < servers
    ensures HashIdx(hash, partitions, servers) == j <==>
      || InPart(hash % partitions, partitions / servers, j)
      || (j == servers - 1 && InPart(hash % partitions, partitions / servers, servers))
  {
    Positive(partitions, servers);
    QuotientIff(hash % partitions, partitions / servers, j);
    QuotientIff(hash % partitions, partitions / servers, servers);
  }

  lemma {:induction false} RangeIdxAt(top: nat, servers: nat, j: nat)
    requires 0 < servers <= HASHES16
    ensures RangeIdx(top, servers) == j <==> InPart(top, HASHES16 / servers, j)
  {
    Positive(HASHES16, servers);
    QuotientIff(top, HASHES16 / servers, j);
  }

  lemma {:induction false} LeafIdxAt(server: nat, servers: nat, leaves: nat, j: nat)
    requires 0 < leaves <= servers
    ensures LeafIdx(server, servers, leaves) == j <==> InPart(server, servers / leaves, j)
  {
    Positive(servers, leaves);
    QuotientIff(server, servers / leaves, j);
  }

  /** Larger keys belong to the same or a later server, and later servers to the same or a later leaf switch. */
  lemma {:induction false} RangeOrdered(top: nat, top': nat, servers: nat, leaves: nat)
    requires 0 < leaves <= servers <= HASHES16 && top <= top'
    ensures RangeIdx(top, servers) <= RangeIdx(top', servers)
    ensures LeafIdx(RangeIdx(top, servers), servers, leaves) <= LeafIdx(RangeIdx(top', servers), servers, leaves)
  {
    Positive(HASHES16, servers);
    Positive(servers, leaves);
    QuotientMonotone(top, top', HASHES16 / servers);
    QuotientMonotone(RangeIdx(top, servers), RangeIdx(top', servers), servers / leaves);
  }

  /** Every hash falls to one of the servers exactly when the remainder of the division does not exceed its
      quotient: the last, longer partition is the only one that is corrected. */
  lemma {:induction false} HashIdxIff(partitions: nat, servers: nat)
    requires 0 < servers <= partitions < HASHES32
    ensures (forall hash: nat :: hash < HASHES32 ==> HashIdx(hash, partitions, servers) < servers) <==>
      partitions % servers <= partitions / servers
  {
    Positive(partitions, servers);
    LastIdx(partitions, servers);
    if partitions % servers <= partitions / servers {
      forall hash: nat | hash < HASHES32 ensures HashIdx(hash, partitions, servers) < servers {
        QuotientMonotone(hash % partitions, partitions - 1, partitions / servers);
      }
    } else {
      DivMod(partitions - 1, partitions, 0, partitions - 1);
      assert HashIdx(partitions - 1, partitions, servers) >= servers;
    }
  }

  /** The quotient of the last hash, before the correction. */
  lemma LastIdx(partitions: nat, servers: nat)
    requires 0 < servers <= partitions && partitions / servers > 0
    ensures (partitions - 1) / (partitions / servers) <= servers <==> partitions % servers <= partitions / servers
  {
    var b := partitions / servers;
    assert partitions == b * servers + partitions % servers;
    assert (servers + 1) * b == servers * b + b && servers * b == b * servers;
    QuotientBound(partitions - 1, b, servers);
  }

  /** `n` numbers cut into `s` parts of `n / s` each: none is left over exactly when `s` divides `n`. */
  lemma {:induction false} EvenCut(n: nat, s: nat)
    requires 0 < s <= n
    ensures n / s > 0
    ensures (forall k: nat :: k < n ==> k / (n / s) < s) <==> n % s == 0
  {
    Positive(n, s);
    var b := n / s;
    assert n == b * s + n % s && s * b == b * s;
    QuotientBound(n - 1, b, s - 1);
    if n % s == 0 {
      forall k: nat | k < n ensures k / b < s { QuotientMonotone(k, n - 1, b); }
    } else {
      assert (n - 1) / b >= s;
    }
  }

  lemma {:induction false} RangeIdxIff(servers: nat)
    requires 0 < servers <= HASHES16
    ensures (forall top: nat :: top < HASHES16 ==> RangeIdx(top, servers) < servers) <==> HASHES16 % servers == 0
  {
    EvenCut(HASHES16, servers);
    if HASHES16 % servers != 0 {
      var k: nat :| k < HASHES16 && !(k / (HASHES16 / servers) < servers);
      assert RangeIdx(k, servers) >= servers;
    } else {
      forall top: nat | top < HASHES16 ensures RangeIdx(top, servers) < servers {
        assert top / (HASHES16 / servers) < servers;
      }
    }
  }

  lemma {:induction false} LeafIdxIff(servers: nat, leaves: nat)
    requires 0 < leaves <= servers
    ensures (forall server: nat :: server < servers ==> LeafIdx(server, servers, leaves) < leaves) <==>
      servers % leaves == 0
  {
    EvenCut(servers, leaves);
    if servers % leaves != 0 {
      var k: nat :| k < servers && !(k / (servers / leaves) < leaves);
      assert LeafIdx(k, servers, leaves) >= leaves;
    } else {
      forall server: nat | server < servers ensures LeafIdx(server, servers, leaves) < leaves {
        assert server / (servers / leaves) < leaves;
      }
    }
  }

  /** Dividing twice is dividing by the product. */
  lemma DivTwice(x: nat, a: nat, b: nat)
    requires a > 0 && b > 0
    ensures a * b > 0 && x / a / b == x / (a * b)
  {
    AtLeastOnce(a, b);
    var q, r := x / a, x % a;
    var q', r' := q / b, q % b;
    assert x == q * a + r && q == q' * b + r';
    assert q * a == q' * (a * b) + r' * a by {
      assert (q' * b + r') * a == q' * b * a + r' * a;
      assert q' * b * a == q' * (a * b);
    }
    Scaled(r', b - 1, a);
    assert (b - 1) * a == a * b - a;
    assert r' * a >= 0;
    DivMod(x, a * b, q', r' * a + r);
  }

  /** Cutting twice is cutting into the product. */
  lemma CutTwice(partitions: nat, servers: nat, racks: nat, a: nat, b: nat)
    requires racks > 0 && partitions == a * servers && servers == b * racks
    ensures partitions / racks == a * b && partitions % racks == 0
  {
    assert a * (b * racks) == a * b * racks;
    DivMod(partitions, racks, a * b, 0);
  }

  /** The warm-up client finds the spine switch in two steps, through the server
      (distcache/warmup_client.c:83), the reflector in one (distcache/reflector_impl.h:140). */
  lemma {:induction false} SpineTwoSteps(hash: nat, partitions: nat, servers: nat, racks: nat)
    requires 0 < racks <= servers <= partitions && partitions % servers == 0 && servers % racks == 0
    ensures servers / racks > 0
    ensures HashIdx(hash, partitions, servers) / (servers / racks) == HashIdx(hash, partitions, racks)
  {
    var a, b := partitions / servers, servers / racks;
    Positive(partitions, servers);
    Positive(servers, racks);
    CutTwice(partitions, servers, racks, a, b);
    DivTwice(hash % partitions, a, b);
    NoCorrection(hash, partitions, servers);
    NoCorrection(hash, partitions, racks);
  }

  /** With servers that divide the partitions the index needs no correction. */
  lemma NoCorrection(hash: nat, partitions: nat, servers: nat)
    requires 0 < servers <= partitions && partitions % servers == 0
    ensures partitions / servers > 0 &&
      HashIdx(hash, partitions, servers) == hash % partitions / (partitions / servers) < servers
  {
    EvenCut(partitions, servers);
    assert hash % partitions / (partitions / servers) < servers;
  }
}
