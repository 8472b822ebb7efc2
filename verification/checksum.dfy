/** The two Internet checksums (RFC 1071): `checksum` (common/socket_helper.c:12-39) adds 16-bit words into 32
    bits and folds; `cksum16` (common/crc32.c:35-77) adds 64-bit words with end-around carry and folds twice.
    Words are read from memory on a little-endian host. */
module Checksums {
  import opened Arith
  import opened Common

  const M16 := 0x1_0000
  const M32 := 0x1_0000_0000
  const M64 := 0x1_0000_0000_0000_0000

  ghost predicate AllBytes(b: Bytes) { forall i :: 0 <= i < |b| ==> 0 <= b[i] < 256 }

  /** The sum of the 16-bit words; an odd last byte counts as a word. */
  ghost function Total(b: Bytes): int {
    if b == [] then 0 else if |b| == 1 then b[0] else b[0] + 256 * b[1] + Total(b[2..])
  }

  /** The one's-complement value of a sum: zero only for zero, otherwise 1 to 65535. */
  ghost function Canon(x: int): int { if x == 0 then 0 else 1 + (x - 1) % 65535 }

  /** Sums that fold to the same value. */
  ghost predicate Same(x: int, y: int) { x >= 0 && y >= 0 && (x == 0 <==> y == 0) && x % 65535 == y % 65535 }

  lemma ShiftMod(y: int, k: int)
    ensures (y + 65535 * k) % 65535 == y % 65535
  {
    var q, r := y / 65535, y % 65535;
    DivMod(y + 65535 * k, 65535, q + k, r);
  }

  lemma SameCanon(x: int, y: int)
    requires Same(x, y)
    ensures Canon(x) == Canon(y)
  {
    if x > 0 { PredMod(x); PredMod(y); }
  }

  lemma PredMod(x: int)
    requires x > 0
    ensures (x - 1) % 65535 == if x % 65535 == 0 then 65534 else x % 65535 - 1
  {
    var q, r := x / 65535, x % 65535;
    if r == 0 { DivMod(x - 1, 65535, q - 1, 65534); } else { DivMod(x - 1, 65535, q, r - 1); }
  }

  /** A value below 2^16 is its own canonical value. */
  lemma CanonSmall(x: int)
    requires 0 <= x < M16
    ensures Canon(x) == x
  {
  }

  // ---------------------------------------------------------------- checksum

  /** Adding the upper half to the lower keeps the value, in 32 and in 64 bits. */
  lemma FoldSame16(x: int)
    requires x >= 0
    ensures Same(x % M16 + x / M16, x)
  {
    ShiftMod(x % M16 + x / M16, x / M16);
  }

  lemma FoldSame32(x: int)
    requires x >= 0
    ensures Same(x % M32 + x / M32, x)
  {
    ShiftMod(x % M32 + x / M32, 65537 * (x / M32));
  }

  method Checksum(b: Bytes) returns (r: int)
    requires AllBytes(b)
    ensures r == 65535 - Canon(Total(b) % M32) && 0 <= r < M16
  {
    var sum, i := 0, 0;
    while |b| - i > 1
      invariant 0 <= i <= |b| && 0 <= sum < M32 && (sum + Total(b[i..])) % M32 == Total(b) % M32
    {
      assert b[i..][2..] == b[i + 2..];
      AddMod(sum, b[i] + 256 * b[i + 1], Total(b[i + 2..]));
      sum := (sum + (b[i] + 256 * b[i + 1])) % M32;
      i := i + 2;
    }
    if i < |b| {
      AddMod(sum, b[i], 0);
      sum := (sum + b[i]) % M32;
    }
    ghost var s := sum;
    while sum >= M16
      invariant 0 <= sum < M32 && Same(sum, s)
      decreases sum
    {
      FoldSame16(sum);
      sum := sum % M16 + sum / M16;
    }
    SameCanon(sum, s);
    CanonSmall(sum);
    return 65535 - sum;
  }

  lemma AddMod(x: int, y: int, z: int)
    ensures ((x + y) % M32 + z) % M32 == (x + y + z) % M32
  {
  }

  // ---------------------------------------------------------------- cksum16

  /** `sum += s; if (sum < s) sum++;` on words of `m` values. */
  function AddCarry(sum: int, s: int, m: int): int
    requires m > 0
  {
    var wrapped := (sum + s) % m;
    if wrapped < s then wrapped + 1 else wrapped
  }

  /** End-around carry: what overflows comes back as one. */
  lemma AddCarryIs(sum: int, s: int, m: int)
    requires 0 <= sum < m && 0 <= s < m
    ensures AddCarry(sum, s, m) == if sum + s >= m then sum + s - m + 1 else sum + s
    ensures 0 <= AddCarry(sum, s, m) < m
  {
    if sum + s >= m { DivMod(sum + s, m, 1, sum + s - m); } else { DivMod(sum + s, m, 0, sum + s); }
  }

  /** Adding a chunk `s` in 64 bits is adding the words `w` it consists of. */
  lemma AddChunk(sum: int, s: int, w: int, rest: int, k: int)
    requires 0 <= sum < M64 && 0 <= s < M64 && s == w + 65535 * k && w >= 0 && k >= 0 && (w == 0 ==> k == 0) &&
      rest >= 0
    ensures Same(AddCarry(sum, s, M64) + rest, sum + w + rest) && 0 <= AddCarry(sum, s, M64) < M64
  {
    AddCarryIs(sum, s, M64);
    ShiftMod(sum + w + rest, k);
    ShiftMod(AddCarry(sum, s, M64) + rest, 0x1_0001_0001_0001);
  }

  function Little16(b: Bytes, i: nat): int
    requires i + 2 <= |b|
  {
    b[i] + 256 * b[i + 1]
  }

  function Little32(b: Bytes, i: nat): int
    requires i + 4 <= |b|
  {
    Little16(b, i) + M16 * Little16(b, i + 2)
  }

  function Little64(b: Bytes, i: nat): int
    requires i + 8 <= |b|
  {
    Little32(b, i) + M32 * Little32(b, i + 4)
  }

  lemma {:induction false} TotalPositive(b: Bytes)
    requires AllBytes(b)
    ensures Total(b) >= 0
  {
    if |b| > 1 { TotalPositive(b[2..]); }
  }

  lemma TotalStep(b: Bytes, i: nat)
    requires i + 2 <= |b|
    ensures Total(b[i..]) == Little16(b, i) + Total(b[i + 2..])
  {
    assert b[i..][2..] == b[i + 2..];
  }

  lemma Step64(b: Bytes, i: nat, sum: int)
    requires AllBytes(b) && i + 8 <= |b| && 0 <= sum < M64
    ensures 0 <= Little64(b, i) < M64
    ensures 0 <= AddCarry(sum, Little64(b, i), M64) < M64
    ensures Same(AddCarry(sum, Little64(b, i), M64) + Total(b[i + 8..]), sum + Total(b[i..]))
  {
    TotalStep(b, i);
    TotalStep(b, i + 2);
    TotalStep(b, i + 4);
    TotalStep(b, i + 6);
    TotalPositive(b[i + 8..]);
    var w0, w1, w2, w3 := Little16(b, i), Little16(b, i + 2), Little16(b, i + 4), Little16(b, i + 6);
    AddChunk(sum, Little64(b, i), w0 + w1 + w2 + w3, Total(b[i + 8..]), w1 + 0x1_0001 * w2 + 0x1_0001_0001 * w3);
  }

  lemma Step32(b: Bytes, i: nat, sum: int)
    requires AllBytes(b) && i + 4 <= |b| && 0 <= sum < M64
    ensures 0 <= AddCarry(sum, Little32(b, i), M64) < M64
    ensures Same(AddCarry(sum, Little32(b, i), M64) + Total(b[i + 4..]), sum + Total(b[i..]))
  {
    TotalStep(b, i);
    TotalStep(b, i + 2);
    TotalPositive(b[i + 4..]);
    var w0, w1 := Little16(b, i), Little16(b, i + 2);
    AddChunk(sum, Little32(b, i), w0 + w1, Total(b[i + 4..]), w1);
  }

  lemma Step16(b: Bytes, i: nat, sum: int)
    requires AllBytes(b) && i + 2 <= |b| && 0 <= sum < M64
    ensures 0 <= AddCarry(sum, Little16(b, i), M64) < M64
    ensures Same(AddCarry(sum, Little16(b, i), M64) + Total(b[i + 2..]), sum + Total(b[i..]))
  {
    TotalStep(b, i);
    TotalPositive(b[i + 2..]);
    AddChunk(sum, Little16(b, i), Little16(b, i), Total(b[i + 2..]), 0);
  }

  /** Lines 41-47: 8 bytes at a time. */
  method SumWords(b: Bytes) returns (sum: int, i: nat)
    requires AllBytes(b)
    ensures i <= |b| < i + 8 && 0 <= sum < M64 && Same(sum + Total(b[i..]), Total(b))
  {
    TotalPositive(b);
    sum, i := 0, 0;
    assert b[0..] == b;
    while |b| - i >= 8
      invariant i <= |b| && 0 <= sum < M64 && Same(sum + Total(b[i..]), Total(b))
    {
      Step64(b, i, sum);
      sum, i := AddCarry(sum, Little64(b, i), M64), i + 8;
    }
  }

  /** Lines 50-61: the chunks of 4 and 2 bytes of the tail. */
  method SumHalves(b: Bytes, sum0: int, i0: nat) returns (sum: int, i: nat)
    requires AllBytes(b) && i0 <= |b| < i0 + 8 && 0 <= sum0 < M64
    ensures i <= |b| < i + 2 && |b| - i == (|b| - i0) % 2 && 0 <= sum < M64 &&
      Same(sum + Total(b[i..]), sum0 + Total(b[i0..]))
  {
    sum, i := sum0, i0;
    TotalPositive(b[i..]);
    if (|b| - i) / 4 % 2 == 1 {
      Step32(b, i, sum);
      sum, i := AddCarry(sum, Little32(b, i), M64), i + 4;
    }
    sum, i := SumHalf(b, sum, i);
  }

  method SumHalf(b: Bytes, sum0: int, i0: nat) returns (sum: int, i: nat)
    requires AllBytes(b) && i0 <= |b| < i0 + 4 && 0 <= sum0 < M64
    ensures i <= |b| < i + 2 && |b| - i == (|b| - i0) % 2 && 0 <= sum < M64 &&
      Same(sum + Total(b[i..]), sum0 + Total(b[i0..]))
  {
    sum, i := sum0, i0;
    TotalPositive(b[i..]);
    if (|b| - i) / 2 % 2 == 1 {
      Step16(b, i, sum);
      sum, i := AddCarry(sum, Little16(b, i), M64), i + 2;
    }
  }

  /** Lines 41-66: the sum of all chunks of 8, 4, 2 and 1 bytes. */
  method SumChunks(b: Bytes) returns (sum: int)
    requires AllBytes(b)
    ensures 0 <= sum < M64 && Same(sum, Total(b))
  {
    var i;
    sum, i := SumWords(b);
    sum, i := SumHalves(b, sum, i);
    if i < |b| {
      AddChunk(sum, b[i], b[i], 0, 0);
      sum := AddCarry(sum, b[i], M64);
    }
  }

  /** The bytes of `x`, lowest first, are those of `y`, highest first. */
  ghost predicate Swapped(x: int, y: int) { 0 <= x < M16 && 0 <= y < M16 && x % 256 == y / 256 && x / 256 == y % 256 }

  /** `ntohs`: the two bytes change places. */
  function Swap(y: int): (x: int)
    requires 0 <= y < M16
    ensures Swapped(x, y)
  {
    y % 256 * 256 + y / 256
  }

  lemma SwapBytes(hi: int, lo: int)
    requires 0 <= hi < 256 && 0 <= lo < 256
    ensures Swap(hi * 256 + lo) == lo * 256 + hi
  {
    DivMod(hi * 256 + lo, 256, hi, lo);
  }

  method Cksum16(b: Bytes) returns (r: int)
    requires AllBytes(b)
    ensures Swapped(r, 65535 - Canon(Total(b)))
  {
    var sum := SumChunks(b);
    var t1, t2 := sum % M32, sum / M32;
    AddCarryIs(t1, t2, M32);
    FoldSame32(sum);
    CarrySame32(t1, t2);
    t1 := AddCarry(t1, t2, M32);
    var t3, t4 := t1 % M16, t1 / M16;
    AddCarryIs(t3, t4, M16);
    FoldSame16(t1);
    CarrySame16(t3, t4);
    t3 := AddCarry(t3, t4, M16);
    SameCanon(t3, Total(b));
    CanonSmall(t3);
    return Swap(65535 - t3);
  }

  lemma CarrySame32(x: int, y: int)
    requires 0 <= x < M32 && 0 <= y < M32
    ensures Same(AddCarry(x, y, M32), x + y)
  {
    AddCarryIs(x, y, M32);
    ShiftMod(AddCarry(x, y, M32), 65537);
  }

  lemma CarrySame16(x: int, y: int)
    requires 0 <= x < M16 && 0 <= y < M16
    ensures Same(AddCarry(x, y, M16), x + y)
  {
    AddCarryIs(x, y, M16);
    ShiftMod(AddCarry(x, y, M16), 1);
  }

  // ---------------------------------------------------------------- when they agree

  /** The longest buffer whose word sum always fits 32 bits. */
  const LIMIT := 131074

  /** What the two compute, as proved above, agree up to the byte order. */
  ghost predicate Agree(b: Bytes) { BothSwapped(65535 - Canon(Total(b)), 65535 - Canon(Total(b) % M32)) }

  ghost predicate BothSwapped(y: int, z: int) { forall fast :: Swapped(fast, y) ==> Swapped(fast, z) }

  lemma {:induction false} TotalBound(b: Bytes)
    requires AllBytes(b)
    ensures 0 <= Total(b) <= 65535 * (|b| / 2) + 255 * (|b| % 2)
  {
    if |b| > 1 { TotalBound(b[2..]); }
  }

  /** `n` bytes of ones, then a one, then zeroes. */
  function Overflowing(n: nat, zeros: nat): (b: Bytes)
    requires n % 2 == 0
    ensures |b| == n + 1 + zeros && AllBytes(b)
  {
    if n == 0 then [1] + seq(zeros, _ => 0) else [255, 255] + Overflowing(n - 2, zeros)
  }

  lemma {:induction false} ZeroTotal(b: Bytes)
    requires forall i :: 0 <= i < |b| ==> b[i] == 0
    ensures Total(b) == 0
  {
    if |b| > 1 { ZeroTotal(b[2..]); }
  }

  lemma {:induction false} OverflowingTotal(n: nat, zeros: nat)
    requires n % 2 == 0
    ensures Total(Overflowing(n, zeros)) == 65535 * (n / 2) + 1
  {
    var b := Overflowing(n, zeros);
    if n == 0 {
      if zeros > 0 { ZeroTotal(b[2..]); }
    } else {
      assert b[2..] == Overflowing(n - 2, zeros);
      OverflowingTotal(n - 2, zeros);
    }
  }

  /** `cksum16` is the byte swap of `checksum` for every buffer of a length exactly up to the limit. */
  lemma {:induction false} AgreeIff(len: nat)
    ensures (forall b :: AllBytes(b) && |b| == len ==> Agree(b)) <==> len <= LIMIT
  {
    if len <= LIMIT {
      forall b | AllBytes(b) && |b| == len ensures Agree(b) { TotalBound(b); }
    } else {
      var b := Overflowing(LIMIT, len - LIMIT - 1);
      OverflowingTotal(LIMIT, len - LIMIT - 1);
      assert Total(b) == M32;
      assert Swapped(Swap(65535 - Canon(Total(b))), 65535 - Canon(Total(b)));
      assert !Agree(b);
    }
  }

  /** Both on one buffer. */
  method Compare(b: Bytes) returns (fast: int, simple: int)
    requires AllBytes(b)
    ensures |b| <= LIMIT ==> Swapped(fast, simple)
  {
    fast := Cksum16(b);
    simple := Checksum(b);
    if |b| <= LIMIT { TotalBound(b); }
  }

  // ---------------------------------------------------------------- what a checksum is for

  /** A last odd byte counts as if a zero followed. */
  lemma {:induction false} OddPadded(b: Bytes)
    requires |b| % 2 == 1
    ensures Total(b) == Total(b + [0])
  {
    if |b| == 1 {
      assert (b + [0])[2..] == [];
    } else {
      OddPadded(b[2..]);
      assert (b + [0])[2..] == b[2..] + [0];
    }
  }

  lemma {:induction false} TotalEnd(b: Bytes, lo: int, hi: int)
    requires |b| % 2 == 0
    ensures Total(b + [lo, hi]) == Total(b) + lo + 256 * hi
  {
    if b == [] {
      assert (b + [lo, hi])[2..] == [];
    } else {
      TotalEnd(b[2..], lo, hi);
      assert (b + [lo, hi])[2..] == b[2..] + [lo, hi];
    }
  }

  /** A packet that carries its checksum, stored as it lies in memory, sums to all ones. */
  lemma Verifies(b: Bytes, r: int)
    requires AllBytes(b) && |b| % 2 == 0 && r == 65535 - Canon(Total(b))
    ensures 0 <= r < M16 && Canon(Total(b + [r % 256, r / 256])) == 65535
  {
    TotalBound(b);
    TotalEnd(b, r % 256, r / 256);
    var t := Total(b);
    assert Total(b + [r % 256, r / 256]) == t + r;
    if t > 0 {
      PredMod(t);
      assert t + r == t - 1 - (t - 1) % 65535 + 65535;
      var q := (t - 1) / 65535;
      DivMod(t + r - 1, 65535, q, 65534);
    }
  }
}
