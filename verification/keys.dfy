/** 128-bit keys (common/key.c with LARGE_KEY): their order, the bytes handed to RocksDB, which compares
    keys byte by byte, and the bytes on the wire. */
module Keys {
  import opened Common

  const WORD32 := 0x1_0000_0000
  const RANKS := WORD32 * WORD32 * WORD32 * WORD32

  datatype Key = Key(lolo: int, lohi: int, hilo: int, hihi: int)

  ghost predicate IsKey(k: Key) {
    0 <= k.lolo < WORD32 && 0 <= k.lohi < WORD32 && 0 <= k.hilo < WORD32 && 0 <= k.hihi < WORD32
  }

  /** `operator<` (lines 255-263). */
  predicate Less(l: Key, r: Key) {
    || l.hihi < r.hihi || (l.hihi == r.hihi && l.hilo < r.hilo)
    || (l.hihi == r.hihi && l.hilo == r.hilo && l.lohi < r.lohi)
    || (l.hihi == r.hihi && l.hilo == r.hilo && l.lohi == r.lohi && l.lolo < r.lolo)
  }

  /** The key as one number. */
  function Rank(k: Key): int { ((k.hihi * WORD32 + k.hilo) * WORD32 + k.lohi) * WORD32 + k.lolo }

  function Unrank(n: int): Key {
    Key(n % WORD32, n / WORD32 % WORD32, n / WORD32 / WORD32 % WORD32, n / WORD32 / WORD32 / WORD32)
  }

  /** A word appended to a number: the number decides first. */
  lemma Appended(a: int, b: int, c: int, d: int)
    requires 0 <= b < WORD32 && 0 <= d < WORD32
    ensures a * WORD32 + b < c * WORD32 + d <==> a < c || (a == c && b < d)
    ensures a * WORD32 + b == c * WORD32 + d <==> a == c && b == d
  {
  }

  lemma Split(a: int, b: int)
    requires 0 <= b < WORD32
    ensures (a * WORD32 + b) / WORD32 == a && (a * WORD32 + b) % WORD32 == b
  {
  }

  lemma RankBack(k: Key)
    requires IsKey(k)
    ensures 0 <= Rank(k) < RANKS && Unrank(Rank(k)) == k
  {
    var k2 := k.hihi * WORD32 + k.hilo;
    Split(k.hihi, k.hilo);
    Split(k2, k.lohi);
    Split(k2 * WORD32 + k.lohi, k.lolo);
  }

  lemma RankOrder(l: Key, r: Key)
    requires IsKey(l) && IsKey(r)
    ensures Less(l, r) <==> Rank(l) < Rank(r)
    ensures 0 <= Rank(l) < RANKS && Unrank(Rank(l)) == l
  {
    var l2, r2 := l.hihi * WORD32 + l.hilo, r.hihi * WORD32 + r.hilo;
    Appended(l.hihi, l.hilo, r.hihi, r.hilo);
    Appended(l2, l.lohi, r2, r.lohi);
    Appended(l2 * WORD32 + l.lohi, l.lolo, r2 * WORD32 + r.lohi, r.lolo);
    RankBack(l);
  }

  lemma UnrankRank(n: int)
    requires 0 <= n < RANKS
    ensures IsKey(Unrank(n)) && Rank(Unrank(n)) == n
  {
  }

  // ---------------------------------------------------------------- bytes

  function Word(w: int): (b: Bytes)
    ensures |b| == 4
  {
    [w / 0x100_0000 % 256, w / 0x1_0000 % 256, w / 256 % 256, w % 256]
  }

  function FromWord(b: Bytes): int
    requires |b| == 4
  {
    ((b[0] * 256 + b[1]) * 256 + b[2]) * 256 + b[3]
  }

  lemma WordBack(w: int)
    requires 0 <= w < WORD32
    ensures FromWord(Word(w)) == w && AllBytes(Word(w))
  {
    Quotients(w);
  }

  /** A word byte by byte. */
  lemma Quotients(w: int)
    requires 0 <= w < WORD32
    ensures w / 0x1_0000 == w / 256 / 256 && w / 0x100_0000 == w / 256 / 256 / 256 == w / 0x100_0000 % 256
  {
    var b := w / 256 / 256;
    assert b * 0x1_0000 <= w < (b + 1) * 0x1_0000;
    var c := b / 256;
    assert c * 0x100_0000 <= w < (c + 1) * 0x100_0000;
  }

  ghost predicate AllBytes(b: Bytes) { forall i :: 0 <= i < |b| ==> 0 <= b[i] < 256 }

  /** `to_string_for_rocksdb` (lines 164-201): the highest word is split in halves, which changes nothing. */
  function ToBytes(k: Key): (b: Bytes)
    ensures |b| == 16
  {
    var hihilo, hihihi := k.hihi % 0x1_0000, k.hihi / 0x1_0000 % 0x1_0000;
    [hihihi / 256 % 256, hihihi % 256, hihilo / 256 % 256, hihilo % 256] + Word(k.hilo) + Word(k.lohi) + Word(k.lolo)
  }

  /** `from_string_for_rocksdb` (lines 203-221). */
  function FromBytes(b: Bytes): Key
    requires |b| == 16
  {
    var hihihi, hihilo := b[0] * 256 + b[1], b[2] * 256 + b[3];
    Key(FromWord(b[12..16]), FromWord(b[8..12]), FromWord(b[4..8]), hihihi * 0x1_0000 + hihilo)
  }

  /** How RocksDB compares: the first different byte decides. */
  predicate LexLess(a: Bytes, b: Bytes)
    requires |a| == |b|
  {
    a != [] && (a[0] < b[0] || (a[0] == b[0] && LexLess(a[1..], b[1..])))
  }

  /** Bytes as a number, most significant first. */
  ghost function Value(b: Bytes): int {
    if b == [] then 0 else Value(b[..|b| - 1]) * 256 + b[|b| - 1]
  }

  lemma {:induction false} LexLast(a: Bytes, b: Bytes, x: int, y: int)
    requires |a| == |b|
    ensures LexLess(a + [x], b + [y]) <==> LexLess(a, b) || (a == b && x < y)
  {
    if a == [] {
      assert a + [x] == [x] && b + [y] == [y];
    } else {
      assert (a + [x])[1..] == a[1..] + [x] && (b + [y])[1..] == b[1..] + [y];
      LexLast(a[1..], b[1..], x, y);
      assert a == [a[0]] + a[1..] && b == [b[0]] + b[1..];
    }
  }

  lemma {:induction false} LexIsValue(a: Bytes, b: Bytes)
    requires |a| == |b| && AllBytes(a) && AllBytes(b)
    ensures LexLess(a, b) <==> Value(a) < Value(b)
    ensures a == b <==> Value(a) == Value(b)
  {
    if a != [] {
      var n := |a| - 1;
      assert a == a[..n] + [a[n]] && b == b[..n] + [b[n]];
      LexIsValue(a[..n], b[..n]);
      LexLast(a[..n], b[..n], a[n], b[n]);
    }
  }

  lemma ValueSnoc(a: Bytes, x: int)
    ensures Value(a + [x]) == Value(a) * 256 + x
  {
    assert (a + [x])[..|a|] == a;
  }

  lemma ValueConcat(a: Bytes, w: int)
    requires 0 <= w < WORD32
    ensures Value(a + Word(w)) == Value(a) * WORD32 + w
  {
    var b := Word(w);
    ValueSnoc(a, b[0]);
    ValueSnoc(a + [b[0]], b[1]);
    ValueSnoc(a + [b[0]] + [b[1]], b[2]);
    ValueSnoc(a + [b[0]] + [b[1]] + [b[2]], b[3]);
    assert a + b == a + [b[0]] + [b[1]] + [b[2]] + [b[3]];
    WordBack(w);
  }

  /** RocksDB's byte order is the order of the keys, and the bytes decode back. */
  lemma {:induction false} BytesOrder(l: Key, r: Key)
    requires IsKey(l) && IsKey(r)
    ensures LexLess(ToBytes(l), ToBytes(r)) <==> Less(l, r)
    ensures FromBytes(ToBytes(l)) == l
  {
    ToBytesIs(l);
    ToBytesIs(r);
    LexIsValue(ToBytes(l), ToBytes(r));
    RankOrder(l, r);
  }

  /** Splitting a word in halves first gives the same bytes. */
  lemma Halves(w: int)
    requires 0 <= w < WORD32
    ensures var lo, hi := w % 0x1_0000, w / 0x1_0000 % 0x1_0000;
      [hi / 256 % 256, hi % 256, lo / 256 % 256, lo % 256] == Word(w)
  {
    WordBack(w);
    var b := Word(w);
    var lo, hi := b[2] * 256 + b[3], b[0] * 256 + b[1];
    HighLow(hi, lo, w);
    TwoBytes(b[0], b[1]);
    TwoBytes(b[2], b[3]);
  }

  lemma HighLow(hi: int, lo: int, w: int)
    requires 0 <= lo < 0x1_0000 && 0 <= hi < 0x1_0000 && w == hi * 0x1_0000 + lo
    ensures w % 0x1_0000 == lo && w / 0x1_0000 % 0x1_0000 == hi
  {
  }

  lemma TwoBytes(x: int, y: int)
    requires 0 <= x < 256 && 0 <= y < 256
    ensures (x * 256 + y) / 256 % 256 == x && (x * 256 + y) % 256 == y
  {
  }

  lemma ToBytesIs(k: Key)
    requires IsKey(k)
    ensures AllBytes(ToBytes(k)) && Value(ToBytes(k)) == Rank(k) && FromBytes(ToBytes(k)) == k
  {
    Halves(k.hihi);
    WordBack(k.hihi);
    WordBack(k.hilo);
    WordBack(k.lohi);
    WordBack(k.lolo);
    ToBytesValue(Word(k.hihi), k);
    var b := ToBytes(k);
    assert b[0..4] == Word(k.hihi) && b[4..8] == Word(k.hilo) && b[8..12] == Word(k.lohi) && b[12..16] == Word(k.lolo);
  }

  lemma ToBytesValue(h: Bytes, k: Key)
    requires IsKey(k) && h == Word(k.hihi)
    ensures Value(h + Word(k.hilo) + Word(k.lohi) + Word(k.lolo)) == Rank(k)
  {
    ValueConcat([], k.hihi);
    assert [] + h == h;
    ValueConcat(h, k.hilo);
    ValueConcat(h + Word(k.hilo), k.lohi);
    ValueConcat(h + Word(k.hilo) + Word(k.lohi), k.lolo);
  }

  /** `serialize` (lines 385-403): words from the lowest up, the highest in two halves, low half first. */
  function Serialize(k: Key): (b: Bytes)
    ensures |b| == 16
  {
    Word(k.lolo) + Word(k.lohi) + Word(k.hilo)
    + [k.hihi / 256 % 256, k.hihi % 256, k.hihi / 0x100_0000 % 256, k.hihi / 0x1_0000 % 256]
  }

  /** `deserialize` (lines 311-330). */
  function Deserialize(b: Bytes): Key
    requires |b| == 16
  {
    Key(FromWord(b[0..4]), FromWord(b[4..8]), FromWord(b[8..12]),
        (b[14] * 256 + b[15]) * 0x1_0000 + (b[12] * 256 + b[13]))
  }

  lemma WordAt(w: int)
    requires 0 <= w < WORD32
    ensures Long(Word(w), 0, w)
  {
    WordBack(w);
  }

  /** On the wire: words from the lowest up, highest byte first, and of the highest word the lower half first. */
  lemma WireLayout(k: Key)
    requires IsKey(k)
    ensures var b := Serialize(k);
      && |b| == 16 && Long(b, 0, k.lolo) && Long(b, 4, k.lohi) && Long(b, 8, k.hilo)
      && Short(b, 12, k.hihi % 0x1_0000) && Short(b, 14, k.hihi / 0x1_0000)
  {
    WordAt(k.lolo);
    WordAt(k.lohi);
    WordAt(k.hilo);
    HalvesAt(k.hihi);
  }

  lemma HalvesAt(h: int)
    requires 0 <= h < WORD32
    ensures var b := [h / 256 % 256, h % 256, h / 0x100_0000 % 256, h / 0x1_0000 % 256];
      Short(b, 0, h % 0x1_0000) && Short(b, 2, h / 0x1_0000)
  {
    Quotients(h);
    assert h == h / 0x1_0000 * 0x1_0000 + h % 0x1_0000;
  }

  lemma SerializeBack(k: Key)
    requires IsKey(k)
    ensures Deserialize(Serialize(k)) == k
  {
    var b := Serialize(k);
    assert b[0..4] == Word(k.lolo) && b[4..8] == Word(k.lohi) && b[8..12] == Word(k.hilo);
    WordBack(k.lolo);
    WordBack(k.lohi);
    WordBack(k.hilo);
    WordBack(k.hihi);
  }
}
