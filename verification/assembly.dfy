/** Putting a body together from its parts, in any order, in a growing buffer behind a header. The parts are
    given by the points where the body is cut. */
module Assembly {
  import opened Common
  import opened DynamicArrays

  /** The points at which a body of `total` bytes is cut: from 0 to `total`, never backwards. */
  ghost predicate CutsOk(cuts: seq<nat>, total: nat) {
    |cuts| > 1 && cuts[0] == 0 && cuts[|cuts| - 1] == total && forall i :: 0 <= i < |cuts| - 1 ==> CutOk(cuts, i, total)
  }

  ghost predicate CutOk(cuts: seq<nat>, i: nat, total: nat) {
    i + 1 < |cuts| && cuts[i] <= cuts[i + 1] <= total
  }

  /** Bytes `lo..hi` of the body are in the buffer, `h` further on. */
  ghost predicate SameBytes(buf: Bytes, h: nat, body: Bytes, lo: nat, hi: nat) {
    lo <= hi <= |body| && h + hi <= |buf| && buf[h + lo..h + hi] == body[lo..hi]
  }

  /** Part `i` of the body is in place. */
  ghost predicate Placed(buf: Bytes, h: nat, body: Bytes, cuts: seq<nat>, i: nat) {
    i + 1 < |cuts| && SameBytes(buf, h, body, cuts[i], cuts[i + 1])
  }

  /** A buffer that is being filled with a body, behind a header of `h` bytes. */
  datatype Filled = Filled(buf: Bytes, h: nat, body: Bytes, cuts: seq<nat>, got: set<nat>)

  /** The parts in `got` are in place. */
  ghost predicate Assembling(x: Filled) {
    match x
    case Filled(buf, h, body, cuts, got) =>
      CutsOk(cuts, |body|) && h <= |buf| && forall i :: i in got ==> Placed(buf, h, body, cuts, i)
  }

  /** They are in place behind the header `hdr`. */
  ghost predicate Holding(x: Filled, hdr: Bytes) {
    match x
    case Filled(buf, h, _, _, _) => Assembling(x) && buf[..h] == hdr
  }

  // ---------------------------------------------------------------- one part more

  lemma SplicedPart(buf: Bytes, h: nat, body: Bytes, lo: nat, hi: nat)
    requires lo <= hi <= |body|
    ensures SameBytes(Spliced(buf, h + lo, body[lo..hi]), h, body, lo, hi)
  {
    assert Spliced(buf, h + lo, body[lo..hi])[h + lo..h + hi] == body[lo..hi];
  }

  /** Writing bytes of the body leaves the bytes of the body that are there. */
  lemma SplicedOver(buf: Bytes, h: nat, body: Bytes, lo: nat, hi: nat, lo': nat, hi': nat)
    requires lo <= hi <= |body| && SameBytes(buf, h, body, lo', hi')
    ensures SameBytes(Spliced(buf, h + lo, body[lo..hi]), h, body, lo', hi')
  {
    var buf' := Spliced(buf, h + lo, body[lo..hi]);
    forall k | 0 <= k < hi' - lo' ensures buf'[h + lo'..h + hi'][k] == body[lo'..hi'][k] {
      assert buf[h + lo'..h + hi'][k] == body[lo'..hi'][k];
      if lo <= lo' + k < hi { assert body[lo..hi][lo' + k - lo] == body[lo' + k]; }
    }
  }

  lemma PlacePart(buf: Bytes, h: nat, body: Bytes, cuts: seq<nat>, got: set<nat>, i: nat)
    requires Assembling(Filled(buf, h, body, cuts, got)) && CutOk(cuts, i, |body|)
    ensures Assembling(Filled(Spliced(buf, h + cuts[i], body[cuts[i]..cuts[i + 1]]), h, body, cuts, got + {i}))
  {
    var buf' := Spliced(buf, h + cuts[i], body[cuts[i]..cuts[i + 1]]);
    SplicedPart(buf, h, body, cuts[i], cuts[i + 1]);
    forall j | j in got + {i} ensures Placed(buf', h, body, cuts, j) {
      if j != i {
        assert Placed(buf, h, body, cuts, j);
        SplicedOver(buf, h, body, cuts[i], cuts[i + 1], cuts[j], cuts[j + 1]);
      }
    }
  }

  lemma HeaderOver(buf: Bytes, h: nat, body: Bytes, lo: nat, hi: nat, hdr: Bytes)
    requires SameBytes(buf, h, body, lo, hi) && |hdr| == h
    ensures SameBytes(Spliced(buf, 0, hdr), h, body, lo, hi)
  {
    assert Spliced(buf, 0, hdr)[h + lo..h + hi] == buf[h + lo..h + hi];
  }

  lemma PlaceHeader(buf: Bytes, h: nat, body: Bytes, cuts: seq<nat>, got: set<nat>, hdr: Bytes)
    requires Assembling(Filled(buf, h, body, cuts, got)) && |hdr| == h
    ensures Holding(Filled(Spliced(buf, 0, hdr), h, body, cuts, got), hdr)
  {
    forall j | j in got ensures Placed(Spliced(buf, 0, hdr), h, body, cuts, j) {
      assert Placed(buf, h, body, cuts, j);
      HeaderOver(buf, h, body, cuts[j], cuts[j + 1], hdr);
    }
  }

  lemma PrefixKept(buf: Bytes, off: nat, part: Bytes, h: nat)
    requires h <= off && h <= |buf|
    ensures |Spliced(buf, off, part)| >= h && Spliced(buf, off, part)[..h] == buf[..h]
  {
  }

  /** The buffer after a part was copied, with or without the header that came with it. */
  function Written(buf: Bytes, off: nat, part: Bytes, hdr: Bytes, withHdr: bool): Bytes {
    if withHdr then Spliced(Spliced(buf, off, part), 0, hdr) else Spliced(buf, off, part)
  }

  lemma WrittenKeeps(buf: Bytes, h: nat, body: Bytes, cuts: seq<nat>, got: set<nat>, i: nat, off: nat, part: Bytes,
      hdr: Bytes, withHdr: bool)
    requires Assembling(Filled(buf, h, body, cuts, got)) && CutOk(cuts, i, |body|) && part == body[cuts[i]..cuts[i + 1]]
    requires off == h + cuts[i] && |hdr| == h
    ensures |buf| >= h &&
      Holding(Filled(Written(buf, off, part, hdr, withHdr), h, body, cuts, got + {i}), if withHdr then hdr
      else buf[..h])
  {
    PlacePart(buf, h, body, cuts, got, i);
    PlaceHeader(Spliced(buf, off, part), h, body, cuts, got + {i}, hdr);
    PrefixKept(buf, off, part, h);
  }

  /** The buffer grows as far as the part reaches, and never shrinks. */
  lemma WrittenSize(buf: Bytes, off: nat, part: Bytes, hdr: Bytes, withHdr: bool)
    requires |hdr| <= |buf|
    ensures |Written(buf, off, part, hdr, withHdr)| == if off + |part| > |buf| then off + |part| else |buf|
  {
  }

  // ---------------------------------------------------------------- all parts

  /** As many different indices as there are parts: all of them. */
  lemma {:induction false} AllIndices(got: set<nat>, n: nat)
    requires |got| == n && forall i :: i in got ==> i < n
    ensures forall i: nat :: i < n ==> i in got
  {
    if n > 0 {
      if n - 1 in got {
        AllIndices(got - {n - 1}, n - 1);
      } else {
        TooMany(got, n - 1);
      }
    }
  }

  lemma {:induction false} TooMany(got: set<nat>, n: nat)
    requires forall i :: i in got ==> i < n
    ensures |got| <= n
  {
    if n > 0 { TooMany(got - {n - 1}, n - 1); } else { assert got == {}; }
  }

  /** Every byte of the body lies between two cuts. */
  lemma {:induction false} CutFor(cuts: seq<nat>, total: nat, k: nat, n: nat) returns (i: nat)
    requires CutsOk(cuts, total) && n < |cuts| && k < cuts[n]
    ensures i + 1 < |cuts| && cuts[i] <= k < cuts[i + 1]
  {
    if cuts[n - 1] <= k { return n - 1; }
    i := CutFor(cuts, total, k, n - 1);
  }

  lemma ByteAt(buf: Bytes, h: nat, body: Bytes, lo: nat, hi: nat, k: nat)
    requires SameBytes(buf, h, body, lo, hi) && lo <= k < hi
    ensures buf[h + k] == body[k]
  {
    assert buf[h + k] == buf[h + lo..h + hi][k - lo] == body[lo..hi][k - lo];
  }

  /** No more parts than there are; with all of them in place, the body. */
  lemma WholeBody(buf: Bytes, h: nat, body: Bytes, cuts: seq<nat>, got: set<nat>)
    requires Assembling(Filled(buf, h, body, cuts, got))
    ensures |got| < |cuts| && forall i :: i in got ==> i + 1 < |cuts|
    ensures |got| == |cuts| - 1 ==> 0 in got && |buf| >= h + |body| && buf[h..h + |body|] == body
  {
    forall i | i in got ensures i + 1 < |cuts| { assert Placed(buf, h, body, cuts, i); }
    TooMany(got, |cuts| - 1);
    if |got| == |cuts| - 1 {
      AllIndices(got, |cuts| - 1);
      assert Placed(buf, h, body, cuts, |cuts| - 2);
      forall k: nat | k < |body| ensures buf[h..h + |body|][k] == body[k] {
        var i := CutFor(cuts, |body|, k, |cuts| - 1);
        assert Placed(buf, h, body, cuts, i);
        ByteAt(buf, h, body, cuts[i], cuts[i + 1], k);
      }
    }
  }
}
