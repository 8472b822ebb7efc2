/** `DynamicArray` (common/dynamic_array.c): a growing byte buffer whose bytes beyond its size are zero. */
module DynamicArrays {
  import opened Common

  /** `src` written over `s` at `off`; a gap between the end of `s` and `off` reads as zeroes. */
  function Spliced(s: Bytes, off: nat, src: Bytes): (r: Bytes)
    ensures |r| == if off + |src| > |s| then off + |src| else |s|
    ensures forall i :: 0 <= i < |r| ==>
      r[i] == if off <= i < off + |src| then src[i - off] else if i < |s| then s[i] else 0
  {
    seq(if off + |src| > |s| then off + |src| else |s|,
        i requires 0 <= i => if off <= i < off + |src| then src[i - off] else if i < |s| then s[i] else 0)
  }

  /** Writing at the end of what is known extends it. */
  lemma SplicedPrefix(s: Bytes, off: nat, src: Bytes)
    requires off <= |s|
    ensures |Spliced(s, off, src)| >= off + |src| && Spliced(s, off, src)[..off + |src|] == s[..off] + src
  {
  }

  ghost function Doubled(n: nat, k: nat): nat { if k == 0 then n else 2 * Doubled(n, k - 1) }

  ghost predicate DoubledTo(was: nat, need: nat, max: nat, k: int, now: nat) {
    && k > 0 && Doubled(was, k - 1) < need <= Doubled(was, k)
    && now == if Doubled(was, k) > max then max else Doubled(was, k)
  }

  /** The least doubling that is enough, or the maximum. */
  ghost predicate Grown(was: nat, need: nat, max: nat, now: nat) { exists k :: DoubledTo(was, need, max, k, now) }

  class DynamicArray {
    const minCapability: nat
    const maxCapability: nat
    /** `_array`; its length is `_curcapability`. */
    var data: array<int>
    /** `_cursize` */
    var size: nat

    ghost predicate Valid()
      reads this, data
    {
      && minCapability < maxCapability && minCapability <= data.Length <= maxCapability && size <= data.Length
      && forall i :: size <= i < data.Length ==> data[i] == 0
    }

    ghost function Contents(): Bytes
      requires Valid()
      reads this, data
    {
      data[..size]
    }

    /** Lines 24-36; a maximum not above the minimum ends the program. */
    constructor (min: nat, max: nat)
      requires min < max
      ensures Valid() && fresh(data) && Contents() == [] && data.Length == minCapability == min && maxCapability == max
    {
      minCapability, maxCapability, size := min, max, 0;
      data := new int[min](_ => 0);
    }

    /** `dynamic_reserve` (lines 86-117): grow by doubling; `ok` is false where the source ends the program. */
    method Reserve(off: nat, len: nat) returns (ok: bool)
      requires Valid()
      modifies this`data
      ensures Valid() && Contents() == old(Contents()) && (data == old(data) || fresh(data)) && size == old(size)
      ensures ok <==> off + len <= maxCapability && (old(data.Length) > 0 || off + len == 0)
      ensures ok ==> off + len <= data.Length
      ensures !ok || off + len <= old(data.Length) ==> data == old(data)
      ensures data.Length >= old(data.Length)
      ensures data.Length == old(data.Length) || data.Length == maxCapability || data.Length < 2 * (off + len)
      ensures ok && off + len > old(data.Length) ==> Grown(old(data.Length), off + len, maxCapability, data.Length)
    {
      if off + len > maxCapability { return false; }
      if off + len > data.Length {
        if data.Length == 0 { return false; }
        var capability := 2 * data.Length;
        ghost var k := 1;
        while capability < off + len
          invariant data.Length < capability < 2 * (off + len)
          invariant k > 0 && capability == Doubled(data.Length, k)
        {
          capability := 2 * capability;
          k := k + 1;
        }
        if capability > maxCapability { capability := maxCapability; }
        assert DoubledTo(data.Length, off + len, maxCapability, k, capability);
        var grown := new int[capability](_ => 0);
        forall i | 0 <= i < data.Length { grown[i] := data[i]; }
        data := grown;
      }
      return true;
    }

    /** `dynamic_memcpy` (lines 46-53). */
    method Memcpy(off: nat, src: Bytes) returns (ok: bool)
      requires Valid()
      modifies this, data
      ensures Valid() && (data == old(data) || fresh(data)) && data.Length >= old(data.Length)
      ensures ok <==> off + |src| <= maxCapability && (old(data.Length) > 0 || off + |src| == 0)
      ensures Contents() == if ok then Spliced(old(Contents()), off, src) else old(Contents())
    {
      ok := Reserve(off, |src|);
      if !ok { return; }
      forall i | 0 <= i < |src| { data[off + i] := src[i]; }
      if off + |src| > size { size := off + |src|; }
    }

    /** `dynamic_memset` (lines 55-62). */
    method Memset(off: nat, value: int, len: nat) returns (ok: bool)
      requires Valid()
      modifies this, data
      ensures Valid() && (data == old(data) || fresh(data)) && data.Length >= old(data.Length)
      ensures ok <==> off + len <= maxCapability && (old(data.Length) > 0 || off + len == 0)
      ensures Contents() == if ok then Spliced(old(Contents()), off, seq(len, _ => value)) else old(Contents())
    {
      ok := Reserve(off, len);
      if !ok { return; }
      forall i | off <= i < off + len { data[i] := value; }
      if off + len > size { size := off + len; }
    }

    /** `clear` (lines 64-76). */
    method Clear()
      requires Valid()
      modifies this, data
      ensures Valid() && Contents() == [] && data.Length == minCapability && (data == old(data) || fresh(data))
    {
      if data.Length != minCapability { data := new int[minCapability]; }
      forall i | 0 <= i < data.Length { data[i] := 0; }
      size := 0;
    }
  }
}
