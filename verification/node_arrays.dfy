/** The in-place array work inside one node of the map (distcache/concurrent_map_impl.h:224-229,
    253-285, 351-354, 401-455, 569-684), proved against the sequence functions of `TreeNodes`. */
module NodeArrays {
  import opened TreeNodes

  /** `std::copy_backward(a + b, a + e, a + e + 1)`. */
  method CopyBackward(a: array<int>, b: nat, e: nat)
    requires b <= e < a.Length
    modifies a
    ensures a[..b] == old(a[..b]) && a[b + 1..e + 1] == old(a[b..e]) && a[e + 1..] == old(a[e + 1..])
  {
    var i := e;
    while i > b
      invariant b <= i <= e
      invariant a[..i] == old(a[..i])
      invariant a[i + 1..e + 1] == old(a[i..e])
      invariant a[e + 1..] == old(a[e + 1..])
    {
      i := i - 1;
      a[i + 1] := a[i];
      assert a[i + 1..e + 1] == [a[i + 1]] + a[i + 2..e + 1];
      assert old(a[i..e]) == [old(a[i])] + old(a[i + 1..e]);
    }
  }

  /** `std::copy(src + b, src + e, dst + d)`. */
  method Copy(src: array<int>, b: nat, e: nat, dst: array<int>, d: nat)
    requires b <= e <= src.Length && d + (e - b) <= dst.Length && src != dst
    modifies dst
    ensures dst[..d] == old(dst[..d]) && dst[d..d + (e - b)] == src[b..e] &&
      dst[d + (e - b)..] == old(dst[d + (e - b)..])
  {
    var i := 0;
    while i < e - b
      invariant 0 <= i <= e - b
      invariant dst[..d] == old(dst[..d])
      invariant dst[d..d + i] == src[b..b + i]
      invariant dst[d + i..] == old(dst[d + i..])
    {
      dst[d + i] := src[b + i];
      i := i + 1;
      assert dst[d..d + i] == dst[d..d + i - 1] + [dst[d + i - 1]];
      assert src[b..b + i] == src[b..b + i - 1] + [src[b + i - 1]];
    }
  }

  /** `find_first_larger_than_or_equal_to`, on the live keys. */
  method FindFirstGeq(keys: array<int>, keyN: nat, key: int) returns (mid: nat)
    requires keyN <= keys.Length <= CAPACITY && Sorted(keys[..keyN])
    ensures IsFirstGeq(keys[..keyN], key, mid)
  {
    var begin, end := 0, keyN;
    mid := (begin + end) / 2;
    while end > begin
      invariant 0 <= begin <= end <= keyN && mid == (begin + end) / 2
      invariant forall i :: 0 <= i < begin ==> keys[..keyN][i] < key
      invariant forall i :: end <= i < keyN ==> keys[..keyN][i] >= key
    {
      assert keys[mid] == keys[..keyN][mid];
      if keys[mid] >= key {
        end := mid;
      } else {
        begin := mid + 1;
      }
      mid := (begin + end) / 2;
    }
  }

  /** `find_first_larger_than`, on the live keys. */
  method FindFirstGt(keys: array<int>, keyN: nat, key: int) returns (mid: nat)
    requires keyN <= keys.Length <= CAPACITY && Sorted(keys[..keyN])
    ensures IsFirstGt(keys[..keyN], key, mid)
  {
    var begin, end := 0, keyN;
    mid := (begin + end) / 2;
    while end > begin
      invariant 0 <= begin <= end <= keyN && mid == (begin + end) / 2
      invariant forall i :: 0 <= i < begin ==> keys[..keyN][i] <= key
      invariant forall i :: end <= i < keyN ==> keys[..keyN][i] > key
    {
      assert keys[mid] == keys[..keyN][mid];
      if keys[mid] > key {
        end := mid;
      } else {
        begin := mid + 1;
      }
      mid := (begin + end) / 2;
    }
  }

  /** Make room at `slot` and store `x`: lines 225-228, and 351-354 for an inner node. */
  method InsertSlot(a: array<int>, n: nat, slot: nat, x: int)
    requires slot <= n < a.Length
    modifies a
    ensures a[..n + 1] == InsertAt(old(a[..n]), slot, x)
  {
    CopyBackward(a, slot, n);
    assert a[slot + 1..n + 1] == old(a[slot..n]);
    a[slot] := x;
    assert a[..n + 1] == a[..slot] + [a[slot]] + a[slot + 1..n + 1];
    assert old(a[..n])[slot..] == old(a[slot..n]) && old(a[..n])[..slot] == old(a[..slot]);
  }

  /** Copy `a[b..e]` to the start of `sib` with `x` at `slot`: the two copies and the store that both
      kinds of split make when the new entry goes to the sibling. */
  method Splice(a: array<int>, b: nat, slot: nat, e: nat, x: int, sib: array<int>)
    requires a != sib && b <= slot <= e <= a.Length && e - b + 1 <= sib.Length
    modifies sib
    ensures sib[..e - b + 1] == a[b..slot] + [x] + a[slot..e]
  {
    Copy(a, b, slot, sib, 0);
    assert sib[..slot - b] == a[b..slot];
    Copy(a, slot, e, sib, slot - b + 1);
    sib[slot - b] := x;
    assert sib[..slot - b] == a[b..slot];
    assert sib[..e - b + 1] == sib[..slot - b] + [sib[slot - b]] + sib[slot - b + 1..e - b + 1];
  }

  /** Cutting at or before the new entry. */
  lemma CutBefore(s: seq<int>, slot: nat, x: int, m: nat)
    requires m <= slot <= |s|
    ensures InsertAt(s, slot, x)[..m] == s[..m]
    ensures InsertAt(s, slot, x)[m..] == s[m..slot] + [x] + s[slot..]
  {
  }

  /** Cutting behind the new entry. */
  lemma CutAfter(s: seq<int>, slot: nat, x: int, m: nat)
    requires slot <= m <= |s|
    ensures InsertAt(s, slot, x)[..m + 1] == InsertAt(s[..m], slot, x)
    ensures InsertAt(s, slot, x)[m + 1..] == s[m..]
  {
  }

  /** One of the two arrays of a full leaf through lines 253-285: after the split the left array holds
      the first `LeafCut` entries of the widened leaf and the right array the others. */
  method SplitLeafArray(a: array<int>, n: nat, slot: nat, x: int, sib: array<int>) returns (left: nat, right: nat)
    requires a != sib && n == a.Length == sib.Length && 2 <= n && slot <= n
    modifies a, sib
    ensures left == LeafCut(n, slot) && left + right == n + 1 && left <= n && right <= n
    ensures a[..left] == InsertAt(old(a[..]), slot, x)[..left]
    ensures sib[..right] == InsertAt(old(a[..]), slot, x)[left..]
  {
    ghost var s := a[..];
    var mid := n / 2;
    if slot >= mid && mid < n - mid {
      mid := mid + 1;
    }
    if slot == n {
      mid := n;
    }
    if slot >= mid {
      Splice(a, mid, slot, n, x, sib);
      left, right := mid, n - mid + 1;
      CutBefore(s, slot, x, mid);
      assert s[..mid] == a[..mid] && s[mid..slot] == a[mid..slot] && s[slot..] == a[slot..n];
    } else {
      Copy(a, mid, n, sib, 0);
      assert sib[..n - mid] == s[mid..];
      assert a[..mid] == s[..mid];
      InsertSlot(a, mid, slot, x);
      left, right := mid + 1, n - mid;
      CutAfter(s, slot, x, mid);
    }
  }

  /** Where both arrays of a full inner node are cut (lines 401-408). */
  method InnerMid(n: nat, slot: nat) returns (mid: nat)
    requires 3 <= n && slot <= n
    ensures 0 < mid < n && InnerCut(n, slot) == if slot >= mid then mid else mid + 1
  {
    mid := n / 2;
    if slot < mid && mid > n - (mid + 1) {
      mid := mid - 1;
    }
    if slot == n {
      mid := n - 1;
    }
  }

  /** The keys of a full inner node through lines 410-455: `up` is the key that moves to the next level. */
  method SplitInnerKeys(a: array<int>, n: nat, slot: nat, x: int, sib: array<int>)
      returns (left: nat, right: nat, up: int)
    requires a != sib && n == a.Length == sib.Length && 3 <= n && slot <= n
    modifies a, sib
    ensures left == InnerCut(n, slot) && left + right == n && right <= n && left <= n
    ensures a[..left] == InsertAt(old(a[..]), slot, x)[..left]
    ensures up == InsertAt(old(a[..]), slot, x)[left]
    ensures sib[..right] == InsertAt(old(a[..]), slot, x)[left + 1..]
  {
    ghost var s := a[..];
    var mid := InnerMid(n, slot);
    if slot >= mid {
      left, right := mid, n - mid;
      CutBefore(s, slot, x, mid);
      assert s[..mid] == a[..mid];
      if slot == mid {
        Copy(a, mid, n, sib, 0);
        up := x;
        CutAfter(s, slot, x, mid);
        assert s[mid..] == a[mid..n];
      } else {
        Splice(a, mid + 1, slot, n, x, sib);
        up := a[mid];
        CutBefore(s, slot, x, mid + 1);
        assert s[mid + 1..slot] == a[mid + 1..slot] && s[slot..] == a[slot..n];
      }
    } else {
      Copy(a, mid + 1, n, sib, 0);
      assert sib[..n - mid - 1] == s[mid + 1..];
      up := a[mid];
      assert a[..mid] == s[..mid];
      InsertSlot(a, mid, slot, x);
      left, right := mid + 1, n - mid - 1;
      CutAfter(s, slot, x, mid);
      CutAfter(s, slot, x, mid + 1);
    }
  }

  /** The children of a full inner node when the new child goes to the sibling (lines 413-430). */
  method KidsRight(c: array<int>, n: nat, slot: nat, mid: nat, kid: Ptr, sib: array<int>)
    requires c != sib && n + 1 == c.Length == sib.Length && 0 < mid <= slot <= n
    modifies sib
    ensures sib[..n - mid + 1] == InsertAt(c[..], slot + 1, kid)[mid + 1..]
  {
    Splice(c, mid + 1, slot + 1, n + 1, kid, sib);
    CutBefore(c[..], slot + 1, kid, mid + 1);
    assert c[..][mid + 1..slot + 1] == c[mid + 1..slot + 1] && c[..][slot + 1..] == c[slot + 1..n + 1];
  }

  /** The children of a full inner node when the new child stays (lines 440-450). */
  method KidsLeft(c: array<int>, n: nat, slot: nat, mid: nat, kid: Ptr, sib: array<int>)
    requires c != sib && n + 1 == c.Length == sib.Length && slot < mid < n
    modifies c, sib
    ensures c[..mid + 2] == InsertAt(old(c[..]), slot + 1, kid)[..mid + 2]
    ensures sib[..n - mid] == InsertAt(old(c[..]), slot + 1, kid)[mid + 2..]
  {
    ghost var s := c[..];
    CutAfter(s, slot + 1, kid, mid + 1);
    Copy(c, mid + 1, n + 1, sib, 0);
    assert sib[..n - mid] == s[mid + 1..];
    assert c[..mid + 1] == s[..mid + 1];
    InsertSlot(c, mid + 1, slot + 1, kid);
  }

  /** The children of a full inner node through the same lines. */
  method SplitInnerKids(c: array<int>, n: nat, slot: nat, kid: Ptr, sib: array<int>) returns (left: nat)
    requires c != sib && n + 1 == c.Length == sib.Length && 3 <= n && slot <= n
    modifies c, sib
    ensures left == InnerCut(n, slot) && left <= n
    ensures c[..left + 1] == InsertAt(old(c[..]), slot + 1, kid)[..left + 1]
    ensures sib[..n - left + 1] == InsertAt(old(c[..]), slot + 1, kid)[left + 1..]
  {
    var mid := InnerMid(n, slot);
    if slot >= mid {
      KidsRight(c, n, slot, mid, kid, sib);
      left := mid;
      CutBefore(c[..], slot + 1, kid, mid + 1);
      assert c[..][..mid + 1] == c[..mid + 1];
    } else {
      KidsLeft(c, n, slot, mid, kid, sib);
      left := mid + 1;
    }
  }
}
