/** Scans over the leaf chain (distcache/concurrent_map_impl.h:96-128, 687-776), on a map that
    nobody changes meanwhile. */
module TreeScan {
  import opened TreeNodes
  import opened TreeOps

  /** All locks are free and every stored key is a key. */
  ghost predicate Quiet(t: Tree) {
    && Ok(t) && t.nodes[t.root].parent == NULL
    && (forall i :: 0 <= i < |t.nodes| ==> t.nodes[i].owner == FREE)
    && (forall k :: k in t.contents ==> 0 <= k < TOP)
  }

  ghost predicate Ascending(res: seq<(int, Val)>) {
    forall i, j :: 0 <= i < j < |res| ==> res[i].0 < res[j].0
  }

  ghost predicate Stored(m: map<int, Val>, res: seq<(int, Val)>) {
    forall i :: 0 <= i < |res| ==> res[i].0 in m && m[res[i].0] == res[i].1
  }

  ghost predicate Listed(res: seq<(int, Val)>, k: int) {
    exists i :: 0 <= i < |res| && res[i].0 == k
  }

  /** The first `n` entries of `m` from `begin` on, in order. */
  ghost predicate FirstEntries(m: map<int, Val>, begin: int, n: nat, res: seq<(int, Val)>) {
    && Ascending(res) && Stored(m, res) && |res| <= n
    && (forall i :: 0 <= i < |res| ==> begin <= res[i].0)
    && (forall k {:trigger Listed(res, k)} :: k in m && begin <= k && !Listed(res, k) ==>
          |res| == n && forall i :: 0 <= i < |res| ==> res[i].0 < k)
  }

  /** The entries of `m` within `[begin, end]`, in order. */
  ghost predicate EntriesWithin(m: map<int, Val>, begin: int, end: int, res: seq<(int, Val)>) {
    && Ascending(res) && Stored(m, res)
    && (forall i :: 0 <= i < |res| ==> begin <= res[i].0 <= end)
    && (forall k {:trigger Listed(res, k)} :: k in m && begin <= k <= end ==> Listed(res, k))
  }

  /** The description fits one list only. */
  lemma {:induction false} FirstEntriesUnique(m: map<int, Val>, begin: int, n: nat, a: seq<(int, Val)>,
      b: seq<(int, Val)>)
    requires FirstEntries(m, begin, n, a) && FirstEntries(m, begin, n, b)
    ensures a == b
  {
    FirstEntriesPrefix(m, begin, n, a, b, if |a| < |b| then |a| else |b|);
    assert |a| < |b| ==> !Listed(a, b[|a|].0);
    assert |b| < |a| ==> !Listed(b, a[|b|].0);
  }

  lemma {:induction false} FirstEntriesPrefix(m: map<int, Val>, begin: int, n: nat, a: seq<(int, Val)>,
      b: seq<(int, Val)>, i: nat)
    requires FirstEntries(m, begin, n, a) && FirstEntries(m, begin, n, b) && i <= |a| && i <= |b|
    ensures forall h :: 0 <= h < i ==> a[h] == b[h]
  {
    if i > 0 {
      FirstEntriesPrefix(m, begin, n, a, b, i - 1);
      NotSkipped(m, begin, n, a, b, i - 1);
      NotSkipped(m, begin, n, b, a, i - 1);
    }
  }

  lemma NotSkipped(m: map<int, Val>, begin: int, n: nat, a: seq<(int, Val)>, b: seq<(int, Val)>, j: nat)
    requires FirstEntries(m, begin, n, a) && FirstEntries(m, begin, n, b) && j < |a| && j < |b|
    requires forall h :: 0 <= h < j ==> a[h] == b[h]
    ensures b[j].0 <= a[j].0
  {
    if Listed(b, a[j].0) {
      var h :| 0 <= h < |b| && b[h].0 == a[j].0;
      assert h >= j;
    }
  }

  /** What a scan needs to know of a leaf. */
  ghost predicate LeafOk(t: Tree, i: Ptr)
    requires Live(t.nodes, i)
  {
    var n := t.nodes[i];
    && 0 <= n.low < n.high <= TOP && Sorted(n.keys) && Within(n.keys, n.low, n.high)
    && LeafMatches(n, t.contents) && NextExact(t.nodes, n)
  }

  ghost predicate Chained(t: Tree) {
    && (forall i :: 0 <= i < |t.nodes| && t.nodes[i].level == 0 ==> LeafOk(t, i))
    && (forall k :: k in t.contents ==> 0 <= k < TOP)
  }

  lemma QuietChained(t: Tree)
    requires Quiet(t)
    ensures Chained(t)
  {
    forall i | 0 <= i < |t.nodes| && t.nodes[i].level == 0 ensures LeafOk(t, i) {
      assert Shape(t.nodes[i]) && FreeOk(t, i) && ChainOk(t.nodes, t.nodes[i]) && MatchOk(t.nodes[i], t.contents);
    }
  }

  /** The entries of a leaf from `begin` on are those from its slot on. */
  lemma LeafTail(t: Tree, leaf: Ptr, begin: int, slot: nat)
    requires Live(t.nodes, leaf) && LeafOk(t, leaf) && t.nodes[leaf].low <= begin
    requires slot <= |t.nodes[leaf].keys| && IsFirstGeq(t.nodes[leaf].keys, begin, slot)
    ensures var keys := t.nodes[leaf].keys[slot..];
      && (forall j :: 0 <= j < |keys| ==> begin <= keys[j])
      && forall k :: k in t.contents && begin <= k < t.nodes[leaf].high ==> exists j :: 0 <= j < |keys| && keys[j] == k
  {
    var l := t.nodes[leaf];
    forall k | k in t.contents && begin <= k < l.high ensures exists j ::
        0 <= j < |l.keys[slot..]| && l.keys[slot..][j] == k {
      var j :| 0 <= j < |l.keys| && l.keys[j] == k;
      assert l.keys[slot..][j - slot] == k;
    }
  }

  class DataSource {
    /** The map being read. */
    const tree: Tree
    /** The next leaf to read. */
    var next: Ptr
    var hasNext: bool
    /** The entries taken from the leaf read last; `pos` is the one handed out last. */
    var pos: int
    var keys: seq<int>
    var vals: seq<Val>
    /** Everything from this key on is still to be handed out. */
    ghost var from: int

    /** The lowest key that no leaf read so far covers. */
    ghost function Bound(): int
      reads this
    {
      if Live(tree.nodes, next) then tree.nodes[next].low else TOP
    }

    /** The buffer holds entries of the map, in order, below the bound. */
    ghost predicate Buffered()
      reads this
    {
      && |keys| == |vals| && -1 <= pos && Sorted(keys) && Chained(tree)
      && (forall j :: 0 <= j < |keys| ==>
          keys[j] in tree.contents && tree.contents[keys[j]] == vals[j] && keys[j] < Bound())
      && (next == NULL || (Live(tree.nodes, next) && tree.nodes[next].level == 0))
    }

    ghost predicate Ahead(k: int)
      requires -1 <= pos
      reads this
    {
      exists j :: pos < j < |keys| && keys[j] == k
    }

    /** Buffered or not read yet: every key from `from` on. */
    ghost predicate Covered()
      reads this
    {
      && -1 <= pos
      && (forall k :: k in tree.contents && from <= k < Bound() ==> Ahead(k))
      && (forall j :: pos < j < |keys| ==> from <= keys[j])
      && from <= Bound()
    }

    ghost predicate Valid()
      reads this
    {
      Buffered() && Covered()
    }

    /** The entry at `pos` is the first one from `low` on. */
    ghost predicate Delivers(low: int)
      reads this
    {
      && 0 <= pos < |keys| == |vals| && low <= keys[pos] && keys[pos] in tree.contents &&
          tree.contents[keys[pos]] == vals[pos]
      && from == keys[pos] + 1 && (forall k :: k in tree.contents && low <= k ==> keys[pos] <= k)
    }

    /** Lines 687-725: start in the leaf that covers `begin`. */
    constructor (t: Tree, begin: int, leaf: Ptr)
      requires Chained(t) && Live(t.nodes, leaf) && t.nodes[leaf].level == 0 &&
        t.nodes[leaf].low <= begin < t.nodes[leaf].high
      ensures tree == t && Valid() && from == begin
    {
      tree := t;
      var l := t.nodes[leaf];
      assert LeafOk(t, leaf);
      var slot := FirstGeq(l.keys, begin);
      FirstGeqIs(l.keys, begin);
      keys := l.keys[slot..];
      vals := l.vals[slot..];
      next := l.next;
      pos := -1;
      hasNext := false;
      from := begin;
      new;
      LeafTail(t, leaf, begin, slot);
    }

    /** Lines 742-757: read a whole leaf. */
    method ReadLeaf()
      requires Chained(tree) && Live(tree.nodes, next) && tree.nodes[next].level == 0
      modifies this`pos, this`keys, this`vals, this`next
      ensures pos == 0 && Buffered() && old(Bound()) < Bound() <= TOP
      ensures forall j :: 0 <= j < |keys| ==> old(Bound()) <= keys[j]
      ensures forall k :: k in tree.contents && old(Bound()) <= k < Bound() ==> exists j ::
        0 <= j < |keys| && keys[j] == k
    {
      assert LeafOk(tree, next);
      keys, vals, pos, next := tree.nodes[next].keys, tree.nodes[next].vals, 0, tree.nodes[next].next;
    }

    /** Lines 729-731: the buffer has more. */
    method StepInBuffer()
      requires Valid() && pos < |keys| - 1
      modifies this`pos, this`hasNext, this`from
      ensures Valid() && hasNext && Delivers(old(from))
    {
      ghost var low := from;
      pos := pos + 1;
      hasNext := true;
      from := keys[pos] + 1;
      assert keys[pos] < Bound();
      forall k | k in tree.contents && low <= k < Bound() ensures keys[pos] <= k && (from <= k ==> Ahead(k)) {
        assert old(Ahead(k));
        var j :| pos - 1 < j < |keys| && keys[j] == k;
      }
    }

    /** Lines 739-771: read one leaf; it may be empty. */
    method StepLeaf() returns (got: bool)
      requires Valid() && pos >= |keys| - 1 && next != NULL
      modifies this`pos, this`keys, this`vals, this`next, this`from
      ensures Valid() && old(Bound()) < Bound() <= TOP
      ensures if got then Delivers(old(from)) else pos >= |keys| - 1 && from == old(from)
    {
      ghost var low, bound := from, Bound();
      assert forall k :: k in tree.contents && low <= k ==> k >= bound by {
        forall k | k in tree.contents && low <= k ensures k >= bound { assert k < bound ==> Ahead(k); }
      }
      ReadLeaf();
      got := |keys| != 0;
      if got {
        from := keys[pos] + 1;
        forall k | k in tree.contents && low <= k < Bound() ensures keys[0] <= k && (from <= k ==> Ahead(k)) {}
      }
    }

    /** Lines 733-773: read leaves until one has an entry. */
    method StepToLeaf()
      requires Valid() && pos >= |keys| - 1
      modifies this
      ensures Valid()
      ensures if hasNext then Delivers(old(from)) else forall k :: k in tree.contents ==> k < old(from)
    {
      while next != NULL
        invariant Valid() && pos >= |keys| - 1 && from == old(from)
        decreases TOP - Bound()
      {
        var got := StepLeaf();
        if got {
          hasNext := true;
          return;
        }
      }
      hasNext := false;
    }

    /** `advance_to_next_valid` (lines 728-776). */
    method AdvanceToNextValid()
      requires Valid()
      modifies this
      ensures Valid()
      ensures if hasNext then Delivers(old(from)) else forall k :: k in tree.contents ==> k < old(from)
    {
      if pos < |keys| - 1 { StepInBuffer(); } else { StepToLeaf(); }
    }
  }

  /** `scan` (lines 96-112). */
  method ScanFrom(t: Tree, begin: int, n: nat, leaf: Ptr) returns (count: nat, res: seq<(int, Val)>)
    requires Chained(t) && Live(t.nodes, leaf) && t.nodes[leaf].level == 0 &&
      t.nodes[leaf].low <= begin < t.nodes[leaf].high
    ensures count == |res| && FirstEntries(t.contents, begin, n, res)
  {
    res := [];
    var source := new DataSource(t, begin, leaf);
    source.AdvanceToNextValid();
    var remaining := n;
    ghost var low := begin;
    while source.hasNext && remaining != 0
      invariant source.Valid() && source.tree == t && |res| + remaining == n && Taken(t.contents, begin, low, res)
      invariant if source.hasNext then source.Delivers(low) else forall k :: k in t.contents ==> k < low
      decreases remaining
    {
      TakeNext(t.contents, begin, low, res, source.keys[source.pos]);
      res := res + [(source.keys[source.pos], source.vals[source.pos])];
      low := source.from;
      source.AdvanceToNextValid();
      remaining := remaining - 1;
    }
    count := n - remaining;
  }

  /** `range_scan` (lines 114-128). */
  method RangeScanFrom(t: Tree, begin: int, end: int, leaf: Ptr) returns (res: seq<(int, Val)>)
    requires Chained(t) && Live(t.nodes, leaf) && t.nodes[leaf].level == 0 &&
      t.nodes[leaf].low <= begin < t.nodes[leaf].high
    ensures EntriesWithin(t.contents, begin, end, res)
  {
    res := [];
    var source := new DataSource(t, begin, leaf);
    source.AdvanceToNextValid();
    ghost var low := begin;
    while source.hasNext
      invariant source.Valid() && source.tree == t && Taken(t.contents, begin, low, res) && low <= TOP
      invariant forall i :: 0 <= i < |res| ==> res[i].0 <= end
      invariant if source.hasNext then source.Delivers(low) else forall k :: k in t.contents ==> k < low
      decreases TOP - low, source.hasNext
    {
      if source.keys[source.pos] > end { break; }
      TakeNext(t.contents, begin, low, res, source.keys[source.pos]);
      res := res + [(source.keys[source.pos], source.vals[source.pos])];
      low := source.from;
      source.AdvanceToNextValid();
    }
  }

  /** `res` lists the entries of `m` within `[begin, low)`. */
  ghost predicate Taken(m: map<int, Val>, begin: int, low: int, res: seq<(int, Val)>) {
    && begin <= low && Ascending(res) && Stored(m, res)
    && (forall i :: 0 <= i < |res| ==> begin <= res[i].0 < low)
    && (forall k {:trigger Listed(res, k)} :: k in m && begin <= k < low ==> Listed(res, k))
  }

  lemma TakeNext(m: map<int, Val>, begin: int, low: int, res: seq<(int, Val)>, key: int)
    requires Taken(m, begin, low, res) && low <= key && key in m && forall k :: k in m && low <= k ==> key <= k
    ensures Taken(m, begin, key + 1, res + [(key, m[key])])
  {
    var res' := res + [(key, m[key])];
    forall k | k in m && begin <= k <= key ensures Listed(res', k) {
      if k < low {
        assert Listed(res, k);
        var i :| 0 <= i < |res| && res[i].0 == k;
        assert res'[i].0 == k;
      } else {
        assert res'[|res|].0 == k;
      }
    }
  }
}
