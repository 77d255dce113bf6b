/**
 Sorted block extents and the set algebra that restore plans, manifest
 validation and lazy hydration are built on (internal/replica/extents.go and
 `intersectExtent` of internal/replica/segment.go).

 An extent list denotes the set of blocks it covers. Every operation is a loop
 with cursors; its contract says which block set the result denotes and that
 the result is again sorted and disjoint.
 */
module Extents {
  import opened Options

  const TWO_TO_THE_64: nat := 0x1_0000_0000_0000_0000
  const BLOCK_SIZE: nat := 4096

  datatype Extent = Extent(start: nat, blocks: nat) {
    function End(): nat { start + blocks }

    predicate Has(b: nat) { start <= b < End() }
  }

  /** `b` is one of the blocks the list denotes. */
  ghost predicate Covers(es: seq<Extent>, b: nat) {
    exists i :: 0 <= i < |es| && es[i].Has(b)
  }

  /** Non-empty extents in ascending order without overlap; neighbours may touch. */
  ghost predicate Ordered(es: seq<Extent>) {
    && (forall i :: 0 <= i < |es| ==> es[i].blocks > 0)
    && (forall i, j :: 0 <= i < j < |es| ==> es[i].End() <= es[j].start)
  }

  /** Ordered with a gap between neighbours: the canonical list of a block set. */
  ghost predicate Separated(es: seq<Extent>) {
    && (forall i :: 0 <= i < |es| ==> es[i].blocks > 0)
    && (forall i, j :: 0 <= i < j < |es| ==> es[i].End() < es[j].start)
  }

  ghost predicate Within(es: seq<Extent>, maxBlocks: nat) {
    forall i :: 0 <= i < |es| ==> es[i].End() <= maxBlocks
  }

  function Total(es: seq<Extent>): nat {
    if es == [] then 0 else Total(es[..|es| - 1]) + es[|es| - 1].blocks
  }

  lemma CoversAppend(es: seq<Extent>, e: Extent, b: nat)
    ensures Covers(es + [e], b) <==> Covers(es, b) || e.Has(b)
  {
    var all := es + [e];
    assert all[|es|] == e;
    if Covers(es, b) {
      var i :| 0 <= i < |es| && es[i].Has(b);
      assert all[i].Has(b);
    }
  }

  lemma CoversConcat(xs: seq<Extent>, ys: seq<Extent>, b: nat)
    ensures Covers(xs + ys, b) <==> Covers(xs, b) || Covers(ys, b)
  {
    var all := xs + ys;
    if Covers(xs, b) {
      var i :| 0 <= i < |xs| && xs[i].Has(b);
      assert all[i].Has(b);
    }
    if Covers(ys, b) {
      var i :| 0 <= i < |ys| && ys[i].Has(b);
      assert all[|xs| + i].Has(b);
    }
  }

  lemma CoversPrefix(es: seq<Extent>, n: nat, b: nat)
    requires n < |es|
    ensures Covers(es[..n + 1], b) <==> Covers(es[..n], b) || es[n].Has(b)
  {
    assert es[..n + 1] == es[..n] + [es[n]];
    CoversAppend(es[..n], es[n], b);
  }

  /** A bound on the denoted blocks is a bound on the extents themselves. */
  lemma WithinFromCover(es: seq<Extent>, maxBlocks: nat)
    requires Ordered(es)
    requires forall b: nat :: Covers(es, b) ==> b < maxBlocks
    ensures Within(es, maxBlocks)
  {
    forall i | 0 <= i < |es| ensures es[i].End() <= maxBlocks {
      assert es[i].Has(es[i].End() - 1);
      assert Covers(es, es[i].End() - 1);
    }
  }

  lemma CoverFromWithin(es: seq<Extent>, maxBlocks: nat, b: nat)
    requires Within(es, maxBlocks) && Covers(es, b)
    ensures b < maxBlocks
  {
  }

  /** The end of an extent as the 64-bit addition of the original computes it. */
  function WrappedEnd(e: Extent): nat { (e.start + e.blocks) % TWO_TO_THE_64 }

  ghost predicate Words(es: seq<Extent>) {
    forall i :: 0 <= i < |es| ==> es[i].start < TWO_TO_THE_64 && es[i].blocks < TWO_TO_THE_64
  }

  lemma WrappedEndIsEnd(e: Extent)
    requires e.start < TWO_TO_THE_64 && e.blocks < TWO_TO_THE_64
    ensures WrappedEnd(e) >= e.start <==> e.End() < TWO_TO_THE_64
    ensures e.End() < TWO_TO_THE_64 ==> WrappedEnd(e) == e.End()
  {
    if e.End() >= TWO_TO_THE_64 {
      assert (e.start + e.blocks) % TWO_TO_THE_64 == e.start + e.blocks - TWO_TO_THE_64;
    }
  }

  lemma TotalOfPrefix(es: seq<Extent>, n: nat)
    requires n < |es|
    ensures Total(es[..n + 1]) == Total(es[..n]) + es[n].blocks
  {
    assert es[..n + 1][..n] == es[..n];
  }

  lemma {:induction false} TotalIsBoundedByEnd(es: seq<Extent>, n: nat)
    requires Ordered(es) && n <= |es|
    ensures Total(es[..n]) <= if n == 0 then 0 else es[n - 1].End()
  {
    if n > 0 {
      TotalIsBoundedByEnd(es, n - 1);
      TotalOfPrefix(es, n - 1);
    }
  }

  /**
   `validateExtents`: accepts exactly the ordered lists inside the volume, with
   every 64-bit wrap-around of an extent end rejected, and returns their block
   count; the overflow test on the running count never fires.
   */
  method Validate(es: seq<Extent>, maxBlocks: nat) returns (r: Option<nat>)
    requires Words(es) && maxBlocks < TWO_TO_THE_64
    ensures r.Some? <==> Ordered(es) && Within(es, maxBlocks)
    ensures r.Some? ==> r.value == Total(es)
  {
    var total: nat := 0;
    var previousEnd: nat := 0;
    var i := 0;
    while i < |es|
      invariant 0 <= i <= |es|
      invariant Ordered(es[..i]) && Within(es[..i], maxBlocks)
      invariant total == Total(es[..i])
      invariant previousEnd == if i == 0 then 0 else es[i - 1].End()
    {
      var e := es[i];
      var end := WrappedEnd(e);
      WrappedEndIsEnd(e);
      if e.blocks == 0 || end < e.start || end > maxBlocks {
        return None;
      }
      if i > 0 && e.start < previousEnd {
        return None;
      }
      TotalIsBoundedByEnd(es[..i], i);
      assert es[..i][..i] == es[..i];
      if total > TWO_TO_THE_64 - 1 - e.blocks {
        return None;
      }
      TotalOfPrefix(es, i);
      total := total + e.blocks;
      previousEnd := end;
      i := i + 1;
    }
    assert es[..|es|] == es;
    r := Some(total);
  }

  /** `extentsContain`: a merge-style walk that decides inclusion of block sets. */
  method Contains(outer: seq<Extent>, inner: seq<Extent>) returns (r: bool)
    requires Ordered(outer) && Ordered(inner)
    ensures r <==> forall b: nat :: Covers(inner, b) ==> Covers(outer, b)
  {
    var o := 0;
    var i := 0;
    while i < |inner|
      invariant 0 <= i <= |inner| && 0 <= o <= |outer|
      invariant forall k :: 0 <= k < o ==> i < |inner| ==> outer[k].End() <= inner[i].start
      invariant forall b: nat :: Covers(inner[..i], b) ==> Covers(outer, b)
    {
      var candidate := inner[i];
      var cursor := candidate.start;
      while cursor < candidate.End()
        invariant candidate.start <= cursor <= candidate.End()
        invariant 0 <= o <= |outer|
        invariant forall k :: 0 <= k < o ==> outer[k].End() <= cursor
        invariant forall b: nat :: candidate.start <= b < cursor ==> Covers(outer, b)
      {
        while o < |outer| && outer[o].End() <= cursor
          invariant 0 <= o <= |outer|
          invariant forall k :: 0 <= k < o ==> outer[k].End() <= cursor
        {
          o := o + 1;
        }
        if o == |outer| || outer[o].start > cursor {
          assert candidate.Has(cursor) && Covers(inner, cursor);
          assert !Covers(outer, cursor);
          return false;
        }
        var next := if candidate.End() < outer[o].End() then candidate.End() else outer[o].End();
        assert forall b: nat :: cursor <= b < next ==> outer[o].Has(b);
        cursor := next;
      }
      forall b: nat | Covers(inner[..i + 1], b) ensures Covers(outer, b) {
        CoversPrefix(inner, i, b);
      }
      i := i + 1;
    }
    assert inner[..|inner|] == inner;
    r := true;
  }

  /** The binary search `subtractExtents` and `hydrateLocked` start from. */
  method FirstEndingAfter(es: seq<Extent>, block: nat) returns (index: nat)
    requires Ordered(es)
    ensures index <= |es|
    ensures forall k :: 0 <= k < index ==> es[k].End() <= block
    ensures forall k :: index <= k < |es| ==> es[k].End() > block
  {
    var lo, hi := 0, |es|;
    while lo < hi
      invariant 0 <= lo <= hi <= |es|
      invariant forall k :: 0 <= k < lo ==> es[k].End() <= block
      invariant forall k :: hi <= k < |es| ==> es[k].End() > block
    {
      var mid := (lo + hi) / 2;
      if es[mid].End() > block {
        hi := mid;
      } else {
        lo := mid + 1;
      }
    }
    index := lo;
  }

  /** Appending behind everything already collected keeps the list ordered. */
  lemma OrderedAppend(es: seq<Extent>, e: Extent)
    requires Ordered(es) && e.blocks > 0
    requires |es| > 0 ==> es[|es| - 1].End() <= e.start
    ensures Ordered(es + [e])
  {
  }

  /** No extent of the list reaches past `limit`. */
  ghost predicate EndsBy(es: seq<Extent>, limit: nat) {
    |es| > 0 ==> es[|es| - 1].End() <= limit
  }

  /** What is left of `[from, to)` and of everything before it. */
  ghost predicate Remainder(result: seq<Extent>, done: seq<Extent>, start: nat, to: nat, removed: seq<Extent>) {
    forall b: nat :: Covers(result, b) <==> (Covers(done, b) || start <= b < to) && !Covers(removed, b)
  }

  /** Blocks no removed extent touches are kept by appending them. */
  lemma KeepFree(collected: seq<Extent>, done: seq<Extent>, start: nat, cursor: nat, to: nat, removed: seq<Extent>)
    requires Remainder(collected, done, start, cursor, removed)
    requires start <= cursor < to
    requires forall b: nat :: cursor <= b < to ==> !Covers(removed, b)
    ensures Remainder(collected + [Extent(cursor, to - cursor)], done, start, to, removed)
  {
    forall b: nat
      ensures Covers(collected + [Extent(cursor, to - cursor)], b)
         <==> (Covers(done, b) || start <= b < to) && !Covers(removed, b)
    {
      CoversAppend(collected, Extent(cursor, to - cursor), b);
    }
  }

  /** Blocks a removed extent covers are skipped by moving the cursor. */
  lemma SkipRemoved(collected: seq<Extent>, done: seq<Extent>, start: nat, cursor: nat, to: nat, removed: seq<Extent>)
    requires Remainder(collected, done, start, cursor, removed)
    requires start <= cursor <= to
    requires forall b: nat :: cursor <= b < to ==> Covers(removed, b)
    ensures Remainder(collected, done, start, to, removed)
  {
  }

  lemma FreeBefore(removed: seq<Extent>, i: nat, cursor: nat, to: nat)
    requires Ordered(removed) && i <= |removed|
    requires forall k :: 0 <= k < i ==> removed[k].End() <= cursor
    requires i < |removed| ==> to <= removed[i].start
    ensures forall b: nat :: cursor <= b < to ==> !Covers(removed, b)
  {
  }

  function Min(a: nat, b: nat): nat { if a < b then a else b }

  /** The removed extents before `i` are carved out of `e` up to the cursor. */
  ghost predicate CarvedTo(
    result: seq<Extent>, done: seq<Extent>, e: Extent, removed: seq<Extent>, i: nat, cursor: nat)
    requires i <= |removed|
  {
    && e.start <= cursor && Ordered(result) && EndsBy(result, Min(cursor, e.End()))
    && (forall k :: 0 <= k < i ==> removed[k].End() <= cursor)
    && Remainder(result, done, e.start, Min(cursor, e.End()), removed)
  }

  /** The free blocks in front of the next removed extent are kept. */
  lemma CarveKeeps(
    result: seq<Extent>, done: seq<Extent>, e: Extent, removed: seq<Extent>, i: nat, cursor: nat, to: nat)
    requires i <= |removed| && Ordered(removed) && CarvedTo(result, done, e, removed, i, cursor)
    requires cursor < to <= e.End() && (i < |removed| ==> to <= removed[i].start)
    ensures CarvedTo(result + [Extent(cursor, to - cursor)], done, e, removed, i, to)
  {
    FreeBefore(removed, i, cursor, to);
    KeepFree(result, done, e.start, cursor, to, removed);
  }

  /** The cursor moves behind a removed extent it has reached. */
  lemma CarveSkips(result: seq<Extent>, done: seq<Extent>, e: Extent, removed: seq<Extent>, i: nat, cursor: nat)
    requires i < |removed| && Ordered(removed) && CarvedTo(result, done, e, removed, i, cursor)
    requires removed[i].start <= cursor < e.End()
    ensures CarvedTo(result, done, e, removed, i + 1, if removed[i].End() > cursor then removed[i].End() else cursor)
  {
    var to := Min(if removed[i].End() > cursor then removed[i].End() else cursor, e.End());
    forall b: nat | cursor <= b < to ensures Covers(removed, b) {
      assert removed[i].Has(b);
    }
    SkipRemoved(result, done, e.start, cursor, to, removed);
  }

  /**
   The inner loop of `subtractExtents`: carve the removed extents out of one
   extent, starting from the first removed extent that can still touch it.
   */
  method Carve(collected: seq<Extent>, ghost done: seq<Extent>, e: Extent, removed: seq<Extent>, first: nat)
    returns (result: seq<Extent>)
    requires Ordered(collected) && Ordered(removed) && e.blocks > 0 && first <= |removed|
    requires EndsBy(collected, e.start)
    requires forall k :: 0 <= k < first ==> removed[k].End() <= e.start
    requires Remainder(collected, done, e.start, e.start, removed)
    ensures Ordered(result) && EndsBy(result, e.End())
    ensures Remainder(result, done, e.start, e.End(), removed)
  {
    result := collected;
    var cursor := e.start;
    var end := e.End();
    var i := first;
    while i < |removed| && removed[i].start < end && cursor < end
      invariant first <= i <= |removed|
      invariant CarvedTo(result, done, e, removed, i, cursor)
    {
      var r := removed[i];
      ghost var reached := cursor;
      if r.start > cursor {
        CarveKeeps(result, done, e, removed, i, cursor, r.start);
        result := result + [Extent(cursor, Min(end, r.start) - cursor)];
        reached := r.start;
      }
      CarveSkips(result, done, e, removed, i, reached);
      if r.End() > cursor {
        cursor := r.End();
      }
      i := i + 1;
    }
    if cursor < end {
      CarveKeeps(result, done, e, removed, i, cursor, end);
      result := result + [Extent(cursor, end - cursor)];
    }
  }

  /** `subtractExtents`: exact difference of the denoted block sets. */
  method Subtract(extents: seq<Extent>, removed: seq<Extent>) returns (result: seq<Extent>)
    requires Ordered(extents) && Ordered(removed)
    ensures Ordered(result)
    ensures forall b: nat :: Covers(result, b) <==> Covers(extents, b) && !Covers(removed, b)
  {
    if |extents| == 0 || |removed| == 0 {
      return extents;
    }
    result := [];
    var removedIndex := FirstEndingAfter(removed, extents[0].start);
    var n := 0;
    while n < |extents|
      invariant 0 <= n <= |extents| && 0 <= removedIndex <= |removed|
      invariant Ordered(result)
      invariant n < |extents| ==> EndsBy(result, extents[n].start)
      invariant n < |extents| ==> forall k :: 0 <= k < removedIndex ==> removed[k].End() <= extents[n].start
      invariant forall b: nat :: Covers(result, b) <==> Covers(extents[..n], b) && !Covers(removed, b)
    {
      var e := extents[n];
      while removedIndex < |removed| && removed[removedIndex].End() <= e.start
        invariant 0 <= removedIndex <= |removed|
        invariant forall k :: 0 <= k < removedIndex ==> removed[k].End() <= e.start
      {
        removedIndex := removedIndex + 1;
      }
      result := Carve(result, extents[..n], e, removed, removedIndex);
      forall b: nat ensures Covers(result, b) <==> Covers(extents[..n + 1], b) && !Covers(removed, b) {
        CoversPrefix(extents, n, b);
      }
      n := n + 1;
    }
    assert extents[..|extents|] == extents;
  }

  /** The last start of a list built from extents that start no later than `limit`. */
  ghost predicate StartsBy(es: seq<Extent>, limit: nat) {
    |es| > 0 ==> es[|es| - 1].start <= limit
  }

  /**
   The `appendExtent` closure of `unionExtents`, which is also one round of the
   compaction loop of `normalizeExtents`: append, or grow the last extent.
   */
  function AppendMerged(es: seq<Extent>, e: Extent): (r: seq<Extent>)
    requires Separated(es) && StartsBy(es, e.start)
    ensures Separated(r) && StartsBy(r, e.start)
    ensures |es| <= |r| <= |es| + 1
  {
    if e.blocks == 0 then es
    else if |es| == 0 || es[|es| - 1].End() < e.start then es + [e]
    else
      var last := es[|es| - 1];
      if e.End() > last.End() then es[|es| - 1 := Extent(last.start, e.End() - last.start)] else es
  }

  lemma AppendMergedCovers(es: seq<Extent>, e: Extent, b: nat)
    requires Separated(es) && StartsBy(es, e.start)
    ensures Covers(AppendMerged(es, e), b) <==> Covers(es, b) || e.Has(b)
  {
    if e.blocks == 0 {
    } else if |es| == 0 || es[|es| - 1].End() < e.start {
      CoversAppend(es, e, b);
    } else {
      var front, last := es[..|es| - 1], es[|es| - 1];
      assert es == front + [last];
      CoversAppend(front, last, b);
      if e.End() > last.End() {
        var grown := Extent(last.start, e.End() - last.start);
        assert AppendMerged(es, e) == front + [grown];
        CoversAppend(front, grown, b);
      }
    }
  }

  /** The library sort `normalizeExtents` calls: by start, then by length. */
  predicate Before(x: Extent, y: Extent) {
    x.start < y.start || (x.start == y.start && x.blocks <= y.blocks)
  }

  ghost predicate SortedExtents(es: seq<Extent>) {
    forall i, j :: 0 <= i < j < |es| ==> Before(es[i], es[j])
  }

  method InsertExtent(es: seq<Extent>, e: Extent) returns (r: seq<Extent>)
    requires SortedExtents(es)
    ensures SortedExtents(r) && |r| == |es| + 1
    ensures forall b: nat :: Covers(r, b) <==> Covers(es, b) || e.Has(b)
  {
    var n := |es|;
    while n > 0 && !Before(es[n - 1], e)
      invariant 0 <= n <= |es|
      invariant forall k :: n <= k < |es| ==> Before(e, es[k])
    {
      n := n - 1;
    }
    r := es[..n] + [e] + es[n..];
    InsertedSorted(es, e, n);
    forall b: nat ensures Covers(r, b) <==> Covers(es, b) || e.Has(b) {
      assert es == es[..n] + es[n..];
      CoversConcat(es[..n], es[n..], b);
      CoversConcat(es[..n] + [e], es[n..], b);
      CoversAppend(es[..n], e, b);
    }
  }

  lemma InsertedSorted(es: seq<Extent>, e: Extent, n: nat)
    requires SortedExtents(es) && n <= |es|
    requires n > 0 ==> Before(es[n - 1], e)
    requires forall k :: n <= k < |es| ==> Before(e, es[k])
    ensures SortedExtents(es[..n] + [e] + es[n..])
  {
    var r := es[..n] + [e] + es[n..];
    forall i, j | 0 <= i < j < |r| ensures Before(r[i], r[j]) {
      assert r[i] == if i < n then es[i] else if i == n then e else es[i - 1];
      assert r[j] == if j < n then es[j] else if j == n then e else es[j - 1];
    }
  }

  method SortExtents(es: seq<Extent>) returns (r: seq<Extent>)
    ensures SortedExtents(r) && |r| == |es|
    ensures forall b: nat :: Covers(r, b) <==> Covers(es, b)
  {
    r := [];
    for n := 0 to |es|
      invariant SortedExtents(r) && |r| == n
      invariant forall b: nat :: Covers(r, b) <==> Covers(es[..n], b)
    {
      r := InsertExtent(r, es[n]);
      forall b: nat ensures Covers(r, b) <==> Covers(es[..n + 1], b) {
        CoversPrefix(es, n, b);
      }
    }
    assert es[..|es|] == es;
  }

  /** The list written so far is the canonical one of the first `i` extents. */
  ghost predicate CompactedSoFar(kept: seq<Extent>, sorted: seq<Extent>, i: nat)
    requires i <= |sorted|
  {
    && Separated(kept) && (i < |sorted| ==> StartsBy(kept, sorted[i].start))
    && forall b: nat {:trigger Covers(kept, b)} :: Covers(kept, b) <==> Covers(sorted[..i], b)
  }

  /** One round of the compaction loop, on the list written so far. */
  lemma CompactRound(kept: seq<Extent>, sorted: seq<Extent>, i: nat)
    requires SortedExtents(sorted) && i < |sorted| && CompactedSoFar(kept, sorted, i)
    ensures CompactedSoFar(AppendMerged(kept, sorted[i]), sorted, i + 1)
  {
    assert i + 1 < |sorted| ==> Before(sorted[i], sorted[i + 1]);
    var next, done := AppendMerged(kept, sorted[i]), sorted[..i + 1];
    forall b: nat ensures Covers(next, b) <==> Covers(done, b) {
      AppendMergedCovers(kept, sorted[i], b);
      CoversPrefix(sorted, i, b);
    }
  }

  /** The body of the compaction loop: skip, append or grow in place. */
  method Place(a: array<Extent>, write: nat, e: Extent) returns (next: nat)
    requires write < a.Length && Separated(a[..write]) && StartsBy(a[..write], e.start)
    modifies a
    ensures write <= next <= write + 1
    ensures a[..next] == AppendMerged(old(a[..write]), e)
    ensures forall k :: write < k < a.Length ==> a[k] == old(a[k])
  {
    next := write;
    if e.blocks == 0 {
    } else if write == 0 || a[write - 1].End() < e.start {
      a[write] := e;
      next := write + 1;
    } else if e.End() > a[write - 1].End() {
      a[write - 1] := Extent(a[write - 1].start, e.End() - a[write - 1].start);
    }
  }

  /**
   The in-place half of `normalizeExtents`: the slice is read at one index and
   overwritten at another that never gets ahead of it.
   */
  method Compact(a: array<Extent>) returns (write: nat)
    requires SortedExtents(a[..])
    modifies a
    ensures write <= a.Length
    ensures Separated(a[..write])
    ensures forall b: nat :: Covers(a[..write], b) <==> Covers(old(a[..]), b)
  {
    ghost var sorted := a[..];
    ghost var kept: seq<Extent> := [];
    write := 0;
    for i := 0 to a.Length
      invariant write <= i
      invariant forall k :: i <= k < a.Length ==> a[k] == sorted[k]
      invariant a[..write] == kept && CompactedSoFar(kept, sorted, i)
    {
      var e := a[i];
      CompactRound(kept, sorted, i);
      kept := AppendMerged(kept, e);
      write := Place(a, write, e);
    }
    assert sorted[..a.Length] == sorted;
  }

  /** `normalizeExtents`: the canonical list of the blocks of any extent list. */
  method Normalize(es: seq<Extent>) returns (result: seq<Extent>)
    ensures Separated(result)
    ensures forall b: nat :: Covers(result, b) <==> Covers(es, b)
  {
    if |es| == 0 {
      return [];
    }
    var sorted := SortExtents(es);
    var a := new Extent[|sorted|](i requires 0 <= i < |sorted| => sorted[i]);
    assert a[..] == sorted;
    var write := Compact(a);
    result := a[..write];
  }

  /** A list denotes the blocks of two others. */
  ghost predicate IsUnion(result: seq<Extent>, xs: seq<Extent>, ys: seq<Extent>) {
    forall b: nat {:trigger Covers(result, b)} :: Covers(result, b) <==> Covers(xs, b) || Covers(ys, b)
  }

  /** One round of the merge: the next extent of one side joins the result. */
  lemma TakeNext(result: seq<Extent>, xs: seq<Extent>, x: nat, ys: seq<Extent>)
    requires Separated(result) && x < |xs| && StartsBy(result, xs[x].start)
    requires IsUnion(result, xs[..x], ys)
    ensures IsUnion(AppendMerged(result, xs[x]), xs[..x + 1], ys)
  {
    var next, done := AppendMerged(result, xs[x]), xs[..x + 1];
    forall b: nat ensures Covers(next, b) <==> Covers(done, b) || Covers(ys, b) {
      AppendMergedCovers(result, xs[x], b);
      CoversPrefix(xs, x, b);
    }
  }

  lemma UnionSwaps(result: seq<Extent>, xs: seq<Extent>, ys: seq<Extent>)
    requires IsUnion(result, xs, ys)
    ensures IsUnion(result, ys, xs)
  {
  }

  /** The merge of ordered lists has consumed `l` extents on the left and `r` on the right. */
  ghost predicate MergedSoFar(result: seq<Extent>, left: seq<Extent>, l: nat, right: seq<Extent>, r: nat)
    requires l <= |left| && r <= |right|
  {
    && Separated(result) && IsUnion(result, left[..l], right[..r])
    && (l < |left| ==> StartsBy(result, left[l].start)) && (r < |right| ==> StartsBy(result, right[r].start))
  }

  /** One round of the merge on the side whose next extent starts first. */
  lemma MergeNext(result: seq<Extent>, left: seq<Extent>, l: nat, right: seq<Extent>, r: nat)
    requires Ordered(left) && l < |left| && r <= |right| && MergedSoFar(result, left, l, right, r)
    requires r < |right| ==> left[l].start <= right[r].start
    ensures MergedSoFar(AppendMerged(result, left[l]), left, l + 1, right, r)
  {
    TakeNext(result, left, l, right[..r]);
  }

  lemma MergeSwaps(result: seq<Extent>, left: seq<Extent>, l: nat, right: seq<Extent>, r: nat)
    requires l <= |left| && r <= |right| && MergedSoFar(result, left, l, right, r)
    ensures MergedSoFar(result, right, r, left, l)
  {
    UnionSwaps(result, left[..l], right[..r]);
  }

  /** `unionExtents`: exact union of an ordered list and an arbitrary one. */
  method Union(left: seq<Extent>, right: seq<Extent>) returns (result: seq<Extent>)
    requires Ordered(left)
    ensures Separated(result)
    ensures forall b: nat :: Covers(result, b) <==> Covers(left, b) || Covers(right, b)
  {
    if |left| == 0 && |right| == 0 {
      return [];
    }
    var other := Normalize(right);
    result := [];
    var l, r := 0, 0;
    while l < |left| || r < |other|
      invariant 0 <= l <= |left| && 0 <= r <= |other|
      invariant MergedSoFar(result, left, l, other, r)
      decreases |left| - l + |other| - r
    {
      if r == |other| || (l < |left| && left[l].start <= other[r].start) {
        MergeNext(result, left, l, other, r);
        result := AppendMerged(result, left[l]);
        l := l + 1;
      } else {
        MergeSwaps(result, left, l, other, r);
        MergeNext(result, other, r, left, l);
        result := AppendMerged(result, other[r]);
        r := r + 1;
        MergeSwaps(result, other, r, left, l);
      }
    }
    assert left[..|left|] == left && other[..|other|] == other;
  }

  /** Canonical lists are unique: two that denote the same blocks are equal. */
  lemma {:induction false} SeparatedUnique(xs: seq<Extent>, ys: seq<Extent>)
    requires Separated(xs) && Separated(ys)
    requires forall b: nat :: Covers(xs, b) <==> Covers(ys, b)
    ensures xs == ys
    decreases |xs|
  {
    FirstCovered(xs);
    FirstCovered(ys);
    if xs != [] {
      assert Covers(ys, xs[0].start) && ys != [];
      assert Covers(xs, ys[0].start);
      assert xs[0].start == ys[0].start;
      SameFirst(xs, ys);
      SameFirst(ys, xs);
      assert xs[0] == ys[0];
      assert xs == [xs[0]] + xs[1..] && ys == [ys[0]] + ys[1..];
      forall b: nat ensures Covers(xs[1..], b) <==> Covers(ys[1..], b) {
        CoversConcat([xs[0]], xs[1..], b);
        CoversConcat([ys[0]], ys[1..], b);
        assert Covers([xs[0]], b) == Covers([ys[0]], b);
        if Covers(xs[1..], b) { RestIsLater(xs, b); }
        if Covers(ys[1..], b) { RestIsLater(ys, b); }
        assert xs[0].Has(b) ==> Covers([xs[0]], b) by { if xs[0].Has(b) { assert [xs[0]][0].Has(b); } }
      }
      SeparatedUnique(xs[1..], ys[1..]);
    }
  }

  lemma FirstCovered(es: seq<Extent>)
    ensures Separated(es) && es != [] ==> Covers(es, es[0].start)
  {
    if Separated(es) && es != [] {
      assert es[0].Has(es[0].start);
    }
  }

  lemma RestIsLater(xs: seq<Extent>, b: nat)
    requires Separated(xs) && xs != [] && Covers(xs[1..], b)
    ensures !Covers([xs[0]], b)
  {
    var i :| 0 <= i < |xs[1..]| && xs[1..][i].Has(b);
    assert xs[1 + i].Has(b);
  }

  lemma SameFirst(xs: seq<Extent>, ys: seq<Extent>)
    requires Separated(xs) && Separated(ys) && xs != [] && ys != []
    requires xs[0].start == ys[0].start
    requires forall b: nat :: Covers(xs, b) <==> Covers(ys, b)
    ensures xs[0].End() >= ys[0].End()
  {
    if xs[0].End() < ys[0].End() {
      assert ys[0].Has(xs[0].End());
      assert Covers(ys, xs[0].End());
    }
  }

  /** The first `n` extents were cut down to the target. */
  ghost predicate CutSoFar(result: seq<Extent>, target: Extent, extents: seq<Extent>, n: nat)
    requires n <= |extents|
  {
    && Ordered(result) && (n < |extents| ==> EndsBy(result, extents[n].start))
    && forall b: nat {:trigger Covers(result, b)} :: Covers(result, b) <==> Covers(extents[..n], b) && target.Has(b)
  }

  /** The part of one extent inside the target. */
  function Meet(target: Extent, e: Extent): (r: Option<Extent>)
    ensures r.None? ==> forall b: nat :: !(e.Has(b) && target.Has(b))
    ensures r.Some? ==> r.value.blocks > 0 && e.start <= r.value.start && r.value.End() <= e.End()
    ensures r.Some? ==> forall b: nat :: r.value.Has(b) <==> e.Has(b) && target.Has(b)
  {
    var start := if target.start < e.start then e.start else target.start;
    var end := Min(target.End(), e.End());
    if e.End() > target.start && start < end then Some(Extent(start, end - start)) else None
  }

  /** One round of `intersectExtent`. */
  lemma CutNext(result: seq<Extent>, target: Extent, extents: seq<Extent>, n: nat)
    requires Ordered(extents) && n < |extents| && CutSoFar(result, target, extents, n)
    ensures var meet := Meet(target, extents[n]);
            CutSoFar(if meet.Some? then result + [meet.value] else result, target, extents, n + 1)
  {
    var meet, done := Meet(target, extents[n]), extents[..n + 1];
    var next := if meet.Some? then result + [meet.value] else result;
    forall b: nat ensures Covers(next, b) <==> Covers(done, b) && target.Has(b) {
      if meet.Some? { CoversAppend(result, meet.value, b); }
      CoversPrefix(extents, n, b);
    }
  }

  /** Behind the target there is nothing left to cut. */
  lemma CutDone(result: seq<Extent>, target: Extent, extents: seq<Extent>, n: nat)
    requires Ordered(extents) && n <= |extents| && CutSoFar(result, target, extents, n)
    requires n < |extents| ==> target.End() <= extents[n].start
    ensures Ordered(result)
    ensures forall b: nat {:trigger Covers(result, b)} :: Covers(result, b) <==> Covers(extents, b) && target.Has(b)
  {
    forall b: nat ensures Covers(result, b) <==> Covers(extents, b) && target.Has(b) {
      assert extents == extents[..n] + extents[n..];
      CoversConcat(extents[..n], extents[n..], b);
    }
  }

  /** `intersectExtent`: the part of an ordered list inside one extent. */
  method Intersect(target: Extent, extents: seq<Extent>) returns (result: seq<Extent>)
    requires Ordered(extents)
    ensures Ordered(result)
    ensures forall b: nat :: Covers(result, b) <==> Covers(extents, b) && target.Has(b)
  {
    result := [];
    var n := 0;
    while n < |extents| && extents[n].start < target.End()
      invariant 0 <= n <= |extents|
      invariant CutSoFar(result, target, extents, n)
    {
      CutNext(result, target, extents, n);
      var meet := Meet(target, extents[n]);
      if meet.Some? { result := result + [meet.value]; }
      n := n + 1;
    }
    CutDone(result, target, extents, n);
  }

  /**
   `byteRangeExtents`: the blocks touched by a byte range clipped to the image;
   no block when the range is empty or starts outside.
   */
  method ByteRange(off: int, length: int, size: nat) returns (result: seq<Extent>)
    ensures Ordered(result) && |result| <= 1
    ensures forall b: nat :: Covers(result, b) <==>
        exists i: nat :: off <= i < off + length && 0 <= off && i < size && i / BLOCK_SIZE == b
    ensures length > 0 && 0 <= off < size ==> |result| == 1
  {
    if length <= 0 || off < 0 || off >= size {
      return [];
    }
    var n := if length > size - off then size - off else length;
    var start := off / BLOCK_SIZE;
    var end := (off + n - 1) / BLOCK_SIZE + 1;
    result := [Extent(start, end - start)];
    forall b: nat ensures Covers(result, b) <==>
        exists i: nat :: off <= i < off + length && 0 <= off && i < size && i / BLOCK_SIZE == b
    {
      if start <= b < end {
        assert result[0].Has(b);
        var i: nat := if b == start then off else b * BLOCK_SIZE;
        assert i / BLOCK_SIZE == b && off <= i < off + n;
      }
    }
  }

  ghost function BlockRange(lo: nat, hi: nat): (s: set<nat>)
    requires lo <= hi
    ensures forall b: nat :: b in s <==> lo <= b < hi
    ensures |s| == hi - lo
    decreases hi - lo
  {
    if lo == hi then {} else BlockRange(lo, hi - 1) + {hi - 1}
  }

  /** The blocks of a list as a finite set, for counting. */
  ghost function BlockSet(es: seq<Extent>): (s: set<nat>)
    ensures forall b: nat :: b in s <==> Covers(es, b)
  {
    if es == [] then {}
    else
      var last := es[|es| - 1];
      assert es == es[..|es| - 1] + [last];
      assert forall b: nat :: Covers(es, b) <==> Covers(es[..|es| - 1], b) || last.Has(b) by {
        forall b: nat ensures Covers(es, b) <==> Covers(es[..|es| - 1], b) || last.Has(b) {
          CoversAppend(es[..|es| - 1], last, b);
        }
      }
      BlockSet(es[..|es| - 1]) + BlockRange(last.start, last.End())
  }

  /** An ordered list has as many blocks as its extents add up to. */
  lemma {:induction false} TotalIsSize(es: seq<Extent>)
    requires Ordered(es)
    ensures Total(es) == |BlockSet(es)|
  {
    if es != [] {
      var front, last := es[..|es| - 1], es[|es| - 1];
      TotalIsSize(front);
      var tail := BlockRange(last.start, last.End());
      SumOfSizes(BlockSet(front), tail);
    }
  }

  function Flatten(lists: seq<seq<Extent>>): seq<Extent> {
    if lists == [] then [] else Flatten(lists[..|lists| - 1]) + lists[|lists| - 1]
  }

  function TotalOfAll(lists: seq<seq<Extent>>): nat {
    if lists == [] then 0 else TotalOfAll(lists[..|lists| - 1]) + Total(lists[|lists| - 1])
  }

  ghost predicate PairwiseDisjoint(lists: seq<seq<Extent>>) {
    forall i, j, b: nat :: 0 <= i < j < |lists| ==> !(Covers(lists[i], b) && Covers(lists[j], b))
  }

  lemma {:induction false} CoversFlatten(lists: seq<seq<Extent>>, b: nat)
    ensures Covers(Flatten(lists), b) <==> exists i :: 0 <= i < |lists| && Covers(lists[i], b)
  {
    if lists != [] {
      var front, last := lists[..|lists| - 1], lists[|lists| - 1];
      CoversFlatten(front, b);
      CoversConcat(Flatten(front), last, b);
      if i :| 0 <= i < |front| && Covers(front[i], b) {
        assert lists[i] == front[i];
      }
    }
  }

  lemma SumOfSizes(a: set<nat>, b: set<nat>)
    ensures |a + b| <= |a| + |b|
    ensures |a + b| == |a| + |b| <==> a !! b
  {
    assert a + b == a + (b - a);
    assert a !! (b - a);
    assert |a + b| == |a| + |b - a|;
    assert b == (b - a) + (b * a);
    assert |b| == |b - a| + |b * a|;
    if |b * a| == 0 { assert a !! b; }
  }

  /**
   The count test behind "segments overlap within generation": the blocks the
   lists denote together are as many as their counts add up to exactly when no
   block is in two of them.
   */
  lemma {:induction false} CountTestIsDisjointness(lists: seq<seq<Extent>>)
    requires forall i :: 0 <= i < |lists| ==> Ordered(lists[i])
    ensures |BlockSet(Flatten(lists))| <= TotalOfAll(lists)
    ensures |BlockSet(Flatten(lists))| == TotalOfAll(lists) <==> PairwiseDisjoint(lists)
  {
    if lists != [] {
      var front, last := lists[..|lists| - 1], lists[|lists| - 1];
      CountTestIsDisjointness(front);
      TotalIsSize(last);
      var a, z := BlockSet(Flatten(front)), BlockSet(last);
      BlockSetConcat(Flatten(front), last);
      SumOfSizes(a, z);
      DisjointExtends(lists);
    }
  }

  lemma BlockSetConcat(xs: seq<Extent>, ys: seq<Extent>)
    ensures BlockSet(xs + ys) == BlockSet(xs) + BlockSet(ys)
  {
    var all, parts := BlockSet(xs + ys), BlockSet(xs) + BlockSet(ys);
    forall b: nat ensures b in all <==> b in parts {
      CoversConcat(xs, ys, b);
    }
  }

  lemma DisjointFront(lists: seq<seq<Extent>>)
    requires lists != [] && PairwiseDisjoint(lists)
    ensures PairwiseDisjoint(lists[..|lists| - 1])
  {
    var front := lists[..|lists| - 1];
    forall i, j, b: nat | 0 <= i < j < |front| ensures !(Covers(front[i], b) && Covers(front[j], b)) {
      assert lists[i] == front[i] && lists[j] == front[j];
    }
  }

  lemma DisjointLast(lists: seq<seq<Extent>>, b: nat)
    requires lists != [] && PairwiseDisjoint(lists) && Covers(Flatten(lists[..|lists| - 1]), b)
    ensures !Covers(lists[|lists| - 1], b)
  {
    var front := lists[..|lists| - 1];
    CoversFlatten(front, b);
    var i :| 0 <= i < |front| && Covers(front[i], b);
    assert lists[i] == front[i];
  }

  lemma DisjointJoin(lists: seq<seq<Extent>>, i: nat, j: nat, b: nat)
    requires lists != [] && PairwiseDisjoint(lists[..|lists| - 1]) && i < j < |lists|
    requires Covers(Flatten(lists[..|lists| - 1]), b) ==> !Covers(lists[|lists| - 1], b)
    ensures !(Covers(lists[i], b) && Covers(lists[j], b))
  {
    var front := lists[..|lists| - 1];
    assert lists[i] == front[i];
    if j < |front| {
      assert lists[j] == front[j];
    } else {
      CoversFlatten(front, b);
    }
  }

  lemma DisjointExtends(lists: seq<seq<Extent>>)
    requires lists != []
    ensures var front, last := lists[..|lists| - 1], lists[|lists| - 1];
            PairwiseDisjoint(lists) <==> PairwiseDisjoint(front) && BlockSet(Flatten(front)) !! BlockSet(last)
  {
    var front, last := lists[..|lists| - 1], lists[|lists| - 1];
    if PairwiseDisjoint(lists) {
      DisjointFront(lists);
      forall b: nat | b in BlockSet(Flatten(front)) ensures b !in BlockSet(last) {
        DisjointLast(lists, b);
      }
    }
    if PairwiseDisjoint(front) && BlockSet(Flatten(front)) !! BlockSet(last) {
      forall i, j, b: nat | 0 <= i < j < |lists| ensures !(Covers(lists[i], b) && Covers(lists[j], b)) {
        assert b in BlockSet(Flatten(front)) ==> b !in BlockSet(last);
        DisjointJoin(lists, i, j, b);
      }
    }
  }

  /**
   The overlap test of `Publish` and `validateManifest` as the code runs it:
   validate each list, add the counts, normalise the concatenation and compare.
   It accepts exactly the lists that are each ordered, inside the volume and
   pairwise disjoint, and then returns their combined block count.
   */
  method ValidateDisjoint(lists: seq<seq<Extent>>, maxBlocks: nat) returns (r: Option<nat>)
    requires maxBlocks < TWO_TO_THE_64
    requires forall i :: 0 <= i < |lists| ==> Words(lists[i])
    ensures r.Some? <==>
        && (forall i :: 0 <= i < |lists| ==> Ordered(lists[i]) && Within(lists[i], maxBlocks))
        && PairwiseDisjoint(lists)
    ensures r.Some? ==> r.value == TotalOfAll(lists)
  {
    var sum: nat := 0;
    var all: seq<Extent> := [];
    for n := 0 to |lists|
      invariant forall i :: 0 <= i < n ==> Ordered(lists[i]) && Within(lists[i], maxBlocks)
      invariant all == Flatten(lists[..n]) && sum == TotalOfAll(lists[..n])
    {
      var blocks := Validate(lists[n], maxBlocks);
      if blocks.None? {
        return None;
      }
      assert lists[..n + 1][..n] == lists[..n];
      sum := sum + blocks.value;
      all := all + lists[n];
    }
    assert lists[..|lists|] == lists;
    var merged := Union([], all);
    forall b: nat | Covers(merged, b) ensures b < maxBlocks {
      CoversFlatten(lists, b);
    }
    WithinFromCover(merged, maxBlocks);
    assert Words(merged);
    var covered := Validate(merged, maxBlocks);
    CountTestIsDisjointness(lists);
    TotalIsSize(merged);
    assert BlockSet(merged) == BlockSet(all);
    if covered.None? || covered.value != sum {
      return None;
    }
    r := Some(sum);
  }

  /** What a manifest or an encoder declares about one segment. */
  datatype Declared = Declared(extents: seq<Extent>, zeroExtents: seq<Extent>, blocks: nat)

  /**
   The extents are valid and as many blocks as declared (at most as many where `exact` is unset),
   and the zero extents are among them.
   */
  ghost predicate DeclaredOk(d: Declared, maxBlocks: nat, exact: bool) {
    && Ordered(d.extents) && Within(d.extents, maxBlocks)
    && (if exact then Total(d.extents) == d.blocks else Total(d.extents) <= d.blocks)
    && Ordered(d.zeroExtents) && Within(d.zeroExtents, maxBlocks)
    && (forall b: nat :: Covers(d.zeroExtents, b) ==> Covers(d.extents, b))
  }

  method ValidateDeclared(d: Declared, maxBlocks: nat, exact: bool) returns (ok: bool)
    requires maxBlocks < TWO_TO_THE_64 && Words(d.extents) && Words(d.zeroExtents)
    ensures ok <==> DeclaredOk(d, maxBlocks, exact)
  {
    var blocks := Validate(d.extents, maxBlocks);
    if blocks.None? || blocks.value > d.blocks || (exact && blocks.value != d.blocks) { return false; }
    var zeros := Validate(d.zeroExtents, maxBlocks);
    if zeros.None? { return false; }
    ok := Contains(d.extents, d.zeroExtents);
  }

  function Lists(ds: seq<Declared>): (lists: seq<seq<Extent>>)
    ensures |lists| == |ds| && forall i :: 0 <= i < |ds| ==> lists[i] == ds[i].extents
  {
    seq(|ds|, i requires 0 <= i < |ds| => ds[i].extents)
  }

  /**
   The checks of `Publish` (`exact`) and `validateManifest` (`exact` for deltas)
   on the extents of all segments: it accepts exactly well-declared segments that
   are pairwise disjoint.
   */
  method ValidateSegments(ds: seq<Declared>, maxBlocks: nat, exact: bool) returns (ok: bool)
    requires maxBlocks < TWO_TO_THE_64
    requires forall i :: 0 <= i < |ds| ==> Words(ds[i].extents) && Words(ds[i].zeroExtents)
    ensures ok <==> (forall i :: 0 <= i < |ds| ==> DeclaredOk(ds[i], maxBlocks, exact)) && PairwiseDisjoint(Lists(ds))
  {
    for i := 0 to |ds|
      invariant forall j :: 0 <= j < i ==> DeclaredOk(ds[j], maxBlocks, exact)
    {
      var good := ValidateDeclared(ds[i], maxBlocks, exact);
      if !good { return false; }
    }
    var total := ValidateDisjoint(Lists(ds), maxBlocks);
    ok := total.Some?;
  }
}
