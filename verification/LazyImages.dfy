/**
 The lazily restored image (internal/replica/lazy.go: `PrepareLazyRestore`,
 `hydrateLocked`, `PrepareWrite`, `CommitWrite`). The local file starts empty; a segment is fetched
 when one of its blocks is first needed and then fills in every block it owns
 that was not written locally in the meantime.
 */
module LazyImages {
  import opened Options
  import opened Extents
  import opened Bytes

  /** A stretch of blocks and the reference of the restore plan that holds them. */
  datatype Source = Source(extent: Extent, ref: nat)

  /** The extents of each reference of a restore plan; the plan's references are disjoint. */
  ghost predicate RefsOk(refs: seq<seq<Extent>>) {
    && (forall r :: 0 <= r < |refs| ==> Ordered(refs[r]))
    && (forall r, q, b: nat :: 0 <= r < q < |refs| ==> !(Covers(refs[r], b) && Covers(refs[q], b)))
  }

  function Ranges(sources: seq<Source>): (es: seq<Extent>)
    ensures |es| == |sources| && forall k :: 0 <= k < |es| ==> es[k] == sources[k].extent
  {
    seq(|sources|, k requires 0 <= k < |sources| => sources[k].extent)
  }

  ghost predicate OwnedBy(sources: seq<Source>, r: nat, b: nat) {
    exists k :: 0 <= k < |sources| && sources[k].ref == r && sources[k].extent.Has(b)
  }

  ghost predicate SourceOk(refs: seq<seq<Extent>>, source: Source) {
    source.ref < |refs| && forall b: nat :: source.extent.Has(b) ==> Covers(refs[source.ref], b)
  }

  /** The sources list the extents of all references in block order. */
  ghost predicate SourcesOk(refs: seq<seq<Extent>>, sources: seq<Source>) {
    && Ordered(Ranges(sources))
    && (forall k :: 0 <= k < |sources| ==> SourceOk(refs, sources[k]))
    && (forall r: nat, b: nat :: r < |refs| && Covers(refs[r], b) ==> OwnedBy(sources, r, b))
  }

  /** The local file is right about a block: it was written here, or whatever the plan has for it was fetched. */
  ghost predicate Settled(refs: seq<seq<Extent>>, loaded: seq<bool>, overridden: seq<Extent>, b: nat)
    requires |loaded| == |refs|
  {
    Covers(overridden, b) || forall r :: 0 <= r < |refs| && Covers(refs[r], b) ==> loaded[r]
  }

  /**
   The lazy image stands for `view`: settled blocks are in the file, and the
   others are still as the plan's image has them.
   */
  ghost predicate LazyOk(
    refs: seq<seq<Extent>>, loaded: seq<bool>, overridden: seq<Extent>, file: seq<Block>, view: seq<Block>,
    eager: seq<Block>)
  {
    && |loaded| == |refs| && |file| == |view| == |eager| && Ordered(overridden)
    && (forall b {:trigger file[b]} {:trigger view[b]} :: 0 <= b < |file| ==>
          if Settled(refs, loaded, overridden, b) then file[b] == view[b] else view[b] == eager[b])
  }

  /** The segments the references name hold what the eagerly restored image has. */
  ghost predicate SegmentsOk(refs: seq<seq<Extent>>, segments: seq<map<nat, Block>>, eager: seq<Block>) {
    && |segments| == |refs|
    && (forall r, b: nat {:trigger Covers(refs[r], b)} :: 0 <= r < |refs| && Covers(refs[r], b) ==>
          b < |eager| && b in segments[r] && segments[r][b] == eager[b])
  }

  // ----- Preparing the sources -----

  /** An extent that overlaps nothing fits in front of the first one that ends behind its start. */
  lemma InsertOrdered(es: seq<Extent>, p: nat, e: Extent)
    requires Ordered(es) && p <= |es| && e.blocks > 0
    requires forall k :: 0 <= k < p ==> es[k].End() <= e.start
    requires forall k :: p <= k < |es| ==> es[k].End() > e.start
    requires forall b: nat :: e.Has(b) ==> !Covers(es, b)
    ensures Ordered(es[..p] + [e] + es[p..])
  {
    forall k | p <= k < |es| ensures e.End() <= es[k].start {
      if es[k].start < e.End() {
        var b := if es[k].start < e.start then e.start else es[k].start;
        assert es[k].Has(b) && e.Has(b);
      }
    }
  }

  /** One more source, in its place by block number (the sort of `PrepareLazyRestore`). */
  method InsertSource(sources: seq<Source>, source: Source) returns (more: seq<Source>)
    requires Ordered(Ranges(sources)) && source.extent.blocks > 0
    requires forall b: nat :: source.extent.Has(b) ==> !Covers(Ranges(sources), b)
    ensures Ordered(Ranges(more)) && |more| == |sources| + 1 && source in more
    ensures forall x :: x in more <==> x in sources || x == source
    ensures forall b: nat :: Covers(Ranges(more), b) <==> Covers(Ranges(sources), b) || source.extent.Has(b)
  {
    var es := Ranges(sources);
    var p := FirstEndingAfter(es, source.extent.start);
    more := sources[..p] + [source] + sources[p..];
    InsertOrdered(es, p, source.extent);
    assert Ranges(more) == es[..p] + [source.extent] + es[p..];
    forall b: nat ensures Covers(Ranges(more), b) <==> Covers(es, b) || source.extent.Has(b) {
      CoversConcat(es[..p] + [source.extent], es[p..], b);
      CoversAppend(es[..p], source.extent, b);
      CoversConcat(es[..p], es[p..], b);
      assert es[..p] + es[p..] == es;
    }
  }

  /** The sources of the first references, in block order. */
  ghost predicate SourcesUpTo(refs: seq<seq<Extent>>, sources: seq<Source>, r: nat, i: nat)
    requires r < |refs| && i <= |refs[r]|
  {
    && Ordered(Ranges(sources)) && (forall x :: x in sources ==> SourceOk(refs, x))
    && (forall b: nat :: Covers(Ranges(sources), b) <==>
          (exists q :: 0 <= q < r && Covers(refs[q], b)) || Covers(refs[r][..i], b))
    && (forall q: nat, b: nat :: (q < r && Covers(refs[q], b)) || (q == r && Covers(refs[r][..i], b)) ==>
          Owned(sources, q, b))
  }

  ghost predicate Owned(
    sources: seq<Source>, r: nat, b: nat)
  {
    exists x :: x in sources && x.ref == r && x.extent.Has(b)
  }

  lemma OwnedGrows(sources: seq<Source>, more: seq<Source>, r: nat, b: nat)
    requires Owned(sources, r, b) && forall x :: x in sources ==> x in more
    ensures Owned(more, r, b)
  {
    var x :| x in sources && x.ref == r && x.extent.Has(b);
    assert x in more;
  }

  /** The next extent of a reference overlaps no source so far. */
  lemma NextIsFree(refs: seq<seq<Extent>>, sources: seq<Source>, r: nat, i: nat)
    requires RefsOk(refs) && r < |refs| && i < |refs[r]| && SourcesUpTo(refs, sources, r, i)
    ensures refs[r][i].blocks > 0 && SourceOk(refs, Source(refs[r][i], r))
    ensures forall b: nat :: refs[r][i].Has(b) ==> !Covers(Ranges(sources), b)
  {
    forall b: nat | refs[r][i].Has(b) ensures !Covers(Ranges(sources), b) && Covers(refs[r], b) {
      assert Covers(refs[r], b);
      assert !Covers(refs[r][..i], b);
    }
  }

  lemma OneMoreSource(refs: seq<seq<Extent>>, sources: seq<Source>, more: seq<Source>, r: nat, i: nat)
    requires RefsOk(refs) && r < |refs| && i < |refs[r]| && SourcesUpTo(refs, sources, r, i)
    requires Ordered(Ranges(more)) && forall x :: x in more <==> x in sources || x == Source(refs[r][i], r)
    requires forall b: nat :: Covers(Ranges(more), b) <==> Covers(Ranges(sources), b) || refs[r][i].Has(b)
    ensures SourcesUpTo(refs, more, r, i + 1)
  {
    NextIsFree(refs, sources, r, i);
    forall b: nat ensures Covers(refs[r][..i + 1], b) <==> Covers(refs[r][..i], b) || refs[r][i].Has(b) {
      CoversPrefix(refs[r], i, b);
    }
    forall q: nat, b: nat | (q < r && Covers(refs[q], b)) || (q == r && Covers(refs[r][..i + 1], b))
      ensures Owned(more, q, b) {
      if (q < r && Covers(refs[q], b)) || (q == r && Covers(refs[r][..i], b)) {
        OwnedGrows(sources, more, q, b);
      } else {
        assert Source(refs[r][i], r) in more;
      }
    }
  }

  lemma NextReference(refs: seq<seq<Extent>>, sources: seq<Source>, r: nat)
    requires r + 1 < |refs| && SourcesUpTo(refs, sources, r, |refs[r]|)
    ensures SourcesUpTo(refs, sources, r + 1, 0)
  {
    assert refs[r][..|refs[r]|] == refs[r];
    assert refs[r + 1][..0] == [];
  }

  lemma AllSources(refs: seq<seq<Extent>>, sources: seq<Source>)
    requires refs != [] && SourcesUpTo(refs, sources, |refs| - 1, |refs[|refs| - 1]|)
    ensures SourcesOk(refs, sources)
  {
    var r := |refs| - 1;
    assert refs[r][..|refs[r]|] == refs[r];
    forall q: nat, b: nat | q < |refs| && Covers(refs[q], b) ensures OwnedBy(sources, q, b) {
      assert Owned(sources, q, b);
      var x :| x in sources && x.ref == q && x.extent.Has(b);
      var k :| 0 <= k < |sources| && sources[k] == x;
    }
  }

  /** `PrepareLazyRestore`: the extents of all references, each with its reference, in block order. */
  method SortedSources(refs: seq<seq<Extent>>) returns (sources: seq<Source>)
    requires RefsOk(refs)
    ensures SourcesOk(refs, sources)
  {
    sources := [];
    if |refs| == 0 { return; }
    assert refs[0][..0] == [];
    for r := 0 to |refs|
      invariant r < |refs| ==> SourcesUpTo(refs, sources, r, 0)
      invariant r == |refs| ==> SourcesUpTo(refs, sources, r - 1, |refs[r - 1]|)
    {
      for i := 0 to |refs[r]|
        invariant SourcesUpTo(refs, sources, r, i)
      {
        NextIsFree(refs, sources, r, i);
        ghost var before := sources;
        sources := InsertSource(sources, Source(refs[r][i], r));
        OneMoreSource(refs, before, sources, r, i);
      }
      if r + 1 < |refs| { NextReference(refs, sources, r); }
    }
    AllSources(refs, sources);
  }

  // ----- Which segments a request needs -----

  /** Block `b` is in a reference that was not fetched, and was not written here. */
  ghost predicate Pending(refs: seq<seq<Extent>>, loaded: seq<bool>, overridden: seq<Extent>, r: nat, b: nat)
    requires |loaded| == |refs|
  {
    r < |refs| && !loaded[r] && Covers(refs[r], b) && !Covers(overridden, b)
  }

  ghost predicate NeededRef(
    refs: seq<seq<Extent>>, loaded: seq<bool>, overridden: seq<Extent>, requested: seq<Extent>, r: nat, b: nat)
    requires |loaded| == |refs|
  {
    Pending(refs, loaded, overridden, r, b) && Covers(requested, b)
  }

  /** Some requested block needs the reference. */
  ghost predicate Needs(
    refs: seq<seq<Extent>>, loaded: seq<bool>, overridden: seq<Extent>, requested: seq<Extent>, r: nat)
    requires |loaded| == |refs|
  {
    exists b: nat :: NeededRef(refs, loaded, overridden, requested, r, b)
  }

  /** A source that is passed over holds no block of the request that is still missing. */
  ghost predicate Passed(
    source: Source, loaded: seq<bool>, overridden: seq<Extent>, requested: seq<Extent>, wanted: set<nat>)
    requires source.ref < |loaded|
  {
    forall b: nat :: source.extent.Has(b) && Covers(requested, b) && !Covers(overridden, b) ==>
      loaded[source.ref] || source.ref in wanted
  }

  /**
   The scan of `hydrateLocked` over the sources that can overlap the request finds exactly the
   references it needs.
   */
  method WantedRefs(
    refs: seq<seq<Extent>>, sources: seq<Source>, loaded: seq<bool>, overridden: seq<Extent>, requested: seq<Extent>)
    returns (wanted: set<nat>)
    requires SourcesOk(refs, sources) && |loaded| == |refs| && Ordered(overridden) && Ordered(requested)
    ensures forall r: nat :: r in wanted <==> Needs(refs, loaded, overridden, requested, r)
  {
    wanted := {};
    if |requested| == 0 { return; }
    var last := requested[|requested| - 1].End();
    var index := FirstEndingAfter(Ranges(sources), requested[0].start);
    ghost var first := index;
    while index < |sources| && sources[index].extent.start < last
      invariant first <= index <= |sources|
      invariant forall r :: r in wanted ==> Needs(refs, loaded, overridden, requested, r)
      invariant forall k :: first <= k < index ==> Passed(sources[k], loaded, overridden, requested, wanted)
    {
      var source := sources[index];
      assert SourceOk(refs, source);
      if !loaded[source.ref] {
        var overlap := Intersect(source.extent, requested);
        if |overlap| != 0 {
          var visible := Subtract(overlap, overridden);
          if |visible| > 0 {
            assert visible[0].Has(visible[0].start);
            assert Covers(visible, visible[0].start);
            assert NeededRef(refs, loaded, overridden, requested, source.ref, visible[0].start);
            wanted := wanted + {source.ref};
          }
          assert Passed(source, loaded, overridden, requested, wanted);
        }
      }
      index := index + 1;
    }
    forall r: nat, b: nat | NeededRef(refs, loaded, overridden, requested, r, b) ensures r in wanted {
      ScanReaches(refs, sources, requested, first, index, last, r, b);
    }
  }

  /** Every source of a requested block lies in the scanned range. */
  lemma ScanReaches(
    refs: seq<seq<Extent>>, sources: seq<Source>, requested: seq<Extent>, first: nat, index: nat, last: nat, r: nat,
    b: nat)
    requires SourcesOk(refs, sources) && Ordered(requested) && requested != [] && Covers(requested, b)
    requires first <= index <= |sources| && last == requested[|requested| - 1].End() && r < |refs| && Covers(refs[r], b)
    requires forall k :: 0 <= k < first ==> Ranges(sources)[k].End() <= requested[0].start
    requires index < |sources| ==> sources[index].extent.start >= last
    ensures exists k :: first <= k < index && sources[k].ref == r && sources[k].extent.Has(b)
  {
    assert OwnedBy(sources, r, b);
    var k :| 0 <= k < |sources| && sources[k].ref == r && sources[k].extent.Has(b);
    RequestBounds(requested, b);
    StartsInOrder(refs, sources, index, k);
  }

  lemma StartsInOrder(refs: seq<seq<Extent>>, sources: seq<Source>, i: nat, k: nat)
    requires SourcesOk(refs, sources) && i <= |sources| && k < |sources|
    ensures Ranges(sources)[k] == sources[k].extent && (i <= k ==> sources[i].extent.start <= sources[k].extent.start)
  {
  }

  lemma RequestBounds(requested: seq<Extent>, b: nat)
    requires Ordered(requested) && Covers(requested, b)
    ensures requested[0].start <= b < requested[|requested| - 1].End()
  {
    var i :| 0 <= i < |requested| && requested[i].Has(b);
    if i > 0 { assert requested[0].End() <= requested[i].start; }
    if i < |requested| - 1 { assert requested[i].End() <= requested[|requested| - 1].start; }
  }

  // ----- Fetching -----

  /** One extent of a segment is written to the file. */
  method WriteExtent(file: seq<Block>, segment: map<nat, Block>, e: Extent) returns (r: seq<Block>)
    requires e.End() <= |file| && forall b: nat :: e.Has(b) ==> b in segment
    ensures |r| == |file|
    ensures forall b :: 0 <= b < |file| ==> r[b] == if e.Has(b) then segment[b] else file[b]
  {
    r := file;
    for b := e.start to e.End()
      invariant |r| == |file|
      invariant forall c :: 0 <= c < |file| ==> r[c] == if e.start <= c < b then segment[c] else file[c]
    {
      assert e.Has(b);
      r := r[b := segment[b]];
    }
  }

  /** `applyObjectRef` on selected extents: exactly these blocks are written. */
  method ApplySegment(file: seq<Block>, segment: map<nat, Block>, selected: seq<Extent>) returns (r: seq<Block>)
    requires Within(selected, |file|) && forall b: nat :: Covers(selected, b) ==> b in segment
    ensures |r| == |file|
    ensures forall b :: 0 <= b < |file| ==> r[b] == if Covers(selected, b) then segment[b] else file[b]
  {
    r := file;
    for n := 0 to |selected|
      invariant |r| == |file|
      invariant forall b :: 0 <= b < |file| ==> r[b] == if Covers(selected[..n], b) then segment[b] else file[b]
    {
      CoversNext(selected, n);
      r := WriteExtent(r, segment, selected[n]);
    }
    assert selected[..|selected|] == selected;
  }

  lemma CoversNext(es: seq<Extent>, n: nat)
    requires n < |es|
    ensures forall b: nat :: Covers(es[..n + 1], b) <==> Covers(es[..n], b) || es[n].Has(b)
    ensures forall b: nat :: es[n].Has(b) ==> Covers(es, b)
  {
    assert es[..n + 1] == es[..n] + [es[n]];
    forall b: nat ensures Covers(es[..n + 1], b) <==> Covers(es[..n], b) || es[n].Has(b) {
      CoversAppend(es[..n], es[n], b);
    }
  }

  /** Loading a reference fills in its blocks and touches no block that was written locally. */
  lemma LoadKeeps(
    refs: seq<seq<Extent>>, loaded: seq<bool>, overridden: seq<Extent>, file: seq<Block>, view: seq<Block>,
    eager: seq<Block>, r: nat, selected: seq<Extent>, filled: seq<Block>)
    requires RefsOk(refs) && LazyOk(refs, loaded, overridden, file, view, eager) && r < |refs| && !loaded[r]
    requires forall b: nat :: Covers(selected, b) <==> Covers(refs[r], b) && !Covers(overridden, b)
    requires |filled| == |file|
    requires forall b :: 0 <= b < |file| ==> filled[b] == if Covers(selected, b) then eager[b] else file[b]
    ensures LazyOk(refs, loaded[r := true], overridden, filled, view, eager)
  {
    var after := loaded[r := true];
    forall b | 0 <= b < |file|
      ensures if Settled(refs, after, overridden, b) then filled[b] == view[b] else view[b] == eager[b]
    {
      assert file[b] == file[b];
      SettledAfterLoad(refs, loaded, overridden, r, b);
    }
  }

  lemma OneOwner(refs: seq<seq<Extent>>, r: nat, q: nat, b: nat)
    requires RefsOk(refs) && r < |refs| && q < |refs| && Covers(refs[r], b) && Covers(refs[q], b)
    ensures r == q
  {
  }

  lemma SettledAfterLoad(refs: seq<seq<Extent>>, loaded: seq<bool>, overridden: seq<Extent>, r: nat, b: nat)
    requires RefsOk(refs) && |loaded| == |refs| && r < |refs| && !loaded[r]
    ensures Settled(refs, loaded[r := true], overridden, b) <==>
            Settled(refs, loaded, overridden, b) || Covers(refs[r], b)
    ensures Covers(refs[r], b) && !Covers(overridden, b) ==> !Settled(refs, loaded, overridden, b)
  {
    var after := loaded[r := true];
    if Covers(refs[r], b) {
      forall q | 0 <= q < |refs| && Covers(refs[q], b) ensures after[q] {
        OneOwner(refs, r, q, b);
      }
    } else {
      assert forall q :: 0 <= q < |refs| && Covers(refs[q], b) ==> after[q] == loaded[q];
    }
  }

  // ----- The image -----

  /** What a failed fetch leaves behind: fewer segments, but nothing wrong. */
  method Hydrated(
    refs: seq<seq<Extent>>, segments: seq<map<nat, Block>>, wanted: set<nat>, fetched: seq<bool>, loaded: seq<bool>,
    overridden: seq<Extent>, file: seq<Block>, ghost view: seq<Block>, ghost eager: seq<Block>)
    returns (ok: bool, now: seq<bool>, image: seq<Block>)
    requires RefsOk(refs) && SegmentsOk(refs, segments, eager) && |fetched| == |refs|
    requires LazyOk(refs, loaded, overridden, file, view, eager) && forall r :: r in wanted ==> r < |refs| && !loaded[r]
    ensures LazyOk(refs, now, overridden, image, view, eager)
    ensures forall r :: 0 <= r < |refs| && loaded[r] ==> now[r]
    ensures ok ==> forall r :: r in wanted ==> now[r]
    ensures ok <==> forall r, b: nat :: r in wanted && Pending(refs, loaded, overridden, r, b) ==> fetched[r]
    ensures forall b :: 0 <= b < |file| && Covers(overridden, b) ==> image[b] == file[b]
    ensures forall b :: 0 <= b < |file| ==> image[b] == file[b] || image[b] == eager[b]
  {
    now, image := loaded, file;
    for r := 0 to |refs|
      invariant LazyOk(refs, now, overridden, image, view, eager) && |image| == |file|
      invariant forall q :: 0 <= q < |refs| && loaded[q] ==> now[q]
      invariant forall q :: r <= q < |refs| ==> now[q] == loaded[q]
      invariant forall q :: q in wanted && q < r ==> now[q]
      invariant forall q, b: nat :: q in wanted && q < r && Pending(refs, loaded, overridden, q, b) ==> fetched[q]
      invariant forall b :: 0 <= b < |file| && Covers(overridden, b) ==> image[b] == file[b]
      invariant forall b :: 0 <= b < |file| ==> image[b] == file[b] || image[b] == eager[b]
    {
      if r in wanted {
        var selected := Subtract(refs[r], overridden);
        SelectedOk(refs, segments, eager, overridden, r, selected, |file|);
        if |selected| != 0 && !fetched[r] {
          assert selected[0].Has(selected[0].start);
          assert Covers(selected, selected[0].start);
          assert Pending(refs, loaded, overridden, r, selected[0].start);
          return false, now, image;
        }
        var filled := ApplySegment(image, segments[r], selected);
        LoadKeeps(refs, now, overridden, image, view, eager, r, selected, filled);
        image := filled;
        now := now[r := true];
      }
    }
    return true, now, image;
  }

  lemma SelectedOk(
    refs: seq<seq<Extent>>, segments: seq<map<nat, Block>>, eager: seq<Block>, overridden: seq<Extent>, r: nat,
    selected: seq<Extent>, size: nat)
    requires SegmentsOk(refs, segments, eager) && r < |refs| && size == |eager| && Ordered(selected)
    requires forall b: nat :: Covers(selected, b) <==> Covers(refs[r], b) && !Covers(overridden, b)
    ensures Within(selected, size)
    ensures forall b: nat :: Covers(selected, b) ==> b in segments[r] && segments[r][b] == eager[b]
  {
    forall i | 0 <= i < |selected| ensures selected[i].End() <= size {
      var b := selected[i].End() - 1;
      assert selected[i].Has(b);
      assert Covers(selected, b);
    }
  }

  /**
   `hydrateLocked`: it succeeds exactly when every reference that a requested
   block needs can be fetched, and then every requested block is in the file.
   */
  method Hydrate(
    refs: seq<seq<Extent>>, sources: seq<Source>, segments: seq<map<nat, Block>>, fetched: seq<bool>,
    requested: seq<Extent>, loaded: seq<bool>, overridden: seq<Extent>, file: seq<Block>, ghost view: seq<Block>,
    ghost eager: seq<Block>)
    returns (ok: bool, now: seq<bool>, image: seq<Block>)
    requires RefsOk(refs) && SourcesOk(refs, sources) && SegmentsOk(refs, segments, eager) && |fetched| == |refs|
    requires LazyOk(refs, loaded, overridden, file, view, eager) && Ordered(requested)
    ensures LazyOk(refs, now, overridden, image, view, eager)
    ensures ok <==> forall r: nat :: Needs(refs, loaded, overridden, requested, r) ==> fetched[r]
    ensures ok ==> forall b: nat :: Covers(requested, b) ==> Settled(refs, now, overridden, b)
    ensures forall b :: 0 <= b < |file| && Covers(overridden, b) ==> image[b] == file[b]
    ensures forall b :: 0 <= b < |file| ==> image[b] == file[b] || image[b] == eager[b]
  {
    var wanted := WantedRefs(refs, sources, loaded, overridden, requested);
    assert forall r :: r in wanted ==> Needs(refs, loaded, overridden, requested, r) && r < |refs| && !loaded[r];
    ok, now, image := Hydrated(refs, segments, wanted, fetched, loaded, overridden, file, view, eager);
    forall r: nat | Needs(refs, loaded, overridden, requested, r) && ok ensures fetched[r] {
      var b: nat :| NeededRef(refs, loaded, overridden, requested, r, b);
    }
    if ok {
      forall b: nat | Covers(requested, b) ensures Settled(refs, now, overridden, b) {
        if !Covers(overridden, b) {
          forall r | 0 <= r < |refs| && Covers(refs[r], b) ensures now[r] {
            if !loaded[r] { assert NeededRef(refs, loaded, overridden, requested, r, b); }
          }
        }
      }
    }
  }
}
