/**
 Restore plans (internal/replica/remote.go: `restorePlan`, `applyDeltaToPlan`,
 `checkpointRefs`, `checkpointReadyRefs`, `attachBundleToRefs`).

 A volume is a sequence of manifests. A delta says which blocks of which
 segments it publishes; a checkpoint restates, for every block, the segment
 that holds its newest non-zero content. A plan names, for every block, the
 source in the newest manifest that touches it.
 */
module RestorePlans {
  import opened Options
  import opened Extents

  /** The content of one block; 0 is the all-zero block. */
  type Data = nat
  /** An object name. Names are content hashes, so a name fixes a content. */
  type Key = nat
  type Image = seq<Data>

  /** The decoded blocks of every segment, by segment digest. */
  type Contents = map<Key, map<nat, Data>>

  /**
   Where the bytes of a segment are found: as an object, inside the manifest
   that carries the reference, or inside another manifest at an index. The
   bundle is a hint recorded at publication; `carried` says that the reference
   still has a copy of the bytes.
   */
  datatype Storage =
    | External(key: Key)
    | Inline
    | FromManifest(manifest: Key, bundle: Option<Key>, index: nat, carried: bool)

  datatype ObjectRef = ObjectRef(digest: Key, storage: Storage, extents: seq<Extent>, zeroExtents: seq<Extent>)

  datatype Kind = Delta | Checkpoint

  /** A manifest together with its name and the bundle it was read from. */
  datatype Entry = Entry(key: Key, bundle: Option<Key>, kind: Kind, segments: seq<ObjectRef>)

  /** A segment source without the recorded bundle location. */
  datatype Source =
    | SegmentObject(digest: Key, key: Key)
    | Unnamed(digest: Key)
    | Slot(digest: Key, manifest: Key, index: nat)

  function SourceOf(ref: ObjectRef): Source {
    match ref.storage
    case External(key) => SegmentObject(ref.digest, key)
    case Inline => Unnamed(ref.digest)
    case FromManifest(manifest, _, index, _) => Slot(ref.digest, manifest, index)
  }

  ghost predicate Disjoint(refs: seq<ObjectRef>) {
    forall i, j, b: nat :: 0 <= i < j < |refs| ==> !(Covers(refs[i].extents, b) && Covers(refs[j].extents, b))
  }

  ghost predicate ValidRef(ref: ObjectRef) {
    && Ordered(ref.extents) && Ordered(ref.zeroExtents)
    && (forall b: nat :: Covers(ref.zeroExtents, b) ==> Covers(ref.extents, b))
  }

  /** What `validateManifest` establishes about the references of a manifest. */
  ghost predicate ValidRefs(refs: seq<ObjectRef>) {
    && (forall i :: 0 <= i < |refs| ==> ValidRef(refs[i]))
    && Disjoint(refs)
  }

  /** References without zero extents: every named block has non-zero content to fetch. */
  ghost predicate ValidPlan(refs: seq<ObjectRef>) {
    && ValidRefs(refs)
    && (forall i :: 0 <= i < |refs| ==>
        refs[i].extents != [] && refs[i].zeroExtents == [] && !refs[i].storage.Inline?)
  }

  ghost predicate Touches(refs: seq<ObjectRef>, b: nat) {
    exists i :: 0 <= i < |refs| && Covers(refs[i].extents, b)
  }

  ghost function Owner(refs: seq<ObjectRef>, b: nat): ObjectRef
    requires Touches(refs, b)
  {
    var i :| 0 <= i < |refs| && Covers(refs[i].extents, b);
    refs[i]
  }

  /** The source a list of references names for a block; none for a zero block. */
  ghost function Names(refs: seq<ObjectRef>, b: nat): Option<Source> {
    if Touches(refs, b) && !Covers(Owner(refs, b).zeroExtents, b) then Some(SourceOf(Owner(refs, b))) else None
  }

  lemma OwnerIs(refs: seq<ObjectRef>, i: nat, b: nat)
    requires Disjoint(refs) && i < |refs| && Covers(refs[i].extents, b)
    ensures Touches(refs, b) && Owner(refs, b) == refs[i]
  {
    assert Touches(refs, b);
    var j :| 0 <= j < |refs| && Covers(refs[j].extents, b) && Owner(refs, b) == refs[j];
    assert i == j;
  }

  lemma NamesAt(refs: seq<ObjectRef>, i: nat, b: nat)
    requires Disjoint(refs) && i < |refs| && Covers(refs[i].extents, b)
    ensures Names(refs, b) == if Covers(refs[i].zeroExtents, b) then None else Some(SourceOf(refs[i]))
  {
    OwnerIs(refs, i, b);
  }

  /** Two lists that touch different blocks can be put one behind the other. */
  lemma NamesConcat(xs: seq<ObjectRef>, ys: seq<ObjectRef>)
    requires ValidPlan(xs) && ValidPlan(ys)
    requires forall b: nat :: !(Touches(xs, b) && Touches(ys, b))
    ensures ValidPlan(xs + ys)
    ensures forall b: nat :: Touches(xs + ys, b) <==> Touches(xs, b) || Touches(ys, b)
    ensures forall b: nat :: Names(xs + ys, b) == if Touches(xs, b) then Names(xs, b) else Names(ys, b)
  {
    var all := xs + ys;
    forall i, j, b: nat | 0 <= i < j < |all| ensures !(Covers(all[i].extents, b) && Covers(all[j].extents, b)) {
      if i < |xs| <= j && Covers(all[i].extents, b) && Covers(all[j].extents, b) {
        assert Touches(xs, b);
        assert Covers(ys[j - |xs|].extents, b) && Touches(ys, b);
      }
    }
    forall b: nat
      ensures Touches(all, b) <==> Touches(xs, b) || Touches(ys, b)
      ensures Names(all, b) == if Touches(xs, b) then Names(xs, b) else Names(ys, b)
    {
      if Touches(xs, b) {
        var i :| 0 <= i < |xs| && Covers(xs[i].extents, b);
        assert all[i] == xs[i];
        OwnerIs(xs, i, b);
        OwnerIs(all, i, b);
      } else if Touches(ys, b) {
        var i :| 0 <= i < |ys| && Covers(ys[i].extents, b);
        assert all[|xs| + i] == ys[i];
        OwnerIs(ys, i, b);
        OwnerIs(all, |xs| + i, b);
      }
    }
  }

  /** A reference to an inline segment, rewritten to name the manifest it sits in. */
  function Locate(ref: ObjectRef, key: Key, bundle: Option<Key>, index: nat, carried: bool): ObjectRef {
    if ref.storage.Inline? then ref.(storage := FromManifest(key, bundle, index, carried)) else ref
  }

  function Located(entry: Entry, carried: bool): (refs: seq<ObjectRef>)
    ensures |refs| == |entry.segments|
    ensures forall i :: 0 <= i < |refs| ==> refs[i].extents == entry.segments[i].extents
    ensures forall i :: 0 <= i < |refs| ==> refs[i].zeroExtents == entry.segments[i].zeroExtents
    ensures forall i :: 0 <= i < |refs| ==> refs[i].digest == entry.segments[i].digest
  {
    seq(|entry.segments|, i requires 0 <= i < |entry.segments| =>
      Locate(entry.segments[i], entry.key, entry.bundle, i, carried))
  }

  /** A reference has the storage of one of the segments. */
  ghost predicate TakenFrom(ref: ObjectRef, segments: seq<ObjectRef>) {
    exists k :: 0 <= k < |segments| && segments[k].storage == ref.storage
  }

  ghost predicate AllTaken(refs: seq<ObjectRef>, segments: seq<ObjectRef>) {
    forall i :: 0 <= i < |refs| ==> TakenFrom(refs[i], segments)
  }

  /** Every reference of a plan has the storage some manifest of the chain names, as located when it was read. */
  ghost predicate PlanIsTaken(refs: seq<ObjectRef>, chain: seq<Entry>) {
    forall i :: 0 <= i < |refs| ==> exists n :: 0 <= n < |chain| && TakenFrom(refs[i], Located(chain[n], true))
  }

  lemma TakenNext(refs: seq<ObjectRef>, visible: seq<ObjectRef>, chain: seq<Entry>, n: nat)
    requires n < |chain| && PlanIsTaken(refs, chain[..n]) && AllTaken(visible, Located(chain[n], true))
    ensures PlanIsTaken(refs + visible, chain[..n + 1])
  {
    var more := chain[..n + 1];
    forall i | 0 <= i < |refs + visible|
      ensures exists m :: 0 <= m < |more| && TakenFrom((refs + visible)[i], Located(more[m], true)) {
      if i < |refs| {
        var m :| 0 <= m < n && TakenFrom(refs[i], Located(chain[..n][m], true));
        assert more[m] == chain[..n][m];
      } else {
        assert TakenFrom(visible[i - |refs|], Located(more[n], true));
      }
    }
  }

  /** The specification of a plan: the newest manifest touching a block decides. */
  ghost function Newest(chain: seq<Entry>, b: nat): Option<Source> {
    if chain == [] then None
    else if Touches(chain[0].segments, b) then Names(Located(chain[0], true), b)
    else Newest(chain[1..], b)
  }

  ghost predicate TouchedBy(chain: seq<Entry>, b: nat) {
    exists i :: 0 <= i < |chain| && Touches(chain[i].segments, b)
  }

  ghost predicate IsPlanFor(refs: seq<ObjectRef>, chain: seq<Entry>) {
    && ValidPlan(refs)
    && (forall b: nat :: Names(refs, b) == Newest(chain, b))
  }

  lemma LocatedTouches(entry: Entry, carried: bool, b: nat)
    ensures Touches(Located(entry, carried), b) <==> Touches(entry.segments, b)
  {
    var refs := Located(entry, carried);
    if Touches(refs, b) {
      var i :| 0 <= i < |refs| && Covers(refs[i].extents, b);
      assert Covers(entry.segments[i].extents, b);
    }
    if Touches(entry.segments, b) {
      var i :| 0 <= i < |entry.segments| && Covers(entry.segments[i].extents, b);
      assert Covers(refs[i].extents, b);
    }
  }

  lemma LocatedValid(entry: Entry, carried: bool)
    requires ValidRefs(entry.segments)
    ensures ValidRefs(Located(entry, carried))
    ensures forall i :: 0 <= i < |entry.segments| ==> !Located(entry, carried)[i].storage.Inline?
  {
  }

  /** Whether a copy of the inline bytes is carried along does not change the source. */
  lemma CarriedIsIrrelevant(entry: Entry, bundle: Option<Key>, b: nat)
    requires ValidRefs(entry.segments)
    ensures Names(Located(entry.(bundle := bundle), false), b) == Names(Located(entry, true), b)
  {
    var xs, ys := Located(entry.(bundle := bundle), false), Located(entry, true);
    LocatedValid(entry.(bundle := bundle), false);
    LocatedValid(entry, true);
    LocatedTouches(entry.(bundle := bundle), false, b);
    LocatedTouches(entry, true, b);
    if Touches(entry.segments, b) {
      var i :| 0 <= i < |entry.segments| && Covers(entry.segments[i].extents, b);
      NamesAt(xs, i, b);
      NamesAt(ys, i, b);
      assert SourceOf(xs[i]) == SourceOf(ys[i]);
    }
  }

  /** Reading one manifest further back only decides blocks nothing newer touched. */
  lemma {:induction false} NewestExtend(chain: seq<Entry>, entry: Entry, b: nat)
    ensures Newest(chain + [entry], b) ==
            if TouchedBy(chain, b) then Newest(chain, b) else Newest([entry], b)
    ensures TouchedBy(chain + [entry], b) <==> TouchedBy(chain, b) || Touches(entry.segments, b)
  {
    var all := chain + [entry];
    assert all[|chain|] == entry;
    if TouchedBy(chain, b) {
      var i :| 0 <= i < |chain| && Touches(chain[i].segments, b);
      assert Touches(all[i].segments, b);
    }
    if chain == [] {
      assert all == [entry];
    } else {
      assert all[1..] == chain[1..] + [entry] && all[0] == chain[0];
      NewestExtend(chain[1..], entry, b);
      TouchedByFirst(chain, b);
    }
  }

  lemma TouchedByFirst(chain: seq<Entry>, b: nat)
    requires chain != []
    ensures TouchedBy(chain, b) <==> Touches(chain[0].segments, b) || TouchedBy(chain[1..], b)
  {
    if TouchedBy(chain[1..], b) {
      var i :| 0 <= i < |chain[1..]| && Touches(chain[1..][i].segments, b);
      assert Touches(chain[i + 1].segments, b);
    }
    if TouchedBy(chain, b) {
      var i :| 0 <= i < |chain| && Touches(chain[i].segments, b);
      assert i == 0 || chain[1..][i - 1] == chain[i];
    }
  }

  /** What one visible part of a reference contributes to a plan. */
  lemma KeepVisible(refs: seq<ObjectRef>, original: ObjectRef, visible: seq<Extent>)
    requires ValidPlan(refs) && Ordered(visible) && visible != [] && !original.storage.Inline?
    requires forall b: nat :: Covers(visible, b) ==> !Touches(refs, b)
    ensures var next := refs + [original.(extents := visible, zeroExtents := [])];
            && ValidPlan(next)
            && (forall b: nat :: Touches(next, b) <==> Touches(refs, b) || Covers(visible, b))
            && (forall b: nat :: Names(next, b) == if Covers(visible, b) then Some(SourceOf(original))
                  else Names(refs, b))
  {
    var ref := original.(extents := visible, zeroExtents := []);
    forall b: nat
      ensures Touches([ref], b) <==> Covers(visible, b)
      ensures Names([ref], b) == if Covers(visible, b) then Some(SourceOf(original)) else None
    {
      if Covers(visible, b) {
        assert Covers([ref][0].extents, b);
        OwnerIs([ref], 0, b);
        assert !Covers([], b);
      }
    }
    NamesConcat(refs, [ref]);
  }

  /**
   The body of `restorePlan` for one manifest: the blocks of its references
   that no newer manifest touched and that are not recorded as zero.
   */
  method VisibleRefs(segments: seq<ObjectRef>, covered: seq<Extent>) returns (refs: seq<ObjectRef>)
    requires ValidRefs(segments) && Ordered(covered)
    requires forall i :: 0 <= i < |segments| ==> !segments[i].storage.Inline?
    ensures ValidPlan(refs)
    ensures forall b: nat :: Touches(refs, b) ==> !Covers(covered, b)
    ensures forall b: nat :: Names(refs, b) == if Covers(covered, b) then None else Names(segments, b)
    ensures AllTaken(refs, segments)
  {
    refs := [];
    for n := 0 to |segments|
      invariant ValidPlan(refs) && AllTaken(refs, segments)
      invariant forall b: nat :: Touches(refs, b) ==> !Covers(covered, b) && Touches(segments[..n], b)
      invariant forall b: nat :: Names(refs, b) == if Covers(covered, b) then None else Names(segments[..n], b)
    {
      var original := segments[n];
      var visible := Subtract(original.extents, covered);
      var nonZero := Subtract(visible, original.zeroExtents);
      PrefixNames(segments, n);
      if |nonZero| > 0 {
        KeepVisible(refs, original, nonZero);
        assert TakenFrom(original.(extents := nonZero, zeroExtents := []), segments);
        refs := refs + [original.(extents := nonZero, zeroExtents := [])];
      } else {
        assert forall b: nat :: !Covers(nonZero, b);
      }
    }
    assert segments[..|segments|] == segments;
  }

  lemma PrefixNames(segments: seq<ObjectRef>, n: nat)
    requires ValidRefs(segments) && n < |segments|
    ensures forall b: nat :: Touches(segments[..n], b) ==> !Covers(segments[n].extents, b)
    ensures forall b: nat :: Touches(segments[..n + 1], b) <==>
            Touches(segments[..n], b) || Covers(segments[n].extents, b)
    ensures forall b: nat :: Names(segments[..n + 1], b) ==
              if Covers(segments[n].extents, b)
              then (if Covers(segments[n].zeroExtents, b) then None else Some(SourceOf(segments[n])))
              else Names(segments[..n], b)
  {
    var xs, ys := segments[..n], segments[..n + 1];
    assert ys[n] == segments[n];
    forall b: nat
      ensures Touches(xs, b) ==> !Covers(segments[n].extents, b)
      ensures Touches(ys, b) <==> Touches(xs, b) || Covers(segments[n].extents, b)
      ensures Names(ys, b) == if Covers(segments[n].extents, b)
              then (if Covers(segments[n].zeroExtents, b) then None else Some(SourceOf(segments[n])))
              else Names(xs, b)
    {
      if Touches(xs, b) {
        var i :| 0 <= i < |xs| && Covers(xs[i].extents, b);
        assert ys[i] == xs[i] == segments[i];
        assert !Covers(segments[n].extents, b);
        OwnerIs(xs, i, b);
        OwnerIs(ys, i, b);
      } else if Covers(segments[n].extents, b) {
        assert Covers(ys[n].extents, b);
        OwnerIs(ys, n, b);
      }
    }
  }

  function FlattenRefs(refs: seq<ObjectRef>): seq<Extent> {
    if refs == [] then [] else FlattenRefs(refs[..|refs| - 1]) + refs[|refs| - 1].extents
  }

  lemma {:induction false} CoversFlattenRefs(refs: seq<ObjectRef>, b: nat)
    ensures Covers(FlattenRefs(refs), b) <==> Touches(refs, b)
  {
    if refs != [] {
      var front, last := refs[..|refs| - 1], refs[|refs| - 1];
      CoversFlattenRefs(front, b);
      CoversConcat(FlattenRefs(front), last.extents, b);
      if Touches(front, b) {
        var i :| 0 <= i < |front| && Covers(front[i].extents, b);
        assert Covers(refs[i].extents, b);
      }
      if Touches(refs, b) {
        var i :| 0 <= i < |refs| && Covers(refs[i].extents, b);
        assert i < |front| ==> Covers(front[i].extents, b);
      }
    }
  }

  /**
   `restorePlan`: pairwise disjoint references that name, for every block, the
   newest non-zero source of the chain, whatever order the segments come in.
   */
  method RestorePlan(chain: seq<Entry>) returns (refs: seq<ObjectRef>)
    requires forall i :: 0 <= i < |chain| ==> ValidRefs(chain[i].segments)
    ensures IsPlanFor(refs, chain) && PlanIsTaken(refs, chain)
  {
    var covered: seq<Extent> := [];
    refs := [];
    for n := 0 to |chain|
      invariant Ordered(covered) && ValidPlan(refs) && PlanIsTaken(refs, chain[..n])
      invariant forall b: nat :: Covers(covered, b) <==> TouchedBy(chain[..n], b)
      invariant forall b: nat :: Touches(refs, b) ==> Covers(covered, b)
      invariant forall b: nat :: Names(refs, b) == Newest(chain[..n], b)
    {
      var entry := chain[n];
      LocatedValid(entry, true);
      var visible := VisibleRefs(Located(entry, true), covered);
      NamesConcat(refs, visible);
      PlanStep(chain, n, refs, visible, covered);
      TakenNext(refs, visible, chain, n);
      refs := refs + visible;
      covered := Union(covered, FlattenRefs(entry.segments));
      forall b: nat
        ensures Covers(covered, b) <==> TouchedBy(chain[..n + 1], b)
        ensures Touches(refs, b) ==> Covers(covered, b)
      {
        CoversFlattenRefs(entry.segments, b);
        NewestExtend(chain[..n], entry, b);
        assert chain[..n + 1] == chain[..n] + [entry];
        VisibleTouches(visible, entry, b);
      }
    }
    assert chain[..|chain|] == chain;
  }

  lemma VisibleTouches(visible: seq<ObjectRef>, entry: Entry, b: nat)
    requires ValidPlan(visible) && ValidRefs(entry.segments)
    requires Names(visible, b) == None || Names(visible, b) == Names(Located(entry, true), b)
    ensures Touches(visible, b) ==> Touches(entry.segments, b)
  {
    if Touches(visible, b) {
      var i :| 0 <= i < |visible| && Covers(visible[i].extents, b);
      OwnerIs(visible, i, b);
      assert Names(visible, b).Some?;
      LocatedTouches(entry, true, b);
    }
  }

  lemma PlanStep(chain: seq<Entry>, n: nat, refs: seq<ObjectRef>, visible: seq<ObjectRef>, covered: seq<Extent>)
    requires n < |chain| && ValidPlan(refs) && ValidPlan(visible)
    requires forall b: nat :: Covers(covered, b) <==> TouchedBy(chain[..n], b)
    requires forall b: nat :: Touches(refs, b) ==> Covers(covered, b)
    requires forall b: nat :: Touches(visible, b) ==> !Covers(covered, b)
    requires forall b: nat :: Names(refs, b) == Newest(chain[..n], b)
    requires forall b: nat :: Names(visible, b) == if Covers(covered, b) then None
             else Names(Located(chain[n], true), b)
    requires forall b: nat :: Names(refs + visible, b) == if Touches(refs, b) then Names(refs, b) else Names(visible, b)
    ensures forall b: nat :: Names(refs + visible, b) == Newest(chain[..n + 1], b)
  {
    forall b: nat ensures Names(refs + visible, b) == Newest(chain[..n + 1], b) {
      assert chain[..n + 1] == chain[..n] + [chain[n]];
      NewestExtend(chain[..n], chain[n], b);
      LocatedTouches(chain[n], true, b);
      assert [chain[n]][1..] == [];
    }
  }

  /** The references of a committed delta as they enter the lease's plan (`checkpointRefs`). */
  function CheckpointRefs(entry: Entry): seq<ObjectRef> {
    Located(entry.(bundle := None), false)
  }

  /** `checkpointReadyRefs`: a reference that names its source drops its own copy of the bytes. */
  function CheckpointReady(refs: seq<ObjectRef>): (r: seq<ObjectRef>)
    ensures |r| == |refs|
    ensures forall i :: 0 <= i < |r| ==>
        && r[i].extents == refs[i].extents && r[i].zeroExtents == refs[i].zeroExtents
        && r[i].digest == refs[i].digest
        && SourceOf(r[i]) == SourceOf(refs[i]) && r[i].storage.Inline? == refs[i].storage.Inline?
    ensures forall i :: 0 <= i < |r| && r[i].storage.FromManifest? ==> !r[i].storage.carried
  {
    seq(|refs|, i requires 0 <= i < |refs| =>
      if refs[i].storage.FromManifest? then refs[i].(storage := refs[i].storage.(carried := false)) else refs[i])
  }

  /** `attachBundleToRefs`: record the bundle a set of manifests moved into. */
  function AttachBundle(refs: seq<ObjectRef>, moved: set<Key>, bundle: Key): (r: seq<ObjectRef>)
    ensures |r| == |refs|
    ensures forall i :: 0 <= i < |r| ==>
        && r[i].extents == refs[i].extents && r[i].zeroExtents == refs[i].zeroExtents
        && r[i].digest == refs[i].digest
        && SourceOf(r[i]) == SourceOf(refs[i]) && r[i].storage.Inline? == refs[i].storage.Inline?
    ensures forall i :: 0 <= i < |r| && r[i].storage.FromManifest? && r[i].storage.manifest in moved ==>
        r[i].storage.bundle == Some(bundle)
  {
    seq(|refs|, i requires 0 <= i < |refs| =>
      if refs[i].storage.FromManifest? && refs[i].storage.manifest in moved
      then refs[i].(storage := refs[i].storage.(bundle := Some(bundle))) else refs[i])
  }

  /** Rewriting bundle hints or carried bytes leaves the plan the same block-to-source map. */
  lemma RelocatedPlan(refs: seq<ObjectRef>, moved: seq<ObjectRef>, chain: seq<Entry>)
    requires IsPlanFor(refs, chain) && |moved| == |refs|
    requires forall i :: 0 <= i < |refs| ==>
        && moved[i].extents == refs[i].extents && moved[i].zeroExtents == refs[i].zeroExtents
        && SourceOf(moved[i]) == SourceOf(refs[i]) && moved[i].storage.Inline? == refs[i].storage.Inline?
    ensures IsPlanFor(moved, chain)
  {
    assert Disjoint(moved);
    forall b: nat ensures Names(moved, b) == Names(refs, b) {
      if Touches(refs, b) {
        var i :| 0 <= i < |refs| && Covers(refs[i].extents, b);
        OwnerIs(refs, i, b);
        OwnerIs(moved, i, b);
      }
    }
  }

  /** The plan after one more delta: what the delta touches has its source, the rest the one it had. */
  ghost predicate DeltaApplied(current: seq<ObjectRef>, delta: seq<ObjectRef>, result: seq<ObjectRef>) {
    && ValidPlan(result)
    && (forall b: nat :: Names(result, b) == if Touches(delta, b) then Names(delta, b) else Names(current, b))
    && (forall i :: 0 <= i < |result| ==> TakenFrom(result[i], delta) || TakenFrom(result[i], current))
  }

  lemma TakenMore(refs: seq<ObjectRef>, more: seq<ObjectRef>, segments: seq<ObjectRef>)
    requires AllTaken(refs, segments) && AllTaken(more, segments)
    ensures AllTaken(refs + more, segments)
  {
    forall i | 0 <= i < |refs + more| ensures TakenFrom((refs + more)[i], segments) {
      if i >= |refs| { assert TakenFrom(more[i - |refs|], segments); }
    }
  }

  lemma TakenOne(segments: seq<ObjectRef>, n: nat, ref: ObjectRef)
    requires n < |segments| && ref.storage == segments[n].storage
    ensures AllTaken([ref], segments)
  {
    assert TakenFrom(ref, segments);
  }

  /**
   `applyDeltaToPlan`: the plan after one more delta, computed from the plan
   before it. The delta's zero blocks are dropped but still hide older content.
   */
  method ApplyDeltaToPlan(current: seq<ObjectRef>, delta: seq<ObjectRef>) returns (result: seq<ObjectRef>)
    requires ValidPlan(current) && ValidRefs(delta)
    requires forall i :: 0 <= i < |delta| ==> !delta[i].storage.Inline?
    ensures DeltaApplied(current, delta, result)
  {
    var newer, covered := NewestOfDelta(delta);
    var kept := StillVisible(current, covered);
    result := newer + kept;
    NamesConcat(newer, kept);
    forall b: nat ensures Names(result, b) == if Touches(delta, b) then Names(delta, b) else Names(current, b) {
      DecidedBy(newer, delta, b);
    }
    forall i | 0 <= i < |result| ensures TakenFrom(result[i], delta) || TakenFrom(result[i], current) {
      if i < |newer| { assert TakenFrom(newer[i], delta); } else { assert TakenFrom(kept[i - |newer|], current); }
    }
  }

  /** The first loop of `applyDeltaToPlan`: the delta's non-zero blocks, and everything it covers. */
  method NewestOfDelta(delta: seq<ObjectRef>) returns (newer: seq<ObjectRef>, covered: seq<Extent>)
    requires ValidRefs(delta) && forall i :: 0 <= i < |delta| ==> !delta[i].storage.Inline?
    ensures ValidPlan(newer) && AllTaken(newer, delta) && Ordered(covered)
    ensures forall b: nat :: Covers(covered, b) <==> Touches(delta, b)
    ensures forall b: nat :: Touches(newer, b) ==> Touches(delta, b)
    ensures forall b: nat :: Names(newer, b) == Names(delta, b)
  {
    covered, newer := [], [];
    for n := 0 to |delta|
      invariant Ordered(covered) && ValidPlan(newer) && AllTaken(newer, delta)
      invariant forall b: nat :: Covers(covered, b) <==> Touches(delta[..n], b)
      invariant forall b: nat :: Touches(newer, b) ==> Touches(delta[..n], b)
      invariant forall b: nat :: Names(newer, b) == Names(delta[..n], b)
    {
      var original := delta[n];
      var visible := Subtract(original.extents, original.zeroExtents);
      PrefixNames(delta, n);
      if |visible| > 0 {
        var ref := original.(extents := visible, zeroExtents := []);
        KeepVisible(newer, original, visible);
        TakenOne(delta, n, ref);
        TakenMore(newer, [ref], delta);
        newer := newer + [ref];
      } else {
        assert forall b: nat :: !Covers(visible, b);
      }
      covered := Union(covered, original.extents);
    }
    assert delta[..|delta|] == delta;
  }

  /** The second loop of `applyDeltaToPlan`: what the delta leaves of the plan before it. */
  method StillVisible(current: seq<ObjectRef>, covered: seq<Extent>) returns (kept: seq<ObjectRef>)
    requires ValidPlan(current) && Ordered(covered)
    ensures ValidPlan(kept) && AllTaken(kept, current)
    ensures forall b: nat :: Touches(kept, b) ==> !Covers(covered, b)
    ensures forall b: nat :: Names(kept, b) == if Covers(covered, b) then None else Names(current, b)
  {
    kept := [];
    for n := 0 to |current|
      invariant ValidPlan(kept) && AllTaken(kept, current)
      invariant forall b: nat :: Touches(kept, b) ==> !Covers(covered, b) && Touches(current[..n], b)
      invariant forall b: nat :: Names(kept, b) == if Covers(covered, b) then None else Names(current[..n], b)
    {
      var original := current[n];
      var visible := Subtract(original.extents, covered);
      PrefixNames(current, n);
      if |visible| > 0 {
        var ref := original.(extents := visible, zeroExtents := []);
        KeepVisible(kept, original, visible);
        TakenOne(current, n, ref);
        TakenMore(kept, [ref], current);
        kept := kept + [ref];
      } else {
        assert forall b: nat :: !Covers(visible, b);
      }
    }
    assert current[..|current|] == current;
  }

  /** A block the plan does not touch has no source in it. */
  lemma DecidedBy(plan: seq<ObjectRef>, refs: seq<ObjectRef>, b: nat)
    requires Names(plan, b) == Names(refs, b) && ValidPlan(plan)
    ensures !Touches(plan, b) ==> Names(refs, b) == None
  {
  }
}
