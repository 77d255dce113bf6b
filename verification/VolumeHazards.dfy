/**
 Two ways to lose a manifest (internal/replica/remote.go; docs/production-readiness.md).
 A collection deletes a bundle that is uploaded but not yet installed: exactly
 when that loses manifests, and a run in which it does. And the placement
 decision without its last branch: exactly when it stores a body nowhere, and a
 run in which that body belongs to the head.
 */
module VolumeHazards {
  import opened Options
  import opened Extents
  import opened RestorePlans
  import opened Restores
  import opened ManifestStore
  import opened GarbageCollection
  import opened VolumeSteps
  import opened VolumeInvariants
  import opened CachedPlans
  import opened VolumeRuns

  // ----- A bundle that is ready but not installed -----

  /** The bundles a search passes are those of the head, none newer than its newest. */
  lemma {:induction false} PathIsOld(w: World, store: set<Object>, ref: Option<BundleRef>, manifest: Key, k: Key)
    requires BundlesOk(w) && (ref.Some? ==> RefOk(w, ref.value)) && Search(w, store, ref, manifest).Hit?
    requires k in Search(w, store, ref, manifest).path
    ensures k in w.bundles && w.bundles[k].last <= ref.value.last
    decreases if ref.Some? then ref.value.last + 1 else 0
  {
    var b := w.bundles[ref.value.key];
    assert BundleOk(w, b);
    if k != ref.value.key {
      assert Search(w, store, ref, manifest) == Behind(ref.value.key, Search(w, store, b.parent, manifest));
      PathIsOld(w, store, b.parent, manifest, k);
    }
  }

  /** What a published reference keeps is no newer than the newest bundle of the head. */
  lemma RefKeepsOld(v: Volume, ref: ObjectRef, k: Key)
    requires Inv(v) && HintBelow(v.w, ref, HeadLast(v.state)) && KeptByRef(v.w, v.store, v.state, ref, BundleObject(k))
    ensures k in v.w.bundles && v.w.bundles[k].last <= HeadLast(v.state)
  {
    if ref.storage.bundle.None? {
      PathIsOld(v.w, v.store, v.state.bundle, ref.storage.manifest, k);
    }
  }

  /** No keep set covers a bundle that is ready to be installed. */
  lemma ReadyIsNeverKept(c: Contents, blocks: nat, v: Volume, p: Prepared, lo: nat)
    requires Sound(c, blocks, v) && v.ready == Some(p) && Applies(v.w, v.state, p)
    ensures !Retained(v.w, v.store, v.state, v.chain, lo, BundleObject(p.ref.key))
  {
    var o := BundleObject(p.ref.key);
    var seen := Reads(v.w, v.store, v.state, v.chain);
    AppliesOnTop(v.w, v.chain, v.state, p);
    assert RefOk(v.w, p.ref);
    if Retained(v.w, v.store, v.state, v.chain, lo, o) {
      var i :| lo <= i < |v.chain| && KeptBy(v.w, v.store, v.state, EntryOf(v.w, v.chain[i], Where(seen[i])), o);
      var segments := v.w.manifests[v.chain[i]].segments;
      if KeptBySegments(v.w, v.store, v.state, segments, o) {
        var j :| 0 <= j < |segments| && KeptByRef(v.w, v.store, v.state, segments[j], o);
        assert HintBelow(v.w, segments[j], HeadLast(v.state));
        RefKeepsOld(v, segments[j], p.ref.key);
      } else {
        FoundIsResolvable(v, i);
      }
    }
  }

  /** Generations behind the newest of a bundle are read as if it were not there. */
  lemma ReadsPastBundle(v: Volume, p: Prepared, store: set<Object>, i: nat)
    requires Inv(v) && v.ready == Some(p) && Applies(v.w, v.state, p) && p.ref.last <= i < |v.chain|
    requires ReadManifest(v.w, store, v.state, v.chain[i], i + 1).Found?
    ensures RefOk(v.w, p.ref) && ReadManifest(v.w, store, Install(v.state, p), v.chain[i], i + 1).Found?
  {
    AppliesOnTop(v.w, v.chain, v.state, p);
    assert ContentOk(v.w, v.chain, v.w.bundles[p.ref.key]);
  }

  /**
   A collection on given inputs, followed by a renewal that installs the ready
   bundle: all retained manifests can be read if and only if the bundle is not
   among the deleted victims, or holds nothing that is retained. As no keep set
   covers it, a collection that is not stopped deletes it exactly when an expired
   record lists it.
   */
  lemma ReadyBundleGuard(c: Contents, blocks: nat, v: Volume, p: Prepared, cutoff: nat, lo: nat, keep: set<Object>,
                         records: seq<Record>, now: nat, grace: nat, budget: nat)
    requires Sound(c, blocks, v) && v.ready == Some(p) && Applies(v.w, v.state, p)
    requires IsFloor(v.w, v.chain, Reads(v.w, v.store, v.state, v.chain), cutoff, lo)
    requires LocatedFrom(v.w, v.store, v.state, v.chain, lo)
    requires forall o :: o in keep <==> Retained(v.w, v.store, v.state, v.chain, lo, o)
    ensures StateOk(v.w, v.chain, Install(v.state, p))
    ensures var victims := Victims(records, keep, now, grace);
            var o := BundleObject(p.ref.key);
            && (Readable(v.w, v.store - First(victims, budget), Install(v.state, p), v.chain, lo) <==>
                  p.ref.last <= lo || o !in First(victims, budget))
            && (budget >= |victims| ==> (o in First(victims, budget) <==> Expired(records, now, grace, o)))
  {
    var gone := First(Victims(records, keep, now, grace), budget);
    ReadyIsNeverKept(c, blocks, v, p, lo);
    InstallState(v.w, v.chain, v.state, p);
    UnneededMayGo(v.w, v.chain, v.state, v.store, cutoff, lo, gone);
    GuardFor(v, p, lo, gone);
  }

  lemma GuardFor(v: Volume, p: Prepared, lo: nat, gone: set<Object>)
    requires Inv(v) && v.ready == Some(p) && Applies(v.w, v.state, p)
    requires KeptFrom(v.w, v.store, v.state, v.chain, lo, gone)
    ensures StateOk(v.w, v.chain, Install(v.state, p))
    ensures Readable(v.w, v.store - gone, Install(v.state, p), v.chain, lo) <==>
            p.ref.last <= lo || BundleObject(p.ref.key) !in gone
  {
    InstallState(v.w, v.chain, v.state, p);
    if BundleObject(p.ref.key) in gone {
      MissingBundle(v.w, v.chain, v.store - gone, v.state, p);
    }
    forall i | lo <= i < |v.chain| && (p.ref.last <= lo || BundleObject(p.ref.key) !in gone)
      ensures ReadManifest(v.w, v.store - gone, Install(v.state, p), v.chain[i], i + 1).Found?
    {
      ReadSurvives(v.w, v.chain, v.state, v.store, gone, lo, i);
      if p.ref.last <= lo {
        ReadsPastBundle(v, p, v.store - gone, i);
      } else {
        InstallReads(v.w, v.chain, v.state, v.store - gone, p, i);
      }
    }
  }

  // ----- A body that is stored nowhere -----

  /** The head a commit leaves when the body was placed without the last branch. */
  ghost function CommittedWithoutLast(v: Volume, step: Step): State
    requires Inv(v) && step.BeginPublish?
  {
    var p := PlaceWithoutLast(v.w, v.state.inline, step.manifest.size, step.manifest.kind.Checkpoint?, UsableReady(v),
        AllInline(v, step.bundleKey));
    CommitState(v.state, Publishing(v.state, step.key, p, {}, true))
  }

  /** Whenever the last branch is needed and missing, the commit leaves a head whose own manifest cannot be read. */
  lemma LostWithoutLast(v: Volume, step: Step)
    requires Inv(v) && step.BeginPublish? && v.op.None? && Nameable(v, step)
    requires StillFull(v.w, v.state.inline, step.manifest.size, step.manifest.kind.Checkpoint?, UsableReady(v))
    requires ManifestObject(step.key) !in v.store && step.key !in v.state.inline
    ensures var w, head := NamedWorld(v, step), CommittedWithoutLast(v, step);
            && BundlesOk(w) && (head.bundle.Some? ==> RefOk(w, head.bundle.value)) && head.manifest == Some(step.key)
            && ReadManifest(w, v.store + Uploads(step.manifest), head, step.key, step.manifest.generation).NotFound?
  {
    LastBranchIff(v.w, v.state.inline, step.manifest.size, step.manifest.kind.Checkpoint?, UsableReady(v),
        AllInline(v, step.bundleKey));
    NamedWorldOk(v, step);
    assert ContentOk(v.w, v.chain, v.w.bundles[v.ready.value.ref.key]);
  }

  // ----- A volume on which both happen -----

  const Segment := ObjectRef(9, External(5), [Extent(0, 1)], [])
  const Data9: Contents := map[9 := map[0 := 1]]

  function Body(generation: nat, parent: Option<Key>, size: nat): Manifest {
    Manifest(generation, Delta, parent, [Segment], size, 0)
  }

  lemma BodyOk(generation: nat, parent: Option<Key>, size: nat)
    ensures DeltaOk(Data9, 1, Body(generation, parent, size))
  {
    var segments := [Segment];
    assert ValidRef(Segment);
    forall b: nat | Covers(Segment.extents, b) ensures b == 0 {
      var i :| 0 <= i < |Segment.extents| && Segment.extents[i].Has(b);
    }
    assert Truthful(Data9, segments, 1);
  }

  /** The plan of a volume on which this segment was published last. */
  lemma SamePlan(current: seq<ObjectRef>, entry: Entry)
    requires (current == [] || current == [Segment]) && entry.segments == [Segment]
    ensures DeltaApplied(current, CheckpointRefs(entry), [Segment])
  {
    var delta := CheckpointRefs(entry);
    assert delta == [Segment];
    assert ValidPlan([Segment]) by {
      assert [Segment][0] == Segment;
    }
    assert TakenFrom([Segment][0], delta);
    forall b: nat ensures Names([Segment], b) == if Touches(delta, b) then Names(delta, b) else Names(current, b) {
      if !Touches([Segment], b) { assert current != [] ==> !Touches(current, b); }
    }
  }

  function Final(nodes: seq<Node>): Node
    requires nodes != []
  {
    nodes[|nodes| - 1]
  }

  ghost predicate Reachable(nodes: seq<Node>, actions: seq<Action>, n: Node) {
    IsRun(Data9, 1, nodes, actions) && Final(nodes) == n && Good(n.v)
  }

  lemma RunGrows(nodes: seq<Node>, actions: seq<Action>, a: Action, n': Node)
    requires IsRun(Data9, 1, nodes, actions) && IsStep(Data9, 1, Final(nodes), a, n')
    ensures IsRun(Data9, 1, nodes + [n'], actions + [a])
  {
    var more, taken := nodes + [n'], actions + [a];
    forall i | 0 <= i < |taken| ensures IsStep(Data9, 1, more[i], taken[i], more[i + 1]) {
      if i < |actions| { assert IsStep(Data9, 1, nodes[i], actions[i], nodes[i + 1]); }
    }
  }

  /** A run goes on with any step that is possible. */
  lemma Then(nodes: seq<Node>, actions: seq<Action>, n: Node, step: Step, refs: seq<ObjectRef>, n': Node)
    returns (more: seq<Node>, taken: seq<Action>)
    requires Reachable(nodes, actions, n) && Possible(Data9, 1, n, Take(step, refs)) && n' == Taken(n, step, refs)
    ensures Reachable(more, taken, n')
  {
    RunGrows(nodes, actions, Take(step, refs), n');
    more, taken := nodes + [n'], actions + [Take(step, refs)];
    RunKeeps(Data9, 1, more, taken, |more| - 1);
  }

  lemma Starts() returns (nodes: seq<Node>, actions: seq<Action>)
    ensures Reachable(nodes, actions, Node(Fresh, true, [], None))
  {
    nodes, actions := [Node(Fresh, true, [], None)], [];
    FreshIsSound(Data9, 1);
  }

  const First1 := Body(1, None, 16384)
  const World1 := World(map[11 := First1], map[])
  const Head1 := State(1, Some(11), [11], None)
  const Packed1 := Bundle(1, 1, None, [11])
  const Prepared1 := Prepared(BundleRef(7, 1, 1), {11})
  const World1Packed := World(map[11 := First1], map[7 := Packed1])

  const Publishing1 := Publishing(Fresh.state, 11, Placement(None, true, false), {}, false)
  const Begun1 := Fresh.(w := World1, op := Some(Publishing1))
  const Published1 := Volume(World1, {SegmentData(5)}, Head1, [11], 0, None, None, None)

  function Knowing(v: Volume, plan: seq<ObjectRef>): Node { Node(v, true, plan, None) }

  lemma BeginsFirst() returns (nodes: seq<Node>, actions: seq<Action>)
    ensures Reachable(nodes, actions, Knowing(Begun1, []))
  {
    nodes, actions := Starts();
    BodyOk(1, None, 16384);
    var step := BeginPublish(11, First1, 7);
    assert PlacementOf(Fresh, step) == Placement(None, true, false);
    assert BeginPublished(Fresh, step) == Begun1;
    nodes, actions := Then(nodes, actions, Knowing(Fresh, []), step, [], Knowing(Begun1, []));
  }

  /** A first delta of 16384 bytes is published; its body stays in the head. */
  lemma PublishesFirst() returns (nodes: seq<Node>, actions: seq<Action>)
    ensures Reachable(nodes, actions, Knowing(Published1, [Segment]))
  {
    nodes, actions := BeginsFirst();
    assert Uploads(First1) == {SegmentData(5)} by { assert First1.segments[0] == Segment; }
    var uploaded := Begun1.(store := {SegmentData(5)}, op := Some(Publishing1.(uploaded := true)));
    assert Apply(Begun1, Upload) == uploaded;
    nodes, actions := Then(nodes, actions, Knowing(Begun1, []), Upload, [], Knowing(uploaded, []));
    assert Apply(uploaded, Commit) == Published1;
    SamePlan([], EntryOf(World1, 11, None));
    nodes, actions := Then(nodes, actions, Knowing(uploaded, []), Commit, [Segment], Knowing(Published1, [Segment]));
  }

  const Packing1 := Published1.(w := World1Packed, uploading := Some(Prepared1))

  /** The inline area has reached the size at which it is packed in the background. */
  lemma PacksFirst() returns (nodes: seq<Node>, actions: seq<Action>)
    ensures Reachable(nodes, actions, Knowing(Packing1, [Segment]))
  {
    nodes, actions := PublishesFirst();
    assert Head1.inline[1..] == [];
    assert Bytes(World1, [11]) == 16384;
    assert Pack(World1, Head1) == Packed1;
    assert PackedAs(Packed1, 7) == Prepared1 by { assert (set k | k in [11]) == {11}; }
    assert Apply(Published1, StartArchive(7)) == Packing1;
    nodes, actions :=
      Then(nodes, actions, Knowing(Published1, [Segment]), StartArchive(7), [], Knowing(Packing1, [Segment]));
  }

  const StoreReady: set<Object> := {SegmentData(5), BundleObject(7)}

  /** A background upload finishes and is recorded. */
  lemma Archives(nodes: seq<Node>, actions: seq<Action>, v: Volume) returns (more: seq<Node>, taken: seq<Action>)
    requires Reachable(nodes, actions, Knowing(v, [Segment])) && v.uploading == Some(Prepared1)
    requires v.store == {SegmentData(5)} || v.store == StoreReady
    requires Prepared1.ref.key in v.w.bundles && Applies(v.w, v.state, Prepared1)
    ensures Reachable(more, taken,
            Knowing(v.(store := StoreReady, uploading := None, ready := Some(Prepared1)), [Segment]))
  {
    var stored := v.(store := StoreReady);
    assert Apply(v, ArchiveStored) == stored;
    more, taken := Then(nodes, actions, Knowing(v, [Segment]), ArchiveStored, [], Knowing(stored, [Segment]));
    var done := stored.(uploading := None, ready := Some(Prepared1));
    assert Apply(stored, ArchiveDone(true)) == done;
    more, taken := Then(more, taken, Knowing(stored, [Segment]), ArchiveDone(true), [], Knowing(done, [Segment]));
  }

  const Ready1 := Volume(World1Packed, StoreReady, Head1, [11], 0, None, Some(Prepared1), None)

  lemma ReadiesFirst() returns (nodes: seq<Node>, actions: seq<Action>)
    ensures Reachable(nodes, actions, Knowing(Ready1, [Segment]))
  {
    nodes, actions := PacksFirst();
    assert Applies(World1Packed, Head1, Prepared1);
    nodes, actions := Archives(nodes, actions, Packing1);
  }

  const Needed1: set<Object> := {ManifestObject(11), SegmentData(5)}
  const Marked1 := [Record(0, [BundleObject(7)])]

  /** The volume is marked as a whole; the bundle is not among what is kept. */
  lemma MarksFirst(o: Object)
    requires Inv(Ready1)
    ensures var v := Ready1;
            && IsFloor(v.w, v.chain, Reads(v.w, v.store, v.state, v.chain), 0, 0)
            && LocatedFrom(v.w, v.store, v.state, v.chain, 0)
            && (o in Needed1 <==> Retained(v.w, v.store, v.state, v.chain, 0, o))
  {
    var v := Ready1;
    var seen := Reads(v.w, v.store, v.state, v.chain);
    assert seen == [Found(None)];
    var entry := EntryOf(v.w, 11, None);
    assert entry.segments == [Segment] && entry.segments[0] == Segment;
    if o == SegmentData(5) { assert KeptByRef(v.w, v.store, v.state, entry.segments[0], o); }
    if o in Needed1 { assert KeptBy(v.w, v.store, v.state, EntryOf(v.w, v.chain[0], Where(seen[0])), o); }
    if Retained(v.w, v.store, v.state, v.chain, 0, o) {
      var i :| 0 <= i < |v.chain| && KeptBy(v.w, v.store, v.state, EntryOf(v.w, v.chain[i], Where(seen[i])), o);
    }
  }

  lemma SweepsFirst()
    ensures Victims(Marked1, Needed1, 0, 0) == [BundleObject(7)]
    ensures First(Victims(Marked1, Needed1, 0, 0), 1) == {BundleObject(7)}
  {
    var objects := [BundleObject(7)];
    assert objects[..0] == [];
    assert Unkept(objects, Needed1) == objects;
    assert Marked1[..0] == [] && Victims([], Needed1, 0, 0) == [];
    assert Victims(Marked1, Needed1, 0, 0) == Victims(Marked1[..0], Needed1, 0, 0) + Unkept(objects, Needed1);
  }

  /**
   A collection on this volume marks the bundle as garbage itself. A lease that
   takes over has forgotten it and packs the same manifest again, under the same
   name, so the volume is as it was, with the mark.
   */
  lemma MarksReadyBundle() returns (nodes: seq<Node>, actions: seq<Action>)
    ensures BundleObject(7) in NewGarbage(StoreReady, Needed1, [])
    ensures Reachable(nodes, actions, Node(Ready1, false, [], None))
  {
    nodes, actions := ReadiesFirst();
    var left := Ready1.(ready := None);
    assert Apply(Ready1, TakeOver) == left;
    nodes, actions := Then(nodes, actions, Knowing(Ready1, [Segment]), TakeOver, [], Node(left, false, [], None));
    nodes, actions := PacksAgain(nodes, actions);
  }

  lemma PacksAgain(nodes: seq<Node>, actions: seq<Action>) returns (more: seq<Node>, taken: seq<Action>)
    requires Reachable(nodes, actions, Node(Ready1.(ready := None), false, [], None))
    ensures Reachable(more, taken, Node(Ready1, false, [], None))
  {
    var left := Ready1.(ready := None);
    assert Head1.inline[1..] == [] && Bytes(World1Packed, [11]) == 16384;
    assert Pack(World1Packed, Head1) == Packed1;
    assert PackedAs(Packed1, 7) == Prepared1 by { assert (set k | k in [11]) == {11}; }
    var packing := left.(uploading := Some(Prepared1));
    assert World1Packed.bundles[7 := Packed1] == World1Packed.bundles;
    assert Apply(left, StartArchive(7)) == packing;
    more, taken :=
      Then(nodes, actions, Node(left, false, [], None), StartArchive(7), [], Node(packing, false, [], None));
    assert Apply(packing, ArchiveDone(true)) == Ready1 by { assert Applies(World1Packed, Head1, Prepared1); }
    more, taken :=
      Then(more, taken, Node(packing, false, [], None), ArchiveDone(true), [], Node(Ready1, false, [], None));
  }

  /**
   Once that mark has expired the next collection deletes the bundle; the renewal
   that follows installs it, and the only generation of the volume can no longer
   be read.
   */
  lemma ReadyBundleIsLost() returns (nodes: seq<Node>, actions: seq<Action>)
    ensures Reachable(nodes, actions, Node(Ready1, false, [], None))
    ensures var v := Ready1;
            && UsableReady(v) == v.ready == Some(Prepared1)
            && BundleObject(7) in NewGarbage(v.store, Needed1, [])
            && IsFloor(v.w, v.chain, Reads(v.w, v.store, v.state, v.chain), 0, 0)
            && LocatedFrom(v.w, v.store, v.state, v.chain, 0)
            && (forall o :: o in Needed1 <==> Retained(v.w, v.store, v.state, v.chain, 0, o))
            && var gone := First(Victims(Marked1, Needed1, 0, 0), 1);
               ReadManifest(v.w, v.store - gone, Install(v.state, Prepared1), 11, 1).NotFound?
  {
    nodes, actions := MarksReadyBundle();
    forall o ensures o in Needed1 <==> Retained(Ready1.w, Ready1.store, Ready1.state, Ready1.chain, 0, o) {
      MarksFirst(o);
    }
    MarksFirst(BundleObject(7));
    SweepsFirst();
    assert Applies(World1Packed, Head1, Prepared1);
    MissingBundle(World1Packed, [11], StoreReady - {BundleObject(7)}, Head1, Prepared1);
  }

  // ----- The same volume and a body that is stored nowhere -----

  const Second1 := Body(2, Some(11), 40000)
  const World2 := World(map[11 := First1, 12 := Second1], map[7 := Packed1])
  const Head2 := State(2, Some(12), [11, 12], None)
  const Publishing2 := Publishing(Head1, 12, Placement(None, true, false), {}, false)
  const Begun2 := Volume(World2, {SegmentData(5)}, Head1, [11], 0, Some(Prepared1), None, Some(Publishing2))
  const Published2 := Volume(World2, {SegmentData(5)}, Head2, [11, 12], 0, Some(Prepared1), None, None)

  /** While the first body is being packed a second one is published inline. */
  lemma BeginsSecond() returns (nodes: seq<Node>, actions: seq<Action>)
    ensures Reachable(nodes, actions, Knowing(Begun2, [Segment]))
  {
    nodes, actions := PacksFirst();
    BodyOk(2, Some(11), 40000);
    var step := BeginPublish(12, Second1, 8);
    assert Head1.inline[1..] == [] && Remaining([11], {}) == [11];
    assert Bytes(World1Packed, [11]) == 16384;
    assert PlacementOf(Packing1, step) == Placement(None, true, false);
    assert BeginPublished(Packing1, step) == Begun2;
    nodes, actions := Then(nodes, actions, Knowing(Packing1, [Segment]), step, [], Knowing(Begun2, [Segment]));
  }

  lemma PublishesSecond() returns (nodes: seq<Node>, actions: seq<Action>)
    ensures Reachable(nodes, actions, Knowing(Published2, [Segment]))
  {
    nodes, actions := BeginsSecond();
    assert Uploads(Second1) == {SegmentData(5)} by { assert Second1.segments[0] == Segment; }
    var uploaded := Begun2.(op := Some(Publishing2.(uploaded := true)));
    assert Apply(Begun2, Upload) == uploaded;
    nodes, actions := Then(nodes, actions, Knowing(Begun2, [Segment]), Upload, [], Knowing(uploaded, [Segment]));
    assert Apply(uploaded, Commit) == Published2;
    SamePlan([Segment], EntryOf(World2, 12, None));
    nodes, actions :=
      Then(nodes, actions, Knowing(uploaded, [Segment]), Commit, [Segment], Knowing(Published2, [Segment]));
  }

  const Ready2 := Volume(World2, StoreReady, Head2, [11, 12], 0, None, Some(Prepared1), None)

  /**
   The bundle of the first body is ready, the second body takes 40000 bytes of
   the head, and a third of 30000 bytes is published: without the last branch the
   new head names a manifest that cannot be read.
   */
  lemma LastBranchIsNeeded() returns (nodes: seq<Node>, actions: seq<Action>)
    ensures Reachable(nodes, actions, Knowing(Ready2, [Segment]))
    ensures var step := BeginPublish(13, Body(3, Some(12), 30000), 8);
            && Possible(Data9, 1, Knowing(Ready2, [Segment]), Take(step, []))
            && var w, head := NamedWorld(Ready2, step), CommittedWithoutLast(Ready2, step);
               && BundlesOk(w) && (head.bundle.Some? ==> RefOk(w, head.bundle.value)) && head.manifest == Some(13)
               && ReadManifest(w, StoreReady + Uploads(step.manifest), head, 13, 3).NotFound?
  {
    nodes, actions := PublishesSecond();
    assert Applies(World2, Head2, Prepared1);
    nodes, actions := Archives(nodes, actions, Published2);
    BodyOk(3, Some(12), 30000);
    ThirdIsLost();
  }

  lemma ThirdIsLost()
    requires Good(Ready2)
    ensures var step := BeginPublish(13, Body(3, Some(12), 30000), 8);
            && Enabled(Ready2, step)
            && var w, head := NamedWorld(Ready2, step), CommittedWithoutLast(Ready2, step);
               && BundlesOk(w) && (head.bundle.Some? ==> RefOk(w, head.bundle.value)) && head.manifest == Some(13)
               && ReadManifest(w, StoreReady + Uploads(step.manifest), head, 13, 3).NotFound?
  {
    var step := BeginPublish(13, Body(3, Some(12), 30000), 8);
    assert Applies(World2, Head2, Prepared1);
    assert Head2.inline[1..] == [12] && [12][1..] == [];
    assert Remaining([12], {11}) == [12] && Remaining([11, 12], {11}) == [12];
    assert Bytes(World2, [12]) == 40000;
    LostWithoutLast(Ready2, step);
  }

  // ----- A chain that is too long to be restored -----

  /** A volume on which `n` deltas too large to embed were published, and nothing else happened. */
  ghost predicate OnlyDeltas(v: Volume, n: nat) {
    && |v.chain| == n && v.floor == 0 && v.uploading.None? && v.ready.None? && v.op.None?
    && v.state == State(n, Preceding(v.chain, n), [], None) && v.w.bundles == map[]
    && (forall k: nat :: k in v.w.manifests <==> k < n)
    && (forall i :: 0 <= i < n ==> v.chain[i] == i && v.w.manifests[i].kind.Delta?)
  }

  const LARGE: nat := 70000

  ghost function NextStep(v: Volume, n: nat): Step
    requires |v.chain| == n
  {
    BeginPublish(n, Body(n + 1, Preceding(v.chain, n), LARGE), 0)
  }

  ghost function Begun(v: Volume, n: nat): Volume
    requires |v.chain| == n
  {
    v.(w := World(v.w.manifests[n := Body(n + 1, Preceding(v.chain, n), LARGE)], map[]),
       op := Some(Publishing(v.state, n, Placement(None, false, true), {}, false)))
  }

  lemma BeginsNext(v: Volume, n: nat)
    requires Good(v) && OnlyDeltas(v, n)
    ensures Enabled(v, NextStep(v, n)) && Apply(v, NextStep(v, n)) == Begun(v, n)
  {
    assert PlacementOf(v, NextStep(v, n)) == Placement(None, false, true);
  }

  ghost function Sent(v: Volume, n: nat): Volume
    requires |v.chain| == n
  {
    var begun := Begun(v, n);
    begun.(store := v.store + {SegmentData(5), ManifestObject(n)}, op := Some(begun.op.value.(uploaded := true)))
  }

  lemma UploadsNext(v: Volume, n: nat)
    requires OnlyDeltas(v, n) && Inv(Begun(v, n))
    ensures Enabled(Begun(v, n), Upload) && Apply(Begun(v, n), Upload) == Sent(v, n)
  {
    var m := Begun(v, n).w.manifests[n];
    assert Uploads(m) == {SegmentData(5)} by { assert m.segments[0] == Segment; }
  }

  lemma CommitsNext(v: Volume, n: nat)
    requires OnlyDeltas(v, n) && Inv(Sent(v, n))
    ensures Enabled(Sent(v, n), Commit) && OnlyDeltas(Apply(Sent(v, n), Commit), n + 1)
  {
    var v' := Apply(Sent(v, n), Commit);
    assert v'.chain == v.chain + [n];
    assert forall i :: 0 <= i < n ==> v'.chain[i] == v.chain[i];
  }

  function PlanOf(n: nat): seq<ObjectRef> { if n == 0 then [] else [Segment] }

  /** One more delta is published. */
  lemma PublishesNext(nodes: seq<Node>, actions: seq<Action>, v: Volume, n: nat)
    returns (more: seq<Node>, taken: seq<Action>, v': Volume)
    requires Reachable(nodes, actions, Knowing(v, PlanOf(n))) && OnlyDeltas(v, n)
    ensures Reachable(more, taken, Knowing(v', PlanOf(n + 1))) && OnlyDeltas(v', n + 1)
  {
    var plan := PlanOf(n);
    BodyOk(n + 1, Preceding(v.chain, n), LARGE);
    BeginsNext(v, n);
    more, taken := Then(nodes, actions, Knowing(v, plan), NextStep(v, n), [], Knowing(Begun(v, n), plan));
    UploadsNext(v, n);
    more, taken := Then(more, taken, Knowing(Begun(v, n), plan), Upload, [], Knowing(Sent(v, n), plan));
    CommitsNext(v, n);
    v' := Apply(Sent(v, n), Commit);
    more, taken := CommitsTaken(more, taken, v, n, v');
  }

  lemma CommitsTaken(nodes: seq<Node>, actions: seq<Action>, v: Volume, n: nat, v': Volume)
    returns (more: seq<Node>, taken: seq<Action>)
    requires |v.chain| == n && Reachable(nodes, actions, Knowing(Sent(v, n), PlanOf(n)))
    requires Enabled(Sent(v, n), Commit) && v' == Apply(Sent(v, n), Commit)
    ensures Reachable(more, taken, Knowing(v', [Segment]))
  {
    var w := Sent(v, n).w;
    SamePlan(PlanOf(n), EntryOf(w, n, None));
    more, taken := Then(nodes, actions, Knowing(Sent(v, n), PlanOf(n)), Commit, [Segment], Knowing(v', [Segment]));
  }

  /** Runs that publish any number of deltas and no checkpoint. */
  lemma {:induction false} ManyDeltas(n: nat) returns (nodes: seq<Node>, actions: seq<Action>, v: Volume)
    ensures Reachable(nodes, actions, Knowing(v, PlanOf(n))) && OnlyDeltas(v, n)
  {
    if n == 0 {
      nodes, actions := Starts();
      v := Fresh;
    } else {
      nodes, actions, v := ManyDeltas(n - 1);
      nodes, actions, v := PublishesNext(nodes, actions, v, n - 1);
    }
  }

  /** Without checkpoints a restore is short exactly up to the limit. */
  lemma OnlyDeltasLimit(v: Volume, n: nat)
    requires Good(v) && OnlyDeltas(v, n)
    ensures ShortWalk(v.w, v.chain, n) <==> n <= RESTORE_LIMIT
  {
  }

  /**
   The first chain that is too long: after 1,000,000 deltas without a checkpoint
   the head can be restored; after one more it cannot, although every manifest
   and every segment is there.
   */
  lemma FirstTooLong() returns (nodes: seq<Node>, actions: seq<Action>, longer: seq<Node>, more: seq<Action>)
    ensures IsRun(Data9, 1, nodes, actions) && IsRun(Data9, 1, longer, more)
    ensures var v, v' := Final(nodes).v, Final(longer).v;
            && Good(v) && |v.chain| == 1_000_000 && RestoredAt(Data9, 1, v, |v.chain|).Some?
            && Good(v') && |v'.chain| == 1_000_001 && RestoredAt(Data9, 1, v', |v'.chain|).None?
  {
    var v, v';
    nodes, actions, v := ManyDeltas(RESTORE_LIMIT);
    OnlyDeltasLimit(v, RESTORE_LIMIT);
    HeadIsRestorable(Data9, 1, nodes, actions, |nodes| - 1);
    longer, more, v' := ManyDeltas(RESTORE_LIMIT + 1);
    OnlyDeltasLimit(v', RESTORE_LIMIT + 1);
    HeadIsRestorable(Data9, 1, longer, more, |longer| - 1);
  }
}
