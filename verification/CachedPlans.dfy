/**
 The plan a lease caches between publications (internal/replica/remote.go:
 `applyCommitLocked`, `applyManifestCommitLocked`, `attachBundleToRefs`,
 `PublishCheckpoint`; internal/replica/lazy.go: `Lease.PrepareLazyRestore`). It
 stays a plan of the committed chain whose sources can be fetched, so that it can
 be restated as a checkpoint at any time.
 */
module CachedPlans {
  import opened Options
  import opened Extents
  import opened RestorePlans
  import opened Restores
  import opened ManifestStore
  import opened GarbageCollection
  import opened VolumeSteps
  import opened VolumeInvariants

  // ----- The bundles of a head -----

  /** The bundle is the newest one of the head, or one behind it. */
  ghost predicate Chained(w: World, ref: Option<BundleRef>, b: Key)
    requires BundlesOk(w) && (ref.Some? ==> RefOk(w, ref.value))
    decreases if ref.Some? then ref.value.last + 1 else 0
  {
    && ref.Some?
    && (ref.value.key == b
        || (BundleOk(w, w.bundles[ref.value.key]) && Chained(w, w.bundles[ref.value.key].parent, b)))
  }

  lemma {:induction false} ChainedBelow(w: World, ref: Option<BundleRef>, b: Key)
    requires BundlesOk(w) && (ref.Some? ==> RefOk(w, ref.value)) && Chained(w, ref, b)
    ensures b in w.bundles && w.bundles[b].last <= ref.value.last
    ensures ref.value.key != b ==> w.bundles[b].last < ref.value.first
    decreases if ref.Some? then ref.value.last + 1 else 0
  {
    if ref.value.key != b {
      ChainedBelow(w, w.bundles[ref.value.key].parent, b);
    }
  }

  lemma {:induction false} ChainedExtends(w: World, w': World, ref: Option<BundleRef>, b: Key)
    requires BundlesOk(w) && BundlesOk(w') && Extends(w, w') && (ref.Some? ==> RefOk(w, ref.value))
    requires Chained(w, ref, b)
    ensures (ref.Some? ==> RefOk(w', ref.value)) && Chained(w', ref, b)
    decreases if ref.Some? then ref.value.last + 1 else 0
  {
    assert BundleOk(w', w'.bundles[ref.value.key]);
    if ref.value.key != b {
      ChainedExtends(w, w', w.bundles[ref.value.key].parent, b);
    }
  }

  /** A walk that is not cut short ends in the bundle of the head that holds the generation. */
  lemma {:induction false} WalkFinds(
    w: World, store: set<Object>, ref: Option<BundleRef>, b: Key, key: Key, generation: nat)
    requires BundlesOk(w) && (ref.Some? ==> RefOk(w, ref.value)) && Chained(w, ref, b)
    requires b in w.bundles && key in w.bundles[b].entries && w.bundles[b].first <= generation <= w.bundles[b].last
    requires !Walk(w, store, ref, key, generation).Missing?
    ensures Walk(w, store, ref, key, generation) == InBundle(b)
    decreases if ref.Some? then ref.value.last + 1 else 0
  {
    ChainedBelow(w, ref, b);
    if ref.value.key != b {
      WalkFinds(w, store, w.bundles[ref.value.key].parent, b, key, generation);
    }
  }

  /** So does a search, as no other bundle of the head holds the manifest. */
  lemma {:induction false} SearchFinds(
    w: World, chain: seq<Key>, store: set<Object>, ref: Option<BundleRef>, b: Key, manifest: Key)
    requires WorldOk(w, chain) && (ref.Some? ==> RefOk(w, ref.value)) && Chained(w, ref, b)
    requires b in w.bundles && manifest in w.bundles[b].entries && !Search(w, store, ref, manifest).Broken?
    ensures Search(w, store, ref, manifest).Hit? && b in Search(w, store, ref, manifest).path
    decreases if ref.Some? then ref.value.last + 1 else 0
  {
    ChainedBelow(w, ref, b);
    if ref.value.key != b {
      assert ContentOk(w, chain, w.bundles[b]) && ContentOk(w, chain, w.bundles[ref.value.key]);
      assert manifest !in w.bundles[ref.value.key].entries;
      SearchFinds(w, chain, store, w.bundles[ref.value.key].parent, b, manifest);
    }
  }

  lemma {:induction false} WalkHits(w: World, store: set<Object>, ref: Option<BundleRef>, key: Key, generation: nat)
    requires BundlesOk(w) && (ref.Some? ==> RefOk(w, ref.value)) && Walk(w, store, ref, key, generation).InBundle?
    ensures var b := Walk(w, store, ref, key, generation).bundle;
            InStoredBundle(w, store, b, key) && Chained(w, ref, b) && w.bundles[b].last <= ref.value.last
    ensures Search(w, store, ref, key).Hit?
    decreases if ref.Some? then ref.value.last + 1 else 0
  {
    var b := w.bundles[ref.value.key];
    assert BundleOk(w, b);
    if generation < ref.value.first {
      WalkHits(w, store, b.parent, key, generation);
    }
  }

  /** A manifest that can be read can be resolved as the source of a segment, and the bundle it is in is the head's. */
  lemma FoundIsResolvable(v: Volume, i: nat)
    requires Inv(v) && i < |v.chain| && Reads(v.w, v.store, v.state, v.chain)[i].Found?
    ensures Resolvable(v.w, v.store, v.state, v.chain[i])
    ensures var read := Reads(v.w, v.store, v.state, v.chain)[i];
            read.bundle.Some? ==>
              && InStoredBundle(v.w, v.store, read.bundle.value, v.chain[i])
              && Chained(v.w, v.state.bundle, read.bundle.value)
              && v.w.bundles[read.bundle.value].last <= HeadLast(v.state)
  {
    if v.chain[i] !in v.state.inline && Walk(v.w, v.store, v.state.bundle, v.chain[i], i + 1).InBundle? {
      WalkHits(v.w, v.store, v.state.bundle, v.chain[i], i + 1);
    }
  }

  // ----- What a plan names -----

  /**
   A location in a plan is the one the chain records or, if it records none, the bundle of the head
   the source is in.
   */
  ghost predicate HintIs(v: Volume, manifest: Key, original: Option<Key>, hint: Option<Key>)
    requires Inv(v)
  {
    || hint == original
    || (&& original.None? && hint.Some?
        && Chained(v.w, v.state.bundle, hint.value) && InStoredBundle(v.w, v.store, hint.value, manifest))
  }

  /** A reference of a plan names the source of segment `k` of the manifest at position `i`. */
  ghost predicate Derived(v: Volume, ref: ObjectRef, i: nat, k: nat)
    requires Inv(v) && i < |v.chain| && k < |v.w.manifests[v.chain[i]].segments|
  {
    match v.w.manifests[v.chain[i]].segments[k].storage
    case External(key) => ref.storage == External(key)
    case Inline =>
      && ref.storage.FromManifest? && ref.storage.manifest == v.chain[i] && ref.storage.index == k
      && !ref.storage.carried && HintIs(v, v.chain[i], None, ref.storage.bundle)
    case FromManifest(manifest, original, index, _) =>
      && ref.storage.FromManifest? && ref.storage.manifest == manifest && ref.storage.index == index
      && !ref.storage.carried && HintIs(v, manifest, original, ref.storage.bundle)
  }

  ghost predicate PlanRef(v: Volume, ref: ObjectRef)
    requires Inv(v)
  {
    exists i: nat, k: nat ::
      InRestore(v.w, v.chain, i) && k < |v.w.manifests[v.chain[i]].segments| && Derived(v, ref, i, k)
  }

  /** A plan of the committed chain whose sources the chain names. */
  ghost predicate PlanOk(v: Volume, refs: seq<ObjectRef>)
    requires Inv(v)
  {
    && IsPlanFor(refs, RestoreChain(Published(v.w, v.chain)))
    && (forall j :: 0 <= j < |refs| ==> PlanRef(v, refs[j]))
  }

  /** The original of a reference can be fetched and records an old bundle at most. */
  lemma OriginalIsThere(v: Volume, i: nat, k: nat)
    requires Good(v) && Stocked(v) && HintsOk(v) && FloorOk(v) && InRestore(v.w, v.chain, i)
    requires k < |v.w.manifests[v.chain[i]].segments|
    ensures var original := v.w.manifests[v.chain[i]].segments[k];
            Fetchable(v.w, v.store, v.state, original) && HintBelow(v.w, original, HeadLast(v.state))
    ensures Reads(v.w, v.store, v.state, v.chain)[i].Found?
  {
    RestoreIsAboveFloor(v, i);
  }

  /** What a plan names can be fetched. */
  lemma PlanIsThere(v: Volume, ref: ObjectRef)
    requires Good(v) && Stocked(v) && HintsOk(v) && FloorOk(v) && PlanRef(v, ref)
    ensures Fetchable(v.w, v.store, v.state, ref) && HintBelow(v.w, ref, HeadLast(v.state))
  {
    var i: nat, k: nat :|
      InRestore(v.w, v.chain, i) && k < |v.w.manifests[v.chain[i]].segments| && Derived(v, ref, i, k);
    OriginalIsThere(v, i, k);
    FoundIsResolvable(v, i);
    if ref.storage.FromManifest? && ref.storage.bundle.Some? && Chained(v.w, v.state.bundle, ref.storage.bundle.value) {
      ChainedBelow(v.w, v.state.bundle, ref.storage.bundle.value);
    }
  }

  // ----- Steps that leave the chain alone -----

  /** The bundles of the head stay bundles of the head. */
  ghost predicate BundlesCarry(v: Volume, v': Volume)
    requires Inv(v) && Inv(v')
  {
    forall b :: Chained(v.w, v.state.bundle, b) ==> Chained(v'.w, v'.state.bundle, b)
  }

  lemma StoredCarries(v: Volume, v': Volume, b: Key, manifest: Key)
    requires Inv(v) && Inv(v') && CarriesOver(v, v') && InStoredBundle(v.w, v.store, b, manifest)
    ensures InStoredBundle(v'.w, v'.store, b, manifest)
  {
    var ref := ObjectRef(0, FromManifest(manifest, Some(b), 0, false), [], []);
    assert Fetchable(v.w, v.store, v.state, ref);
    assert Fetchable(v'.w, v'.store, v'.state, ref);
  }

  lemma DerivedCarries(v: Volume, v': Volume, ref: ObjectRef, i: nat, k: nat)
    requires Inv(v) && Inv(v') && CarriesOver(v, v') && BundlesCarry(v, v')
    requires i < |v.chain| && k < |v.w.manifests[v.chain[i]].segments| && Derived(v, ref, i, k)
    ensures i < |v'.chain| && v'.chain[i] == v.chain[i] && k < |v'.w.manifests[v'.chain[i]].segments|
    ensures Derived(v', ref, i, k)
  {
    if ref.storage.FromManifest? && ref.storage.bundle.Some? {
      var b, manifest := ref.storage.bundle.value, ref.storage.manifest;
      if InStoredBundle(v.w, v.store, b, manifest) { StoredCarries(v, v', b, manifest); }
    }
  }

  lemma PlanCarries(v: Volume, v': Volume, refs: seq<ObjectRef>)
    requires Inv(v) && Inv(v') && CarriesOver(v, v') && BundlesCarry(v, v') && v'.chain == v.chain && PlanOk(v, refs)
    ensures PlanOk(v', refs)
  {
    PublishedExtends(v.w, v'.w, v.chain);
    forall j | 0 <= j < |refs| ensures PlanRef(v', refs[j]) {
      assert PlanRef(v, refs[j]);
      var i: nat, k: nat :|
        InRestore(v.w, v.chain, i) && k < |v.w.manifests[v.chain[i]].segments| && Derived(v, refs[j], i, k);
      DerivedCarries(v, v', refs[j], i, k);
    }
  }

  /** Installing a bundle on top keeps the bundles behind it. */
  lemma InstallChains(w: World, state: State, p: Prepared, b: Key)
    requires BundlesOk(w) && (state.bundle.Some? ==> RefOk(w, state.bundle.value)) && RefOk(w, p.ref)
    requires w.bundles[p.ref.key].parent == state.bundle && Chained(w, state.bundle, b)
    ensures Chained(w, Some(p.ref), b)
  {
    assert BundleOk(w, w.bundles[p.ref.key]);
  }

  lemma StepChains(v: Volume, step: Step)
    requires Inv(v) && Enabled(v, step) && Inv(Apply(v, step)) && Extends(v.w, Apply(v, step).w)
    ensures BundlesCarry(v, Apply(v, step))
  {
    var v' := Apply(v, step);
    forall b | Chained(v.w, v.state.bundle, b) ensures Chained(v'.w, v'.state.bundle, b) {
      if v'.state.bundle == v.state.bundle {
        ChainedExtends(v.w, v'.w, v.state.bundle, b);
      } else {
        var p := if step.Update? then v.ready.value else v.op.value.placement.bundle.value;
        AppliesOnTop(v.w, v.chain, v.state, p);
        InstallChains(v.w, v.state, p, b);
      }
    }
  }

  // ----- Recording where manifests moved -----

  function Attached(refs: seq<ObjectRef>, bundle: Option<Prepared>): seq<ObjectRef> {
    if bundle.Some? then AttachBundle(refs, bundle.value.keys, bundle.value.ref.key) else refs
  }

  /** A source that is still inline has no location recorded. */
  lemma InlineHasNoHint(v: Volume, p: Prepared, i: nat, k: nat)
    requires Good(v) && Stocked(v) && HintsOk(v) && FloorOk(v) && InRestore(v.w, v.chain, i)
    requires PreparedOk(v.w, v.state, p) && Applies(v.w, v.state, p) && k < |v.w.manifests[v.chain[i]].segments|
    requires var s := v.w.manifests[v.chain[i]].segments[k].storage; s.FromManifest? && s.manifest in p.keys
    ensures v.w.manifests[v.chain[i]].segments[k].storage.bundle.None?
  {
    OriginalIsThere(v, i, k);
    AppliesOnTop(v.w, v.chain, v.state, p);
    var s := v.w.manifests[v.chain[i]].segments[k].storage;
    assert ContentOk(v.w, v.chain, v.w.bundles[p.ref.key]);
    assert s.bundle.Some? && s.bundle.value in v.w.bundles ==> ContentOk(v.w, v.chain, v.w.bundles[s.bundle.value]);
  }

  /** The volume once a stored bundle that applied was put on top of the head's bundles. */
  ghost predicate Installed(v: Volume, v': Volume, p: Prepared)
    requires Inv(v) && Inv(v')
  {
    && PreparedOk(v.w, v.state, p) && Applies(v.w, v.state, p)
    && v'.w == v.w && v.chain <= v'.chain && v'.state.bundle == Some(p.ref) && BundleObject(p.ref.key) in v'.store
  }

  lemma AttachOne(v: Volume, v': Volume, p: Prepared, ref: ObjectRef, i: nat, k: nat)
    requires Good(v) && Stocked(v) && HintsOk(v) && FloorOk(v) && Inv(v') && Installed(v, v', p)
    requires InRestore(v.w, v.chain, i) && k < |v.w.manifests[v.chain[i]].segments| && v'.chain[i] == v.chain[i]
    requires Derived(v', ref, i, k)
    ensures Derived(v', AttachBundle([ref], p.keys, p.ref.key)[0], i, k)
  {
    if ref.storage.FromManifest? && ref.storage.manifest in p.keys {
      if v.w.manifests[v.chain[i]].segments[k].storage.FromManifest? { InlineHasNoHint(v, p, i, k); }
      assert Chained(v'.w, v'.state.bundle, p.ref.key);
    }
  }

  /** The restore of the head before is part of the restore of the head after. */
  ghost predicate RestoreGrows(v: Volume, v': Volume)
    requires Inv(v) && Inv(v')
  {
    forall i: nat :: InRestore(v.w, v.chain, i) ==> InRestore(v'.w, v'.chain, i)
  }

  /** One reference of a plan across a change that may have installed a bundle, which is then recorded. */
  lemma AttachAcross(v: Volume, v': Volume, bundle: Option<Prepared>, ref: ObjectRef)
    requires Good(v) && Stocked(v) && HintsOk(v) && FloorOk(v) && PlanRef(v, ref)
    requires Inv(v') && CarriesOver(v, v') && BundlesCarry(v, v') && RestoreGrows(v, v')
    requires bundle.Some? ==> Installed(v, v', bundle.value)
    ensures PlanRef(v', Attached([ref], bundle)[0])
  {
    var i: nat, k: nat :|
      InRestore(v.w, v.chain, i) && k < |v.w.manifests[v.chain[i]].segments| && Derived(v, ref, i, k);
    DerivedCarries(v, v', ref, i, k);
    if bundle.Some? { AttachOne(v, v', bundle.value, ref, i, k); }
  }

  /** `attachBundleToRefs` on a plan: it names the same sources, and each of them as the volume now has it. */
  lemma AttachKeeps(v: Volume, v': Volume, bundle: Option<Prepared>, refs: seq<ObjectRef>)
    requires Good(v) && Stocked(v) && HintsOk(v) && FloorOk(v) && PlanOk(v, refs)
    requires Inv(v') && CarriesOver(v, v') && BundlesCarry(v, v') && RestoreGrows(v, v')
    requires bundle.Some? ==> Installed(v, v', bundle.value)
    ensures IsPlanFor(Attached(refs, bundle), RestoreChain(Published(v.w, v.chain)))
    ensures forall j :: 0 <= j < |refs| ==> PlanRef(v', Attached(refs, bundle)[j])
  {
    var more := Attached(refs, bundle);
    RelocatedPlan(refs, more, RestoreChain(Published(v.w, v.chain)));
    forall j | 0 <= j < |refs| ensures PlanRef(v', more[j]) {
      AttachAcross(v, v', bundle, refs[j]);
      assert more[j] == Attached([refs[j]], bundle)[0];
    }
  }

  // ----- Recomputing -----

  /** What `restorePlan` returns for the head: a plan of the manifests as they are read, with the storage they name. */
  ghost predicate Recomputed(v: Volume, refs: seq<ObjectRef>)
    requires Inv(v)
  {
    var walk := LimitedWalk(v.w, v.chain, Reads(v.w, v.store, v.state, v.chain), |v.chain|);
    walk.Some? && IsPlanFor(refs, walk.value) && PlanIsTaken(refs, walk.value)
  }

  /** A plan of the manifests as they are read is a plan of the published chain. */
  lemma PlanOfWalk(v: Volume, seen: seq<Read>, es: seq<Entry>, refs: seq<ObjectRef>)
    requires Good(v) && seen == Reads(v.w, v.store, v.state, v.chain)
    requires RestoreWalk(v.w, v.chain, seen, |v.chain|) == Some(es) && IsPlanFor(refs, es)
    ensures IsPlanFor(refs, RestoreChain(Published(v.w, v.chain)))
  {
    var history := Published(v.w, v.chain);
    assert history[..|v.chain|] == history;
    WalkIsRestoreChain(v.w, v.chain, seen, |v.chain|);
    forall n | 0 <= n < |es| ensures ValidRefs(es[n].segments) { WalkPosition(v.w, v.chain, seen, |v.chain|, n); }
    forall b: nat ensures Newest(es, b) == Newest(RestoreChain(history), b) {
      NewestIgnoresBundles(RestoreChain(history), es, b);
    }
  }

  lemma LocatedIsDerived(v: Volume, seen: seq<Read>, i: nat, k: nat, ref: ObjectRef)
    requires Inv(v) && seen == Reads(v.w, v.store, v.state, v.chain) && i < |v.chain| && seen[i].Found?
    requires k < |v.w.manifests[v.chain[i]].segments|
    requires var located := Locate(v.w.manifests[v.chain[i]].segments[k], v.chain[i], seen[i].bundle, k, true).storage;
             ref.storage == if located.FromManifest? then located.(carried := false) else located
    ensures Derived(v, ref, i, k)
  {
    FoundIsResolvable(v, i);
  }

  /** One reference of a recomputed plan. */
  lemma TakenIsPlanRef(v: Volume, seen: seq<Read>, es: seq<Entry>, n: nat, taken: ObjectRef, ref: ObjectRef)
    requires Inv(v) && seen == Reads(v.w, v.store, v.state, v.chain)
    requires RestoreWalk(v.w, v.chain, seen, |v.chain|) == Some(es) && n < |es|
    requires TakenFrom(taken, Located(es[n], true))
    requires ref.storage == if taken.storage.FromManifest? then taken.storage.(carried := false) else taken.storage
    ensures PlanRef(v, ref)
  {
    var k :| 0 <= k < |es[n].segments| && Located(es[n], true)[k].storage == taken.storage;
    WalkPosition(v.w, v.chain, seen, |v.chain|, n);
    LocatedIsDerived(v, seen, |v.chain| - 1 - n, k, ref);
  }

  /** A recomputed plan can be cached, and restated as a checkpoint. */
  lemma RecomputedIsOk(v: Volume, refs: seq<ObjectRef>)
    requires Good(v) && Recomputed(v, refs)
    ensures PlanOk(v, CheckpointReady(refs))
  {
    var seen, ready := Reads(v.w, v.store, v.state, v.chain), CheckpointReady(refs);
    var es := RestoreWalk(v.w, v.chain, seen, |v.chain|).value;
    RelocatedPlan(refs, ready, es);
    PlanOfWalk(v, seen, es, ready);
    forall j | 0 <= j < |ready| ensures PlanRef(v, ready[j]) {
      var n :| 0 <= n < |es| && TakenFrom(refs[j], Located(es[n], true));
      TakenIsPlanRef(v, seen, es, n, refs[j], ready[j]);
    }
  }

  /** The references of a plan carry no copies, so making them ready changes nothing. */
  lemma PlanIsReady(v: Volume, refs: seq<ObjectRef>)
    requires Good(v) && PlanOk(v, refs)
    ensures CheckpointReady(refs) == refs
  {
    forall j | 0 <= j < |refs| ensures CheckpointReady(refs)[j] == refs[j] {
      assert PlanRef(v, refs[j]);
    }
  }

  // ----- Committing -----

  /** What a delta contributes to the plan. */
  lemma DeltaRef(c: Contents, blocks: nat, v': Volume, n: nat, ref: ObjectRef)
    requires Inv(v') && |v'.chain| == n + 1 && DeltaOk(c, blocks, v'.w.manifests[v'.chain[n]])
    requires TakenFrom(ref, CheckpointRefs(EntryOf(v'.w, v'.chain[n], None)))
    ensures PlanRef(v', ref)
  {
    var entry := EntryOf(v'.w, v'.chain[n], None);
    var k :| 0 <= k < |CheckpointRefs(entry)| && CheckpointRefs(entry)[k].storage == ref.storage;
    assert Derived(v', ref, n, k);
    assert InRestore(v'.w, v'.chain, n);
  }

  /** The delta case of `applyManifestCommitLocked`, on a plan whose locations are up to date. */
  lemma DeltaCommitted(c: Contents, blocks: nat, v': Volume, n: nat, refs: seq<ObjectRef>, result: seq<ObjectRef>)
    requires Inv(v') && |v'.chain| == n + 1 && v'.w.manifests[v'.chain[n]].kind.Delta?
    requires DeltaOk(c, blocks, v'.w.manifests[v'.chain[n]])
    requires IsPlanFor(refs, RestoreChain(Published(v'.w, v'.chain)[..n])) &&
             forall j :: 0 <= j < |refs| ==> PlanRef(v', refs[j])
    requires DeltaApplied(refs, CheckpointRefs(EntryOf(v'.w, v'.chain[n], None)), result)
    ensures PlanOk(v', result)
  {
    var history, entry := Published(v'.w, v'.chain), EntryOf(v'.w, v'.chain[n], None);
    assert history[n] == entry && history[..|history| - 1] == history[..n];
    DeltaExtends(refs, entry, RestoreChain(history[..n]), result);
    forall j | 0 <= j < |result| ensures PlanRef(v', result[j]) {
      if TakenFrom(result[j], CheckpointRefs(entry)) {
        DeltaRef(c, blocks, v', n, result[j]);
      } else {
        var k :| 0 <= k < |refs| && refs[k].storage == result[j].storage;
        SameStorage(v', refs[k], result[j]);
      }
    }
  }

  lemma SameStorage(v: Volume, ref: ObjectRef, other: ObjectRef)
    requires Inv(v) && PlanRef(v, ref) && other.storage == ref.storage
    ensures PlanRef(v, other)
  {
    var i: nat, k: nat :|
      InRestore(v.w, v.chain, i) && k < |v.w.manifests[v.chain[i]].segments| && Derived(v, ref, i, k);
    assert Derived(v, other, i, k);
  }

  /** The checkpoint case: the plan is what the checkpoint states. */
  lemma CheckpointCommitted(v': Volume, n: nat, refs: seq<ObjectRef>)
    requires Inv(v') && |v'.chain| == n + 1 && v'.w.manifests[v'.chain[n]].kind.Checkpoint?
    requires refs == v'.w.manifests[v'.chain[n]].segments && ValidPlan(refs)
    requires forall j :: 0 <= j < |refs| ==> HintBelow(v'.w, refs[j], HeadLast(v'.state))
    ensures PlanOk(v', refs)
  {
    var history, entry := Published(v'.w, v'.chain), EntryOf(v'.w, v'.chain[n], None);
    assert history[|history| - 1] == entry && RestoreChain(history) == [entry];
    forall b: nat ensures Names(refs, b) == Newest([entry], b) {
      assert [entry][1..] == [];
      PlanHasNoInline(refs, entry, b);
    }
    forall j | 0 <= j < |refs| ensures PlanRef(v', refs[j]) {
      assert HintBelow(v'.w, refs[j], HeadLast(v'.state));
      assert Derived(v', refs[j], n, j);
      assert InRestore(v'.w, v'.chain, n);
    }
  }

  // ----- Collecting -----

  /** A bundle in which a plan locates an inline source is kept with the manifest it is in. */
  lemma InlineSourceKept(v: Volume, lo: nat, gone: set<Object>, i: nat, b: Key)
    requires Inv(v) && KeptFrom(v.w, v.store, v.state, v.chain, lo, gone) && lo <= i < |v.chain|
    requires Chained(v.w, v.state.bundle, b) && InStoredBundle(v.w, v.store, b, v.chain[i])
    ensures BundleObject(b) !in gone
  {
    var read := Reads(v.w, v.store, v.state, v.chain)[i];
    assert KeptAt(v.w, v.store, v.state, v.chain[i], read, gone);
    assert ContentOk(v.w, v.chain, v.w.bundles[b]);
    ChainedBelow(v.w, v.state.bundle, b);
    assert v.chain[i] !in v.state.inline;
    WalkFinds(v.w, v.store, v.state.bundle, b, v.chain[i], i + 1);
    assert KeptBy(v.w, v.store, v.state, EntryOf(v.w, v.chain[i], read.bundle), BundleObject(b));
  }

  /** So is one in which it locates the source of a checkpoint, with the path that leads to it. */
  lemma NamedSourceKept(v: Volume, lo: nat, gone: set<Object>, i: nat, k: nat, b: Key)
    requires Inv(v) && KeptFrom(v.w, v.store, v.state, v.chain, lo, gone) && lo <= i < |v.chain|
    requires k < |v.w.manifests[v.chain[i]].segments|
    requires var s := v.w.manifests[v.chain[i]].segments[k].storage;
             s.FromManifest? && s.bundle.None? && !s.carried && InStoredBundle(v.w, v.store, b, s.manifest)
    requires Chained(v.w, v.state.bundle, b)
    ensures BundleObject(b) !in gone
  {
    var read, ref := Reads(v.w, v.store, v.state, v.chain)[i], v.w.manifests[v.chain[i]].segments[k];
    var manifest := ref.storage.manifest;
    assert KeptAt(v.w, v.store, v.state, v.chain[i], read, gone);
    assert RefLocated(v.w, v.store, v.state, ref);
    assert ContentOk(v.w, v.chain, v.w.bundles[b]);
    ChainedBelow(v.w, v.state.bundle, b);
    assert manifest !in v.state.inline;
    SearchFinds(v.w, v.chain, v.store, v.state.bundle, b, manifest);
    assert KeptByRef(v.w, v.store, v.state, ref, BundleObject(b));
    assert KeptBySegments(v.w, v.store, v.state, v.w.manifests[v.chain[i]].segments, BundleObject(b));
    assert KeptBy(v.w, v.store, v.state, EntryOf(v.w, v.chain[i], read.bundle), BundleObject(b));
  }

  lemma DerivedSurvives(v: Volume, v': Volume, lo: nat, gone: set<Object>, ref: ObjectRef, i: nat, k: nat)
    requires Good(v) && HintsOk(v) && KeptFrom(v.w, v.store, v.state, v.chain, lo, gone) && lo <= i < |v.chain|
    requires Inv(v') && v'.w == v.w && v'.chain == v.chain && v'.state == v.state && v'.store == v.store - gone
    requires k < |v.w.manifests[v.chain[i]].segments| && Derived(v, ref, i, k)
    ensures Derived(v', ref, i, k)
  {
    var original := v.w.manifests[v.chain[i]].segments[k];
    assert HintBelow(v.w, original, HeadLast(v.state));
    if ref.storage.FromManifest? && ref.storage.bundle.Some? && Chained(v.w, v.state.bundle, ref.storage.bundle.value) {
      var b := ref.storage.bundle.value;
      if original.storage.Inline? {
        InlineSourceKept(v, lo, gone, i, b);
      } else if original.storage.bundle.None? {
        NamedSourceKept(v, lo, gone, i, k, b);
      }
    }
  }

  /** A collection leaves the cached plan as good as it was. */
  lemma CollectKeepsPlan(v: Volume, v': Volume, lo: nat, gone: set<Object>, refs: seq<ObjectRef>)
    requires Good(v) && HintsOk(v) && KeptFrom(v.w, v.store, v.state, v.chain, lo, gone) && PlanOk(v, refs)
    requires lo == 0 || CheckpointFrom(v.w, v.chain, lo)
    requires Inv(v') && v'.w == v.w && v'.chain == v.chain && v'.state == v.state && v'.store == v.store - gone
    ensures PlanOk(v', refs)
  {
    forall j | 0 <= j < |refs| ensures PlanRef(v', refs[j]) {
      assert PlanRef(v, refs[j]);
      var i: nat, k: nat :|
        InRestore(v.w, v.chain, i) && k < |v.w.manifests[v.chain[i]].segments| && Derived(v, refs[j], i, k);
      assert lo <= i;
      DerivedSurvives(v, v', lo, gone, refs[j], i, k);
    }
  }
}
