/**
 Whole runs of a volume: publishing deltas and checkpoints, packing, renewing,
 preparing a restore, taking over and collecting in any order
 (internal/replica/remote.go, internal/replica/lazy.go). Every generation from the
 retained floor on stays readable; every one whose restore stays above the floor
 and within the limit on its length can be restored, to the fold of the deltas up
 to it; and the plan the lease caches can be restated as a checkpoint at any time.
 */
module VolumeRuns {
  import opened Options
  import opened Extents
  import opened RestorePlans
  import opened Restores
  import opened ManifestStore
  import opened GarbageCollection
  import opened VolumeSteps
  import opened VolumeInvariants
  import opened CachedPlans

  // ----- Actions -----

  /** A plan that was computed from a snapshot of the head (`PrepareLazyRestore`). */
  datatype Draft = Draft(generation: nat, refs: seq<ObjectRef>)

  /** The volume and what the lease knows about it besides: its cached plan, if known. */
  datatype Node = Node(v: Volume, known: bool, plan: seq<ObjectRef>, draft: Option<Draft>)

  /**
   A step of the volume, with the plan it works from or leaves: for a checkpoint
   the plan that is restated, for the commit of a delta the plan afterwards.
   */
  datatype Action =
    | Take(step: Step, refs: seq<ObjectRef>)
    | Prepare(refs: seq<ObjectRef>)
    | Seed
    | Collect(cutoff: nat, lo: nat, gone: set<Object>)

  /** A bundle on its way to the head, stored or not, recorded as ready or not, is spared. */
  ghost predicate NotCollected(v: Volume, gone: set<Object>) {
    && (v.ready.Some? ==> BundleObject(v.ready.value.ref.key) !in gone)
    && (v.uploading.Some? ==> BundleObject(v.uploading.value.ref.key) !in gone)
  }

  /** The manifest `Publish` or `PublishCheckpoint` makes: a valid delta, or the cached or recomputed plan. */
  ghost predicate MadeBy(c: Contents, blocks: nat, n: Node, step: Step, refs: seq<ObjectRef>)
    requires Good(n.v) && step.BeginPublish?
  {
    if step.manifest.kind.Delta? then DeltaOk(c, blocks, step.manifest)
    else
      && (if n.known then refs == n.plan else Recomputed(n.v, refs))
      && step.manifest.segments == CheckpointReady(Attached(refs, AllInline(n.v, step.bundleKey)))
  }

  /** A collection runs while nothing is published and deletes only what no retained manifest needs. */
  ghost predicate Possible(c: Contents, blocks: nat, n: Node, a: Action)
    requires Good(n.v)
  {
    var v := n.v;
    match a
    case Take(step, refs) =>
      && Enabled(v, step)
      && (step.BeginPublish? ==> MadeBy(c, blocks, n, step, refs))
      && (step.Commit? && v.w.manifests[v.op.value.key].kind.Delta? && n.known ==>
            var delta := CheckpointRefs(EntryOf(v.w, v.op.value.key, None));
            DeltaApplied(Attached(n.plan, v.op.value.placement.bundle), delta, refs))
    case Prepare(refs) => Recomputed(v, refs)
    case Seed => true
    case Collect(cutoff, lo, gone) =>
      && v.op.None? && NotCollected(v, gone)
      && IsFloor(v.w, v.chain, Reads(v.w, v.store, v.state, v.chain), cutoff, lo)
      && LocatedFrom(v.w, v.store, v.state, v.chain, lo)
      && (forall o :: o in gone ==> !Retained(v.w, v.store, v.state, v.chain, lo, o))
  }

  function Higher(a: nat, b: nat): nat { if a < b then b else a }

  /** The plan after a step of the volume; a lease that takes over knows it only of an empty volume. */
  ghost function Taken(n: Node, step: Step, refs: seq<ObjectRef>): Node
    requires Inv(n.v) && Enabled(n.v, step)
  {
    var v, v' := n.v, Apply(n.v, step);
    match step
    case Update => Node(v', n.known, Attached(n.plan, UsableReady(v)), n.draft)
    case Commit =>
      var m := v.w.manifests[v.op.value.key];
      if m.kind.Checkpoint? then Node(v', true, m.segments, n.draft)
      else Node(v', n.known, if n.known then refs else Attached(n.plan, v.op.value.placement.bundle), n.draft)
    case TakeOver => Node(v', |v.chain| == 0, [], None)
    case _ => n.(v := v')
  }

  ghost function Next(c: Contents, blocks: nat, n: Node, a: Action): Node
    requires Good(n.v) && Possible(c, blocks, n, a)
  {
    match a
    case Take(step, refs) => Taken(n, step, refs)
    case Prepare(refs) => n.(draft := Some(Draft(n.v.state.generation, refs)))
    case Seed =>
      if n.draft.Some? && n.draft.value.generation == n.v.state.generation
      then n.(known := true, plan := CheckpointReady(n.draft.value.refs), draft := None) else n.(draft := None)
    case Collect(_, lo, gone) => n.(v := n.v.(store := n.v.store - gone, floor := Higher(n.v.floor, lo)))
  }

  // ----- The invariant -----

  ghost predicate DraftOk(n: Node)
    requires Inv(n.v)
  {
    n.draft.Some? ==>
      && n.draft.value.generation <= |n.v.chain|
      && (n.draft.value.generation == |n.v.chain| ==> PlanOk(n.v, CheckpointReady(n.draft.value.refs)))
  }

  ghost predicate NodeSound(c: Contents, blocks: nat, n: Node) {
    && Sound(c, blocks, n.v)
    && (n.known ==> PlanOk(n.v, n.plan))
    && DraftOk(n)
  }

  // ----- Beginning to publish -----

  /** Attaching the bundle of the inline area and dropping copies leaves a plan of the chain. */
  lemma RestatedPlan(v: Volume, refs: seq<ObjectRef>, bundle: Option<Prepared>)
    requires Good(v) && PlanOk(v, CheckpointReady(refs))
    requires forall i :: 0 <= i < |refs| ==> !refs[i].storage.Inline?
    ensures IsPlanFor(CheckpointReady(Attached(refs, bundle)), RestoreChain(Published(v.w, v.chain)))
  {
    RelocatedPlan(CheckpointReady(refs), CheckpointReady(Attached(refs, bundle)),
        RestoreChain(Published(v.w, v.chain)));
  }

  /** Each reference of the checkpoint is one of the plan, or names the bundle the commit installs. */
  lemma RestatedRef(v: Volume, refs: seq<ObjectRef>, bundle: Option<Prepared>, j: nat)
    requires Good(v) && Stocked(v) && HintsOk(v) && FloorOk(v) && PlanOk(v, CheckpointReady(refs)) && j < |refs|
    ensures var ref := CheckpointReady(Attached(refs, bundle))[j];
            || ByBundle(bundle, ref)
            || (Fetchable(v.w, v.store, v.state, ref) && HintBelow(v.w, ref, HeadLast(v.state)))
  {
    var ready := CheckpointReady(refs);
    assert PlanRef(v, ready[j]);
    PlanIsThere(v, ready[j]);
  }

  /** The plan a checkpoint restates, cached or recomputed. */
  lemma RestatesPlan(c: Contents, blocks: nat, n: Node, step: Step, refs: seq<ObjectRef>)
    requires NodeSound(c, blocks, n) && step.BeginPublish? && step.manifest.kind.Checkpoint?
    requires MadeBy(c, blocks, n, step, refs)
    ensures PlanOk(n.v, CheckpointReady(refs)) && forall i :: 0 <= i < |refs| ==> !refs[i].storage.Inline?
  {
    if n.known { PlanIsReady(n.v, n.plan); } else { RecomputedIsOk(n.v, refs); }
  }

  lemma CheckpointPlaces(v: Volume, step: Step)
    requires Inv(v) && step.BeginPublish? && step.manifest.kind.Checkpoint?
    ensures PlacementOf(v, step).bundle == AllInline(v, step.bundleKey)
  {
    AllRemains(v, step.bundleKey);
  }

  lemma BeginFacts(v: Volume, step: Step)
    requires Inv(v) && step.BeginPublish?
    ensures var v' := BeginPublished(v, step);
            && v'.chain == v.chain && v'.floor == v.floor && v'.state == v.state && v'.op.Some?
            && v'.op.value.key == step.key && v'.op.value.placement == PlacementOf(v, step) && !v'.op.value.uploaded
            && step.key in v'.w.manifests && v'.w.manifests[step.key] == step.manifest
  {
  }

  /** The volume as `publishPrepared` leaves it once the manifest is named. */
  lemma BeginSound(c: Contents, blocks: nat, n: Node, step: Step, refs: seq<ObjectRef>)
    requires NodeSound(c, blocks, n) && step.BeginPublish? && Possible(c, blocks, n, Take(step, refs))
    requires Good(BeginPublished(n.v, step)) && CarriesOver(n.v, BeginPublished(n.v, step))
    ensures Sound(c, blocks, BeginPublished(n.v, step))
  {
    var v, v' := n.v, BeginPublished(n.v, step);
    BeginFacts(v, step);
    QuietKeeps(c, blocks, v, v');
    if step.manifest.kind.Checkpoint? {
      BeginCheckpoint(c, blocks, n, step, refs);
    } else {
      BeginDelta(c, blocks, v', step);
    }
    BeginOp(c, blocks, v, v', step);
  }

  lemma BeginOp(c: Contents, blocks: nat, v: Volume, v': Volume, step: Step)
    requires Inv(v) && Inv(v') && step.BeginPublish? && Extends(v.w, v'.w) && v'.chain == v.chain && v'.op.Some?
    requires v'.op.value.key == step.key && step.key in v'.w.manifests && v'.w.manifests[step.key] == step.manifest
    requires var m := step.manifest;
             && (m.kind.Delta? ==> DeltaOk(c, blocks, m))
             && (m.kind.Checkpoint? ==> IsPlanFor(m.segments, RestoreChain(Published(v.w, v.chain))))
             && (forall j :: 0 <= j < |m.segments| ==> Supplied(v', v'.op.value, m.segments[j]))
             && (forall j :: 0 <= j < |m.segments| ==>
                   || ByBundle(v'.op.value.placement.bundle, m.segments[j])
                   || HintBelow(v'.w, m.segments[j], HeadLast(v'.state)))
    ensures OpSound(c, blocks, v')
  {
    PublishedExtends(v.w, v'.w, v.chain);
  }

  lemma BeginDelta(c: Contents, blocks: nat, v': Volume, step: Step)
    requires Inv(v') && step.BeginPublish? && v'.op.Some? && !v'.op.value.uploaded && v'.op.value.key == step.key
    requires step.key in v'.w.manifests && v'.w.manifests[step.key] == step.manifest
    requires step.manifest.kind.Delta? && DeltaOk(c, blocks, step.manifest)
    ensures var m := step.manifest;
            && (forall j :: 0 <= j < |m.segments| ==> Supplied(v', v'.op.value, m.segments[j]))
            && (forall j :: 0 <= j < |m.segments| ==> HintBelow(v'.w, m.segments[j], HeadLast(v'.state)))
  {
  }

  lemma BeginCheckpoint(c: Contents, blocks: nat, n: Node, step: Step, refs: seq<ObjectRef>)
    requires NodeSound(c, blocks, n) && step.BeginPublish? && Possible(c, blocks, n, Take(step, refs))
    requires step.manifest.kind.Checkpoint? && Good(BeginPublished(n.v, step))
    requires CarriesOver(n.v, BeginPublished(n.v, step))
    ensures var v', m := BeginPublished(n.v, step), step.manifest;
            && IsPlanFor(m.segments, RestoreChain(Published(n.v.w, n.v.chain)))
            && (forall j :: 0 <= j < |m.segments| ==> Supplied(v', v'.op.value, m.segments[j]))
            && (forall j :: 0 <= j < |m.segments| ==>
                  || ByBundle(v'.op.value.placement.bundle, m.segments[j])
                  || HintBelow(v'.w, m.segments[j], HeadLast(v'.state)))
  {
    var v, v', m := n.v, BeginPublished(n.v, step), step.manifest;
    var bundle := AllInline(v, step.bundleKey);
    CheckpointPlaces(v, step);
    RestatesPlan(c, blocks, n, step, refs);
    RestatedPlan(v, refs, bundle);
    forall j | 0 <= j < |m.segments|
      ensures Supplied(v', v'.op.value, m.segments[j])
      ensures ByBundle(bundle, m.segments[j]) || HintBelow(v'.w, m.segments[j], HeadLast(v'.state))
    {
      RestatedRef(v, refs, bundle, j);
    }
  }

  // ----- Committing -----

  /** Once everything is uploaded, every segment of the manifest can be fetched. */
  lemma UploadedIsThere(c: Contents, blocks: nat, v: Volume, j: nat)
    requires Sound(c, blocks, v) && Enabled(v, Commit)
    requires j < |v.w.manifests[v.op.value.key].segments|
    ensures Fetchable(v.w, v.store, v.state, v.w.manifests[v.op.value.key].segments[j])
  {
    assert Supplied(v, v.op.value, v.w.manifests[v.op.value.key].segments[j]);
  }

  /** The history with the new manifest on top is built as publishing builds it. */
  lemma CommitBuilds(c: Contents, blocks: nat, w: World, chain: seq<Key>, key: Key)
    requires ChainOk(w, chain) && ChainOk(w, chain + [key]) && Built(c, Published(w, chain), blocks)
    requires key in w.manifests
    requires w.manifests[key].kind.Delta? ==> DeltaOk(c, blocks, w.manifests[key])
    requires w.manifests[key].kind.Checkpoint? ==>
             IsPlanFor(w.manifests[key].segments, RestoreChain(Published(w, chain)))
    ensures Built(c, Published(w, chain + [key]), blocks)
  {
    var history, entry := Published(w, chain), EntryOf(w, key, None);
    assert Published(w, chain + [key]) == history + [entry];
    if entry.kind.Checkpoint? {
      ChainIsValid(c, history, blocks);
      PlanIsTruthful(c, entry.segments, RestoreChain(history), blocks);
    }
    BuiltExtend(c, history, entry, blocks);
  }

  lemma CommitStocks(c: Contents, blocks: nat, v: Volume, v': Volume, i: nat, j: nat)
    requires Sound(c, blocks, v) && Enabled(v, Commit) && Inv(v') && CarriesOver(v, v')
    requires v'.chain == v.chain + [v.op.value.key] && v'.w == v.w
    requires v.floor <= i < |v'.chain| && j < |v'.w.manifests[v'.chain[i]].segments|
    ensures Fetchable(v'.w, v'.store, v'.state, v'.w.manifests[v'.chain[i]].segments[j])
  {
    if i < |v.chain| {
      assert v'.chain[i] == v.chain[i];
      assert Fetchable(v.w, v.store, v.state, v.w.manifests[v.chain[i]].segments[j]);
    } else {
      UploadedIsThere(c, blocks, v, j);
    }
  }

  lemma CommitHints(c: Contents, blocks: nat, v: Volume, v': Volume, i: nat, j: nat)
    requires Sound(c, blocks, v) && Enabled(v, Commit) && Inv(v') && v'.state == CommitState(v.state, v.op.value)
    requires HeadLast(v.state) <= HeadLast(v'.state) && v'.chain == v.chain + [v.op.value.key] && v'.w == v.w
    requires i < |v'.chain| && j < |v'.w.manifests[v'.chain[i]].segments|
    ensures HintBelow(v'.w, v'.w.manifests[v'.chain[i]].segments[j], HeadLast(v'.state))
  {
    if i < |v.chain| {
      assert v'.chain[i] == v.chain[i];
      assert HintBelow(v.w, v.w.manifests[v.chain[i]].segments[j], HeadLast(v.state));
    } else {
      var bundle, ref := v.op.value.placement.bundle, v.w.manifests[v.op.value.key].segments[j];
      assert ByBundle(bundle, ref) || HintBelow(v.w, ref, HeadLast(v.state));
      assert ByBundle(bundle, ref) ==> RefOk(v.w, bundle.value.ref);
    }
  }

  lemma CommitSound(c: Contents, blocks: nat, v: Volume)
    requires Sound(c, blocks, v) && Enabled(v, Commit) && Good(Apply(v, Commit))
    ensures Sound(c, blocks, Apply(v, Commit))
  {
    var v' := Apply(v, Commit);
    CommitCarries(v, v');
    StepAdvancesBundle(v, Commit);
    CommitBuilds(c, blocks, v.w, v.chain, v.op.value.key);
    forall i: nat, j: nat | v'.floor <= i < |v'.chain| && j < |v'.w.manifests[v'.chain[i]].segments|
      ensures Fetchable(v'.w, v'.store, v'.state, v'.w.manifests[v'.chain[i]].segments[j])
    {
      CommitStocks(c, blocks, v, v', i, j);
    }
    assert Stocked(v');
    forall i: nat, j: nat | i < |v'.chain| && j < |v'.w.manifests[v'.chain[i]].segments|
      ensures HintBelow(v'.w, v'.w.manifests[v'.chain[i]].segments[j], HeadLast(v'.state))
    {
      CommitHints(c, blocks, v, v', i, j);
    }
    assert HintsOk(v');
    if v.floor != 0 { CheckpointStays(v.w, v.chain, v'.chain, v.floor); }
  }

  lemma CheckpointStays(w: World, chain: seq<Key>, longer: seq<Key>, lo: nat)
    requires ChainOk(w, chain) && ChainOk(w, longer) && chain <= longer && CheckpointFrom(w, chain, lo)
    ensures CheckpointFrom(w, longer, lo)
  {
    var i :| lo <= i < |chain| && w.manifests[chain[i]].kind.Checkpoint?;
    assert longer[i] == chain[i];
  }


  /** What a commit leaves, as far as the plan is concerned. */
  lemma CommitFacts(v: Volume, v': Volume)
    requires Inv(v) && Enabled(v, Commit) && v' == Apply(v, Commit) && Inv(v')
    ensures v'.w == v.w && v'.chain == v.chain + [v.op.value.key]
    ensures v.op.value.placement.bundle.Some? ==> Installed(v, v', v.op.value.placement.bundle.value)
    ensures Published(v'.w, v'.chain)[..|v.chain|] == Published(v.w, v.chain)
  {
    assert forall i :: 0 <= i < |v.chain| ==> v'.chain[i] == v.chain[i];
  }

  lemma DeltaGrows(v: Volume, v': Volume)
    requires Inv(v) && Inv(v') && v'.w == v.w && |v'.chain| == |v.chain| + 1 && v.chain <= v'.chain
    requires v'.w.manifests[v'.chain[|v.chain|]].kind.Delta?
    ensures RestoreGrows(v, v')
  {
    forall i: nat | InRestore(v.w, v.chain, i) ensures InRestore(v'.w, v'.chain, i) {
      forall x | i < x < |v'.chain| ensures v'.w.manifests[v'.chain[x]].kind.Delta? {
        if x < |v.chain| { assert v'.chain[x] == v.chain[x]; }
      }
    }
  }

  lemma CommitDeltaPlan(c: Contents, blocks: nat, n: Node, v': Volume, refs: seq<ObjectRef>)
    requires NodeSound(c, blocks, n) && n.known && Possible(c, blocks, n, Take(Commit, refs))
    requires v' == Apply(n.v, Commit)
    requires n.v.w.manifests[n.v.op.value.key].kind.Delta? && Good(v') && CarriesOver(n.v, v')
    ensures PlanOk(v', refs)
  {
    var v := n.v;
    var bundle := v.op.value.placement.bundle;
    CommitFacts(v, v');
    StepChains(v, Commit);
    DeltaGrows(v, v');
    AttachKeeps(v, v', bundle, n.plan);
    DeltaCommitted(c, blocks, v', |v.chain|, Attached(n.plan, bundle), refs);
  }

  lemma CommitPlan(c: Contents, blocks: nat, n: Node, v': Volume, refs: seq<ObjectRef>)
    requires NodeSound(c, blocks, n) && Possible(c, blocks, n, Take(Commit, refs)) && v' == Apply(n.v, Commit)
    requires Sound(c, blocks, v') && CarriesOver(n.v, v')
    ensures var after := Taken(n, Commit, refs);
            after.v == v' && (after.known ==> PlanOk(v', after.plan)) && DraftOk(after)
  {
    var v := n.v;
    if v.w.manifests[v.op.value.key].kind.Checkpoint? {
      CommitFacts(v, v');
      CommitCheckpointPlan(c, blocks, v', |v.chain|);
    } else if n.known {
      CommitDeltaPlan(c, blocks, n, v', refs);
    }
  }

  lemma CommitCheckpointPlan(c: Contents, blocks: nat, v': Volume, n: nat)
    requires Sound(c, blocks, v') && |v'.chain| == n + 1 && v'.w.manifests[v'.chain[n]].kind.Checkpoint?
    ensures PlanOk(v', v'.w.manifests[v'.chain[n]].segments)
  {
    var history := Published(v'.w, v'.chain);
    assert history[|history| - 1] == EntryOf(v'.w, v'.chain[n], None);
    var refs := v'.w.manifests[v'.chain[n]].segments;
    forall j | 0 <= j < |refs| ensures HintBelow(v'.w, refs[j], HeadLast(v'.state)) {
      assert HintBelow(v'.w, v'.w.manifests[v'.chain[n]].segments[j], HeadLast(v'.state));
    }
    CheckpointCommitted(v', n, refs);
  }

  // ----- Collecting -----

  lemma CollectReads(v: Volume, lo: nat, gone: set<Object>, floor: nat)
    requires Inv(v) && KeptFrom(v.w, v.store, v.state, v.chain, lo, gone) && lo <= floor
    ensures Readable(v.w, v.store - gone, v.state, v.chain, floor)
  {
    forall i | floor <= i < |v.chain| ensures ReadManifest(v.w, v.store - gone, v.state, v.chain[i], i + 1).Found? {
      ReadSurvives(v.w, v.chain, v.state, v.store, gone, lo, i);
    }
  }

  lemma CollectKeeps(c: Contents, blocks: nat, n: Node, a: Action)
    requires Good(n.v) && a.Collect? && Possible(c, blocks, n, a)
    ensures Good(Next(c, blocks, n, a).v)
  {
    var v := n.v;
    UnneededMayGo(v.w, v.chain, v.state, v.store, a.cutoff, a.lo, a.gone);
    CollectReads(v, a.lo, a.gone, Higher(v.floor, a.lo));
  }

  lemma CollectStocks(c: Contents, blocks: nat, v: Volume, lo: nat, gone: set<Object>, i: nat, j: nat)
    requires Sound(c, blocks, v) && KeptFrom(v.w, v.store, v.state, v.chain, lo, gone)
    requires v.floor <= i < |v.chain| && lo <= i && j < |v.w.manifests[v.chain[i]].segments|
    ensures Fetchable(v.w, v.store - gone, v.state, v.w.manifests[v.chain[i]].segments[j])
  {
    var seen := Reads(v.w, v.store, v.state, v.chain);
    var entry := EntryOf(v.w, v.chain[i], Where(seen[i]));
    assert KeptAt(v.w, v.store, v.state, v.chain[i], seen[i], gone);
    assert IsRead(v.w, v.chain, seen, i, entry);
    assert FromKept(v.w, v.chain, seen, lo, entry);
    assert Fetchable(v.w, v.store, v.state, entry.segments[j]);
    EntrySurvives(v.w, v.chain, v.state, v.store, gone, lo, entry, j);
  }

  lemma FloorHasCheckpoint(w: World, chain: seq<Key>, seen: seq<Read>, cutoff: nat, lo: nat)
    requires ChainOk(w, chain) && |chain| == |seen| && IsFloor(w, chain, seen, cutoff, lo)
    ensures lo == 0 || CheckpointFrom(w, chain, lo)
  {
    if lo < |chain| && OldCheckpoint(w, chain[lo], cutoff) {
      assert w.manifests[chain[lo]].kind.Checkpoint?;
    }
  }

  lemma CollectVolume(c: Contents, blocks: nat, v: Volume, v': Volume, lo: nat, gone: set<Object>)
    requires Sound(c, blocks, v) && KeptFrom(v.w, v.store, v.state, v.chain, lo, gone) && v.op.None?
    requires v' == v.(store := v.store - gone, floor := Higher(v.floor, lo)) && Good(v')
    requires lo == 0 || CheckpointFrom(v.w, v.chain, lo)
    ensures Sound(c, blocks, v')
  {
    forall i: nat, j: nat | v'.floor <= i < |v.chain| && j < |v.w.manifests[v.chain[i]].segments|
      ensures Fetchable(v'.w, v'.store, v'.state, v'.w.manifests[v'.chain[i]].segments[j])
    {
      CollectStocks(c, blocks, v, lo, gone, i, j);
    }
    assert Stocked(v');
  }

  lemma CollectSound(c: Contents, blocks: nat, n: Node, a: Action)
    requires NodeSound(c, blocks, n) && a.Collect? && Possible(c, blocks, n, a)
    ensures NodeSound(c, blocks, Next(c, blocks, n, a))
  {
    var v, v' := n.v, Next(c, blocks, n, a).v;
    CollectKeeps(c, blocks, n, a);
    UnneededMayGo(v.w, v.chain, v.state, v.store, a.cutoff, a.lo, a.gone);
    FloorHasCheckpoint(v.w, v.chain, Reads(v.w, v.store, v.state, v.chain), a.cutoff, a.lo);
    CollectVolume(c, blocks, v, v', a.lo, a.gone);
    if n.known { CollectKeepsPlan(v, v', a.lo, a.gone, n.plan); }
    if n.draft.Some? && n.draft.value.generation == |v.chain| {
      CollectKeepsPlan(v, v', a.lo, a.gone, CheckpointReady(n.draft.value.refs));
    }
  }

  // ----- Every action keeps it -----

  lemma TakeKeeps(c: Contents, blocks: nat, n: Node, step: Step, refs: seq<ObjectRef>)
    requires NodeSound(c, blocks, n) && Possible(c, blocks, n, Take(step, refs))
    ensures Good(Apply(n.v, step))
  {
    StepKeeps(n.v, step);
    if step.BeginPublish? && step.manifest.kind.Checkpoint? {
      RestatesPlan(c, blocks, n, step, refs);
      RestatedPlan(n.v, refs, AllInline(n.v, step.bundleKey));
      PlanIsValid(step.manifest.segments);
    }
    NamesSegments(n.v, step);
  }

  lemma PlanIsValid(refs: seq<ObjectRef>)
    requires ValidPlan(refs)
    ensures ValidRefs(refs)
  {
  }

  /** Steps other than beginning and committing leave the chain alone and at most move or upload for a publication. */
  lemma OtherSteps(v: Volume, step: Step)
    requires Inv(v) && Enabled(v, step) && !step.BeginPublish? && !step.Commit?
    ensures var v' := Apply(v, step);
            && v'.chain == v.chain && v'.floor == v.floor
            && (v'.op.Some? ==>
                  && v.op.Some? && v'.op.value.key == v.op.value.key && v'.op.value.placement == v.op.value.placement
                  && (v'.op.value.uploaded ==>
                        v.op.value.uploaded || Uploads(v.w.manifests[v.op.value.key]) <= v'.store))
  {
  }

  lemma OtherSound(c: Contents, blocks: nat, v: Volume, v': Volume, step: Step)
    requires Sound(c, blocks, v) && Enabled(v, step) && !step.BeginPublish? && !step.Commit?
    requires v' == Apply(v, step) && Good(v') && CarriesOver(v, v')
    ensures Sound(c, blocks, v')
  {
    StepAdvancesBundle(v, step);
    OtherSteps(v, step);
    QuietKeeps(c, blocks, v, v');
    if v'.op.Some? { OpCarries(c, blocks, v, v'); }
  }

  /** The plan across steps that leave the chain alone. */
  lemma OtherPlan(c: Contents, blocks: nat, n: Node, v': Volume, step: Step, refs: seq<ObjectRef>)
    requires NodeSound(c, blocks, n) && Enabled(n.v, step) && !step.Commit? && v' == Apply(n.v, step) && Good(v')
    requires CarriesOver(n.v, v') && v'.chain == n.v.chain
    ensures var after := Taken(n, step, refs);
            after.v == v' && (after.known ==> PlanOk(v', after.plan)) && DraftOk(after)
  {
    var v, after := n.v, Taken(n, step, refs);
    StepChains(v, step);
    if n.draft.Some? && n.draft.value.generation == |v.chain| {
      PlanCarries(v, v', CheckpointReady(n.draft.value.refs));
    }
    if step.TakeOver? {
      if |v.chain| == 0 { EmptyPlan(v'); }
    } else if n.known {
      if step.Update? { UpdatePlan(c, blocks, v, v', n.plan); } else { PlanCarries(v, v', n.plan); }
    }
  }

  lemma UpdatePlan(c: Contents, blocks: nat, v: Volume, v': Volume, refs: seq<ObjectRef>)
    requires Sound(c, blocks, v) && v' == Apply(v, Update) && Good(v') && PlanOk(v, refs)
    requires CarriesOver(v, v') && BundlesCarry(v, v') && v'.chain == v.chain
    ensures PlanOk(v', Attached(refs, UsableReady(v)))
  {
    PublishedExtends(v.w, v'.w, v.chain);
    AttachKeeps(v, v', UsableReady(v), refs);
  }

  lemma EmptyPlan(v: Volume)
    requires Inv(v) && |v.chain| == 0
    ensures PlanOk(v, [])
  {
    assert Published(v.w, v.chain) == [];
  }

  lemma TakeSound(c: Contents, blocks: nat, n: Node, step: Step, refs: seq<ObjectRef>)
    requires NodeSound(c, blocks, n) && Possible(c, blocks, n, Take(step, refs)) && Good(Apply(n.v, step))
    ensures NodeSound(c, blocks, Taken(n, step, refs))
  {
    var v' := Apply(n.v, step);
    StepCarries(n.v, step);
    if step.Commit? {
      CommitSound(c, blocks, n.v);
      CommitPlan(c, blocks, n, v', refs);
    } else {
      if step.BeginPublish? { BeginSound(c, blocks, n, step, refs); } else { OtherSound(c, blocks, n.v, v', step); }
      SameChain(n.v, step);
      OtherPlan(c, blocks, n, v', step, refs);
    }
  }

  lemma SameChain(v: Volume, step: Step)
    requires Inv(v) && Enabled(v, step) && !step.Commit?
    ensures Apply(v, step).chain == v.chain
  {
  }

  lemma ActionKeeps(c: Contents, blocks: nat, n: Node, a: Action)
    requires NodeSound(c, blocks, n) && Possible(c, blocks, n, a)
    ensures NodeSound(c, blocks, Next(c, blocks, n, a))
  {
    match a
    case Take(step, refs) =>
      TakeKeeps(c, blocks, n, step, refs);
      TakeSound(c, blocks, n, step, refs);
    case Prepare(refs) => RecomputedIsOk(n.v, refs);
    case Seed =>
    case Collect(_, _, _) => CollectSound(c, blocks, n, a);
  }

  // ----- Runs -----

  const Fresh := Volume(World(map[], map[]), {}, State(0, None, [], None), [], 0, None, None, None)

  ghost predicate IsRun(c: Contents, blocks: nat, nodes: seq<Node>, actions: seq<Action>) {
    && |nodes| == |actions| + 1 && nodes[0] == Node(Fresh, true, [], None)
    && (forall i :: 0 <= i < |actions| ==> IsStep(c, blocks, nodes[i], actions[i], nodes[i + 1]))
  }

  ghost predicate IsStep(c: Contents, blocks: nat, n: Node, a: Action, n': Node) {
    Good(n.v) ==> Possible(c, blocks, n, a) && n' == Next(c, blocks, n, a)
  }

  lemma FreshIsSound(c: Contents, blocks: nat)
    ensures NodeSound(c, blocks, Node(Fresh, true, [], None))
  {
    assert Published(Fresh.w, []) == [];
    EmptyPlan(Fresh);
  }

  /** The invariant holds in every reachable state. */
  lemma {:induction false} RunKeeps(c: Contents, blocks: nat, nodes: seq<Node>, actions: seq<Action>, i: nat)
    requires IsRun(c, blocks, nodes, actions) && i < |nodes|
    ensures NodeSound(c, blocks, nodes[i])
  {
    if i == 0 {
      FreshIsSound(c, blocks);
    } else {
      RunKeeps(c, blocks, nodes, actions, i - 1);
      assert IsStep(c, blocks, nodes[i - 1], actions[i - 1], nodes[i]);
      ActionKeeps(c, blocks, nodes[i - 1], actions[i - 1]);
    }
  }

  /** The placement invariant in every reachable state, spelled out. */
  lemma PlacementInvariant(c: Contents, blocks: nat, nodes: seq<Node>, actions: seq<Action>, i: nat)
    requires IsRun(c, blocks, nodes, actions) && i < |nodes|
    ensures var v := nodes[i].v;
            && Good(v)
            && Bytes(v.w, v.state.inline) <= INLINE_STATE_LIMIT
            && (forall k :: k in v.state.inline ==>
                  k in v.w.manifests && v.w.manifests[k].generation > HeadLast(v.state))
            && (forall k :: k in v.w.bundles && v.w.bundles[k].parent.Some? ==>
                  && v.w.bundles[k].parent.value.last < v.w.bundles[k].first <= v.w.bundles[k].last)
            && (forall g :: v.floor <= g < |v.chain| ==> ReadManifest(v.w, v.store, v.state, v.chain[g], g + 1).Found?)
  {
    RunKeeps(c, blocks, nodes, actions, i);
    var v := nodes[i].v;
    forall k | k in v.w.bundles && v.w.bundles[k].parent.Some?
      ensures v.w.bundles[k].parent.value.last < v.w.bundles[k].first <= v.w.bundles[k].last
    {
      assert BundleOk(v.w, v.w.bundles[k]);
    }
  }

  /**
   Cached plan agreement: in every run a plan that is known names for every block
   the source the committed chain names, and each of its sources can be fetched.
   */
  lemma CachedPlanAgrees(c: Contents, blocks: nat, nodes: seq<Node>, actions: seq<Action>, i: nat)
    requires IsRun(c, blocks, nodes, actions) && i < |nodes| && nodes[i].known
    ensures var v, plan := nodes[i].v, nodes[i].plan;
            && Good(v) && IsPlanFor(plan, RestoreChain(Published(v.w, v.chain)))
            && (forall j :: 0 <= j < |plan| ==> Fetchable(v.w, v.store, v.state, plan[j]))
  {
    RunKeeps(c, blocks, nodes, actions, i);
    var v, plan := nodes[i].v, nodes[i].plan;
    forall j | 0 <= j < |plan| ensures Fetchable(v.w, v.store, v.state, plan[j]) {
      assert PlanRef(v, plan[j]);
      PlanIsThere(v, plan[j]);
    }
  }

  // ----- Restoring -----

  /** The restore of generation `g` ends at a checkpoint from the floor on, or nothing was collected. */
  ghost predicate StaysAbove(v: Volume, g: nat)
    requires Inv(v)
  {
    && g <= |v.chain|
    && (g == 0 || v.floor == 0 || exists i :: v.floor <= i < g && v.w.manifests[v.chain[i]].kind.Checkpoint?)
  }

  /** Every manifest of such a restore can be read and lies at the floor or above. */
  lemma {:induction false} WalkSucceeds(v: Volume, seen: seq<Read>, g: nat)
    requires Inv(v) && StaysAbove(v, g) && seen == Reads(v.w, v.store, v.state, v.chain)
    ensures RestoreWalk(v.w, v.chain, seen, g).Some?
    ensures forall n :: 0 <= n < |RestoreWalk(v.w, v.chain, seen, g).value| ==>
              FromKept(v.w, v.chain, seen, v.floor, RestoreWalk(v.w, v.chain, seen, g).value[n])
  {
    if g > 0 {
      assert v.floor <= g - 1;
      var entry := EntryOf(v.w, v.chain[g - 1], seen[g - 1].bundle);
      assert IsRead(v.w, v.chain, seen, g - 1, entry);
      assert FromKept(v.w, v.chain, seen, v.floor, entry);
      if entry.kind.Delta? {
        WalkSucceeds(v, seen, g - 1);
      }
    }
  }

  lemma WalkIsFetchable(v: Volume, seen: seq<Read>, es: seq<Entry>)
    requires Inv(v) && Stocked(v) && seen == Reads(v.w, v.store, v.state, v.chain)
    requires forall n :: 0 <= n < |es| ==> FromKept(v.w, v.chain, seen, v.floor, es[n])
    ensures AllFetchable(v.w, v.store, v.state, es)
  {
    forall n, j | 0 <= n < |es| && 0 <= j < |es[n].segments| && Needed(es, n, j)
      ensures Fetchable(v.w, v.store, v.state, es[n].segments[j])
    {
      var p :| v.floor <= p < |v.chain| && IsRead(v.w, v.chain, seen, p, es[n]);
      assert Fetchable(v.w, v.store, v.state, v.w.manifests[v.chain[p]].segments[j]);
    }
  }

  ghost function RestoredAt(c: Contents, blocks: nat, v: Volume, g: nat): Option<Image>
    requires Good(v) && g <= |v.chain|
  {
    Restored(c, blocks, v.w, v.store, v.state, v.chain, g)
  }

  /**
   Restorability: in every run, a generation whose restore stays above the
   retained floor can be restored if and only if at most 1,000,000 deltas precede
   its newest checkpoint, or the empty volume; and what it restores to is the fold
   of the deltas published up to it, wherever their bodies and segments lie by then.
   */
  lemma Restorable(c: Contents, blocks: nat, nodes: seq<Node>, actions: seq<Action>, i: nat, g: nat)
    requires IsRun(c, blocks, nodes, actions) && i < |nodes| && Good(nodes[i].v) && StaysAbove(nodes[i].v, g)
    ensures var v := nodes[i].v;
            && Built(c, Published(v.w, v.chain)[..g], blocks)
            && RestoredAt(c, blocks, v, g) ==
               if ShortWalk(v.w, v.chain, g) then Some(Fold(c, Published(v.w, v.chain)[..g], blocks)) else None
  {
    RunKeeps(c, blocks, nodes, actions, i);
    RestorableHere(c, blocks, nodes[i].v, g);
  }

  lemma RestorableHere(c: Contents, blocks: nat, v: Volume, g: nat)
    requires Sound(c, blocks, v) && StaysAbove(v, g)
    ensures Built(c, Published(v.w, v.chain)[..g], blocks)
    ensures RestoredAt(c, blocks, v, g) ==
            if ShortWalk(v.w, v.chain, g) then Some(Fold(c, Published(v.w, v.chain)[..g], blocks)) else None
  {
    var seen := Reads(v.w, v.store, v.state, v.chain);
    BuiltPrefix(c, Published(v.w, v.chain), blocks, g);
    WalkSucceeds(v, seen, g);
    LimitIff(v.w, v.chain, seen, g);
    WalkIsFetchable(v, seen, RestoreWalk(v.w, v.chain, seen, g).value);
    if ShortWalk(v.w, v.chain, g) { RestoredIsFold(c, blocks, v.w, v.store, v.state, v.chain, g); }
  }

  /** The head can be restored exactly as long as its restore is short, and holds every delta that was published. */
  lemma HeadIsRestorable(c: Contents, blocks: nat, nodes: seq<Node>, actions: seq<Action>, i: nat)
    requires IsRun(c, blocks, nodes, actions) && i < |nodes|
    ensures var v := nodes[i].v;
            && Good(v) && Built(c, Published(v.w, v.chain), blocks)
            && RestoredAt(c, blocks, v, |v.chain|) ==
               if ShortWalk(v.w, v.chain, |v.chain|) then Some(Fold(c, Published(v.w, v.chain), blocks)) else None
  {
    RunKeeps(c, blocks, nodes, actions, i);
    var v := nodes[i].v;
    HeadStaysAbove(v);
    RestorableHere(c, blocks, v, |v.chain|);
    assert Published(v.w, v.chain)[..|v.chain|] == Published(v.w, v.chain);
  }

  lemma HeadStaysAbove(v: Volume)
    requires Inv(v) && FloorOk(v)
    ensures StaysAbove(v, |v.chain|)
  {
    if v.floor > 0 {
      var k :| v.floor <= k < |v.chain| && v.w.manifests[v.chain[k]].kind.Checkpoint?;
    }
  }

  lemma StepImages(c: Contents, blocks: nat, v: Volume, step: Step, v': Volume, g: nat)
    requires Good(v) && Enabled(v, step) && v' == Apply(v, step) && Good(v')
    requires g <= |v.chain| && RestoredAt(c, blocks, v, g).Some?
    ensures g <= |v'.chain| && RestoredAt(c, blocks, v', g) == RestoredAt(c, blocks, v, g)
  {
    StepCarries(v, step);
    ImagesCarryOver(c, blocks, v, v', g);
  }

  lemma CollectImages(c: Contents, blocks: nat, n: Node, a: Action, v': Volume, g: nat)
    requires Good(n.v) && a.Collect? && Possible(c, blocks, n, a) && v' == Next(c, blocks, n, a).v && Good(v')
    requires a.lo < g <= |n.v.chain| && RestoredAt(c, blocks, n.v, g).Some?
    ensures g <= |v'.chain| && RestoredAt(c, blocks, v', g) == RestoredAt(c, blocks, n.v, g)
  {
    var v := n.v;
    UnneededMayGo(v.w, v.chain, v.state, v.store, a.cutoff, a.lo, a.gone);
    CollectPreservesImages(c, blocks, v.w, v.chain, v.state, v.store, a.gone, a.lo, g);
  }

  /** One action leaves the image of every generation it does not drop. */
  lemma ActionImages(c: Contents, blocks: nat, n: Node, a: Action, v': Volume, g: nat)
    requires Good(n.v) && Possible(c, blocks, n, a) && v' == Next(c, blocks, n, a).v && Good(v')
    requires g <= |n.v.chain| && (a.Collect? ==> a.lo < g) && RestoredAt(c, blocks, n.v, g).Some?
    ensures g <= |v'.chain| && RestoredAt(c, blocks, v', g) == RestoredAt(c, blocks, n.v, g)
  {
    match a
    case Take(step, refs) =>
      TakenVolume(n, step, refs);
      StepImages(c, blocks, n.v, step, v', g);
    case Prepare(_) =>
    case Seed =>
    case Collect(_, _, _) => CollectImages(c, blocks, n, a, v', g);
  }

  lemma TakenVolume(n: Node, step: Step, refs: seq<ObjectRef>)
    requires Inv(n.v) && Enabled(n.v, step)
    ensures Taken(n, step, refs).v == Apply(n.v, step)
  {
  }

  lemma RunStep(c: Contents, blocks: nat, nodes: seq<Node>, actions: seq<Action>, k: nat, g: nat)
    requires IsRun(c, blocks, nodes, actions) && k < |actions| && (actions[k].Collect? ==> actions[k].lo < g)
    requires Good(nodes[k].v) && g <= |nodes[k].v.chain| && RestoredAt(c, blocks, nodes[k].v, g).Some?
    ensures Good(nodes[k + 1].v) && g <= |nodes[k + 1].v.chain|
    ensures RestoredAt(c, blocks, nodes[k + 1].v, g) == RestoredAt(c, blocks, nodes[k].v, g)
  {
    RunKeeps(c, blocks, nodes, actions, k);
    RunKeeps(c, blocks, nodes, actions, k + 1);
    assert IsStep(c, blocks, nodes[k], actions[k], nodes[k + 1]);
    ActionImages(c, blocks, nodes[k], actions[k], nodes[k + 1].v, g);
  }

  /**
   Over any run, a generation that can be restored keeps its image as long as
   no collection drops it, however bodies move and whatever else is deleted.
   */
  lemma {:induction false} ImagesAreStable(
    c: Contents, blocks: nat, nodes: seq<Node>, actions: seq<Action>, i: nat, j: nat, g: nat)
    requires IsRun(c, blocks, nodes, actions) && i <= j < |nodes| && Good(nodes[i].v)
    requires g <= |nodes[i].v.chain| && RestoredAt(c, blocks, nodes[i].v, g).Some?
    requires forall k :: i <= k < j && actions[k].Collect? ==> actions[k].lo < g
    ensures Good(nodes[j].v) && g <= |nodes[j].v.chain|
    ensures RestoredAt(c, blocks, nodes[j].v, g) == RestoredAt(c, blocks, nodes[i].v, g)
    decreases j - i
  {
    if i < j {
      ImagesAreStable(c, blocks, nodes, actions, i, j - 1, g);
      RunStep(c, blocks, nodes, actions, j - 1, g);
    }
  }
}
