/**
 What one step of publishing, packing or renewing leaves as it was
 (internal/replica/remote.go): every manifest that could be read and every
 segment that could be fetched still can be, so a generation that could be
 restored restores to the same image.
 */
module VolumeSteps {
  import opened Options
  import opened Extents
  import opened RestorePlans
  import opened Restores
  import opened ManifestStore
  import opened GarbageCollection

  /** `validateManifest` holds of every body that is published. */
  ghost predicate SegmentsOk(w: World) {
    forall k :: k in w.manifests ==> ValidRefs(w.manifests[k].segments)
  }

  ghost predicate Good(v: Volume) { Inv(v) && SegmentsOk(v.w) }

  /** Installing a bundle that is not in the store hides its newest manifest. */
  lemma MissingBundle(w: World, chain: seq<Key>, store: set<Object>, state: State, p: Prepared)
    requires WorldOk(w, chain) && PreparedOk(w, state, p) && BundleObject(p.ref.key) !in store
    ensures 0 < p.ref.last <= |chain|
    ensures ReadManifest(w, store, Install(state, p), chain[p.ref.last - 1], p.ref.last).NotFound?
  {
    assert ContentOk(w, chain, w.bundles[p.ref.key]);
    assert chain[p.ref.last - 1] !in Install(state, p).inline;
  }

  lemma NamedSegments(v: Volume, step: Step)
    requires Inv(v) && SegmentsOk(v.w) && step.BeginPublish? && ValidRefs(step.manifest.segments)
    ensures SegmentsOk(NamedWorld(v, step))
  {
    var w := NamedWorld(v, step);
    forall k | k in w.manifests ensures ValidRefs(w.manifests[k].segments) {
      assert w.manifests[k] == step.manifest || (k in v.w.manifests && w.manifests[k] == v.w.manifests[k]);
    }
  }

  lemma NamesSegments(v: Volume, step: Step)
    requires Inv(v) && SegmentsOk(v.w) && Enabled(v, step) && (step.BeginPublish? ==> ValidRefs(step.manifest.segments))
    ensures SegmentsOk(Apply(v, step).w)
  {
    if step.BeginPublish? { NamedSegments(v, step); }
  }

  // ----- What carries over from one state to the next -----

  /** Everything that could be read or fetched still can be. */
  ghost predicate CarriesOver(v: Volume, v': Volume)
    requires Inv(v) && Inv(v')
  {
    && |v.chain| <= |v'.chain| && (forall i :: 0 <= i < |v.chain| ==> v'.chain[i] == v.chain[i])
    && Extends(v.w, v'.w)
    && (forall i :: 0 <= i < |v.chain| && Reads(v.w, v.store, v.state, v.chain)[i].Found? ==>
          Reads(v'.w, v'.store, v'.state, v'.chain)[i].Found?)
    && (forall ref :: Fetchable(v.w, v.store, v.state, ref) ==> Fetchable(v'.w, v'.store, v'.state, ref))
  }

  ghost predicate SameButBundles(es: seq<Entry>, fs: seq<Entry>) {
    |es| == |fs| && forall n :: 0 <= n < |es| ==> fs[n].(bundle := es[n].bundle) == es[n]
  }

  lemma {:induction false} NewestIgnoresBundles(es: seq<Entry>, fs: seq<Entry>, b: nat)
    requires SameButBundles(es, fs) && forall n :: 0 <= n < |es| ==> ValidRefs(es[n].segments)
    ensures Newest(es, b) == Newest(fs, b)
  {
    if es != [] {
      CarriedIsIrrelevant(es[0], None, b);
      CarriedIsIrrelevant(fs[0], None, b);
      assert es[0].(bundle := None) == fs[0].(bundle := None);
      NewestIgnoresBundles(es[1..], fs[1..], b);
    }
  }

  lemma NeededIgnoresBundles(es: seq<Entry>, fs: seq<Entry>, n: nat, i: nat)
    requires SameButBundles(es, fs) && n < |es| && i < |es[n].segments| && Needed(fs, n, i)
    ensures Needed(es, n, i)
  {
    var b: nat :| Covers(fs[n].segments[i].extents, b) && !Covers(fs[n].segments[i].zeroExtents, b) &&
        !TouchedBy(fs[..n], b);
    TouchedIgnoresBundles(es[..n], fs[..n], b);
  }

  lemma TouchedIgnoresBundles(es: seq<Entry>, fs: seq<Entry>, b: nat)
    requires SameButBundles(es, fs)
    ensures TouchedBy(es, b) ==> TouchedBy(fs, b)
  {
    if TouchedBy(es, b) {
      var m :| 0 <= m < |es| && Touches(es[m].segments, b);
      assert Touches(fs[m].segments, b);
    }
  }

  lemma {:induction false} RestoreWalkCarries(
    w: World, chain: seq<Key>, seen: seq<Read>, w': World, chain': seq<Key>, seen': seq<Read>, g: nat)
    requires ChainOk(w, chain) && ChainOk(w', chain') && Extends(w, w')
    requires g <= |chain| == |seen| && |chain| <= |chain'| == |seen'|
    requires forall i :: 0 <= i < |chain| ==> chain'[i] == chain[i] && (seen[i].Found? ==> seen'[i].Found?)
    requires RestoreWalk(w, chain, seen, g).Some?
    ensures RestoreWalk(w', chain', seen', g).Some?
    ensures SameButBundles(RestoreWalk(w, chain, seen, g).value, RestoreWalk(w', chain', seen', g).value)
    ensures SegmentsOk(w) ==> forall n :: 0 <= n < |RestoreWalk(w, chain, seen, g).value| ==>
              ValidRefs(RestoreWalk(w, chain, seen, g).value[n].segments)
  {
    if g > 0 && w.manifests[chain[g - 1]].kind.Delta? {
      RestoreWalkCarries(w, chain, seen, w', chain', seen', g - 1);
    }
  }

  /** What a restore needs can be fetched afterwards, and means the same. */
  lemma EntriesCarry(contents: Contents, blocks: nat, v: Volume, v': Volume, es: seq<Entry>, fs: seq<Entry>)
    requires Inv(v) && Inv(v') && CarriesOver(v, v') && SameButBundles(es, fs)
    requires forall n :: 0 <= n < |es| ==> ValidRefs(es[n].segments)
    requires AllFetchable(v.w, v.store, v.state, es)
    ensures AllFetchable(v'.w, v'.store, v'.state, fs) && Deltas(fs) == Deltas(es)
    ensures ImageOf(contents, fs, blocks) == ImageOf(contents, es, blocks)
  {
    forall n, i | 0 <= n < |fs| && 0 <= i < |fs[n].segments| && Needed(fs, n, i)
      ensures Fetchable(v'.w, v'.store, v'.state, fs[n].segments[i])
    {
      NeededIgnoresBundles(es, fs, n, i);
      assert Fetchable(v.w, v.store, v.state, es[n].segments[i]);
    }
    forall b | 0 <= b < blocks ensures Newest(fs, b) == Newest(es, b) {
      NewestIgnoresBundles(es, fs, b);
    }
  }

  /** A restore that finds its manifests finds them afterwards, possibly in another place. */
  lemma WalkCarriesOver(v: Volume, v': Volume, g: nat)
    requires Good(v) && Inv(v') && CarriesOver(v, v') && g <= |v.chain|
    requires RestoreWalk(v.w, v.chain, Reads(v.w, v.store, v.state, v.chain), g).Some?
    ensures RestoreWalk(v'.w, v'.chain, Reads(v'.w, v'.store, v'.state, v'.chain), g).Some?
    ensures var es := RestoreWalk(v.w, v.chain, Reads(v.w, v.store, v.state, v.chain), g).value;
            && SameButBundles(es, RestoreWalk(v'.w, v'.chain, Reads(v'.w, v'.store, v'.state, v'.chain), g).value)
            && forall n :: 0 <= n < |es| ==> ValidRefs(es[n].segments)
  {
    var seen, seen' := Reads(v.w, v.store, v.state, v.chain), Reads(v'.w, v'.store, v'.state, v'.chain);
    RestoreWalkCarries(v.w, v.chain, seen, v'.w, v'.chain, seen', g);
  }

  lemma WalkRestores(contents: Contents, blocks: nat, v: Volume, g: nat, es: seq<Entry>)
    requires Inv(v) && g <= |v.chain|
    requires RestoreWalk(v.w, v.chain, Reads(v.w, v.store, v.state, v.chain), g) == Some(es)
    ensures Restored(contents, blocks, v.w, v.store, v.state, v.chain, g) ==
            if Deltas(es) <= RESTORE_LIMIT && AllFetchable(v.w, v.store, v.state, es)
            then Some(ImageOf(contents, es, blocks)) else None
  {
  }

  lemma ImagesCarryOver(contents: Contents, blocks: nat, v: Volume, v': Volume, g: nat)
    requires Good(v) && Inv(v') && CarriesOver(v, v') && g <= |v.chain|
    requires Restored(contents, blocks, v.w, v.store, v.state, v.chain, g).Some?
    ensures Restored(contents, blocks, v'.w, v'.store, v'.state, v'.chain, g) ==
            Restored(contents, blocks, v.w, v.store, v.state, v.chain, g)
  {
    WalkCarriesOver(v, v', g);
    var es := RestoreWalk(v.w, v.chain, Reads(v.w, v.store, v.state, v.chain), g).value;
    var fs := RestoreWalk(v'.w, v'.chain, Reads(v'.w, v'.store, v'.state, v'.chain), g).value;
    WalkRestores(contents, blocks, v, g, es);
    WalkRestores(contents, blocks, v', g, fs);
    EntriesCarry(contents, blocks, v, v', es, fs);
  }

  // ----- Fetching a segment across each kind of change -----

  lemma {:induction false} SearchExtends(w: World, w': World, store: set<Object>, ref: Option<BundleRef>, manifest: Key)
    requires BundlesOk(w) && BundlesOk(w') && Extends(w, w') && (ref.Some? ==> RefOk(w, ref.value))
    ensures ref.Some? ==> RefOk(w', ref.value)
    ensures Search(w', store, ref, manifest) == Search(w, store, ref, manifest)
    decreases if ref.Some? then ref.value.last + 1 else 0
  {
    if ref.Some? {
      assert BundleOk(w, w.bundles[ref.value.key]);
      SearchExtends(w, w', store, w.bundles[ref.value.key].parent, manifest);
    }
  }

  lemma FetchExtends(w: World, w': World, store: set<Object>, state: State, ref: ObjectRef)
    requires BundlesOk(w) && BundlesOk(w') && Extends(w, w') && (state.bundle.Some? ==> RefOk(w, state.bundle.value))
    requires Fetchable(w, store, state, ref)
    ensures state.bundle.Some? ==> RefOk(w', state.bundle.value)
    ensures Fetchable(w', store, state, ref)
  {
    if ref.storage.FromManifest? {
      SearchExtends(w, w', store, state.bundle, ref.storage.manifest);
    }
  }

  lemma {:induction false} SearchMonotone(
    w: World, store: set<Object>, more: set<Object>, ref: Option<BundleRef>, manifest: Key)
    requires BundlesOk(w) && (ref.Some? ==> RefOk(w, ref.value)) && store <= more
    ensures Search(w, store, ref, manifest).Hit? ==> Search(w, more, ref, manifest).Hit?
    decreases if ref.Some? then ref.value.last + 1 else 0
  {
    if ref.Some? {
      assert BundleOk(w, w.bundles[ref.value.key]);
      SearchMonotone(w, store, more, w.bundles[ref.value.key].parent, manifest);
    }
  }

  lemma FetchMonotone(w: World, store: set<Object>, more: set<Object>, state: State, ref: ObjectRef)
    requires BundlesOk(w) && (state.bundle.Some? ==> RefOk(w, state.bundle.value)) && store <= more
    requires Fetchable(w, store, state, ref)
    ensures Fetchable(w, more, state, ref)
  {
    if ref.storage.FromManifest? {
      SearchMonotone(w, store, more, state.bundle, ref.storage.manifest);
    }
  }

  /** A body that moves from the inline area into a bundle is found by searching the chain. */
  lemma FetchInstall(w: World, store: set<Object>, state: State, p: Prepared, ref: ObjectRef)
    requires BundlesOk(w) && RefOk(w, p.ref) && (state.bundle.Some? ==> RefOk(w, state.bundle.value))
    requires w.bundles[p.ref.key].parent == state.bundle && BundleObject(p.ref.key) in store
    requires forall k :: k in p.keys <==> k in w.bundles[p.ref.key].entries
    requires Fetchable(w, store, state, ref)
    ensures Fetchable(w, store, Install(state, p), ref)
  {
  }

  lemma FetchAdvanced(w: World, store: set<Object>, base: State, key: Key, embed: bool, ref: ObjectRef)
    requires BundlesOk(w) && (base.bundle.Some? ==> RefOk(w, base.bundle.value))
    requires Fetchable(w, store, base, ref)
    ensures Fetchable(w, store, Advanced(base, key, embed), ref)
  {
  }

  // ----- Every step carries readings and segments over -----

  lemma StoreCarries(v: Volume, v': Volume)
    requires Inv(v) && Inv(v') && v'.w == v.w && v'.state == v.state && v'.chain == v.chain && v.store <= v'.store
    ensures CarriesOver(v, v')
  {
    forall i | 0 <= i < |v.chain| && Reads(v.w, v.store, v.state, v.chain)[i].Found?
      ensures Reads(v'.w, v'.store, v'.state, v'.chain)[i].Found?
    {
      ReadMonotone(v.w, v.store, v'.store, v.state, v.chain[i], i + 1);
    }
    forall ref | Fetchable(v.w, v.store, v.state, ref) ensures Fetchable(v'.w, v'.store, v'.state, ref) {
      FetchMonotone(v.w, v.store, v'.store, v.state, ref);
    }
  }

  lemma NamesCarry(v: Volume, v': Volume)
    requires Inv(v) && Inv(v') && Extends(v.w, v'.w) && v'.state == v.state && v'.chain == v.chain
    requires v.store == v'.store
    ensures CarriesOver(v, v')
  {
    forall i | 0 <= i < |v.chain| && Reads(v.w, v.store, v.state, v.chain)[i].Found?
      ensures Reads(v'.w, v'.store, v'.state, v'.chain)[i].Found?
    {
      WalkExtends(v.w, v'.w, v.store, v.state.bundle, v.chain[i], i + 1);
    }
    forall ref | Fetchable(v.w, v.store, v.state, ref) ensures Fetchable(v'.w, v'.store, v'.state, ref) {
      FetchExtends(v.w, v'.w, v.store, v.state, ref);
    }
  }

  lemma InstallCarries(v: Volume, v': Volume, p: Prepared)
    requires Inv(v) && Inv(v') && v'.w == v.w && v'.chain == v.chain && v'.store == v.store
    requires PreparedOk(v.w, v.state, p) && Applies(v.w, v.state, p) && BundleObject(p.ref.key) in v.store
    requires v'.state == Install(v.state, p)
    ensures CarriesOver(v, v')
  {
    AppliesOnTop(v.w, v.chain, v.state, p);
    forall i | 0 <= i < |v.chain| && Reads(v.w, v.store, v.state, v.chain)[i].Found?
      ensures Reads(v'.w, v'.store, v'.state, v'.chain)[i].Found?
    {
      InstallReads(v.w, v.chain, v.state, v.store, p, i);
    }
    forall ref | Fetchable(v.w, v.store, v.state, ref) ensures Fetchable(v'.w, v'.store, v'.state, ref) {
      FetchInstall(v.w, v.store, v.state, p, ref);
    }
  }

  lemma CommitReads(v: Volume, i: nat)
    requires Inv(v) && Enabled(v, Commit) && i < |v.chain|
    requires ReadManifest(v.w, v.store, v.state, v.chain[i], i + 1).Found?
    ensures var state := CommitState(v.state, v.op.value);
            && (state.bundle.Some? ==> RefOk(v.w, state.bundle.value))
            && ReadManifest(v.w, v.store, state, v.chain[i], i + 1).Found?
  {
    var bundle := v.op.value.placement.bundle;
    if bundle.Some? {
      InstallReads(v.w, v.chain, v.state, v.store, bundle.value, i);
    }
  }

  lemma CommitFetches(v: Volume, ref: ObjectRef)
    requires Inv(v) && Enabled(v, Commit) && Fetchable(v.w, v.store, v.state, ref)
    ensures var state := CommitState(v.state, v.op.value);
            && (state.bundle.Some? ==> RefOk(v.w, state.bundle.value))
            && Fetchable(v.w, v.store, state, ref)
  {
    var op := v.op.value;
    if op.placement.bundle.Some? {
      AppliesOnTop(v.w, v.chain, v.state, op.placement.bundle.value);
      FetchInstall(v.w, v.store, v.state, op.placement.bundle.value, ref);
    }
    FetchAdvanced(v.w, v.store, CommitBase(v.state, op.placement.bundle), op.key, op.placement.embed, ref);
  }

  lemma CommitCarries(v: Volume, v': Volume)
    requires Inv(v) && Inv(v') && Enabled(v, Commit) && v'.w == v.w && v'.store == v.store
    requires v'.state == CommitState(v.state, v.op.value) && v'.chain == v.chain + [v.op.value.key]
    ensures CarriesOver(v, v')
  {
    forall i | 0 <= i < |v.chain| && Reads(v.w, v.store, v.state, v.chain)[i].Found?
      ensures Reads(v'.w, v'.store, v'.state, v'.chain)[i].Found?
    {
      CommitReads(v, i);
      assert v'.chain[i] == v.chain[i];
    }
    forall ref | Fetchable(v.w, v.store, v.state, ref) ensures Fetchable(v'.w, v'.store, v'.state, ref) {
      CommitFetches(v, ref);
    }
  }

  lemma UpdateCarries(v: Volume)
    requires Inv(v) && Inv(Apply(v, Update))
    ensures CarriesOver(v, Apply(v, Update))
  {
    var ready := UsableReady(v);
    if ready.Some? { InstallCarries(v, Apply(v, Update), ready.value); } else { StoreCarries(v, Apply(v, Update)); }
  }

  lemma BeginCarries(v: Volume, step: Step)
    requires Inv(v) && step.BeginPublish? && Nameable(v, step) && Inv(BeginPublished(v, step))
    ensures CarriesOver(v, BeginPublished(v, step))
  {
    NamedWorldOk(v, step);
    NamesCarry(v, BeginPublished(v, step));
  }

  /** The steps that leave the head and the names alone. */
  lemma QuietCarries(v: Volume, step: Step)
    requires step.ArchiveStored? || step.ArchiveDone? || step.Upload? || step.Fail? || step.TakeOver?
    requires Inv(v) && Enabled(v, step) && Inv(Apply(v, step))
    ensures CarriesOver(v, Apply(v, step))
  {
    StoreCarries(v, Apply(v, step));
  }

  lemma StepCarries(v: Volume, step: Step)
    requires Inv(v) && Enabled(v, step) && Inv(Apply(v, step))
    ensures CarriesOver(v, Apply(v, step))
  {
    match step
    case StartArchive(key) => NamesCarry(v, Apply(v, step));
    case Update => UpdateCarries(v);
    case BeginPublish(_, _, _) => BeginCarries(v, step);
    case Commit => CommitCarries(v, Apply(v, step));
    case _ => QuietCarries(v, step);
  }

  /** The newest bundle of the head only ever moves to newer generations. */
  lemma StepAdvancesBundle(v: Volume, step: Step)
    requires Inv(v) && Enabled(v, step)
    ensures HeadLast(v.state) <= HeadLast(Apply(v, step).state)
  {
    match step
    case Update =>
      if UsableReady(v).Some? { AppliesOnTop(v.w, v.chain, v.state, v.ready.value); }
    case Commit =>
      var bundle := v.op.value.placement.bundle;
      if bundle.Some? { AppliesOnTop(v.w, v.chain, v.state, bundle.value); }
    case _ =>
  }

  // ----- Restored images are folds of deltas -----

  /** The published manifests in order, wherever their bodies are. */
  ghost function Published(w: World, chain: seq<Key>): seq<Entry>
    requires ChainOk(w, chain)
  {
    seq(|chain|, i requires 0 <= i < |chain| => EntryOf(w, chain[i], None))
  }

  lemma {:induction false} WalkIsRestoreChain(w: World, chain: seq<Key>, seen: seq<Read>, g: nat)
    requires ChainOk(w, chain) && g <= |chain| == |seen| && RestoreWalk(w, chain, seen, g).Some?
    ensures SameButBundles(RestoreChain(Published(w, chain)[..g]), RestoreWalk(w, chain, seen, g).value)
  {
    if g > 0 {
      var history := Published(w, chain)[..g];
      assert history[g - 1] == EntryOf(w, chain[g - 1], None);
      assert history[..g - 1] == Published(w, chain)[..g - 1];
      if w.manifests[chain[g - 1]].kind.Delta? {
        WalkIsRestoreChain(w, chain, seen, g - 1);
      }
    }
  }

  /** Wherever the bodies lie, a restore that succeeds yields the fold of the deltas up to its generation. */
  lemma RestoredIsFold(
    contents: Contents, blocks: nat, w: World, store: set<Object>, state: State, chain: seq<Key>, g: nat)
    requires Placed(w, chain, state) && g <= |chain| && Built(contents, Published(w, chain), blocks)
    requires Restored(contents, blocks, w, store, state, chain, g).Some?
    ensures Built(contents, Published(w, chain)[..g], blocks)
    ensures Restored(contents, blocks, w, store, state, chain, g).value ==
            Fold(contents, Published(w, chain)[..g], blocks)
  {
    var history, seen := Published(w, chain)[..g], Reads(w, store, state, chain);
    BuiltPrefix(contents, Published(w, chain), blocks, g);
    ChainIsValid(contents, history, blocks);
    WalkIsRestoreChain(w, chain, seen, g);
    var es := RestoreWalk(w, chain, seen, g).value;
    forall b | 0 <= b < blocks ensures ImageOf(contents, es, blocks)[b] == Fold(contents, history, blocks)[b] {
      NewestIgnoresBundles(RestoreChain(history), es, b);
      RestoreMeansFold(contents, history, blocks, b);
    }
  }
}
