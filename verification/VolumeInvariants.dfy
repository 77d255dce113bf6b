/**
 What holds of a volume in every reachable state beyond where its manifests are
 (internal/replica/remote.go): the history is what publishing builds, every
 segment the retained manifests name can be fetched, and the locations they
 record are bundles of the head.
 */
module VolumeInvariants {
  import opened Options
  import opened Extents
  import opened RestorePlans
  import opened Restores
  import opened ManifestStore
  import opened GarbageCollection
  import opened VolumeSteps

  /**
   A delta as `Publish` makes it: valid disjoint segments with their content, each an object or
   inside the manifest.
   */
  ghost predicate DeltaOk(c: Contents, blocks: nat, m: Manifest) {
    && ValidRefs(m.segments) && Truthful(c, m.segments, blocks)
    && (forall j :: 0 <= j < |m.segments| ==> !m.segments[j].storage.FromManifest?)
  }

  /** Every segment the retained manifests name can be fetched. */
  ghost predicate Stocked(v: Volume)
    requires Inv(v)
  {
    forall i, j :: v.floor <= i < |v.chain| && 0 <= j < |v.w.manifests[v.chain[i]].segments| ==>
      Fetchable(v.w, v.store, v.state, v.w.manifests[v.chain[i]].segments[j])
  }

  /** A reference to another manifest carries no copy, and a location it records is a bundle no newer than `last`. */
  ghost predicate HintBelow(w: World, ref: ObjectRef, last: nat) {
    ref.storage.FromManifest? ==>
      && !ref.storage.carried
      && (ref.storage.bundle.Some? ==>
            ref.storage.bundle.value in w.bundles && w.bundles[ref.storage.bundle.value].last <= last)
  }

  ghost predicate HintsOk(v: Volume)
    requires Inv(v)
  {
    forall i, j :: 0 <= i < |v.chain| && 0 <= j < |v.w.manifests[v.chain[i]].segments| ==>
      HintBelow(v.w, v.w.manifests[v.chain[i]].segments[j], HeadLast(v.state))
  }

  ghost predicate FloorOk(v: Volume)
    requires Inv(v)
  {
    v.floor == 0 || CheckpointFrom(v.w, v.chain, v.floor)
  }

  /** The reference names the bundle that its own commit installs. */
  ghost predicate ByBundle(bundle: Option<Prepared>, ref: ObjectRef) {
    && bundle.Some? && ref.storage.FromManifest? && !ref.storage.carried
    && ref.storage.bundle == Some(bundle.value.ref.key) && ref.storage.manifest in bundle.value.keys
  }

  /** A segment of the manifest being published can be had once the uploads are done. */
  ghost predicate Supplied(v: Volume, op: Publishing, ref: ObjectRef)
    requires Inv(v)
  {
    || Fetchable(v.w, v.store, v.state, ref)
    || ByBundle(op.placement.bundle, ref)
    || (!op.uploaded && op.key in v.w.manifests && v.w.manifests[op.key].kind.Delta? && ref.storage.External?)
  }

  ghost predicate OpSound(c: Contents, blocks: nat, v: Volume)
    requires Inv(v)
  {
    v.op.Some? ==>
      var op := v.op.value;
      var m := v.w.manifests[op.key];
      && (m.kind.Delta? ==> DeltaOk(c, blocks, m))
      && (m.kind.Checkpoint? ==> IsPlanFor(m.segments, RestoreChain(Published(v.w, v.chain))))
      && (forall j :: 0 <= j < |m.segments| ==> Supplied(v, op, m.segments[j]))
      && (forall j :: 0 <= j < |m.segments| ==>
            ByBundle(op.placement.bundle, m.segments[j]) || HintBelow(v.w, m.segments[j], HeadLast(v.state)))
  }

  ghost predicate Sound(c: Contents, blocks: nat, v: Volume) {
    && Good(v) && Built(c, Published(v.w, v.chain), blocks)
    && Stocked(v) && HintsOk(v) && FloorOk(v) && OpSound(c, blocks, v)
  }

  /** Position `i` belongs to the restore of the head. */
  ghost predicate InRestore(w: World, chain: seq<Key>, i: nat)
    requires ChainOk(w, chain)
  {
    i < |chain| && forall x :: i < x < |chain| ==> w.manifests[chain[x]].kind.Delta?
  }

  lemma RestoreIsAboveFloor(v: Volume, i: nat)
    requires Inv(v) && FloorOk(v) && InRestore(v.w, v.chain, i)
    ensures v.floor <= i
  {
  }

  // ----- Steps that leave the chain alone -----

  lemma PublishedExtends(w: World, w': World, chain: seq<Key>)
    requires ChainOk(w, chain) && ChainOk(w', chain) && Extends(w, w')
    ensures Published(w', chain) == Published(w, chain)
  {
  }

  lemma QuietKeeps(c: Contents, blocks: nat, v: Volume, v': Volume)
    requires Sound(c, blocks, v) && Good(v') && CarriesOver(v, v') && v'.chain == v.chain && v'.floor == v.floor
    requires HeadLast(v.state) <= HeadLast(v'.state)
    ensures Built(c, Published(v'.w, v'.chain), blocks) && Stocked(v') && HintsOk(v') && FloorOk(v')
  {
    PublishedExtends(v.w, v'.w, v.chain);
    forall i, j | v'.floor <= i < |v'.chain| && 0 <= j < |v'.w.manifests[v'.chain[i]].segments|
      ensures Fetchable(v'.w, v'.store, v'.state, v'.w.manifests[v'.chain[i]].segments[j])
    {
      assert Fetchable(v.w, v.store, v.state, v.w.manifests[v.chain[i]].segments[j]);
    }
    forall i, j | 0 <= i < |v'.chain| && 0 <= j < |v'.w.manifests[v'.chain[i]].segments|
      ensures HintBelow(v'.w, v'.w.manifests[v'.chain[i]].segments[j], HeadLast(v'.state))
    {
      assert HintBelow(v.w, v.w.manifests[v.chain[i]].segments[j], HeadLast(v.state));
    }
  }

  /** A publication under way stays sound while bundles move and uploads finish. */
  lemma OpCarries(c: Contents, blocks: nat, v: Volume, v': Volume)
    requires Sound(c, blocks, v) && Inv(v') && CarriesOver(v, v') && v'.chain == v.chain
    requires HeadLast(v.state) <= HeadLast(v'.state) && v.op.Some? && v'.op.Some?
    requires v'.op.value.key == v.op.value.key && v'.op.value.placement == v.op.value.placement
    requires v'.op.value.uploaded ==> v.op.value.uploaded || Uploads(v.w.manifests[v.op.value.key]) <= v'.store
    ensures OpSound(c, blocks, v')
  {
    PublishedExtends(v.w, v'.w, v.chain);
    var op, op' := v.op.value, v'.op.value;
    var m := v.w.manifests[op.key];
    forall j | 0 <= j < |m.segments|
      ensures Supplied(v', op', m.segments[j])
      ensures ByBundle(op'.placement.bundle, m.segments[j]) || HintBelow(v'.w, m.segments[j], HeadLast(v'.state))
    {
      assert Supplied(v, op, m.segments[j]);
      assert ByBundle(op.placement.bundle, m.segments[j]) || HintBelow(v.w, m.segments[j], HeadLast(v.state));
      if !op.uploaded && m.kind.Delta? && m.segments[j].storage.External? {
        assert SegmentData(m.segments[j].storage.key) in Uploads(m);
      }
    }
  }
}
