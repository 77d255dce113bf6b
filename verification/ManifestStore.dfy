/**
 Where manifest bodies live and how they are found again (internal/replica/remote.go:
 `publishPrepared`, `prepareManifestBundle`, `manifestBundleApplies`,
 `applyManifestBundle`, `startManifestBundleArchive`, `commitManifest`,
 `readManifestWithSourceCache`, `manifestSourceLoader`).

 Every object except the head is immutable and named by the hash of its
 content. A `World` says what each name stands for; a store is the set of names
 that are present. A manifest body is inside the head document, in one bundle
 of a linked chain, or an object of its own.
 */
module ManifestStore {
  import opened Options
  import opened Extents
  import opened RestorePlans

  const INLINE_MANIFEST_LIMIT: nat := 65536
  const INLINE_STATE_LIMIT: nat := 65536
  const BUNDLE_TARGET: nat := 16384

  datatype Manifest = Manifest(
    generation: nat, kind: Kind, parent: Option<Key>, segments: seq<ObjectRef>, size: nat, createdAt: nat)

  datatype BundleRef = BundleRef(key: Key, first: nat, last: nat)

  datatype Bundle = Bundle(first: nat, last: nat, parent: Option<BundleRef>, entries: seq<Key>)

  datatype World = World(manifests: map<Key, Manifest>, bundles: map<Key, Bundle>)

  /** Object names; the three kinds live under different prefixes. */
  datatype Object = ManifestObject(key: Key) | BundleObject(key: Key) | SegmentData(key: Key)

  /** The part of the head document that locates manifests; the inline area is kept in generation order. */
  datatype State = State(generation: nat, manifest: Option<Key>, inline: seq<Key>, bundle: Option<BundleRef>)

  /** A reference is the one a bundle's content determines, and parents hold strictly older generations. */
  ghost predicate RefOk(w: World, ref: BundleRef) {
    && ref.key in w.bundles
    && w.bundles[ref.key].first == ref.first && w.bundles[ref.key].last == ref.last
  }

  ghost predicate BundleOk(w: World, b: Bundle) {
    && 0 < b.first <= b.last
    && (b.parent.Some? ==> RefOk(w, b.parent.value) && b.parent.value.last < b.first)
  }

  ghost predicate BundlesOk(w: World) {
    forall k {:trigger BundleOk(w, w.bundles[k])} :: k in w.bundles ==> BundleOk(w, w.bundles[k])
  }

  // ----- Reading a manifest -----

  datatype Walked = InBundle(bundle: Key) | NotBundled | Missing

  /** The bundle walk of `readManifestWithSourceCache` for a manifest of a known generation. */
  function Walk(w: World, store: set<Object>, ref: Option<BundleRef>, key: Key, generation: nat): Walked
    requires BundlesOk(w) && (ref.Some? ==> RefOk(w, ref.value))
    decreases if ref.Some? then ref.value.last + 1 else 0
  {
    if ref.None? || generation > ref.value.last then NotBundled
    else if BundleObject(ref.value.key) !in store then Missing
    else
      var b := w.bundles[ref.value.key];
      assert BundleOk(w, b);
      if generation >= ref.value.first then (if key in b.entries then InBundle(ref.value.key) else NotBundled)
      else Walk(w, store, b.parent, key, generation)
  }

  /** A manifest as it was found, with the bundle it came from. */
  datatype Read = Found(bundle: Option<Key>) | NotFound

  function ReadManifest(w: World, store: set<Object>, state: State, key: Key, generation: nat): Read
    requires BundlesOk(w) && (state.bundle.Some? ==> RefOk(w, state.bundle.value))
  {
    if key in state.inline then Found(None)
    else
      match Walk(w, store, state.bundle, key, generation)
      case InBundle(bundle) => Found(Some(bundle))
      case Missing => NotFound
      case NotBundled => if ManifestObject(key) in store then Found(None) else NotFound
  }

  /** More objects never hide a manifest or change where it is found. */
  lemma {:induction false} WalkMonotone(
    w: World, store: set<Object>, more: set<Object>, ref: Option<BundleRef>, key: Key, generation: nat)
    requires BundlesOk(w) && (ref.Some? ==> RefOk(w, ref.value)) && store <= more
    ensures !Walk(w, store, ref, key, generation).Missing? ==>
              Walk(w, more, ref, key, generation) == Walk(w, store, ref, key, generation)
    decreases if ref.Some? then ref.value.last + 1 else 0
  {
    if ref.Some? && generation <= ref.value.last && generation < ref.value.first {
      assert BundleOk(w, w.bundles[ref.value.key]);
      WalkMonotone(w, store, more, w.bundles[ref.value.key].parent, key, generation);
    }
  }

  lemma ReadMonotone(w: World, store: set<Object>, more: set<Object>, state: State, key: Key, generation: nat)
    requires BundlesOk(w) && (state.bundle.Some? ==> RefOk(w, state.bundle.value)) && store <= more
    ensures ReadManifest(w, store, state, key, generation).Found? ==>
              ReadManifest(w, more, state, key, generation) == ReadManifest(w, store, state, key, generation)
  {
    WalkMonotone(w, store, more, state.bundle, key, generation);
  }

  /** Learning about more names does not change what known references lead to. */
  ghost predicate Extends(w: World, w': World) {
    && (forall k :: k in w.bundles ==> k in w'.bundles && w'.bundles[k] == w.bundles[k])
    && (forall k :: k in w.manifests ==> k in w'.manifests && w'.manifests[k] == w.manifests[k])
  }

  lemma {:induction false} WalkExtends(
    w: World, w': World, store: set<Object>, ref: Option<BundleRef>, key: Key, generation: nat)
    requires BundlesOk(w) && BundlesOk(w') && Extends(w, w') && (ref.Some? ==> RefOk(w, ref.value))
    ensures ref.Some? ==> RefOk(w', ref.value)
    ensures Walk(w', store, ref, key, generation) == Walk(w, store, ref, key, generation)
    decreases if ref.Some? then ref.value.last + 1 else 0
  {
    if ref.Some? && generation <= ref.value.last && generation < ref.value.first {
      assert BundleOk(w, w.bundles[ref.value.key]);
      WalkExtends(w, w', store, w.bundles[ref.value.key].parent, key, generation);
    }
  }

  // ----- The inline area -----

  function Size(w: World, key: Key): nat { if key in w.manifests then w.manifests[key].size else 0 }

  function Bytes(w: World, inline: seq<Key>): nat {
    if inline == [] then 0 else Size(w, inline[0]) + Bytes(w, inline[1..])
  }

  /** What stays inline when the manifests of a bundle move out. */
  function Remaining(inline: seq<Key>, moved: set<Key>): (r: seq<Key>)
    ensures forall k :: k in r <==> k in inline && k !in moved
  {
    if inline == [] then []
    else if inline[0] in moved then Remaining(inline[1..], moved)
    else [inline[0]] + Remaining(inline[1..], moved)
  }

  lemma {:induction false} RemainingBytes(w: World, inline: seq<Key>, a: set<Key>, b: set<Key>)
    ensures Bytes(w, Remaining(Remaining(inline, a), b)) <= Bytes(w, Remaining(inline, b)) <= Bytes(w, inline)
    ensures Remaining(Remaining(inline, a), b) == Remaining(inline, a + b)
  {
    if inline != [] {
      RemainingBytes(w, inline[1..], a, b);
      var rest := Remaining(inline[1..], a);
      assert ([inline[0]] + rest)[1..] == rest;
      var kept := Remaining(inline[1..], b);
      assert ([inline[0]] + kept)[1..] == kept;
      var both := Remaining(rest, b);
      assert ([inline[0]] + both)[1..] == both;
    }
  }

  lemma {:induction false} BytesAppend(w: World, inline: seq<Key>, key: Key)
    ensures Bytes(w, inline + [key]) == Bytes(w, inline) + Size(w, key)
  {
    if inline == [] {
      assert [key][1..] == [] && inline + [key] == [key];
    } else {
      BytesAppend(w, inline[1..], key);
      assert (inline + [key])[1..] == inline[1..] + [key];
    }
  }

  lemma {:induction false} BytesExtends(w: World, w': World, inline: seq<Key>)
    requires Extends(w, w') && forall k :: k in inline ==> k in w.manifests
    ensures Bytes(w', inline) == Bytes(w, inline)
  {
    if inline != [] { BytesExtends(w, w', inline[1..]); }
  }

  // ----- Bundles -----

  /** A bundle that was packed from a snapshot of the inline area, uploaded or not. */
  datatype Prepared = Prepared(ref: BundleRef, keys: set<Key>)

  function Keys(p: Option<Prepared>): set<Key> { if p.Some? then p.value.keys else {} }

  /** `manifestBundleApplies`: packed on top of the current bundle, from manifests that are still inline. */
  predicate Applies(w: World, state: State, p: Prepared)
    requires p.ref.key in w.bundles
  {
    var parent := w.bundles[p.ref.key].parent;
    && (if state.bundle.Some? then parent.Some? && parent.value.key == state.bundle.value.key else parent.None?)
    && (forall k :: k in p.keys ==> k in state.inline)
  }

  /** `applyManifestBundle`: the packed manifests leave the inline area and the bundle becomes the newest. */
  function Install(state: State, p: Prepared): State {
    state.(inline := Remaining(state.inline, p.keys), bundle := Some(p.ref))
  }

  // ----- Where the next manifest goes -----

  datatype Placement = Placement(bundle: Option<Prepared>, embed: bool, archive: bool)

  /**
   The decision of `publishPrepared` up to its last branch. `ready` is a finished
   background bundle that applies to the snapshot, `all` a bundle of the whole
   inline area (none when it is empty), `checkpoint` the archive-current request
   of `PublishCheckpoint`.
   */
  function PlaceWithoutLast(
    w: World, inline: seq<Key>, size: nat, checkpoint: bool, ready: Option<Prepared>, all: Option<Prepared>
  ): Placement {
    var bundle := if checkpoint then all else ready;
    var archive := checkpoint || size > INLINE_MANIFEST_LIMIT;
    var embed := !archive && Bytes(w, Remaining(inline, Keys(bundle))) + size <= INLINE_STATE_LIMIT;
    if !embed && bundle.None? && !archive then
      (if size <= INLINE_MANIFEST_LIMIT then Placement(all, true, archive) else Placement(all, embed, true))
    else Placement(bundle, embed, archive)
  }

  /** The decision: a body that is neither embedded nor archived yet is archived. */
  function Place(
    w: World, inline: seq<Key>, size: nat, checkpoint: bool, ready: Option<Prepared>, all: Option<Prepared>
  ): Placement {
    var p := PlaceWithoutLast(w, inline, size, checkpoint, ready, all);
    if !p.embed && !p.archive then p.(archive := true) else p
  }

  /**
   The placement rule: whatever the inline area, the body and the bundles, the
   body is embedded or archived, and embedding stays within the inline budget.
   */
  lemma PlacementStoresTheBody(
    w: World, inline: seq<Key>, size: nat, checkpoint: bool, ready: Option<Prepared>, all: Option<Prepared>)
    requires Remaining(inline, Keys(all)) == []
    ensures var p := Place(w, inline, size, checkpoint, ready, all);
            && (p.embed || p.archive)
            && (p.embed ==> Bytes(w, Remaining(inline, Keys(p.bundle))) + size <= INLINE_STATE_LIMIT)
            && (p.bundle == None || p.bundle == ready || p.bundle == all)
            && (checkpoint ==> p.archive && !p.embed && p.bundle == all)
  {
  }

  /** A ready bundle, and an inline area that is still too full for the body once the bundle is taken out. */
  predicate StillFull(w: World, inline: seq<Key>, size: nat, checkpoint: bool, ready: Option<Prepared>) {
    !checkpoint && size <= INLINE_MANIFEST_LIMIT && ready.Some? &&
        Bytes(w, Remaining(inline, ready.value.keys)) + size > INLINE_STATE_LIMIT
  }

  /** The last branch makes a difference exactly then, and without it the body is neither embedded nor archived. */
  lemma LastBranchIff(
    w: World, inline: seq<Key>, size: nat, checkpoint: bool, ready: Option<Prepared>, all: Option<Prepared>)
    ensures var p := PlaceWithoutLast(w, inline, size, checkpoint, ready, all);
            var q := Place(w, inline, size, checkpoint, ready, all);
            && (p != q <==> StillFull(w, inline, size, checkpoint, ready))
            && (!p.embed && !p.archive <==> p != q)
            && p.bundle == q.bundle
  {
  }

  // ----- The life of a volume -----

  /** A publication between its snapshot and its commit; `moved` is what renewals packed meanwhile. */
  datatype Publishing = Publishing(snapshot: State, key: Key, placement: Placement, moved: set<Key>, uploaded: bool)

  datatype Volume = Volume(
    w: World, store: set<Object>, state: State, chain: seq<Key>, floor: nat,
    uploading: Option<Prepared>, ready: Option<Prepared>, op: Option<Publishing>)

  /** The manifest the one at position `i` of a chain is published on. */
  function Preceding(chain: seq<Key>, i: nat): Option<Key>
    requires i <= |chain|
  {
    if i == 0 then None else Some(chain[i - 1])
  }

  /** Position `i` of the chain is the manifest of generation `i + 1`, on top of its predecessor. */
  ghost predicate ChainOk(w: World, chain: seq<Key>) {
    && (forall i :: 0 <= i < |chain| ==> chain[i] in w.manifests && w.manifests[chain[i]].generation == i + 1)
    && (forall i {:trigger Preceding(chain, i)} :: 0 <= i < |chain| ==>
          w.manifests[chain[i]].parent == Preceding(chain, i))
  }

  /** A key is one of the committed generations. */
  ghost predicate OnChain(w: World, chain: seq<Key>, key: Key) {
    && key in w.manifests
    && 0 < w.manifests[key].generation <= |chain|
    && chain[w.manifests[key].generation - 1] == key
  }

  function HeadLast(state: State): nat { if state.bundle.Some? then state.bundle.value.last else 0 }

  /** A bundle holds committed manifests of its range, among them the newest of it. */
  ghost predicate ContentOk(w: World, chain: seq<Key>, b: Bundle) {
    && (forall k :: k in b.entries ==> OnChain(w, chain, k) && b.first <= w.manifests[k].generation <= b.last)
    && b.last <= |chain| && 0 < b.last && chain[b.last - 1] in b.entries
  }

  ghost predicate WorldOk(w: World, chain: seq<Key>) {
    && BundlesOk(w) && ChainOk(w, chain)
    && (forall k {:trigger ContentOk(w, chain, w.bundles[k])} :: k in w.bundles ==> ContentOk(w, chain, w.bundles[k]))
  }

  ghost predicate InOrder(w: World, inline: seq<Key>) {
    inline == [] ||
    (&& inline[0] in w.manifests
     && (forall k :: k in inline[1..] ==>
           k in w.manifests && w.manifests[inline[0]].generation < w.manifests[k].generation)
     && InOrder(w, inline[1..]))
  }

  /** What is known of a packed bundle as long as it may still be installed. */
  ghost predicate PreparedOk(w: World, state: State, p: Prepared) {
    && RefOk(w, p.ref)
    && (forall k :: k in p.keys <==> k in w.bundles[p.ref.key].entries)
    && (forall k :: k in state.inline && k !in p.keys ==> k in w.manifests && w.manifests[k].generation > p.ref.last)
  }

  ghost predicate StateOk(w: World, chain: seq<Key>, state: State) {
    && state.generation == |chain|
    && state.manifest == Preceding(chain, |chain|)
    && (state.bundle.Some? ==> RefOk(w, state.bundle.value))
    && (forall k :: k in state.inline ==> OnChain(w, chain, k) && w.manifests[k].generation > HeadLast(state))
    && InOrder(w, state.inline)
    && Bytes(w, state.inline) <= INLINE_STATE_LIMIT
  }

  /** Every generation above the collected ones can be read. */
  ghost predicate Readable(w: World, store: set<Object>, state: State, chain: seq<Key>, floor: nat)
    requires BundlesOk(w) && (state.bundle.Some? ==> RefOk(w, state.bundle.value))
  {
    forall i :: floor <= i < |chain| ==> ReadManifest(w, store, state, chain[i], i + 1).Found?
  }

  ghost predicate OpOk(v: Volume, op: Publishing) {
    && op.key in v.w.manifests && op.key !in v.state.inline
    && (op.placement.embed || op.placement.archive)
    && (op.placement.embed ==>
          Bytes(v.w, Remaining(op.snapshot.inline, Keys(op.placement.bundle))) +
              v.w.manifests[op.key].size <= INLINE_STATE_LIMIT)
    && (forall k :: k in op.snapshot.inline ==> k in v.w.manifests)
    && (op.placement.bundle.Some? ==> PreparedOk(v.w, v.state, op.placement.bundle.value))
    && (op.uploaded && op.placement.archive ==> ManifestObject(op.key) in v.store)
    && (op.uploaded && op.placement.bundle.Some? ==> BundleObject(op.placement.bundle.value.ref.key) in v.store)
    && (op.snapshot.generation == v.state.generation ==>
          && op.snapshot.manifest == v.state.manifest
          && v.state.inline == Remaining(op.snapshot.inline, op.moved)
          && v.w.manifests[op.key].generation == op.snapshot.generation + 1
          && v.w.manifests[op.key].parent == op.snapshot.manifest)
  }

  ghost predicate Inv(v: Volume) {
    && WorldOk(v.w, v.chain) && StateOk(v.w, v.chain, v.state)
    && Readable(v.w, v.store, v.state, v.chain, v.floor)
    && (v.uploading.Some? ==> PreparedOk(v.w, v.state, v.uploading.value))
    && (v.ready.Some? ==> PreparedOk(v.w, v.state, v.ready.value) && BundleObject(v.ready.value.ref.key) in v.store)
    && (v.op.Some? ==> OpOk(v, v.op.value))
  }

  // ----- Steps -----

  /** `prepareManifestBundle`: pack the whole inline area on top of the current bundle. */
  function Pack(w: World, state: State): Bundle
    requires state.inline != [] && forall k :: k in state.inline ==> k in w.manifests
  {
    Bundle(w.manifests[state.inline[0]].generation, w.manifests[state.inline[|state.inline| - 1]].generation,
           state.bundle, state.inline)
  }

  function PackedAs(b: Bundle, key: Key): Prepared {
    Prepared(BundleRef(key, b.first, b.last), set k | k in b.entries)
  }

  /** A name is free, or already stands for this very content. */
  predicate NamesBundle(w: World, key: Key, b: Bundle) { key !in w.bundles || w.bundles[key] == b }

  predicate NamesManifest(w: World, key: Key, m: Manifest) { key !in w.manifests || w.manifests[key] == m }

  datatype Step =
    | StartArchive(bundleKey: Key)
    | ArchiveStored
    | ArchiveDone(ok: bool)
    | Update
    | BeginPublish(key: Key, manifest: Manifest, bundleKey: Key)
    | Upload
    | Commit
    | Fail
    | TakeOver

  /** A manifest to publish on a snapshot of the head. */
  predicate IsNext(state: State, m: Manifest) { m.generation == state.generation + 1 && m.parent == state.manifest }

  /** The ready bundle, if it still fits the head (`readyManifestBundleLocked`). */
  function UsableReady(v: Volume): Option<Prepared>
    requires v.ready.Some? ==> v.ready.value.ref.key in v.w.bundles
  {
    if v.ready.Some? && Applies(v.w, v.state, v.ready.value) then v.ready else None
  }

  /** The names of the next manifest and of a bundle of the inline area are free or already mean just that. */
  ghost predicate Nameable(v: Volume, step: Step)
    requires Inv(v) && step.BeginPublish?
  {
    && IsNext(v.state, step.manifest) && NamesManifest(v.w, step.key, step.manifest)
    && (v.state.inline != [] ==> NamesBundle(v.w, step.bundleKey, Pack(v.w, v.state)))
  }

  /** `publishPrepared` up to its decision: the snapshot is taken and the bodies are named. */
  ghost function BeginPublished(v: Volume, step: Step): Volume
    requires Inv(v) && step.BeginPublish?
  {
    v.(w := NamedWorld(v, step), ready := UsableReady(v),
       op := Some(Publishing(v.state, step.key, PlacementOf(v, step), {}, false)))
  }

  ghost predicate Enabled(v: Volume, step: Step)
    requires Inv(v)
  {
    match step
    case StartArchive(bundleKey) =>
      && v.uploading.None? && v.ready.None? && Bytes(v.w, v.state.inline) >= BUNDLE_TARGET
      && v.state.inline != [] && NamesBundle(v.w, bundleKey, Pack(v.w, v.state))
    case ArchiveStored => v.uploading.Some?
    case ArchiveDone(ok) => v.uploading.Some? && (ok ==> BundleObject(v.uploading.value.ref.key) in v.store)
    case Update => true
    case BeginPublish(_, _, _) =>
      v.op.None? && Nameable(v, step)
    case Upload => v.op.Some?
    case Commit =>
      && v.op.Some? && v.op.value.uploaded
      && v.state.generation == v.op.value.snapshot.generation && v.state.manifest == v.op.value.snapshot.manifest
      && (v.op.value.placement.bundle.Some? ==> Applies(v.w, v.state, v.op.value.placement.bundle.value))
    case Fail => v.op.Some?
    case TakeOver => true
  }

  /** The segment objects of a delta; a checkpoint names segments that are there already. */
  function Uploads(m: Manifest): set<Object> {
    if m.kind.Checkpoint? then {}
    else set i | 0 <= i < |m.segments| && m.segments[i].storage.External? :: SegmentData(m.segments[i].storage.key)
  }

  /** Installing a bundle while a publication is under way. */
  function Moved(op: Option<Publishing>, keys: set<Key>): Option<Publishing> {
    if op.Some? then Some(op.value.(moved := op.value.moved + keys)) else None
  }

  function CommitState(state: State, op: Publishing): State {
    Advanced(CommitBase(state, op.placement.bundle), op.key, op.placement.embed)
  }

  ghost function Apply(v: Volume, step: Step): Volume
    requires Inv(v) && Enabled(v, step)
  {
    match step
    case StartArchive(bundleKey) =>
      var b := Pack(v.w, v.state);
      v.(w := v.w.(bundles := v.w.bundles[bundleKey := b]), uploading := Some(PackedAs(b, bundleKey)))
    case ArchiveStored => v.(store := v.store + {BundleObject(v.uploading.value.ref.key)})
    case ArchiveDone(ok) =>
      var p := v.uploading.value;
      v.(uploading := None, ready := if ok && Applies(v.w, v.state, p) then Some(p) else v.ready)
    case Update =>
      // Renewal or release: a ready bundle that still fits is installed by the same conditional write.
      var ready := UsableReady(v);
      if ready.Some? then
        v.(state := Install(v.state, ready.value), ready := None, op := Moved(v.op, ready.value.keys))
      else v.(ready := None)
    case BeginPublish(_, _, _) =>
      BeginPublished(v, step)
    case Upload =>
      var op := v.op.value;
      v.(store := v.store
           + Uploads(v.w.manifests[op.key])
           + (if op.placement.archive then {ManifestObject(op.key)} else {})
           + (if op.placement.bundle.Some? then {BundleObject(op.placement.bundle.value.ref.key)} else {}),
         op := Some(op.(uploaded := true)))
    case Commit =>
      var op := v.op.value;
      var bundle := op.placement.bundle;
      v.(state := CommitState(v.state, op), chain := v.chain + [op.key], op := None,
         ready := if v.ready.Some? && bundle.Some? && v.ready.value.ref.key == bundle.value.ref.key
                  then None else v.ready)
    case Fail => v.(op := None)
    case TakeOver =>
      // Another lease starts without what the one before it had prepared.
      v.(uploading := None, ready := None, op := None)
  }

  // ----- Each step keeps the invariant -----

  lemma {:induction false} RemainingInOrder(w: World, inline: seq<Key>, moved: set<Key>)
    requires InOrder(w, inline)
    ensures InOrder(w, Remaining(inline, moved))
  {
    if inline != [] {
      RemainingInOrder(w, inline[1..], moved);
      var rest := Remaining(inline[1..], moved);
      assert ([inline[0]] + rest)[1..] == rest;
    }
  }

  lemma {:induction false} InOrderRange(w: World, inline: seq<Key>, k: Key)
    requires InOrder(w, inline) && k in inline
    ensures k in w.manifests && inline[0] in w.manifests && inline[|inline| - 1] in w.manifests
    ensures w.manifests[inline[0]].generation <= w.manifests[k].generation
    ensures w.manifests[k].generation <= w.manifests[inline[|inline| - 1]].generation
  {
    if |inline| > 1 {
      InOrderRange(w, inline[1..], if k == inline[0] then inline[1] else k);
      assert inline[1] in inline[1..];
      assert inline[1..][|inline| - 2] == inline[|inline| - 1];
    }
  }

  /** Packing the inline area yields a well-formed bundle of committed manifests. */
  lemma PackContent(w: World, chain: seq<Key>, state: State)
    requires StateOk(w, chain, state) && state.inline != []
    ensures BundleOk(w, Pack(w, state)) && ContentOk(w, chain, Pack(w, state))
  {
    var b := Pack(w, state);
    var first, last := state.inline[0], state.inline[|state.inline| - 1];
    assert first in state.inline && OnChain(w, chain, first);
    assert last in state.inline && OnChain(w, chain, last);
    InOrderRange(w, state.inline, first);
    forall k | k in b.entries ensures OnChain(w, chain, k) && b.first <= w.manifests[k].generation <= b.last {
      InOrderRange(w, state.inline, k);
    }
  }

  lemma BundleExtends(w: World, w': World, chain: seq<Key>, b: Bundle)
    requires Extends(w, w') && BundleOk(w, b) && ContentOk(w, chain, b)
    ensures BundleOk(w', b) && ContentOk(w', chain, b)
  {
  }

  lemma AddBundle(w: World, chain: seq<Key>, key: Key, b: Bundle)
    requires WorldOk(w, chain) && NamesBundle(w, key, b) && BundleOk(w, b) && ContentOk(w, chain, b)
    ensures var w' := w.(bundles := w.bundles[key := b]);
            Extends(w, w') && WorldOk(w', chain) && RefOk(w', BundleRef(key, b.first, b.last))
  {
    var w' := w.(bundles := w.bundles[key := b]);
    forall k | k in w'.bundles ensures BundleOk(w', w'.bundles[k]) && ContentOk(w', chain, w'.bundles[k]) {
      assert w'.bundles[k] == b || (k in w.bundles && w'.bundles[k] == w.bundles[k]);
      BundleExtends(w, w', chain, w'.bundles[k]);
    }
  }

  lemma {:induction false} NothingRemains(inline: seq<Key>, moved: set<Key>)
    requires forall k :: k in inline ==> k in moved
    ensures Remaining(inline, moved) == []
  {
    if inline != [] { NothingRemains(inline[1..], moved); }
  }

  lemma PackPrepared(w: World, chain: seq<Key>, state: State, key: Key)
    requires WorldOk(w, chain) && StateOk(w, chain, state) && state.inline != []
    requires NamesBundle(w, key, Pack(w, state))
    ensures var p := PackedAs(Pack(w, state), key);
            && PreparedOk(w.(bundles := w.bundles[key := Pack(w, state)]), state, p)
            && Remaining(state.inline, p.keys) == []
  {
    PackContent(w, chain, state);
    AddBundle(w, chain, key, Pack(w, state));
    var p := PackedAs(Pack(w, state), key);
    NothingRemains(state.inline, p.keys);
  }

  lemma AddManifest(w: World, chain: seq<Key>, key: Key, m: Manifest)
    requires WorldOk(w, chain) && NamesManifest(w, key, m)
    ensures var w' := w.(manifests := w.manifests[key := m]);
            Extends(w, w') && WorldOk(w', chain)
  {
    var w' := w.(manifests := w.manifests[key := m]);
    forall k | k in w'.bundles ensures BundleOk(w', w'.bundles[k]) && ContentOk(w', chain, w'.bundles[k]) {
      BundleExtends(w, w', chain, w.bundles[k]);
    }
  }

  lemma ExtendsPrepared(w: World, w': World, state: State, p: Prepared)
    requires Extends(w, w') && PreparedOk(w, state, p)
    ensures PreparedOk(w', state, p)
  {
  }

  lemma ExtendsState(w: World, w': World, chain: seq<Key>, state: State)
    requires Extends(w, w') && StateOk(w, chain, state)
    ensures StateOk(w', chain, state)
  {
    BytesExtends(w, w', state.inline);
    InOrderExtends(w, w', state.inline);
  }

  lemma {:induction false} InOrderExtends(w: World, w': World, inline: seq<Key>)
    requires Extends(w, w') && InOrder(w, inline)
    ensures InOrder(w', inline)
  {
    if inline != [] { InOrderExtends(w, w', inline[1..]); }
  }

  lemma ExtendsReadable(w: World, w': World, store: set<Object>, state: State, chain: seq<Key>, floor: nat)
    requires BundlesOk(w) && BundlesOk(w') && Extends(w, w')
    requires state.bundle.Some? ==> RefOk(w, state.bundle.value) && RefOk(w', state.bundle.value)
    requires Readable(w, store, state, chain, floor)
    ensures Readable(w', store, state, chain, floor)
  {
    forall i | floor <= i < |chain| ensures ReadManifest(w', store, state, chain[i], i + 1).Found? {
      WalkExtends(w, w', store, state.bundle, chain[i], i + 1);
    }
  }

  lemma ExtendsOp(v: Volume, w': World, op: Publishing)
    requires OpOk(v, op) && Extends(v.w, w')
    ensures OpOk(v.(w := w'), op)
  {
    var kept := Remaining(op.snapshot.inline, Keys(op.placement.bundle));
    BytesExtends(v.w, w', kept);
  }

  /** Naming new content leaves everything about the volume as it was. */
  lemma ExtendKeeps(v: Volume, w': World)
    requires Inv(v) && Extends(v.w, w') && WorldOk(w', v.chain)
    ensures Inv(v.(w := w'))
  {
    ExtendsState(v.w, w', v.chain, v.state);
    ExtendsReadable(v.w, w', v.store, v.state, v.chain, v.floor);
    if v.op.Some? { ExtendsOp(v, w', v.op.value); }
  }

  /** Uploading objects leaves every readable manifest where it was found. */
  lemma StoreKeeps(v: Volume, more: set<Object>)
    requires Inv(v) && v.store <= more
    ensures Inv(v.(store := more))
  {
    forall i | v.floor <= i < |v.chain| ensures ReadManifest(v.w, more, v.state, v.chain[i], i + 1).Found? {
      ReadMonotone(v.w, v.store, more, v.state, v.chain[i], i + 1);
    }
  }

  lemma StartArchiveKeeps(v: Volume, key: Key)
    requires Inv(v) && Enabled(v, StartArchive(key))
    ensures Inv(Apply(v, StartArchive(key)))
  {
    var b := Pack(v.w, v.state);
    PackContent(v.w, v.chain, v.state);
    AddBundle(v.w, v.chain, key, b);
    ExtendKeeps(v, v.w.(bundles := v.w.bundles[key := b]));
    PackPrepared(v.w, v.chain, v.state, key);
  }

  lemma ArchiveDoneKeeps(v: Volume, ok: bool)
    requires Inv(v) && v.uploading.Some?
    ensures Inv(Apply(v, ArchiveStored))
    ensures Enabled(v, ArchiveDone(ok)) ==> Inv(Apply(v, ArchiveDone(ok)))
  {
    StoreKeeps(v, v.store + {BundleObject(v.uploading.value.ref.key)});
  }

  /** A bundle that applies is packed on top of the head's bundle, from newer generations. */
  lemma AppliesOnTop(w: World, chain: seq<Key>, state: State, p: Prepared)
    requires WorldOk(w, chain) && StateOk(w, chain, state) && PreparedOk(w, state, p) && Applies(w, state, p)
    ensures w.bundles[p.ref.key].parent == state.bundle
    ensures HeadLast(state) < p.ref.first <= p.ref.last
  {
    var b := w.bundles[p.ref.key];
    assert BundleOk(w, b);
  }

  /** The walk through a new bundle on top ends where it ended before, or in the bundle itself. */
  lemma InstallWalk(w: World, store: set<Object>, state: State, p: Prepared, key: Key, generation: nat)
    requires BundlesOk(w) && RefOk(w, p.ref) && (state.bundle.Some? ==> RefOk(w, state.bundle.value))
    requires w.bundles[p.ref.key].parent == state.bundle && HeadLast(state) < p.ref.first <= p.ref.last
    requires forall k :: k in p.keys <==> k in w.bundles[p.ref.key].entries
    requires key in p.keys ==> p.ref.first <= generation <= p.ref.last
    requires BundleObject(p.ref.key) in store
    requires ReadManifest(w, store, state, key, generation).Found?
    ensures ReadManifest(w, store, Install(state, p), key, generation).Found?
  {
  }

  /** Installing a stored bundle moves manifests but loses none, whatever was published since it was packed. */
  lemma InstallReads(w: World, chain: seq<Key>, state: State, store: set<Object>, p: Prepared, i: nat)
    requires WorldOk(w, chain) && StateOk(w, chain, state) && PreparedOk(w, state, p) && Applies(w, state, p)
    requires BundleObject(p.ref.key) in store && i < |chain|
    requires ReadManifest(w, store, state, chain[i], i + 1).Found?
    ensures ReadManifest(w, store, Install(state, p), chain[i], i + 1).Found?
  {
    AppliesOnTop(w, chain, state, p);
    assert ContentOk(w, chain, w.bundles[p.ref.key]);
    assert w.manifests[chain[i]].generation == i + 1;
    InstallWalk(w, store, state, p, chain[i], i + 1);
  }

  lemma InstallState(w: World, chain: seq<Key>, state: State, p: Prepared)
    requires WorldOk(w, chain) && StateOk(w, chain, state) && PreparedOk(w, state, p) && Applies(w, state, p)
    ensures StateOk(w, chain, Install(state, p))
  {
    RemainingInOrder(w, state.inline, p.keys);
    RemainingBytes(w, state.inline, {}, p.keys);
  }

  lemma UpdateKeeps(v: Volume)
    requires Inv(v)
    ensures Inv(Apply(v, Update))
  {
    var ready := UsableReady(v);
    if ready.Some? {
      var p := ready.value;
      InstallState(v.w, v.chain, v.state, p);
      forall i | v.floor <= i < |v.chain|
        ensures ReadManifest(v.w, v.store, Install(v.state, p), v.chain[i], i + 1).Found? {
        InstallReads(v.w, v.chain, v.state, v.store, p, i);
      }
      if v.op.Some? {
        RemainingBytes(v.w, v.op.value.snapshot.inline, v.op.value.moved, p.keys);
      }
    }
  }

  function AllInline(v: Volume, bundleKey: Key): Option<Prepared>
    requires forall k :: k in v.state.inline ==> k in v.w.manifests
  {
    if v.state.inline == [] then None else Some(PackedAs(Pack(v.w, v.state), bundleKey))
  }

  lemma AllRemains(v: Volume, bundleKey: Key)
    requires Inv(v)
    ensures Remaining(v.state.inline, Keys(AllInline(v, bundleKey))) == []
  {
    if v.state.inline != [] {
      NothingRemains(v.state.inline, PackedAs(Pack(v.w, v.state), bundleKey).keys);
    }
  }

  /** The names once a publication introduced its manifest and, if it packs one, its bundle. */
  function NamedWorld(v: Volume, step: Step): World
    requires step.BeginPublish?
    requires v.ready.Some? ==> v.ready.value.ref.key in v.w.bundles
    requires forall k :: k in v.state.inline ==> k in v.w.manifests
  {
    var w1 := v.w.(manifests := v.w.manifests[step.key := step.manifest]);
    if v.state.inline != [] && PlacementOf(v, step).bundle == AllInline(v, step.bundleKey)
    then w1.(bundles := w1.bundles[step.bundleKey := Pack(v.w, v.state)]) else w1
  }

  function PlacementOf(v: Volume, step: Step): Placement
    requires step.BeginPublish?
    requires v.ready.Some? ==> v.ready.value.ref.key in v.w.bundles
    requires forall k :: k in v.state.inline ==> k in v.w.manifests
  {
    Place(v.w, v.state.inline, step.manifest.size, step.manifest.kind.Checkpoint?, UsableReady(v),
        AllInline(v, step.bundleKey))
  }

  lemma PlacementFits(v: Volume, step: Step)
    requires Inv(v) && step.BeginPublish?
    ensures var p := PlacementOf(v, step);
            && (p.embed || p.archive)
            && (p.embed ==>
                  Bytes(v.w, Remaining(v.state.inline, Keys(p.bundle))) + step.manifest.size <= INLINE_STATE_LIMIT)
            && (p.bundle == None || p.bundle == v.ready || p.bundle == AllInline(v, step.bundleKey))
  {
    AllRemains(v, step.bundleKey);
    PlacementStoresTheBody(v.w, v.state.inline, step.manifest.size, step.manifest.kind.Checkpoint?, UsableReady(v),
        AllInline(v, step.bundleKey));
  }

  lemma NamedWorldOk(v: Volume, step: Step)
    requires Inv(v) && step.BeginPublish? && Nameable(v, step)
    ensures Extends(v.w, NamedWorld(v, step)) && WorldOk(NamedWorld(v, step), v.chain)
  {
    var m := step.manifest;
    AddManifest(v.w, v.chain, step.key, m);
    var w1 := v.w.(manifests := v.w.manifests[step.key := m]);
    if v.state.inline != [] {
      var b := Pack(v.w, v.state);
      PackContent(v.w, v.chain, v.state);
      BundleExtends(v.w, w1, v.chain, b);
      AddBundle(w1, v.chain, step.bundleKey, b);
    }
  }

  /** A bundle of the whole inline area is as good in the world that names it. */
  lemma PackedIsPrepared(w: World, w': World, chain: seq<Key>, state: State, key: Key)
    requires WorldOk(w, chain) && StateOk(w, chain, state) && state.inline != [] && Extends(w, w')
    requires key in w'.bundles && w'.bundles[key] == Pack(w, state)
    ensures PreparedOk(w', state, PackedAs(Pack(w, state), key))
  {
  }

  lemma NamedBundle(v: Volume, step: Step)
    requires Inv(v) && step.BeginPublish? && Nameable(v, step)
    ensures var p := PlacementOf(v, step);
            p.bundle.Some? ==> PreparedOk(NamedWorld(v, step), v.state, p.bundle.value)
  {
    PlacementFits(v, step);
    NamedWorldOk(v, step);
    var p := PlacementOf(v, step);
    if p.bundle.Some? {
      if p.bundle == AllInline(v, step.bundleKey) {
        PackedIsPrepared(v.w, NamedWorld(v, step), v.chain, v.state, step.bundleKey);
      } else {
        ExtendsPrepared(v.w, NamedWorld(v, step), v.state, p.bundle.value);
      }
    }
  }

  lemma BeginPublishKeeps(v: Volume, step: Step)
    requires Inv(v) && step.BeginPublish? && v.op.None? && Nameable(v, step)
    ensures Inv(BeginPublished(v, step))
  {
    NamedWorldOk(v, step);
    NamedBundle(v, step);
    PlacementFits(v, step);
    var w' := NamedWorld(v, step);
    ExtendKeeps(v, w');
    BytesExtends(v.w, w', Remaining(v.state.inline, Keys(PlacementOf(v, step).bundle)));
    BeginWith(v.(w := w'), step.key, PlacementOf(v, step), UsableReady(v));
  }

  lemma BeginWith(v: Volume, key: Key, placement: Placement, ready: Option<Prepared>)
    requires Inv(v) && v.op.None? && (ready == v.ready || ready == None)
    requires key in v.w.manifests && v.w.manifests[key].generation == v.state.generation + 1
    requires v.w.manifests[key].parent == v.state.manifest
    requires placement.embed || placement.archive
    requires placement.embed ==>
               Bytes(v.w, Remaining(v.state.inline, Keys(placement.bundle))) +
                   v.w.manifests[key].size <= INLINE_STATE_LIMIT
    requires placement.bundle.Some? ==> PreparedOk(v.w, v.state, placement.bundle.value)
    ensures Inv(v.(ready := ready, op := Some(Publishing(v.state, key, placement, {}, false))))
  {
    RemainingNothing(v.state.inline);
    var op := Publishing(v.state, key, placement, {}, false);
    BeginPublishOp(v.(ready := ready), op);
    AttachOp(v, ready, op);
  }

  /** A volume without a publication under way takes one up. */
  lemma AttachOp(v: Volume, ready: Option<Prepared>, op: Publishing)
    requires Inv(v) && v.op.None? && (ready == v.ready || ready == None)
    requires OpOk(v.(ready := ready), op)
    ensures Inv(v.(ready := ready, op := Some(op)))
  {
  }

  lemma {:induction false} RemainingNothing(inline: seq<Key>)
    ensures Remaining(inline, {}) == inline
  {
    if inline != [] { RemainingNothing(inline[1..]); }
  }

  lemma BeginPublishOp(v: Volume, op: Publishing)
    requires op.key in v.w.manifests && StateOk(v.w, v.chain, v.state) && ChainOk(v.w, v.chain)
    requires op.snapshot == v.state && op.moved == {} && !op.uploaded && Remaining(v.state.inline, {}) == v.state.inline
    requires v.w.manifests[op.key].generation == v.state.generation + 1
    requires v.w.manifests[op.key].parent == v.state.manifest
    requires op.placement.embed || op.placement.archive
    requires op.placement.embed ==>
               Bytes(v.w, Remaining(v.state.inline, Keys(op.placement.bundle))) +
                   v.w.manifests[op.key].size <= INLINE_STATE_LIMIT
    requires op.placement.bundle.Some? ==> PreparedOk(v.w, v.state, op.placement.bundle.value)
    ensures OpOk(v, op)
  {
  }

  lemma UploadKeeps(v: Volume)
    requires Inv(v) && Enabled(v, Upload)
    ensures Inv(Apply(v, Upload))
  {
    StoreKeeps(v, Apply(v, Upload).store);
  }

  /** The committed chain grows by the new manifest; packed bundles stay well-formed. */
  lemma ChainGrows(w: World, chain: seq<Key>, key: Key)
    requires WorldOk(w, chain) && key in w.manifests && w.manifests[key].generation == |chain| + 1
    requires w.manifests[key].parent == Preceding(chain, |chain|)
    ensures WorldOk(w, chain + [key])
    ensures forall k :: OnChain(w, chain, k) ==> OnChain(w, chain + [key], k)
  {
    var longer := chain + [key];
    forall i | 0 <= i < |longer|
      ensures longer[i] in w.manifests && w.manifests[longer[i]].generation == i + 1
      ensures w.manifests[longer[i]].parent == Preceding(longer, i)
    {
      assert longer[i] == if i < |chain| then chain[i] else key;
      assert Preceding(longer, i) == Preceding(chain, i);
    }
    forall k | k in w.bundles ensures ContentOk(w, longer, w.bundles[k]) {
      assert ContentOk(w, chain, w.bundles[k]);
    }
  }

  function CommitBase(state: State, bundle: Option<Prepared>): State {
    if bundle.Some? then Install(state, bundle.value) else state
  }

  /** The first half of a commit: its bundle is installed. */
  lemma CommitBaseOk(w: World, chain: seq<Key>, state: State, store: set<Object>, floor: nat, bundle: Option<Prepared>)
    requires WorldOk(w, chain) && StateOk(w, chain, state) && Readable(w, store, state, chain, floor)
    requires bundle.Some? ==> PreparedOk(w, state, bundle.value) && Applies(w, state, bundle.value)
    requires bundle.Some? ==> BundleObject(bundle.value.ref.key) in store
    ensures StateOk(w, chain, CommitBase(state, bundle))
    ensures Readable(w, store, CommitBase(state, bundle), chain, floor)
    ensures HeadLast(CommitBase(state, bundle)) <= |chain|
  {
    if bundle.Some? {
      InstallState(w, chain, state, bundle.value);
      forall i | floor <= i < |chain|
        ensures ReadManifest(w, store, Install(state, bundle.value), chain[i], i + 1).Found? {
        InstallReads(w, chain, state, store, bundle.value, i);
      }
    }
    var base := CommitBase(state, bundle);
    if base.bundle.Some? {
      assert ContentOk(w, chain, w.bundles[base.bundle.value.key]);
    }
  }

  function Advanced(base: State, key: Key, embed: bool): State {
    State(base.generation + 1, Some(key), if embed then base.inline + [key] else base.inline, base.bundle)
  }

  lemma AdvancedState(w: World, chain: seq<Key>, base: State, key: Key, embed: bool)
    requires WorldOk(w, chain) && StateOk(w, chain, base) && HeadLast(base) <= |chain|
    requires key in w.manifests && w.manifests[key].generation == |chain| + 1
    requires w.manifests[key].parent == base.manifest
    requires embed ==> Bytes(w, base.inline) + Size(w, key) <= INLINE_STATE_LIMIT
    ensures WorldOk(w, chain + [key]) && StateOk(w, chain + [key], Advanced(base, key, embed))
  {
    ChainGrows(w, chain, key);
    BytesAppend(w, base.inline, key);
    assert forall k :: k in base.inline ==> w.manifests[k].generation <= |chain|;
    InOrderAppend(w, base.inline, key);
    assert (chain + [key])[|chain|] == key;
    assert OnChain(w, chain + [key], key);
  }

  lemma {:induction false} InOrderAppend(w: World, inline: seq<Key>, key: Key)
    requires InOrder(w, inline) && key in w.manifests
    requires forall k :: k in inline ==> k in w.manifests && w.manifests[k].generation < w.manifests[key].generation
    ensures InOrder(w, inline + [key])
  {
    if inline == [] {
      assert inline + [key] == [key] && [key][1..] == [];
    } else {
      InOrderAppend(w, inline[1..], key);
      assert (inline + [key])[1..] == inline[1..] + [key];
    }
  }

  /** The second half of a commit: the new manifest and every older one is found. */
  lemma AdvancedReads(w: World, chain: seq<Key>, base: State, store: set<Object>, floor: nat, key: Key, embed: bool)
    requires BundlesOk(w) && (base.bundle.Some? ==> RefOk(w, base.bundle.value)) && HeadLast(base) <= |chain|
    requires Readable(w, store, base, chain, floor)
    requires embed || ManifestObject(key) in store
    ensures Readable(w, store, Advanced(base, key, embed), chain + [key], floor)
  {
    var next, longer := Advanced(base, key, embed), chain + [key];
    forall i | floor <= i < |longer| ensures ReadManifest(w, store, next, longer[i], i + 1).Found? {
      if i < |chain| {
        assert longer[i] == chain[i];
        assert ReadManifest(w, store, base, chain[i], i + 1).Found?;
      }
    }
  }

  lemma EmbedBytes(w: World, snapshot: seq<Key>, moved: set<Key>, state: State, bundle: Option<Prepared>, size: nat)
    requires state.inline == Remaining(snapshot, moved)
    requires Bytes(w, Remaining(snapshot, Keys(bundle))) + size <= INLINE_STATE_LIMIT
    ensures Bytes(w, CommitBase(state, bundle).inline) + size <= INLINE_STATE_LIMIT
  {
    RemainingBytes(w, snapshot, moved, Keys(bundle));
    if bundle.None? { RemainingNothing(state.inline); }
  }

  lemma CommitPrepared(v: Volume, q: Prepared)
    requires Inv(v) && Enabled(v, Commit) && PreparedOk(v.w, v.state, q)
    ensures PreparedOk(v.w, CommitState(v.state, v.op.value), q)
  {
    assert ContentOk(v.w, v.chain, v.w.bundles[q.ref.key]);
  }

  lemma CommitCore(v: Volume)
    requires Inv(v) && Enabled(v, Commit)
    ensures var op := v.op.value;
            && WorldOk(v.w, v.chain + [op.key])
            && StateOk(v.w, v.chain + [op.key], CommitState(v.state, op))
            && Readable(v.w, v.store, CommitState(v.state, op), v.chain + [op.key], v.floor)
  {
    var op := v.op.value;
    var base := CommitBase(v.state, op.placement.bundle);
    CommitBaseOk(v.w, v.chain, v.state, v.store, v.floor, op.placement.bundle);
    if op.placement.embed {
      EmbedBytes(v.w, op.snapshot.inline, op.moved, v.state, op.placement.bundle, Size(v.w, op.key));
    }
    AdvancedState(v.w, v.chain, base, op.key, op.placement.embed);
    AdvancedReads(v.w, v.chain, base, v.store, v.floor, op.key, op.placement.embed);
  }

  lemma CommitKeeps(v: Volume)
    requires Inv(v) && Enabled(v, Commit)
    ensures Inv(Apply(v, Commit))
  {
    CommitCore(v);
    if v.uploading.Some? { CommitPrepared(v, v.uploading.value); }
    if v.ready.Some? { CommitPrepared(v, v.ready.value); }
  }

  lemma StepKeeps(v: Volume, step: Step)
    requires Inv(v) && Enabled(v, step)
    ensures Inv(Apply(v, step))
  {
    match step
    case StartArchive(key) => StartArchiveKeeps(v, key);
    case ArchiveStored => ArchiveDoneKeeps(v, false);
    case ArchiveDone(ok) => ArchiveDoneKeeps(v, ok);
    case Update => UpdateKeeps(v);
    case BeginPublish(_, _, _) => BeginPublishKeeps(v, step);
    case Upload => UploadKeeps(v);
    case Commit => CommitKeeps(v);
    case Fail =>
    case TakeOver =>
  }
}
