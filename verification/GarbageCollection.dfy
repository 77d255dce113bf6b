/**
 Reading history and collecting garbage (internal/replica/remote.go:
 `restoreManifests`, `loadHistory`, `manifestSourceLoader`, `collectGarbage`).

 Collection loads the history from the head, keeps what the retained part of it
 needs and deletes other objects, possibly stopping after any of them. The
 theorems say that no deletion changes what a retained generation restores to,
 and that over whole runs of publishing, packing and collecting a generation
 keeps its image until it is collected.
 */
module GarbageCollection {
  import opened Options
  import opened Extents
  import opened RestorePlans
  import opened Restores
  import opened ManifestStore

  /** `loadHistory` gives up behind this many manifests. */
  const HISTORY_LIMIT: nat := 1_000_000

  /** `restoreManifests` gives up behind this many deltas. */
  const RESTORE_LIMIT: nat := 1_000_000

  /** What reading relies on: the head names the newest manifest of a chain and well-formed bundles. */
  ghost predicate Placed(w: World, chain: seq<Key>, state: State) {
    && BundlesOk(w) && (state.bundle.Some? ==> RefOk(w, state.bundle.value))
    && ChainOk(w, chain)
    && state.generation == |chain| && state.manifest == Preceding(chain, |chain|)
  }

  function EntryOf(w: World, key: Key, bundle: Option<Key>): Entry
    requires key in w.manifests
  {
    Entry(key, bundle, w.manifests[key].kind, w.manifests[key].segments)
  }

  // ----- Walking back from a generation -----

  /** What reading each generation of the chain gives. */
  ghost function Reads(w: World, store: set<Object>, state: State, chain: seq<Key>): seq<Read>
    requires Placed(w, chain, state)
  {
    seq(|chain|, i requires 0 <= i < |chain| => ReadManifest(w, store, state, chain[i], i + 1))
  }

  /** The manifests of a restore: from generation `g` back to the nearest checkpoint, newest first. */
  ghost function RestoreWalk(w: World, chain: seq<Key>, seen: seq<Read>, g: nat): Option<seq<Entry>>
    requires ChainOk(w, chain) && g <= |chain| == |seen|
  {
    if g == 0 then Some([])
    else if seen[g - 1].NotFound? then None
    else
      var entry := EntryOf(w, chain[g - 1], seen[g - 1].bundle);
      if entry.kind.Checkpoint? then Some([entry]) else Prepended([entry], RestoreWalk(w, chain, seen, g - 1))
  }

  function Prepended(front: seq<Entry>, rest: Option<seq<Entry>>): Option<seq<Entry>> {
    if rest.Some? then Some(front + rest.value) else None
  }

  lemma PrependedNothing(rest: Option<seq<Entry>>)
    ensures Prepended([], rest) == rest
  {
    if rest.Some? { assert [] + rest.value == rest.value; }
  }

  lemma PrependedTwice(front: seq<Entry>, entry: Entry, rest: Option<seq<Entry>>)
    ensures Prepended(front, Prepended([entry], rest)) == Prepended(front + [entry], rest)
  {
    if rest.Some? { assert front + ([entry] + rest.value) == front + [entry] + rest.value; }
  }

  /** The deltas of a restore: only its last manifest can be a checkpoint. */
  function Deltas(es: seq<Entry>): nat {
    if es != [] && es[|es| - 1].kind.Checkpoint? then |es| - 1 else |es|
  }

  /** What `restoreManifests` returns: the walk, unless it has more deltas than the limit. */
  ghost function LimitedWalk(w: World, chain: seq<Key>, seen: seq<Read>, g: nat): Option<seq<Entry>>
    requires ChainOk(w, chain) && g <= |chain| == |seen|
  {
    var walk := RestoreWalk(w, chain, seen, g);
    if walk.Some? && Deltas(walk.value) <= RESTORE_LIMIT then walk else None
  }

  /**
   Entry `n` of a walk is the manifest `n` positions below the first, everything
   in front of it is a delta, and the walk ends at a checkpoint or with the first
   generation.
   */
  lemma {:induction false} WalkPosition(w: World, chain: seq<Key>, seen: seq<Read>, g: nat, n: nat)
    requires ChainOk(w, chain) && g <= |chain| == |seen| && RestoreWalk(w, chain, seen, g).Some?
    requires n < |RestoreWalk(w, chain, seen, g).value|
    ensures var es := RestoreWalk(w, chain, seen, g).value;
            && n < |es| <= g && seen[g - 1 - n].Found? && es[n] == EntryOf(w, chain[g - 1 - n], seen[g - 1 - n].bundle)
            && (forall x :: g - 1 - n < x < g ==> w.manifests[chain[x]].kind.Delta?)
            && (|es| < g ==> es[|es| - 1].kind.Checkpoint?)
  {
    if n > 0 {
      WalkPosition(w, chain, seen, g - 1, n - 1);
    } else if |RestoreWalk(w, chain, seen, g).value| > 1 {
      WalkPosition(w, chain, seen, g - 1, 0);
    }
  }

  /** At most so many generations, or a checkpoint among the first manifests that may be read. */
  ghost predicate ShortWalk(w: World, chain: seq<Key>, g: nat)
    requires ChainOk(w, chain) && g <= |chain|
  {
    g <= RESTORE_LIMIT || exists i :: g - 1 - RESTORE_LIMIT <= i < g && w.manifests[chain[i]].kind.Checkpoint?
  }

  /** The limit is respected exactly by short walks, whatever can be read. */
  lemma LimitIff(w: World, chain: seq<Key>, seen: seq<Read>, g: nat)
    requires ChainOk(w, chain) && g <= |chain| == |seen| && RestoreWalk(w, chain, seen, g).Some?
    ensures LimitedWalk(w, chain, seen, g).Some? <==> ShortWalk(w, chain, g)
  {
    var es := RestoreWalk(w, chain, seen, g).value;
    if es != [] {
      var last := |es| - 1;
      WalkPosition(w, chain, seen, g, last);
      assert es[last].kind == w.manifests[chain[g - 1 - last]].kind;
    }
  }

  /** `restoreManifests`, for the head or for an older generation and its manifest. */
  method RestoreManifests(
    w: World, store: set<Object>, state: State, ghost chain: seq<Key>, g: nat, manifest: Option<Key>
  ) returns (r: Option<seq<Entry>>)
    requires Placed(w, chain, state) && g <= |chain| && manifest == Preceding(chain, g)
    ensures r == LimitedWalk(w, chain, Reads(w, store, state, chain), g)
  {
    var manifests: seq<Entry> := [];
    var key := manifest;
    var expected: nat := g;
    ghost var seen := Reads(w, store, state, chain);
    PrependedNothing(RestoreWalk(w, chain, seen, g));
    while key.Some?
      invariant expected <= g && key == Preceding(chain, expected)
      invariant RestoreWalk(w, chain, seen, g) == Prepended(manifests, RestoreWalk(w, chain, seen, expected))
      invariant |manifests| <= RESTORE_LIMIT && (manifests != [] ==> manifests[|manifests| - 1].kind.Delta?)
      decreases expected
    {
      var read := ReadManifest(w, store, state, key.value, expected);
      assert read == seen[expected - 1];
      if read.NotFound? { return None; }
      var entry := EntryOf(w, key.value, read.bundle);
      PrependedTwice(manifests, entry, RestoreWalk(w, chain, seen, expected - 1));
      manifests := manifests + [entry];
      if entry.kind.Checkpoint? { return Some(manifests); }
      key := w.manifests[key.value].parent;
      expected := expected - 1;
      if |manifests| > RESTORE_LIMIT { return None; }
    }
    assert manifests + [] == manifests;
    return Some(manifests);
  }

  ghost predicate IsRead(w: World, chain: seq<Key>, seen: seq<Read>, i: nat, entry: Entry)
    requires i < |chain| == |seen|
  {
    chain[i] in w.manifests && seen[i].Found? && entry == EntryOf(w, chain[i], seen[i].bundle)
  }

  /** Position `n` of a loaded history is the manifest `n` generations below the head. */
  ghost predicate IsHistory(w: World, chain: seq<Key>, seen: seq<Read>, history: seq<Entry>)
    requires |chain| == |seen|
  {
    && |history| <= |chain|
    && (forall n :: 0 <= n < |history| ==> IsRead(w, chain, seen, |chain| - 1 - n, history[n]))
  }

  ghost predicate HasCheckpoint(history: seq<Entry>) {
    exists n :: 0 <= n < |history| && history[n].kind.Checkpoint?
  }

  lemma HistoryGrows(w: World, chain: seq<Key>, seen: seq<Read>, history: seq<Entry>, entry: Entry)
    requires |chain| == |seen| && IsHistory(w, chain, seen, history) && |history| < |chain|
    requires IsRead(w, chain, seen, |chain| - 1 - |history|, entry)
    ensures IsHistory(w, chain, seen, history + [entry])
    ensures HasCheckpoint(history + [entry]) <==> HasCheckpoint(history) || entry.kind.Checkpoint?
  {
    var longer := history + [entry];
    assert longer[|history|] == entry;
    if HasCheckpoint(history) {
      var n :| 0 <= n < |history| && history[n].kind.Checkpoint?;
      assert longer[n].kind.Checkpoint?;
    }
  }

  /**
   The outcome of loading a history: the longest readable stretch below the
   head. It fails exactly when the first unreadable manifest has no checkpoint
   in front of it, or when there are more manifests than the limit.
   */
  ghost predicate IsLoaded(w: World, chain: seq<Key>, seen: seq<Read>, r: Option<seq<Entry>>)
    requires |chain| == |seen| && ChainOk(w, chain)
  {
    match r
    case Some(history) =>
      && IsHistory(w, chain, seen, history)
      && (|history| < |chain| ==> seen[|chain| - 1 - |history|].NotFound? && HasCheckpoint(history))
      && !TooLong(chain, seen)
    case None =>
      TooLong(chain, seen) || exists depth: nat :: depth < |chain| && IsStuck(w, chain, seen, depth)
  }

  /** More manifests than the limit can be read and the last of them is not the first generation. */
  ghost predicate TooLong(chain: seq<Key>, seen: seq<Read>)
    requires |chain| == |seen|
  {
    |chain| > HISTORY_LIMIT + 1 && forall i :: |chain| - 1 - HISTORY_LIMIT <= i < |chain| ==> seen[i].Found?
  }

  ghost predicate IsStuck(w: World, chain: seq<Key>, seen: seq<Read>, depth: nat)
    requires |chain| == |seen| && ChainOk(w, chain) && depth < |chain|
  {
    && seen[|chain| - 1 - depth].NotFound?
    && (forall i :: |chain| - depth <= i < |chain| ==> seen[i].Found? && w.manifests[chain[i]].kind.Delta?)
  }

  lemma Stuck(w: World, chain: seq<Key>, seen: seq<Read>, history: seq<Entry>)
    requires |chain| == |seen| && ChainOk(w, chain) && |history| < |chain|
    requires IsHistory(w, chain, seen, history) && !HasCheckpoint(history)
    requires seen[|chain| - 1 - |history|].NotFound?
    ensures IsLoaded(w, chain, seen, None)
  {
    forall i | |chain| - |history| <= i < |chain| ensures seen[i].Found? && w.manifests[chain[i]].kind.Delta? {
      var n := |chain| - 1 - i;
      assert IsRead(w, chain, seen, |chain| - 1 - n, history[n]);
      assert !history[n].kind.Checkpoint?;
    }
    assert IsStuck(w, chain, seen, |history|);
  }

  /** `loadHistory`. */
  method LoadHistory(w: World, store: set<Object>, state: State, ghost chain: seq<Key>) returns (r: Option<seq<Entry>>)
    requires Placed(w, chain, state)
    ensures IsLoaded(w, chain, Reads(w, store, state, chain), r)
  {
    var history: seq<Entry> := [];
    var key, behind := state.manifest, false;
    var expected: nat := state.generation;
    ghost var seen := Reads(w, store, state, chain);
    while key.Some?
      invariant expected + |history| == |chain| && key == Preceding(chain, expected)
      invariant IsHistory(w, chain, seen, history)
      invariant behind <==> HasCheckpoint(history)
      invariant |history| <= HISTORY_LIMIT || |history| == |chain| <= HISTORY_LIMIT + 1
      decreases expected
    {
      var read := ReadManifest(w, store, state, key.value, expected);
      assert read == seen[expected - 1];
      if read.NotFound? {
        if behind { return Some(history); }
        Stuck(w, chain, seen, history);
        return None;
      }
      var entry := EntryOf(w, key.value, read.bundle);
      HistoryGrows(w, chain, seen, history, entry);
      history := history + [entry];
      if entry.kind.Checkpoint? { behind := true; }
      key := w.manifests[key.value].parent;
      expected := expected - 1;
      if expected > 0 && |history| > HISTORY_LIMIT {
        LongHistory(w, chain, seen, history);
        return None;
      }
    }
    return Some(history);
  }

  lemma LongHistory(w: World, chain: seq<Key>, seen: seq<Read>, history: seq<Entry>)
    requires |chain| == |seen| && IsHistory(w, chain, seen, history) && HISTORY_LIMIT < |history| < |chain|
    ensures TooLong(chain, seen)
  {
    forall i | |chain| - 1 - HISTORY_LIMIT <= i < |chain| ensures seen[i].Found? {
      var n := |chain| - 1 - i;
      assert IsRead(w, chain, seen, |chain| - 1 - n, history[n]);
    }
  }

  // ----- Finding the source of an inline segment -----

  datatype Hunt = Hit(path: seq<Key>) | Miss | Broken

  function Behind(key: Key, hunt: Hunt): Hunt { if hunt.Hit? then Hit([key] + hunt.path) else hunt }

  /** `searchBundleChain`: the bundles from the head down to the one that holds a manifest. */
  function Search(w: World, store: set<Object>, ref: Option<BundleRef>, manifest: Key): Hunt
    requires BundlesOk(w) && (ref.Some? ==> RefOk(w, ref.value))
    decreases if ref.Some? then ref.value.last + 1 else 0
  {
    if ref.None? then Miss
    else if BundleObject(ref.value.key) !in store then Broken
    else
      var b := w.bundles[ref.value.key];
      assert BundleOk(w, b);
      if manifest in b.entries then Hit([ref.value.key])
          else Behind(ref.value.key, Search(w, store, b.parent, manifest))
  }

  /** `resolve`: a body is inline, in a bundle of the chain, or an object of its own. */
  ghost predicate Resolvable(w: World, store: set<Object>, state: State, manifest: Key)
    requires BundlesOk(w) && (state.bundle.Some? ==> RefOk(w, state.bundle.value))
  {
    manifest in state.inline || Search(w, store, state.bundle, manifest).Hit? || ManifestObject(manifest) in store
  }

  /** The bytes of a segment can be had (`applyObjectRef`, `inlineSegment`). */
  ghost predicate Fetchable(w: World, store: set<Object>, state: State, ref: ObjectRef)
    requires BundlesOk(w) && (state.bundle.Some? ==> RefOk(w, state.bundle.value))
  {
    match ref.storage
    case External(key) => SegmentData(key) in store
    case Inline => true
    case FromManifest(manifest, bundle, _, carried) =>
      carried || (if bundle.Some? then InStoredBundle(w, store, bundle.value, manifest)
          else Resolvable(w, store, state, manifest))
  }

  predicate InStoredBundle(w: World, store: set<Object>, bundle: Key, manifest: Key) {
    BundleObject(bundle) in store && bundle in w.bundles && manifest in w.bundles[bundle].entries
  }

  /** `findBundlePath`: the bundles a later search passes through; nothing if it cannot be told. */
  method FindBundlePath(w: World, store: set<Object>, state: State, manifest: Key) returns (r: Option<seq<Key>>)
    requires BundlesOk(w) && (state.bundle.Some? ==> RefOk(w, state.bundle.value))
    ensures r == BundlePath(w, store, state, manifest)
  {
    if manifest in state.inline { return Some([]); }
    var path: seq<Key> := [];
    var ref := state.bundle;
    while ref.Some?
      invariant ref.Some? ==> RefOk(w, ref.value)
      invariant var whole, rest := Search(w, store, state.bundle, manifest), Search(w, store, ref, manifest);
                whole == if rest.Hit? then Hit(path + rest.path) else rest
      decreases if ref.Some? then ref.value.last + 1 else 0
    {
      if BundleObject(ref.value.key) !in store { return None; }
      var b := w.bundles[ref.value.key];
      assert BundleOk(w, b);
      ghost var front, rest := path, Search(w, store, b.parent, manifest);
      path := path + [ref.value.key];
      if manifest in b.entries { return Some(path); }
      assert rest.Hit? ==> front + ([ref.value.key] + rest.path) == path + rest.path;
      ref := b.parent;
    }
    return Some([]);
  }

  function BundlePath(w: World, store: set<Object>, state: State, manifest: Key): Option<seq<Key>>
    requires BundlesOk(w) && (state.bundle.Some? ==> RefOk(w, state.bundle.value))
  {
    if manifest in state.inline then Some([])
    else
      match Search(w, store, state.bundle, manifest)
      case Hit(path) => Some(path)
      case Miss => Some([])
      case Broken => None
  }

  // ----- What is kept -----

  ghost predicate KeptByRef(w: World, store: set<Object>, state: State, ref: ObjectRef, o: Object)
    requires BundlesOk(w) && (state.bundle.Some? ==> RefOk(w, state.bundle.value))
  {
    match ref.storage
    case External(key) => o == SegmentData(key)
    case Inline => false
    case FromManifest(manifest, bundle, _, carried) =>
      || o == ManifestObject(manifest)
      || (bundle.Some? && o == BundleObject(bundle.value))
      || (bundle.None? && !carried && o.BundleObject? && o.key in PathKeys(BundlePath(w, store, state, manifest)))
  }

  function PathKeys(path: Option<seq<Key>>): seq<Key> { if path.Some? then path.value else [] }

  ghost predicate KeptBySegments(w: World, store: set<Object>, state: State, segments: seq<ObjectRef>, o: Object)
    requires BundlesOk(w) && (state.bundle.Some? ==> RefOk(w, state.bundle.value))
  {
    exists i :: 0 <= i < |segments| && KeptByRef(w, store, state, segments[i], o)
  }

  ghost predicate KeptBy(w: World, store: set<Object>, state: State, entry: Entry, o: Object)
    requires BundlesOk(w) && (state.bundle.Some? ==> RefOk(w, state.bundle.value))
  {
    || o == ManifestObject(entry.key)
    || (entry.bundle.Some? && o == BundleObject(entry.bundle.value))
    || KeptBySegments(w, store, state, entry.segments, o)
  }

  ghost predicate KeptByAny(w: World, store: set<Object>, state: State, entries: seq<Entry>, o: Object)
    requires BundlesOk(w) && (state.bundle.Some? ==> RefOk(w, state.bundle.value))
  {
    exists n :: 0 <= n < |entries| && KeptBy(w, store, state, entries[n], o)
  }

  ghost predicate RefLocated(w: World, store: set<Object>, state: State, ref: ObjectRef)
    requires BundlesOk(w) && (state.bundle.Some? ==> RefOk(w, state.bundle.value))
  {
    ref.storage.FromManifest? && ref.storage.bundle.None? && !ref.storage.carried ==>
      BundlePath(w, store, state, ref.storage.manifest).Some?
  }

  ghost predicate AllLocated(w: World, store: set<Object>, state: State, entries: seq<Entry>)
    requires BundlesOk(w) && (state.bundle.Some? ==> RefOk(w, state.bundle.value))
  {
    forall n, i :: 0 <= n < |entries| && 0 <= i < |entries[n].segments| ==>
      RefLocated(w, store, state, entries[n].segments[i])
  }

  /** What one reference keeps; nothing when its source cannot be located. */
  method KeepRef(w: World, store: set<Object>, state: State, ref: ObjectRef) returns (keep: Option<set<Object>>)
    requires BundlesOk(w) && (state.bundle.Some? ==> RefOk(w, state.bundle.value))
    ensures keep.Some? <==> RefLocated(w, store, state, ref)
    ensures keep.Some? ==> forall o :: o in keep.value <==> KeptByRef(w, store, state, ref, o)
  {
    match ref.storage {
      case External(key) => keep := Some({SegmentData(key)});
      case Inline => keep := Some({});
      case FromManifest(manifest, bundle, _, carried) =>
        var objects := {ManifestObject(manifest)} + (if bundle.Some? then {BundleObject(bundle.value)} else {});
        if bundle.None? && !carried {
          var path := FindBundlePath(w, store, state, manifest);
          if path.None? { return None; }
          objects := objects + set k | k in path.value :: BundleObject(k);
        }
        keep := Some(objects);
    }
  }

  /** What the segments of one manifest keep. */
  method KeepSegments(
    w: World, store: set<Object>, state: State, segments: seq<ObjectRef>)
    returns (keep: Option<set<Object>>)
    requires BundlesOk(w) && (state.bundle.Some? ==> RefOk(w, state.bundle.value))
    ensures keep.Some? <==> forall i :: 0 <= i < |segments| ==> RefLocated(w, store, state, segments[i])
    ensures keep.Some? ==> forall o :: o in keep.value <==> KeptBySegments(w, store, state, segments, o)
  {
    var objects: set<Object> := {};
    for i := 0 to |segments|
      invariant forall j :: 0 <= j < i ==> RefLocated(w, store, state, segments[j])
      invariant forall o :: o in objects <==> exists j :: 0 <= j < i && KeptByRef(w, store, state, segments[j], o)
    {
      var one := KeepRef(w, store, state, segments[i]);
      if one.None? { return None; }
      objects := objects + one.value;
    }
    return Some(objects);
  }

  /** The mark phase of `collectGarbage`: what the retained entries need, and no more. */
  method KeepSet(w: World, store: set<Object>, state: State, entries: seq<Entry>) returns (keep: Option<set<Object>>)
    requires BundlesOk(w) && (state.bundle.Some? ==> RefOk(w, state.bundle.value))
    ensures keep.Some? <==> AllLocated(w, store, state, entries)
    ensures keep.Some? ==> forall o :: o in keep.value <==> KeptByAny(w, store, state, entries, o)
  {
    var objects: set<Object> := {};
    for n := 0 to |entries|
      invariant forall m, i :: 0 <= m < n && 0 <= i < |entries[m].segments| ==>
                RefLocated(w, store, state, entries[m].segments[i])
      invariant forall o :: o in objects <==> exists m :: 0 <= m < n && KeptBy(w, store, state, entries[m], o)
    {
      var entry := entries[n];
      var some := KeepSegments(w, store, state, entry.segments);
      if some.None? { return None; }
      objects := objects + {ManifestObject(entry.key)}
                 + (if entry.bundle.Some? then {BundleObject(entry.bundle.value)} else {}) + some.value;
    }
    return Some(objects);
  }

  /** How much of the history is retained: up to the newest checkpoint that is old enough, or all of it. */
  method KeepThrough(w: World, history: seq<Entry>, cutoff: nat) returns (count: nat)
    requires forall n :: 0 <= n < |history| ==> history[n].key in w.manifests
    ensures count <= |history| && (history != [] ==> count > 0)
    ensures count < |history| ==>
            history[count - 1].kind.Checkpoint? && w.manifests[history[count - 1].key].createdAt <= cutoff
    ensures forall n :: 0 <= n < count - 1 ==>
            !(history[n].kind.Checkpoint? && w.manifests[history[n].key].createdAt <= cutoff)
  {
    for i := 0 to |history|
      invariant forall n :: 0 <= n < i ==>
                !(history[n].kind.Checkpoint? && w.manifests[history[n].key].createdAt <= cutoff)
    {
      if history[i].kind.Checkpoint? && w.manifests[history[i].key].createdAt <= cutoff { return i + 1; }
    }
    return |history|;
  }

  // ----- Deleting what is not kept -----

  /** None of the bundles that reading a generation passes through is gone. */
  ghost predicate PathKept(w: World, gone: set<Object>, ref: Option<BundleRef>, generation: nat)
    requires BundlesOk(w) && (ref.Some? ==> RefOk(w, ref.value))
    decreases if ref.Some? then ref.value.last + 1 else 0
  {
    ref.None? || generation > ref.value.last ||
    (&& BundleObject(ref.value.key) !in gone
     && BundleOk(w, w.bundles[ref.value.key])
     && (generation < ref.value.first ==> PathKept(w, gone, w.bundles[ref.value.key].parent, generation)))
  }

  lemma {:induction false} WalkSurvives(
    w: World, store: set<Object>, gone: set<Object>, ref: Option<BundleRef>, key: Key, generation: nat)
    requires BundlesOk(w) && (ref.Some? ==> RefOk(w, ref.value)) && PathKept(w, gone, ref, generation)
    ensures Walk(w, store - gone, ref, key, generation) == Walk(w, store, ref, key, generation)
    decreases if ref.Some? then ref.value.last + 1 else 0
  {
    if ref.Some? && generation < ref.value.first {
      assert BundleOk(w, w.bundles[ref.value.key]);
      if generation <= ref.value.last {
        WalkSurvives(w, store, gone, w.bundles[ref.value.key].parent, key, generation);
      }
    }
  }

  /** Every generation from `lo` on can be read and nothing its manifest needs is gone. */
  ghost predicate KeptFrom(w: World, store: set<Object>, state: State, chain: seq<Key>, lo: nat, gone: set<Object>)
    requires Placed(w, chain, state)
  {
    forall i :: lo <= i < |chain| ==> KeptAt(w, store, state, chain[i], Reads(w, store, state, chain)[i], gone)
  }

  ghost predicate KeptAt(w: World, store: set<Object>, state: State, key: Key, read: Read, gone: set<Object>)
    requires BundlesOk(w) && (state.bundle.Some? ==> RefOk(w, state.bundle.value)) && key in w.manifests
  {
    && read.Found?
    && (forall o :: KeptBy(w, store, state, EntryOf(w, key, read.bundle), o) ==> o !in gone)
    && (forall n :: 0 <= n < |w.manifests[key].segments| ==> RefLocated(w, store, state, w.manifests[key].segments[n]))
  }

  /** The walk down to a bundle has passed only bundles of the chain that are present. */
  ghost predicate Reached(w: World, store: set<Object>, head: Option<BundleRef>, ref: Option<BundleRef>)
    requires BundlesOk(w) && (head.Some? ==> RefOk(w, head.value)) && (ref.Some? ==> RefOk(w, ref.value))
  {
    && (ref.Some? ==> head.Some? && ref.value.last <= head.value.last)
    && (forall key, g: nat {:trigger Walk(w, store, head, key, g)} ::
          ref.Some? && g <= ref.value.last ==> Walk(w, store, head, key, g) == Walk(w, store, ref, key, g))
  }

  /** A bundle that a read reached is the place of its own newest manifest, which is retained as well. */
  lemma ReachedIsKept(
    w: World, chain: seq<Key>, state: State, store: set<Object>, gone: set<Object>, lo: nat, ref: BundleRef)
    requires WorldOk(w, chain) && StateOk(w, chain, state) && KeptFrom(w, store, state, chain, lo, gone)
    requires RefOk(w, ref) && Reached(w, store, state.bundle, Some(ref)) && BundleObject(ref.key) in store
    requires lo < ref.last
    ensures BundleObject(ref.key) !in gone
  {
    var b := w.bundles[ref.key];
    assert BundleOk(w, b) && ContentOk(w, chain, b);
    var j := ref.last - 1;
    assert Walk(w, store, state.bundle, chain[j], ref.last) == Walk(w, store, Some(ref), chain[j], ref.last) ==
           InBundle(ref.key);
    assert chain[j] !in state.inline;
    var read := Reads(w, store, state, chain)[j];
    assert read == Found(Some(ref.key));
    assert KeptAt(w, store, state, chain[j], read, gone);
    assert KeptBy(w, store, state, EntryOf(w, chain[j], read.bundle), BundleObject(ref.key));
  }

  lemma {:induction false} PathIsKept(
    w: World, chain: seq<Key>, state: State, store: set<Object>, gone: set<Object>, lo: nat, i: nat,
    ref: Option<BundleRef>)
    requires WorldOk(w, chain) && StateOk(w, chain, state) && KeptFrom(w, store, state, chain, lo, gone)
    requires (ref.Some? ==> RefOk(w, ref.value)) && Reached(w, store, state.bundle, ref)
    requires lo <= i < |chain| && !Walk(w, store, ref, chain[i], i + 1).Missing?
    ensures PathKept(w, gone, ref, i + 1)
    decreases if ref.Some? then ref.value.last + 1 else 0
  {
    if ref.Some? && i + 1 <= ref.value.last {
      ReachedIsKept(w, chain, state, store, gone, lo, ref.value);
      var b := w.bundles[ref.value.key];
      assert BundleOk(w, b);
      if i + 1 < ref.value.first {
        ReachedParent(w, store, state.bundle, ref.value);
        PathIsKept(w, chain, state, store, gone, lo, i, b.parent);
      }
    }
  }

  lemma ReachedParent(w: World, store: set<Object>, head: Option<BundleRef>, ref: BundleRef)
    requires BundlesOk(w) && (head.Some? ==> RefOk(w, head.value)) && RefOk(w, ref)
    requires Reached(w, store, head, Some(ref)) && BundleObject(ref.key) in store
    ensures var parent := w.bundles[ref.key].parent;
            (parent.Some? ==> RefOk(w, parent.value)) && Reached(w, store, head, parent)
  {
    var b := w.bundles[ref.key];
    assert BundleOk(w, b);
    if b.parent.Some? {
      forall key, g: nat | g <= b.parent.value.last
        ensures Walk(w, store, head, key, g) == Walk(w, store, b.parent, key, g) {
        assert Walk(w, store, head, key, g) == Walk(w, store, Some(ref), key, g);
      }
    }
  }

  /** A retained manifest is found where it was before. */
  lemma ReadSurvives(w: World, chain: seq<Key>, state: State, store: set<Object>, gone: set<Object>, lo: nat, i: nat)
    requires WorldOk(w, chain) && StateOk(w, chain, state) && KeptFrom(w, store, state, chain, lo, gone)
    requires lo <= i < |chain|
    ensures ReadManifest(w, store - gone, state, chain[i], i + 1) == ReadManifest(w, store, state, chain[i], i + 1)
    ensures ReadManifest(w, store, state, chain[i], i + 1).Found?
  {
    var read := Reads(w, store, state, chain)[i];
    assert KeptAt(w, store, state, chain[i], read, gone);
    assert KeptBy(w, store, state, EntryOf(w, chain[i], read.bundle), ManifestObject(chain[i]));
    if chain[i] !in state.inline {
      PathIsKept(w, chain, state, store, gone, lo, i, state.bundle);
      WalkSurvives(w, store, gone, state.bundle, chain[i], i + 1);
    }
  }

  lemma {:induction false} SearchSurvives(
    w: World, store: set<Object>, gone: set<Object>, ref: Option<BundleRef>, manifest: Key)
    requires BundlesOk(w) && (ref.Some? ==> RefOk(w, ref.value)) && Search(w, store, ref, manifest).Hit?
    requires forall k :: k in Search(w, store, ref, manifest).path ==> BundleObject(k) !in gone
    ensures Search(w, store - gone, ref, manifest) == Search(w, store, ref, manifest)
    decreases if ref.Some? then ref.value.last + 1 else 0
  {
    var key, b := ref.value.key, w.bundles[ref.value.key];
    assert BundleOk(w, b);
    assert Search(w, store, ref, manifest).path[0] == key;
    if manifest !in b.entries {
      var rest := Search(w, store, b.parent, manifest);
      assert forall k :: k in rest.path ==> k in Search(w, store, ref, manifest).path;
      SearchSurvives(w, store, gone, b.parent, manifest);
    }
  }

  /** A segment that could be fetched still can be, if what its reference keeps is not gone. */
  lemma FetchSurvives(w: World, store: set<Object>, gone: set<Object>, state: State, ref: ObjectRef)
    requires BundlesOk(w) && (state.bundle.Some? ==> RefOk(w, state.bundle.value))
    requires Fetchable(w, store, state, ref) && RefLocated(w, store, state, ref)
    requires forall o :: KeptByRef(w, store, state, ref, o) ==> o !in gone
    ensures Fetchable(w, store - gone, state, ref)
  {
    match ref.storage
    case External(key) =>
      assert KeptByRef(w, store, state, ref, SegmentData(key));
    case Inline =>
    case FromManifest(manifest, bundle, _, carried) =>
      assert KeptByRef(w, store, state, ref, ManifestObject(manifest));
      if bundle.Some? {
        assert KeptByRef(w, store, state, ref, BundleObject(bundle.value));
      } else if !carried && manifest !in state.inline {
        var hunt := Search(w, store, state.bundle, manifest);
        if hunt.Hit? {
          forall k | k in hunt.path ensures BundleObject(k) !in gone {
            assert KeptByRef(w, store, state, ref, BundleObject(k));
          }
          SearchSurvives(w, store, gone, state.bundle, manifest);
        }
      }
  }

  // ----- What a generation restores to -----

  /** Segment `i` of manifest `n` holds the newest content of some block. */
  ghost predicate Needed(es: seq<Entry>, n: nat, i: nat)
    requires n < |es| && i < |es[n].segments|
  {
    exists b: nat ::
      Covers(es[n].segments[i].extents, b) && !Covers(es[n].segments[i].zeroExtents, b) && !TouchedBy(es[..n], b)
  }

  ghost predicate AllFetchable(w: World, store: set<Object>, state: State, es: seq<Entry>)
    requires BundlesOk(w) && (state.bundle.Some? ==> RefOk(w, state.bundle.value))
  {
    forall n, i :: 0 <= n < |es| && 0 <= i < |es[n].segments| && Needed(es, n, i) ==>
      Fetchable(w, store, state, es[n].segments[i])
  }

  ghost function ImageOf(contents: Contents, es: seq<Entry>, blocks: nat): Image {
    seq(blocks, b requires 0 <= b < blocks => Fetch(contents, Newest(es, b), b))
  }

  /**
   The image generation `g` restores to, or none when it has too many deltas or a manifest or needed
   segment cannot be had.
   */
  ghost function Restored(
    contents: Contents, blocks: nat, w: World, store: set<Object>, state: State, chain: seq<Key>, g: nat): Option<Image>
    requires Placed(w, chain, state) && g <= |chain|
  {
    var walk := LimitedWalk(w, chain, Reads(w, store, state, chain), g);
    if walk.Some? && AllFetchable(w, store, state, walk.value) then Some(ImageOf(contents, walk.value, blocks))
        else None
  }

  /** The retained part of a history ends at generation one, at a checkpoint, or where nothing can be read. */
  ghost predicate Boundary(w: World, chain: seq<Key>, seen: seq<Read>, lo: nat)
    requires ChainOk(w, chain) && |chain| == |seen|
  {
    lo == 0 || (lo < |chain| && w.manifests[chain[lo]].kind.Checkpoint?) || (lo <= |chain| && seen[lo - 1].NotFound?)
  }

  /** An entry of a restore is a retained manifest. */
  ghost predicate FromKept(w: World, chain: seq<Key>, seen: seq<Read>, lo: nat, entry: Entry)
    requires |chain| == |seen|
  {
    exists i :: lo <= i < |chain| && IsRead(w, chain, seen, i, entry)
  }

  /** A restore never looks below the retained part of the history. */
  lemma {:induction false} RestoreStaysAbove(
    w: World, chain: seq<Key>, seen: seq<Read>, after: seq<Read>, lo: nat, g: nat)
    requires ChainOk(w, chain) && lo < g <= |chain| == |seen| == |after|
    requires Boundary(w, chain, seen, lo) && RestoreWalk(w, chain, seen, g).Some?
    requires forall i :: lo <= i < |chain| ==> after[i] == seen[i]
    ensures RestoreWalk(w, chain, after, g) == RestoreWalk(w, chain, seen, g)
    ensures forall n :: 0 <= n < |RestoreWalk(w, chain, seen, g).value| ==>
              FromKept(w, chain, seen, lo, RestoreWalk(w, chain, seen, g).value[n])
  {
    var entry := EntryOf(w, chain[g - 1], seen[g - 1].bundle);
    assert IsRead(w, chain, seen, g - 1, entry);
    assert FromKept(w, chain, seen, lo, entry);
    if entry.kind.Delta? && g - 1 > lo {
      RestoreStaysAbove(w, chain, seen, after, lo, g - 1);
    }
  }

  lemma EntrySurvives(
    w: World, chain: seq<Key>, state: State, store: set<Object>, gone: set<Object>, lo: nat, entry: Entry, n: nat)
    requires Placed(w, chain, state) && KeptFrom(w, store, state, chain, lo, gone)
    requires FromKept(w, chain, Reads(w, store, state, chain), lo, entry) && n < |entry.segments|
    requires Fetchable(w, store, state, entry.segments[n])
    ensures Fetchable(w, store - gone, state, entry.segments[n])
  {
    var i :| lo <= i < |chain| && IsRead(w, chain, Reads(w, store, state, chain), i, entry);
    assert KeptAt(w, store, state, chain[i], Reads(w, store, state, chain)[i], gone);
    var ref := entry.segments[n];
    forall o | KeptByRef(w, store, state, ref, o) ensures o !in gone {
      assert KeptBySegments(w, store, state, entry.segments, o);
      assert KeptBy(w, store, state, entry, o);
    }
    FetchSurvives(w, store, gone, state, ref);
  }

  /** A retained restore walks the same manifests, all of them retained. */
  lemma RestoreSurvives(
    w: World, chain: seq<Key>, state: State, store: set<Object>, gone: set<Object>, lo: nat, g: nat)
    requires WorldOk(w, chain) && StateOk(w, chain, state) && KeptFrom(w, store, state, chain, lo, gone)
    requires Boundary(w, chain, Reads(w, store, state, chain), lo) && lo < g <= |chain|
    requires RestoreWalk(w, chain, Reads(w, store, state, chain), g).Some?
    ensures var seen, after := Reads(w, store, state, chain), Reads(w, store - gone, state, chain);
            && RestoreWalk(w, chain, after, g) == RestoreWalk(w, chain, seen, g)
            && (forall n :: 0 <= n < |RestoreWalk(w, chain, seen, g).value| ==>
                  FromKept(w, chain, seen, lo, RestoreWalk(w, chain, seen, g).value[n]))
  {
    var seen, after := Reads(w, store, state, chain), Reads(w, store - gone, state, chain);
    forall i | lo <= i < |chain| ensures after[i] == seen[i] {
      ReadSurvives(w, chain, state, store, gone, lo, i);
    }
    RestoreStaysAbove(w, chain, seen, after, lo, g);
  }

  /**
   Garbage collection preserves meaning: whatever part of the objects outside
   the keep set is gone, a retained generation that could be restored restores
   to the same image.
   */
  lemma CollectPreservesImages(
    contents: Contents, blocks: nat, w: World, chain: seq<Key>, state: State, store: set<Object>, gone: set<Object>,
    lo: nat, g: nat)
    requires WorldOk(w, chain) && StateOk(w, chain, state) && KeptFrom(w, store, state, chain, lo, gone)
    requires Boundary(w, chain, Reads(w, store, state, chain), lo) && lo < g <= |chain|
    requires Restored(contents, blocks, w, store, state, chain, g).Some?
    ensures Restored(contents, blocks, w, store - gone, state, chain, g) ==
            Restored(contents, blocks, w, store, state, chain, g)
  {
    RestoreSurvives(w, chain, state, store, gone, lo, g);
    EntriesSurvive(w, chain, state, store, gone, lo, RestoreWalk(w, chain, Reads(w, store, state, chain), g).value);
  }

  lemma EntriesSurvive(
    w: World, chain: seq<Key>, state: State, store: set<Object>, gone: set<Object>, lo: nat, es: seq<Entry>)
    requires Placed(w, chain, state) && KeptFrom(w, store, state, chain, lo, gone) && AllFetchable(w, store, state, es)
    requires forall n :: 0 <= n < |es| ==> FromKept(w, chain, Reads(w, store, state, chain), lo, es[n])
    ensures AllFetchable(w, store - gone, state, es)
  {
    forall n, i | 0 <= n < |es| && 0 <= i < |es[n].segments| && Needed(es, n, i)
      ensures Fetchable(w, store - gone, state, es[n].segments[i])
    {
      EntrySurvives(w, chain, state, store, gone, lo, es[n], i);
    }
  }

  // ----- Collecting -----

  /** A garbage record lists at most this many objects. */
  const RECORD_LIMIT: nat := 1000

  /** A record of objects that were garbage when it was written. */
  datatype Record = Record(createdAt: nat, objects: seq<Object>)

  function Where(read: Read): Option<Key> { if read.Found? then read.bundle else None }

  ghost predicate OldCheckpoint(w: World, key: Key, cutoff: nat) {
    key in w.manifests && w.manifests[key].kind.Checkpoint? && w.manifests[key].createdAt <= cutoff
  }

  ghost predicate CheckpointFrom(w: World, chain: seq<Key>, lo: nat)
    requires ChainOk(w, chain)
  {
    exists i :: lo <= i < |chain| && w.manifests[chain[i]].kind.Checkpoint?
  }

  /**
   The lowest position that is retained. Everything from it on can be read; it
   is the newest checkpoint that is old enough or, if there is none, the end of
   what can be read, which lies behind some checkpoint.
   */
  ghost predicate IsFloor(w: World, chain: seq<Key>, seen: seq<Read>, cutoff: nat, lo: nat)
    requires ChainOk(w, chain) && |chain| == |seen|
  {
    && lo <= |chain| && (chain != [] ==> lo < |chain|)
    && (forall i :: lo <= i < |chain| ==> seen[i].Found?)
    && (forall i :: lo < i < |chain| ==> !OldCheckpoint(w, chain[i], cutoff))
    && (|| lo == 0
        || (lo < |chain| && OldCheckpoint(w, chain[lo], cutoff))
        || (seen[lo - 1].NotFound? && CheckpointFrom(w, chain, lo)))
  }

  /** There is one floor at most. */
  lemma FloorUnique(w: World, chain: seq<Key>, seen: seq<Read>, cutoff: nat, lo: nat, other: nat)
    requires ChainOk(w, chain) && |chain| == |seen| && IsFloor(w, chain, seen, cutoff, lo)
    requires IsFloor(w, chain, seen, cutoff, other)
    ensures lo == other
  {
  }

  /** The source of every reference of the retained manifests can be located. */
  ghost predicate LocatedFrom(w: World, store: set<Object>, state: State, chain: seq<Key>, lo: nat)
    requires Placed(w, chain, state)
  {
    forall i, n :: lo <= i < |chain| && 0 <= n < |w.manifests[chain[i]].segments| ==>
      RefLocated(w, store, state, w.manifests[chain[i]].segments[n])
  }

  /** Some retained manifest needs the object. */
  ghost predicate Retained(w: World, store: set<Object>, state: State, chain: seq<Key>, lo: nat, o: Object)
    requires Placed(w, chain, state)
  {
    exists i :: lo <= i < |chain| &&
        KeptBy(w, store, state, EntryOf(w, chain[i], Where(Reads(w, store, state, chain)[i])), o)
  }

  /** Whether the mark phase succeeds. */
  ghost predicate Markable(w: World, store: set<Object>, state: State, chain: seq<Key>, cutoff: nat)
    requires Placed(w, chain, state)
  {
    var seen := Reads(w, store, state, chain);
    !TooLong(chain, seen) &&
        exists lo: nat :: IsFloor(w, chain, seen, cutoff, lo) && LocatedFrom(w, store, state, chain, lo)
  }

  /** Deleting what no retained manifest needs is enough for `KeptFrom`. */
  lemma UnneededMayGo(
    w: World, chain: seq<Key>, state: State, store: set<Object>, cutoff: nat, lo: nat, gone: set<Object>)
    requires Placed(w, chain, state) && IsFloor(w, chain, Reads(w, store, state, chain), cutoff, lo)
    requires LocatedFrom(w, store, state, chain, lo) &&
             forall o :: o in gone ==> !Retained(w, store, state, chain, lo, o)
    ensures KeptFrom(w, store, state, chain, lo, gone) && Boundary(w, chain, Reads(w, store, state, chain), lo)
  {
  }

  /** Position `n` of the history is position `|chain| - 1 - n` of the chain. */
  lemma HistoryFloor(w: World, chain: seq<Key>, seen: seq<Read>, history: seq<Entry>, count: nat, cutoff: nat)
    requires |chain| == |seen| && ChainOk(w, chain) && IsLoaded(w, chain, seen, Some(history))
    requires count <= |history| && (history != [] ==> count > 0)
    requires count < |history| ==> OldCheckpoint(w, history[count - 1].key, cutoff)
    requires forall n :: 0 <= n < count - 1 ==> !OldCheckpoint(w, history[n].key, cutoff)
    ensures IsFloor(w, chain, seen, cutoff, |chain| - count)
  {
    var lo := |chain| - count;
    forall i | lo <= i < |chain| ensures seen[i].Found? && (i > lo ==> !OldCheckpoint(w, chain[i], cutoff)) {
      var n := |chain| - 1 - i;
      assert IsRead(w, chain, seen, |chain| - 1 - n, history[n]);
    }
    if count < |history| {
      assert IsRead(w, chain, seen, |chain| - 1 - (count - 1), history[count - 1]);
    } else if count < |chain| {
      var n :| 0 <= n < |history| && history[n].kind.Checkpoint?;
      assert IsRead(w, chain, seen, |chain| - 1 - n, history[n]);
      assert w.manifests[chain[|chain| - 1 - n]].kind.Checkpoint?;
    }
  }

  /** A history that cannot be loaded has no floor. */
  lemma StuckHasNoFloor(w: World, chain: seq<Key>, seen: seq<Read>, cutoff: nat, depth: nat, lo: nat)
    requires |chain| == |seen| && ChainOk(w, chain) && depth < |chain| && IsStuck(w, chain, seen, depth)
    ensures !IsFloor(w, chain, seen, cutoff, lo)
  {
  }

  /** The kept part of a history and the chain from its floor on need the same objects. */
  lemma HistoryNeeds(
    w: World, chain: seq<Key>, state: State, store: set<Object>, history: seq<Entry>, count: nat, o: Object)
    requires Placed(w, chain, state) && IsHistory(w, chain, Reads(w, store, state, chain), history)
    requires count <= |history|
    ensures KeptByAny(w, store, state, history[..count], o) <==> Retained(w, store, state, chain, |chain| - count, o)
  {
    var seen := Reads(w, store, state, chain);
    if KeptByAny(w, store, state, history[..count], o) {
      var n :| 0 <= n < count && KeptBy(w, store, state, history[..count][n], o);
      EntryIs(w, chain, seen, history, |chain| - 1 - n, n);
    }
    if Retained(w, store, state, chain, |chain| - count, o) {
      var i :| |chain| - count <= i < |chain| && KeptBy(w, store, state, EntryOf(w, chain[i], Where(seen[i])), o);
      EntryIs(w, chain, seen, history, i, |chain| - 1 - i);
      assert KeptBy(w, store, state, history[..count][|chain| - 1 - i], o);
    }
  }

  lemma EntryIs(w: World, chain: seq<Key>, seen: seq<Read>, history: seq<Entry>, i: nat, n: nat)
    requires |chain| == |seen| && IsHistory(w, chain, seen, history) && n < |history| && i == |chain| - 1 - n
    ensures chain[i] in w.manifests && history[n] == EntryOf(w, chain[i], Where(seen[i]))
  {
    assert IsRead(w, chain, seen, |chain| - 1 - n, history[n]);
  }

  lemma HistoryLocated(w: World, chain: seq<Key>, state: State, store: set<Object>, history: seq<Entry>, count: nat)
    requires Placed(w, chain, state) && IsHistory(w, chain, Reads(w, store, state, chain), history)
    requires count <= |history|
    ensures AllLocated(w, store, state, history[..count]) <==> LocatedFrom(w, store, state, chain, |chain| - count)
  {
    var seen, kept := Reads(w, store, state, chain), history[..count];
    forall n | 0 <= n < count ensures kept[n].segments == w.manifests[chain[|chain| - 1 - n]].segments {
      assert IsRead(w, chain, seen, |chain| - 1 - n, history[n]);
    }
    if AllLocated(w, store, state, kept) {
      forall i, m | |chain| - count <= i < |chain| && 0 <= m < |w.manifests[chain[i]].segments|
        ensures RefLocated(w, store, state, w.manifests[chain[i]].segments[m])
      {
        var n := |chain| - 1 - i;
        assert kept[n].segments == w.manifests[chain[|chain| - 1 - n]].segments;
        assert RefLocated(w, store, state, kept[n].segments[m]);
      }
    }
  }

  /**
   The mark phase of `collectGarbage`. It fails exactly when the history or a
   source cannot be read; otherwise it keeps exactly what the manifests from the
   floor on need.
   */
  method Mark(w: World, store: set<Object>, state: State, ghost chain: seq<Key>, cutoff: nat)
    returns (keep: Option<set<Object>>, ghost lo: nat)
    requires Placed(w, chain, state)
    ensures keep.Some? <==> Markable(w, store, state, chain, cutoff)
    ensures keep.Some? ==>
            IsFloor(w, chain, Reads(w, store, state, chain), cutoff, lo) && LocatedFrom(w, store, state, chain, lo)
    ensures keep.Some? ==> forall o :: o in keep.value <==> Retained(w, store, state, chain, lo, o)
  {
    ghost var seen := Reads(w, store, state, chain);
    lo := |chain|;
    var loaded := LoadHistory(w, store, state, chain);
    if loaded.None? {
      if !TooLong(chain, seen) {
        ghost var depth: nat :| depth < |chain| && IsStuck(w, chain, seen, depth);
        forall other: nat
          ensures !IsFloor(w, chain, seen, cutoff, other) { StuckHasNoFloor(w, chain, seen, cutoff, depth, other); }
      }
      return None, lo;
    }
    var history := loaded.value;
    assert forall n :: 0 <= n < |history| ==> IsRead(w, chain, seen, |chain| - 1 - n, history[n]);
    var count := KeepThrough(w, history, cutoff);
    lo := |chain| - count;
    HistoryFloor(w, chain, seen, history, count, cutoff);
    HistoryLocated(w, chain, state, store, history, count);
    forall other: nat | IsFloor(w, chain, seen, cutoff, other)
      ensures other == lo { FloorUnique(w, chain, seen, cutoff, lo, other); }
    forall o ensures KeptByAny(w, store, state, history[..count], o) <==> Retained(w, store, state, chain, lo, o) {
      HistoryNeeds(w, chain, state, store, history, count, o);
    }
    keep := KeepSet(w, store, state, history[..count]);
  }

  ghost predicate Expired(records: seq<Record>, now: nat, grace: nat, o: Object) {
    exists n :: 0 <= n < |records| && records[n].createdAt + grace <= now && o in records[n].objects
  }

  /** The objects of a record that are not kept, in order. */
  function Unkept(objects: seq<Object>, keep: set<Object>): (r: seq<Object>)
    ensures forall o :: o in r <==> o in objects && o !in keep
  {
    if objects == [] then []
    else
      var front, last := Unkept(objects[..|objects| - 1], keep), objects[|objects| - 1];
      if last in keep then front else front + [last]
  }

  /** What the sweep deletes if nothing stops it, in order: the unkept objects of the records that are old enough. */
  function Victims(records: seq<Record>, keep: set<Object>, now: nat, grace: nat): (r: seq<Object>)
    ensures forall o :: o in r <==> o !in keep && Expired(records, now, grace, o)
  {
    if records == [] then []
    else
      var front, last := Victims(records[..|records| - 1], keep, now, grace), records[|records| - 1];
      if last.createdAt + grace <= now then front + Unkept(last.objects, keep) else front
  }

  function First(objects: seq<Object>, n: nat): (r: set<Object>)
    ensures forall o :: o in r ==> o in objects
    ensures n >= |objects| ==> forall o :: o in objects ==> o in r
  {
    if n >= |objects| then set o | o in objects else set o | o in objects[..n]
  }

  /** The records that are not old enough to be swept. */
  function Unexpired(records: seq<Record>, now: nat, grace: nat): seq<Record> {
    if records == [] then []
    else
      var front, last := Unexpired(records[..|records| - 1], now, grace), records[|records| - 1];
      if last.createdAt + grace <= now then front else front + [last]
  }

  /** What is left of the records once those in front of position `n` were swept. */
  function LeftFrom(records: seq<Record>, now: nat, grace: nat, n: nat): seq<Record>
    requires n <= |records|
  {
    Unexpired(records[..n], now, grace) + records[n..]
  }

  /** A sweep stopped at a record: all victims in front of it are gone, not all of its own. */
  ghost predicate StoppedAt(records: seq<Record>, keep: set<Object>, now: nat, grace: nat, budget: nat, n: nat) {
    && n < |records| && records[n].createdAt + grace <= now
    && |Victims(records[..n], keep, now, grace)| <= budget < |Victims(records[..n + 1], keep, now, grace)|
  }

  /**
   The sweep of `collectGarbage` over the records of earlier collections. It may
   stop after any deletion (`budget`): the lease is lost, the call is cancelled
   or the store fails. It deletes the first victims and the records it is done
   with, all expired ones if it finishes.
   */
  method Sweep(store: set<Object>, keep: set<Object>, records: seq<Record>, now: nat, grace: nat, budget: nat)
    returns (rest: set<Object>, left: seq<Record>, finished: bool)
    ensures rest == store - First(Victims(records, keep, now, grace), budget)
    ensures finished <==> |Victims(records, keep, now, grace)| <= budget
    ensures finished ==> left == Unexpired(records, now, grace)
    ensures !finished ==>
              exists n :: StoppedAt(records, keep, now, grace, budget, n) && left == LeftFrom(records, now, grace, n)
  {
    var deleted: seq<Object> := [];
    left := [];
    assert records[..|records|] == records;
    for n := 0 to |records|
      invariant deleted == Victims(records[..n], keep, now, grace) && |deleted| <= budget
      invariant left == Unexpired(records[..n], now, grace)
    {
      VictimsPrefix(records, keep, now, grace, n + 1);
      assert records[..n + 1][..n] == records[..n];
      if records[n].createdAt + grace <= now {
        ghost var before := deleted;
        var stopped;
        deleted, stopped := SweepRecord(deleted, records[n].objects, keep, budget);
        if stopped {
          FirstIsPrefix(Victims(records[..n + 1], keep, now, grace), Victims(records, keep, now, grace), deleted);
          assert StoppedAt(records, keep, now, grace, budget, n);
          return store - (set o | o in deleted), left + records[n..], false;
        }
      } else {
        left := left + [records[n]];
      }
    }
    return store - (set o | o in deleted), left, true;
  }

  /** The deletions of one record, behind those made before. */
  method SweepRecord(
    before: seq<Object>, objects: seq<Object>, keep: set<Object>, budget: nat)
    returns (deleted: seq<Object>, stopped: bool)
    requires |before| <= budget
    ensures |deleted| <= budget
    ensures !stopped ==> deleted == before + Unkept(objects, keep)
    ensures stopped ==> |deleted| == budget && deleted < before + Unkept(objects, keep)
  {
    deleted := before;
    assert before + Unkept(objects[..0], keep) == before;
    for i := 0 to |objects|
      invariant deleted == before + Unkept(objects[..i], keep) && |deleted| <= budget
    {
      assert objects[..i + 1][..i] == objects[..i];
      if objects[i] !in keep {
        if |deleted| == budget {
          UnkeptPrefix(objects, keep, i + 1);
          return deleted, true;
        }
        deleted := deleted + [objects[i]];
      }
    }
    assert objects[..|objects|] == objects;
    return deleted, false;
  }

  lemma FirstIsPrefix(some: seq<Object>, all: seq<Object>, deleted: seq<Object>)
    requires deleted < some <= all
    ensures First(all, |deleted|) == (set o | o in deleted) && |all| > |deleted|
  {
    assert all[..|deleted|] == deleted;
  }

  lemma {:induction false} VictimsPrefix(records: seq<Record>, keep: set<Object>, now: nat, grace: nat, n: nat)
    requires n <= |records|
    ensures Victims(records[..n], keep, now, grace) <= Victims(records, keep, now, grace)
  {
    if n < |records| {
      VictimsPrefix(records[..|records| - 1], keep, now, grace, n);
      assert records[..|records| - 1][..n] == records[..n];
    } else {
      assert records[..n] == records;
    }
  }

  lemma {:induction false} UnkeptPrefix(objects: seq<Object>, keep: set<Object>, n: nat)
    requires n <= |objects|
    ensures Unkept(objects[..n], keep) <= Unkept(objects, keep)
  {
    if n < |objects| {
      UnkeptPrefix(objects[..|objects| - 1], keep, n);
      assert objects[..|objects| - 1][..n] == objects[..n];
    } else {
      assert objects[..n] == objects;
    }
  }

  function AllObjects(records: seq<Record>): (r: set<Object>)
    ensures forall o :: o in r <==> exists n :: 0 <= n < |records| && o in records[n].objects
  {
    set n, o | 0 <= n < |records| && o in records[n].objects :: o
  }

  /** New garbage: present, unneeded and not yet marked. */
  function NewGarbage(store: set<Object>, keep: set<Object>, records: seq<Record>): set<Object> {
    store - keep - AllObjects(records)
  }

  /** The new records: at most 1000 objects each, together exactly the new garbage. */
  method NewRecords(marked: set<Object>, now: nat) returns (records: seq<Record>)
    ensures forall n :: 0 <= n < |records| ==> records[n].createdAt == now && 0 < |records[n].objects| <= RECORD_LIMIT
    ensures AllObjects(records) == marked
  {
    records := [];
    var left := marked;
    while left != {}
      invariant left <= marked && AllObjects(records) == marked - left
      invariant forall n :: 0 <= n < |records| ==>
                records[n].createdAt == now && 0 < |records[n].objects| <= RECORD_LIMIT
      decreases |left|
    {
      var batch, rest := TakeObjects(left);
      RecordAdded(records, Record(now, batch));
      records := records + [Record(now, batch)];
      left := rest;
    }
  }

  method TakeObjects(left: set<Object>) returns (batch: seq<Object>, rest: set<Object>)
    requires left != {}
    ensures 0 < |batch| <= RECORD_LIMIT && |rest| < |left| && forall o :: o in left <==> o in batch || o in rest
    ensures forall o :: o in batch ==> o !in rest
  {
    batch, rest := [], left;
    while rest != {} && |batch| < RECORD_LIMIT
      invariant |batch| <= RECORD_LIMIT && |batch| + |rest| == |left|
      invariant forall o :: o in left <==> o in batch || o in rest
      invariant forall o :: o in batch ==> o !in rest
      decreases |rest|
    {
      var o :| o in rest;
      batch, rest := batch + [o], rest - {o};
    }
  }

  lemma RecordAdded(records: seq<Record>, record: Record)
    ensures forall o :: o in AllObjects(records + [record]) <==> o in AllObjects(records) || o in record.objects
  {
    var more := records + [record];
    assert more[|records|] == record;
    forall o | o in AllObjects(records) ensures o in AllObjects(more) {
      var n :| 0 <= n < |records| && o in records[n].objects;
      assert o in more[n].objects;
    }
  }

  /**
   One whole collection. If marking fails nothing is deleted or marked.
   Otherwise exactly the manifests from the floor on are retained, the head
   among them; only expired objects that none of them needs are deleted, in
   order, until the sweep is stopped, and the records it is done with; new
   garbage is recorded if it is not; and every retained generation restores to
   what it did.
   */
  method CollectGarbage(
    w: World, store: set<Object>, state: State, ghost chain: seq<Key>, ghost contents: Contents, ghost blocks: nat,
    cutoff: nat, records: seq<Record>, now: nat, grace: nat, budget: nat
  ) returns (keep: Option<set<Object>>, rest: set<Object>, left: seq<Record>, added: seq<Record>, ghost lo: nat)
    requires WorldOk(w, chain) && StateOk(w, chain, state)
    ensures keep.Some? <==> Markable(w, store, state, chain, cutoff)
    ensures keep.None? ==> rest == store && left == records && added == []
    ensures keep.Some? ==> IsFloor(w, chain, Reads(w, store, state, chain), cutoff, lo)
    ensures keep.Some? ==> LocatedFrom(w, store, state, chain, lo)
    ensures keep.Some? ==> forall o :: o in keep.value <==> Retained(w, store, state, chain, lo, o)
    ensures keep.Some? ==> rest == store - First(Victims(records, keep.value, now, grace), budget)
    ensures keep.Some? ==>
              var finished := |Victims(records, keep.value, now, grace)| <= budget;
              && (finished ==> left == Unexpired(records, now, grace))
              && (!finished ==>
                    exists n ::
                      && StoppedAt(records, keep.value, now, grace, budget, n)
                      && left == LeftFrom(records, now, grace, n))
              && AllObjects(added) == (if finished then NewGarbage(store, keep.value, records) else {})
    ensures forall n :: 0 <= n < |added| ==> added[n].createdAt == now && 0 < |added[n].objects| <= RECORD_LIMIT
    ensures keep.Some? ==>
              forall g :: lo < g <= |chain| && Restored(contents, blocks, w, store, state, chain, g).Some? ==>
                Restored(contents, blocks, w, rest, state, chain, g) ==
                Restored(contents, blocks, w, store, state, chain, g)
  {
    keep, lo := Mark(w, store, state, chain, cutoff);
    if keep.None? { return None, store, records, [], 0; }
    var finished;
    rest, left, finished := Sweep(store, keep.value, records, now, grace, budget);
    added := NewRecords(if finished then NewGarbage(store, keep.value, records) else {}, now);
    ghost var gone := First(Victims(records, keep.value, now, grace), budget);
    UnneededMayGo(w, chain, state, store, cutoff, lo, gone);
    forall g | lo < g <= |chain| && Restored(contents, blocks, w, store, state, chain, g).Some?
      ensures Restored(contents, blocks, w, rest, state, chain, g) ==
              Restored(contents, blocks, w, store, state, chain, g)
    {
      CollectPreservesImages(contents, blocks, w, chain, state, store, gone, lo, g);
    }
  }
}
