/**
 What restoring yields (internal/replica/remote.go: `restoreManifests`,
 `applyObjectRefs`, `PublishCheckpoint`, `applyManifestCommitLocked`;
 internal/replica/lazy.go: `Lease.PrepareLazyRestore`).

 Restoring walks back to the nearest checkpoint. What is restored equals folding
 every delta in order, and the plan a lease maintains incrementally names the
 same source for every block as the plan computed from scratch.
 */
module Restores {
  import opened Options
  import opened Extents
  import opened Images
  import opened RestorePlans

  // ----- Histories and what they denote -----

  /** Every reference names decoded content, and its zero extents tell the truth. */
  ghost predicate Truthful(contents: Contents, refs: seq<ObjectRef>, blocks: nat) {
    forall i :: 0 <= i < |refs| ==>
      && refs[i].digest in contents
      && Within(refs[i].extents, blocks)
      && (forall b: nat :: Covers(refs[i].extents, b) ==> b in contents[refs[i].digest])
      && (forall b: nat :: Covers(refs[i].zeroExtents, b) ==>
            b in contents[refs[i].digest] && contents[refs[i].digest][b] == 0)
  }

  ghost function Written(contents: Contents, refs: seq<ObjectRef>, image: Image): (r: Image)
    requires Truthful(contents, refs, |image|)
    ensures |r| == |image|
  {
    seq(|image|, b requires 0 <= b < |image| =>
      if Touches(refs, b) then contents[Owner(refs, b).digest][b] else image[b])
  }

  /** The manifests from the newest back to the nearest checkpoint (`restoreManifests`). */
  function RestoreChain(history: seq<Entry>): seq<Entry> {
    if history == [] then []
    else
      var last := history[|history| - 1];
      if last.kind.Checkpoint? then [last] else [last] + RestoreChain(history[..|history| - 1])
  }

  /** Histories that publishing produces: valid deltas, and checkpoints that restate a plan. */
  ghost predicate Built(contents: Contents, history: seq<Entry>, blocks: nat) {
    history == [] ||
    (var front, last := history[..|history| - 1], history[|history| - 1];
     && Built(contents, front, blocks)
     && Truthful(contents, last.segments, blocks)
     && (last.kind.Delta? ==> ValidRefs(last.segments))
     && (last.kind.Checkpoint? ==> IsPlanFor(last.segments, RestoreChain(front))))
  }

  /** The meaning of a history: every delta written over the zero image, in order. */
  ghost function Fold(contents: Contents, history: seq<Entry>, blocks: nat): (r: Image)
    requires Built(contents, history, blocks)
    ensures |r| == blocks
  {
    if history == [] then Blank(blocks, 0)
    else
      var front, last := history[..|history| - 1], history[|history| - 1];
      var before := Fold(contents, front, blocks);
      if last.kind.Delta? then Written(contents, last.segments, before) else before
  }

  /** The content a source has for a block; a block without a source is zero. */
  ghost function Fetch(contents: Contents, source: Option<Source>, b: nat): Data {
    if source.Some? && source.value.digest in contents && b in contents[source.value.digest]
    then contents[source.value.digest][b] else 0
  }

  lemma PlanHasNoInline(refs: seq<ObjectRef>, entry: Entry, b: nat)
    requires ValidPlan(refs) && entry.segments == refs
    ensures Names(Located(entry, true), b) == Names(refs, b)
  {
    assert Located(entry, true) == refs;
  }

  lemma NamesLocated(entry: Entry, i: nat, b: nat)
    requires ValidRefs(entry.segments) && i < |entry.segments| && Covers(entry.segments[i].extents, b)
    ensures Touches(entry.segments, b) && Owner(entry.segments, b) == entry.segments[i]
    ensures var names := Names(Located(entry, true), b);
            if Covers(entry.segments[i].zeroExtents, b) then names == None
            else names.Some? && names.value.digest == entry.segments[i].digest
  {
    OwnerIs(entry.segments, i, b);
    LocatedValid(entry, true);
    OwnerIs(Located(entry, true), i, b);
    assert SourceOf(Located(entry, true)[i]).digest == entry.segments[i].digest;
  }

  lemma FetchWritten(contents: Contents, entry: Entry, before: Image, b: nat)
    requires ValidRefs(entry.segments) && Truthful(contents, entry.segments, |before|)
    requires b < |before| && Touches(entry.segments, b)
    ensures Fetch(contents, Names(Located(entry, true), b), b) == Written(contents, entry.segments, before)[b]
  {
    var i :| 0 <= i < |entry.segments| && Covers(entry.segments[i].extents, b);
    NamesLocated(entry, i, b);
  }

  /**
   Restoring from the nearest checkpoint finds, for every block, what folding
   all deltas of the history leaves there.
   */
  lemma {:induction false} RestoreMeansFold(contents: Contents, history: seq<Entry>, blocks: nat, b: nat)
    requires Built(contents, history, blocks) && b < blocks
    ensures Fetch(contents, Newest(RestoreChain(history), b), b) == Fold(contents, history, blocks)[b]
  {
    if history != [] {
      var front, last := history[..|history| - 1], history[|history| - 1];
      RestoreMeansFold(contents, front, blocks, b);
      if last.kind.Checkpoint? {
        assert [last][1..] == [];
        PlanHasNoInline(last.segments, last, b);
        assert Newest([last], b) == Names(last.segments, b) == Newest(RestoreChain(front), b);
      } else {
        var chain := RestoreChain(history);
        assert chain == [last] + RestoreChain(front) && chain[1..] == RestoreChain(front);
        if Touches(last.segments, b) {
          FetchWritten(contents, last, Fold(contents, front, blocks), b);
        }
      }
    }
  }

  lemma {:induction false} ChainIsValid(contents: Contents, history: seq<Entry>, blocks: nat)
    requires Built(contents, history, blocks)
    ensures forall i :: 0 <= i < |RestoreChain(history)| ==>
              && ValidRefs(RestoreChain(history)[i].segments)
              && Truthful(contents, RestoreChain(history)[i].segments, blocks)
  {
    if history != [] {
      ChainIsValid(contents, history[..|history| - 1], blocks);
    }
  }

  /** A history that was built stays built when it is cut at an earlier generation. */
  lemma {:induction false} BuiltPrefix(contents: Contents, history: seq<Entry>, blocks: nat, g: nat)
    requires Built(contents, history, blocks) && g <= |history|
    ensures Built(contents, history[..g], blocks)
  {
    if g < |history| {
      BuiltPrefix(contents, history[..|history| - 1], blocks, g);
      assert history[..|history| - 1][..g] == history[..g];
    } else {
      assert history[..g] == history;
    }
  }

  lemma BuiltExtend(contents: Contents, history: seq<Entry>, entry: Entry, blocks: nat)
    requires Built(contents, history, blocks) && Truthful(contents, entry.segments, blocks)
    requires entry.kind.Delta? ==> ValidRefs(entry.segments)
    requires entry.kind.Checkpoint? ==> IsPlanFor(entry.segments, RestoreChain(history))
    ensures Built(contents, history + [entry], blocks)
    ensures RestoreChain(history + [entry]) == if entry.kind.Checkpoint? then [entry]
            else [entry] + RestoreChain(history)
    ensures Fold(contents, history + [entry], blocks) ==
            if entry.kind.Delta? then Written(contents, entry.segments, Fold(contents, history, blocks))
            else Fold(contents, history, blocks)
  {
    var all := history + [entry];
    assert all[..|all| - 1] == history && all[|all| - 1] == entry;
  }

  // ----- Applying a plan -----

  /** Every named block is fetched and written over the image, one reference after another. */
  ghost function Applied(contents: Contents, refs: seq<ObjectRef>, image: Image): (r: Image)
    requires Truthful(contents, refs, |image|)
    ensures |r| == |image|
  {
    if refs == [] then image
    else Written(contents, [refs[|refs| - 1]], Applied(contents, refs[..|refs| - 1], image))
  }

  /** Disjoint references give the same image in every order the workers finish in. */
  lemma {:induction false} AppliedAt(contents: Contents, refs: seq<ObjectRef>, image: Image, b: nat)
    requires Truthful(contents, refs, |image|) && Disjoint(refs) && b < |image|
    ensures Applied(contents, refs, image)[b] ==
            if Touches(refs, b) then contents[Owner(refs, b).digest][b] else image[b]
  {
    if refs != [] {
      var front, last := refs[..|refs| - 1], refs[|refs| - 1];
      assert Disjoint(front) by {
        forall i, j, c: nat | 0 <= i < j < |front|
          ensures !(Covers(front[i].extents, c) && Covers(front[j].extents, c)) {
          assert refs[i] == front[i] && refs[j] == front[j];
        }
      }
      AppliedAt(contents, front, image, b);
      if Covers(last.extents, b) {
        assert Covers([last][0].extents, b);
        OwnerIs(refs, |refs| - 1, b);
        OwnerIs([last], 0, b);
      } else {
        assert !Touches([last], b);
        if Touches(front, b) {
          var i :| 0 <= i < |front| && Covers(front[i].extents, b);
          OwnerIs(front, i, b);
          OwnerIs(refs, i, b);
        }
      }
    }
  }

  lemma PlanNamesOwner(refs: seq<ObjectRef>, b: nat)
    requires ValidPlan(refs)
    ensures Names(refs, b).Some? <==> Touches(refs, b)
    ensures Touches(refs, b) ==> Names(refs, b) == Some(SourceOf(Owner(refs, b)))
  {
    if Touches(refs, b) {
      var i :| 0 <= i < |refs| && Covers(refs[i].extents, b);
      OwnerIs(refs, i, b);
    }
  }

  lemma {:induction false} NewestIsTruthful(contents: Contents, chain: seq<Entry>, blocks: nat, b: nat)
    requires forall i :: 0 <= i < |chain| ==>
             ValidRefs(chain[i].segments) && Truthful(contents, chain[i].segments, blocks)
    requires Newest(chain, b).Some?
    ensures Newest(chain, b).value.digest in contents && b in contents[Newest(chain, b).value.digest] && b < blocks
  {
    if Touches(chain[0].segments, b) {
      var refs := chain[0].segments;
      var i :| 0 <= i < |refs| && Covers(refs[i].extents, b);
      LocatedValid(chain[0], true);
      OwnerIs(Located(chain[0], true), i, b);
      CoverFromWithin(refs[i].extents, blocks, b);
    } else {
      NewestIsTruthful(contents, chain[1..], blocks, b);
    }
  }

  /** Whatever a plan names was published with that content. */
  lemma PlanIsTruthful(contents: Contents, refs: seq<ObjectRef>, chain: seq<Entry>, blocks: nat)
    requires IsPlanFor(refs, chain)
    requires forall i :: 0 <= i < |chain| ==>
             ValidRefs(chain[i].segments) && Truthful(contents, chain[i].segments, blocks)
    ensures Truthful(contents, refs, blocks)
  {
    forall i, b: nat | 0 <= i < |refs| && Covers(refs[i].extents, b)
      ensures refs[i].digest in contents && b in contents[refs[i].digest] && b < blocks
    {
      OwnerIs(refs, i, b);
      NewestIsTruthful(contents, chain, blocks, b);
    }
    forall i | 0 <= i < |refs|
      ensures refs[i].digest in contents && Within(refs[i].extents, blocks)
    {
      assert refs[i].extents[0].Has(refs[i].extents[0].start);
      assert Covers(refs[i].extents, refs[i].extents[0].start);
      WithinFromCover(refs[i].extents, blocks);
    }
    assert forall i, b: nat :: 0 <= i < |refs| && Covers(refs[i].zeroExtents, b) ==> false;
  }

  /** An order in which a pool of workers takes the references of a plan. */
  ghost predicate IsOrder(order: seq<nat>, n: nat) {
    && (forall k :: 0 <= k < |order| ==> order[k] < n)
    && (forall k, m :: 0 <= k < m < |order| ==> order[k] != order[m])
    && (forall i :: 0 <= i < n ==> i in order)
  }

  function Reordered(refs: seq<ObjectRef>, order: seq<nat>): seq<ObjectRef>
    requires forall k :: 0 <= k < |order| ==> order[k] < |refs|
  {
    seq(|order|, k requires 0 <= k < |order| => refs[order[k]])
  }

  lemma ReorderedPlan(refs: seq<ObjectRef>, order: seq<nat>, chain: seq<Entry>)
    requires IsPlanFor(refs, chain) && IsOrder(order, |refs|)
    ensures IsPlanFor(Reordered(refs, order), chain)
  {
    var moved := Reordered(refs, order);
    forall k, m, b: nat | 0 <= k < m < |moved| ensures !(Covers(moved[k].extents, b) && Covers(moved[m].extents, b)) {
      assert order[k] != order[m];
    }
    forall b: nat ensures Names(moved, b) == Names(refs, b) {
      if Touches(refs, b) {
        var i :| 0 <= i < |refs| && Covers(refs[i].extents, b);
        assert i in order;
        var k :| 0 <= k < |order| && order[k] == i;
        assert moved[k] == refs[i];
        OwnerIs(refs, i, b);
        OwnerIs(moved, k, b);
      }
    }
  }

  /**
   Restore correctness: for every history and every generation of it, applying
   a plan of its restore chain to an empty image, in whatever order the workers
   take the references, yields the fold of all its deltas.
   */
  lemma RestoreCorrect(
    contents: Contents, history: seq<Entry>, blocks: nat, g: nat, refs: seq<ObjectRef>, order: seq<nat>)
    requires Built(contents, history, blocks) && g <= |history|
    requires IsPlanFor(refs, RestoreChain(history[..g])) && IsOrder(order, |refs|)
    ensures Built(contents, history[..g], blocks)
    ensures Truthful(contents, Reordered(refs, order), blocks)
    ensures Applied(contents, Reordered(refs, order), Blank(blocks, 0)) == Fold(contents, history[..g], blocks)
  {
    BuiltPrefix(contents, history, blocks, g);
    ChainIsValid(contents, history[..g], blocks);
    var moved := Reordered(refs, order);
    ReorderedPlan(refs, order, RestoreChain(history[..g]));
    PlanIsTruthful(contents, moved, RestoreChain(history[..g]), blocks);
    forall b: nat | b < blocks
      ensures Applied(contents, moved, Blank(blocks, 0))[b] == Fold(contents, history[..g], blocks)[b]
    {
      AppliedAt(contents, moved, Blank(blocks, 0), b);
      PlanNamesOwner(moved, b);
      RestoreMeansFold(contents, history[..g], blocks, b);
    }
  }

  /** Applying a delta to a plan of the chain before it gives a plan of the chain with it. */
  lemma DeltaExtends(current: seq<ObjectRef>, entry: Entry, chain: seq<Entry>, result: seq<ObjectRef>)
    requires ValidRefs(entry.segments) && IsPlanFor(current, chain) && ValidPlan(result)
    requires var delta := CheckpointRefs(entry);
             forall b: nat :: Names(result, b) == if Touches(delta, b) then Names(delta, b) else Names(current, b)
    ensures IsPlanFor(result, [entry] + chain)
  {
    forall b: nat ensures Names(result, b) == Newest([entry] + chain, b) {
      CarriedIsIrrelevant(entry, None, b);
      LocatedTouches(entry.(bundle := None), false, b);
      assert ([entry] + chain)[1..] == chain;
    }
  }

  /**
   The part of a lease that caches the plan of its committed head. `history` is
   the chain of manifests behind `Lease.state`; `plan` may be stale or empty
   until `planKnown` is set.
   */
  class LeasePlan {
    ghost const contents: Contents
    const blocks: nat
    var history: seq<Entry>
    var plan: seq<ObjectRef>
    var planKnown: bool

    ghost predicate Valid()
      reads this
    {
      && Built(contents, history, blocks)
      && (planKnown ==> IsPlanFor(plan, RestoreChain(history)))
    }

    /** `Acquire`: a fresh lease knows the plan only of an empty volume. */
    constructor (ghost contents: Contents, blocks: nat, history: seq<Entry>)
      requires Built(contents, history, blocks)
      ensures Valid() && this.history == history && this.contents == contents && this.blocks == blocks
      ensures planKnown == (history == [])
    {
      this.contents := contents;
      this.blocks := blocks;
      this.history := history;
      plan := [];
      planKnown := |history| == 0;
    }

    /** The delta case of `applyManifestCommitLocked`, with or without a bundle installed by the same commit. */
    method CommitDelta(entry: Entry, moved: set<Key>, bundle: Option<Key>)
      requires Valid() && entry.kind.Delta? && ValidRefs(entry.segments)
      requires Truthful(contents, entry.segments, blocks)
      modifies this
      ensures Valid() && history == old(history) + [entry] && planKnown == old(planKnown)
      ensures Fold(contents, history, blocks) == Written(contents, entry.segments, old(Fold(contents, history, blocks)))
    {
      InstallBundle(moved, bundle);
      ghost var before := RestoreChain(history);
      var delta := CheckpointRefs(entry);
      LocatedValid(entry.(bundle := None), false);
      if planKnown {
        ghost var current := plan;
        plan := ApplyDeltaToPlan(plan, delta);
        DeltaExtends(current, entry, before, plan);
      }
      BuiltExtend(contents, history, entry, blocks);
      history := history + [entry];
    }

    /** `applyCommitLocked` with a bundle: only the recorded locations of the plan change. */
    method InstallBundle(moved: set<Key>, bundle: Option<Key>)
      requires Valid()
      modifies this`plan
      ensures Valid()
    {
      if bundle.Some? {
        if planKnown {
          RelocatedPlan(plan, AttachBundle(plan, moved, bundle.value), RestoreChain(history));
        }
        plan := AttachBundle(plan, moved, bundle.value);
      }
    }

    /**
     `PublishCheckpoint`: restate the cached plan, or recompute it, and commit it
     as a manifest. The volume's meaning does not change and the plan is known afterwards.
     */
    method PublishCheckpoint(key: Key, moved: set<Key>, bundle: Option<Key>) returns (entry: Entry)
      requires Valid()
      modifies this
      ensures Valid() && planKnown && history == old(history) + [entry] && entry.kind.Checkpoint?
      ensures Fold(contents, history, blocks) == old(Fold(contents, history, blocks))
    {
      ghost var before := RestoreChain(history);
      ChainIsValid(contents, history, blocks);
      var refs := plan;
      if !planKnown {
        refs := RestorePlan(RestoreChain(history));
      }
      if bundle.Some? {
        RelocatedPlan(refs, AttachBundle(refs, moved, bundle.value), before);
        refs := AttachBundle(refs, moved, bundle.value);
      }
      RelocatedPlan(refs, CheckpointReady(refs), before);
      refs := CheckpointReady(refs);
      PlanIsTruthful(contents, refs, before, blocks);
      entry := Entry(key, None, Checkpoint, refs);
      BuiltExtend(contents, history, entry, blocks);
      history := history + [entry];
      plan := refs;
      planKnown := true;
      forall b: nat ensures Names(plan, b) == Newest([entry], b) {
        assert [entry][1..] == [];
        PlanHasNoInline(refs, entry, b);
      }
    }

    /**
     `PrepareLazyRestore`: a plan computed from a snapshot of the head seeds the
     cache only if the head is still at that generation.
     */
    method SeedFromLazyRestore(generation: nat, refs: seq<ObjectRef>)
      requires Valid() && generation <= |history|
      requires IsPlanFor(refs, RestoreChain(history[..generation]))
      modifies this`plan, this`planKnown
      ensures Valid()
      ensures planKnown == (old(planKnown) || generation == |history|)
    {
      if |history| == generation {
        assert history[..generation] == history;
        RelocatedPlan(refs, CheckpointReady(refs), RestoreChain(history));
        plan := CheckpointReady(refs);
        planKnown := true;
      }
    }
  }
}
