/**
 Generations and the images they produce (internal/replica/device.go: `Generation`,
 `Replay`; internal/replica/syncer.go: `mergeGenerations`). A generation holds the
 blocks changed between two seals; an image is what a sequence of generations
 leaves on top of a base.
 */
module Generations {
  import opened Images

  type Data = nat
  type Image = seq<Data>
  type Blocks = map<nat, Data>

  /** A sealed generation with its journal sequence number. */
  datatype Sealed = Sealed(seqno: nat, blocks: Blocks)

  /** Generations applied one after another (`Device.Replay`). */
  function Fold(image: Image, gens: seq<Sealed>): (r: Image)
    ensures |r| == |image|
  {
    if gens == [] then image else Overlay(Fold(image, gens[..|gens| - 1]), gens[|gens| - 1].blocks)
  }

  ghost predicate Touched(gens: seq<Sealed>, b: nat) {
    exists i :: 0 <= i < |gens| && b in gens[i].blocks
  }

  function Merged(gens: seq<Sealed>): Blocks {
    if gens == [] then map[] else Merged(gens[..|gens| - 1]) + gens[|gens| - 1].blocks
  }

  /** `mergeGenerations`: later generations overwrite earlier ones. */
  method MergeGenerations(gens: seq<Sealed>) returns (blocks: Blocks)
    ensures blocks == Merged(gens)
  {
    blocks := map[];
    for i := 0 to |gens|
      invariant blocks == Merged(gens[..i])
    {
      assert gens[..i + 1][..i] == gens[..i];
      blocks := blocks + gens[i].blocks;
    }
    assert gens[..|gens|] == gens;
  }

  lemma {:induction false} FoldConcat(image: Image, xs: seq<Sealed>, ys: seq<Sealed>)
    ensures Fold(image, xs + ys) == Fold(Fold(image, xs), ys)
  {
    if ys == [] {
      assert xs + ys == xs;
    } else {
      var all := xs + ys;
      assert all[..|all| - 1] == xs + ys[..|ys| - 1] && all[|all| - 1] == ys[|ys| - 1];
      FoldConcat(image, xs, ys[..|ys| - 1]);
    }
  }

  lemma TouchedLast(gens: seq<Sealed>, b: nat)
    requires gens != []
    ensures Touched(gens, b) <==> Touched(gens[..|gens| - 1], b) || b in gens[|gens| - 1].blocks
  {
    var front := gens[..|gens| - 1];
    if Touched(front, b) {
      var i :| 0 <= i < |front| && b in front[i].blocks;
      assert b in gens[i].blocks;
    }
    if Touched(gens, b) {
      var i :| 0 <= i < |gens| && b in gens[i].blocks;
      assert i < |front| ==> b in front[i].blocks;
    }
  }

  /** A touched block forgets the image below; an untouched one shows it. */
  lemma {:induction false} FoldAt(image: Image, other: Image, gens: seq<Sealed>, b: nat)
    requires |image| == |other| && b < |image|
    ensures Touched(gens, b) ==> Fold(image, gens)[b] == Fold(other, gens)[b]
    ensures !Touched(gens, b) ==> Fold(image, gens)[b] == image[b]
  {
    if gens != [] {
      FoldAt(image, other, gens[..|gens| - 1], b);
      TouchedLast(gens, b);
    }
  }

  /** Publishing the merged blocks is publishing every generation in order. */
  lemma {:induction false} MergedIsFold(image: Image, gens: seq<Sealed>)
    ensures Overlay(image, Merged(gens)) == Fold(image, gens)
  {
    if gens != [] {
      MergedIsFold(image, gens[..|gens| - 1]);
    }
  }

  lemma TouchedConcat(xs: seq<Sealed>, ys: seq<Sealed>, b: nat)
    ensures Touched(xs + ys, b) <==> Touched(xs, b) || Touched(ys, b)
  {
    var all := xs + ys;
    if Touched(xs, b) {
      var i :| 0 <= i < |xs| && b in xs[i].blocks;
      assert b in all[i].blocks;
    }
    if Touched(ys, b) {
      var i :| 0 <= i < |ys| && b in ys[i].blocks;
      assert b in all[|xs| + i].blocks;
    }
    if Touched(all, b) {
      var i :| 0 <= i < |all| && b in all[i].blocks;
      assert if i < |xs| then b in xs[i].blocks else b in ys[i - |xs|].blocks;
    }
  }

  // ----- Heads that have seen a prefix of the generations -----

  /**
   A head that was given the first `q` generations, and before that up to `p`
   of them: where none of generations `q` to `p` wrote, it shows the prefix.
   Republishing after a crash walks `q` from behind `p` up to it.
   */
  ghost predicate Shows(head: Image, base: Image, log: seq<Sealed>, q: nat, p: nat) {
    && |head| == |base| && q <= p <= |log|
    && (forall b: nat {:trigger head[b]} :: b < |base| && !Touched(log[q..p], b) ==> head[b] == Fold(base, log[..q])[b])
  }

  function Max(a: nat, b: nat): nat { if a < b then b else a }

  /** Untouched stretches do not change a block. */
  lemma FoldSkip(base: Image, log: seq<Sealed>, i: nat, j: nat, b: nat)
    requires i <= j <= |log| && b < |base| && !Touched(log[i..j], b)
    ensures Fold(base, log[..i])[b] == Fold(base, log[..j])[b]
  {
    assert log[..j] == log[..i] + log[i..j];
    FoldConcat(base, log[..i], log[i..j]);
    FoldAt(Fold(base, log[..i]), base, log[i..j], b);
  }

  lemma FoldTouched(head: Image, base: Image, log: seq<Sealed>, i: nat, j: nat, b: nat)
    requires i <= j <= |log| && |head| == |base| && b < |base| && Touched(log[i..j], b)
    ensures Fold(head, log[i..j])[b] == Fold(base, log[..j])[b]
  {
    assert log[..j] == log[..i] + log[i..j];
    FoldConcat(base, log[..i], log[i..j]);
    FoldAt(head, Fold(base, log[..i]), log[i..j], b);
  }

  lemma TouchedWiden(log: seq<Sealed>, i: nat, j: nat, k: nat, b: nat)
    requires i <= j <= k <= |log|
    ensures Touched(log[i..k], b) <==> Touched(log[i..j], b) || Touched(log[j..k], b)
  {
    assert log[i..k] == log[i..j] + log[j..k];
    TouchedConcat(log[i..j], log[j..k], b);
  }

  /** Publishing the next generations advances what the head shows, even if it already held some of them. */
  lemma PublishShows(head: Image, base: Image, log: seq<Sealed>, q: nat, p: nat, r: nat)
    requires Shows(head, base, log, q, p) && q <= r <= |log|
    ensures Shows(Fold(head, log[q..r]), base, log, r, Max(p, r))
  {
    var after := Fold(head, log[q..r]);
    forall b: nat | b < |base| && !Touched(log[r..Max(p, r)], b) ensures after[b] == Fold(base, log[..r])[b] {
      if Touched(log[q..r], b) {
        FoldTouched(head, base, log, q, r, b);
      } else {
        FoldAt(head, head, log[q..r], b);
        if r <= p { TouchedWiden(log, q, r, p, b); } else { TouchedWiden(log, q, p, r, b); }
        FoldSkip(base, log, q, r, b);
        assert after[b] == head[b];
      }
    }
  }

  /** Replaying a suffix that reaches back to what the head shows restores every generation. */
  lemma ReplayRestores(head: Image, base: Image, log: seq<Sealed>, d: nat, q: nat, p: nat)
    requires Shows(head, base, log, q, p) && d <= q
    ensures Fold(head, log[d..]) == Fold(base, log)
    ensures Shows(head, base, log, d, p)
  {
    assert log[d..] == log[d..|log|] && log == log[..|log|];
    forall b: nat | b < |base| ensures Fold(head, log[d..])[b] == Fold(base, log)[b] {
      if Touched(log[d..|log|], b) {
        FoldTouched(head, base, log, d, |log|, b);
      } else {
        FoldAt(head, head, log[d..], b);
        Untouched(log, d, q, p, b);
        FoldSkip(base, log, q, |log|, b);
        assert Fold(head, log[d..])[b] == head[b];
      }
    }
    forall b: nat | b < |base| && !Touched(log[d..p], b) ensures head[b] == Fold(base, log[..d])[b] {
      TouchedWiden(log, d, q, p, b);
      FoldSkip(base, log, d, q, b);
    }
  }

  lemma Untouched(log: seq<Sealed>, d: nat, q: nat, p: nat, b: nat)
    requires d <= q <= p <= |log| && !Touched(log[d..|log|], b)
    ensures !Touched(log[q..p], b) && !Touched(log[q..|log|], b)
  {
    TouchedWiden(log, d, q, |log|, b);
    TouchedWiden(log, q, p, |log|, b);
  }

  /** What a head shows does not depend on generations beyond the published ones. */
  lemma ShowsPrefix(head: Image, base: Image, log: seq<Sealed>, other: seq<Sealed>, q: nat, p: nat)
    requires Shows(head, base, log, q, p) && p <= |other| && other[..p] == log[..p]
    ensures Shows(head, base, other, q, p)
  {
    assert other[q..p] == other[..p][q..] == log[..p][q..] == log[q..p];
    assert other[..q] == other[..p][..q] == log[..p][..q] == log[..q];
  }
}
