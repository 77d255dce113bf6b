/**
 The block device (internal/replica/device.go: `ReadAt`, `WriteAt`, `Trim`,
 `capture`, `captureWrite`, `captureNonZero`, `sealLocked`, `Release`, `Replay`)
 on top of a lazily restored image. Offsets are in bytes; the file is a sequence
 of blocks of 4096 bytes, and a device without a lazy image has no references.
 */
module Devices {
  import opened Options
  import opened Extents
  import opened Bytes
  import opened Images
  import opened LazyImages

  // ----- Bytes in blocks -----

  function Larger(a: nat, b: nat): nat { if a < b then b else a }

  /** A write of `n` bytes at `off` changes some byte of block `b`. */
  predicate Touches(b: nat, off: nat, n: nat) { n > 0 && b * 4096 < off + n && off < b * 4096 + 4096 }

  predicate Whole(b: nat, off: nat, n: nat) { off <= b * 4096 && b * 4096 + 4096 <= off + n }

  ghost predicate ImageOk(image: seq<Block>) { forall b :: 0 <= b < |image| ==> |image[b]| == 4096 }

  /** What a write leaves of one block: the new bytes where it wrote, the old ones elsewhere. */
  function PatchBlock(buf: Block, b: nat, off: nat, data: seq<Byte>): (r: Block)
    requires |buf| == 4096
    ensures |r| == 4096
  {
    var base := b * 4096;
    seq(4096, k requires 0 <= k < 4096 => if off <= base + k < off + |data| then data[base + k - off] else buf[k])
  }

  lemma PatchUntouched(buf: Block, b: nat, off: nat, data: seq<Byte>)
    requires |buf| == 4096 && !Touches(b, off, |data|)
    ensures PatchBlock(buf, b, off, data) == buf
  {
  }

  /** A write that covers a block leaves nothing of what was there. */
  lemma WholeForgets(x: Block, y: Block, b: nat, off: nat, data: seq<Byte>)
    requires |x| == |y| == 4096 && Whole(b, off, |data|)
    ensures PatchBlock(x, b, off, data) == PatchBlock(y, b, off, data) == data[b * 4096 - off..b * 4096 + 4096 - off]
  {
  }

  function Patched(image: seq<Block>, off: nat, data: seq<Byte>): (r: seq<Block>)
    requires ImageOk(image)
    ensures |r| == |image| && ImageOk(r)
    ensures forall b :: 0 <= b < |r| ==> r[b] == PatchBlock(image[b], b, off, data)
  {
    seq(|image|, b requires 0 <= b < |image| => PatchBlock(image[b], b, off, data))
  }

  /** The bytes of an image, one after another. */
  function ReadBytes(image: seq<Block>, off: nat, n: nat): seq<Byte>
    requires ImageOk(image) && off + n <= |image| * 4096
  {
    seq(n, i requires 0 <= i < n => image[(off + i) / 4096][(off + i) % 4096])
  }

  /** The byte-level meaning of a write. */
  lemma WriteMeansBytes(image: seq<Block>, off: nat, data: seq<Byte>, i: nat)
    requires ImageOk(image) && off + |data| <= |image| * 4096 && i < |image| * 4096
    ensures Patched(image, off, data)[i / 4096][i % 4096] ==
            if off <= i < off + |data| then data[i - off] else image[i / 4096][i % 4096]
  {
    assert i == i / 4096 * 4096 + i % 4096;
  }

  // ----- Block ranges -----

  /** `blockRange`. */
  function First(off: nat): nat { off / 4096 }

  function Last(off: nat, n: nat): nat { if n == 0 then off / 4096 else (off + n - 1) / 4096 + 1 }

  lemma RangeIsTouched(b: nat, off: nat, n: nat)
    ensures Touches(b, off, n) <==> First(off) <= b < Last(off, n)
  {
  }

  /** A write changes some bytes of the block but not all of them. */
  predicate Partial(b: nat, off: nat, n: nat) { Touches(b, off, n) && !Whole(b, off, n) }

  ghost function TouchedBlocks(off: nat, n: nat): iset<nat> { iset b: nat | Touches(b, off, n) }

  ghost function PartialBlocks(off: nat, n: nat): iset<nat> { iset b: nat | Partial(b, off, n) }

  /** The boundaries of `PrepareWrite`: exactly the blocks a write covers only in part. */
  method Boundaries(off: nat, n: nat) returns (es: seq<Extent>)
    ensures Ordered(es)
    ensures forall b: nat :: Covers(es, b) <==> Partial(b, off, n)
  {
    es := [];
    if n == 0 { return; }
    var end := off + n;
    if off % 4096 != 0 { es := [Extent(off / 4096, 1)]; }
    if end % 4096 != 0 {
      var last := (end - 1) / 4096;
      if |es| == 0 || es[0].start != last { es := es + [Extent(last, 1)]; }
    }
    forall b: nat | Partial(b, off, n) ensures Covers(es, b) {
      if b * 4096 < off {
        assert b == off / 4096;
        assert es[0].Has(b);
      } else {
        assert b == (end - 1) / 4096;
        assert es[|es| - 1].Has(b);
      }
    }
  }

  // ----- Writing over a lazy image -----

  ghost predicate PartsSettled(refs: seq<seq<Extent>>, loaded: seq<bool>, overridden: seq<Extent>, off: nat, n: nat)
    requires |loaded| == |refs|
  {
    forall b: nat :: Partial(b, off, n) ==> Settled(refs, loaded, overridden, b)
  }

  /** Once the partly covered blocks are settled, a write to the file is a write to what the image stands for. */
  lemma WriteKeeps(
    refs: seq<seq<Extent>>, loaded: seq<bool>, overridden: seq<Extent>, file: seq<Block>, view: seq<Block>,
    eager: seq<Block>, off: nat, data: seq<Byte>, after: seq<Extent>)
    requires LazyOk(refs, loaded, overridden, file, view, eager) && ImageOk(file) && ImageOk(view)
    requires PartsSettled(refs, loaded, overridden, off, |data|) && Ordered(after)
    requires forall b: nat :: Covers(after, b) <==> Covers(overridden, b) || Touches(b, off, |data|)
    ensures LazyOk(refs, loaded, after, Patched(file, off, data), Patched(view, off, data), eager)
  {
    var f, v := Patched(file, off, data), Patched(view, off, data);
    forall b | 0 <= b < |f| ensures if Settled(refs, loaded, after, b) then f[b] == v[b] else v[b] == eager[b] {
      assert file[b] == file[b];
      if Whole(b, off, |data|) {
        WholeForgets(file[b], view[b], b, off, data);
      } else if !Touches(b, off, |data|) {
        PatchUntouched(file[b], b, off, data);
        PatchUntouched(view[b], b, off, data);
      }
    }
  }

  /** The blocks of a byte range, as an extent list and as a test. */
  lemma RangeCovers(es: seq<Extent>, off: nat, n: nat, size: nat, b: nat)
    requires off + n <= size
    requires Covers(es, b) <==> exists i: nat :: off <= i < off + n && 0 <= off && i < size && i / BLOCK_SIZE == b
    ensures Covers(es, b) <==> Touches(b, off, n)
  {
    if Touches(b, off, n) {
      var i := Larger(off, b * 4096);
      assert off <= i < off + n && i < size && i / BLOCK_SIZE == b;
    }
  }

  // ----- Captured blocks -----

  ghost function Missing(active: map<nat, Block>, first: nat, last: nat): nat {
    if last <= first then 0 else Missing(active, first, last - 1) + (if last - 1 in active then 0 else 1)
  }

  /** `newBlockCount`. */
  method NewBlockCount(active: map<nat, Block>, first: nat, last: nat) returns (count: nat)
    requires first <= last
    ensures count == Missing(active, first, last) <= last - first
  {
    count := 0;
    for b := first to last
      invariant count == Missing(active, first, b) <= b - first
    {
      if b !in active { count := count + 1; }
    }
  }

  /** Every active block is the device's block, and was written on this device. */
  ghost predicate CaptureOk(active: map<nat, Block>, file: seq<Block>, overridden: seq<Extent>) {
    forall b :: b in active ==> b < |file| && active[b] == file[b] && Covers(overridden, b)
  }

  predicate CapturedAt(before: map<nat, Block>, after: map<nat, Block>, file: seq<Block>, first: nat, last: nat, b: nat)
    requires last <= |file|
  {
    if first <= b < last then b in after && after[b] == file[b]
    else (b in after <==> b in before) && (b in after ==> after[b] == before[b])
  }

  /** What capturing a range of the file makes of the active blocks. */
  ghost predicate Captured(before: map<nat, Block>, after: map<nat, Block>, file: seq<Block>, first: nat, last: nat)
    requires last <= |file|
  {
    forall b: nat {:trigger CapturedAt(before, after, file, first, last, b)} ::
      CapturedAt(before, after, file, first, last, b)
  }

  /** The blocks of the range are captured and `added` of them were not active before. */
  ghost predicate CapturedAndCounted(
    before: map<nat, Block>, after: map<nat, Block>, file: seq<Block>, first: nat, last: nat, added: nat)
    requires last <= |file|
  {
    Captured(before, after, file, first, last) && added == Missing(before, first, last) && |after| == |before| + added
  }

  lemma CaptureOne(before: map<nat, Block>, active: map<nat, Block>, file: seq<Block>, first: nat, b: nat)
    requires first <= b < |file| && Captured(before, active, file, first, b)
    ensures Captured(before, active[b := file[b]], file, first, b + 1)
    ensures (b in active <==> b in before) && (b in active ==> active[b] == before[b])
  {
    var next, more := active[b := file[b]], b + 1;
    assert CapturedAt(before, active, file, first, b, b);
    forall c: nat ensures CapturedAt(before, next, file, first, more, c) {
      assert CapturedAt(before, active, file, first, b, c);
    }
  }

  /** One more block is captured and, if it was not active, counted. */
  lemma CaptureStep(
    before: map<nat, Block>, active: map<nat, Block>, file: seq<Block>, first: nat, b: nat, added: nat, more: nat)
    requires first <= b < |file| && CapturedAndCounted(before, active, file, first, b, added)
    requires more == added + if b in active then 0 else 1
    ensures CapturedAndCounted(before, active[b := file[b]], file, first, b + 1, more)
    ensures b in active ==> b in before && active[b] == before[b]
  {
    CaptureOne(before, active, file, first, b);
    AddedSize(active, b, file[b]);
  }

  lemma AddedSize(active: map<nat, Block>, b: nat, block: Block)
    ensures |active[b := block]| == |active| + if b in active then 0 else 1
  {
    var next := active[b := block];
    if b in active { assert next.Keys == active.Keys; } else { assert next.Keys == active.Keys + {b}; }
  }

  /** The buffer a written block is copied into: the active one, a recycled one, or the block read back. */
  function BufferFor(active: map<nat, Block>, file: seq<Block>, b: nat, off: nat, n: nat, pooled: Block): Block
    requires b < |file|
  {
    if b in active then active[b] else if Whole(b, off, n) then pooled else file[b]
  }

  lemma BufferIsFilled(
    active: map<nat, Block>, file: seq<Block>, b: nat, off: nat, data: seq<Byte>, pooled: Block, was: seq<Block>)
    requires ImageOk(was) && file == Patched(was, off, data) && b < |was| && |pooled| == 4096
    requires b in active ==> active[b] == was[b]
    ensures var buf := BufferFor(active, file, b, off, |data|, pooled);
            |buf| == 4096 && PatchBlock(buf, b, off, data) == file[b]
  {
    PatchAgain(BufferFor(active, file, b, off, |data|, pooled), b, off, data, was[b]);
  }

  /** One round of `captureWrite`. */
  lemma WriteStep(
    before: map<nat, Block>, active: map<nat, Block>, file: seq<Block>, off: nat, data: seq<Byte>, pooled: Block,
    was: seq<Block>, b: nat, added: nat, more: nat)
    requires ImageOk(was) && file == Patched(was, off, data) && First(off) <= b < Last(off, |data|) <= |file|
    requires |pooled| == 4096
    requires forall c :: c in before && Touches(c, off, |data|) ==> c < |was| && before[c] == was[c]
    requires CapturedAndCounted(before, active, file, First(off), b, added)
    requires more == added + if b in active then 0 else 1
    ensures var buf := BufferFor(active, file, b, off, |data|, pooled);
            && |buf| == 4096
            && CapturedAndCounted(before, active[b := PatchBlock(buf, b, off, data)], file, First(off), b + 1, more)
  {
    RangeIsTouched(b, off, |data|);
    CaptureStep(before, active, file, First(off), b, added, more);
    BufferIsFilled(active, file, b, off, data, pooled, was);
  }

  /** `captureWrite`: only the written bytes are copied, or the block is read back when it was not active. */
  method CaptureWrite(
    before: map<nat, Block>, file: seq<Block>, off: nat, data: seq<Byte>, pooled: Block, ghost was: seq<Block>)
    returns (active: map<nat, Block>, added: nat)
    requires ImageOk(was) && file == Patched(was, off, data) && Last(off, |data|) <= |file| && |pooled| == 4096
    requires forall b :: b in before && Touches(b, off, |data|) ==> b < |was| && before[b] == was[b]
    ensures CapturedAndCounted(before, active, file, First(off), Last(off, |data|), added)
  {
    active, added := before, 0;
    var first, last := First(off), Last(off, |data|);
    for b := first to last
      invariant CapturedAndCounted(before, active, file, first, b, added)
    {
      var more := added + if b in active then 0 else 1;
      WriteStep(before, active, file, off, data, pooled, was, b, added, more);
      var buf := BufferFor(active, file, b, off, |data|, pooled);
      added := more;
      active := active[b := PatchBlock(buf, b, off, data)];
    }
  }

  /**
   Copying the written bytes into the old block, the new block, or any buffer for a whole block
   gives the new block.
   */
  lemma PatchAgain(buf: Block, b: nat, off: nat, data: seq<Byte>, was: Block)
    requires |buf| == |was| == 4096
    requires buf == was || buf == PatchBlock(was, b, off, data) || Whole(b, off, |data|)
    ensures PatchBlock(buf, b, off, data) == PatchBlock(was, b, off, data)
  {
    if Whole(b, off, |data|) {
      WholeForgets(buf, was, b, off, data);
    } else {
      assert PatchBlock(buf, b, off, data) == PatchBlock(was, b, off, data);
    }
  }

  /** `capture`: every block of the range is read back. */
  method Capture(
    before: map<nat, Block>, file: seq<Block>, first: nat, last: nat)
    returns (active: map<nat, Block>, added: nat)
    requires first <= last <= |file|
    ensures CapturedAndCounted(before, active, file, first, last, added)
  {
    active, added := before, 0;
    for b := first to last
      invariant CapturedAndCounted(before, active, file, first, b, added)
    {
      var more := added + if b in active then 0 else 1;
      CaptureStep(before, active, file, first, b, added, more);
      added := more;
      active := active[b := file[b]];
    }
  }

  /** Capturing what was just written keeps every active block equal to the device's block. */
  lemma CapturedOk(
    before: map<nat, Block>, after: map<nat, Block>, was: seq<Block>, file: seq<Block>, off: nat, data: seq<Byte>,
    overridden: seq<Extent>, now: seq<Extent>)
    requires ImageOk(was) && file == Patched(was, off, data) && CaptureOk(before, was, overridden)
    requires Last(off, |data|) <= |file|
    requires Captured(before, after, file, First(off), Last(off, |data|))
    requires forall b: nat :: Covers(now, b) <==> Covers(overridden, b) || Touches(b, off, |data|)
    ensures CaptureOk(after, file, now)
  {
    forall b | b in after ensures b < |file| && after[b] == file[b] && Covers(now, b) {
      assert CapturedAt(before, after, file, First(off), Last(off, |data|), b);
      RangeIsTouched(b, off, |data|);
      if b in before && !Touches(b, off, |data|) { PatchUntouched(was[b], b, off, data); }
    }
  }

  lemma {:induction false} MissingBound(active: map<nat, Block>, first: nat, last: nat)
    ensures Missing(active, first, last) <= if first <= last then last - first else 0
    decreases last
  {
    if first < last { MissingBound(active, first, last - 1); }
  }

  lemma RangeInside(off: nat, n: nat, blocks: nat)
    requires off + n <= blocks * 4096
    ensures First(off) <= Last(off, n) && (n > 0 ==> Last(off, n) <= blocks)
  {
  }

  /**
   The middle of `WriteAt` and, with `readBack`, of `Trim`: the bytes go to the
   file, the blocks are captured and marked as written.
   */
  method Stored(
    refs: seq<seq<Extent>>, loaded: seq<bool>, overridden: seq<Extent>, file: seq<Block>, active: map<nat, Block>,
    off: nat, data: seq<Byte>, pooled: Block, readBack: bool, ghost view: seq<Block>, ghost eager: seq<Block>)
    returns (image: seq<Block>, now: seq<Extent>, next: map<nat, Block>, added: nat)
    requires LazyOk(refs, loaded, overridden, file, view, eager) && ImageOk(file) && ImageOk(view)
    requires CaptureOk(active, file, overridden) && PartsSettled(refs, loaded, overridden, off, |data|)
    requires 0 < |data| && off + |data| <= |file| * 4096 && |pooled| == 4096
    ensures image == Patched(file, off, data) && LazyOk(refs, loaded, now, image, Patched(view, off, data), eager)
    ensures CaptureOk(next, image, now)
    ensures |next| == |active| + added && added == Missing(active, First(off), Last(off, |data|))
  {
    var es := ByteRange(off, |data|, |file| * 4096);
    now := Union(overridden, es);
    forall b: nat ensures Covers(now, b) <==> Covers(overridden, b) || Touches(b, off, |data|) {
      RangeCovers(es, off, |data|, |file| * 4096, b);
    }
    WriteKeeps(refs, loaded, overridden, file, view, eager, off, data, now);
    image := Patched(file, off, data);
    RangeInside(off, |data|, |file|);
    if readBack {
      next, added := Capture(active, image, First(off), Last(off, |data|));
    } else {
      next, added := CaptureWrite(active, image, off, data, pooled, file);
    }
    CapturedOk(active, next, file, image, off, data, overridden, now);
  }

  lemma ReadSettled(
    refs: seq<seq<Extent>>, loaded: seq<bool>, overridden: seq<Extent>, file: seq<Block>, view: seq<Block>,
    eager: seq<Block>, off: nat, n: nat)
    requires LazyOk(refs, loaded, overridden, file, view, eager) && ImageOk(file) && ImageOk(view)
    requires off + n <= |file| * 4096
    requires forall b: nat :: Touches(b, off, n) ==> Settled(refs, loaded, overridden, b)
    ensures ReadBytes(file, off, n) == ReadBytes(view, off, n)
  {
    forall i | 0 <= i < n ensures ReadBytes(file, off, n)[i] == ReadBytes(view, off, n)[i] {
      var b := (off + i) / 4096;
      assert Touches(b, off, n);
      assert file[b] == view[b];
    }
  }

  // ----- Replaying generations -----

  ghost predicate GenerationOk(gen: map<nat, Block>, blocks: nat) {
    forall b :: b in gen ==> b < blocks && |gen[b]| == 4096
  }

  lemma ReplayBlockKeeps(
    refs: seq<seq<Extent>>, image: Image, view: seq<Block>, eager: seq<Block>, b: nat, block: Block, now: seq<Extent>)
    requires LazyOk(refs, image.loaded, image.overridden, image.file, view, eager) && b < |view| && Ordered(now)
    requires forall c: nat :: Covers(now, c) <==> Covers(image.overridden, c) || c == b
    ensures LazyOk(refs, image.loaded, now, image.file[b := block], view[b := block], eager)
  {
    var f, v := image.file[b := block], view[b := block];
    forall c | 0 <= c < |f| ensures if Settled(refs, image.loaded, now, c) then f[c] == v[c] else v[c] == eager[c] {
      assert image.file[c] == image.file[c];
    }
  }

  /** One block of a replayed generation is written over the lazy image. */
  method ReplayBlock(
    refs: seq<seq<Extent>>, before: Image, b: nat, block: Block, ghost view: seq<Block>, ghost eager: seq<Block>)
    returns (image: Image)
    requires LazyOk(refs, before.loaded, before.overridden, before.file, view, eager) && b < |view|
    ensures LazyOk(refs, image.loaded, image.overridden, image.file, view[b := block], eager)
    ensures image.file == before.file[b := block]
  {
    var written := Union(before.overridden, [Extent(b, 1)]);
    forall c: nat ensures Covers([Extent(b, 1)], c) <==> c == b {
      assert [Extent(b, 1)][0].Has(b);
    }
    ReplayBlockKeeps(refs, before, view, eager, b, block, written);
    image := Image(before.file[b := block], before.loaded, written);
  }

  ghost predicate PartlyOverlaid(image: seq<Block>, was: seq<Block>, gen: map<nat, Block>, left: set<nat>) {
    |image| == |was| && forall c :: 0 <= c < |was| ==> image[c] == if c in gen && c !in left then gen[c] else was[c]
  }

  lemma OverlaidOneMore(image: seq<Block>, was: seq<Block>, gen: map<nat, Block>, left: set<nat>, b: nat)
    requires PartlyOverlaid(image, was, gen, left) && b in left && b in gen && b < |was|
    ensures PartlyOverlaid(image[b := gen[b]], was, gen, left - {b})
  {
  }

  lemma OverlaidAll(image: seq<Block>, was: seq<Block>, gen: map<nat, Block>)
    requires PartlyOverlaid(image, was, gen, {})
    ensures image == Overlay(was, gen)
  {
  }

  /** The inner loop of `Replay`, in whatever order the blocks of the generation come. */
  method ReplayOne(
    refs: seq<seq<Extent>>, before: Image, gen: map<nat, Block>, ghost view: seq<Block>, ghost eager: seq<Block>)
    returns (image: Image)
    requires LazyOk(refs, before.loaded, before.overridden, before.file, view, eager) && GenerationOk(gen, |view|)
    ensures LazyOk(refs, image.loaded, image.overridden, image.file, Overlay(view, gen), eager)
    ensures image.file == Overlay(before.file, gen)
  {
    image := before;
    var left := gen.Keys;
    ghost var now := view;
    while left != {}
      invariant left <= gen.Keys
      invariant LazyOk(refs, image.loaded, image.overridden, image.file, now, eager)
      invariant PartlyOverlaid(now, view, gen, left) && PartlyOverlaid(image.file, before.file, gen, left)
      decreases |left|
    {
      var b :| b in left;
      OverlaidOneMore(now, view, gen, left, b);
      OverlaidOneMore(image.file, before.file, gen, left, b);
      image := ReplayBlock(refs, image, b, gen[b], now, eager);
      now := now[b := gen[b]];
      left := left - {b};
    }
    OverlaidAll(now, view, gen);
    OverlaidAll(image.file, before.file, gen);
  }

  // ----- Marking a freshly formatted image -----

  ghost function NonZero(file: seq<Block>, first: nat, last: nat): nat
    requires last <= |file|
  {
    if last <= first then 0 else NonZero(file, first, last - 1) + (if file[last - 1] == Zeros(4096) then 0 else 1)
  }

  ghost function Recaptured(active: map<nat, Block>, file: seq<Block>, first: nat, last: nat): nat
    requires last <= |file|
  {
    if last <= first then 0
    else
      var again := if file[last - 1] != Zeros(4096) && last - 1 in active then 1 else 0;
      Recaptured(active, file, first, last - 1) + again
  }

  /** `captureNonZero` counts every non-zero block as new, whether or not it is active already. */
  method CaptureNonZero(
    before: map<nat, Block>, file: seq<Block>, first: nat, last: nat)
    returns (active: map<nat, Block>, counted: nat)
    requires first <= last <= |file|
    ensures MarkedAndCounted(before, active, file, first, last, counted)
  {
    active, counted := before, 0;
    for b := first to last
      invariant MarkedAndCounted(before, active, file, first, b, counted)
    {
      MarkStep(before, active, file, first, b, counted);
      if file[b] != Zeros(4096) {
        active := active[b := file[b]];
        counted := counted + 1;
      }
    }
  }

  /** The non-zero blocks are captured and counted, also those that were active before. */
  ghost predicate MarkedAndCounted(
    before: map<nat, Block>, after: map<nat, Block>, file: seq<Block>, first: nat, last: nat, counted: nat)
    requires last <= |file|
  {
    && Marked(before, after, file, first, last)
    && counted == NonZero(file, first, last)
    && |after| + Recaptured(before, file, first, last) == |before| + counted
  }

  lemma MarkStep(before: map<nat, Block>, active: map<nat, Block>, file: seq<Block>, first: nat, b: nat, counted: nat)
    requires first <= b < |file| && MarkedAndCounted(before, active, file, first, b, counted)
    ensures if file[b] == Zeros(4096) then MarkedAndCounted(before, active, file, first, b + 1, counted)
            else MarkedAndCounted(before, active[b := file[b]], file, first, b + 1, counted + 1)
  {
    MarkOne(before, active, file, first, b);
    AddedSize(active, b, file[b]);
  }

  predicate MarkedAt(before: map<nat, Block>, after: map<nat, Block>, file: seq<Block>, first: nat, last: nat, b: nat)
    requires last <= |file|
  {
    if first <= b < last && file[b] != Zeros(4096) then b in after && after[b] == file[b]
    else (b in after <==> b in before) && (b in after ==> after[b] == before[b])
  }

  /** Non-zero blocks of the range are captured, the others are left as they were. */
  ghost predicate Marked(before: map<nat, Block>, after: map<nat, Block>, file: seq<Block>, first: nat, last: nat)
    requires last <= |file|
  {
    forall b: nat {:trigger MarkedAt(before, after, file, first, last, b)} ::
      MarkedAt(before, after, file, first, last, b)
  }

  lemma MarkOne(before: map<nat, Block>, active: map<nat, Block>, file: seq<Block>, first: nat, b: nat)
    requires first <= b < |file| && Marked(before, active, file, first, b)
    ensures b in active <==> b in before
    ensures Marked(before, if file[b] == Zeros(4096) then active else active[b := file[b]], file, first, b + 1)
  {
    var next, more := if file[b] == Zeros(4096) then active else active[b := file[b]], b + 1;
    assert MarkedAt(before, active, file, first, b, b);
    forall c: nat ensures MarkedAt(before, next, file, first, more, c) {
      assert MarkedAt(before, active, file, first, b, c);
    }
  }

  /**
   Marking keeps the account of unpublished data exactly when no block it
   captures was active before, as in the one place where it is used, right after
   formatting.
   */
  lemma MarkingConserves(
    dirty: int, held: nat, before: map<nat, Block>, after: map<nat, Block>, file: seq<Block>, first: nat, last: nat,
    counted: nat)
    requires first <= last <= |file| && dirty == 4096 * (|before| + held)
    requires counted == NonZero(file, first, last)
    requires |after| + Recaptured(before, file, first, last) == |before| + counted
    ensures dirty + 4096 * counted == 4096 * (|after| + held) <==>
            forall b :: first <= b < last && file[b] != Zeros(4096) ==> b !in before
  {
    RecapturedNone(before, file, first, last);
  }

  /** Marking an image of one non-zero block twice counts it twice: the account is then one block too high. */
  lemma MarkingTwiceMiscounts(block: Block)
    requires block != Zeros(4096)
    ensures var file, active := [block], map[0 := block];
            && NonZero(file, 0, 1) == 1 && Recaptured(active, file, 0, 1) == 1
            && 4096 * |active| + 4096 * NonZero(file, 0, 1) == 4096 * (|active| + 1) == 8192
            && Marked(active, active, file, 0, 1)
  {
    assert NonZero([block], 0, 0) == 0 && Recaptured(map[0 := block], [block], 0, 0) == 0;
    assert map[0 := block].Keys == {0};
  }

  lemma {:induction false} RecapturedNone(active: map<nat, Block>, file: seq<Block>, first: nat, last: nat)
    requires first <= last <= |file|
    ensures Recaptured(active, file, first, last) == 0 <==>
            forall b :: first <= b < last && file[b] != Zeros(4096) ==> b !in active
    decreases last
  {
    if first < last { RecapturedNone(active, file, first, last - 1); }
  }

  // ----- The device -----

  /** The local file, which references were fetched into it, and which blocks were written here. */
  datatype Image = Image(file: seq<Block>, loaded: seq<bool>, overridden: seq<Extent>)

  function Sum(sizes: seq<nat>): nat { if sizes == [] then 0 else Sum(sizes[..|sizes| - 1]) + sizes[|sizes| - 1] }

  lemma SumAppend(sizes: seq<nat>, n: nat)
    ensures Sum(sizes + [n]) == Sum(sizes) + n
  {
    assert (sizes + [n])[..|sizes|] == sizes;
  }

  lemma {:induction false} SumRemove(sizes: seq<nat>, i: nat)
    requires i < |sizes|
    ensures Sum(sizes[..i] + sizes[i + 1..]) + sizes[i] == Sum(sizes)
  {
    var n := |sizes| - 1;
    var rest := sizes[..i] + sizes[i + 1..];
    if i < n {
      SumRemove(sizes[..n], i);
      assert rest[..n - 1] == sizes[..n][..i] + sizes[..n][i + 1..] && rest[n - 1] == sizes[n];
    } else {
      assert rest == sizes[..n];
    }
  }

  datatype Outcome = Done | Failed | WouldBlock | OutOfRange

  /** The file and what was fetched stand for the view, active blocks are the device's, and the account is exact. */
  ghost predicate StandsFor(
    refs: seq<seq<Extent>>, image: Image, view: seq<Block>, eager: seq<Block>, active: map<nat, Block>, dirty: int,
    held: seq<nat>)
  {
    match image
    case Image(file, loaded, overridden) =>
      && LazyOk(refs, loaded, overridden, file, view, eager) && ImageOk(file) && ImageOk(view)
      && CaptureOk(active, file, overridden)
      && dirty == 4096 * (|active| + Sum(held))
  }

  /** What `Stored` leaves stands for the view with the bytes written. */
  lemma StoredStands(
    refs: seq<seq<Extent>>, before: Image, after: Image, view: seq<Block>, eager: seq<Block>, active: map<nat, Block>,
    next: map<nat, Block>, dirty: int, held: seq<nat>, off: nat, data: seq<Byte>, added: nat)
    requires StandsFor(refs, before, view, eager, active, dirty, held) && after.file == Patched(before.file, off, data)
    requires LazyOk(refs, after.loaded, after.overridden, after.file, Patched(view, off, data), eager)
    requires CaptureOk(next, after.file, after.overridden) && |next| == |active| + added
    ensures StandsFor(refs, after, Patched(view, off, data), eager, next, dirty + added * 4096, held)
  {
  }

  /** What `ReplayOne` leaves stands for the view with the generation laid over it. */
  lemma ReplayedStands(
    refs: seq<seq<Extent>>, before: Image, after: Image, view: seq<Block>, eager: seq<Block>, active: map<nat, Block>,
    dirty: int, held: seq<nat>, gen: map<nat, Block>)
    requires StandsFor(refs, before, view, eager, active, dirty, held) && active == map[]
    requires after.file == Overlay(before.file, gen) && GenerationOk(gen, |view|)
    requires LazyOk(refs, after.loaded, after.overridden, after.file, Overlay(view, gen), eager)
    ensures StandsFor(refs, after, Overlay(view, gen), eager, active, dirty + 4096 * |gen|, held + [|gen|])
  {
    OverlayOk(before.file, gen);
    OverlayOk(view, gen);
    SumAppend(held, |gen|);
  }

  /** A write on the values of a device: the image, the capture and the account move together. */
  method StoredImage(
    refs: seq<seq<Extent>>, before: Image, active: map<nat, Block>, dirty: int, data: seq<Byte>, off: nat,
    readBack: bool, pooled: Block, ghost view: seq<Block>, ghost eager: seq<Block>, ghost held: seq<nat>)
    returns (after: Image, next: map<nat, Block>, total: int, ghost patched: seq<Block>)
    requires StandsFor(refs, before, view, eager, active, dirty, held)
    requires PartsSettled(refs, before.loaded, before.overridden, off, |data|)
    requires 0 < |data| && off + |data| <= |before.file| * 4096 && |pooled| == 4096
    ensures StandsFor(refs, after, patched, eager, next, total, held) && patched == Patched(view, off, data)
    ensures total == dirty + 4096 * Missing(active, First(off), Last(off, |data|))
  {
    var file, now, added;
    file, now, next, added :=
      Stored(refs, before.loaded, before.overridden, before.file, active, off, data, pooled, readBack, view, eager);
    after, total := Image(file, before.loaded, now), dirty + added * 4096;
    StoredStands(refs, before, after, view, eager, active, next, dirty, held, off, data, added);
    patched := Patched(view, off, data);
  }

  class Device {
    const refs: seq<seq<Extent>>
    const sources: seq<Source>
    const segments: seq<map<nat, Block>>
    const maxDirty: nat

    var image: Image
    var active: map<nat, Block>
    var dirty: int

    /** The eagerly restored image, and what the device stands for: that image with every write applied. */
    ghost const eager: seq<Block>
    ghost var view: seq<Block>
    /** The sizes in blocks of the sealed generations that were not released yet. */
    ghost var unreleased: seq<nat>

    /** What never changes: the restore plan and the segments behind it. */
    ghost predicate PlanOk() {
      RefsOk(refs) && SourcesOk(refs, sources) && SegmentsOk(refs, segments, eager) && ImageOk(eager)
    }

    ghost predicate Valid()
      reads this
    {
      PlanOk() && StandsFor(refs, image, view, eager, active, dirty, unreleased)
    }

    /** `OpenDevice` on a sparse file with a lazy image: nothing fetched, nothing written. */
    constructor (
      refs: seq<seq<Extent>>, segments: seq<map<nat, Block>>, blocks: nat, maxDirty: nat, ghost eager: seq<Block>)
      requires RefsOk(refs) && SegmentsOk(refs, segments, eager) && ImageOk(eager) && |eager| == blocks
      requires forall b: nat :: b < blocks && (forall r :: 0 <= r < |refs| ==> !Covers(refs[r], b)) ==>
               eager[b] == Zeros(4096)
      ensures Valid() && view == eager && active == map[] && dirty == 0 && unreleased == []
      ensures this.refs == refs && image.overridden == [] && forall r :: 0 <= r < |refs| ==> !image.loaded[r]
    {
      var sorted := SortedSources(refs);
      this.refs, this.sources, this.segments, this.maxDirty, this.eager := refs, sorted, segments, maxDirty, eager;
      image := Image(Blank(blocks, Zeros(4096)), Blank(|refs|, false), []);
      active, dirty := map[], 0;
      view, unreleased := eager, [];
      new;
      FreshIsLazy(refs, image.loaded, image.file, eager);
    }

    /**
     `Hydrate`: fetching changes the file but not what the device stands for. It
     succeeds exactly when every reference that a requested block needs can be had.
     */
    method Fetch(requested: seq<Extent>, fetched: seq<bool>) returns (ok: bool)
      requires Valid() && Ordered(requested) && |fetched| == |refs|
      modifies this`image
      ensures Valid() && |image.file| == |old(image.file)| && image.overridden == old(image.overridden)
      ensures ok <==> forall r: nat :: Needs(refs, old(image.loaded), old(image.overridden), requested, r) ==>
              fetched[r]
      ensures ok ==> forall b: nat :: Covers(requested, b) ==> Settled(refs, image.loaded, image.overridden, b)
    {
      var now, file;
      ok, now, file := Hydrate(refs, sources, segments, fetched, requested, image.loaded, image.overridden, image.file,
          view, eager);
      image := Image(file, now, image.overridden);
    }

    /** Every reference that one of some blocks still needs can be fetched. */
    ghost predicate CanFetch(fetched: seq<bool>, blocks: iset<nat>)
      requires |fetched| == |refs| == |image.loaded|
      reads this`image
    {
      forall r: nat, b: nat :: b in blocks && Pending(refs, image.loaded, image.overridden, r, b) ==> fetched[r]
    }

    /** The same condition by blocks and by extents. */
    lemma FetchByBlocks(fetched: seq<bool>, blocks: iset<nat>, requested: seq<Extent>)
      requires |fetched| == |refs| == |image.loaded| && forall b: nat :: Covers(requested, b) <==> b in blocks
      ensures CanFetch(fetched, blocks) <==>
              forall r: nat :: Needs(refs, image.loaded, image.overridden, requested, r) ==> fetched[r]
    {
      if !CanFetch(fetched, blocks) {
        var r: nat, b: nat :| b in blocks && Pending(refs, image.loaded, image.overridden, r, b) && !fetched[r];
        assert NeededRef(refs, image.loaded, image.overridden, requested, r, b);
        assert Needs(refs, image.loaded, image.overridden, requested, r);
      }
    }

    /**
     `ReadAt`: a read succeeds exactly when it starts inside the device and what
     its blocks need can be fetched, and then it returns the bytes of the view.
     */
    method ReadAt(off: int, length: nat, fetched: seq<bool>) returns (r: Option<seq<Byte>>)
      requires Valid() && |fetched| == |refs|
      modifies this`image
      ensures Valid() && |image.file| == |old(image.file)|
      ensures r.Some? <==>
                && 0 <= off < |view| * 4096
                && old(CanFetch(fetched, TouchedBlocks(off, Min(length, |view| * 4096 - off))))
      ensures r.Some? ==> r.value == ReadBytes(view, off, Min(length, |view| * 4096 - off))
    {
      var size := |image.file| * 4096;
      if off < 0 || off >= size { return None; }
      var n := Min(length, size - off);
      var requested := ByteRange(off, n, size);
      forall b: nat ensures Covers(requested, b) <==> Touches(b, off, n) {
        RangeCovers(requested, off, n, size, b);
      }
      FetchByBlocks(fetched, TouchedBlocks(off, n), requested);
      var ok := Fetch(requested, fetched);
      if !ok { return None; }
      ReadSettled(refs, image.loaded, image.overridden, image.file, view, eager, off, n);
      return Some(ReadBytes(image.file, off, n));
    }

    /** Whether a request for blocks `first` to `last` has to wait for unpublished data to be released. */
    method MustWait(first: nat, last: nat) returns (wait: bool)
      requires first <= last
      ensures wait <==> dirty > 0 && dirty + 4096 * Missing(active, first, last) > maxDirty
    {
      var count := NewBlockCount(active, first, last);
      wait := dirty > 0 && dirty + count * 4096 > maxDirty;
    }

    /** The backpressure guard of a request, of no blocks if it has no bytes. */
    ghost predicate Blocked(off: nat, n: nat)
      reads this
    {
      dirty > 0 && dirty + 4096 * Missing(active, First(off), Last(off, n)) > maxDirty
    }

    /**
     `WriteAt` (`readBack` unset, any data) and `Trim` (`readBack` set, zeros). A
     request inside the device waits exactly while unpublished data would exceed
     the limit; it fails exactly when a block it covers in part cannot be fetched.
     Otherwise it is applied to the view and leaves the unpublished data within
     the limit, or within its own size.
     */
    method Write(data: seq<Byte>, off: int, readBack: bool, pooled: Block, fetched: seq<bool>) returns (out: Outcome)
      requires Valid() && |fetched| == |refs| && |pooled| == 4096
      modifies this`image, this`active, this`dirty, this`view
      ensures Valid() && |view| == |old(view)|
      ensures out.OutOfRange? <==> off < 0 || off + |data| > |old(view)| * 4096
      ensures out.WouldBlock? <==> !out.OutOfRange? && old(Blocked(off, |data|))
      ensures out.Failed? <==>
                && !out.OutOfRange? && !out.WouldBlock?
                && !old(CanFetch(fetched, PartialBlocks(off, |data|)))
      ensures out.Done? ==> view == Patched(old(view), off, data)
      ensures out.Done? && |data| > 0 ==> dirty <= Larger(maxDirty, 4096 * (Last(off, |data|) - First(off)))
      ensures !out.Done? ==> view == old(view) && dirty == old(dirty) && active == old(active)
    {
      if off < 0 || off + |data| > |image.file| * 4096 { return OutOfRange; }
      var first, last := First(off), Last(off, |data|);
      RangeInside(off, |data|, |image.file|);
      var wait := MustWait(first, last);
      if wait { return WouldBlock; }
      MissingBound(active, first, last);
      var ok := PrepareWrite(off, |data|, fetched);
      if !ok { return Failed; }
      if |data| == 0 {
        PatchedNothing(view, off);
      } else {
        Store(data, off, readBack, pooled);
      }
      return Done;
    }

    /** `PrepareWrite`: the blocks that a write covers only in part are fetched. */
    method PrepareWrite(off: nat, n: nat, fetched: seq<bool>) returns (ok: bool)
      requires Valid() && |fetched| == |refs|
      modifies this`image
      ensures Valid() && |image.file| == |old(image.file)|
      ensures ok <==> old(CanFetch(fetched, PartialBlocks(off, n)))
      ensures ok ==> PartsSettled(refs, image.loaded, image.overridden, off, n)
    {
      var boundaries := Boundaries(off, n);
      FetchByBlocks(fetched, PartialBlocks(off, n), boundaries);
      ok := Fetch(boundaries, fetched);
    }

    /** The bytes are written, captured and committed over the lazy image. */
    method Store(data: seq<Byte>, off: nat, readBack: bool, pooled: Block)
      requires Valid() && PartsSettled(refs, image.loaded, image.overridden, off, |data|)
      requires 0 < |data| && off + |data| <= |image.file| * 4096 && |pooled| == 4096
      modifies this`image, this`active, this`dirty, this`view
      ensures Valid() && view == Patched(old(view), off, data)
      ensures dirty == old(dirty) + 4096 * Missing(old(active), First(off), Last(off, |data|))
    {
      var after, next, total, patched :=
        StoredImage(refs, image, active, dirty, data, off, readBack, pooled, view, eager, unreleased);
      dirty := total;
      assert StandsFor(refs, after, patched, eager, next, dirty, unreleased);
      view := patched;
      assert StandsFor(refs, after, view, eager, next, dirty, unreleased);
      active := next;
      assert StandsFor(refs, after, view, eager, active, dirty, unreleased);
      image := after;
    }

    /** `sealLocked`: the active blocks become a generation; they stay accounted for. */
    method Seal() returns (gen: Option<map<nat, Block>>)
      requires Valid()
      modifies this`active, this`unreleased
      ensures Valid() && active == map[]
      ensures old(active) == map[] ==> gen == None && unreleased == old(unreleased)
      ensures old(active) != map[] ==> gen == Some(old(active)) && unreleased == old(unreleased) + [|old(active)|]
      ensures gen.Some? ==> forall b :: b in gen.value ==> b < |image.file| && gen.value[b] == image.file[b]
    {
      if active == map[] { return None; }
      SumAppend(unreleased, |active|);
      gen := Some(active);
      unreleased := unreleased + [|active|];
      active := map[];
    }

    /** `Release` of a generation that was sealed and not released before: the clamp at zero never fires. */
    method Release(gen: map<nat, Block>, ghost i: nat) returns (clamped: bool)
      requires Valid() && i < |unreleased| && unreleased[i] == |gen|
      modifies this`dirty, this`unreleased
      ensures Valid() && !clamped && dirty == old(dirty) - 4096 * |gen|
      ensures unreleased == old(unreleased)[..i] + old(unreleased)[i + 1..]
    {
      SumRemove(unreleased, i);
      var left: int := dirty - 4096 * |gen|;
      clamped := left < 0;
      dirty := if left < 0 then 0 else left;
      unreleased := unreleased[..i] + unreleased[i + 1..];
    }

    /** One journaled generation is laid over a device nothing was written to yet. */
    method ReplayGeneration(gen: map<nat, Block>)
      requires Valid() && active == map[] && GenerationOk(gen, |view|)
      modifies this`image, this`view, this`dirty, this`unreleased
      ensures Valid() && view == Overlay(old(view), gen) && unreleased == old(unreleased) + [|gen|]
    {
      var next := ReplayOne(refs, image, gen, view, eager);
      ghost var shown, held := Overlay(view, gen), unreleased + [|gen|];
      ReplayedStands(refs, image, next, view, eager, active, dirty, unreleased, gen);
      dirty := dirty + 4096 * |gen|;
      assert StandsFor(refs, next, shown, eager, active, dirty, held);
      view := shown;
      assert StandsFor(refs, next, view, eager, active, dirty, held);
      unreleased := held;
      assert StandsFor(refs, next, view, eager, active, dirty, unreleased);
      image := next;
    }

    /**
     `Replay`: all journaled generations in order. It fails exactly when a block of
     one of them has the wrong length or lies outside the volume; the mount then
     closes the device.
     */
    method Replay(gens: seq<map<nat, Block>>) returns (ok: bool)
      requires Valid() && active == map[]
      modifies this`image, this`view, this`dirty, this`unreleased
      ensures Valid() && |view| == |old(view)|
      ensures ok <==> AllOk(gens, |old(view)|)
      ensures ok ==> view == OverlayAll(old(view), gens) && unreleased == old(unreleased) + BlockCounts(gens)
    {
      assert gens[..0] == [];
      for i := 0 to |gens|
        invariant Valid() && active == map[] && |view| == |old(view)|
        invariant AllOk(gens[..i], |old(view)|)
        invariant view == OverlayAll(old(view), gens[..i]) && unreleased == old(unreleased) + BlockCounts(gens[..i])
      {
        var fits := CheckGeneration(gens[i], |image.file|);
        AllOkAt(gens, |old(view)|, i);
        if !fits { return false; }
        ReplayGeneration(gens[i]);
        OverlayNext(old(view), gens, i, old(unreleased));
      }
      assert gens[..|gens|] == gens;
      return true;
    }
  }

  function OverlayAll(image: seq<Block>, gens: seq<map<nat, Block>>): (r: seq<Block>)
    ensures |r| == |image|
  {
    if gens == [] then image else Overlay(OverlayAll(image, gens[..|gens| - 1]), gens[|gens| - 1])
  }

  /** Every generation has whole blocks inside the volume. */
  ghost predicate AllOk(gens: seq<map<nat, Block>>, blocks: nat) {
    gens == [] || (AllOk(gens[..|gens| - 1], blocks) && GenerationOk(gens[|gens| - 1], blocks))
  }

  lemma {:induction false} AllOkAt(gens: seq<map<nat, Block>>, blocks: nat, i: nat)
    requires i < |gens|
    ensures AllOk(gens, blocks) ==> GenerationOk(gens[i], blocks)
    ensures AllOk(gens[..i + 1], blocks) <==> AllOk(gens[..i], blocks) && GenerationOk(gens[i], blocks)
  {
    assert gens[..i + 1][..i] == gens[..i];
    if i < |gens| - 1 { AllOkAt(gens[..|gens| - 1], blocks, i); }
  }

  /** The sizes of generations, as they are accounted for. */
  function BlockCounts(gens: seq<map<nat, Block>>): seq<nat> { seq(|gens|, i requires 0 <= i < |gens| => |gens[i]|) }

  lemma OverlayNext(image: seq<Block>, gens: seq<map<nat, Block>>, i: nat, sizes: seq<nat>)
    requires i < |gens|
    ensures OverlayAll(image, gens[..i + 1]) == Overlay(OverlayAll(image, gens[..i]), gens[i])
    ensures sizes + BlockCounts(gens[..i + 1]) == (sizes + BlockCounts(gens[..i])) + [|gens[i]|]
  {
    assert gens[..i + 1][..i] == gens[..i];
  }

  /** The check of `Replay` on every block of a generation. */
  method CheckGeneration(gen: map<nat, Block>, blocks: nat) returns (ok: bool)
    ensures ok <==> GenerationOk(gen, blocks)
  {
    var left := gen.Keys;
    while left != {}
      invariant left <= gen.Keys && forall b :: b in gen && b !in left ==> b < blocks && |gen[b]| == 4096
      decreases |left|
    {
      var b: nat :| b in left;
      if |gen[b]| != 4096 || b >= blocks { return false; }
      left := left - {b};
    }
    return true;
  }

  lemma OverlayOk(image: seq<Block>, gen: map<nat, Block>)
    requires ImageOk(image) && GenerationOk(gen, |image|)
    ensures ImageOk(Overlay(image, gen))
  {
  }

  lemma PatchedNothing(image: seq<Block>, off: nat)
    requires ImageOk(image)
    ensures Patched(image, off, []) == image
  {
    forall b | 0 <= b < |image| ensures Patched(image, off, [])[b] == image[b] {
      PatchUntouched(image[b], b, off, []);
    }
  }

  lemma FreshIsLazy(refs: seq<seq<Extent>>, loaded: seq<bool>, file: seq<Block>, eager: seq<Block>)
    requires |loaded| == |refs| && (forall r :: 0 <= r < |refs| ==> !loaded[r]) && |file| == |eager|
    requires forall b :: 0 <= b < |file| ==> file[b] == Zeros(4096)
    requires forall b: nat :: b < |eager| && (forall r :: 0 <= r < |refs| ==> !Covers(refs[r], b)) ==>
             eager[b] == Zeros(4096)
    ensures LazyOk(refs, loaded, [], file, eager, eager)
  {
    forall b | 0 <= b < |file| && Settled(refs, loaded, [], b) ensures file[b] == eager[b] {
      assert !Covers([], b);
      assert forall r :: 0 <= r < |refs| ==> !Covers(refs[r], b);
    }
  }
}
