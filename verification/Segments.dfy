/**
 Segments (internal/replica/segment.go: `EncodeSegments`, `encodeSegmentBlocks`,
 `zeroExtents`, `blocksToExtents`, `decodeSegment`, `applyRuns`). A segment is a
 stream of runs of consecutive blocks; compression and checksum around the
 stream are lossless and not part of it.
 */
module Segments {
  import opened Options
  import opened Extents
  import opened Bytes

  const SEGMENT_MAGIC: seq<Byte> := [0x53, 0x41, 0x54, 0x53, 0x45, 0x47, 0x30, 0x31]
  const MAX_RUN_BLOCKS: nat := 256
  const MAX_IMAGE_BLOCKS: nat := 0x7_FFFF_FFFF_FFFF

  datatype Run = Run(start: nat, data: seq<Block>) {
    function End(): nat { start + |data| }

    predicate Has(b: nat) { start <= b < End() }

    /** The block the run has for a number in its range. */
    function At(b: nat): Block { if Has(b) then data[b - start] else [] }
  }

  /** Strictly ascending block numbers (`sortedBlocks`). */
  ghost predicate Sorted(blocks: seq<nat>) { forall i, j :: 0 <= i < j < |blocks| ==> blocks[i] < blocks[j] }

  // ----- Partition into segments -----

  function Flatten(chunks: seq<seq<nat>>): seq<nat> {
    if chunks == [] then [] else Flatten(chunks[..|chunks| - 1]) + chunks[|chunks| - 1]
  }

  const DEFAULT_SEGMENT_BLOCKS: nat := 1024

  /** How many blocks a segment holds; a size that is not positive stands for the default. */
  function PerSegment(blocksPerSegment: int): (n: nat)
    ensures n > 0
  {
    if blocksPerSegment <= 0 then DEFAULT_SEGMENT_BLOCKS else blocksPerSegment
  }

  /** `EncodeSegments` cuts the blocks of a generation into chunks: each block is in one of them, in order. */
  method Partition(blocks: seq<nat>, blocksPerSegment: int) returns (chunks: seq<seq<nat>>)
    requires blocks != []
    ensures Flatten(chunks) == blocks && |chunks| == (|blocks| - 1) / PerSegment(blocksPerSegment) + 1
    ensures forall i :: 0 <= i < |chunks| ==> 0 < |chunks[i]| <= PerSegment(blocksPerSegment)
  {
    var perSegment := PerSegment(blocksPerSegment);
    var count := (|blocks| - 1) / perSegment + 1;
    chunks := [];
    CountBounds(|blocks|, perSegment);
    for index := 0 to count
      invariant |chunks| == index && forall i :: 0 <= i < |chunks| ==> 0 < |chunks[i]| <= perSegment
      invariant Flatten(chunks) == blocks[..Min(|blocks|, index * perSegment)]
    {
      StartBounds(|blocks|, perSegment, index);
      var start := index * perSegment;
      var end := Min(|blocks|, start + perSegment);
      var chunk := blocks[start..end];
      assert (chunks + [chunk])[..|chunks|] == chunks;
      assert blocks[..start] + chunk == blocks[..end];
      chunks := chunks + [chunk];
      NextStart(perSegment, index);
    }
    assert blocks[..|blocks|] == blocks;
  }

  lemma CountBounds(n: nat, per: nat)
    requires n > 0 && per > 0
    ensures n <= ((n - 1) / per + 1) * per
  {
    var q := (n - 1) / per;
    assert n - 1 == q * per + (n - 1) % per;
    NextStart(per, q);
  }

  lemma StartBounds(n: nat, per: nat, index: nat)
    requires n > 0 && per > 0 && index < (n - 1) / per + 1
    ensures index * per < n
  {
    var q := (n - 1) / per;
    assert n - 1 == q * per + (n - 1) % per;
    assert index * per <= q * per by { MulMonotone(index, q, per); }
  }

  lemma {:induction false} MulMonotone(a: nat, b: nat, c: nat)
    requires a <= b
    ensures a * c <= b * c
  {
  }

  lemma NextStart(per: nat, index: nat)
    ensures (index + 1) * per == index * per + per
  {
  }

  // ----- Runs -----

  function LastEnd(runs: seq<Run>): nat { if runs == [] then 0 else runs[|runs| - 1].End() }

  /** Runs are short, not empty, in block order and do not overlap. */
  predicate RunsOk(runs: seq<Run>) {
    runs == [] ||
    (var front, last := runs[..|runs| - 1], runs[|runs| - 1];
     RunsOk(front) && 0 < |last.data| <= MAX_RUN_BLOCKS && LastEnd(front) <= last.start)
  }

  predicate InRuns(runs: seq<Run>, b: nat) {
    runs != [] && (InRuns(runs[..|runs| - 1], b) || runs[|runs| - 1].Has(b))
  }

  /** The blocks of a run have the content the generation has for them. */
  ghost predicate RunCarries(run: Run, content: map<nat, Block>) {
    forall k {:trigger CarriesAt(run, content, k)} :: 0 <= k < |run.data| ==> CarriesAt(run, content, k)
  }

  predicate CarriesAt(run: Run, content: map<nat, Block>, k: int)
    requires 0 <= k < |run.data|
  {
    run.start + k in content && run.data[k] == content[run.start + k]
  }

  ghost predicate Carries(runs: seq<Run>, content: map<nat, Block>) {
    runs == [] || (Carries(runs[..|runs| - 1], content) && RunCarries(runs[|runs| - 1], content))
  }

  function BlockCount(runs: seq<Run>): nat {
    if runs == [] then 0 else BlockCount(runs[..|runs| - 1]) + |runs[|runs| - 1].data|
  }

  /** What the run-building loop has done after some blocks. */
  ghost predicate Built(runs: seq<Run>, done: seq<nat>, content: map<nat, Block>) {
    && RunsOk(runs) && Carries(runs, content) && BlockCount(runs) == |done|
    && (forall b: nat :: InRuns(runs, b) <==> b in done)
    && (done == [] <==> runs == []) && (done != [] ==> LastEnd(runs) == done[|done| - 1] + 1)
  }

  /** Appending a run behind the others. */
  lemma AppendRun(runs: seq<Run>, run: Run, content: map<nat, Block>)
    requires RunsOk(runs) && Carries(runs, content) && 0 < |run.data| <= MAX_RUN_BLOCKS && LastEnd(runs) <= run.start
    requires RunCarries(run, content)
    ensures RunsOk(runs + [run]) && Carries(runs + [run], content)
    ensures BlockCount(runs + [run]) == BlockCount(runs) + |run.data|
    ensures forall b: nat :: InRuns(runs + [run], b) <==> InRuns(runs, b) || run.Has(b)
  {
    assert (runs + [run])[..|runs|] == runs;
  }

  /** A block behind the last run opens a new run. */
  lemma OpenRun(runs: seq<Run>, done: seq<nat>, content: map<nat, Block>, block: nat)
    requires Built(runs, done, content) && block in content && (done != [] ==> done[|done| - 1] < block)
    ensures Built(runs + [Run(block, [content[block]])], done + [block], content)
  {
    AppendRun(runs, Run(block, [content[block]]), content);
  }

  lemma CarriesMore(run: Run, more: Run, content: map<nat, Block>)
    requires RunCarries(run, content) && run.End() in content
    requires more.start == run.start && more.data == run.data + [content[run.End()]]
    ensures RunCarries(more, content)
  {
    forall k | 0 <= k < |more.data| ensures CarriesAt(more, content, k) {
      if k < |run.data| { assert CarriesAt(run, content, k); }
    }
  }

  /** A block right behind a run that is not full extends it. */
  lemma ExtendRun(runs: seq<Run>, done: seq<nat>, content: map<nat, Block>, block: nat)
    requires Built(runs, done, content) && block in content && runs != []
    requires block == LastEnd(runs) && |runs[|runs| - 1].data| < MAX_RUN_BLOCKS
    ensures var n := |runs| - 1;
            Built(runs[..n] + [Run(runs[n].start, runs[n].data + [content[block]])], done + [block], content)
  {
    var n := |runs| - 1;
    var run := Run(runs[n].start, runs[n].data + [content[block]]);
    CarriesMore(runs[n], run, content);
    AppendRun(runs[..n], run, content);
    forall b: nat ensures InRuns(runs[..n] + [run], b) <==> b in done + [block] {
      assert InRuns(runs, b) <==> InRuns(runs[..n], b) || runs[n].Has(b);
      assert run.Has(b) <==> runs[n].Has(b) || b == block;
    }
  }

  /** The run-building loop of `encodeSegmentBlocks`; a block of the wrong length is an error. */
  method BuildRuns(blocks: seq<nat>, content: map<nat, Block>) returns (r: Option<seq<Run>>)
    requires Sorted(blocks) && forall b :: b in blocks ==> b in content
    ensures r.Some? <==> forall b :: b in blocks ==> |content[b]| == 4096
    ensures r.Some? ==> RunsOk(r.value) && Carries(r.value, content) && BlockCount(r.value) == |blocks|
    ensures r.Some? ==> forall b: nat :: InRuns(r.value, b) <==> b in blocks
  {
    var runs: seq<Run> := [];
    for i := 0 to |blocks|
      invariant Built(runs, blocks[..i], content)
      invariant forall j :: 0 <= j < i ==> |content[blocks[j]]| == 4096
    {
      var block := blocks[i];
      assert block in blocks && blocks[..i + 1] == blocks[..i] + [block];
      if |content[block]| != 4096 { return None; }
      var n := |runs| - 1;
      if |runs| == 0 || block != runs[n].End() || |runs[n].data| >= MAX_RUN_BLOCKS {
        OpenRun(runs, blocks[..i], content, block);
        runs := runs + [Run(block, [content[block]])];
      } else {
        ExtendRun(runs, blocks[..i], content, block);
        runs := runs[..n] + [Run(runs[n].start, runs[n].data + [content[block]])];
      }
    }
    assert blocks[..|blocks|] == blocks;
    return Some(runs);
  }

  // ----- Zero extents -----

  ghost predicate ExtentsOf(extents: seq<Extent>, done: seq<nat>) {
    && Separated(extents) && (extents == [] <==> done == [])
    && (done != [] ==> extents[|extents| - 1].End() == done[|done| - 1] + 1)
    && (forall b: nat :: Covers(extents, b) <==> b in done)
  }

  lemma OpenExtent(extents: seq<Extent>, done: seq<nat>, block: nat)
    requires ExtentsOf(extents, done) && (done != [] ==> done[|done| - 1] + 1 < block)
    ensures ExtentsOf(extents + [Extent(block, 1)], done + [block])
  {
    forall b: nat ensures Covers(extents + [Extent(block, 1)], b) <==> b in done + [block] {
      CoversAppend(extents, Extent(block, 1), b);
    }
  }

  lemma GrowExtent(extents: seq<Extent>, done: seq<nat>, block: nat)
    requires ExtentsOf(extents, done) && done != [] && extents[|extents| - 1].End() == block
    ensures var n := |extents| - 1;
            ExtentsOf(extents[..n] + [Extent(extents[n].start, extents[n].blocks + 1)], done + [block])
  {
    var n := |extents| - 1;
    var last := Extent(extents[n].start, extents[n].blocks + 1);
    assert extents[..n] + [extents[n]] == extents;
    forall b: nat ensures Covers(extents[..n] + [last], b) <==> b in done + [block] {
      CoversAppend(extents[..n], extents[n], b);
      CoversAppend(extents[..n], last, b);
    }
  }

  /** `blocksToExtents`: the canonical extents of a sorted list of blocks. */
  method BlocksToExtents(blocks: seq<nat>) returns (extents: seq<Extent>)
    requires Sorted(blocks)
    ensures Separated(extents) && forall b: nat :: Covers(extents, b) <==> b in blocks
  {
    extents := [];
    for i := 0 to |blocks|
      invariant ExtentsOf(extents, blocks[..i])
    {
      var block, n := blocks[i], |extents| - 1;
      assert blocks[..i + 1] == blocks[..i] + [block];
      if |extents| == 0 || extents[n].End() != block {
        OpenExtent(extents, blocks[..i], block);
        extents := extents + [Extent(block, 1)];
      } else {
        GrowExtent(extents, blocks[..i], block);
        extents := extents[..n] + [Extent(extents[n].start, extents[n].blocks + 1)];
      }
    }
    assert blocks[..|blocks|] == blocks;
  }

  predicate IsZero(block: Block) { forall i :: 0 <= i < |block| ==> block[i] == 0 }

  /** `zeroExtents`: exactly the blocks whose content is zero. */
  method ZeroExtents(blocks: seq<nat>, content: map<nat, Block>) returns (extents: seq<Extent>)
    requires Sorted(blocks) && forall b :: b in blocks ==> b in content
    ensures Separated(extents)
    ensures forall b: nat :: Covers(extents, b) <==> b in blocks && IsZero(content[b])
  {
    var zeros: seq<nat> := [];
    for i := 0 to |blocks|
      invariant Sorted(zeros) && (forall b :: b in zeros <==> b in blocks[..i] && IsZero(content[b]))
    {
      var block := blocks[i];
      assert block in blocks && blocks[..i + 1] == blocks[..i] + [block];
      forall k | 0 <= k < |zeros| ensures zeros[k] < block {
        assert zeros[k] in zeros;
      }
      if IsZero(content[block]) { zeros := zeros + [block]; }
    }
    assert blocks[..|blocks|] == blocks;
    extents := BlocksToExtents(zeros);
  }

  // ----- The stream -----

  function Join(data: seq<Block>): seq<Byte> { if data == [] then [] else data[0] + Join(data[1..]) }

  function Blocks(bytes: seq<Byte>, n: nat): seq<Block>
    requires |bytes| == n * 4096
  {
    if n == 0 then [] else [bytes[..4096]] + Blocks(bytes[4096..], n - 1)
  }

  ghost predicate AllBlocks(data: seq<Block>) { forall i :: 0 <= i < |data| ==> |data[i]| == 4096 }

  lemma {:induction false} BlocksOfJoin(data: seq<Block>)
    requires AllBlocks(data)
    ensures |Join(data)| == |data| * 4096 && Blocks(Join(data), |data|) == data
  {
    if data != [] {
      BlocksOfJoin(data[1..]);
      assert Join(data)[..4096] == data[0] && Join(data)[4096..] == Join(data[1..]);
      assert [data[0]] + data[1..] == data;
    }
  }

  function EncodeRun(run: Run): seq<Byte> {
    BigEndian(run.start, 8) + BigEndian(|run.data| * 4096, 4) + Join(run.data)
  }

  function EncodeRuns(runs: seq<Run>): seq<Byte> {
    if runs == [] then [] else EncodeRun(runs[0]) + EncodeRuns(runs[1..])
  }

  /** The uncompressed stream of `encodeSegmentBlocks`. */
  function Stream(runs: seq<Run>): seq<Byte> {
    SEGMENT_MAGIC + BigEndian(4096, 4) + BigEndian(|runs|, 4) + EncodeRuns(runs)
  }

  datatype RunRead = RunRead(run: Run, rest: seq<Byte>) | BadRun

  /** One round of the loop of `decodeSegment`; `left` blocks may still come and none below `low`. */
  function ReadRun(bytes: seq<Byte>, left: nat, low: nat): (r: RunRead)
    ensures r.RunRead? ==>
            0 < |r.run.data| <= MAX_RUN_BLOCKS && |r.run.data| <= left && low <= r.run.start && |r.rest| < |bytes|
  {
    if |bytes| < 12 then BadRun
    else
      var start, length := Number(bytes[..8]), Number(bytes[8..12]);
      if length == 0 || length % 4096 != 0 || length > MAX_RUN_BLOCKS * 4096 then BadRun
      else
        var n := length / 4096;
        if n > left || start + n > MAX_IMAGE_BLOCKS || start < low || |bytes| < 12 + length then BadRun
        else
          assert length == n * 4096;
          RunRead(Run(start, DataOf(bytes[12..12 + length], n)), bytes[12 + length..])
  }

  function DataOf(bytes: seq<Byte>, n: nat): (data: seq<Block>)
    requires |bytes| == n * 4096
    ensures |data| == n
  {
    BlocksLength(bytes, n);
    Blocks(bytes, n)
  }

  lemma {:induction false} BlocksLength(bytes: seq<Byte>, n: nat)
    requires |bytes| == n * 4096
    ensures |Blocks(bytes, n)| == n
  {
    if n > 0 { BlocksLength(bytes[4096..], n - 1); }
  }

  /** The loop of `decodeSegment`: all the blocks that were promised, and nothing behind them. */
  function ReadRuns(bytes: seq<Byte>, count: nat, left: nat, low: nat): Option<seq<Run>>
    decreases count
  {
    if count == 0 then (if bytes == [] && left == 0 then Some([]) else None)
    else
      match ReadRun(bytes, left, low)
      case BadRun => None
      case RunRead(run, rest) =>
        match ReadRuns(rest, count - 1, left - |run.data|, run.End())
        case None => None
        case Some(runs) => Some([run] + runs)
  }

  /** `decodeSegment` of a stream that should hold `blocks` blocks. */
  function Decode(stream: seq<Byte>, blocks: nat): Option<seq<Run>> {
    if |stream| < 16 || stream[..8] != SEGMENT_MAGIC || Number(stream[8..12]) != 4096 then None
    else
      var count := Number(stream[12..16]);
      if blocks == 0 || count > blocks then None else ReadRuns(stream[16..], count, blocks, 0)
  }

  lemma {:induction false} ReadRunInverts(run: Run, rest: seq<Byte>, left: nat, low: nat)
    requires 0 < |run.data| <= MAX_RUN_BLOCKS && |run.data| <= left && AllBlocks(run.data)
    requires low <= run.start && run.End() <= MAX_IMAGE_BLOCKS
    ensures ReadRun(EncodeRun(run) + rest, left, low) == RunRead(run, rest)
  {
    var n := |run.data|;
    var bytes := EncodeRun(run) + rest;
    BlocksOfJoin(run.data);
    Widths();
    NumberOfBigEndian(run.start, 8);
    NumberOfBigEndian(n * 4096, 4);
    RunFields(BigEndian(run.start, 8), BigEndian(n * 4096, 4), Join(run.data), rest);
    assert (n * 4096) / 4096 == n && (n * 4096) % 4096 == 0;
  }

  lemma RunFields(start: seq<Byte>, length: seq<Byte>, data: seq<Byte>, rest: seq<Byte>)
    requires |start| == 8 && |length| == 4
    ensures var bytes := start + length + data + rest;
            && |bytes| == 12 + |data| + |rest| && bytes[..8] == start && bytes[8..12] == length
            && bytes[12..12 + |data|] == data && bytes[12 + |data|..] == rest
  {
  }

  /** What the encoder hands to the stream: proper runs from `low` on, of `count` blocks in all. */
  ghost predicate Encodable(runs: seq<Run>, low: nat, count: nat) {
    if runs == [] then count == 0
    else
      && 0 < |runs[0].data| <= MAX_RUN_BLOCKS && |runs[0].data| <= count && AllBlocks(runs[0].data)
      && low <= runs[0].start && runs[0].End() <= MAX_IMAGE_BLOCKS
      && Encodable(runs[1..], runs[0].End(), count - |runs[0].data|)
  }

  lemma {:induction false} ReadRunsInverts(runs: seq<Run>, low: nat, count: nat)
    requires Encodable(runs, low, count)
    ensures ReadRuns(EncodeRuns(runs), |runs|, count, low) == Some(runs)
  {
    if runs != [] {
      var run, rest := runs[0], runs[1..];
      var next, left := run.End(), count - |run.data|;
      ReadRunsInverts(rest, next, left);
      ReadFirstRun(run, rest, low, count, next, left);
      assert [run] + rest == runs;
    }
  }

  lemma {:induction false} ReadFirstRun(run: Run, rest: seq<Run>, low: nat, count: nat, next: nat, left: nat)
    requires 0 < |run.data| <= MAX_RUN_BLOCKS && AllBlocks(run.data) && low <= run.start
    requires run.End() <= MAX_IMAGE_BLOCKS
    requires next == run.End() && count == left + |run.data|
    requires ReadRuns(EncodeRuns(rest), |rest|, left, next) == Some(rest)
    ensures ReadRuns(EncodeRun(run) + EncodeRuns(rest), |rest| + 1, count, low) == Some([run] + rest)
  {
    ReadRunInverts(run, EncodeRuns(rest), count, low);
  }

  lemma {:induction false} EncodableCount(runs: seq<Run>, low: nat, count: nat)
    requires Encodable(runs, low, count)
    ensures |runs| <= count
  {
    if runs != [] { EncodableCount(runs[1..], runs[0].End(), count - |runs[0].data|); }
  }

  /** A segment decodes to exactly the runs it was made of. */
  lemma SegmentRoundTrip(runs: seq<Run>, count: nat)
    requires Encodable(runs, 0, count) && 0 < count < 0x1_0000_0000
    ensures Decode(Stream(runs), count) == Some(runs)
  {
    var stream := Stream(runs);
    Widths();
    EncodableCount(runs, 0, count);
    NumberOfBigEndian(4096, 4);
    NumberOfBigEndian(|runs|, 4);
    assert stream[..8] == SEGMENT_MAGIC && stream[8..12] == BigEndian(4096, 4) &&
           stream[12..16] == BigEndian(|runs|, 4);
    assert stream[16..] == EncodeRuns(runs);
    ReadRunsInverts(runs, 0, count);
  }

  /** Runs that were built from blocks inside the image can be encoded. */
  lemma {:induction false} BuiltIsEncodable(runs: seq<Run>, content: map<nat, Block>)
    requires RunsOk(runs) && Carries(runs, content) && LastEnd(runs) <= MAX_IMAGE_BLOCKS
    requires forall b: nat :: InRuns(runs, b) && b in content ==> |content[b]| == 4096
    ensures Encodable(runs, 0, BlockCount(runs))
  {
    if runs != [] {
      var n := |runs| - 1;
      BuiltIsEncodable(runs[..n], content);
      var last := runs[n];
      assert RunCarries(last, content);
      forall k | 0 <= k < |last.data| ensures |last.data[k]| == 4096 {
        assert CarriesAt(last, content, k);
        assert last.Has(last.start + k);
      }
      EncodableAppend(runs[..n], runs[n], 0, BlockCount(runs[..n]));
      assert runs[..n] + [runs[n]] == runs;
    }
  }

  lemma {:induction false} EncodableAppend(runs: seq<Run>, run: Run, low: nat, count: nat)
    requires Encodable(runs, low, count) && (if runs == [] then low else LastEnd(runs)) <= run.start
    requires 0 < |run.data| <= MAX_RUN_BLOCKS && AllBlocks(run.data) && run.End() <= MAX_IMAGE_BLOCKS
    ensures Encodable(runs + [run], low, count + |run.data|)
  {
    var all := runs + [run];
    if runs == [] {
      assert all[0] == run && all[1..] == [];
    } else {
      assert all[0] == runs[0] && all[1..] == runs[1..] + [run];
      if |runs| > 1 { assert runs[1..][|runs| - 2] == runs[|runs| - 1]; }
      EncodableAppend(runs[1..], run, runs[0].End(), count - |runs[0].data|);
    }
  }

  /** The extents a segment records, which are also what `applyRuns` selects by default: one for each run. */
  function RunExtents(runs: seq<Run>): (es: seq<Extent>)
    ensures |es| == |runs| && forall i :: 0 <= i < |es| ==> es[i] == Extent(runs[i].start, |runs[i].data|)
  {
    seq(|runs|, i requires 0 <= i < |runs| => Extent(runs[i].start, |runs[i].data|))
  }

  /** The recorded extents are valid and denote exactly the blocks of the runs; their total is the block count. */
  lemma {:induction false} RunExtentsAreTheBlocks(runs: seq<Run>)
    requires RunsOk(runs)
    ensures Ordered(RunExtents(runs)) && Total(RunExtents(runs)) == BlockCount(runs)
    ensures forall b: nat :: Covers(RunExtents(runs), b) <==> InRuns(runs, b)
  {
    if runs != [] {
      var front, last := runs[..|runs| - 1], runs[|runs| - 1];
      var e := Extent(last.start, |last.data|);
      RunExtentsAreTheBlocks(front);
      assert RunExtents(runs) == RunExtents(front) + [e];
      OrderedAppend(RunExtents(front), e);
      assert (RunExtents(front) + [e])[..|front|] == RunExtents(front);
      forall b: nat ensures Covers(RunExtents(runs), b) <==> InRuns(runs, b) { CoversAppend(RunExtents(front), e, b); }
    }
  }

  // ----- Applying runs -----

  /** Some run has the block; runs of a decoded segment do not overlap. */
  ghost predicate Applied(runs: seq<Run>, selected: seq<Extent>, before: seq<Block>, after: seq<Block>) {
    && |after| == |before|
    && (forall b :: 0 <= b < |before| ==> after[b] == AppliedBlock(runs, selected, before[b], b))
  }

  ghost function AppliedBlock(runs: seq<Run>, selected: seq<Extent>, block: Block, b: nat): Block {
    if runs == [] then block
    else
      var last := runs[|runs| - 1];
      if last.Has(b) && Covers(selected, b) then last.At(b) else AppliedBlock(runs[..|runs| - 1], selected, block, b)
  }

  /** The blocks of one overlap are copied from the run; a hole punched for zeros reads as zeros. */
  method CopyOverlap(file: seq<Block>, run: Run, overlap: Extent) returns (r: seq<Block>)
    requires overlap.End() <= |file| && forall b: nat :: overlap.Has(b) ==> run.Has(b)
    ensures |r| == |file|
    ensures forall b :: 0 <= b < |file| ==> r[b] == if overlap.Has(b) then run.At(b) else file[b]
  {
    r := file;
    for b := overlap.start to overlap.End()
      invariant |r| == |file|
      invariant forall c :: 0 <= c < |file| ==> r[c] == if overlap.start <= c < b then run.At(c) else file[c]
    {
      assert overlap.Has(b);
      r := r[b := run.At(b)];
    }
  }

  /** The overlaps of one run; the error is an overlap outside the image. */
  method ApplyRun(file: seq<Block>, run: Run, selected: seq<Extent>) returns (ok: bool, r: seq<Block>)
    requires Ordered(selected)
    ensures |r| == |file|
    ensures ok ==> forall b :: 0 <= b < |file| ==>
            r[b] == if run.Has(b) && Covers(selected, b) then run.At(b) else file[b]
    ensures ok <==> forall b: nat :: run.Has(b) && Covers(selected, b) ==> b < |file|
  {
    r := file;
    var overlaps := Intersect(Extent(run.start, |run.data|), selected);
    for n := 0 to |overlaps|
      invariant |r| == |file|
      invariant forall b: nat :: Covers(overlaps[..n], b) ==> b < |file|
      invariant forall b :: 0 <= b < |file| ==> r[b] == if Covers(overlaps[..n], b) then run.At(b) else file[b]
    {
      OverlapNext(overlaps, n);
      assert forall b: nat :: overlaps[n].Has(b) ==> run.Has(b);
      if overlaps[n].End() > |file| {
        var b := overlaps[n].End() - 1;
        assert overlaps[n].Has(b) && run.Has(b) && Covers(selected, b);
        return false, r;
      }
      r := CopyOverlap(r, run, overlaps[n]);
    }
    assert overlaps[..|overlaps|] == overlaps;
    return true, r;
  }

  lemma OverlapNext(es: seq<Extent>, n: nat)
    requires n < |es| && Ordered(es)
    ensures forall b: nat :: Covers(es[..n + 1], b) <==> Covers(es[..n], b) || es[n].Has(b)
    ensures (forall b: nat :: es[n].Has(b) ==> Covers(es, b)) && es[n].Has(es[n].End() - 1)
  {
    assert es[..n + 1] == es[..n] + [es[n]];
    forall b: nat ensures Covers(es[..n + 1], b) <==> Covers(es[..n], b) || es[n].Has(b) {
      CoversAppend(es[..n], es[n], b);
    }
  }

  /** `applyRuns`: exactly the selected blocks of the runs are written; anything outside the image is an error. */
  method ApplyRuns(file: seq<Block>, runs: seq<Run>, selected: seq<Extent>) returns (ok: bool, r: seq<Block>)
    requires Ordered(selected)
    ensures ok ==> Applied(runs, selected, file, r)
    ensures ok <==> forall i, b: nat {:trigger runs[i].Has(b)} ::
                      0 <= i < |runs| && runs[i].Has(b) && Covers(selected, b) ==> b < |file|
  {
    r := file;
    for n := 0 to |runs|
      invariant Applied(runs[..n], selected, file, r)
      invariant forall i, b: nat {:trigger runs[i].Has(b)} :: 0 <= i < n && runs[i].Has(b) && Covers(selected, b) ==>
                b < |file|
    {
      ghost var before := r;
      var fine;
      fine, r := ApplyRun(r, runs[n], selected);
      if !fine { return false, r; }
      assert runs[..n + 1][..n] == runs[..n];
    }
    assert runs[..|runs|] == runs;
    return true, r;
  }

  /** Selected blocks get the generation's content, whichever run carries them; the others are untouched. */
  lemma {:induction false} AppliedIsContent(
    runs: seq<Run>, content: map<nat, Block>, selected: seq<Extent>, block: Block, b: nat)
    requires Carries(runs, content)
    ensures InRuns(runs, b) ==> b in content
    ensures AppliedBlock(runs, selected, block, b) ==
            if InRuns(runs, b) && Covers(selected, b) then content[b] else block
  {
    if runs != [] {
      var last := runs[|runs| - 1];
      AppliedIsContent(runs[..|runs| - 1], content, selected, block, b);
      if last.Has(b) { assert CarriesAt(last, content, b - last.start); }
    }
  }

  /**
   From a generation to its segment and back: what `BuildRuns` made of a chunk of
   blocks decodes to the same runs, and applying them with the whole segment
   selected writes exactly the chunk's blocks with their content.
   */
  lemma SegmentRestoresItsBlocks(
    blocks: seq<nat>, content: map<nat, Block>, runs: seq<Run>, selected: seq<Extent>, before: seq<Block>,
    after: seq<Block>)
    requires 0 < |blocks| < 0x1_0000_0000 && (forall b :: b in content ==> |content[b]| == 4096)
    requires RunsOk(runs) && Carries(runs, content) && BlockCount(runs) == |blocks| && LastEnd(runs) <= MAX_IMAGE_BLOCKS
    requires forall b: nat :: InRuns(runs, b) <==> b in blocks
    requires Applied(runs, selected, before, after)
    ensures Decode(Stream(runs), |blocks|) == Some(runs)
    ensures forall b :: 0 <= b < |before| ==>
              (b in blocks ==> b in content) &&
              after[b] == if b in blocks && Covers(selected, b) then content[b] else before[b]
  {
    BuiltIsEncodable(runs, content);
    SegmentRoundTrip(runs, |blocks|);
    forall b | 0 <= b < |before|
      ensures b in blocks ==> b in content
      ensures after[b] == if b in blocks && Covers(selected, b) then content[b] else before[b]
    {
      AppliedIsContent(runs, content, selected, before[b], b);
    }
  }

  // ----- A whole generation -----

  /** A segment with what its manifest records about it; compression is left out. */
  datatype Segment = Segment(stream: seq<Byte>, blocks: nat, extents: seq<Extent>, zeroExtents: seq<Extent>)

  ghost predicate RunsOf(runs: seq<Run>, chunk: seq<nat>, content: map<nat, Block>) {
    && RunsOk(runs) && Carries(runs, content) && BlockCount(runs) == |chunk|
    && (forall b: nat :: InRuns(runs, b) <==> b in chunk)
  }

  /** The segment decodes to exactly the blocks of the chunk, and its extents and zero extents tell the truth. */
  ghost predicate Encodes(segment: Segment, chunk: seq<nat>, content: map<nat, Block>) {
    && (exists runs :: Decode(segment.stream, segment.blocks) == Some(runs) && RunsOf(runs, chunk, content) &&
          segment.extents == RunExtents(runs))
    && segment.blocks == |chunk| && Ordered(segment.extents) && Ordered(segment.zeroExtents)
    && (forall b: nat :: Covers(segment.extents, b) <==> b in chunk)
    && (forall b: nat :: Covers(segment.zeroExtents, b) <==> b in chunk && b in content && IsZero(content[b]))
  }

  lemma LastEndInChunk(runs: seq<Run>, chunk: seq<nat>, content: map<nat, Block>, limit: nat)
    requires RunsOf(runs, chunk, content) && forall b :: b in chunk ==> b < limit
    ensures LastEnd(runs) <= limit
  {
    if runs != [] {
      var last := runs[|runs| - 1];
      assert last.Has(last.End() - 1);
      assert InRuns(runs, last.End() - 1);
    }
  }

  /** The run count of a segment is a number of 32 bits; the encoder drops higher ones. */
  const MAX_RUNS: nat := 0x1_0000_0000

  /** `encodeSegmentBlocks`. */
  method EncodeChunk(chunk: seq<nat>, content: map<nat, Block>) returns (r: Option<Segment>)
    requires Sorted(chunk) && 0 < |chunk|
    requires forall b :: b in chunk ==> b in content && b < MAX_IMAGE_BLOCKS
    ensures r.Some? <==> forall b :: b in chunk ==> |content[b]| == 4096
    ensures r.Some? && |chunk| < MAX_RUNS ==> Encodes(r.value, chunk, content)
  {
    var built := BuildRuns(chunk, content);
    if built.None? { return None; }
    var runs := built.value;
    var zeros := ZeroExtents(chunk, content);
    assert RunsOf(runs, chunk, content);
    LastEndInChunk(runs, chunk, content, MAX_IMAGE_BLOCKS);
    BuiltIsEncodable(runs, content);
    if |chunk| < MAX_RUNS { SegmentRoundTrip(runs, |chunk|); }
    RunExtentsAreTheBlocks(runs);
    assert Ordered(zeros);
    r := Some(Segment(Stream(runs), |chunk|, RunExtents(runs), zeros));
  }

  lemma {:induction false} LeastOf(left: set<nat>) returns (least: nat)
    requires left != {}
    ensures least in left && forall b :: b in left ==> least <= b
  {
    var some :| some in left;
    var rest := left - {some};
    if rest == {} {
      assert left == {some};
      return some;
    }
    var other := LeastOf(rest);
    least := if other < some then other else some;
    assert forall b :: b in left ==> b == some || b in rest;
  }

  lemma SortedAppend(blocks: seq<nat>, block: nat)
    requires Sorted(blocks) && forall b :: b in blocks ==> b < block
    ensures Sorted(blocks + [block])
  {
    forall i, j | 0 <= i < j < |blocks| + 1 ensures (blocks + [block])[i] < (blocks + [block])[j] {
      assert blocks[i] in blocks;
    }
  }

  /** `sortedBlocks`. */
  method SortedBlocks(content: map<nat, Block>) returns (blocks: seq<nat>)
    ensures Sorted(blocks) && |blocks| == |content| && forall b :: b in blocks <==> b in content
  {
    blocks := [];
    var left := content.Keys;
    while left != {}
      invariant left <= content.Keys && Sorted(blocks) && |blocks| + |left| == |content|
      invariant forall b :: b in content <==> b in left || b in blocks
      invariant forall b, x :: b in blocks && x in left ==> b < x
      decreases |left|
    {
      ghost var witnessed := LeastOf(left);
      var least: nat :| least in left && forall b :: b in left ==> least <= b;
      SortedAppend(blocks, least);
      blocks := blocks + [least];
      left := left - {least};
    }
  }

  ghost predicate AllEncode(segments: seq<Segment>, chunks: seq<seq<nat>>, content: map<nat, Block>) {
    |segments| == |chunks| && forall i :: 0 <= i < |chunks| ==> Encodes(segments[i], chunks[i], content)
  }

  lemma EncodeNext(segments: seq<Segment>, chunks: seq<seq<nat>>, content: map<nat, Block>, i: nat, segment: Segment)
    requires i < |chunks| && AllEncode(segments, chunks[..i], content) && Encodes(segment, chunks[i], content)
    ensures AllEncode(segments + [segment], chunks[..i + 1], content)
  {
    forall j | 0 <= j < i + 1 ensures Encodes((segments + [segment])[j], chunks[..i + 1][j], content) {
      if j < i { assert Encodes(segments[j], chunks[..i][j], content); }
    }
  }

  /** The blocks exist and have the right length. */
  ghost predicate Proper(blocks: seq<nat>, content: map<nat, Block>) {
    forall b :: b in blocks ==> b in content && |content[b]| == 4096
  }

  ghost predicate Inside(blocks: seq<nat>, size: nat) { forall b :: b in blocks ==> b < size }

  lemma BothParts(xs: seq<nat>, ys: seq<nat>, content: map<nat, Block>, size: nat)
    ensures Proper(xs + ys, content) <==> Proper(xs, content) && Proper(ys, content)
    ensures Inside(xs + ys, size) <==> Inside(xs, size) && Inside(ys, size)
  {
    assert forall b :: b in xs || b in ys ==> b in xs + ys;
  }

  /** Segments that hold every block of a generation, each in one of them. */
  ghost predicate IsEncoding(segments: seq<Segment>, content: map<nat, Block>) {
    exists chunks: seq<seq<nat>> ::
      AllEncode(segments, chunks, content) && Sorted(Flatten(chunks)) &&
          forall b :: b in Flatten(chunks) <==> b in content
  }

  lemma {:induction false} ChunkOfAll(chunks: seq<seq<nat>>, i: nat)
    requires i < |chunks| && Sorted(Flatten(chunks))
    ensures Sorted(chunks[i]) && forall b :: b in chunks[i] ==> b in Flatten(chunks)
  {
    var front, last := chunks[..|chunks| - 1], chunks[|chunks| - 1];
    var all := Flatten(chunks);
    assert all == Flatten(front) + last;
    forall j, k | 0 <= j < k < |last| ensures last[j] < last[k] {
      assert all[|Flatten(front)| + j] < all[|Flatten(front)| + k];
    }
    if i < |front| {
      assert Sorted(Flatten(front)) by {
        forall j, k | 0 <= j < k < |Flatten(front)|
          ensures Flatten(front)[j] < Flatten(front)[k] { assert all[j] < all[k]; }
      }
      ChunkOfAll(front, i);
    }
  }

  lemma {:induction false} ChunkSize(chunks: seq<seq<nat>>, i: nat)
    requires i < |chunks|
    ensures |chunks[i]| <= |Flatten(chunks)|
  {
    if i < |chunks| - 1 { ChunkSize(chunks[..|chunks| - 1], i); }
  }

  /** Chunks are small enough for the format if the segment size is, or the generation. */
  predicate Fits(blocks: seq<nat>, blocksPerSegment: int) {
    PerSegment(blocksPerSegment) < MAX_RUNS || |blocks| < MAX_RUNS
  }

  /** `EncodeSegments` on the blocks of a generation in order. */
  method EncodeBlocks(
    blocks: seq<nat>, content: map<nat, Block>, blocksPerSegment: int)
    returns (r: Option<seq<Segment>>)
    requires Sorted(blocks) && blocks != [] && forall b :: b in blocks <==> b in content
    requires forall b :: b in content ==> b < MAX_IMAGE_BLOCKS
    ensures r.Some? <==> Proper(blocks, content)
    ensures r.Some? && Fits(blocks, blocksPerSegment) ==> IsEncoding(r.value, content)
  {
    var chunks := Partition(blocks, blocksPerSegment);
    var segments: seq<Segment> := [];
    for i := 0 to |chunks|
      invariant Fits(blocks, blocksPerSegment) ==> AllEncode(segments, chunks[..i], content)
      invariant Proper(Flatten(chunks[..i]), content)
    {
      ChunkOfAll(chunks, i);
      ChunkSize(chunks, i);
      FlattenNext(chunks, i);
      BothParts(Flatten(chunks[..i]), chunks[i], content, 0);
      var segment := EncodeChunk(chunks[i], content);
      if segment.None? { return None; }
      if Fits(blocks, blocksPerSegment) { EncodeNext(segments, chunks, content, i, segment.value); }
      segments := segments + [segment.value];
    }
    assert chunks[..|chunks|] == chunks;
    r := Some(segments);
  }

  /**
   `EncodeSegments`: an empty generation or a block of the wrong length is an
   error; otherwise the segments hold the generation, unless both the segment
   size and the generation are beyond what the format can count.
   */
  method EncodeSegments(content: map<nat, Block>, blocksPerSegment: int) returns (r: Option<seq<Segment>>)
    requires forall b :: b in content ==> b < MAX_IMAGE_BLOCKS
    ensures r.Some? <==> content != map[] && forall b :: b in content ==> |content[b]| == 4096
    ensures r.Some? && (PerSegment(blocksPerSegment) < MAX_RUNS || |content| < MAX_RUNS) ==>
            IsEncoding(r.value, content)
  {
    if content == map[] { return None; }
    var blocks := SortedBlocks(content);
    assert blocks != [] by {
      var b :| b in content;
      assert b in blocks;
    }
    r := EncodeBlocks(blocks, content, blocksPerSegment);
  }

  /** Exactly the given blocks of an image were replaced by those of a generation. */
  ghost predicate Overlaid(before: seq<Block>, after: seq<Block>, blocks: seq<nat>, content: map<nat, Block>) {
    && |after| == |before|
    && (forall b :: 0 <= b < |before| ==>
          (b in blocks ==> b in content) && after[b] == if b in blocks then content[b] else before[b])
  }

  lemma OverlaidTwice(
    x: seq<Block>, y: seq<Block>, z: seq<Block>, some: seq<nat>, more: seq<nat>, content: map<nat, Block>)
    requires Overlaid(x, y, some, content) && Overlaid(y, z, more, content)
    ensures Overlaid(x, z, some + more, content)
  {
  }

  lemma FlattenNext(chunks: seq<seq<nat>>, i: nat)
    requires i < |chunks|
    ensures Flatten(chunks[..i + 1]) == Flatten(chunks[..i]) + chunks[i]
  {
    assert chunks[..i + 1][..i] == chunks[..i];
  }

  /** Decoding one segment and writing all its blocks. */
  method RestoreSegment(
    file: seq<Block>, segment: Segment, ghost chunk: seq<nat>, ghost content: map<nat, Block>)
    returns (ok: bool, r: seq<Block>)
    requires Encodes(segment, chunk, content)
    ensures ok <==> Inside(chunk, |file|)
    ensures ok ==> Overlaid(file, r, chunk, content)
  {
    var decoded := Decode(segment.stream, segment.blocks);
    var runs := decoded.value;
    assert RunsOf(runs, chunk, content);
    ok, r := ApplyRuns(file, runs, segment.extents);
    AllInside(runs, chunk, content, segment.extents, |file|);
    if ok {
      forall b | 0 <= b < |file|
        ensures (b in chunk ==> b in content) && r[b] == if b in chunk then content[b] else file[b] {
        AppliedIsContent(runs, content, segment.extents, file[b], b);
      }
    }
  }

  lemma {:induction false} InSomeRun(runs: seq<Run>, b: nat)
    ensures InRuns(runs, b) <==> exists i :: 0 <= i < |runs| && runs[i].Has(b)
  {
    if runs != [] {
      var front := runs[..|runs| - 1];
      InSomeRun(front, b);
      if i :| 0 <= i < |runs| && runs[i].Has(b) {
        if i < |front| { assert front[i].Has(b); }
      }
      if InRuns(front, b) {
        var i :| 0 <= i < |front| && front[i].Has(b);
        assert runs[i].Has(b);
      }
    }
  }

  lemma AllInside(runs: seq<Run>, chunk: seq<nat>, content: map<nat, Block>, selected: seq<Extent>, size: nat)
    requires RunsOf(runs, chunk, content) && forall b: nat :: Covers(selected, b) <==> b in chunk
    ensures (forall i, b: nat {:trigger runs[i].Has(b)} :: 0 <= i < |runs| && runs[i].Has(b) && Covers(selected, b) ==>
            b < size)
            <==> forall b :: b in chunk ==> b < size
  {
    forall b: nat ensures b in chunk <==> exists i :: 0 <= i < |runs| && runs[i].Has(b) { InSomeRun(runs, b); }
  }

  /**
   The segments of a generation, decoded and applied one after another: it
   succeeds exactly when the generation lies inside the image, and then the image
   is overlaid by exactly the generation.
   */
  method RestoreSegments(
    file: seq<Block>, segments: seq<Segment>, ghost content: map<nat, Block>)
    returns (ok: bool, r: seq<Block>)
    requires IsEncoding(segments, content)
    ensures ok <==> forall b :: b in content ==> b < |file|
    ensures ok ==> |r| == |file| && forall b :: 0 <= b < |file| ==> r[b] == if b in content then content[b] else file[b]
  {
    ghost var chunks: seq<seq<nat>> :|
      AllEncode(segments, chunks, content) && Sorted(Flatten(chunks)) &&
          forall b :: b in Flatten(chunks) <==> b in content;
    r := file;
    for i := 0 to |segments|
      invariant Overlaid(file, r, Flatten(chunks[..i]), content)
      invariant Inside(Flatten(chunks[..i]), |file|)
    {
      ChunkOfAll(chunks, i);
      FlattenNext(chunks, i);
      BothParts(Flatten(chunks[..i]), chunks[i], content, |file|);
      ghost var before := r;
      ok, r := RestoreSegment(r, segments[i], chunks[i], content);
      if !ok {
        assert !Inside(Flatten(chunks), |file|);
        return;
      }
      OverlaidTwice(file, before, r, Flatten(chunks[..i]), chunks[i], content);
    }
    assert chunks[..|chunks|] == chunks;
    ok := true;
  }
}
