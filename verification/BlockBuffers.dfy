/**
 Who owns a block buffer (internal/replica/device.go: `newBlock`, `capture`,
 `captureWrite`, `captureNonZero`, `sealLocked`, `Release`; internal/replica/journal.go:
 `Enqueue`, `Acknowledge`; internal/replica/syncer.go: `sync`).

 The device, the replication worker and the journal pass buffers on by
 reference, and a released buffer is overwritten by the next capture. `memory`
 holds the bytes behind each reference; a generation lists its buffers and, for
 comparison, the blocks that were captured into them.
 */
module BlockBuffers {
  import opened Bytes

  type Buffer = nat

  datatype Generation = Generation(seqno: nat, buffers: map<nat, Buffer>, blocks: map<nat, Block>)

  /**
   `active` and `captured` are the open generation. The first `releasing` of the
   `unreleased` generations are published and acknowledged; `entries` are those
   the journal would write again when it is compacted.
   */
  datatype System = System(
    memory: map<Buffer, Block>, pool: set<Buffer>, active: map<nat, Buffer>, captured: map<nat, Block>,
    unreleased: seq<Generation>, releasing: nat, entries: seq<Generation>, nextSeq: nat, broken: bool)

  datatype Step =
    | Capture(b: nat, buffer: Buffer, block: Block)
    | Mark(b: nat, buffer: Buffer, block: Block)
    | Forget(buffer: Buffer)
    | Seal
    | SealToJournal(written: bool)
    | Acknowledge(count: nat)
    | ReleaseNext

  /** The buffer `newBlock` returns: one from the pool, or newly allocated. */
  predicate IsNew(s: System, buffer: Buffer) { buffer in s.pool || buffer !in s.memory }

  predicate Enabled(s: System, step: Step) {
    match step
    case Capture(b, buffer, _) => if b in s.active then buffer == s.active[b] else IsNew(s, buffer)
    case Mark(_, buffer, _) => buffer !in s.memory
    case Forget(buffer) => buffer in s.pool
    case Seal => s.active != map[]
    case SealToJournal(_) => s.active != map[]
    case Acknowledge(count) =>
      s.releasing == 0 && 0 < count <= |s.unreleased| && (s.broken ==> Newest(s.unreleased[..count]) == 0)
    case ReleaseNext => 0 < s.releasing <= |s.unreleased|
  }

  /** The newest journal sequence number among published generations. */
  function Newest(gens: seq<Generation>): (n: nat)
    ensures forall i :: 0 <= i < |gens| ==> gens[i].seqno <= n
  {
    if gens == [] then 0
    else
      var front, last := Newest(gens[..|gens| - 1]), gens[|gens| - 1].seqno;
      if front < last then last else front
  }

  function Remaining(entries: seq<Generation>, sequence: nat): (r: seq<Generation>)
    ensures forall e :: e in r <==> e in entries && e.seqno > sequence
  {
    if entries == [] then []
    else
      var front, last := Remaining(entries[..|entries| - 1], sequence), entries[|entries| - 1];
      if last.seqno > sequence then front + [last] else front
  }

  function Sealed(s: System, seqno: nat): System {
    s.(active := map[], captured := map[], unreleased := s.unreleased + [Generation(seqno, s.active, s.captured)])
  }

  function Apply(s: System, step: Step): System
    requires Enabled(s, step)
  {
    match step
    case Capture(b, buffer, block) =>
      s.(memory := s.memory[buffer := block], pool := s.pool - {buffer},
         active := s.active[b := buffer], captured := s.captured[b := block])
    case Mark(b, buffer, block) =>
      s.(memory := s.memory[buffer := block], active := s.active[b := buffer], captured := s.captured[b := block])
    case Forget(buffer) => s.(pool := s.pool - {buffer})
    case Seal => Sealed(s, 0)
    case SealToJournal(written) =>
      if s.broken then Sealed(s, 0)
      else if !written then Sealed(s, s.nextSeq).(broken := true)
      else Sealed(s, s.nextSeq).(nextSeq := s.nextSeq + 1,
                                 entries := s.entries + [Generation(s.nextSeq, s.active, s.captured)])
    case Acknowledge(count) =>
      var sequence := Newest(s.unreleased[..count]);
      s.(releasing := count, entries := if sequence == 0 then s.entries else Remaining(s.entries, sequence))
    case ReleaseNext =>
      s.(unreleased := s.unreleased[1..], releasing := s.releasing - 1, pool := s.pool + s.unreleased[0].buffers.Values)
  }

  /** The buffers of a generation are its own, and memory still has what was captured into them. */
  ghost predicate Intact(memory: map<Buffer, Block>, buffers: map<nat, Buffer>, blocks: map<nat, Block>) {
    && buffers.Keys == blocks.Keys
    && (forall b :: b in buffers ==> buffers[b] in memory && memory[buffers[b]] == blocks[b])
    && (forall b, c :: b in buffers && c in buffers && b != c ==> buffers[b] != buffers[c])
  }

  ghost predicate Apart(buffers: map<nat, Buffer>, others: set<Buffer>) {
    forall b :: b in buffers ==> buffers[b] !in others
  }

  ghost predicate GenerationsOk(
    memory: map<Buffer, Block>, pool: set<Buffer>, active: map<nat, Buffer>, gens: seq<Generation>)
  {
    && (forall i :: 0 <= i < |gens| ==>
          && Intact(memory, gens[i].buffers, gens[i].blocks)
          && Apart(gens[i].buffers, pool) && Apart(gens[i].buffers, active.Values))
    && (forall i, j :: 0 <= i < |gens| && 0 <= j < |gens| && i != j ==> Apart(gens[i].buffers, gens[j].buffers.Values))
  }

  /** A journal entry is a generation that is not being released. */
  ghost predicate EntryOk(e: Generation, unreleased: seq<Generation>, releasing: nat) {
    e.seqno > 0 && releasing <= |unreleased| && e in unreleased[releasing..]
  }

  ghost predicate EntriesOk(entries: seq<Generation>, unreleased: seq<Generation>, releasing: nat) {
    forall e :: e in entries ==> EntryOk(e, unreleased, releasing)
  }

  ghost predicate Inv(s: System) {
    && s.nextSeq > 0 && s.releasing <= |s.unreleased|
    && Intact(s.memory, s.active, s.captured) && Apart(s.active, s.pool) && s.pool <= s.memory.Keys
    && GenerationsOk(s.memory, s.pool, s.active, s.unreleased)
    && EntriesOk(s.entries, s.unreleased, s.releasing)
  }

  /** Bytes go into one buffer that no sealed generation has. */
  lemma CaptureKeeps(s: System, b: nat, buffer: Buffer, block: Block)
    requires Inv(s) && (Enabled(s, Capture(b, buffer, block)) || Enabled(s, Mark(b, buffer, block)))
    ensures Inv(Apply(s, if Enabled(s, Capture(b, buffer, block)) then Capture(b, buffer, block)
            else Mark(b, buffer, block)))
  {
    var memory, active := s.memory[buffer := block], s.active[b := buffer];
    forall i | 0 <= i < |s.unreleased|
      ensures Intact(memory, s.unreleased[i].buffers, s.unreleased[i].blocks)
      ensures Apart(s.unreleased[i].buffers, s.pool - {buffer}) && Apart(s.unreleased[i].buffers, active.Values)
    {
      var gen := s.unreleased[i];
      assert Intact(s.memory, gen.buffers, gen.blocks) && Apart(gen.buffers, s.pool) &&
             Apart(gen.buffers, s.active.Values);
      if b in s.active { assert s.active[b] in s.active.Values; }
      assert Apart(gen.buffers, {buffer});
      assert active.Values <= s.active.Values + {buffer};
    }
  }

  lemma SealKeeps(s: System, seqno: nat)
    requires Inv(s)
    ensures Inv(Sealed(s, seqno))
  {
    var t := Sealed(s, seqno);
    var n := |s.unreleased|;
    forall i | 0 <= i < n
      ensures Apart(t.unreleased[i].buffers, t.unreleased[n].buffers.Values)
      ensures Apart(t.unreleased[n].buffers, t.unreleased[i].buffers.Values)
    {
      assert Apart(s.unreleased[i].buffers, s.active.Values);
    }
    forall e | e in s.entries ensures EntryOk(e, t.unreleased, t.releasing) {
      assert EntryOk(e, s.unreleased, s.releasing);
      assert t.unreleased[t.releasing..] == s.unreleased[s.releasing..] + [t.unreleased[n]];
    }
  }

  lemma JournalKeeps(s: System)
    requires Inv(s)
    ensures var gen := Generation(s.nextSeq, s.active, s.captured);
            Inv(Sealed(s, s.nextSeq).(nextSeq := s.nextSeq + 1, entries := s.entries + [gen]))
  {
    SealKeeps(s, s.nextSeq);
    var t := Sealed(s, s.nextSeq);
    var gen := t.unreleased[|s.unreleased|];
    assert t.unreleased[t.releasing..] == s.unreleased[s.releasing..] + [gen];
    assert EntryOk(gen, t.unreleased, t.releasing);
  }

  /** The entries that stay after an acknowledgement are not among the generations to be released. */
  lemma AcknowledgeKeeps(s: System, count: nat)
    requires Inv(s) && Enabled(s, Acknowledge(count))
    ensures Inv(Apply(s, Acknowledge(count)))
  {
    var t := Apply(s, Acknowledge(count));
    var sequence := Newest(s.unreleased[..count]);
    forall e | e in t.entries ensures EntryOk(e, t.unreleased, count) {
      assert EntryOk(e, s.unreleased, 0);
      var k :| 0 <= k < |s.unreleased| && s.unreleased[k] == e;
      assert e == s.unreleased[count..][k - count];
    }
  }

  lemma ReleaseKeeps(s: System)
    requires Inv(s) && Enabled(s, ReleaseNext)
    ensures Inv(Apply(s, ReleaseNext))
  {
    var t := Apply(s, ReleaseNext);
    var gone := s.unreleased[0];
    assert t.unreleased[t.releasing..] == s.unreleased[s.releasing..];
    forall e | e in t.entries
      ensures EntryOk(e, t.unreleased, t.releasing) { assert EntryOk(e, s.unreleased, s.releasing); }
    assert Apart(gone.buffers, s.active.Values);
    forall b | b in s.active ensures s.active[b] !in gone.buffers.Values { assert s.active[b] in s.active.Values; }
    forall i | 0 <= i < |t.unreleased|
      ensures Intact(t.memory, t.unreleased[i].buffers, t.unreleased[i].blocks)
      ensures Apart(t.unreleased[i].buffers, t.pool) && Apart(t.unreleased[i].buffers, t.active.Values)
    {
      assert t.unreleased[i] == s.unreleased[i + 1];
      assert Apart(s.unreleased[i + 1].buffers, gone.buffers.Values);
    }
  }

  lemma StepKeeps(s: System, step: Step)
    requires Inv(s) && Enabled(s, step)
    ensures Inv(Apply(s, step))
  {
    match step
    case Capture(b, buffer, block) => CaptureKeeps(s, b, buffer, block);
    case Mark(b, buffer, block) =>
      if Enabled(s, Capture(b, buffer, block)) { MarkIsCapture(s, b, buffer, block); }
      CaptureKeeps(s, b, buffer, block);
    case Forget(buffer) =>
    case Seal => SealKeeps(s, 0);
    case SealToJournal(written) =>
      SealKeeps(s, 0);
      SealKeeps(s, s.nextSeq);
      JournalKeeps(s);
    case Acknowledge(count) => AcknowledgeKeeps(s, count);
    case ReleaseNext => ReleaseKeeps(s);
  }

  lemma MarkIsCapture(s: System, b: nat, buffer: Buffer, block: Block)
    requires Inv(s) && Enabled(s, Capture(b, buffer, block)) && buffer !in s.memory
    ensures Apply(s, Mark(b, buffer, block)) == Apply(s, Capture(b, buffer, block))
  {
    assert s.pool - {buffer} == s.pool;
  }

  /** A device that was just opened: recovered generations have buffers of their own and are all in the journal. */
  ghost predicate IsStart(s: System) {
    && s.pool == {} && s.active == map[] && s.captured == map[] && s.releasing == 0 && s.nextSeq > 0
    && GenerationsOk(s.memory, {}, map[], s.unreleased)
    && s.entries == s.unreleased && forall e :: e in s.entries ==> e.seqno > 0
  }

  ghost predicate IsRun(states: seq<System>, steps: seq<Step>) {
    && |states| == |steps| + 1 && IsStart(states[0])
    && (forall i :: 0 <= i < |steps| ==> Enabled(states[i], steps[i]) && states[i + 1] == Apply(states[i], steps[i]))
  }

  lemma {:induction false} RunKeeps(states: seq<System>, steps: seq<Step>, n: nat)
    requires IsRun(states, steps) && n < |states|
    ensures Inv(states[n])
  {
    if n > 0 {
      RunKeeps(states, steps, n - 1);
      assert Enabled(states[n - 1], steps[n - 1]);
      StepKeeps(states[n - 1], steps[n - 1]);
    } else {
      var s := states[0];
      forall e | e in s.entries ensures EntryOk(e, s.unreleased, 0) { assert s.unreleased[0..] == s.unreleased; }
    }
  }

  /**
   Sealed data is immutable: in every run, whatever is captured meanwhile, each
   generation that is not released and each journal entry still has the bytes it
   was sealed with, and none of their buffers is in the pool or being written to.
   */
  lemma SealedIsImmutable(states: seq<System>, steps: seq<Step>, n: nat, gen: Generation, b: nat)
    requires IsRun(states, steps) && n < |states| && b in gen.buffers
    requires gen in states[n].unreleased || gen in states[n].entries
    ensures var s := states[n];
            && b in gen.blocks && gen.buffers[b] in s.memory && s.memory[gen.buffers[b]] == gen.blocks[b]
            && gen.buffers[b] !in s.pool && gen.buffers[b] !in s.active.Values
  {
    var s := states[n];
    RunKeeps(states, steps, n);
    if gen in s.entries {
      assert EntryOk(gen, s.unreleased, s.releasing);
      assert gen in s.unreleased;
    }
    var i :| 0 <= i < |s.unreleased| && s.unreleased[i] == gen;
    assert Intact(s.memory, gen.buffers, gen.blocks) && Apart(gen.buffers, s.pool) &&
           Apart(gen.buffers, s.active.Values);
  }
}
