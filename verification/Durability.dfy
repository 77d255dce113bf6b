/**
 Local durability end to end (internal/replica/journal.go, internal/replica/syncer.go,
 internal/replica/device.go: `Replay`; internal/plugin/driver.go: `mountFresh`).

 One node writes through its journal: a flush is acknowledged once its record is
 synced, a worker publishes generations in batches, acknowledged records are
 dropped and the file is compacted now and then. The node may crash anywhere,
 losing any unsynced tail of the journal; a publication of the dead process may
 still land. Other nodes may take the lease and publish. A mount acquires the
 lease, validates the journal against the head it acquired, restores that head
 and replays the journal. A mount with records first inspects the head and
 validates against that; it may fail, or the node may crash, at any point.

 The queue, the pending generations and the journal entries are stretches of
 the log of sealed generations, given here by their positions; the classes
 Syncing.Syncer and Journals.Journal maintain them as lists and prove it. A
 publication takes effect at most once and only in the epoch of its lease, which
 is what module LeaseProtocol proves.
 */
module Durability {
  import opened Options
  import opened Images
  import opened Generations

  /** The identity of this node; any other holder is foreign. */
  const NODE: nat := 0

  datatype Head = Head(epoch: nat, generation: nat, manifest: nat, image: Image, holder: Option<nat>)

  /** The head as of this node's last commit or acquisition (`Lease.State`). */
  datatype Own = Own(generation: nat, manifest: nat, image: Image)

  datatype Meta = Meta(writerEpoch: nat, baseGeneration: nat, baseManifest: nat)

  /** The journal file holds the generations from position `from` on; those before `synced` survive any crash. */
  datatype Disk = Disk(header: Meta, from: nat, synced: nat)

  /** The worker's publication: not sent, on its way, or in the head but not yet acknowledged. */
  datatype Sending = NotSent | Sent | InHead

  /** A publication of generations `from` to `to` that a dead process left in the network. */
  datatype Late = Late(epoch: nat, from: nat, to: nat)

  /**
   A mount of a journal with records begins by inspecting the head (`inspected`).
   A running process has published and acknowledged the generations before
   `first` and is about to publish those before `taken`. `waiting` and `asked`
   are the positions that flushes and remote flushes wait for.
   */
  datatype Process =
    | Down(late: Option<Late>, inspected: bool)
    | Mounting(snapshot: Head)
    | Running(epoch: nat, first: nat, taken: nat, sending: Sending, waiting: set<nat>, asked: set<nat>)

  /**
   `log` holds the generations sealed on top of `base` that a crash has not
   lost, `published` counts those given to the head since the last mount,
   `reached` those it was ever given, `acked` those covered by a flush that
   returned nil and `flushed` those covered by a remote flush that returned nil.
   */
  datatype System = System(
    head: Head, own: Own, base: Image, log: seq<Sealed>, published: nat, reached: nat, acked: nat, flushed: nat,
    disk: Option<Disk>, proc: Process)

  /** Who waits for a seal: a flush, a remote flush, or nobody. */
  datatype Waiter = Local | Remote | Background

  datatype Step =
    | Seal(blocks: Blocks, waiter: Waiter)
    | Sync(position: nat)
    | AckFlush(position: nat)
    | Collect
    | Send
    | Land(manifest: nat)
    | Ack(compact: bool)
    | AckRemote(position: nat)
    | Checkpoint(manifest: nat)
    | Crash(cut: nat)
    | LateLand(manifest: nat)
    | Inspect
    | Refuse
    | Acquire
    | Recover
    | Reject
    | AbortMount
    | MountEmpty
    | Unmount
    | ForeignAcquire(holder: nat)
    | ForeignPublish(manifest: nat, blocks: Blocks)
    | ForeignRelease
    | Break

  function NextSeq(log: seq<Sealed>): nat { if log == [] then 1 else log[|log| - 1].seqno + 1 }

  predicate ForeignHolder(head: Head) { head.holder.Some? && head.holder.value != NODE }

  function Commit(head: Head, manifest: nat, blocks: Blocks): Head {
    head.(generation := head.generation + 1, manifest := manifest, image := Overlay(head.image, blocks))
  }

  function OwnOf(head: Head): Own { Own(head.generation, head.manifest, head.image) }

  function MetaOf(epoch: nat, own: Own): Meta { Meta(epoch, own.generation, own.manifest) }

  // ----- Flushes -----

  predicate Journaling(s: System) { s.proc.Running? && s.disk.Some? }

  /** A non-empty generation is appended to the log and the journal; whoever asked waits for all sealed so far. */
  function DoSeal(s: System, blocks: Blocks, waiter: Waiter): System
    requires Journaling(s)
  {
    var log := if blocks == map[] then s.log else s.log + [Sealed(NextSeq(s.log), blocks)];
    s.(log := log,
       proc := s.proc.(waiting := s.proc.waiting + (if waiter.Local? then {|log|} else {}),
                       asked := s.proc.asked + (if waiter.Remote? then {|log|} else {})))
  }

  predicate CanSync(s: System, position: nat) { Journaling(s) && s.disk.value.synced <= position <= |s.log| }

  function DoSync(s: System, position: nat): System
    requires CanSync(s, position)
  {
    s.(disk := Some(s.disk.value.(synced := position)))
  }

  /** A flush returns nil only when every record before it is on stable storage. */
  predicate CanAckFlush(s: System, position: nat) {
    Journaling(s) && position in s.proc.waiting && position <= s.disk.value.synced
  }

  function DoAckFlush(s: System, position: nat): System
    requires CanAckFlush(s, position)
  {
    s.(acked := Max(s.acked, position), proc := s.proc.(waiting := s.proc.waiting - {position}))
  }

  // ----- Publication -----

  /** The next generation becomes pending once the sync that covers its record has returned. */
  predicate CanCollect(s: System) {
    Journaling(s) && s.proc.sending.NotSent? && s.proc.taken < s.disk.value.synced
  }

  function DoCollect(s: System): System
    requires CanCollect(s)
  {
    s.(proc := s.proc.(taken := s.proc.taken + 1))
  }

  predicate CanSend(s: System) { s.proc.Running? && s.proc.sending.NotSent? && s.proc.first < s.proc.taken }

  function DoSend(s: System): System
    requires CanSend(s)
  {
    s.(proc := s.proc.(sending := Sent))
  }

  /** The merged generations `from` to `to` become the next generation of the head. */
  function Landed(s: System, manifest: nat, from: nat, to: nat): System
    requires from <= to <= |s.log|
  {
    var head := Commit(s.head, manifest, Merged(s.log[from..to]));
    s.(head := head, own := OwnOf(head), published := to, reached := Max(s.reached, to))
  }

  predicate CanLand(s: System) {
    s.proc.Running? && s.proc.sending.Sent? && s.head.epoch == s.proc.epoch && s.proc.first <= s.proc.taken <= |s.log|
  }

  function DoLand(s: System, manifest: nat): System
    requires CanLand(s)
  {
    Landed(s, manifest, s.proc.first, s.proc.taken).(proc := s.proc.(sending := InHead))
  }

  predicate CanAck(s: System) { Journaling(s) && s.proc.sending.InHead? && s.proc.taken <= |s.log| }

  /** `Acknowledge` drops the published entries; compaction rewrites the file without them. */
  function DoAck(s: System, compact: bool): System
    requires CanAck(s)
  {
    s.(disk := if compact then Some(Disk(MetaOf(s.proc.epoch, s.own), s.proc.taken, |s.log|)) else s.disk,
       proc := s.proc.(first := s.proc.taken, sending := NotSent))
  }

  predicate CanAckRemote(s: System, position: nat) {
    s.proc.Running? && s.proc.sending.NotSent? && position in s.proc.asked && position <= s.proc.first
  }

  function DoAckRemote(s: System, position: nat): System
    requires CanAckRemote(s, position)
  {
    s.(flushed := Max(s.flushed, position), proc := s.proc.(asked := s.proc.asked - {position}))
  }

  predicate CanCheckpoint(s: System) { s.proc.Running? && s.proc.sending.NotSent? && s.head.epoch == s.proc.epoch }

  function DoCheckpoint(s: System, manifest: nat): System {
    var head := Commit(s.head, manifest, map[]);
    s.(head := head, own := OwnOf(head))
  }

  // ----- Crashes and mounts -----

  function LateOf(proc: Process): Option<Late> {
    match proc
    case Down(late, _) => late
    case Mounting(_) => None
    case Running(epoch, first, taken, sending, _, _) => if sending.Sent? then Some(Late(epoch, first, taken)) else None
  }

  /** Any tail of the journal that was not synced may be lost, on any crash. */
  predicate CanCrash(s: System, cut: nat) {
    if s.disk.Some? then s.disk.value.synced <= cut <= |s.log| else cut == |s.log|
  }

  function DoCrash(s: System, cut: nat): System
    requires CanCrash(s, cut)
  {
    s.(log := s.log[..cut], proc := Down(LateOf(s.proc), false))
  }

  predicate CanLateLand(s: System) {
    && s.proc.Down? && s.proc.late.Some? && s.head.epoch == s.proc.late.value.epoch
    && s.proc.late.value.from <= s.proc.late.value.to <= |s.log|
  }

  function DoLateLand(s: System, manifest: nat): System
    requires CanLateLand(s)
  {
    Landed(s, manifest, s.proc.late.value.from, s.proc.late.value.to).(proc := Down(None, s.proc.inspected))
  }

  predicate HasRecords(s: System) { s.disk.Some? && s.disk.value.from < |s.log| }

  /** The head is the very one the journal was created or rebased on. */
  predicate Unchanged(header: Meta, state: Head) {
    state.generation == header.baseGeneration && state.manifest == header.baseManifest
  }

  /** `ValidateRecovery` for a journal of this node and this volume. */
  predicate Accepts(header: Meta, state: Head) {
    && header.baseGeneration <= state.generation
    && (if state.epoch == header.writerEpoch
        then state.generation == header.baseGeneration ==> state.manifest == header.baseManifest
        else
          && state.holder == Some(NODE)
          && (|| Unchanged(header, state)
              || (state.epoch == header.writerEpoch + 1 && state.generation > header.baseGeneration)))
  }

  /** Before it acquires the lease, a mount with records validates them against the head as it is. */
  predicate CanInspect(s: System) { s.proc.Down? && HasRecords(s) && Accepts(s.disk.value.header, s.head) }

  function DoInspect(s: System): System
    requires CanInspect(s)
  {
    s.(proc := Down(s.proc.late, true))
  }

  /** The mount ends with an error; nothing changes. */
  predicate CanRefuse(s: System) { s.proc.Down? && HasRecords(s) && !Accepts(s.disk.value.header, s.head) }

  predicate CanAcquire(s: System) { s.proc.Down? && (HasRecords(s) ==> s.proc.inspected) }

  function DoAcquire(s: System): System
    requires CanAcquire(s)
  {
    var head := s.head.(epoch := s.head.epoch + 1, holder := Some(NODE));
    s.(head := head, proc := Mounting(head))
  }

  predicate CanRecover(s: System) { s.proc.Mounting? && HasRecords(s) && Accepts(s.disk.value.header, s.proc.snapshot) }

  /** What the mounted device shows: the acquired head with the records of the journal replayed over it. */
  function RecoveredImage(s: System): Image
    requires CanRecover(s)
  {
    Fold(s.proc.snapshot.image, s.log[s.disk.value.from..])
  }

  /** `Rebase` rewrites and syncs the journal under the acquired state; every record is queued again. */
  function DoRecover(s: System): System
    requires CanRecover(s)
  {
    var state, from := s.proc.snapshot, s.disk.value.from;
    s.(own := OwnOf(state), published := from,
       disk := Some(Disk(MetaOf(state.epoch, OwnOf(state)), from, |s.log|)),
       proc := Running(state.epoch, from, from, NotSent, {}, {}))
  }

  /** The lease is released, unless it was lost, and the process gives up. */
  function Released(s: System, epoch: nat): System {
    s.(head := if s.head.epoch == epoch then s.head.(holder := None) else s.head, proc := Down(None, false))
  }

  predicate CanReject(s: System) { s.proc.Mounting? && HasRecords(s) && !Accepts(s.disk.value.header, s.proc.snapshot) }

  function DoReject(s: System): System
    requires CanReject(s)
  {
    Released(s, s.proc.snapshot.epoch)
  }

  /** A mount can fail before the journal is rebased, and after it until the first flush. */
  predicate CanAbortMount(s: System) {
    || s.proc.Mounting?
    || (&& s.proc.Running? && s.disk.Some? && s.proc.sending.NotSent? &&
          s.disk.value.from == s.proc.first == s.proc.taken
        && s.disk.value.synced == |s.log| && s.proc.waiting == {} && s.proc.asked == {})
  }

  function DoAbortMount(s: System): System
    requires CanAbortMount(s)
  {
    Released(s, if s.proc.Mounting? then s.proc.snapshot.epoch else s.proc.epoch)
  }

  predicate CanMountEmpty(s: System) { s.proc.Mounting? && !HasRecords(s) }

  /** Without records to replay the acquired head is the base of a new journal. */
  function DoMountEmpty(s: System): System
    requires CanMountEmpty(s)
  {
    var state := s.proc.snapshot;
    System(s.head, OwnOf(state), state.image, [], 0, 0, 0, 0,
           Some(Disk(MetaOf(state.epoch, OwnOf(state)), 0, 0)), Running(state.epoch, 0, 0, NotSent, {}, {}))
  }

  /** `Stop` after everything was published: the lease is released and the journal removed. */
  predicate CanUnmount(s: System) {
    s.proc.Running? && s.proc.sending.NotSent? && s.proc.first == |s.log| && s.head.epoch == s.proc.epoch
  }

  function DoUnmount(s: System): System {
    s.(head := s.head.(holder := None), disk := None, proc := Down(None, false))
  }

  // ----- All steps -----

  predicate Enabled(s: System, step: Step) {
    match step
    case Seal(_, _) => Journaling(s)
    case Sync(position) => CanSync(s, position)
    case AckFlush(position) => CanAckFlush(s, position)
    case Collect => CanCollect(s)
    case Send => CanSend(s)
    case Land(_) => CanLand(s)
    case Ack(_) => CanAck(s)
    case AckRemote(position) => CanAckRemote(s, position)
    case Checkpoint(_) => CanCheckpoint(s)
    case Crash(cut) => CanCrash(s, cut)
    case LateLand(_) => CanLateLand(s)
    case Inspect => CanInspect(s)
    case Refuse => CanRefuse(s)
    case Acquire => CanAcquire(s)
    case Recover => CanRecover(s)
    case Reject => CanReject(s)
    case AbortMount => CanAbortMount(s)
    case MountEmpty => CanMountEmpty(s)
    case Unmount => CanUnmount(s)
    case ForeignAcquire(holder) => holder != NODE
    case ForeignPublish(_, _) => ForeignHolder(s.head)
    case ForeignRelease => ForeignHolder(s.head)
    case Break => s.head.holder.Some?
  }

  function Apply(s: System, step: Step): System
    requires Enabled(s, step)
  {
    match step
    case Seal(blocks, waiter) => DoSeal(s, blocks, waiter)
    case Sync(position) => DoSync(s, position)
    case AckFlush(position) => DoAckFlush(s, position)
    case Collect => DoCollect(s)
    case Send => DoSend(s)
    case Land(manifest) => DoLand(s, manifest)
    case Ack(compact) => DoAck(s, compact)
    case AckRemote(position) => DoAckRemote(s, position)
    case Checkpoint(manifest) => DoCheckpoint(s, manifest)
    case Crash(cut) => DoCrash(s, cut)
    case LateLand(manifest) => DoLateLand(s, manifest)
    case Inspect => DoInspect(s)
    case Refuse => s
    case Acquire => DoAcquire(s)
    case Recover => DoRecover(s)
    case Reject => DoReject(s)
    case AbortMount => DoAbortMount(s)
    case MountEmpty => DoMountEmpty(s)
    case Unmount => DoUnmount(s)
    case ForeignAcquire(holder) => s.(head := s.head.(epoch := s.head.epoch + 1, holder := Some(holder)))
    case ForeignPublish(manifest, blocks) => s.(head := Commit(s.head, manifest, blocks))
    case ForeignRelease => s.(head := s.head.(holder := None))
    case Break => s.(head := s.head.(epoch := s.head.epoch + 1, holder := None))
  }

  /** A formatted volume nobody holds. */
  function Start(image: Image): System {
    System(Head(1, 1, 0, image, None), Own(1, 0, image), image, [], 0, 0, 0, 0, None, Down(None, false))
  }

  ghost predicate IsRun(image: Image, states: seq<System>, steps: seq<Step>) {
    && |states| == |steps| + 1 && states[0] == Start(image)
    && (forall i :: 0 <= i < |steps| ==> Enabled(states[i], steps[i]) && states[i + 1] == Apply(states[i], steps[i]))
  }

  // ----- The invariant -----

  /** The generations of the log are in the head, in the journal, or in both; flushed ones survive a crash. */
  predicate StoredOk(size: nat, disk: Option<Disk>, published: nat, reached: nat, acked: nat) {
    match disk
    case None => published == reached == size && acked <= size
    case Some(d) => d.from <= published <= reached <= d.synced <= size && acked <= d.synced
  }

  /** Another node published after this node's last commit. */
  predicate Overtaken(head: Head, own: Own) { head.generation > own.generation }

  predicate HeadOk(head: Head, own: Own, disk: Option<Disk>) {
    && own.generation <= head.generation
    && (!Overtaken(head, own) ==> OwnOf(head) == own)
    && (disk.Some? ==>
          && disk.value.header.baseGeneration <= own.generation
          && (disk.value.header.baseGeneration == own.generation ==> disk.value.header.baseManifest == own.manifest)
          && disk.value.header.writerEpoch <= head.epoch
          && (Overtaken(head, own) || ForeignHolder(head) ==> disk.value.header.writerEpoch < head.epoch))
  }

  predicate MountingOk(head: Head, own: Own, disk: Option<Disk>, state: Head) {
    && state.epoch <= head.epoch && state.holder == Some(NODE)
    && own.generation <= state.generation <= head.generation
    && (state.generation == own.generation ==> OwnOf(state) == own)
    && (state.generation == head.generation ==> OwnOf(state) == OwnOf(head))
    && (head.generation > state.generation || ForeignHolder(head) ==> state.epoch < head.epoch)
    && (disk.Some? ==>
          && disk.value.header.writerEpoch < state.epoch
          && (state.generation > own.generation ==> disk.value.header.writerEpoch + 2 <= state.epoch))
  }

  ghost predicate RunningOk(size: nat, published: nat, disk: Option<Disk>, proc: Process)
    requires proc.Running?
  {
    && disk.Some? && disk.value.header.writerEpoch == proc.epoch
    && disk.value.from <= proc.first <= proc.taken <= disk.value.synced
    && published == (if proc.sending.InHead? then proc.taken else proc.first)
    && (forall k :: k in proc.waiting ==> k <= size) && (forall k :: k in proc.asked ==> k <= size)
  }

  predicate LateOk(published: nat, disk: Option<Disk>, late: Late) {
    && disk.Some? && late.epoch == disk.value.header.writerEpoch
    && published == late.from <= late.to <= disk.value.synced
  }

  ghost predicate ProcessOk(s: System) {
    match s.proc
    case Down(late, _) => late.Some? ==> LateOk(s.published, s.disk, late.value)
    case Mounting(state) => MountingOk(s.head, s.own, s.disk, state)
    case Running(_, _, _, _, _, _) => RunningOk(|s.log|, s.published, s.disk, s.proc)
  }

  ghost predicate Inv(s: System) {
    && Shows(s.own.image, s.base, s.log, s.published, s.reached)
    && StoredOk(|s.log|, s.disk, s.published, s.reached, s.acked)
    && HeadOk(s.head, s.own, s.disk)
    && s.flushed <= s.reached
    && ProcessOk(s)
  }
}
