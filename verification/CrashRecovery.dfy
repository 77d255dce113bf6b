/**
 Crash recovery: every step keeps the invariant of Durability, and what follows
 for every run. A mount that replays its journal shows all surviving
 generations, and no acknowledged generation is ever lost.
 */
module CrashRecovery {
  import opened Options
  import opened Images
  import opened Generations
  import opened Durability

  // ----- Each step keeps the invariant -----

  lemma SealKeeps(s: System, blocks: Blocks, waiter: Waiter)
    requires Inv(s) && Journaling(s)
    ensures Inv(DoSeal(s, blocks, waiter))
  {
    var t := DoSeal(s, blocks, waiter);
    assert t.log[..s.reached] == s.log[..s.reached];
    ShowsPrefix(s.own.image, s.base, s.log, t.log, s.published, s.reached);
  }

  lemma FlushKeeps(s: System, n: nat)
    requires Inv(s)
    ensures CanSync(s, n) ==> Inv(DoSync(s, n))
    ensures CanAckFlush(s, n) ==> Inv(DoAckFlush(s, n))
    ensures CanAckRemote(s, n) ==> Inv(DoAckRemote(s, n))
  {
  }

  lemma WorkerKeeps(s: System)
    requires Inv(s)
    ensures CanCollect(s) ==> Inv(DoCollect(s))
    ensures CanSend(s) ==> Inv(DoSend(s))
  {
  }

  /** Publishing merged generations on a head this node wrote last. */
  lemma LandedShows(s: System, manifest: nat, to: nat)
    requires Inv(s) && !Overtaken(s.head, s.own) && s.published <= to <= |s.log|
    ensures var t := Landed(s, manifest, s.published, to);
            Shows(t.own.image, t.base, t.log, t.published, t.reached)
  {
    MergedIsFold(s.head.image, s.log[s.published..to]);
    PublishShows(s.own.image, s.base, s.log, s.published, s.reached, to);
  }

  lemma LandKeeps(s: System, manifest: nat)
    requires Inv(s) && CanLand(s)
    ensures Inv(DoLand(s, manifest))
  {
    LandedShows(s, manifest, s.proc.taken);
  }

  lemma AckKeeps(s: System, compact: bool)
    requires Inv(s) && CanAck(s)
    ensures Inv(DoAck(s, compact))
  {
  }

  lemma CheckpointKeeps(s: System, manifest: nat)
    requires Inv(s) && CanCheckpoint(s)
    ensures Inv(DoCheckpoint(s, manifest))
  {
    assert Overlay(s.head.image, map[]) == s.head.image;
  }

  lemma CrashKeeps(s: System, cut: nat)
    requires Inv(s) && CanCrash(s, cut)
    ensures Inv(DoCrash(s, cut))
  {
    assert s.log[..cut][..s.reached] == s.log[..s.reached];
    ShowsPrefix(s.own.image, s.base, s.log, s.log[..cut], s.published, s.reached);
  }

  lemma LateLandKeeps(s: System, manifest: nat)
    requires Inv(s) && CanLateLand(s)
    ensures Inv(DoLateLand(s, manifest))
  {
    LandedShows(s, manifest, s.proc.late.value.to);
  }

  lemma AcquireKeeps(s: System)
    requires Inv(s) && s.proc.Down?
    ensures CanInspect(s) ==> Inv(DoInspect(s))
    ensures CanAcquire(s) ==> Inv(DoAcquire(s))
  {
  }

  /** A journal that is accepted belongs to a head nobody else has written to since. */
  lemma AcceptedIsOwn(head: Head, own: Own, disk: Disk, state: Head)
    requires HeadOk(head, own, Some(disk)) && MountingOk(head, own, Some(disk), state) && Accepts(disk.header, state)
    ensures OwnOf(state) == own
  {
  }

  lemma RecoverKeeps(s: System)
    requires Inv(s) && CanRecover(s)
    ensures Inv(DoRecover(s))
    ensures RecoveredImage(s) == Fold(s.base, s.log)
  {
    AcceptedIsOwn(s.head, s.own, s.disk.value, s.proc.snapshot);
    ReplayRestores(s.own.image, s.base, s.log, s.disk.value.from, s.published, s.reached);
  }

  lemma RejectKeeps(s: System)
    requires Inv(s)
    ensures CanReject(s) ==> Inv(DoReject(s))
    ensures CanAbortMount(s) ==> Inv(DoAbortMount(s))
  {
  }

  lemma MountEmptyKeeps(s: System)
    requires Inv(s) && CanMountEmpty(s)
    ensures Inv(DoMountEmpty(s))
  {
    ghost var none: seq<Sealed> := [];
    assert none[..0] == [];
  }

  lemma UnmountKeeps(s: System)
    requires Inv(s) && CanUnmount(s)
    ensures Inv(DoUnmount(s))
  {
  }

  /** Another node, or an operator, moves the head to a higher epoch or, as its holder, on. */
  lemma ForeignKeeps(s: System, head: Head)
    requires Inv(s) && s.head.epoch <= head.epoch && s.head.generation <= head.generation
    requires s.head.generation == head.generation ==> OwnOf(head) == OwnOf(s.head)
    requires ForeignHolder(head) && !ForeignHolder(s.head) ==> s.head.epoch < head.epoch
    requires s.head.generation < head.generation ==> ForeignHolder(s.head)
    ensures Inv(s.(head := head))
  {
  }

  /** Steps of a running node. */
  lemma RunningStepKeeps(s: System, step: Step)
    requires Inv(s) && Enabled(s, step)
    requires step.Seal? || step.Sync? || step.AckFlush? || step.Collect? || step.Send? || step.Land? || step.Ack?
             || step.AckRemote? || step.Checkpoint?
    ensures Inv(Apply(s, step))
  {
    match step
    case Seal(blocks, waiter) => SealKeeps(s, blocks, waiter);
    case Sync(n) => FlushKeeps(s, n);
    case AckFlush(n) => FlushKeeps(s, n);
    case Collect => WorkerKeeps(s);
    case Send => WorkerKeeps(s);
    case Land(manifest) => LandKeeps(s, manifest);
    case Ack(compact) => AckKeeps(s, compact);
    case AckRemote(n) => FlushKeeps(s, n);
    case Checkpoint(manifest) => CheckpointKeeps(s, manifest);
  }

  /** Crashes, late landings and the steps of a mount. */
  lemma MountStepKeeps(s: System, step: Step)
    requires Inv(s) && Enabled(s, step)
    requires step.Crash? || step.LateLand? || step.Inspect? || step.Refuse? || step.Acquire? || step.Recover?
             || step.Reject? || step.AbortMount? || step.MountEmpty? || step.Unmount?
    ensures Inv(Apply(s, step))
  {
    match step
    case Crash(cut) => CrashKeeps(s, cut);
    case LateLand(manifest) => LateLandKeeps(s, manifest);
    case Inspect => AcquireKeeps(s);
    case Refuse =>
    case Acquire => AcquireKeeps(s);
    case Recover => RecoverKeeps(s);
    case Reject => RejectKeeps(s);
    case AbortMount => RejectKeeps(s);
    case MountEmpty => MountEmptyKeeps(s);
    case Unmount => UnmountKeeps(s);
  }

  /** Other nodes and operators move only the head. */
  lemma ForeignStepKeeps(s: System, step: Step)
    requires Inv(s) && Enabled(s, step)
    requires step.ForeignAcquire? || step.ForeignPublish? || step.ForeignRelease? || step.Break?
    ensures Inv(Apply(s, step))
  {
    ForeignKeeps(s, Apply(s, step).head);
  }

  lemma StepKeeps(s: System, step: Step)
    requires Inv(s) && Enabled(s, step)
    ensures Inv(Apply(s, step))
  {
    if step.ForeignAcquire? || step.ForeignPublish? || step.ForeignRelease? || step.Break? {
      ForeignStepKeeps(s, step);
    } else if step.Crash? || step.LateLand? || step.Inspect? || step.Refuse? || step.Acquire? || step.Recover?
              || step.Reject? || step.AbortMount? || step.MountEmpty? || step.Unmount? {
      MountStepKeeps(s, step);
    } else {
      RunningStepKeeps(s, step);
    }
  }

  // ----- Whole runs -----

  lemma {:induction false} RunKeeps(image: Image, states: seq<System>, steps: seq<Step>, n: nat)
    requires IsRun(image, states, steps) && n < |states|
    ensures Inv(states[n])
  {
    if n == 0 {
      ghost var none: seq<Sealed> := [];
      assert none[..0] == [];
    } else {
      RunKeeps(image, states, steps, n - 1);
      StepKeeps(states[n - 1], steps[n - 1]);
    }
  }

  /**
   Crash durability: in every run, a mount that replays its journal shows the
   base image overlaid by the surviving generations, which include every
   generation a flush was acknowledged for.
   */
  lemma RecoveryRestores(image: Image, states: seq<System>, steps: seq<Step>, n: nat)
    requires IsRun(image, states, steps) && n < |steps| && steps[n].Recover?
    ensures RecoveredImage(states[n]) == Fold(states[n].base, states[n].log)
    ensures states[n].acked <= |states[n].log| && states[n].flushed <= |states[n].log|
  {
    RunKeeps(image, states, steps, n);
    RecoverKeeps(states[n]);
  }

  /** A mount without records to replay: everything sealed before had reached the head this node last wrote. */
  lemma EmptyJournalMeansPublished(image: Image, states: seq<System>, steps: seq<Step>, n: nat)
    requires IsRun(image, states, steps) && n < |steps| && steps[n].MountEmpty?
    ensures states[n].own.image == Fold(states[n].base, states[n].log)
    ensures !Overtaken(states[n].head, states[n].own) ==>
            states[n].proc.snapshot.image == Fold(states[n].base, states[n].log)
  {
    RunKeeps(image, states, steps, n);
    var s := states[n];
    var p := |s.log|;
    assert s.log[p..p] == [] && s.log[..p] == s.log;
    assert forall b: nat :: b < |s.base| ==> !Touched([], b);
    assert s.own.image == Fold(s.base, s.log);
  }

  /** One step loses no acknowledged generation, and only a mount on an empty journal starts over. */
  lemma StepPreserves(s: System, step: Step)
    requires Inv(s) && Enabled(s, step) && !step.MountEmpty?
    ensures var t := Apply(s, step);
            && t.base == s.base && s.acked <= t.acked && s.acked <= |t.log| && s.acked <= |s.log|
            && t.log[..s.acked] == s.log[..s.acked]
  {
  }

  /** Acknowledged generations stay, in their order, across any number of crashes and mounts. */
  lemma {:induction false} AcknowledgedSurvive(image: Image, states: seq<System>, steps: seq<Step>, i: nat, j: nat)
    requires IsRun(image, states, steps) && i <= j < |states|
    requires forall k :: i <= k < j ==> !steps[k].MountEmpty?
    ensures states[j].base == states[i].base
    ensures states[i].acked <= states[j].acked && states[i].acked <= |states[i].log|
    ensures states[i].acked <= |states[j].log|
    ensures states[j].log[..states[i].acked] == states[i].log[..states[i].acked]
    decreases j - i
  {
    RunKeeps(image, states, steps, i);
    if i < j {
      AcknowledgedSurvive(image, states, steps, i, j - 1);
      RunKeeps(image, states, steps, j - 1);
      StepPreserves(states[j - 1], steps[j - 1]);
      var a, b := states[i].acked, states[j - 1].acked;
      assert states[j].log[..a] == states[j].log[..b][..a];
      assert states[j - 1].log[..a] == states[j - 1].log[..b][..a];
    }
  }

  /**
   Publication: what is in the head is durable and was taken in seal order, and
   a remote flush that returned nil covers only generations the head has been given.
   */
  lemma PublishedIsDurable(image: Image, states: seq<System>, steps: seq<Step>, n: nat)
    requires IsRun(image, states, steps) && n < |states|
    ensures var s := states[n];
            && Shows(s.own.image, s.base, s.log, s.published, s.reached)
            && (s.disk.Some? ==> s.reached <= s.disk.value.synced)
            && s.flushed <= s.reached
            && (s.proc.Running? && s.disk.Some? ==> s.disk.value.from <= s.proc.first <= s.published)
  {
    RunKeeps(image, states, steps, n);
  }

  // ----- When a journal is recovered -----

  /** A mount that nothing interrupts: inspect and validate, acquire, validate again. */
  predicate Recovers(s: System) {
    CanInspect(s) && CanRecover(DoAcquire(DoInspect(s)))
  }

  /**
   Exactly when a mount with records recovers them, by what it inspects: the head
   is still in the epoch the journal was written in, or it carries a lease of
   this node and is the very head the journal was based on. Then the device shows
   all surviving generations.
   */
  lemma MountRecoversIff(image: Image, states: seq<System>, steps: seq<Step>, n: nat)
    requires IsRun(image, states, steps) && n < |states| && states[n].proc.Down? && HasRecords(states[n])
    ensures var s, header := states[n], states[n].disk.value.header;
            Recovers(s) <==>
            s.head.epoch == header.writerEpoch || (s.head.holder == Some(NODE) && Unchanged(header, s.head))
    ensures var s := states[n];
            Recovers(s) ==> RecoveredImage(DoAcquire(DoInspect(s))) == Fold(s.base, s.log) && s.acked <= |s.log|
  {
    RunKeeps(image, states, steps, n);
    var s := states[n];
    if Recovers(s) {
      AcquireKeeps(s);
      AcquireKeeps(DoInspect(s));
      RecoverKeeps(DoAcquire(DoInspect(s)));
    }
  }

  /** The same for a mount that others overtake after its inspection, by the state it acquired. */
  lemma AcquiredRecoversIff(image: Image, states: seq<System>, steps: seq<Step>, n: nat)
    requires IsRun(image, states, steps) && n < |states| && states[n].proc.Mounting? && HasRecords(states[n])
    ensures var header, state := states[n].disk.value.header, states[n].proc.snapshot;
            CanRecover(states[n]) <==> state.epoch == header.writerEpoch + 1 || Unchanged(header, state)
  {
    RunKeeps(image, states, steps, n);
  }

  /**
   Nobody else takes the lease, and a mount that acquired the lease for a journal with records gets
   as far as rebasing it.
   */
  predicate Undisturbed(s: System, step: Step) {
    && !step.ForeignAcquire? && !step.Break?
    && (s.proc.Mounting? && HasRecords(s) ==> !step.Crash? && !step.AbortMount?)
  }

  /** The journal belongs to the newest epoch, or to the one before while the lease is being taken again. */
  predicate Current(s: System) {
    && !ForeignHolder(s.head)
    && (match s.proc
        case Running(epoch, _, _, _, _, _) => s.head.epoch == epoch
        case Mounting(state) => state.epoch == s.head.epoch &&
          (HasRecords(s) ==> s.head.epoch == s.disk.value.header.writerEpoch + 1)
        case Down(_, _) => HasRecords(s) ==> s.head.epoch == s.disk.value.header.writerEpoch)
  }

  lemma StepKeepsCurrent(s: System, step: Step)
    requires Inv(s) && Current(s) && Enabled(s, step) && Undisturbed(s, step)
    ensures Current(Apply(s, step)) && !step.Refuse? && !step.Reject?
  {
  }

  lemma {:induction false} UndisturbedIsCurrent(image: Image, states: seq<System>, steps: seq<Step>, n: nat)
    requires IsRun(image, states, steps) && n < |states|
    requires forall k :: 0 <= k < n ==> Undisturbed(states[k], steps[k])
    ensures Current(states[n])
  {
    if n > 0 {
      UndisturbedIsCurrent(image, states, steps, n - 1);
      RunKeeps(image, states, steps, n - 1);
      StepKeepsCurrent(states[n - 1], steps[n - 1]);
    }
  }

  /**
   Crashes alone lose nothing: as long as no other node and no operator takes the
   lease, and no mount is interrupted between acquiring the lease and rebasing the
   journal, every mount after every crash recovers every acknowledged generation.
   */
  lemma UndisturbedRecovers(image: Image, states: seq<System>, steps: seq<Step>, n: nat)
    requires IsRun(image, states, steps) && n < |states|
    requires forall k :: 0 <= k < n ==> Undisturbed(states[k], steps[k])
    ensures states[n].proc.Down? && HasRecords(states[n]) ==> Recovers(states[n])
    ensures states[n].proc.Mounting? && HasRecords(states[n]) ==>
              CanRecover(states[n]) && RecoveredImage(states[n]) == Fold(states[n].base, states[n].log)
    ensures states[n].acked <= |states[n].log|
  {
    UndisturbedIsCurrent(image, states, steps, n);
    RunKeeps(image, states, steps, n);
    var s := states[n];
    if s.proc.Down? && HasRecords(s) { MountRecoversIff(image, states, steps, n); }
    if s.proc.Mounting? && HasRecords(s) { RecoverKeeps(s); }
  }

  // ----- A journal that is not recovered -----

  function Final(states: seq<System>): System
    requires states != []
  {
    states[|states| - 1]
  }

  /** A run goes on with any step that is enabled. */
  lemma Then(
    image: Image, states: seq<System>, steps: seq<Step>, step: Step)
    returns (more: seq<System>, taken: seq<Step>)
    requires IsRun(image, states, steps) && Enabled(Final(states), step)
    ensures IsRun(image, more, taken) && Final(more) == Apply(Final(states), step) && taken == steps + [step]
  {
    more, taken := states + [Apply(Final(states), step)], steps + [step];
    forall i | 0 <= i < |taken| ensures Enabled(more[i], taken[i]) && more[i + 1] == Apply(more[i], taken[i]) {
      if i < |steps| { assert more[i] == states[i] && more[i + 1] == states[i + 1] && taken[i] == steps[i]; }
    }
  }

  const FirstSealed := Sealed(1, map[0 := 5])
  const SecondSealed := Sealed(2, map[0 := 7])

  predicate Alone(steps: seq<Step>) { forall k :: 0 <= k < |steps| ==> !steps[k].ForeignAcquire? && !steps[k].Break? }

  lemma MountsFresh() returns (states: seq<System>, steps: seq<Step>)
    ensures IsRun([0], states, steps) && Alone(steps)
    ensures Final(states) == System(Head(2, 1, 0, [0], Some(NODE)), Own(1, 0, [0]), [0], [], 0, 0, 0, 0,
                                    Some(Disk(Meta(2, 1, 0), 0, 0)), Running(2, 0, 0, NotSent, {}, {}))
  {
    states, steps := [Start([0])], [];
    states, steps := Then([0], states, steps, Acquire);
    states, steps := Then([0], states, steps, MountEmpty);
  }

  lemma SealsFirst() returns (states: seq<System>, steps: seq<Step>)
    ensures IsRun([0], states, steps) && Alone(steps)
    ensures Final(states) == System(Head(2, 1, 0, [0], Some(NODE)), Own(1, 0, [0]), [0], [FirstSealed], 0, 0, 1, 0,
                                    Some(Disk(Meta(2, 1, 0), 0, 1)), Running(2, 0, 0, NotSent, {}, {}))
  {
    states, steps := MountsFresh();
    assert 0 in map[0 := 5];
    states, steps := Then([0], states, steps, Seal(map[0 := 5], Local));
    assert Final(states).log == [FirstSealed];
    states, steps := Then([0], states, steps, Sync(1));
    states, steps := Then([0], states, steps, AckFlush(1));
  }

  /** The first generation is published and dropped from the queue; the file keeps its record. */
  lemma PublishesFirst() returns (states: seq<System>, steps: seq<Step>)
    ensures IsRun([0], states, steps) && Alone(steps)
    ensures Final(states) == System(Head(2, 2, 1, [5], Some(NODE)), Own(2, 1, [5]), [0], [FirstSealed], 1, 1, 1, 0,
                                    Some(Disk(Meta(2, 1, 0), 0, 1)), Running(2, 1, 1, NotSent, {}, {}))
  {
    states, steps := SealsFirst();
    states, steps := Then([0], states, steps, Collect);
    states, steps := Then([0], states, steps, Send);
    var log := Final(states).log;
    assert log[0..1] == [FirstSealed] && log[0..1][..0] == [];
    assert Merged(log[0..1]) == map[0 := 5];
    assert Overlay([0], map[0 := 5]) == [5];
    states, steps := Then([0], states, steps, Land(1));
    states, steps := Then([0], states, steps, Ack(false));
  }

  /** The node dies with a second generation that is acknowledged but only in the journal. */
  lemma DiesAhead() returns (states: seq<System>, steps: seq<Step>)
    ensures IsRun([0], states, steps) && Alone(steps)
    ensures Final(states) ==
            System(Head(2, 2, 1, [5], Some(NODE)), Own(2, 1, [5]), [0], [FirstSealed, SecondSealed], 1, 1, 2, 0,
                                    Some(Disk(Meta(2, 1, 0), 0, 2)), Down(None, false))
  {
    states, steps := PublishesFirst();
    assert 0 in map[0 := 7];
    states, steps := Then([0], states, steps, Seal(map[0 := 7], Local));
    assert Final(states).log == [FirstSealed, SecondSealed];
    states, steps := Then([0], states, steps, Sync(2));
    states, steps := Then([0], states, steps, AckFlush(2));
    assert Final(states).log[..2] == Final(states).log;
    states, steps := Then([0], states, steps, Crash(2));
  }

  /** The next mount dies between acquiring the lease and rebasing the journal. */
  lemma DiesMounting() returns (states: seq<System>, steps: seq<Step>)
    ensures IsRun([0], states, steps) && Alone(steps)
    ensures Final(states) ==
            System(Head(3, 2, 1, [5], Some(NODE)), Own(2, 1, [5]), [0], [FirstSealed, SecondSealed], 1, 1, 2, 0,
                                    Some(Disk(Meta(2, 1, 0), 0, 2)), Down(None, false))
  {
    states, steps := DiesAhead();
    states, steps := Then([0], states, steps, Inspect);
    states, steps := Then([0], states, steps, Acquire);
    assert Final(states).log[..2] == Final(states).log;
    states, steps := Then([0], states, steps, Crash(2));
  }

  /**
   Not every acknowledged flush is recovered: when the next mount dies between
   acquiring the lease and rebasing the journal, the mount after it acquires the
   lease a second epoch on, rejects the journal and releases the lease, and from
   then on the journal is refused at once. Both flushes were acknowledged; the
   head shows only the first.
   */
  lemma InterruptedMountStrandsTheJournal() returns (states: seq<System>, steps: seq<Step>)
    ensures IsRun([0], states, steps) && Alone(steps)
    ensures var s := Final(states);
            && CanRefuse(s) && s.acked == 2 == |s.log| && s.log[1] == SecondSealed && s.head.image == [5]
            && |steps| > 0 && steps[|steps| - 1].Reject?
  {
    states, steps := DiesMounting();
    states, steps := Then([0], states, steps, Inspect);
    states, steps := Then([0], states, steps, Acquire);
    states, steps := Then([0], states, steps, Reject);
  }
}
