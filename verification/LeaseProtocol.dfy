/**
 The lease and head protocol of the conditional head (internal/replica/remote.go:
 `Acquire`, `Lease.update`, `resolvePending`, `commitState`, `Publish`,
 `PublishCheckpoint`, `commitManifest`, `Release`, `Break`; internal/replica/head.go:
 `conditionalHead`; internal/replica/syncer.go: `publishWithRetry`).

 All nodes share one object that is replaced only by conditional writes
 (If-Match, section 13.1.1 of RFC 9110; If-None-Match, section 13.1.2). The
 model is a state machine over the steps every node can take. A write is a
 request in the network: it may land long after its sender gave up, and its
 acknowledgement may be lost. The history of the object is kept as a log, and
 an ETag is the position of a version in that log.
 */
module LeaseProtocol {
  import opened Options

  /** One lease token is drawn per `Acquire` or `Break` call. */
  type Token = nat
  /** The identity of a list of encoded segments. */
  type Segments = nat

  datatype Change = Write(segments: Segments) | Checkpoint

  /** A manifest with its parents. Manifest keys are hashes of the body, so a key is this value. */
  datatype Chain =
    | Genesis
    | Link(parent: Chain, generation: nat, epoch: nat, change: Change, createdAt: nat)

  datatype LeaseRecord = LeaseRecord(holder: nat, token: Token, epoch: nat)

  /** The head document; `rest` stands for expiry times and manifest placement. */
  datatype Head = Head(epoch: nat, generation: nat, manifest: Chain, lease: Option<LeaseRecord>, rest: nat)

  /** A conditional write on its way to the store; no expected version means "if absent". */
  datatype Request = Request(token: Token, expected: Option<nat>, body: Head)

  /** A commit whose outcome a lease waits for, with the manifest it publishes, if any. */
  datatype Attempt = Attempt(body: Head, manifest: Option<Chain>)

  datatype Phase = Acquiring(request: Request) | Idle | Committing(attempt: Attempt) | Stopped

  /** One `publishWithRetry` call: the same segments until it returns. */
  datatype Job = Job(segments: Segments, base: seq<Segments>, startTag: nat)

  datatype Client = Client(
    phase: Phase, state: Head, etag: nat, acquired: nat, lost: bool,
    pending: Option<Attempt>, adopted: Option<Chain>, job: Option<Job>)

  /** A publish call that returned without an error. */
  datatype Outcome = Outcome(token: Token, segments: Segments, base: seq<Segments>, startTag: nat, tag: nat)

  datatype System = System(
    log: seq<Head>, authors: seq<Token>, inflight: set<Request>, clients: map<Token, Client>, done: set<Outcome>)

  // ----- What a version means -----

  function Written(c: Chain): seq<Segments> {
    match c
    case Genesis => []
    case Link(parent, _, _, Write(segments), _) => Written(parent) + [segments]
    case Link(parent, _, _, Checkpoint, _) => Written(parent)
  }

  predicate SameLease(before: Head, after: Head) { after.lease == before.lease || after.lease.None? }

  /** The new manifest is the old one, or one generation on top of it. */
  predicate Advances(before: Head, after: Head) {
    || (after.generation == before.generation && after.manifest == before.manifest)
    || (&& after.generation == before.generation + 1
        && after.manifest.Link?
        && after.manifest.parent == before.manifest
        && after.manifest.generation == after.generation
        && after.manifest.epoch == after.epoch)
  }

  predicate IsAcquire(before: Head, after: Head, token: Token) {
    && after.epoch == before.epoch + 1 && after.generation == before.generation && after.manifest == before.manifest
    && after.lease.Some? && after.lease.value.token == token && after.lease.value.epoch == after.epoch
  }

  predicate IsBreak(before: Head, after: Head) {
    && after.epoch == before.epoch + 1 && after.generation == before.generation && after.manifest == before.manifest
    && after.lease.None?
  }

  predicate IsOwn(before: Head, after: Head, token: Token) {
    && before.lease.Some? && before.lease.value.token == token
    && after.epoch == before.epoch && SameLease(before, after) && Advances(before, after)
  }

  predicate ValidTransition(before: Head, after: Head, token: Token) {
    IsAcquire(before, after, token) || IsBreak(before, after) || IsOwn(before, after, token)
  }

  predicate IsFirst(after: Head, token: Token) {
    && after.epoch == 1 && after.generation == 0 && after.manifest == Genesis
    && after.lease.Some? && after.lease.value.token == token && after.lease.value.epoch == 1
  }

  function Last(s: System): Head
    requires s.log != []
  {
    s.log[|s.log| - 1]
  }

  // ----- Steps -----

  datatype Step =
    | BeginAcquire(t: Token, holder: nat, rest: nat)
    | AcquireDone(t: Token, readBack: bool)
    | AcquireFailed(t: Token)
    | BeginBreak(t: Token, rest: nat)
    | BeginRenew(t: Token, rest: nat)
    | BeginRelease(t: Token, rest: nat)
    | StartPublish(t: Token, segments: Segments)
    | BeginPublish(t: Token, createdAt: nat, rest: nat)
    | BeginCheckpoint(t: Token, createdAt: nat, rest: nat)
    | CommitDone(t: Token, readBack: bool)
    | CommitPrecondition(t: Token)
    | CommitError(t: Token, remember: bool)
    | ResolvePending(t: Token, seen: nat)
    | ConsumeAdopted(t: Token)
    | Abandon(t: Token)
    | Land(r: Request)
    | Drop(r: Request)

  /** The position a request takes in the log when it lands. */
  function Slot(r: Request): nat { if r.expected.None? then 0 else r.expected.value + 1 }

  function AcquireBody(s: System, t: Token, holder: nat, rest: nat): Head {
    if s.log == [] then Head(1, 0, Genesis, Some(LeaseRecord(holder, t, 1)), rest)
    else Last(s).(epoch := Last(s).epoch + 1, lease := Some(LeaseRecord(holder, t, Last(s).epoch + 1)), rest := rest)
  }

  function Expected(s: System): Option<nat> { if s.log == [] then None else Some(|s.log| - 1) }

  /** A token that no client and no request has used. */
  ghost predicate Unused(s: System, t: Token) {
    && t !in s.clients
    && (forall r :: r in s.inflight ==> r.token != t)
    && t !in s.authors
  }

  predicate Ready(s: System, t: Token) {
    && t in s.clients && s.clients[t].phase.Idle? && !s.clients[t].lost && s.clients[t].state.lease.Some?
  }

  /** `consumeAdoptedPublishLocked`: the generation being retried is the one already adopted. */
  predicate Adopted(c: Client) {
    && c.adopted.Some? && c.job.Some? && c.adopted.value.Link?
    && c.adopted.value.change == Write(c.job.value.segments)
    && c.adopted.value.generation == c.state.generation && c.adopted.value.epoch == c.state.epoch
  }

  /** `commitManifest` runs only after an earlier manifest commit of unknown outcome was resolved. */
  predicate Resolved(c: Client) { c.pending.Some? ==> c.pending.value.manifest.None? }

  ghost predicate Enabled(s: System, step: Step) {
    match step
    case BeginAcquire(t, _, _) => Unused(s, t)
    case AcquireDone(t, readBack) =>
      && t in s.clients && s.clients[t].phase.Acquiring?
      && var r := s.clients[t].phase.request;
         if readBack then s.log != [] && Last(s) == r.body
         else Slot(r) < |s.log| == |s.authors| && s.log[Slot(r)] == r.body && s.authors[Slot(r)] == t
    case AcquireFailed(t) => t in s.clients && s.clients[t].phase.Acquiring?
    case BeginBreak(t, _) => Unused(s, t) && s.log != [] && Last(s).lease.Some?
    case BeginRenew(t, _) => Ready(s, t)
    case BeginRelease(t, _) => Ready(s, t)
    case StartPublish(t, _) => Ready(s, t) && s.clients[t].job.None?
    case BeginPublish(t, _, _) => Ready(s, t) && s.clients[t].job.Some? && !Adopted(s.clients[t]) &&
      Resolved(s.clients[t])
    case BeginCheckpoint(t, _, _) => Ready(s, t) && s.clients[t].job.None? && Resolved(s.clients[t])
    case CommitDone(t, readBack) =>
      && t in s.clients && s.clients[t].phase.Committing?
      && var c := s.clients[t];
         if readBack then s.log != [] && Last(s) == c.phase.attempt.body
         else
           && c.etag + 1 < |s.log| == |s.authors|
           && s.log[c.etag + 1] == c.phase.attempt.body && s.authors[c.etag + 1] == t
    case CommitPrecondition(t) => t in s.clients && s.clients[t].phase.Committing?
    case CommitError(t, _) => t in s.clients && s.clients[t].phase.Committing?
    case ResolvePending(t, seen) => Ready(s, t) && s.clients[t].pending.Some? && s.clients[t].etag <= seen < |s.log|
    case ConsumeAdopted(t) => Ready(s, t) && Adopted(s.clients[t])
    case Abandon(t) => t in s.clients && s.clients[t].phase.Idle?
    case Land(r) => r in s.inflight && r.expected == Expected(s)
    case Drop(r) => r in s.inflight
  }

  function Send(s: System, t: Token, c: Client, attempt: Attempt): System {
    s.(clients := s.clients[t := c.(phase := Committing(attempt))],
       inflight := s.inflight + {Request(t, Some(c.etag), attempt.body)})
  }

  function NewManifest(c: Client, change: Change, createdAt: nat): Chain {
    Link(c.state.manifest, c.state.generation + 1, c.state.epoch, change, createdAt)
  }

  function PublishAttempt(c: Client, change: Change, createdAt: nat, rest: nat): Attempt {
    var manifest := NewManifest(c, change, createdAt);
    Attempt(c.state.(generation := c.state.generation + 1, manifest := manifest, rest := rest), Some(manifest))
  }

  /** The lease after a commit took effect at `tag`; a manifest commit forgets an adopted one. */
  function Committed(c: Client, attempt: Attempt, tag: nat): Client {
    c.(phase := Idle, state := attempt.body, etag := tag,
       adopted := if attempt.manifest.Some? then None else c.adopted)
  }

  /** The publish call that was being retried returns nil. */
  function Finish(s: System, t: Token, c: Client): System
    requires c.job.Some?
  {
    s.(clients := s.clients[t := c.(job := None)],
       done := s.done + {Outcome(t, c.job.value.segments, c.job.value.base, c.job.value.startTag, c.etag)})
  }

  function Apply(s: System, step: Step): System
    requires Enabled(s, step)
  {
    match step
    case BeginAcquire(t, holder, rest) =>
      var body := AcquireBody(s, t, holder, rest);
      var r := Request(t, Expected(s), body);
      s.(clients := s.clients[t := Client(Acquiring(r), body, 0, 0, false, None, None, None)],
         inflight := s.inflight + {r})
    case AcquireDone(t, readBack) =>
      var r := s.clients[t].phase.request;
      var tag := if readBack then |s.log| - 1 else Slot(r);
      s.(clients := s.clients[t := Client(Idle, r.body, tag, tag, false, None, None, None)])
    case AcquireFailed(t) => s.(clients := s.clients - {t})
    case BeginBreak(t, rest) =>
      s.(inflight := s.inflight +
          {Request(t, Expected(s), Last(s).(epoch := Last(s).epoch + 1, lease := None, rest := rest))})
    case BeginRenew(t, rest) =>
      var c := s.clients[t];
      Send(s, t, c, Attempt(c.state.(rest := rest), None))
    case BeginRelease(t, rest) =>
      var c := s.clients[t];
      Send(s, t, c, Attempt(c.state.(lease := None, rest := rest), None))
    case StartPublish(t, segments) =>
      var c := s.clients[t];
      s.(clients := s.clients[t := c.(job := Some(Job(segments, Written(c.state.manifest), c.etag)))])
    case BeginPublish(t, createdAt, rest) =>
      var c := s.clients[t];
      Send(s, t, c, PublishAttempt(c, Write(c.job.value.segments), createdAt, rest))
    case BeginCheckpoint(t, createdAt, rest) =>
      var c := s.clients[t];
      Send(s, t, c, PublishAttempt(c, Checkpoint, createdAt, rest))
    case CommitDone(t, readBack) =>
      var c := s.clients[t];
      var attempt := c.phase.attempt;
      var c' := Committed(c, attempt, if readBack then |s.log| - 1 else c.etag + 1);
      if attempt.manifest.Some? && c.job.Some? then Finish(s, t, c') else s.(clients := s.clients[t := c'])
    case CommitPrecondition(t) =>
      s.(clients := s.clients[t := s.clients[t].(phase := Idle, lost := true)])
    case CommitError(t, remember) =>
      var c := s.clients[t];
      s.(clients := s.clients[t := c.(phase := Idle, pending := if remember then Some(c.phase.attempt) else c.pending)])
    case ResolvePending(t, seen) =>
      // The head that was read may have been replaced by the time the lease looks at it.
      var c := s.clients[t];
      var attempt := c.pending.value;
      if s.log[seen] == attempt.body then
        var c' := Committed(c, attempt, seen);
        s.(clients := s.clients[t := c'.(pending := None,
             adopted := if attempt.manifest.Some? then attempt.manifest else c'.adopted)])
      else s.(clients := s.clients[t := c.(pending := None)])
    case ConsumeAdopted(t) =>
      var c := s.clients[t];
      Finish(s, t, c.(adopted := None))
    case Abandon(t) =>
      s.(clients := s.clients[t := s.clients[t].(phase := Stopped)])
    case Land(r) =>
      s.(log := s.log + [r.body], authors := s.authors + [r.token], inflight := s.inflight - {r})
    case Drop(r) => s.(inflight := s.inflight - {r})
  }

  const Start := System([], [], {}, map[], {})

  /** A run: the states passed through and the steps taken between them. */
  ghost predicate IsRun(states: seq<System>, steps: seq<Step>) {
    && |states| == |steps| + 1 && states[0] == Start
    && (forall i :: 0 <= i < |steps| ==> Enabled(states[i], steps[i]) && states[i + 1] == Apply(states[i], steps[i]))
  }

  // ----- Invariant -----

  ghost predicate LogOk(s: System) {
    && |s.authors| == |s.log|
    && (s.log != [] ==> IsFirst(s.log[0], s.authors[0]))
    && (forall k :: 0 < k < |s.log| ==> ValidTransition(s.log[k - 1], s.log[k], s.authors[k]))
  }

  ghost predicate RequestOk(s: System, r: Request) {
    match r.expected
    case None => IsFirst(r.body, r.token)
    case Some(i) => i < |s.log| && ValidTransition(s.log[i], r.body, r.token)
  }

  ghost predicate RequestsOk(s: System) {
    forall r :: r in s.inflight ==> RequestOk(s, r)
  }

  /** What the calls of a lease may have written by now: nothing new, or the segments being published. */
  predicate Possible(c: Client, written: seq<Segments>) {
    match c.job
    case None => written == Written(c.state.manifest)
    case Some(job) => written == job.base || written == job.base + [job.segments]
  }

  function Since(c: Client): nat { if c.job.Some? then c.job.value.startTag else c.etag }

  /** An attempt of this lease, whether its outcome is awaited or was never learned. */
  ghost predicate AttemptOk(c: Client, t: Token, a: Attempt) {
    && a.body.epoch == c.state.epoch
    && (a.body.lease.Some? ==> a.body.lease.value.token == t)
    && (a.manifest.None? ==>
          && a.body.generation <= c.state.generation
          && (a.body.generation == c.state.generation ==> a.body.manifest == c.state.manifest))
    && (a.manifest.Some? ==>
          && a.manifest == Some(a.body.manifest) && a.body.manifest.Link?
          && a.body.manifest.generation == a.body.generation && a.body.manifest.epoch == a.body.epoch)
    && (match c.job
        case None =>
          && |Written(a.body.manifest)| <= |Written(c.state.manifest)|
          && (a.manifest.Some? ==> a.body.manifest.change.Checkpoint?)
        case Some(job) =>
          && |Written(a.body.manifest)| <= |job.base| + 1
          && (a.manifest.Some? ==>
                || (a.body.manifest.change.Checkpoint? && |Written(a.body.manifest)| <= |job.base|)
                || (a.body.manifest.change == Write(job.segments) &&
                      Written(a.body.manifest) == job.base + [job.segments])))
  }

  /** The commit in progress: a renewal, a checkpoint, or the segments being published. */
  ghost predicate CommittingOk(c: Client, t: Token, a: Attempt) {
    && AttemptOk(c, t, a) && IsOwn(c.state, a.body, t)
    && (a.manifest.None? ==> a.body.manifest == c.state.manifest)
    && (a.manifest.Some? ==>
          Written(a.body.manifest) ==
            if c.job.Some? then c.job.value.base + [c.job.value.segments] else Written(c.state.manifest))
  }

  predicate NothingAdopted(c: Client) {
    c.adopted.Some? ==> c.adopted.value.Link? && c.adopted.value.change.Checkpoint?
  }

  /** A lease's view is a committed version of the epoch it acquired. */
  ghost predicate HoldingOk(s: System, t: Token, c: Client) {
    && c.acquired <= c.etag < |s.log| && s.log[c.etag] == c.state
    && s.log[c.acquired].epoch == c.state.epoch
    && s.log[c.acquired].lease.Some? && s.log[c.acquired].lease.value.token == t
    && (c.state.lease.Some? ==> c.state.lease.value.token == t)
    && (c.adopted.Some? ==>
          && c.state.manifest == c.adopted.value && c.adopted.value.Link?
          && (c.adopted.value.change.Write? ==>
                && c.job.Some? && Resolved(c)
                && Written(c.state.manifest) == c.job.value.base + [c.job.value.segments]))
    && (c.phase.Committing? && c.phase.attempt.manifest.Some? ==> Resolved(c) && NothingAdopted(c))
    && (c.pending.Some? ==> AttemptOk(c, t, c.pending.value))
    && (c.phase.Committing? ==> CommittingOk(c, t, c.phase.attempt))
  }

  ghost predicate JobOk(s: System, t: Token, c: Client) {
    c.job.Some? ==>
      var job := c.job.value;
      && job.startTag <= c.etag < |s.log|
      && Written(s.log[job.startTag].manifest) == job.base
      && s.log[job.startTag].epoch == c.state.epoch
      && s.log[job.startTag].lease.Some? && s.log[job.startTag].lease.value.token == t
      && (Written(c.state.manifest) == job.base + [job.segments] ==> Adopted(c))
  }

  /** Everything the lease caused, or may still cause, in its own epoch. */
  ghost predicate CallOk(s: System, t: Token, c: Client) {
    && Possible(c, Written(c.state.manifest))
    && JobOk(s, t, c)
    && (forall k :: Since(c) <= k < |s.log| && s.log[k].epoch == c.state.epoch ==>
          Possible(c, Written(s.log[k].manifest)))
    && (forall r :: r in s.inflight && r.token == t && r.expected.Some? && r.expected.value >= Since(c) ==>
          Possible(c, Written(r.body.manifest)))
  }

  /** Before its first commit a token has one request and at most one version. */
  ghost predicate AcquiringOk(s: System, t: Token, request: Request) {
    && request.token == t && request.body.lease.Some? && request.body.lease.value.token == t
    && (forall r :: r in s.inflight && r.token == t ==> r == request)
    && (forall k :: 0 <= k < |s.authors| && s.authors[k] == t ==> k == Slot(request))
  }

  ghost predicate ClientOk(s: System, t: Token, c: Client) {
    match c.phase
    case Acquiring(request) => AcquiringOk(s, t, request)
    case _ => HoldingOk(s, t, c) && CallOk(s, t, c)
  }

  /** A publish call that returned nil added its segments, once, on top of what was there. */
  ghost predicate OutcomeOk(s: System, o: Outcome) {
    && o.startTag < o.tag < |s.log|
    && Written(s.log[o.startTag].manifest) == o.base
    && Written(s.log[o.tag].manifest) == o.base + [o.segments]
    && s.log[o.startTag].epoch == s.log[o.tag].epoch
    && s.log[o.startTag].lease.Some? && s.log[o.startTag].lease.value.token == o.token
  }

  ghost predicate Inv(s: System) {
    && LogOk(s) && RequestsOk(s)
    && (forall t :: t in s.clients ==> ClientOk(s, t, s.clients[t]))
    && (forall o :: o in s.done ==> OutcomeOk(s, o))
  }
}
