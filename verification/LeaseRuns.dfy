/**
 Whole runs of the lease protocol: every step keeps the invariant of
 LeaseProtocol, and what follows for the history of the head. Committed heads
 form one chain with one writer per epoch, a publication takes effect exactly
 once although acknowledgements get lost, and a journal that passes
 `ValidateRecovery` (internal/replica/journal.go) belongs to the head it is
 replayed over.
 */
module LeaseRuns {
  import opened Options
  import opened LeaseProtocol

  // ----- Facts about every well-formed log -----

  predicate IsPrefix(xs: seq<Segments>, ys: seq<Segments>) { xs <= ys }

  /** Epochs, generations and the written segments only ever grow. */
  lemma {:induction false} LogGrows(s: System, i: nat, j: nat)
    requires LogOk(s) && i <= j < |s.log|
    ensures s.log[i].epoch <= s.log[j].epoch
    ensures s.log[i].generation <= s.log[j].generation <= s.log[i].generation + (j - i)
    ensures IsPrefix(Written(s.log[i].manifest), Written(s.log[j].manifest))
    ensures s.log[i].generation == s.log[j].generation ==> s.log[i].manifest == s.log[j].manifest
    decreases j - i
  {
    if i < j {
      LogGrows(s, i, j - 1);
      assert ValidTransition(s.log[j - 1], s.log[j], s.authors[j]);
    }
  }

  /** Within one epoch the lease is the one that opened it, or gone. */
  lemma {:induction false} LeaseWithinEpoch(s: System, i: nat, j: nat)
    requires LogOk(s) && i <= j < |s.log| && s.log[i].epoch == s.log[j].epoch
    ensures SameLease(s.log[i], s.log[j])
    ensures forall k :: i < k <= j ==> s.log[i].lease.Some? && s.authors[k] == s.log[i].lease.value.token
    ensures i < j ==> s.log[i].lease.Some? && s.authors[j] == s.log[i].lease.value.token
    decreases j - i
  {
    if i < j {
      LogGrows(s, i, j - 1);
      LogGrows(s, j - 1, j);
      LeaseWithinEpoch(s, i, j - 1);
      assert ValidTransition(s.log[j - 1], s.log[j], s.authors[j]);
    }
  }

  /** A version that carries a lease was written by that lease's token. */
  lemma HolderIsAuthor(s: System, k: nat)
    requires LogOk(s) && k < |s.log| && s.log[k].lease.Some?
    ensures s.authors[k] == s.log[k].lease.value.token
  {
    if k > 0 { assert ValidTransition(s.log[k - 1], s.log[k], s.authors[k]); }
  }

  lemma HolderUnique(s: System, i: nat, j: nat)
    requires LogOk(s) && i < |s.log| && j < |s.log| && s.log[i].epoch == s.log[j].epoch
    requires s.log[i].lease.Some? && s.log[j].lease.Some?
    ensures s.log[i].lease.value.token == s.log[j].lease.value.token
  {
    if i <= j { LeaseWithinEpoch(s, i, j); } else { LeaseWithinEpoch(s, j, i); }
  }

  // ----- Every step keeps it -----

  /** Removing requests or adding one of another token does not concern a client. */
  lemma OtherRequests(s: System, s': System, t: Token, c: Client)
    requires s'.log == s.log && s'.authors == s.authors
    requires forall r :: r in s'.inflight && r.token == t ==> r in s.inflight
    requires ClientOk(s, t, c)
    ensures ClientOk(s', t, c)
  {
  }

  lemma LandKeepsClient(s: System, r: Request, t: Token)
    requires Inv(s) && Enabled(s, Land(r)) && t in s.clients
    ensures ClientOk(Apply(s, Land(r)), t, s.clients[t])
  {
    var s' := Apply(s, Land(r));
    var c := s.clients[t];
    var n := |s.log|;
    assert RequestOk(s, r);
    if c.phase.Acquiring? {
      assert r.token == t ==> r == c.phase.request;
      assert r.token == t ==> Slot(r) == n;
    } else {
      assert r.expected == Some(n - 1);
      LogGrows(s, c.etag, n - 1);
      if r.body.epoch == c.state.epoch {
        assert IsOwn(s.log[n - 1], r.body, r.token);
        HolderUnique(s, c.acquired, n - 1);
        assert r.token == t;
      }
      forall k | Since(c) <= k < |s'.log| && s'.log[k].epoch == c.state.epoch
        ensures Possible(c, Written(s'.log[k].manifest))
      {
        if k < n { assert s'.log[k] == s.log[k]; }
      }
    }
  }

  lemma LandKeeps(s: System, r: Request)
    requires Inv(s) && Enabled(s, Land(r))
    ensures Inv(Apply(s, Land(r)))
  {
    var s' := Apply(s, Land(r));
    assert RequestOk(s, r);
    assert LogOk(s');
    forall q | q in s'.inflight ensures RequestOk(s', q) { assert RequestOk(s, q); }
    forall t | t in s'.clients ensures ClientOk(s', t, s'.clients[t]) { LandKeepsClient(s, r, t); }
    forall o | o in s'.done ensures OutcomeOk(s', o) { assert OutcomeOk(s, o); }
  }

  lemma DropKeeps(s: System, r: Request)
    requires Inv(s) && Enabled(s, Drop(r))
    ensures Inv(Apply(s, Drop(r)))
  {
    var s' := Apply(s, Drop(r));
    forall t | t in s'.clients ensures ClientOk(s', t, s'.clients[t]) { OtherRequests(s, s', t, s.clients[t]); }
  }

  lemma BeginAcquireKeeps(s: System, t: Token, holder: nat, rest: nat)
    requires Inv(s) && Enabled(s, BeginAcquire(t, holder, rest))
    ensures Inv(Apply(s, BeginAcquire(t, holder, rest)))
  {
    var s' := Apply(s, BeginAcquire(t, holder, rest));
    forall u | u in s'.clients ensures ClientOk(s', u, s'.clients[u]) {
      if u != t { OtherRequests(s, s', u, s.clients[u]); }
    }
  }

  lemma BeginBreakKeeps(s: System, t: Token, rest: nat)
    requires Inv(s) && Enabled(s, BeginBreak(t, rest))
    ensures Inv(Apply(s, BeginBreak(t, rest)))
  {
    var s' := Apply(s, BeginBreak(t, rest));
    forall u | u in s'.clients ensures ClientOk(s', u, s'.clients[u]) { OtherRequests(s, s', u, s.clients[u]); }
  }

  /** A step that changes one client and nothing else. */
  lemma OneClient(s: System, s': System, t: Token, c: Client)
    requires Inv(s)
    requires s' == s.(clients := s.clients[t := c])
    requires ClientOk(s', t, c)
    ensures Inv(s')
  {
    forall u | u in s'.clients ensures ClientOk(s', u, s'.clients[u]) {
      if u != t { OtherRequests(s, s', u, s.clients[u]); }
    }
    forall o | o in s'.done ensures OutcomeOk(s', o) { assert OutcomeOk(s, o); }
  }

  lemma AcquireDoneKeeps(s: System, t: Token, readBack: bool)
    requires Inv(s) && Enabled(s, AcquireDone(t, readBack))
    ensures Inv(Apply(s, AcquireDone(t, readBack)))
  {
    var s' := Apply(s, AcquireDone(t, readBack));
    var r := s.clients[t].phase.request;
    var n := Slot(r);
    var c := s'.clients[t];
    assert AcquiringOk(s, t, r);
    if readBack {
      HolderIsAuthor(s, |s.log| - 1);
    }
    forall k | n < k < |s.log| ensures s.log[k].epoch != r.body.epoch {
      if s.log[k].epoch == r.body.epoch {
        LeaseWithinEpoch(s, n, k);
      }
    }
    OneClient(s, s', t, c);
  }

  lemma SendKeeps(s: System, t: Token, a: Attempt)
    requires Inv(s) && Ready(s, t)
    requires a.manifest.Some? ==> Resolved(s.clients[t]) && NothingAdopted(s.clients[t])
    requires CommittingOk(s.clients[t], t, a) && Possible(s.clients[t], Written(a.body.manifest))
    ensures Inv(Send(s, t, s.clients[t], a))
  {
    var s' := Send(s, t, s.clients[t], a);
    SendOwn(s, t, a);
    forall u | u in s'.clients ensures ClientOk(s', u, s'.clients[u]) {
      if u != t { OtherRequests(s, s', u, s.clients[u]); }
    }
    forall o | o in s'.done ensures OutcomeOk(s', o) { assert OutcomeOk(s, o); }
  }

  lemma SendOwn(s: System, t: Token, a: Attempt)
    requires Inv(s) && Ready(s, t)
    requires a.manifest.Some? ==> Resolved(s.clients[t]) && NothingAdopted(s.clients[t])
    requires CommittingOk(s.clients[t], t, a) && Possible(s.clients[t], Written(a.body.manifest))
    ensures var s' := Send(s, t, s.clients[t], a);
            ClientOk(s', t, s'.clients[t]) && RequestOk(s', Request(t, Some(s.clients[t].etag), a.body))
  {
    assert ClientOk(s, t, s.clients[t]);
  }

  lemma RenewKeeps(s: System, t: Token, rest: nat)
    requires Inv(s) && Ready(s, t)
    ensures Inv(Apply(s, BeginRenew(t, rest))) && Inv(Apply(s, BeginRelease(t, rest)))
  {
    var c := s.clients[t];
    assert ClientOk(s, t, c);
    SendKeeps(s, t, Attempt(c.state.(rest := rest), None));
    SendKeeps(s, t, Attempt(c.state.(lease := None, rest := rest), None));
  }

  lemma PublishKeeps(s: System, t: Token, createdAt: nat, rest: nat)
    requires Inv(s) && Enabled(s, BeginPublish(t, createdAt, rest))
    ensures Inv(Apply(s, BeginPublish(t, createdAt, rest)))
  {
    var c := s.clients[t];
    assert ClientOk(s, t, c);
    SendKeeps(s, t, PublishAttempt(c, Write(c.job.value.segments), createdAt, rest));
  }

  lemma CheckpointKeeps(s: System, t: Token, createdAt: nat, rest: nat)
    requires Inv(s) && Enabled(s, BeginCheckpoint(t, createdAt, rest))
    ensures Inv(Apply(s, BeginCheckpoint(t, createdAt, rest)))
  {
    var c := s.clients[t];
    assert ClientOk(s, t, c);
    SendKeeps(s, t, PublishAttempt(c, Checkpoint, createdAt, rest));
  }

  lemma StartPublishKeeps(s: System, t: Token, segments: Segments)
    requires Inv(s) && Enabled(s, StartPublish(t, segments))
    ensures Inv(Apply(s, StartPublish(t, segments)))
  {
    var s' := Apply(s, StartPublish(t, segments));
    assert ClientOk(s, t, s.clients[t]);
    OneClient(s, s', t, s'.clients[t]);
  }

  /** Moving the view of a lease forward in the log keeps what is known about its calls. */
  lemma MoveView(s: System, t: Token, c: Client, c': Client)
    requires LogOk(s) && HoldingOk(s, t, c) && CallOk(s, t, c)
    requires c.etag <= c'.etag < |s.log| && s.log[c'.etag] == c'.state && c'.state.epoch == c.state.epoch
    requires c'.job == c.job && c'.acquired == c.acquired
    requires c'.state.lease.Some? ==> c'.state.lease.value.token == t
    ensures Possible(c, Written(c'.state.manifest)) && Possible(c', Written(c'.state.manifest))
    ensures c.job.None? ==> Written(c'.state.manifest) == Written(c.state.manifest)
    ensures c.state.generation <= c'.state.generation
    ensures c.state.generation == c'.state.generation ==> c.state.manifest == c'.state.manifest
    ensures (c'.job.Some? ==> Written(c'.state.manifest) == c'.job.value.base + [c'.job.value.segments] ==> Adopted(c'))
            ==> CallOk(s, t, c')
  {
    LogGrows(s, c.etag, c'.etag);
  }

  /** When the publish call returns, its segments are written and nothing else is on its way. */
  lemma FinishKeeps(s: System, t: Token, c: Client, c': Client)
    requires Inv(s) && t in s.clients && ClientOk(s, t, c) && !c.phase.Acquiring?
    requires c.job.Some? && c'.job == c.job && c'.acquired == c.acquired && c'.phase.Idle?
    requires c.etag <= c'.etag < |s.log| && s.log[c'.etag] == c'.state && c'.state.epoch == c.state.epoch
    requires c'.state.lease.Some? ==> c'.state.lease.value.token == t
    requires Written(c'.state.manifest) == c.job.value.base + [c.job.value.segments]
    requires c'.adopted.None? && c'.pending == c.pending && Resolved(c)
    ensures Inv(Finish(s, t, c'))
  {
    var s' := Finish(s, t, c');
    var d := c'.(job := None);
    var job := c.job.value;
    LogGrows(s, c.etag, c'.etag);
    assert job.startTag != c'.etag;
    forall k | d.etag <= k < |s.log| && s.log[k].epoch == d.state.epoch
      ensures Possible(d, Written(s.log[k].manifest))
    {
      LogGrows(s, d.etag, k);
      assert Possible(c, Written(s.log[k].manifest));
    }
    forall r | r in s.inflight && r.token == t && r.expected.Some? && r.expected.value >= d.etag
      ensures Possible(d, Written(r.body.manifest))
    {
      assert RequestOk(s, r);
      LogGrows(s, d.etag, r.expected.value);
      assert Possible(c, Written(r.body.manifest));
    }
    assert ClientOk(s', t, d);
    forall u | u in s'.clients ensures ClientOk(s', u, s'.clients[u]) {
      if u != t { OtherRequests(s, s', u, s.clients[u]); }
    }
    forall o | o in s'.done ensures OutcomeOk(s', o) {
      if o in s.done { assert OutcomeOk(s, o); }
    }
  }

  lemma CommitDoneKeeps(s: System, t: Token, readBack: bool)
    requires Inv(s) && Enabled(s, CommitDone(t, readBack))
    ensures Inv(Apply(s, CommitDone(t, readBack)))
  {
    var c := s.clients[t];
    var a := c.phase.attempt;
    assert ClientOk(s, t, c);
    var c' := Committed(c, a, if readBack then |s.log| - 1 else c.etag + 1);
    if a.manifest.Some? && c.job.Some? {
      FinishKeeps(s, t, c, c');
    } else {
      MoveKeeps(s, t, c');
      OneClient(s, Apply(s, CommitDone(t, readBack)), t, c');
    }
  }

  /** A renewal, release or checkpoint took effect. */
  lemma MoveKeeps(s: System, t: Token, c': Client)
    requires Inv(s) && t in s.clients && s.clients[t].phase.Committing?
    requires var c := s.clients[t]; c.phase.attempt.manifest.None? || c.job.None?
    requires var c := s.clients[t];
             c.etag <= c'.etag < |s.log| && s.log[c'.etag] == c.phase.attempt.body &&
                 c' == Committed(c, c.phase.attempt, c'.etag)
    ensures ClientOk(s.(clients := s.clients[t := c']), t, c')
  {
    var c := s.clients[t];
    assert ClientOk(s, t, c);
    MoveView(s, t, c, c');
    OtherRequests(s, s.(clients := s.clients[t := c']), t, c');
  }

  lemma CommitPreconditionKeeps(s: System, t: Token)
    requires Inv(s) && Enabled(s, CommitPrecondition(t))
    ensures Inv(Apply(s, CommitPrecondition(t)))
  {
    var s' := Apply(s, CommitPrecondition(t));
    assert ClientOk(s, t, s.clients[t]);
    OneClient(s, s', t, s'.clients[t]);
  }

  lemma CommitErrorKeeps(s: System, t: Token, remember: bool)
    requires Inv(s) && Enabled(s, CommitError(t, remember))
    ensures Inv(Apply(s, CommitError(t, remember)))
  {
    var s' := Apply(s, CommitError(t, remember));
    var c := s.clients[t];
    assert ClientOk(s, t, c);
    assert HoldingOk(s', t, s'.clients[t]);
    assert CallOk(s', t, s'.clients[t]);
    OneClient(s, s', t, s'.clients[t]);
  }

  /** A pending write that took effect is adopted. */
  lemma AdoptKeeps(s: System, t: Token, seen: nat)
    requires Inv(s) && Enabled(s, ResolvePending(t, seen)) && s.log[seen] == s.clients[t].pending.value.body
    ensures var s' := Apply(s, ResolvePending(t, seen)); ClientOk(s', t, s'.clients[t])
  {
    var s' := Apply(s, ResolvePending(t, seen));
    assert ClientOk(s, t, s.clients[t]);
    MoveView(s, t, s.clients[t], s'.clients[t]);
  }

  lemma ForgetPendingKeeps(s: System, t: Token, seen: nat)
    requires Inv(s) && Enabled(s, ResolvePending(t, seen)) && s.log[seen] != s.clients[t].pending.value.body
    ensures var s' := Apply(s, ResolvePending(t, seen)); ClientOk(s', t, s'.clients[t])
  {
    assert ClientOk(s, t, s.clients[t]);
  }

  lemma ResolvePendingKeeps(s: System, t: Token, seen: nat)
    requires Inv(s) && Enabled(s, ResolvePending(t, seen))
    ensures Inv(Apply(s, ResolvePending(t, seen)))
  {
    var s' := Apply(s, ResolvePending(t, seen));
    if s.log[seen] == s.clients[t].pending.value.body {
      AdoptKeeps(s, t, seen);
    } else {
      ForgetPendingKeeps(s, t, seen);
    }
    OneClient(s, s', t, s'.clients[t]);
  }

  lemma ConsumeKeeps(s: System, t: Token)
    requires Inv(s) && Enabled(s, ConsumeAdopted(t))
    ensures Inv(Apply(s, ConsumeAdopted(t)))
  {
    var c := s.clients[t];
    assert ClientOk(s, t, c);
    FinishKeeps(s, t, c, c.(adopted := None));
  }

  lemma StepKeeps(s: System, step: Step)
    requires Inv(s) && Enabled(s, step)
    ensures Inv(Apply(s, step))
  {
    match step
    case BeginAcquire(t, holder, rest) => BeginAcquireKeeps(s, t, holder, rest);
    case AcquireDone(t, readBack) => AcquireDoneKeeps(s, t, readBack);
    case AcquireFailed(t) => ForgetKeeps(s, t);
    case BeginBreak(t, rest) => BeginBreakKeeps(s, t, rest);
    case BeginRenew(t, rest) => RenewKeeps(s, t, rest);
    case BeginRelease(t, rest) => RenewKeeps(s, t, rest);
    case StartPublish(t, segments) => StartPublishKeeps(s, t, segments);
    case BeginPublish(t, createdAt, rest) => PublishKeeps(s, t, createdAt, rest);
    case BeginCheckpoint(t, createdAt, rest) => CheckpointKeeps(s, t, createdAt, rest);
    case CommitDone(t, readBack) => CommitDoneKeeps(s, t, readBack);
    case CommitPrecondition(t) => CommitPreconditionKeeps(s, t);
    case CommitError(t, remember) => CommitErrorKeeps(s, t, remember);
    case ResolvePending(t, seen) => ResolvePendingKeeps(s, t, seen);
    case ConsumeAdopted(t) => ConsumeKeeps(s, t);
    case Abandon(t) => AbandonKeeps(s, t);
    case Land(r) => LandKeeps(s, r);
    case Drop(r) => DropKeeps(s, r);
  }

  lemma ForgetKeeps(s: System, t: Token)
    requires Inv(s) && Enabled(s, AcquireFailed(t))
    ensures Inv(Apply(s, AcquireFailed(t)))
  {
    var s' := Apply(s, AcquireFailed(t));
    forall u | u in s'.clients ensures ClientOk(s', u, s'.clients[u]) { OtherRequests(s, s', u, s.clients[u]); }
    forall o | o in s'.done ensures OutcomeOk(s', o) { assert OutcomeOk(s, o); }
  }

  lemma AbandonKeeps(s: System, t: Token)
    requires Inv(s) && Enabled(s, Abandon(t))
    ensures Inv(Apply(s, Abandon(t)))
  {
    var s' := Apply(s, Abandon(t));
    assert ClientOk(s, t, s.clients[t]);
    OneClient(s, s', t, s'.clients[t]);
  }

  lemma {:induction false} RunKeeps(states: seq<System>, steps: seq<Step>, i: nat)
    requires IsRun(states, steps) && i < |states|
    ensures Inv(states[i])
  {
    if i > 0 {
      RunKeeps(states, steps, i - 1);
      assert Enabled(states[i - 1], steps[i - 1]);
      StepKeeps(states[i - 1], steps[i - 1]);
    }
  }

  // ----- One token, one epoch -----

  predicate Carries(head: Head, t: Token, epoch: nat) {
    head.lease.Some? && head.lease.value.token == t && head.epoch == epoch
  }

  /** The token appears with this epoch, in a committed version or in one on its way. */
  ghost predicate Seen(s: System, t: Token, epoch: nat) {
    || (exists i :: 0 <= i < |s.log| && Carries(s.log[i], t, epoch))
    || (exists r :: r in s.inflight && Carries(r.body, t, epoch))
  }

  /** A lease token is bound to the epoch it was drawn for. */
  ghost predicate TokensOk(s: System) {
    forall t, e, f :: Seen(s, t, e) && Seen(s, t, f) ==> e == f
  }

  lemma SendTokens(s: System, t: Token, a: Attempt, u: Token, e: nat)
    requires Inv(s) && Ready(s, t) && a.body.epoch == s.clients[t].state.epoch
    requires SameLease(s.clients[t].state, a.body)
    requires Seen(Send(s, t, s.clients[t], a), u, e)
    ensures Seen(s, u, e)
  {
    var c := s.clients[t];
    assert ClientOk(s, t, c);
    if Carries(a.body, u, e) { assert Carries(s.log[c.etag], u, e); }
  }

  lemma FreshToken(s: System, t: Token, e: nat)
    requires Inv(s) && Unused(s, t)
    ensures !Seen(s, t, e)
  {
    forall i | 0 <= i < |s.log| ensures !Carries(s.log[i], t, e) {
      if s.log[i].lease.Some? { HolderIsAuthor(s, i); }
    }
    forall r | r in s.inflight ensures !Carries(r.body, t, e) { assert RequestOk(s, r); }
  }

  /** Only `Acquire` brings a token into play, and that token is new. */
  lemma StepTokens(s: System, step: Step, u: Token, e: nat)
    requires Inv(s) && Enabled(s, step) && Seen(Apply(s, step), u, e)
    requires !(step.BeginAcquire? && step.t == u)
    ensures Seen(s, u, e)
  {
    match step
    case BeginRenew(t, rest) => SendTokens(s, t, Attempt(s.clients[t].state.(rest := rest), None), u, e);
    case BeginRelease(t, rest) =>
      SendTokens(s, t, Attempt(s.clients[t].state.(lease := None, rest := rest), None), u, e);
    case BeginPublish(t, createdAt, rest) =>
      SendTokens(s, t, PublishAttempt(s.clients[t], Write(s.clients[t].job.value.segments), createdAt, rest), u, e);
    case BeginCheckpoint(t, createdAt, rest) =>
      SendTokens(s, t, PublishAttempt(s.clients[t], Checkpoint, createdAt, rest), u, e);
    case Land(r) =>
      if i :| 0 <= i < |s.log| + 1 && Carries(Apply(s, step).log[i], u, e) {
        assert i < |s.log| ==> Carries(s.log[i], u, e);
      }
    case _ =>
  }

  lemma StepKeepsTokens(s: System, step: Step)
    requires Inv(s) && TokensOk(s) && Enabled(s, step)
    ensures TokensOk(Apply(s, step))
  {
    var s' := Apply(s, step);
    forall u, e, f | Seen(s', u, e) && Seen(s', u, f) ensures e == f {
      if step.BeginAcquire? && step.t == u {
        AcquireTokens(s, step, e);
        AcquireTokens(s, step, f);
      } else {
        StepTokens(s, step, u, e);
        StepTokens(s, step, u, f);
      }
    }
  }

  lemma AcquireTokens(s: System, step: Step, e: nat)
    requires Inv(s) && Enabled(s, step) && step.BeginAcquire? && Seen(Apply(s, step), step.t, e)
    ensures e == AcquireBody(s, step.t, step.holder, step.rest).epoch
  {
    FreshToken(s, step.t, e);
  }

  lemma {:induction false} RunKeepsTokens(states: seq<System>, steps: seq<Step>, i: nat)
    requires IsRun(states, steps) && i < |states|
    ensures TokensOk(states[i])
  {
    if i > 0 {
      RunKeepsTokens(states, steps, i - 1);
      RunKeeps(states, steps, i - 1);
      assert Enabled(states[i - 1], steps[i - 1]);
      StepKeepsTokens(states[i - 1], steps[i - 1]);
    }
  }

  // ----- A token that broke a lease never holds one -----

  predicate Raises(before: Head, after: Head) { after.lease.None? && after.epoch == before.epoch + 1 }

  /** The token wrote, or is about to write, a version that breaks a lease. */
  ghost predicate Breaker(s: System, t: Token) {
    || (exists k :: 0 < k < |s.log| == |s.authors| && s.authors[k] == t && Raises(s.log[k - 1], s.log[k]))
    || (exists r :: r in s.inflight && r.token == t && r.expected.Some? && r.expected.value < |s.log| &&
          Raises(s.log[r.expected.value], r.body))
  }

  ghost predicate BreakerOk(s: System, t: Token) {
    Breaker(s, t) ==> t !in s.clients && forall e :: !Seen(s, t, e)
  }

  lemma SendIsNoBreak(s: System, t: Token, a: Attempt, u: Token)
    requires Inv(s) && Ready(s, t) && a.body.epoch == s.clients[t].state.epoch
    requires Breaker(Send(s, t, s.clients[t], a), u)
    ensures Breaker(s, u)
  {
    assert ClientOk(s, t, s.clients[t]);
  }

  lemma LandIsNoBreak(s: System, r: Request, u: Token)
    requires Inv(s) && Enabled(s, Land(r)) && Breaker(Apply(s, Land(r)), u)
    ensures Breaker(s, u)
  {
    var s' := Apply(s, Land(r));
    assert RequestOk(s, r);
    if k :| 0 < k < |s'.log| == |s'.authors| && s'.authors[k] == u && Raises(s'.log[k - 1], s'.log[k]) {
      if k < |s.log| { assert s.authors[k] == u && Raises(s.log[k - 1], s.log[k]); }
    } else {
      var q :| q in s'.inflight && q.token == u && q.expected.Some? && q.expected.value < |s'.log| &&
          Raises(s'.log[q.expected.value], q.body);
      assert RequestOk(s, q);
    }
  }

  /** A lease holder's own writes do not break a lease. */
  lemma OwnWriteIsNoBreak(s: System, step: Step, u: Token)
    requires step.BeginRenew? || step.BeginRelease? || step.BeginPublish? || step.BeginCheckpoint?
    requires Inv(s) && Enabled(s, step) && Breaker(Apply(s, step), u)
    ensures Breaker(s, u)
  {
    match step
    case BeginRenew(t, rest) => SendIsNoBreak(s, t, Attempt(s.clients[t].state.(rest := rest), None), u);
    case BeginRelease(t, rest) =>
      SendIsNoBreak(s, t, Attempt(s.clients[t].state.(lease := None, rest := rest), None), u);
    case BeginPublish(t, createdAt, rest) =>
      SendIsNoBreak(s, t, PublishAttempt(s.clients[t], Write(s.clients[t].job.value.segments), createdAt, rest), u);
    case BeginCheckpoint(t, createdAt, rest) =>
      SendIsNoBreak(s, t, PublishAttempt(s.clients[t], Checkpoint, createdAt, rest), u);
  }

  /** Only `Break` makes a breaker, of a token that is new. */
  lemma StepBreakers(s: System, step: Step, u: Token)
    requires Inv(s) && Enabled(s, step) && Breaker(Apply(s, step), u) && !(step.BeginBreak? && step.t == u)
    ensures Breaker(s, u)
  {
    if step.BeginRenew? || step.BeginRelease? || step.BeginPublish? || step.BeginCheckpoint? {
      OwnWriteIsNoBreak(s, step, u);
    } else if step.Land? {
      LandIsNoBreak(s, step.r, u);
    }
  }

  /** The token that a `Break` draws holds no lease, and the break gives it none. */
  lemma BreakIsUnseen(s: System, step: Step, e: nat)
    requires Inv(s) && Enabled(s, step) && step.BeginBreak?
    ensures !Seen(Apply(s, step), step.t, e)
  {
    FreshToken(s, step.t, e);
    if Seen(Apply(s, step), step.t, e) { StepTokens(s, step, step.t, e); }
  }

  lemma BreakerStaysUnseen(s: System, step: Step, u: Token)
    requires Inv(s) && Enabled(s, step) && Breaker(s, u) && BreakerOk(s, u)
    ensures u !in Apply(s, step).clients && forall e :: !Seen(Apply(s, step), u, e)
  {
    var s' := Apply(s, step);
    assert !(step.BeginAcquire? && step.t == u);
    forall e ensures !Seen(s', u, e) {
      if Seen(s', u, e) { StepTokens(s, step, u, e); }
    }
  }

  lemma StepKeepsBreakers(s: System, step: Step, u: Token)
    requires Inv(s) && Enabled(s, step) && BreakerOk(s, u)
    ensures BreakerOk(Apply(s, step), u)
  {
    if step.BeginBreak? && step.t == u {
      forall e ensures !Seen(Apply(s, step), u, e) { BreakIsUnseen(s, step, e); }
    } else if Breaker(Apply(s, step), u) {
      StepBreakers(s, step, u);
      BreakerStaysUnseen(s, step, u);
    }
  }

  lemma {:induction false} RunKeepsBreakers(states: seq<System>, steps: seq<Step>, i: nat, u: Token)
    requires IsRun(states, steps) && i < |states|
    ensures BreakerOk(states[i], u)
  {
    if i > 0 {
      RunKeepsBreakers(states, steps, i - 1, u);
      RunKeeps(states, steps, i - 1);
      assert Enabled(states[i - 1], steps[i - 1]);
      StepKeepsBreakers(states[i - 1], steps[i - 1], u);
    }
  }

  // ----- Theorems over whole runs -----

  /** `older` is `newer` or one of the manifests behind it. */
  predicate IsAncestor(older: Chain, newer: Chain) {
    older == newer || (newer.Link? && IsAncestor(older, newer.parent))
  }

  lemma {:induction false} AncestorsGrow(s: System, i: nat, j: nat)
    requires LogOk(s) && i <= j < |s.log|
    ensures IsAncestor(s.log[i].manifest, s.log[j].manifest)
    decreases j - i
  {
    if i < j {
      AncestorsGrow(s, i, j - 1);
      assert ValidTransition(s.log[j - 1], s.log[j], s.authors[j]);
    }
  }

  /**
   Single-writer history: in every run the committed heads form one chain. The
   epoch never decreases, a commit moves the generation by at most one and puts
   the new manifest on top of the old one, and no commit discards a manifest.
   */
  lemma SingleWriterHistory(states: seq<System>, steps: seq<Step>, n: nat, i: nat, j: nat)
    requires IsRun(states, steps) && n < |states| && i <= j < |states[n].log|
    ensures var log := states[n].log;
            && log[i].epoch <= log[j].epoch
            && log[i].generation <= log[j].generation
            && IsAncestor(log[i].manifest, log[j].manifest)
            && (j == i + 1 ==> Advances(log[i], log[j]))
  {
    RunKeeps(states, steps, n);
    LogGrows(states[n], i, j);
    AncestorsGrow(states[n], i, j);
    if j == i + 1 {
      assert ValidTransition(states[n].log[j - 1], states[n].log[j], states[n].authors[j]);
    }
  }

  /** The version with which a lease took over the volume. */
  predicate OpensEpoch(s: System, k: nat)
    requires k < |s.log|
  {
    s.log[k].lease.Some? && (k == 0 || s.log[k - 1].epoch < s.log[k].epoch)
  }

  /** Each epoch is acquired by at most one lease, and each lease acquires one epoch. */
  lemma OneLeasePerEpoch(states: seq<System>, steps: seq<Step>, n: nat, i: nat, j: nat)
    requires IsRun(states, steps) && n < |states| && i < |states[n].log| && j < |states[n].log|
    requires OpensEpoch(states[n], i) && OpensEpoch(states[n], j)
    ensures states[n].log[i].epoch == states[n].log[j].epoch <==> i == j
    ensures states[n].log[i].lease.value.token == states[n].log[j].lease.value.token <==> i == j
  {
    var s := states[n];
    RunKeeps(states, steps, n);
    RunKeepsTokens(states, steps, n);
    if i < j { LogGrows(s, i, j - 1); }
    if j < i { LogGrows(s, j, i - 1); }
    if s.log[i].lease.value.token == s.log[j].lease.value.token { TokenEpoch(s, i, j); }
  }

  /** Fencing: once a higher epoch is committed, the token of a lower epoch's lease writes no version ever again. */
  lemma FencedForever(states: seq<System>, steps: seq<Step>, n: nat, lease: nat, i: nat, j: nat)
    requires IsRun(states, steps) && n < |states|
    requires i < j < |states[n].log| && lease < |states[n].log| && states[n].log[lease].lease.Some?
    requires states[n].log[i].epoch > states[n].log[lease].epoch
    ensures var log, token := states[n].log, states[n].log[lease].lease.value.token;
            && !IsOwn(log[j - 1], log[j], token) && !IsAcquire(log[j - 1], log[j], token)
            && j < |states[n].authors| && states[n].authors[j] != token
  {
    var s := states[n];
    RunKeeps(states, steps, n);
    RunKeepsTokens(states, steps, n);
    LogGrows(s, i, j - 1);
    var token := s.log[lease].lease.value.token;
    if IsOwn(s.log[j - 1], s.log[j], token) { TokenEpoch(s, lease, j - 1); }
    if IsAcquire(s.log[j - 1], s.log[j], token) { TokenEpoch(s, lease, j); }
    assert ValidTransition(s.log[j - 1], s.log[j], s.authors[j]);
    if s.authors[j] == token {
      RunKeepsBreakers(states, steps, n, token);
      assert Raises(s.log[j - 1], s.log[j]);
      assert Carries(s.log[lease], token, s.log[lease].epoch);
      assert Seen(s, token, s.log[lease].epoch);
    }
  }

  lemma TokenEpoch(s: System, i: nat, j: nat)
    requires TokensOk(s) && i < |s.log| && j < |s.log|
    requires s.log[i].lease.Some? && s.log[j].lease.Some? && s.log[i].lease.value.token == s.log[j].lease.value.token
    ensures s.log[i].epoch == s.log[j].epoch
  {
    var t := s.log[i].lease.value.token;
    assert Carries(s.log[i], t, s.log[i].epoch) && Carries(s.log[j], t, s.log[j].epoch);
    assert Seen(s, t, s.log[i].epoch) && Seen(s, t, s.log[j].epoch);
  }

  /**
   Lost acknowledgements, success: when a publish call returns without an error,
   after any number of retries, exactly its segments were added on top of what
   the head held when the call began, in versions all written by that lease.
   */
  lemma PublishedOnce(states: seq<System>, steps: seq<Step>, n: nat, o: Outcome, k: nat)
    requires IsRun(states, steps) && n < |states| && o in states[n].done
    requires o.startTag < k <= o.tag
    ensures var s := states[n];
            && k <= o.tag < |s.log| == |s.authors|
            && s.authors[k] == o.token
            && Written(s.log[o.startTag].manifest) == o.base
            && Written(s.log[o.tag].manifest) == o.base + [o.segments]
            && (Written(s.log[k].manifest) == o.base || Written(s.log[k].manifest) == o.base + [o.segments])
  {
    var s := states[n];
    RunKeeps(states, steps, n);
    assert OutcomeOk(s, o);
    LeaseWithinEpoch(s, o.startTag, o.tag);
    LogGrows(s, o.startTag, k);
    LogGrows(s, k, o.tag);
  }

  /**
   Lost acknowledgements, failure: at every moment of a publish call, and after
   it was abandoned, the head holds what it held before, or that plus exactly
   the segments of the call, unless another epoch took over.
   */
  lemma PublishNeverTears(states: seq<System>, steps: seq<Step>, n: nat, t: Token)
    requires IsRun(states, steps) && n < |states| && t in states[n].clients
    requires states[n].clients[t].job.Some? && !states[n].clients[t].phase.Acquiring?
    ensures var s, c := states[n], states[n].clients[t];
            && s.log != []
            && (|| Last(s).epoch > c.state.epoch
                || Written(Last(s).manifest) == c.job.value.base
                || Written(Last(s).manifest) == c.job.value.base + [c.job.value.segments])
  {
    var s, c := states[n], states[n].clients[t];
    RunKeeps(states, steps, n);
    assert ClientOk(s, t, c);
    LogGrows(s, c.etag, |s.log| - 1);
    assert Last(s).epoch == c.state.epoch ==> Possible(c, Written(s.log[|s.log| - 1].manifest));
  }

  // ----- Journal recovery -----

  /** The identity a local journal records when it is created or rebased. */
  datatype JournalBase = JournalBase(holder: nat, writerEpoch: nat, generation: nat, manifest: Chain)

  function JournalOf(head: Head): JournalBase
    requires head.lease.Some?
  {
    JournalBase(head.lease.value.holder, head.epoch, head.generation, head.manifest)
  }

  /** `ValidateRecovery`, for a journal of this volume. */
  predicate ValidateRecovery(journal: JournalBase, head: Head) {
    if head.generation < journal.generation then false
    else if head.epoch == journal.writerEpoch then
      !(head.generation == journal.generation && head.manifest != journal.manifest)
    else
      var sameHolder := head.lease.Some? && head.lease.value.holder == journal.holder;
      var unchangedHead := head.generation == journal.generation && head.manifest == journal.manifest;
      var resumedPublishedPrefix := head.epoch == journal.writerEpoch + 1 && head.generation > journal.generation;
      sameHolder && (unchangedHead || resumedPublishedPrefix)
  }

  /** Every manifest above `base` was published in an epoch from `lo` to `hi`. */
  predicate PublishedBetween(chain: Chain, base: Chain, lo: nat, hi: nat) {
    chain == base || (chain.Link? && lo <= chain.epoch <= hi && PublishedBetween(chain.parent, base, lo, hi))
  }

  lemma {:induction false} WidenEpochs(chain: Chain, base: Chain, lo: nat, hi: nat, higher: nat)
    requires PublishedBetween(chain, base, lo, hi) && hi <= higher
    ensures PublishedBetween(chain, base, lo, higher)
  {
    if chain != base { WidenEpochs(chain.parent, base, lo, hi, higher); }
  }

  lemma {:induction false} PublishedEpochs(s: System, i: nat, j: nat)
    requires LogOk(s) && i <= j < |s.log|
    ensures PublishedBetween(s.log[j].manifest, s.log[i].manifest, s.log[i].epoch, s.log[j].epoch)
    decreases j - i
  {
    if i < j {
      PublishedEpochs(s, i, j - 1);
      LogGrows(s, i, j - 1);
      LogGrows(s, j - 1, j);
      assert ValidTransition(s.log[j - 1], s.log[j], s.authors[j]);
      WidenEpochs(s.log[j - 1].manifest, s.log[i].manifest, s.log[i].epoch, s.log[j - 1].epoch, s.log[j].epoch);
    }
  }

  /**
   Journal recovery soundness: in every run, if the check accepts the head a
   node just acquired, then everything published since the journal's base was
   published by the journal's own writer epoch.
   */
  lemma RecoverySound(states: seq<System>, steps: seq<Step>, n: nat, base: nat, now: nat)
    requires IsRun(states, steps) && n < |states| && base < now < |states[n].log|
    requires states[n].log[base].lease.Some? && OpensEpoch(states[n], now)
    requires ValidateRecovery(JournalOf(states[n].log[base]), states[n].log[now])
    ensures var log := states[n].log;
            PublishedBetween(log[now].manifest, log[base].manifest, log[base].epoch, log[base].epoch)
  {
    var s := states[n];
    RunKeeps(states, steps, n);
    assert ValidTransition(s.log[now - 1], s.log[now], s.authors[now]);
    LogGrows(s, base, now - 1);
    PublishedEpochs(s, base, now - 1);
  }
}
