/**
 The replication worker (internal/replica/syncer.go: `enqueue`, `dequeue`,
 `backgroundRequest`, `process`, `sync`). Requests are queued in the order their
 generations were sealed; the worker takes up to 128 of them, waits until each
 one's journal record is synced, and publishes everything pending as one
 generation.
 */
module Syncing {
  import opened Options
  import opened Generations

  const BATCH_LIMIT: nat := 128

  /**
   A request carries a generation unless it was empty. A remote flush also waits
   for a result, and may ask for a checkpoint; `upTo` counts the generations
   sealed when it was made.
   */
  datatype Request = Request(gen: Option<Sealed>, upTo: Option<nat>, checkpoint: bool)

  /**
   What became of publishing everything pending: nothing, a generation of the head, or one the
   journal could not acknowledge.
   */
  datatype Attempt = NotLanded | Landed | NotAcknowledged

  /** Why `process` ends; only a worker that could not publish goes on. */
  datatype Outcome = Done | WaitFailed | PublishFailed | AcknowledgeFailed | CheckpointFailed

  function One(r: Request): seq<Sealed> { if r.gen.Some? then [r.gen.value] else [] }

  function Gens(requests: seq<Request>): seq<Sealed> {
    if requests == [] then [] else Gens(requests[..|requests| - 1]) + One(requests[|requests| - 1])
  }

  lemma GensAppend(requests: seq<Request>, r: Request)
    ensures Gens(requests + [r]) == Gens(requests) + One(r)
  {
    assert (requests + [r])[..|requests|] == requests;
  }

  lemma {:induction false} GensConcat(xs: seq<Request>, ys: seq<Request>)
    ensures Gens(xs + ys) == Gens(xs) + Gens(ys)
  {
    if ys == [] {
      assert xs + ys == xs;
    } else {
      assert (xs + ys)[..|xs + ys| - 1] == xs + ys[..|ys| - 1];
      GensConcat(xs, ys[..|ys| - 1]);
    }
  }

  predicate AskedAt(requests: seq<Request>, before: seq<Sealed>, i: nat)
    requires i < |requests|
  {
    requests[i].upTo.Some? ==> requests[i].upTo.value == |before + Gens(requests[..i + 1])|
  }

  /** Every remote flush in a list waits for exactly the generations before it and its own. */
  ghost predicate AskedOk(requests: seq<Request>, before: seq<Sealed>) {
    forall i: nat {:trigger AskedAt(requests, before, i)} :: i < |requests| ==> AskedAt(requests, before, i)
  }

  lemma AskedAppend(requests: seq<Request>, before: seq<Sealed>, r: Request)
    requires AskedOk(requests, before) && (r.upTo.Some? ==> r.upTo.value == |before + Gens(requests)| + |One(r)|)
    ensures AskedOk(requests + [r], before)
  {
    var all := requests + [r];
    forall i: nat | i < |all| ensures AskedAt(all, before, i) {
      if i < |requests| {
        assert AskedAt(requests, before, i);
        assert all[..i + 1] == requests[..i + 1];
      } else {
        assert all[..i + 1] == all;
        GensAppend(requests, r);
      }
    }
  }

  lemma Regroup<T>(xs: seq<T>, ys: seq<T>, zs: seq<T>)
    ensures (xs + ys) + zs == xs + (ys + zs)
  {
  }

  lemma MoveHead<T>(xs: seq<T>, ys: seq<T>)
    requires ys != []
    ensures (xs + [ys[0]]) + ys[1..] == xs + ys
  {
  }

  lemma GensHead(requests: seq<Request>, n: nat)
    requires 0 < n <= |requests|
    ensures Gens(requests[..n]) == One(requests[0]) + Gens(requests[1..][..n - 1])
  {
    var first, rest := [requests[0]], requests[1..][..n - 1];
    assert first[..0] == [] && Gens(first) == One(requests[0]);
    assert requests[..n] == first + rest;
    GensConcat(first, rest);
  }

  /** Handling the first request adds what it carries to what came before. */
  lemma AskedTail(requests: seq<Request>, before: seq<Sealed>)
    requires AskedOk(requests, before) && requests != []
    ensures AskedOk(requests[1..], before + One(requests[0]))
    ensures requests[0].upTo.Some? ==> requests[0].upTo.value == |before + One(requests[0])|
  {
    var rest, more := requests[1..], before + One(requests[0]);
    assert AskedAt(requests, before, 0);
    GensHead(requests, 1);
    assert rest[..0] == [];
    forall i: nat | i < |rest| ensures AskedAt(rest, more, i) {
      assert AskedAt(requests, before, i + 1);
      GensHead(requests, i + 2);
    }
  }

  /** Published, pending, in the batch and queued generations are all that were sealed, in order. */
  ghost predicate InOrder(sealed: seq<Sealed>, published: seq<Sealed>, pending: seq<Sealed>, requests: seq<Request>) {
    && sealed == (published + pending) + Gens(requests)
    && AskedOk(requests, published + pending)
  }

  lemma EnqueueKeeps(
    sealed: seq<Sealed>, published: seq<Sealed>, pending: seq<Sealed>, requests: seq<Request>, r: Request)
    requires InOrder(sealed, published, pending, requests)
    requires r.upTo.Some? ==> r.upTo.value == |sealed| + |One(r)|
    ensures InOrder(sealed + One(r), published, pending, requests + [r])
  {
    AskedAppend(requests, published + pending, r);
    GensAppend(requests, r);
    Regroup(published + pending, Gens(requests), One(r));
  }

  /** The next request becomes pending. */
  lemma CollectKeeps(sealed: seq<Sealed>, published: seq<Sealed>, pending: seq<Sealed>, requests: seq<Request>)
    requires InOrder(sealed, published, pending, requests) && requests != []
    ensures InOrder(sealed, published, pending + One(requests[0]), requests[1..])
    ensures requests[0].upTo.Some? ==> requests[0].upTo.value == |published + (pending + One(requests[0]))|
  {
    Regroup(published, pending, One(requests[0]));
    AskedTail(requests, published + pending);
    GensHead(requests, |requests|);
    assert requests[..|requests|] == requests && requests[1..][..|requests| - 1] == requests[1..];
    Regroup(published + pending, One(requests[0]), Gens(requests[1..]));
  }

  /** Publishing moves everything pending to the head; what the head was given stays a prefix of what was sealed. */
  lemma PublishKeeps(sealed: seq<Sealed>, published: seq<Sealed>, pending: seq<Sealed>, requests: seq<Request>)
    requires InOrder(sealed, published, pending, requests)
    ensures InOrder(sealed, published + pending, [], requests)
    ensures published + pending <= sealed
    ensures requests == [] ==> published + pending == sealed
  {
    assert (published + pending) + [] == published + pending;
  }

  predicate ReadyAt(requests: seq<Request>, ready: seq<bool>, before: seq<Sealed>, durable: nat, i: nat)
    requires i < |requests| == |ready|
  {
    ready[i] ==> |before + Gens(requests[..i + 1])| <= durable
  }

  /** A wait returns nil only when the journal has the record, and all before it, on stable storage. */
  ghost predicate ReadyOk(requests: seq<Request>, ready: seq<bool>, before: seq<Sealed>, durable: nat) {
    && |ready| == |requests|
    && (forall i: nat {:trigger ReadyAt(requests, ready, before, durable, i)} :: i < |requests| ==>
          ReadyAt(requests, ready, before, durable, i))
  }

  lemma ReadyPrefix(all: seq<Request>, ready: seq<bool>, before: seq<Sealed>, durable: nat, n: nat)
    requires ReadyOk(all, ready, before, durable) && n <= |all|
    ensures ReadyOk(all[..n], ready[..n], before, durable)
  {
    var xs, rs := all[..n], ready[..n];
    forall i: nat | i < n ensures ReadyAt(xs, rs, before, durable, i) {
      assert ReadyAt(all, ready, before, durable, i);
      assert xs[..i + 1] == all[..i + 1];
    }
  }

  /** A nil wait for the first request; the waits for the others count from behind it. */
  lemma ReadyTail(requests: seq<Request>, ready: seq<bool>, before: seq<Sealed>, durable: nat)
    requires ReadyOk(requests, ready, before, durable) && requests != []
    ensures ready[0] ==> |before + One(requests[0])| <= durable
    ensures ReadyOk(requests[1..], ready[1..], before + One(requests[0]), durable)
  {
    var rest, waits, more := requests[1..], ready[1..], before + One(requests[0]);
    assert ReadyAt(requests, ready, before, durable, 0);
    GensHead(requests, 1);
    assert rest[..0] == [];
    forall i: nat | i < |rest| ensures ReadyAt(rest, waits, more, durable, i) {
      assert ReadyAt(requests, ready, before, durable, i + 1);
      GensHead(requests, i + 2);
    }
  }

  /** The first `n` waits returned nil. */
  ghost predicate AllReady(ready: seq<bool>, n: nat) {
    n <= |ready| && forall i :: 0 <= i < n ==> ready[i]
  }

  lemma NextReady(ready: seq<bool>, n: nat)
    requires n < |ready|
    ensures AllReady(ready, n + 1) <==> AllReady(ready, n) && ready[n]
    ensures ready[n..][0] == ready[n] && ready[n..][1..] == ready[n + 1..]
  {
  }

  /** The two parts of a batch whose waits returned nil up to the first that did not. */
  lemma SplitBatch(batch: seq<Request>, taken: seq<Request>, rest: seq<Request>, ready: seq<bool>)
    requires taken + rest == batch && |batch| <= |ready| && AllReady(ready[..|batch|], |taken|)
    requires rest != [] ==> !ready[..|batch|][|taken|]
    ensures batch[..|taken|] == taken && batch[|taken|..] == rest && AllReady(ready, |taken|)
    ensures |taken| < |batch| ==> !ready[|taken|]
  {
    assert forall i :: 0 <= i < |taken| ==> ready[i] == ready[..|batch|][i];
  }

  predicate AnswerableAt(requests: seq<Request>, count: nat, i: nat)
    requires i < |requests|
  {
    requests[i].upTo.Some? ==> requests[i].upTo.value <= count
  }

  /** No remote flush among the requests waits for more than `count` generations. */
  ghost predicate Answerable(requests: seq<Request>, count: nat) {
    forall i: nat {:trigger AnswerableAt(requests, count, i)} :: i < |requests| ==> AnswerableAt(requests, count, i)
  }

  lemma AnswerableMore(requests: seq<Request>, r: Request, count: nat, more: nat)
    requires Answerable(requests, count) && count <= more && (r.upTo.Some? ==> r.upTo.value <= more)
    ensures Answerable(requests + [r], more)
  {
    var longer := requests + [r];
    forall i: nat | i < |longer| ensures AnswerableAt(longer, more, i) {
      if i < |requests| { assert AnswerableAt(requests, count, i); }
    }
  }

  /**
   The second loop of `process`: wait for each request's record and make its
   generation pending. A failed wait ends it; whatever is pending by then is
   durable. `queue` is what other callers have queued behind the batch.
   */
  method Collected(
    before: seq<Sealed>, batch: seq<Request>, ready: seq<bool>, ghost sealed: seq<Sealed>,
    ghost published: seq<Sealed>, ghost queue: seq<Request>, ghost durable: nat)
    returns (pending: seq<Sealed>, handled: seq<Request>, rest: seq<Request>)
    requires InOrder(sealed, published, before, batch + queue) && |published + before| <= durable
    requires ReadyOk(batch, ready, published + before, durable)
    ensures handled + rest == batch && InOrder(sealed, published, pending, rest + queue)
    ensures pending == before + Gens(handled) && |published + pending| <= durable
    ensures (rest != [] ==> !ready[|handled|]) && AllReady(ready, |handled|)
    ensures Answerable(handled, |published + pending|)
  {
    pending, handled, rest := before, [], batch;
    var waits := ready;
    ghost var count := |published + before|;
    assert before + [] == before && ready[0..] == ready;
    while rest != []
      invariant handled + rest == batch && waits == ready[|handled|..]
      invariant InOrder(sealed, published, pending, rest + queue) && ReadyOk(rest, waits, published + pending, durable)
      invariant pending == before + Gens(handled) && count == |published + pending| <= durable
      invariant Answerable(handled, count) && AllReady(ready, |handled|)
      decreases |rest|
    {
      if !waits[0] { return; }
      var r := rest[0];
      NextReady(ready, |handled|);
      CollectRound(before, pending, handled, rest, waits, sealed, published, queue, durable, count);
      pending := pending + One(r);
      count := count + |One(r)|;
      handled, rest, waits := handled + [r], rest[1..], waits[1..];
    }
  }

  lemma CollectRound(
    before: seq<Sealed>, pending: seq<Sealed>, handled: seq<Request>, rest: seq<Request>, waits: seq<bool>,
    sealed: seq<Sealed>, published: seq<Sealed>, queue: seq<Request>, durable: nat, count: nat)
    requires rest != [] && InOrder(sealed, published, pending, rest + queue) && pending == before + Gens(handled)
    requires ReadyOk(rest, waits, published + pending, durable) && waits[0]
    requires count == |published + pending| && Answerable(handled, count)
    ensures var r := rest[0];
            && (handled + [r]) + rest[1..] == handled + rest
            && InOrder(sealed, published, pending + One(r), rest[1..] + queue)
            && ReadyOk(rest[1..], waits[1..], published + (pending + One(r)), durable)
            && pending + One(r) == before + Gens(handled + [r])
            && count + |One(r)| == |published + (pending + One(r))| <= durable
            && Answerable(handled + [r], count + |One(r)|)
  {
    var r := rest[0];
    MoveHead(handled, rest);
    GensAppend(handled, r);
    Regroup(before, Gens(handled), One(r));
    Regroup(published, pending, One(r));
    ReadyTail(rest, waits, published + pending, durable);
    assert (rest + queue)[0] == r && (rest + queue)[1..] == rest[1..] + queue;
    CollectKeeps(sealed, published, pending, rest + queue);
    AnswerableMore(handled, r, count, count + |One(r)|);
  }

  function Recovered(gens: seq<Sealed>): seq<Request> {
    seq(|gens|, i requires 0 <= i < |gens| => Request(Some(gens[i]), None, false))
  }

  lemma {:induction false} RecoveredGens(gens: seq<Sealed>)
    ensures Gens(Recovered(gens)) == gens
  {
    if gens != [] {
      var n := |gens| - 1;
      RecoveredGens(gens[..n]);
      assert Recovered(gens)[..n] == Recovered(gens[..n]);
      assert gens[..n] + [gens[n]] == gens;
    }
  }

  lemma RecoveredInOrder(gens: seq<Sealed>)
    ensures InOrder(gens, [], [], Recovered(gens))
  {
    RecoveredGens(gens);
    var all, none := Recovered(gens), [] + [];
    forall i: nat | i < |all| ensures AskedAt(all, none, i) {
    }
    assert none + gens == gens;
  }

  class Syncer {
    var requests: seq<Request>
    var pending: seq<Sealed>
    /** How many generations were sealed so far. */
    var count: nat

    /** Every generation in seal order, recovered ones first, and those the head was given. */
    ghost var sealed: seq<Sealed>
    ghost var published: seq<Sealed>
    /** How many sealed generations the journal has on stable storage. */
    ghost var durable: nat

    /** The order of all generations, while the worker holds a batch; pending ones are durable. */
    ghost predicate Valid(batch: seq<Request>)
      reads this
    {
      && InOrder(sealed, published, pending, batch + requests)
      && |published + pending| <= durable && count == |sealed|
    }

    /** `StartSyncer` followed by `EnqueueRecovered`: everything read back from the journal is durable. */
    constructor (recovered: seq<Sealed>)
      ensures Valid([]) && sealed == recovered && published == [] && pending == [] && durable == |recovered|
    {
      requests := Recovered(recovered);
      count := |recovered|;
      pending, published, sealed, durable := [], [], recovered, |recovered|;
      RecoveredInOrder(recovered);
      assert [] + Recovered(recovered) == Recovered(recovered);
    }

    /**
     `EnqueueGeneration`, `EnqueueLocalGeneration` and `request`: under the device
     lock a sealed generation, if any, is queued behind all earlier ones.
     */
    method Enqueue(gen: Option<Sealed>, remote: bool, checkpoint: bool, ghost batch: seq<Request>)
      requires Valid(batch)
      modifies this`requests, this`sealed, this`count
      ensures Valid(batch)
      ensures sealed == old(sealed) + (if gen.Some? then [gen.value] else [])
      ensures requests == old(requests) +
                (if remote || gen.Some?
                    then [Request(gen, if remote then Some(|sealed|) else None, remote && checkpoint)] else [])
    {
      if gen.None? && !remote {
        assert sealed + [] == sealed && requests + [] == requests;
        return;
      }
      var total := count + if gen.Some? then 1 else 0;
      var r := Request(gen, if remote then Some(total) else None, remote && checkpoint);
      EnqueueKeeps(sealed, published, pending, batch + requests, r);
      Regroup(batch, requests, [r]);
      requests, count := requests + [r], total;
      sealed := sealed + One(r);
    }

    /** `dequeue`. */
    method Dequeue(ghost batch: seq<Request>) returns (r: Option<Request>)
      requires Valid(batch)
      modifies this`requests
      ensures old(requests) == [] ==> r.None? && requests == []
      ensures old(requests) != [] ==>
              r == Some(old(requests)[0]) && requests == old(requests)[1..] && Valid(batch + [r.value])
    {
      if |requests| == 0 { return None; }
      MoveHead(batch, requests);
      r := Some(requests[0]);
      requests := requests[1..];
    }

    /**
     `backgroundRequest`: the oldest queued request, or what the device seals now
     (`gen`) if nothing is queued, so that a background seal overtakes no flush.
     */
    method BackgroundRequest(gen: Option<Sealed>) returns (first: Request)
      requires Valid([])
      modifies this`requests, this`sealed, this`count
      ensures Valid([first])
      ensures old(requests) != [] ==>
              first == old(requests)[0] && requests == old(requests)[1..] && sealed == old(sealed)
      ensures old(requests) == [] ==>
              first == Request(gen, None, false) && requests == [] && sealed == old(sealed) + One(first)
    {
      var r := Dequeue([]);
      if r.Some? {
        assert [] + [r.value] == [r.value];
        return r.value;
      }
      first := Request(gen, None, false);
      EnqueueKeeps(sealed, published, pending, [] + requests, first);
      assert ([] + requests) + [first] == [first] + requests;
      count := count + if gen.Some? then 1 else 0;
      sealed := sealed + One(first);
    }

    /** The drain loop of `process`: the first request and up to 127 more, in queue order. */
    method Drain(first: Request) returns (batch: seq<Request>)
      requires Valid([first])
      modifies this`requests
      ensures Valid(batch) && 0 < |batch| <= BATCH_LIMIT
      ensures batch + requests == [first] + old(requests)
      ensures |batch| == BATCH_LIMIT || requests == []
    {
      batch := [first];
      while |batch| < BATCH_LIMIT && |requests| > 0
        invariant Valid(batch) && 0 < |batch| <= BATCH_LIMIT
        invariant batch + requests == [first] + old(requests)
        decreases |requests|
      {
        MoveHead(batch, requests);
        var r := Dequeue(batch);
        batch := batch + [r.value];
      }
    }

    /** The second loop of `process` on the worker's pending generations. */
    method Collect(batch: seq<Request>, ready: seq<bool>) returns (handled: seq<Request>, rest: seq<Request>)
      requires Valid(batch) && ReadyOk(batch, ready, published + pending, durable)
      modifies this`pending
      ensures handled + rest == batch && Valid(rest)
      ensures pending == old(pending) + Gens(handled)
      ensures (rest != [] ==> !ready[|handled|]) && AllReady(ready, |handled|)
      ensures Answerable(handled, |published + pending|)
    {
      var next;
      next, handled, rest := Collected(pending, batch, ready, sealed, published, requests, durable);
      pending := next;
    }

    /** `sync`: everything pending is merged and published as one generation of the head. */
    method Sync(attempt: Attempt, ghost batch: seq<Request>) returns (ok: bool, blocks: Blocks)
      requires Valid(batch)
      modifies this`pending, this`published
      ensures ok <==> attempt.Landed? || old(pending) == []
      ensures blocks == Merged(old(pending))
      ensures ok ==> Valid(batch) && pending == [] && published == old(published + pending)
      ensures !ok ==> pending == old(pending)
      ensures !ok && attempt.NotLanded? ==> Valid(batch) && published == old(published)
      ensures !ok && attempt.NotAcknowledged? ==> published == old(published + pending) && published <= sealed
    {
      blocks := MergeGenerations(pending);
      if |pending| == 0 {
        assert published + [] == published;
        return true, blocks;
      }
      if attempt.NotLanded? { return false, blocks; }
      PublishKeeps(sealed, published, pending, batch + requests);
      published := published + pending;
      if attempt.NotAcknowledged? { return false, blocks; }
      pending := [];
      assert published + [] == published;
      return true, blocks;
    }

    /**
     The two loops of `process`. The first `handled` requests of the batch, whose
     waits returned nil, have become pending; a failed wait leaves out the rest.
     */
    method TakeUp(first: Request, ready: seq<bool>) returns (handled: nat, batch: seq<Request>)
      requires Valid([first]) && ReadyOk([first] + requests, ready, published + pending, durable)
      modifies this`requests, this`pending
      ensures 0 < |batch| <= BATCH_LIMIT && batch + requests == [first] + old(requests)
      ensures handled <= |batch| <= |ready| && AllReady(ready, handled) && (handled < |batch| ==> !ready[handled])
      ensures Valid(batch[handled..]) && pending == old(pending) + Gens(batch[..handled])
      ensures Answerable(batch[..handled], |published + pending|)
    {
      ghost var all := [first] + requests;
      batch := Drain(first);
      ReadyPrefix(all, ready, published + pending, durable, |batch|);
      assert all[..|batch|] == batch;
      var taken, rest := Collect(batch, ready[..|batch|]);
      handled := |taken|;
      SplitBatch(batch, taken, rest, ready);
    }

    /**
     `process`, up to what the waiters of the batch are told. Nil means that every
     generation sealed up to each remote flush of the batch is in the head, in
     seal order. After a failed publication everything taken up stays pending, in
     order, for the next call; after a failed wait nothing was published.
     */
    method Process(
      first: Request, ready: seq<bool>, attempt: Attempt)
      returns (out: Outcome, handled: nat, batch: seq<Request>)
      requires Valid([first]) && ReadyOk([first] + requests, ready, published + pending, durable)
      modifies this`requests, this`pending, this`published
      ensures 0 < |batch| <= BATCH_LIMIT && batch + requests == [first] + old(requests)
      ensures handled <= |batch| <= |ready| && AllReady(ready, handled) && (out.WaitFailed? <==> handled < |batch|)
      ensures out.WaitFailed? ==> !ready[handled] && Valid(batch[handled..]) && published == old(published)
      ensures out.Done? ==>
              Valid([]) && pending == [] && published <= sealed && |published| <= durable &&
                  Answerable(batch, |published|)
      ensures out.PublishFailed? ==> Valid([]) && pending == old(pending) + Gens(batch) && published == old(published)
      ensures out.Done? || out.AcknowledgeFailed? ==>
              published == old(published) + (old(pending) + Gens(batch)) && published <= sealed
      ensures handled == |batch| && (attempt.Landed? || old(pending) + Gens(batch) == []) ==> out.Done?
      ensures !out.CheckpointFailed?
    {
      handled, batch := TakeUp(first, ready);
      if handled < |batch| { return WaitFailed, handled, batch; }
      assert batch[..handled] == batch && batch[handled..] == [];
      var ok, blocks := Sync(attempt, []);
      if !ok {
        return if attempt.NotLanded? then PublishFailed else AcknowledgeFailed, handled, batch;
      }
      assert published + [] == published;
      PublishKeeps(sealed, published, pending, [] + requests);
      out := Done;
    }

    /**
     The end of `process`: a requested checkpoint comes before the waiters are
     told and its failure is theirs; otherwise they are told nil first.
     */
    method Finish(
      first: Request, ready: seq<bool>, attempt: Attempt, checkpointed: bool)
      returns (out: Outcome, told: bool, batch: seq<Request>)
      requires Valid([first]) && ReadyOk([first] + requests, ready, published + pending, durable)
      modifies this`requests, this`pending, this`published
      ensures told ==> pending == [] && published <= sealed && |published| <= durable && Answerable(batch, |published|)
      ensures out.Done? || out.CheckpointFailed? || out.PublishFailed? ==> Valid([])
      ensures out.PublishFailed? ==> pending == old(pending) + Gens(batch) && published == old(published)
      ensures out.Done? || out.CheckpointFailed? ==> published == old(published) + (old(pending) + Gens(batch))
      ensures told <==> out.Done? || (out.CheckpointFailed? && forall i :: 0 <= i < |batch| ==> !batch[i].checkpoint)
    {
      var handled;
      out, handled, batch := Process(first, ready, attempt);
      if !out.Done? { return out, false, batch; }
      var asked := exists i :: 0 <= i < |batch| && batch[i].checkpoint;
      out := if checkpointed then Done else CheckpointFailed;
      told := checkpointed || !asked;
    }
  }
}
