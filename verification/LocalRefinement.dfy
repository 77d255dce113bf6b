/**
 The local side of a running node as its journal and its replication worker keep
 it, and as Durability counts it (internal/replica/journal.go,
 internal/replica/syncer.go). The lists of Syncing.Syncer and the records of
 Journals.Journal are stretches of the log of sealed generations, and what the
 two classes do to them are steps of Durability.
 */
module LocalRefinement {
  import opened Options
  import opened Generations
  import opened Syncing
  import opened Journals
  import D = Durability

  /** `start` generations were sealed before this process took up the journal; the lists hold those since. */
  datatype Local = Local(
    start: nat, sealed: seq<Sealed>, published: seq<Sealed>, pending: seq<Sealed>, durable: nat, book: Book)

  function Given(l: Local): nat { l.start + |l.published| }

  function Taken(l: Local): nat { l.start + |l.published| + |l.pending| }

  /** The lists are stretches of the log, and the positions are where they begin and end. */
  ghost predicate Matches(l: Local, s: D.System) {
    && s.proc.Running? && s.proc.sending.NotSent? && s.disk.Some?
    && l.start <= |s.log| && s.log[l.start..] == l.sealed && l.published + l.pending <= l.sealed
    && s.proc.first == Given(l) && s.proc.taken == Taken(l) <= |s.log| && s.disk.value.synced == l.start + l.durable
    && BookOk(l.book) && s.disk.value.from <= Given(l) && Records(l.book) == s.log[s.disk.value.from..]
    && l.book.entries == s.log[Given(l)..] && l.book.nextSeq == D.NextSeq(s.log)
  }

  /** What the worker's order says about the log: the next request carries the next generation. */
  lemma NextIsNext(sealed: seq<Sealed>, published: seq<Sealed>, pending: seq<Sealed>, requests: seq<Request>)
    requires InOrder(sealed, published, pending, requests)
    ensures published + pending <= sealed
    ensures requests != [] && requests[0].gen.Some? ==>
              var n := |published + pending|; n < |sealed| && sealed[n] == requests[0].gen.value
  {
    if requests != [] {
      CollectKeeps(sealed, published, pending, requests);
      Regroup(published, pending, One(requests[0]));
    }
  }

  /** The next sequence number depends on the last record alone. */
  lemma SameNext(log: seq<Sealed>, start: nat)
    requires start < |log|
    ensures NextSeq(log[start..]) == D.NextSeq(log)
  {
  }

  lemma StartMatches(t: D.System, start: nat, records: seq<Sealed>, book: Book)
    requires t.proc.Running? && t.proc.sending.NotSent? && t.proc.first == t.proc.taken == start <= |t.log|
    requires t.disk.Some? && t.disk.value.from == start && t.disk.value.synced == |t.log| && records == t.log[start..]
    requires BookOk(book) && Records(book) == book.entries == records && book.nextSeq == D.NextSeq(t.log)
    ensures Matches(Local(start, records, [], [], |records|, book), t)
  {
  }

  /** `Rebase` and `EnqueueRecovered`: a recovered node starts with its journal. */
  lemma RecoveredMatches(s: D.System, records: seq<Sealed>, headerBytes: nat)
    requires D.CanRecover(s) && s.disk.value.from <= |s.log| && records == s.log[s.disk.value.from..]
    requires Ascending(records) && (records != [] ==> records[0].seqno > 0)
    ensures var book := Opened(records, NextSeq(records), headerBytes);
            Matches(Local(s.disk.value.from, records, [], [], |records|, book), D.DoRecover(s))
  {
    var book := Opened(records, NextSeq(records), headerBytes);
    NextIsAbove(records);
    OpenedOk(records, NextSeq(records), headerBytes);
    SameNext(s.log, s.disk.value.from);
    StartMatches(D.DoRecover(s), s.disk.value.from, records, book);
  }

  lemma EmptyMatches(s: D.System, headerBytes: nat)
    requires D.CanMountEmpty(s)
    ensures Matches(Local(0, [], [], [], 0, Opened([], 1, headerBytes)), D.DoMountEmpty(s))
  {
    OpenedOk([], 1, headerBytes);
  }

  lemma GrownStretch(log: seq<Sealed>, gen: Sealed, k: nat)
    requires k <= |log|
    ensures (log + [gen])[k..] == log[k..] + [gen]
  {
  }

  /** Sealing: `EnqueueGeneration` of the journal and `Enqueue` of the worker. */
  lemma SealMatches(l: Local, s: D.System, blocks: Blocks, waiter: D.Waiter)
    requires Matches(l, s) && blocks != map[]
    ensures var gen := Sealed(l.book.nextSeq, blocks);
            Matches(l.(sealed := l.sealed + [gen], book := Appended(l.book, blocks)), D.DoSeal(s, blocks, waiter))
  {
    var gen := Sealed(l.book.nextSeq, blocks);
    AppendedOk(l.book, blocks);
    GrownStretch(s.log, gen, l.start);
    GrownStretch(s.log, gen, s.disk.value.from);
    GrownStretch(s.log, gen, Given(l));
  }

  /** A completed sync makes more of the sealed generations durable (`BatchSynced`). */
  lemma SyncMatches(l: Local, s: D.System, durable: nat)
    requires Matches(l, s) && l.durable <= durable <= |l.sealed|
    ensures D.CanSync(s, l.start + durable) && Matches(l.(durable := durable), D.DoSync(s, l.start + durable))
  {
  }

  /** The next generation becomes pending once it is durable (`Collect`). */
  lemma CollectMatches(l: Local, s: D.System)
    requires Matches(l, s) && |l.published + l.pending| < l.durable <= |l.sealed|
    ensures var gen := l.sealed[|l.published + l.pending|];
            D.CanCollect(s) && Matches(l.(pending := l.pending + [gen]), D.DoCollect(s))
  {
    var n := |l.published + l.pending|;
    Regroup(l.published, l.pending, [l.sealed[n]]);
    assert l.published + (l.pending + [l.sealed[n]]) == l.sealed[..n + 1];
  }

  lemma Stretch(log: seq<Sealed>, start: nat, xs: seq<Sealed>, ys: seq<Sealed>)
    requires start <= |log| && xs + ys <= log[start..]
    ensures start + |xs| + |ys| <= |log| && log[start + |xs|..start + |xs| + |ys|] == ys
  {
    var from := start + |xs|;
    forall k | 0 <= k < |ys| ensures log[from + k] == ys[k] {
      assert (xs + ys)[|xs| + k] == ys[k] && log[start..][|xs| + k] == log[from + k];
    }
  }

  /** What is pending is the stretch of the log that the publication merges. */
  lemma PendingIsStretch(l: Local, s: D.System)
    requires Matches(l, s)
    ensures s.log[Given(l)..Taken(l)] == l.pending
  {
    Stretch(s.log, l.start, l.published, l.pending);
  }

  /** The journal after the pending generations were acknowledged. */
  lemma AcknowledgeMatches(l: Local, s: D.System, headerBytes: nat)
    requires Matches(l, s) && l.pending != []
    ensures var sequence := l.pending[|l.pending| - 1].seqno;
            var a := Acknowledged(l.book, sequence, headerBytes);
            && BookOk(a) && a.entries == s.log[Taken(l)..] && a.nextSeq == l.book.nextSeq
            && Records(a) == if ShouldCompact(Dropped(l.book, sequence)) then s.log[Taken(l)..] else Records(l.book)
  {
    var n := |l.pending|;
    PendingIsStretch(l, s);
    EntriesOk(l.book);
    assert s.log[Given(l)..][..n] == l.pending;
    assert l.book.entries[n - 1] == l.pending[n - 1];
    AcknowledgeDropsPublished(l.book.entries, n);
    assert s.log[Given(l)..][n..] == s.log[Taken(l)..];
    AcknowledgedOk(l.book, l.pending[n - 1].seqno, headerBytes);
    DroppedOk(l.book, l.pending[n - 1].seqno);
  }

  /** Sending, landing and acknowledging: the steps `sync` stands for. */
  function Synced(s: D.System, manifest: nat, compact: bool): D.System
    requires D.CanSend(s) && D.CanLand(D.DoSend(s)) && D.CanAck(D.DoLand(D.DoSend(s), manifest))
  {
    D.DoAck(D.DoLand(D.DoSend(s), manifest), compact)
  }

  lemma SyncedFacts(s: D.System, manifest: nat, compact: bool)
    requires D.CanSend(s) && D.CanLand(D.DoSend(s)) && D.CanAck(D.DoLand(D.DoSend(s), manifest))
    ensures var t := Synced(s, manifest, compact);
            && t.log == s.log && t.proc == s.proc.(first := s.proc.taken, sending := D.NotSent) && t.disk.Some?
            && t.disk.value.from == (if compact then s.proc.taken else s.disk.value.from)
            && t.disk.value.synced == (if compact then |s.log| else s.disk.value.synced)
            && t.head == D.Commit(s.head, manifest, Merged(s.log[s.proc.first..s.proc.taken]))
  {
  }

  function PublishedLocally(l: Local, headerBytes: nat): Local
    requires l.pending != []
  {
    var sequence := l.pending[|l.pending| - 1].seqno;
    l.(published := l.published + l.pending, pending := [],
       durable := if ShouldCompact(Dropped(l.book, sequence)) then |l.sealed| else l.durable,
       book := Acknowledged(l.book, sequence, headerBytes))
  }

  lemma PublishEnabled(l: Local, s: D.System, manifest: nat)
    requires Matches(l, s) && l.pending != [] && s.head.epoch == s.proc.epoch
    ensures D.CanSend(s) && D.CanLand(D.DoSend(s)) && D.CanAck(D.DoLand(D.DoSend(s), manifest))
  {
  }

  lemma PublishedMatches(l: Local, s: D.System, t: D.System, compact: bool, headerBytes: nat)
    requires Matches(l, s) && l.pending != [] && t.log == s.log && t.disk.Some?
    requires t.proc == s.proc.(first := s.proc.taken, sending := D.NotSent)
    requires compact == ShouldCompact(Dropped(l.book, l.pending[|l.pending| - 1].seqno))
    requires t.disk.value.from == (if compact then s.proc.taken else s.disk.value.from)
    requires t.disk.value.synced == (if compact then |s.log| else s.disk.value.synced)
    ensures Matches(PublishedLocally(l, headerBytes), t)
  {
    AcknowledgeMatches(l, s, headerBytes);
    assert (l.published + l.pending) + [] == l.published + l.pending;
  }

  /**
   `sync`: everything pending is merged into the head, and the journal drops
   exactly that, compacting its file when its thresholds say so.
   */
  lemma PublishMatches(l: Local, s: D.System, manifest: nat, headerBytes: nat)
    requires Matches(l, s) && l.pending != [] && s.head.epoch == s.proc.epoch
    ensures D.CanSend(s) && D.CanLand(D.DoSend(s)) && D.CanAck(D.DoLand(D.DoSend(s), manifest))
    ensures var compact := ShouldCompact(Dropped(l.book, l.pending[|l.pending| - 1].seqno));
            && Synced(s, manifest, compact).head == D.Commit(s.head, manifest, Merged(l.pending))
            && Matches(PublishedLocally(l, headerBytes), Synced(s, manifest, compact))
  {
    var compact := ShouldCompact(Dropped(l.book, l.pending[|l.pending| - 1].seqno));
    PublishEnabled(l, s, manifest);
    PendingIsStretch(l, s);
    SyncedFacts(s, manifest, compact);
    PublishedMatches(l, s, Synced(s, manifest, compact), compact, headerBytes);
  }
}
