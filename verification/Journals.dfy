/**
 The local journal (internal/replica/journal.go: `CreateJournal`, `OpenJournal`,
 `Enqueue`, `syncPending`, `Acknowledge`, `rewriteLocked`).

 Appending and syncing are separate: callers append a record and wait, one
 worker syncs the file for everybody who came before. Each method of `Journal`
 is one critical section of the source, so any interleaving of the callers and
 the worker is a sequence of calls. Failing writes and syncs are parameters.
 */
module Journals {
  import opened Generations

  const COMPACT_BYTES: nat := 0x400_0000

  // ----- Group commit -----

  /** A flush that waits: its number and how many records had been appended when it was enqueued. */
  datatype Waiter = Waiter(id: nat, position: nat)

  /**
   The waiting room. `appended` and `synced` count records in the file and
   records covered by a completed sync; while `syncing`, the sync in progress
   was started after `covering` records. `asked[id]` is the position flush `id`
   waits for and `results` holds the answers delivered so far.
   */
  datatype Group = Group(
    appended: nat, synced: nat, covering: nat, syncing: bool, syncRunning: bool, broken: bool, closed: bool,
    pendingSync: seq<Waiter>, pendingData: nat, inflight: seq<Waiter>, batch: seq<Waiter>,
    asked: seq<nat>, results: map<nat, bool>)

  function Ask(g: Group): Group { g.(asked := g.asked + [g.appended]) }

  function Here(g: Group): Waiter { Waiter(|g.asked|, g.appended) }

  /** Send an outcome to every waiter. */
  function Answer(results: map<nat, bool>, waiters: seq<Waiter>, ok: bool): map<nat, bool> {
    if waiters == [] then results
    else Answer(results, waiters[..|waiters| - 1], ok)[waiters[|waiters| - 1].id := ok]
  }

  /** `Enqueue` of an empty generation: join a sync in progress, the next one, or return at once. */
  function EnqueueEmpty(g: Group): Group {
    var t := Ask(g);
    if g.broken || g.closed then t.(results := Answer(g.results, [Here(g)], false))
    else if g.syncRunning then
      (if g.pendingData == 0 then t.(inflight := g.inflight + [Here(g)])
          else t.(pendingSync := g.pendingSync + [Here(g)]))
    else t.(results := Answer(g.results, [Here(g)], true))
  }

  /** `Enqueue` of a generation: append its record and wait for a sync that starts later. */
  function EnqueueRecord(g: Group, written: bool): Group {
    if g.broken || g.closed then Ask(g).(results := Answer(g.results, [Here(g)], false))
    else if !written then Ask(g).(broken := true, results := Answer(g.results, [Here(g)], false))
    else
      var t := g.(appended := g.appended + 1);
      Ask(t).(pendingSync := g.pendingSync + [Here(t)], pendingData := g.pendingData + 1, syncRunning := true)
  }

  /** The worker takes everybody who waits and starts a sync, or stops. */
  function BatchTaken(g: Group): Group {
    if g.pendingSync == [] then g.(syncRunning := false)
    else g.(batch := g.pendingSync, pendingSync := [], pendingData := 0, syncing := true, covering := g.appended)
  }

  /** The sync returned: answer its batch and the empty flushes that joined it. */
  function BatchSynced(g: Group, ok: bool): Group {
    var t := g.(batch := [], inflight := [], syncing := false);
    if ok then
      t.(synced := g.covering, syncRunning := g.pendingSync != [],
          results := Answer(g.results, g.batch + g.inflight, true))
    else
      t.(broken := true, syncRunning := false, pendingSync := [], pendingData := 0,
         results := Answer(g.results, g.batch + g.inflight + g.pendingSync, false))
  }

  /** Rewriting the file syncs every record; it excludes a sync in progress. */
  function Rewritten(g: Group): Group { g.(synced := g.appended) }

  ghost predicate WaitersOk(waiters: seq<Waiter>, asked: seq<nat>, position: nat) {
    forall i :: 0 <= i < |waiters| ==>
      waiters[i].id < |asked| && asked[waiters[i].id] == waiters[i].position <= position
  }

  ghost predicate Waits(waiters: seq<Waiter>, id: nat) {
    exists i :: 0 <= i < |waiters| && waiters[i].id == id
  }

  /** Records that no sync covers yet have a worker on its way to them. */
  predicate WorkerOk(g: Group) {
    && g.synced <= g.appended
    && (g.pendingData > 0 <==> g.pendingSync != [])
    && (g.syncing ==> g.syncRunning && g.covering + g.pendingData == g.appended && g.synced <= g.covering)
    && (!g.syncing ==> g.batch == [] && g.inflight == [])
    && (g.syncRunning ==> g.syncing || g.pendingData > 0)
    && (!g.syncRunning ==> g.pendingData == 0)
    && (!g.syncing && !g.broken ==> g.appended <= g.synced + g.pendingData)
  }

  /** Every flush waits or is answered, and a nil answer means that its records are on stable storage. */
  ghost predicate AnswersOk(g: Group) {
    && WaitersOk(g.batch, g.asked, g.covering) && WaitersOk(g.inflight, g.asked, g.covering)
    && WaitersOk(g.pendingSync, g.asked, g.appended)
    && (forall id :: 0 <= id < |g.asked| ==>
          id in g.results || Waits(g.batch, id) || Waits(g.inflight, id) || Waits(g.pendingSync, id))
    && (forall id :: id in g.results ==> id < |g.asked| && (g.results[id] ==> g.asked[id] <= g.synced))
  }

  ghost predicate GroupOk(g: Group) { WorkerOk(g) && AnswersOk(g) }

  lemma WaitsAppend(waiters: seq<Waiter>, w: Waiter, id: nat)
    ensures Waits(waiters + [w], id) <==> Waits(waiters, id) || id == w.id
  {
    var all := waiters + [w];
    assert all[|waiters|] == w;
    if Waits(waiters, id) {
      var i :| 0 <= i < |waiters| && waiters[i].id == id;
      assert all[i].id == id;
    }
  }

  lemma WaitsConcat(xs: seq<Waiter>, ys: seq<Waiter>, id: nat)
    ensures Waits(xs + ys, id) <==> Waits(xs, id) || Waits(ys, id)
  {
    var all := xs + ys;
    if Waits(xs, id) {
      var i :| 0 <= i < |xs| && xs[i].id == id;
      assert all[i].id == id;
    }
    if Waits(ys, id) {
      var i :| 0 <= i < |ys| && ys[i].id == id;
      assert all[|xs| + i].id == id;
    }
    if Waits(all, id) {
      var i :| 0 <= i < |all| && all[i].id == id;
      assert if i < |xs| then xs[i].id == id else ys[i - |xs|].id == id;
    }
  }

  lemma {:induction false} AnswerAt(results: map<nat, bool>, waiters: seq<Waiter>, ok: bool, id: nat)
    ensures id in Answer(results, waiters, ok) <==> id in results || Waits(waiters, id)
    ensures id in Answer(results, waiters, ok) ==>
              Answer(results, waiters, ok)[id] == if Waits(waiters, id) then ok else results[id]
  {
    if waiters != [] {
      var front, last := waiters[..|waiters| - 1], waiters[|waiters| - 1];
      AnswerAt(results, front, ok, id);
      assert front + [last] == waiters;
      WaitsAppend(front, last, id);
    }
  }

  lemma AnswerOne(results: map<nat, bool>, w: Waiter, ok: bool)
    ensures Answer(results, [w], ok) == results[w.id := ok]
  {
    assert [w][..0] == [];
  }

  /** A flush that is answered at once. */
  lemma AnsweredKeeps(g: Group, ok: bool)
    requires GroupOk(g) && (ok ==> g.appended <= g.synced)
    ensures GroupOk(Ask(g).(results := Answer(g.results, [Here(g)], ok)))
  {
    AnswerOne(g.results, Here(g), ok);
  }

  /** A flush that joins the sync in progress or the next one. */
  lemma JoinedKeeps(g: Group)
    requires GroupOk(g) && g.syncRunning
    ensures g.pendingData == 0 ==> GroupOk(Ask(g).(inflight := g.inflight + [Here(g)]))
    ensures g.pendingData > 0 ==> GroupOk(Ask(g).(pendingSync := g.pendingSync + [Here(g)]))
  {
    forall id ensures Waits(g.inflight + [Here(g)], id) <==> Waits(g.inflight, id) || id == |g.asked| {
      WaitsAppend(g.inflight, Here(g), id);
    }
    forall id ensures Waits(g.pendingSync + [Here(g)], id) <==> Waits(g.pendingSync, id) || id == |g.asked| {
      WaitsAppend(g.pendingSync, Here(g), id);
    }
  }

  /** A flush without records of its own is covered by whatever covers the records before it. */
  lemma EnqueueEmptyKeeps(g: Group)
    requires GroupOk(g)
    ensures GroupOk(EnqueueEmpty(g))
  {
    if g.broken || g.closed {
      AnsweredKeeps(g, false);
    } else if g.syncRunning {
      JoinedKeeps(g);
    } else {
      AnsweredKeeps(g, true);
    }
  }

  lemma EnqueueRecordKeeps(g: Group, written: bool)
    requires GroupOk(g)
    ensures GroupOk(EnqueueRecord(g, written))
  {
    var t := EnqueueRecord(g, written);
    AnswerOne(g.results, Here(g), false);
    forall id | 0 <= id < |t.asked|
      ensures id in t.results || Waits(t.batch, id) || Waits(t.inflight, id) || Waits(t.pendingSync, id)
    {
      WaitsAppend(g.pendingSync, Waiter(|g.asked|, t.appended), id);
    }
  }

  lemma BatchTakenKeeps(g: Group)
    requires GroupOk(g) && g.syncRunning && !g.syncing
    ensures GroupOk(BatchTaken(g))
  {
    assert g.pendingSync != [];
    forall id | 0 <= id < |g.asked| ensures id in g.results || Waits(g.pendingSync, id) {
      assert !Waits([], id);
    }
  }

  lemma BatchSyncedKeeps(g: Group, ok: bool)
    requires GroupOk(g) && g.syncing
    ensures GroupOk(BatchSynced(g, ok))
  {
    var t := BatchSynced(g, ok);
    var waiters := if ok then g.batch + g.inflight else g.batch + g.inflight + g.pendingSync;
    forall id: nat
      ensures id < |t.asked| ==> id in t.results || Waits(t.pendingSync, id)
      ensures id in t.results ==> id < |t.asked| && (t.results[id] ==> t.asked[id] <= t.synced)
    {
      AnswerAt(g.results, waiters, ok, id);
      WaitsConcat(g.batch, g.inflight, id);
      WaitsConcat(g.batch + g.inflight, g.pendingSync, id);
    }
  }

  lemma RewrittenKeeps(g: Group)
    requires GroupOk(g) && !g.syncing
    ensures GroupOk(Rewritten(g))
  {
  }

  /**
   Group commit: every nil answer covers all records appended before its flush,
   and when the worker stops nobody is left waiting.
   */
  lemma NilMeansDurable(g: Group, id: nat)
    requires GroupOk(g) && id < |g.asked|
    ensures id in g.results && g.results[id] ==> g.asked[id] <= g.synced
    ensures !g.syncRunning ==> id in g.results
  {
    if !g.syncRunning {
      assert g.batch == [] && g.inflight == [] && g.pendingSync == [];
      assert !Waits([], id);
    }
  }

  // ----- Any interleaving of callers and worker -----

  datatype Event = FlushNothing | FlushGeneration(written: bool) | WorkerTakes | SyncEnds(ok: bool) | Compacts | Closes

  /** The sync lock keeps compaction and closing apart from a sync in progress. */
  predicate CanHappen(g: Group, e: Event) {
    match e
    case WorkerTakes => g.syncRunning && !g.syncing
    case SyncEnds(_) => g.syncing
    case Compacts => !g.syncing
    case Closes => !g.syncing
    case _ => true
  }

  function Happen(g: Group, e: Event): Group {
    match e
    case FlushNothing => EnqueueEmpty(g)
    case FlushGeneration(written) => EnqueueRecord(g, written)
    case WorkerTakes => BatchTaken(g)
    case SyncEnds(ok) => BatchSynced(g, ok)
    case Compacts => Rewritten(g)
    case Closes => g.(closed := true)
  }

  const EmptyRoom := Group(0, 0, 0, false, false, false, false, [], 0, [], [], [], map[])

  function AfterAll(events: seq<Event>): Group {
    if events == [] then EmptyRoom else Happen(AfterAll(events[..|events| - 1]), events[|events| - 1])
  }

  predicate Possible(events: seq<Event>) {
    events == [] ||
    (Possible(events[..|events| - 1]) && CanHappen(AfterAll(events[..|events| - 1]), events[|events| - 1]))
  }

  lemma EventKeeps(g: Group, e: Event)
    requires GroupOk(g) && CanHappen(g, e)
    ensures GroupOk(Happen(g, e))
  {
    match e
    case FlushNothing => EnqueueEmptyKeeps(g);
    case FlushGeneration(written) => EnqueueRecordKeeps(g, written);
    case WorkerTakes => BatchTakenKeeps(g);
    case SyncEnds(ok) => BatchSyncedKeeps(g, ok);
    case Compacts => RewrittenKeeps(g);
    case Closes =>
  }

  /**
   Group commit over every interleaving: a flush that was answered nil is
   covered by a completed sync, records included that were appended before it,
   and once the worker has stopped every flush was answered.
   */
  lemma {:induction false} GroupCommit(events: seq<Event>)
    requires Possible(events)
    ensures var g := AfterAll(events);
            && GroupOk(g)
            && (forall id :: id in g.results && g.results[id] ==> id < |g.asked| && g.asked[id] <= g.synced)
            && (!g.syncRunning ==> forall id :: 0 <= id < |g.asked| ==> id in g.results)
  {
    if events != [] {
      GroupCommit(events[..|events| - 1]);
      EventKeeps(AfterAll(events[..|events| - 1]), events[|events| - 1]);
    }
    var g := AfterAll(events);
    forall id | 0 <= id < |g.asked| && !g.syncRunning ensures id in g.results {
      NilMeansDurable(g, id);
    }
  }

  // ----- Records -----

  /** A record is a header of 60 bytes and, for each block, its number and its 4096 bytes. */
  function RecordSize(gen: Sealed): nat { 60 + |gen.blocks| * 4104 }

  function Sizes(gens: seq<Sealed>): nat {
    if gens == [] then 0 else Sizes(gens[..|gens| - 1]) + RecordSize(gens[|gens| - 1])
  }

  lemma SizesAppend(gens: seq<Sealed>, gen: Sealed)
    ensures Sizes(gens + [gen]) == Sizes(gens) + RecordSize(gen)
  {
    assert (gens + [gen])[..|gens|] == gens;
  }

  lemma {:induction false} SizesConcat(xs: seq<Sealed>, ys: seq<Sealed>)
    ensures Sizes(xs + ys) == Sizes(xs) + Sizes(ys)
  {
    if ys == [] {
      assert xs + ys == xs;
    } else {
      assert (xs + ys)[..|xs + ys| - 1] == xs + ys[..|ys| - 1];
      SizesConcat(xs, ys[..|ys| - 1]);
    }
  }

  predicate Before(gens: seq<Sealed>, i: int, j: int)
    requires 0 <= i < |gens| && 0 <= j < |gens|
  {
    gens[i].seqno < gens[j].seqno
  }

  /** Sequence numbers grow. */
  ghost predicate Ascending(gens: seq<Sealed>) {
    forall i, j {:trigger Before(gens, i, j)} :: 0 <= i < j < |gens| ==> Before(gens, i, j)
  }

  ghost predicate AllBelow(gens: seq<Sealed>, sequence: nat) {
    forall i :: 0 <= i < |gens| ==> 0 < gens[i].seqno < sequence
  }

  /** The entries up to a sequence number, and those after it. */
  function Older(entries: seq<Sealed>, sequence: nat): seq<Sealed> {
    if entries == [] then []
    else
      var last, rest := entries[|entries| - 1], Older(entries[..|entries| - 1], sequence);
      if last.seqno > sequence then rest else rest + [last]
  }

  function Newer(entries: seq<Sealed>, sequence: nat): seq<Sealed> {
    if entries == [] then []
    else
      var last, rest := entries[|entries| - 1], Newer(entries[..|entries| - 1], sequence);
      if last.seqno > sequence then rest + [last] else rest
  }

  lemma AscendingFront(gens: seq<Sealed>)
    requires Ascending(gens) && gens != []
    ensures Ascending(gens[..|gens| - 1])
    ensures forall i :: 0 <= i < |gens| - 1 ==> gens[i].seqno < gens[|gens| - 1].seqno
  {
    var front := gens[..|gens| - 1];
    forall i, j | 0 <= i < j < |front| ensures Before(front, i, j) {
      assert Before(gens, i, j);
    }
    forall i | 0 <= i < |gens| - 1 ensures gens[i].seqno < gens[|gens| - 1].seqno {
      assert Before(gens, i, |gens| - 1);
    }
  }

  lemma AscendingAppend(gens: seq<Sealed>, gen: Sealed)
    requires Ascending(gens) && AllBelow(gens, gen.seqno)
    ensures Ascending(gens + [gen])
  {
    var all := gens + [gen];
    forall i, j | 0 <= i < j < |all| ensures Before(all, i, j) {
      if j < |gens| { assert Before(gens, i, j); }
    }
  }

  lemma AscendingTail(xs: seq<Sealed>, ys: seq<Sealed>)
    requires Ascending(xs + ys)
    ensures Ascending(ys)
  {
    forall i, j | 0 <= i < j < |ys| ensures Before(ys, i, j) {
      assert Before(xs + ys, |xs| + i, |xs| + j);
    }
  }

  lemma {:induction false} AllOlder(gens: seq<Sealed>, sequence: nat)
    requires forall i :: 0 <= i < |gens| ==> gens[i].seqno <= sequence
    ensures Newer(gens, sequence) == [] && Older(gens, sequence) == gens
  {
    if gens != [] {
      AllOlder(gens[..|gens| - 1], sequence);
      assert gens[..|gens| - 1] + [gens[|gens| - 1]] == gens;
    }
  }

  /** In an ascending journal the acknowledged entries are the first ones. */
  lemma {:induction false} AcknowledgeSplits(gens: seq<Sealed>, sequence: nat)
    requires Ascending(gens)
    ensures Older(gens, sequence) + Newer(gens, sequence) == gens
  {
    if gens != [] {
      var front, last := gens[..|gens| - 1], gens[|gens| - 1];
      AscendingFront(gens);
      if last.seqno > sequence {
        AcknowledgeSplits(front, sequence);
        assert Older(front, sequence) + (Newer(front, sequence) + [last]) == front + [last] == gens;
      } else {
        AllOlder(front, sequence);
        assert front + [last] + [] == gens;
      }
    }
  }

  lemma {:induction false} NewerIsTail(gens: seq<Sealed>, n: nat, sequence: nat)
    requires n <= |gens|
    requires forall i :: 0 <= i < n ==> gens[i].seqno <= sequence
    requires forall i :: n <= i < |gens| ==> gens[i].seqno > sequence
    ensures Newer(gens, sequence) == gens[n..]
  {
    if n == |gens| {
      AllOlder(gens, sequence);
    } else {
      var front, last := gens[..|gens| - 1], gens[|gens| - 1];
      NewerIsTail(front, n, sequence);
      assert front[n..] + [last] == gens[n..];
    }
  }

  /** Acknowledging the last published entry drops exactly the published ones. */
  lemma AcknowledgeDropsPublished(gens: seq<Sealed>, n: nat)
    requires Ascending(gens) && 0 < n <= |gens|
    ensures Newer(gens, gens[n - 1].seqno) == gens[n..]
  {
    forall i | 0 <= i < n - 1 ensures gens[i].seqno < gens[n - 1].seqno {
      assert Before(gens, i, n - 1);
    }
    forall i | n <= i < |gens| ensures gens[n - 1].seqno < gens[i].seqno {
      assert Before(gens, n - 1, i);
    }
    NewerIsTail(gens, n, gens[n - 1].seqno);
  }

  /**
   The records of the journal. `entries` wait for remote publication; the file
   holds the acknowledged but not yet reclaimed records in front of them.
   */
  datatype Book = Book(
    reclaimable: seq<Sealed>, entries: seq<Sealed>, nextSeq: nat, headerBytes: nat, diskBytes: nat, reclaimBytes: nat)

  /** The records of the file, oldest first. */
  function Records(k: Book): seq<Sealed> { k.reclaimable + k.entries }

  /** Sequence numbers grow, and every byte that could be reclaimed is accounted for. */
  ghost predicate BookOk(k: Book) {
    && k.nextSeq > 0 && Ascending(Records(k)) && AllBelow(Records(k), k.nextSeq)
    && k.diskBytes == k.headerBytes + Sizes(Records(k))
    && k.reclaimBytes == Sizes(k.reclaimable)
  }

  function NextSeq(records: seq<Sealed>): nat { if records == [] then 1 else records[|records| - 1].seqno + 1 }

  /** A journal that was just created, opened or rewritten. */
  function Opened(records: seq<Sealed>, nextSeq: nat, headerBytes: nat): Book {
    Book([], records, nextSeq, headerBytes, headerBytes + Sizes(records), 0)
  }

  function Appended(k: Book, blocks: Blocks): Book {
    var gen := Sealed(k.nextSeq, blocks);
    k.(entries := k.entries + [gen], nextSeq := k.nextSeq + 1, diskBytes := k.diskBytes + RecordSize(gen))
  }

  function Dropped(k: Book, sequence: nat): Book {
    var older := Older(k.entries, sequence);
    k.(entries := Newer(k.entries, sequence), reclaimable := k.reclaimable + older,
       reclaimBytes := k.reclaimBytes + Sizes(older))
  }

  predicate ShouldCompact(k: Book) { COMPACT_BYTES <= k.reclaimBytes && k.diskBytes <= k.reclaimBytes * 2 }

  /** `Acknowledge`: drop the entries and rewrite the file once enough of it could be reclaimed. */
  function Acknowledged(k: Book, sequence: nat, headerBytes: nat): Book {
    var d := Dropped(k, sequence);
    if ShouldCompact(d) then Opened(d.entries, d.nextSeq, headerBytes) else d
  }

  lemma OpenedOk(records: seq<Sealed>, nextSeq: nat, headerBytes: nat)
    requires nextSeq > 0 && Ascending(records) && AllBelow(records, nextSeq)
    ensures BookOk(Opened(records, nextSeq, headerBytes)) && Records(Opened(records, nextSeq, headerBytes)) == records
  {
    assert [] + records == records;
  }

  lemma AppendedOk(k: Book, blocks: Blocks)
    requires BookOk(k)
    ensures BookOk(Appended(k, blocks))
    ensures Records(Appended(k, blocks)) == Records(k) + [Sealed(k.nextSeq, blocks)]
  {
    var gen := Sealed(k.nextSeq, blocks);
    Reassociate(k.reclaimable, k.entries, [gen]);
    AscendingAppend(Records(k), gen);
    SizesAppend(Records(k), gen);
    BelowAppend(Records(k), gen, k.nextSeq);
  }

  lemma BelowAppend(gens: seq<Sealed>, gen: Sealed, sequence: nat)
    requires AllBelow(gens, sequence) && gen.seqno == sequence > 0
    ensures AllBelow(gens + [gen], sequence + 1)
  {
    forall i | 0 <= i < |gens| + 1 ensures 0 < (gens + [gen])[i].seqno < sequence + 1 {
      if i < |gens| { assert gens[i].seqno < sequence; }
    }
  }

  /** Dropping moves the boundary between reclaimable records and entries; the file stays as it is. */
  lemma DroppedOk(k: Book, sequence: nat)
    requires BookOk(k)
    ensures BookOk(Dropped(k, sequence)) && Records(Dropped(k, sequence)) == Records(k)
  {
    var older := Older(k.entries, sequence);
    AscendingTail(k.reclaimable, k.entries);
    AcknowledgeSplits(k.entries, sequence);
    SizesConcat(k.reclaimable, older);
    Reassociate(k.reclaimable, older, Newer(k.entries, sequence));
  }

  lemma Reassociate(xs: seq<Sealed>, ys: seq<Sealed>, zs: seq<Sealed>)
    ensures (xs + ys) + zs == xs + (ys + zs)
  {
  }

  lemma TailBelow(xs: seq<Sealed>, ys: seq<Sealed>, sequence: nat)
    requires AllBelow(xs + ys, sequence)
    ensures AllBelow(ys, sequence)
  {
    assert forall i :: 0 <= i < |ys| ==> ys[i] == (xs + ys)[|xs| + i];
  }

  /**
   Acknowledging keeps the records in order and in account: the file holds what
   it held, or exactly the entries that remain.
   */
  lemma AcknowledgedOk(k: Book, sequence: nat, headerBytes: nat)
    requires BookOk(k)
    ensures var a := Acknowledged(k, sequence, headerBytes);
            && BookOk(a) && a.entries == Newer(k.entries, sequence)
            && (Records(a) == Records(k) || Records(a) == a.entries)
            && (a.reclaimBytes < COMPACT_BYTES || a.reclaimBytes * 2 < a.diskBytes)
  {
    var d := Dropped(k, sequence);
    DroppedOk(k, sequence);
    if ShouldCompact(d) {
      AscendingTail(d.reclaimable, d.entries);
      TailBelow(d.reclaimable, d.entries, d.nextSeq);
      OpenedOk(d.entries, d.nextSeq, headerBytes);
    }
  }

  /** The loop of `Acknowledge`: what stays, and how many bytes the rest takes up in the file. */
  method Partition(entries: seq<Sealed>, sequence: nat) returns (remaining: seq<Sealed>, reclaimed: nat)
    ensures remaining == Newer(entries, sequence) && reclaimed == Sizes(Older(entries, sequence))
  {
    remaining, reclaimed := [], 0;
    for i := 0 to |entries|
      invariant remaining == Newer(entries[..i], sequence)
      invariant reclaimed == Sizes(Older(entries[..i], sequence))
    {
      assert entries[..i + 1][..i] == entries[..i];
      if entries[i].seqno > sequence {
        remaining := remaining + [entries[i]];
      } else {
        SizesAppend(Older(entries[..i], sequence), entries[i]);
        reclaimed := reclaimed + RecordSize(entries[i]);
      }
    }
    assert entries[..|entries|] == entries;
  }

  /**
   Where `rewriteLocked` fails: before the new file takes the old one's place, before it is
   measured, or when the directory is synced.
   */
  datatype Fault = Never | BeforeRename | BeforeStat | AtDirectory

  /** Whatever happens to the waiters in one step, no answer is taken back. */
  ghost predicate KeepsAnswers(before: Group, after: Group) {
    && |before.asked| <= |after.asked| && after.asked[..|before.asked|] == before.asked
    && (forall id :: id in before.results ==> id in after.results)
  }

  class Journal {
    var room: Group
    var entries: seq<Sealed>
    var nextSeq: nat
    var diskBytes: nat
    var reclaimBytes: nat
    ghost var reclaimable: seq<Sealed>
    ghost var headerBytes: nat

    ghost function Shelf(): Book
      reads this
    {
      Book(reclaimable, entries, nextSeq, headerBytes, diskBytes, reclaimBytes)
    }

    /**
     Every flush waits or was answered truthfully, and the records are in order
     and in account. A journal whose file failed has lost count of its bytes.
     */
    ghost predicate Valid()
      reads this
    {
      GroupOk(room) && (room.broken || BookOk(Shelf()))
    }

    /** `CreateJournal` (no records) and `OpenJournal` (the records that were read back). */
    constructor (records: seq<Sealed>, headerBytes: nat)
      requires Ascending(records) && (records != [] ==> records[0].seqno > 0)
      ensures Valid() && room == EmptyRoom
      ensures Records(Shelf()) == entries == records && AllBelow(records, nextSeq)
      ensures diskBytes == headerBytes + Sizes(records) && reclaimBytes == 0
    {
      entries, reclaimable, this.headerBytes := records, [], headerBytes;
      diskBytes, reclaimBytes := headerBytes + Sizes(records), 0;
      nextSeq := if |records| == 0 then 1 else records[|records| - 1].seqno + 1;
      room := EmptyRoom;
      new;
      NextIsAbove(records);
      OpenedOk(records, nextSeq, headerBytes);
    }

    /**
     `Enqueue` of a non-empty generation; `written` says whether the append
     succeeded. The record stands behind all others and the flush waits for a sync
     that covers it, with a worker on its way; or the flush is told of the error.
     */
    method EnqueueGeneration(blocks: Blocks, written: bool) returns (id: nat)
      requires Valid() && blocks != map[]
      modifies this
      ensures Valid() && KeepsAnswers(old(room), room) && id == |old(room).asked| && |room.asked| == id + 1
      ensures room.synced == old(room).synced
      ensures if written && !old(room).broken && !old(room).closed then
                && Records(Shelf()) == old(Records(Shelf())) + [Sealed(old(nextSeq), blocks)]
                && entries == old(entries) + [Sealed(old(nextSeq), blocks)] && nextSeq == old(nextSeq) + 1
                && room.asked[id] == room.appended == old(room).appended + 1
                && Waits(room.pendingSync, id) && room.syncRunning
              else
                && Shelf() == old(Shelf()) && room.appended == old(room).appended
                && id in room.results && !room.results[id]
                && (room.broken <==> old(room).broken || (!written && !old(room).closed))
      ensures room == EnqueueRecord(old(room), written)
    {
      EnqueueRecordKeeps(room, written);
      RecordWaits(room, written);
      id := |room.asked|;
      if !room.broken && !room.closed && written { Append(blocks); }
      Queue(written);
    }

    /** The waiter is answered with an error or joins the queue behind its record, and the worker is running then. */
    method Queue(written: bool)
      modifies this`room
      ensures room == EnqueueRecord(old(room), written)
    {
      if room.broken || room.closed {
        room := Ask(room).(results := Answer(room.results, [Here(room)], false));
        return;
      }
      if !written {
        room := Ask(room).(broken := true, results := Answer(room.results, [Here(room)], false));
        return;
      }
      room := room.(appended := room.appended + 1);
      var waiter := Here(room);
      room := Ask(room).(
        pendingSync := room.pendingSync + [waiter], pendingData := room.pendingData + 1, syncRunning := true);
    }

    /** The record joins the file and the entries. */
    method Append(blocks: Blocks)
      requires BookOk(Shelf())
      modifies this`entries, this`nextSeq, this`diskBytes
      ensures BookOk(Shelf()) && Records(Shelf()) == old(Records(Shelf())) + [Sealed(old(nextSeq), blocks)]
      ensures entries == old(entries) + [Sealed(old(nextSeq), blocks)] && nextSeq == old(nextSeq) + 1
    {
      AppendedOk(Shelf(), blocks);
      var gen := Sealed(nextSeq, blocks);
      nextSeq := nextSeq + 1;
      entries := entries + [gen];
      diskBytes := diskBytes + RecordSize(gen);
    }

    /**
     `Enqueue` of an empty generation. It is told nil at once only if every record
     is on stable storage already; it waits only while a worker is running.
     */
    method EnqueueNothing() returns (id: nat)
      requires Valid()
      modifies this`room
      ensures Valid() && KeepsAnswers(old(room), room) && id == |old(room).asked| && |room.asked| == id + 1
      ensures room.asked[id] == room.appended == old(room).appended && room.synced == old(room).synced
      ensures id in room.results && room.results[id] ==> room.synced == room.appended
      ensures id in room.results && !room.results[id] <==> room.broken || room.closed
      ensures id !in room.results ==> room.syncRunning && (Waits(room.inflight, id) || Waits(room.pendingSync, id))
      ensures room == EnqueueEmpty(old(room))
    {
      EnqueueEmptyKeeps(room);
      id := |room.asked|;
      var waiter := Here(room);
      WaitsAppend(room.inflight, waiter, id);
      WaitsAppend(room.pendingSync, waiter, id);
      AnswerOne(room.results, waiter, !room.broken && !room.closed);
      if !room.broken && !room.closed && room.syncRunning {
        if room.pendingData == 0 {
          room := Ask(room).(inflight := room.inflight + [waiter]);
        } else {
          room := Ask(room).(pendingSync := room.pendingSync + [waiter]);
        }
      } else {
        room := Ask(room).(results := Answer(room.results, [waiter], !room.broken && !room.closed));
      }
    }

    /**
     The first critical section of `syncPending`: a running worker always finds
     somebody waiting, takes them all and starts a sync that covers every record.
     */
    method TakeBatch()
      requires Valid() && room.syncRunning && !room.syncing
      modifies this`room
      ensures Valid() && room.syncing && room.covering == room.appended == old(room).appended
      ensures room.batch == old(room).pendingSync != [] && room.pendingSync == []
      ensures room.asked == old(room).asked && room.results == old(room).results && room.synced == old(room).synced
      ensures room == BatchTaken(old(room))
    {
      BatchTakenKeeps(room);
      room := if |room.pendingSync| == 0 then room.(syncRunning := false)
              else room.(batch := room.pendingSync, covering := room.appended, syncing := true, pendingSync := [],
                  pendingData := 0);
    }

    /**
     The second critical section of `syncPending`; `ok` is the outcome of the
     sync. Whoever is told nil has every record appended before its flush on
     stable storage; after a failure everybody is told, and the worker stops.
     */
    method SyncReturned(ok: bool)
      requires Valid() && room.syncing
      modifies this`room
      ensures Valid() && KeepsAnswers(old(room), room) && !room.syncing && room.asked == old(room).asked
      ensures forall id: nat :: Waits(old(room).batch, id) || Waits(old(room).inflight, id) ==>
              id in room.results && room.results[id] == ok
      ensures forall id: nat :: id in room.results && room.results[id] ==>
              id < |room.asked| && room.asked[id] <= room.synced
      ensures ok ==> room.synced == old(room).covering && room.pendingSync == old(room).pendingSync
      ensures ok ==> room.broken == old(room).broken
      ensures !ok ==> room.broken && !room.syncRunning && room.synced == old(room).synced
      ensures !room.syncRunning ==> forall id: nat :: id < |room.asked| ==> id in room.results
      ensures room == BatchSynced(old(room), ok)
    {
      BatchSyncedKeeps(room, ok);
      SyncAnswers(room, ok);
      var waiters := room.batch + room.inflight;
      room := room.(batch := [], inflight := [], syncing := false);
      if ok {
        room := room.(synced := room.covering, syncRunning := |room.pendingSync| != 0);
      } else {
        waiters := waiters + room.pendingSync;
        room := room.(broken := true, pendingSync := [], pendingData := 0, syncRunning := false);
      }
      room := room.(results := Answer(room.results, waiters, ok));
    }

    /** `Close`: from now on every flush is told of an error; those that wait are still answered. */
    method Close()
      requires Valid() && !room.syncing
      modifies this`room
      ensures Valid() && room == old(room).(closed := true)
    {
      room := room.(closed := true);
    }

    /**
     `rewriteLocked`: the file is replaced by a header and the entries, and synced.
     Wherever it fails, no entry is lost and nothing that was durable stops being so.
     */
    method Rewrite(newHeaderBytes: nat, fault: Fault) returns (ok: bool)
      requires Valid() && !room.syncing && !room.broken
      modifies this`diskBytes, this`reclaimBytes, this`reclaimable, this`headerBytes, this`room
      ensures ok <==> fault.Never?
      ensures ok ==> Valid() && Records(Shelf()) == entries && Shelf() == Opened(entries, nextSeq, newHeaderBytes)
      ensures ok ==> room.synced == room.appended && room == Rewritten(old(room))
      ensures !ok ==> room == old(room) && (Records(Shelf()) == old(Records(Shelf())) || Records(Shelf()) == entries)
      ensures fault.BeforeRename? ==> Shelf() == old(Shelf())
    {
      if fault.BeforeRename? { return false; }
      EntriesOk(Shelf());
      Replace(newHeaderBytes);
      if fault.BeforeStat? { return false; }
      Measure(newHeaderBytes);
      if fault.AtDirectory? { return false; }
      RewrittenKeeps(room);
      room := room.(synced := room.appended);
      return true;
    }

    /** The new file takes the place of the old one. */
    method Replace(newHeaderBytes: nat)
      modifies this`reclaimable, this`headerBytes
      ensures Shelf() == old(Shelf()).(reclaimable := [], headerBytes := newHeaderBytes)
      ensures Records(Shelf()) == entries
    {
      reclaimable, headerBytes := [], newHeaderBytes;
      assert reclaimable + entries == entries;
    }

    /** Its size is read back. */
    method Measure(size: nat)
      requires headerBytes == size && reclaimable == [] && nextSeq > 0 && Ascending(entries)
      requires AllBelow(entries, nextSeq)
      modifies this`diskBytes, this`reclaimBytes
      ensures Shelf() == Opened(entries, nextSeq, headerBytes) && BookOk(Shelf()) && Records(Shelf()) == entries
    {
      OpenedOk(entries, nextSeq, headerBytes);
      diskBytes := size + Sizes(entries);
      reclaimBytes := 0;
    }

    /**
     `Acknowledge`: the entries up to a sequence number are dropped and, once
     enough of the file could be reclaimed, it is rewritten without them. A
     rewrite that fails breaks the journal.
     */
    method Acknowledge(sequence: nat, newHeaderBytes: nat, fault: Fault) returns (ok: bool)
      requires Valid() && !room.syncing
      modifies this`entries, this`diskBytes, this`reclaimBytes, this`reclaimable, this`headerBytes, this`room
      ensures Valid() && KeepsAnswers(old(room), room) && old(room).synced <= room.synced
      ensures var usable := !old(room).closed && !old(room).broken;
              var compacts := sequence > 0 && usable && ShouldCompact(Dropped(old(Shelf()), sequence));
              && (ok <==> sequence == 0 || (usable && (compacts ==> fault.Never?)))
              && entries == (if sequence > 0 && usable then Newer(old(entries), sequence) else old(entries))
              && (ok ==> Records(Shelf()) == if compacts then entries else old(Records(Shelf())))
              && (ok && sequence > 0 ==> reclaimBytes < COMPACT_BYTES || reclaimBytes * 2 < diskBytes)
              && (ok ==> room == if compacts then Rewritten(old(room)) else old(room))
              && (!ok ==> room == if compacts then old(room).(broken := true) else old(room))
    {
      if sequence == 0 {
        return true;
      }
      if room.closed || room.broken { return false; }
      Drop(sequence);
      if COMPACT_BYTES <= reclaimBytes && diskBytes <= reclaimBytes * 2 {
        ok := Rewrite(newHeaderBytes, fault);
        if !ok { room := room.(broken := true); }
        return;
      }
      return true;
    }

    /** The entries up to a sequence number become reclaimable; the file stays as it is. */
    method Drop(sequence: nat)
      requires BookOk(Shelf())
      modifies this`entries, this`reclaimable, this`reclaimBytes
      ensures BookOk(Shelf()) && Shelf() == Dropped(old(Shelf()), sequence)
      ensures Records(Shelf()) == old(Records(Shelf())) && entries == Newer(old(entries), sequence)
    {
      DroppedOk(Shelf(), sequence);
      var remaining, reclaimed := Partition(entries, sequence);
      reclaimable := reclaimable + Older(entries, sequence);
      entries := remaining;
      reclaimBytes := reclaimBytes + reclaimed;
    }

    /** `Rebase`: the file is rewritten under another header; a journal that cannot be is given up by its mount. */
    method Rebase(newHeaderBytes: nat, fault: Fault) returns (ok: bool)
      requires Valid() && !room.syncing
      modifies this`diskBytes, this`reclaimBytes, this`reclaimable, this`headerBytes, this`room
      ensures ok <==> !old(room).closed && !old(room).broken && fault.Never?
      ensures ok ==> Valid() && Records(Shelf()) == entries && room.synced == room.appended
      ensures KeepsAnswers(old(room), room) && old(room).synced <= room.synced
    {
      if room.closed || room.broken { return false; }
      ok := Rewrite(newHeaderBytes, fault);
    }
  }

  lemma NextIsAbove(records: seq<Sealed>)
    requires Ascending(records) && (records != [] ==> records[0].seqno > 0)
    ensures NextSeq(records) > 0 && AllBelow(records, NextSeq(records))
  {
    if records != [] { AscendingFront(records); }
    forall i | 0 <= i < |records| ensures records[i].seqno > 0 {
      if i > 0 { assert Before(records, 0, i); }
    }
  }

  lemma EntriesOk(k: Book)
    requires BookOk(k)
    ensures k.nextSeq > 0 && Ascending(k.entries) && AllBelow(k.entries, k.nextSeq)
  {
    AscendingTail(k.reclaimable, k.entries);
    TailBelow(k.reclaimable, k.entries, k.nextSeq);
  }

  /** A flush with a record is told of an error at once, or waits for a worker to cover its record. */
  lemma RecordWaits(g: Group, written: bool)
    ensures var t, id := EnqueueRecord(g, written), |g.asked|;
            && KeepsAnswers(g, t) && |t.asked| == id + 1 && t.synced == g.synced
            && if written && !g.broken && !g.closed then
                 t.asked[id] == t.appended == g.appended + 1 && Waits(t.pendingSync, id) && t.syncRunning
               else
                 && t.appended == g.appended && id in t.results && !t.results[id]
                 && (t.broken <==> g.broken || (!written && !g.closed))
  {
    var t, id := EnqueueRecord(g, written), |g.asked|;
    AnswerOne(g.results, Here(g), false);
    WaitsAppend(g.pendingSync, Waiter(id, t.appended), id);
  }

  /** Who is told what when a sync returns. */
  lemma SyncAnswers(g: Group, ok: bool)
    requires GroupOk(g) && g.syncing
    ensures var t := BatchSynced(g, ok);
            && (forall id: nat :: Waits(g.batch, id) || Waits(g.inflight, id) ==>
                  id in t.results && t.results[id] == ok)
            && (forall id: nat :: id in g.results ==> id in t.results)
            && (forall id: nat :: id in t.results && t.results[id] ==> id < |t.asked| && t.asked[id] <= t.synced)
            && (!t.syncRunning ==> forall id: nat :: id < |t.asked| ==> id in t.results)
  {
    BatchSyncedKeeps(g, ok);
    var t := BatchSynced(g, ok);
    var waiters := if ok then g.batch + g.inflight else g.batch + g.inflight + g.pendingSync;
    forall id: nat
      ensures Waits(g.batch, id) || Waits(g.inflight, id) ==> id in t.results && t.results[id] == ok
      ensures id in g.results ==> id in t.results
      ensures !t.syncRunning && id < |t.asked| ==> id in t.results
    {
      AnswerAt(g.results, waiters, ok, id);
      WaitsConcat(g.batch, g.inflight, id);
      WaitsConcat(g.batch + g.inflight, g.pendingSync, id);
      if id < |t.asked| { NilMeansDurable(t, id); }
    }
  }
}
