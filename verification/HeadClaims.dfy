/**
 The append head (internal/replica/head.go: `claim`, `advance`, `confirm`,
 `claimWins`, `baseUnchanged`, `ownerStillCurrent`, `claimPresent`,
 `liveEntries`, `deadClaim`, `pruneBehind`).

 Without conditional writes, an owner is elected by writing keys and listing
 them. The store lists what was written and deletes reliably; nothing is assumed
 about time: a claim may be reaped at any moment, prunes run late, a put that
 was reported as failed may still land later.
 */
module HeadClaims {
  import opened Options

  /** Tokens in the order of their strings. */
  type Token = nat

  /** A key under the heads prefix; sequence number 0 is a claim. */
  datatype Version = Version(epoch: nat, token: Token, seqno: nat)

  predicate SameOwner(v: Version, w: Version) { v.epoch == w.epoch && v.token == w.token }

  /** The order of the keys: newest epoch first, then by token, newest version first. */
  predicate ListedBefore(v: Version, w: Version) {
    v.epoch > w.epoch || (v.epoch == w.epoch && (v.token < w.token || (v.token == w.token && v.seqno > w.seqno)))
  }

  ghost predicate Listed(entries: seq<Version>) {
    forall i, j :: 0 <= i < j < |entries| ==> ListedBefore(entries[i], entries[j])
  }

  // ----- Reading a listing -----

  /** The claim has no rival: no newer epoch, nobody committed by its token, and no smaller token. */
  ghost predicate Wins(entries: seq<Version>, claim: Version) {
    && claim.(seqno := 0) in entries
    && (forall v :: v in entries ==> v.epoch <= claim.epoch)
    && (forall v :: v in entries && v.epoch == claim.epoch ==> claim.token <= v.token)
    && (forall v :: v in entries && SameOwner(v, claim) ==> v.seqno == 0)
  }

  /** `claimWins` looks at the first entries of a listing only; the order of the keys makes that enough. */
  method ClaimWins(entries: seq<Version>, claim: Version) returns (r: bool)
    requires Listed(entries)
    ensures r <==> Wins(entries, claim)
  {
    for i := 0 to |entries|
      invariant i > 0 ==> entries[0].epoch < claim.epoch
    {
      var v := entries[i];
      assert i > 0 ==> ListedBefore(entries[0], v);
      if v.epoch > claim.epoch || (v.epoch == claim.epoch && v.seqno > 0) {
        NewerFirst(entries, claim);
        return false;
      }
      if v.epoch == claim.epoch {
        OwnerFirst(entries, claim);
        return v.token == claim.token;
      }
    }
    if |entries| > 0 { AllOlder(entries, claim); }
    return false;
  }

  lemma NewerFirst(entries: seq<Version>, claim: Version)
    requires Listed(entries) && entries != []
    requires entries[0].epoch > claim.epoch || (entries[0].epoch == claim.epoch && entries[0].seqno > 0)
    ensures !Wins(entries, claim)
  {
    assert entries[0] in entries;
    var put := claim.(seqno := 0);
    if put in entries { FirstIsLeast(entries, put); }
  }

  lemma FirstIsLeast(entries: seq<Version>, v: Version)
    requires Listed(entries) && v in entries
    ensures entries[0] == v || ListedBefore(entries[0], v)
  {
    var i :| 0 <= i < |entries| && entries[i] == v;
  }

  lemma OwnerFirst(entries: seq<Version>, claim: Version)
    requires Listed(entries) && entries != [] && entries[0].epoch == claim.epoch && entries[0].seqno == 0
    ensures Wins(entries, claim) <==> entries[0].token == claim.token
  {
    forall v | v in entries ensures v == entries[0] || ListedBefore(entries[0], v) {
      FirstIsLeast(entries, v);
    }
    if Wins(entries, claim) {
      assert entries[0] in entries;
    }
  }

  lemma AllOlder(entries: seq<Version>, claim: Version)
    requires Listed(entries) && entries != [] && entries[0].epoch < claim.epoch
    ensures !Wins(entries, claim)
  {
    var put := claim.(seqno := 0);
    if put in entries { FirstIsLeast(entries, put); }
  }

  /** The newest entry of the base's owner is the one the claim was made on. */
  ghost predicate BaseHolds(entries: seq<Version>, base: Option<Version>) {
    base.Some? ==>
      && base.value in entries
      && (forall v :: v in entries && SameOwner(v, base.value) ==> v.seqno <= base.value.seqno)
  }

  method BaseUnchanged(entries: seq<Version>, base: Option<Version>) returns (r: bool)
    requires Listed(entries)
    ensures r <==> BaseHolds(entries, base)
  {
    if base.None? { return true; }
    for i := 0 to |entries|
      invariant forall j :: 0 <= j < i ==> !SameOwner(entries[j], base.value)
    {
      if SameOwner(entries[i], base.value) {
        assert entries[i] in entries;
        forall v | v in entries && SameOwner(v, base.value) ensures v.seqno <= entries[i].seqno {
          var j :| 0 <= j < |entries| && entries[j] == v;
        }
        return entries[i].seqno == base.value.seqno;
      }
    }
    return false;
  }

  /** Nobody newer, no other owner of the epoch, and nothing newer of the same owner. */
  ghost predicate Current(entries: set<Version>, version: Version) {
    forall v :: v in entries ==>
      && v.epoch <= version.epoch
      && (v.epoch == version.epoch && v.token != version.token ==> v.seqno == 0)
      && (SameOwner(v, version) ==> v.seqno <= version.seqno)
  }

  method OwnerStillCurrent(entries: seq<Version>, version: Version, ghost store: set<Version>) returns (r: bool)
    requires forall v :: v in entries <==> v in store
    ensures r <==> Current(store, version)
  {
    for i := 0 to |entries|
      invariant forall j :: 0 <= j < i ==> Current({entries[j]}, version)
    {
      var v := entries[i];
      assert v in store;
      if v.epoch > version.epoch || (v.epoch == version.epoch && v.token != version.token && v.seqno > 0) {
        return false;
      }
      if SameOwner(v, version) && v.seqno > version.seqno {
        return false;
      }
    }
    forall v | v in store ensures Current({v}, version) {
      var j :| 0 <= j < |entries| && entries[j] == v;
    }
    assert forall v :: v in store ==> v in {v} && Current({v}, version);
    return true;
  }

  // ----- Filtering abandoned claims in place -----

  /** A claim whose owner never committed and whose time is up. */
  ghost predicate Abandoned(entries: seq<Version>, v: Version, expired: set<Version>) {
    v.seqno == 0 && v in expired && forall w :: w in entries && SameOwner(w, v) ==> w.seqno == 0
  }

  ghost function Live(entries: seq<Version>, all: seq<Version>, expired: set<Version>): seq<Version> {
    if entries == [] then []
    else
      var front, last := Live(entries[..|entries| - 1], all, expired), entries[|entries| - 1];
      if Abandoned(all, last, expired) then front else front + [last]
  }

  /** The loop of `deadClaim` over whatever the slice holds at the moment. */
  method DeadClaim(a: array<Version>, entry: Version, expired: set<Version>) returns (dead: bool)
    ensures dead <==> Abandoned(a[..], entry, expired)
  {
    if entry.seqno != 0 { return false; }
    for i := 0 to a.Length
      invariant forall j :: 0 <= j < i ==> (SameOwner(a[j], entry) ==> a[j].seqno == 0)
    {
      if SameOwner(a[i], entry) && a[i].seqno > 0 {
        assert a[i] in a[..];
        return false;
      }
    }
    return entry in expired;
  }

  /** Everything committed so far was moved to the front; nothing foreign appeared. */
  ghost predicate Shifted(original: seq<Version>, now: seq<Version>, done: nat, kept: nat)
    requires done <= |original| == |now| && kept <= done
  {
    && now[done..] == original[done..]
    && (forall k :: 0 <= k < |now| ==> now[k] in original)
    && (forall k :: 0 <= k < done && original[k].seqno > 0 ==> original[k] in now[..kept])
  }

  /**
   While the slice is being overwritten, looking for a committed version of an
   owner gives the same answer as in the untouched listing, because committed
   versions are never dropped.
   */
  lemma SameVerdict(original: seq<Version>, now: seq<Version>, done: nat, kept: nat, v: Version, expired: set<Version>)
    requires done <= |original| == |now| && kept <= done && Shifted(original, now, done, kept)
    ensures Abandoned(now, v, expired) <==> Abandoned(original, v, expired)
  {
    forall w | w in original && SameOwner(w, v) && w.seqno > 0 ensures w in now {
      var k :| 0 <= k < |original| && original[k] == w;
      if k >= done { assert now[k] == now[done..][k - done] == original[done..][k - done] == w; }
    }
  }

  /** `liveEntries`: the in-place filter keeps exactly the entries that are not abandoned, in order. */
  method LiveEntries(a: array<Version>, expired: set<Version>) returns (kept: nat)
    modifies a
    ensures kept <= a.Length && a[..kept] == Live(old(a[..]), old(a[..]), expired)
    ensures forall v :: v in old(a[..]) && v.seqno > 0 ==> v in a[..kept]
  {
    kept := 0;
    ghost var original := a[..];
    for i := 0 to a.Length
      invariant kept <= i
      invariant Shifted(original, a[..], i, kept)
      invariant a[..kept] == Live(original[..i], original, expired)
    {
      var entry := a[i];
      ghost var now := a[..];
      FilterRound(original, now, i, kept, expired);
      var dead := DeadClaim(a, entry, expired);
      if !dead {
        a[kept] := entry;
        assert a[..] == now[kept := entry] && a[..kept + 1] == now[..kept] + [entry];
        kept := kept + 1;
      }
    }
    assert original[..a.Length] == original;
  }

  /** One round of the filter: the verdict on the next entry, and what keeping or dropping it leaves. */
  lemma FilterRound(original: seq<Version>, now: seq<Version>, i: nat, kept: nat, expired: set<Version>)
    requires i < |original| == |now| && kept <= i && Shifted(original, now, i, kept)
    ensures now[i] == original[i]
    ensures Live(original[..i + 1], original, expired) ==
            Live(original[..i], original, expired) + (if Abandoned(now, now[i], expired) then [] else [now[i]])
    ensures if Abandoned(now, now[i], expired) then Shifted(original, now, i + 1, kept)
            else Shifted(original, now[kept := now[i]], i + 1, kept + 1)
  {
    assert now[i] == now[i..][0] == original[i..][0];
    assert original[..i + 1][..i] == original[..i];
    SameVerdict(original, now, i, kept, now[i], expired);
    if Abandoned(now, now[i], expired) { DropOne(original, now, i, kept); } else { ShiftOne(original, now, i, kept); }
  }

  lemma ShiftOne(original: seq<Version>, now: seq<Version>, i: nat, kept: nat)
    requires i < |original| == |now| && kept <= i && Shifted(original, now, i, kept) && now[i] == original[i]
    ensures Shifted(original, now[kept := now[i]], i + 1, kept + 1)
  {
    var next := now[kept := now[i]];
    assert next[i + 1..] == now[i + 1..] == now[i..][1..];
    assert next[..kept + 1] == now[..kept] + [now[i]];
  }

  lemma DropOne(original: seq<Version>, now: seq<Version>, i: nat, kept: nat)
    requires i < |original| == |now| && kept <= i && Shifted(original, now, i, kept) && original[i].seqno == 0
    ensures Shifted(original, now, i + 1, kept)
  {
    assert now[i + 1..] == now[i..][1..];
  }

  // ----- The election -----

  datatype Phase =
    | Claiming(base: Option<Version>)   // the claim was put
    | Won                               // the listing after the settle time showed no rival
    | Written(seqno: nat)               // this version was put and awaits confirmation
    | Owner(seqno: nat)                 // this version was confirmed
    | Aborted                           // the claim call failed and removes its keys
    | Lost                              // a later confirmation failed

  datatype Client = Client(epoch: nat, phase: Phase)

  /**
   `store` holds the keys; `late` puts that may still land; `prunes` keys that
   background prunes will delete; `log` the confirmations that succeeded, in order.
   */
  datatype System = System(
    store: set<Version>, late: set<Version>, prunes: set<Version>, clients: map<Token, Client>, log: seq<Version>)

  datatype Step =
    | PutClaim(t: Token, epoch: nat, base: Option<Version>)
    | Win(t: Token)
    | PutFirst(t: Token)
    | Advance(t: Token)
    | Confirm(t: Token)
    | Fail(t: Token, inFlight: set<Version>)
    | RemoveOwn(t: Token, seqno: nat)
    | Reap(v: Version)
    | Prune(v: Version)
    | LandLate(v: Version)

  function Mine(t: Token, c: Client, seqno: nat): Version { Version(c.epoch, t, seqno) }

  /** A listing of the whole store. */
  ghost predicate ListingOf(store: set<Version>, entries: seq<Version>) {
    Listed(entries) && forall v :: v in entries <==> v in store
  }

  ghost predicate WonNow(store: set<Version>, claim: Version, base: Option<Version>) {
    exists entries :: ListingOf(store, entries) && Wins(entries, claim) && BaseHolds(entries, base)
  }

  /** What `pruneBehind` deletes in the background. */
  predicate Superseded(v: Version, current: Version) {
    || v.epoch < current.epoch
    || (v.epoch == current.epoch && v.token != current.token)
    || (SameOwner(v, current) && v.seqno > 0 && v.seqno + 2 <= current.seqno)
  }

  ghost predicate Enabled(s: System, step: Step) {
    match step
    case PutClaim(t, _, _) => t !in s.clients
    case Win(t) =>
      && t in s.clients && s.clients[t].phase.Claiming?
      && WonNow(s.store, Mine(t, s.clients[t], 0), s.clients[t].phase.base)
    case PutFirst(t) => t in s.clients && s.clients[t].phase.Won?
    case Advance(t) => t in s.clients && s.clients[t].phase.Owner?
    case Confirm(t) => t in s.clients && s.clients[t].phase.Written?
    case Fail(t, inFlight) => t in s.clients &&
      forall v :: v in inFlight ==> v.token == t && v.epoch == s.clients[t].epoch
    case RemoveOwn(t, _) => t in s.clients && s.clients[t].phase.Aborted?
    case Reap(v) => v.seqno == 0
    case Prune(v) => v in s.prunes
    case LandLate(v) => v in s.late
  }

  /** `confirm`: the version is recorded as the owner's newest if the listing shows no rival. */
  ghost predicate Confirmed(s: System, v: Version) { Current(s.store, v) && v.(seqno := 0) in s.store }

  ghost function Confirming(s: System, t: Token, c: Client, v: Version): System {
    if Confirmed(s, v) then
      s.(clients := s.clients[t := c.(phase := Owner(v.seqno))], log := s.log + [v],
         prunes := s.prunes + set w | w in s.store && Superseded(w, v))
    else
      s.(clients := s.clients[t := c.(phase := if v.seqno == 1 then Aborted else Lost)])
  }

  ghost function Apply(s: System, step: Step): System
    requires Enabled(s, step)
  {
    match step
    case PutClaim(t, epoch, base) =>
      s.(store := s.store + {Version(epoch, t, 0)}, clients := s.clients[t := Client(epoch, Claiming(base))])
    case Win(t) => s.(clients := s.clients[t := s.clients[t].(phase := Won)])
    case PutFirst(t) =>
      s.(store := s.store + {Mine(t, s.clients[t], 1)}, clients := s.clients[t := s.clients[t].(phase := Written(1))])
    case Advance(t) =>
      var next := s.clients[t].phase.seqno + 1;
      s.(store := s.store + {Mine(t, s.clients[t], next)},
         clients := s.clients[t := s.clients[t].(phase := Written(next))])
    case Confirm(t) => Confirming(s, t, s.clients[t], Mine(t, s.clients[t], s.clients[t].phase.seqno))
    case Fail(t, inFlight) =>
      // A request failed; what it wrote may still land. A claim is aborted, an owner may try again.
      var c := s.clients[t];
      var phase := match c.phase
        case Claiming(_) => Aborted
        case Won => Aborted
        case Written(n) => if n <= 1 then Aborted else Owner(n - 1)
        case other => other;
      s.(late := s.late + inFlight, clients := s.clients[t := c.(phase := phase)])
    case RemoveOwn(t, seqno) => s.(store := s.store - {Mine(t, s.clients[t], seqno)})
    case Reap(v) => s.(store := s.store - {v})
    case Prune(v) => s.(store := s.store - {v}, prunes := s.prunes - {v})
    case LandLate(v) => s.(store := s.store + {v}, late := s.late - {v})
  }

  const Empty := System({}, {}, {}, map[], [])

  ghost predicate IsRun(states: seq<System>, steps: seq<Step>) {
    && |states| == |steps| + 1 && states[0] == Empty
    && (forall i :: 0 <= i < |steps| ==> Enabled(states[i], steps[i]) && states[i + 1] == Apply(states[i], steps[i]))
  }

  /** The newest confirmation. */
  function Top(s: System): Version
    requires s.log != []
  {
    s.log[|s.log| - 1]
  }

  predicate Later(v: Version, w: Version) {
    v.epoch < w.epoch || (SameOwner(v, w) && v.seqno < w.seqno)
  }

  /** Confirmations only ever go to a newer epoch or to the next version of the same owner. */
  ghost predicate LogOk(s: System) {
    && (forall i, j :: 0 <= i < j < |s.log| ==> Later(s.log[i], s.log[j]))
    && (forall i :: 0 <= i < |s.log| ==> s.log[i].seqno > 0)
  }

  /** The newest confirmed version is in the store and no prune is aimed at it or at what comes after. */
  ghost predicate TopOk(s: System) {
    s.log != [] ==>
      && Top(s) in s.store
      && (forall v :: v in s.prunes ==> v.epoch <= Top(s).epoch)
      && (forall v :: v in s.prunes && SameOwner(v, Top(s)) ==> v.seqno < Top(s).seqno)
  }

  ghost predicate ClientOk(s: System, t: Token, c: Client) {
    match c.phase
    case Claiming(_) => NeverConfirmed(s, t)
    case Won => NeverConfirmed(s, t)
    case Aborted => NeverConfirmed(s, t)
    case Written(n) =>
      && n > 0 && (n == 1 ==> NeverConfirmed(s, t))
      && (forall i :: 0 <= i < |s.log| && s.log[i].token == t ==> s.log[i].epoch == c.epoch && s.log[i].seqno < n)
      && (s.log == [] || Top(s).epoch < c.epoch || SameOwner(Top(s), Mine(t, c, n)) ==> Mine(t, c, n) in s.store)
    case Owner(n) =>
      && n > 0 && (forall i :: 0 <= i < |s.log| && s.log[i].token == t ==>
           s.log[i].epoch == c.epoch && s.log[i].seqno <= n)
    case Lost => true
  }

  ghost predicate NeverConfirmed(s: System, t: Token) {
    forall i :: 0 <= i < |s.log| ==> s.log[i].token != t
  }

  ghost predicate Inv(s: System) {
    && LogOk(s) && TopOk(s)
    && (s.log == [] ==> s.prunes == {})
    && (forall i :: 0 <= i < |s.log| ==> s.log[i].token in s.clients)
    && (forall t :: t in s.clients ==> ClientOk(s, t, s.clients[t]))
  }

  // ----- Every step keeps the invariant -----

  lemma StoreGrows(s: System, store: set<Version>)
    requires Inv(s) && s.store <= store
    ensures Inv(s.(store := store))
  {
    var s' := s.(store := store);
    forall t | t in s'.clients ensures ClientOk(s', t, s'.clients[t]) {
      assert ClientOk(s, t, s.clients[t]);
    }
  }

  /** A key may go unless it is the newest confirmed one or awaits a confirmation that could succeed. */
  lemma StoreLoses(s: System, v: Version)
    requires Inv(s) && (s.log != [] ==> v != Top(s))
    requires forall t ::
               t in s.clients && s.clients[t].phase.Written? && v == Mine(t, s.clients[t], s.clients[t].phase.seqno) ==>
               s.log != [] && Top(s).epoch >= s.clients[t].epoch && !SameOwner(Top(s), v)
    ensures Inv(s.(store := s.store - {v}))
  {
    var s' := s.(store := s.store - {v});
    forall t | t in s'.clients ensures ClientOk(s', t, s'.clients[t]) {
      assert ClientOk(s, t, s.clients[t]);
    }
  }

  /** One client moves on while the keys and the log stay. */
  lemma ClientMoves(s: System, t: Token, c: Client)
    requires Inv(s) && ClientOk(s, t, c)
    ensures Inv(s.(clients := s.clients[t := c]))
  {
    var s' := s.(clients := s.clients[t := c]);
    forall u | u in s'.clients ensures ClientOk(s', u, s'.clients[u]) {
      if u != t { assert ClientOk(s, u, s.clients[u]); }
    }
  }

  lemma PruneKeeps(s: System, v: Version)
    requires Inv(s) && v in s.prunes
    ensures Inv(s.(store := s.store - {v}, prunes := s.prunes - {v}))
  {
    forall t | t in s.clients && s.clients[t].phase.Written? && v == Mine(t, s.clients[t], s.clients[t].phase.seqno)
      ensures s.log != [] && Top(s).epoch >= s.clients[t].epoch && !SameOwner(Top(s), v)
    {
      assert ClientOk(s, t, s.clients[t]);
    }
    StoreLoses(s, v);
    FewerPrunes(s.(store := s.store - {v}), v);
  }

  lemma FewerPrunes(s: System, v: Version)
    requires Inv(s)
    ensures Inv(s.(prunes := s.prunes - {v}))
  {
    var s' := s.(prunes := s.prunes - {v});
    forall t | t in s'.clients ensures ClientOk(s', t, s'.clients[t]) {
      assert ClientOk(s, t, s.clients[t]);
    }
  }

  lemma RemoveOwnKeeps(s: System, t: Token, seqno: nat)
    requires Inv(s) && t in s.clients && s.clients[t].phase.Aborted?
    ensures Inv(s.(store := s.store - {Mine(t, s.clients[t], seqno)}))
  {
    assert ClientOk(s, t, s.clients[t]);
    StoreLoses(s, Mine(t, s.clients[t], seqno));
  }

  lemma ReapKeeps(s: System, v: Version)
    requires Inv(s) && v.seqno == 0
    ensures Inv(s.(store := s.store - {v}))
  {
    forall t | t in s.clients && s.clients[t].phase.Written? ensures s.clients[t].phase.seqno > 0 {
      assert ClientOk(s, t, s.clients[t]);
    }
    StoreLoses(s, v);
  }

  lemma PutClaimKeeps(s: System, t: Token, epoch: nat, base: Option<Version>)
    requires Inv(s) && t !in s.clients
    ensures Inv(Apply(s, PutClaim(t, epoch, base)))
  {
    ClientMoves(s, t, Client(epoch, Claiming(base)));
    StoreGrows(s.(clients := s.clients[t := Client(epoch, Claiming(base))]), s.store + {Version(epoch, t, 0)});
  }

  /** Writing the next version of an owner, or the first one of a claim. */
  lemma WriteKeeps(s: System, t: Token, n: nat)
    requires Inv(s) && t in s.clients && n > 0
    requires (s.clients[t].phase.Won? && n == 1) || (s.clients[t].phase.Owner? && n == s.clients[t].phase.seqno + 1)
    ensures Inv(s.(store := s.store + {Mine(t, s.clients[t], n)},
                   clients := s.clients[t := s.clients[t].(phase := Written(n))]))
  {
    assert ClientOk(s, t, s.clients[t]);
    var mid := s.(store := s.store + {Mine(t, s.clients[t], n)});
    StoreGrows(s, mid.store);
    ClientMoves(mid, t, s.clients[t].(phase := Written(n)));
  }

  lemma FailKeeps(s: System, t: Token, inFlight: set<Version>)
    requires Inv(s) && Enabled(s, Fail(t, inFlight))
    ensures Inv(Apply(s, Fail(t, inFlight)))
  {
    var c := s.clients[t];
    assert ClientOk(s, t, c);
    var c' := Apply(s, Fail(t, inFlight)).clients[t];
    ClientMoves(s, t, c');
    var mid := s.(clients := s.clients[t := c']);
    var s' := mid.(late := s.late + inFlight);
    forall u | u in s'.clients ensures ClientOk(s', u, s'.clients[u]) {
      assert ClientOk(mid, u, mid.clients[u]);
    }
  }

  lemma LandLateKeeps(s: System, v: Version)
    requires Inv(s)
    ensures Inv(s.(store := s.store + {v}, late := s.late - {v}))
  {
    StoreGrows(s, s.store + {v});
    var mid := s.(store := s.store + {v});
    var s' := mid.(late := s.late - {v});
    forall u | u in s'.clients ensures ClientOk(s', u, s'.clients[u]) {
      assert ClientOk(mid, u, mid.clients[u]);
    }
  }

  /** The listing of a successful confirmation shows that nothing newer was confirmed. */
  lemma ConfirmedIsLater(s: System, t: Token)
    requires Inv(s) && t in s.clients && s.clients[t].phase.Written?
    requires Current(s.store, Mine(t, s.clients[t], s.clients[t].phase.seqno))
    ensures var v := Mine(t, s.clients[t], s.clients[t].phase.seqno);
            && v in s.store && v.seqno > 0
            && (s.log != [] ==> Later(Top(s), v))
            && (forall i :: 0 <= i < |s.log| ==> Later(s.log[i], v))
  {
    var v := Mine(t, s.clients[t], s.clients[t].phase.seqno);
    assert ClientOk(s, t, s.clients[t]);
    if s.log != [] {
      assert Top(s) in s.store;
      assert Later(Top(s), v);
      forall i | 0 <= i < |s.log| ensures Later(s.log[i], v) {
        if i < |s.log| - 1 { assert Later(s.log[i], Top(s)); }
      }
    }
  }

  lemma ConfirmKeeps(s: System, t: Token)
    requires Inv(s) && t in s.clients && s.clients[t].phase.Written?
    requires Confirmed(s, Mine(t, s.clients[t], s.clients[t].phase.seqno))
    ensures Inv(Confirming(s, t, s.clients[t], Mine(t, s.clients[t], s.clients[t].phase.seqno)))
  {
    var c := s.clients[t];
    var v := Mine(t, c, c.phase.seqno);
    var s' := Confirming(s, t, c, v);
    ConfirmedIsLater(s, t);
    assert ClientOk(s, t, c);
    assert Top(s') == v;
    forall w | w in s'.prunes ensures w.epoch <= v.epoch && (SameOwner(w, v) ==> w.seqno < v.seqno) {
      if w in s.prunes { assert s.log != [] && Later(Top(s), v); }
    }
    forall u | u in s'.clients ensures ClientOk(s', u, s'.clients[u]) {
      if u != t { assert ClientOk(s, u, s.clients[u]); }
    }
  }

  lemma ConfirmFails(s: System, t: Token)
    requires Inv(s) && t in s.clients && s.clients[t].phase.Written?
    ensures var c := s.clients[t]; Inv(s.(clients := s.clients[t := c.(phase := if c.phase.seqno == 1 then Aborted
            else Lost)]))
  {
    var c := s.clients[t];
    assert ClientOk(s, t, c);
    ClientMoves(s, t, c.(phase := if c.phase.seqno == 1 then Aborted else Lost));
  }

  lemma StepKeeps(s: System, step: Step)
    requires Inv(s) && Enabled(s, step)
    ensures Inv(Apply(s, step))
  {
    match step
    case PutClaim(t, epoch, base) => PutClaimKeeps(s, t, epoch, base);
    case Win(t) =>
      assert ClientOk(s, t, s.clients[t]);
      ClientMoves(s, t, s.clients[t].(phase := Won));
    case PutFirst(t) => WriteKeeps(s, t, 1);
    case Advance(t) => WriteKeeps(s, t, s.clients[t].phase.seqno + 1);
    case Confirm(t) =>
      if Confirmed(s, Mine(t, s.clients[t], s.clients[t].phase.seqno)) {
        ConfirmKeeps(s, t);
      } else {
        ConfirmFails(s, t);
      }
    case Fail(t, inFlight) => FailKeeps(s, t, inFlight);
    case RemoveOwn(t, seqno) => RemoveOwnKeeps(s, t, seqno);
    case Reap(v) => ReapKeeps(s, v);
    case Prune(v) => PruneKeeps(s, v);
    case LandLate(v) => LandLateKeeps(s, v);
  }

  lemma {:induction false} RunKeeps(states: seq<System>, steps: seq<Step>, n: nat)
    requires IsRun(states, steps) && n < |states|
    ensures Inv(states[n])
  {
    if n > 0 {
      RunKeeps(states, steps, n - 1);
      StepKeeps(states[n - 1], steps[n - 1]);
    }
  }

  /**
   At most one token is ever confirmed in an epoch, in every interleaving; and
   once an epoch is confirmed, no older one is confirmed again.
   */
  lemma OneOwnerPerEpoch(states: seq<System>, steps: seq<Step>, n: nat, i: nat, j: nat)
    requires IsRun(states, steps) && n < |states| && i <= j < |states[n].log|
    ensures var v, w := states[n].log[i], states[n].log[j];
            && v.epoch <= w.epoch
            && (v.epoch == w.epoch ==> v.token == w.token && v.seqno <= w.seqno)
  {
    RunKeeps(states, steps, n);
    if i < j { assert Later(states[n].log[i], states[n].log[j]); }
  }

  /** The newest confirmed version stays in the store, so that a reader always finds a head. */
  lemma ConfirmedHeadStays(states: seq<System>, steps: seq<Step>, n: nat)
    requires IsRun(states, steps) && n < |states| && states[n].log != []
    ensures Top(states[n]) in states[n].store && Top(states[n]).seqno > 0
  {
    RunKeeps(states, steps, n);
  }
}
