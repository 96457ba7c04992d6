/**
 * The per-region read/write locks of the stores (MemData.Mu of
 * Registry/pkg/memstore/mem.go, MemData.mu of pkg/memstore) and the order in
 * which the store operations take them. A sync.RWMutex is not reentrant: a
 * read lock waits while a writer holds the mutex, a write lock waits while
 * anyone holds it. One goroutine is modelled, so a call that waits for a
 * lock nobody will release never returns.
 *
 * The rest of the model runs the store operations as if every lock were
 * taken and released around them. This module shows what the lock order of
 * AddAgent does as written: it waits for itself.
 */
module Locking {
  import opened Wrappers
  import opened Records
  import opened BucketSpec
  import opened Codec
  import opened Wal
  import opened Replay

  /** A mutex: whether a writer holds it, and how many readers do. */
  datatype RWLock = RWLock(writer: bool, readers: nat)

  const Unlocked := RWLock(false, 0)

  datatype Mode = Read | Write

  /** The mutex of every region; a region without an entry has the zero mutex of a fresh MemData. */
  type Locks = map<string, RWLock>

  function LockOf(locks: Locks, region: string): RWLock
  {
    if region in locks then locks[region] else Unlocked
  }

  predicate Held(l: RWLock)
  {
    l.writer || l.readers > 0
  }

  /** Lock (Write) or RLock (Read) on a region's mutex: None when the caller has to wait. */
  function Acquire(locks: Locks, region: string, mode: Mode): (r: Option<Locks>)
    ensures r.None? <==> LockOf(locks, region).writer || (mode == Write && Held(LockOf(locks, region)))
    ensures r.Some? ==> forall x :: x != region ==> LockOf(r.value, x) == LockOf(locks, x)
    ensures r.Some? && mode == Write ==> LockOf(r.value, region) == RWLock(true, 0)
    ensures r.Some? && mode == Read ==> LockOf(r.value, region).readers == LockOf(locks, region).readers + 1
  {
    var l := LockOf(locks, region);
    match mode
    case Read => if l.writer then None else Some(locks[region := l.(readers := l.readers + 1)])
    case Write => if Held(l) then None else Some(locks[region := RWLock(true, 0)])
  }

  /** A call either returns a value, leaving the locks as given, or waits for ever holding the locks it took. */
  datatype Call<R> = Returned(value: R, locks: Locks) | Blocked(locks: Locks)

  /**
   * An operation whose body runs under one lock of the region, released by a
   * deferred unlock: GetGateway and GetTopKGateways take the read lock,
   * AddGateway the write lock. `body` is what the operation computes.
   */
  function Guarded<R>(locks: Locks, region: string, mode: Mode, body: R): (c: Call<R>)
    ensures c.Returned? <==> Acquire(locks, region, mode).Some?
    ensures c.Returned? ==> c.value == body
    ensures c.locks == locks
  {
    if Acquire(locks, region, mode).Some? then Returned(body, locks) else Blocked(locks)
  }

  /**
   * AddAgent as written (Registry/pkg/memstore/agentsops.go:8-11, and
   * pkg/memstore/agentsops.go:8-11): the write lock of the region is taken,
   * then GetGateway asks for the read lock of the same mutex. `body` is what
   * the rest of the function would compute. The call never returns, and when
   * it got the write lock it keeps it: no other region's lock changes.
   */
  function AddAgentAsWritten<R>(locks: Locks, region: string, body: R): (c: Call<R>)
    ensures c.Blocked?
    ensures Acquire(locks, region, Write).Some? ==> LockOf(c.locks, region).writer
    ensures Acquire(locks, region, Write).None? ==> c.locks == locks
    ensures forall x :: x != region ==> LockOf(c.locks, x) == LockOf(locks, x)
  {
    match Acquire(locks, region, Write)
    case None => Blocked(locks)
    case Some(held) =>
      match Guarded(held, region, Read, body)
      case Returned(v, _) => Returned(v, locks)
      case Blocked(_) => Blocked(held)
  }

  /**
   * Once AddAgent has run on a free region, that region is locked for good:
   * every later GetGateway, GetTopKGateways, AddGateway or AddAgent on it
   * waits too.
   */
  lemma RegionLockedForGood<R>(locks: Locks, region: string, body: R, later: R)
    requires !Held(LockOf(locks, region))
    ensures var after := AddAgentAsWritten(locks, region, body).locks;
      && Guarded(after, region, Read, later).Blocked?
      && Guarded(after, region, Write, later).Blocked?
      && AddAgentAsWritten(after, region, later).locks == after
  {
    var after := AddAgentAsWritten(locks, region, body).locks;
    assert LockOf(after, region).writer;
  }

  /** A record ApplyRecord sends to AddGateway, and one it sends to AddAgent (Registry/wal/replay.go:76-124). */
  predicate PutsGateway(r: WalRecord)
  {
    r.op == OpPutGateway && r.gateway.Some?
  }

  predicate PutsAgent(r: WalRecord)
  {
    r.op == OpPutAgent && r.agent.Some?
  }

  /** ApplyRecord as written (Registry/wal/replay.go:75-128), with the locks its store call takes. */
  function ApplyRecordAsWritten(s: StoreView, locks: Locks, rec: WalRecord): (c: Call<(StoreView, Option<Error>)>)
    ensures PutsAgent(rec) ==> c.Blocked?
    ensures !PutsAgent(rec) && c.Returned? ==> c.value == Apply(s, rec) && c.locks == locks
    ensures !PutsAgent(rec) && !PutsGateway(rec) ==> c.Returned?
  {
    if PutsGateway(rec) then Guarded(locks, rec.gateway.value.region, Write, Apply(s, rec))
    else if PutsAgent(rec) then AddAgentAsWritten(locks, rec.agent.value.region, Apply(s, rec))
    else Returned(Apply(s, rec), locks)
  }

  /** Replay's loop over the decoded records as written: like Replay.ApplyAll, but a record can make it wait. */
  function ApplyAllAsWritten(s: StoreView, locks: Locks, recs: seq<WalRecord>, tail: Option<Error>): Call<(StoreView, Option<Error>)>
    decreases |recs|
  {
    if |recs| == 0 then Returned((s, tail), locks)
    else
      match ApplyRecordAsWritten(s, locks, recs[0])
      case Blocked(l) => Blocked(l)
      case Returned((s', err), l) => if err.Some? then Returned((s', err), l) else ApplyAllAsWritten(s', l, recs[1..], tail)
  }

  /** The start-up replay of Registry/cmd/main.go:138 as written, on a store nobody has locked yet. */
  function ReplayAsWritten(s: StoreView, file: seq<byte>): Call<(StoreView, Option<Error>)>
  {
    ApplyAllAsWritten(s, map[], Frames(file).0, Frames(file).1)
  }

  /** Replay gets past gateway records, but the first agent record makes it wait for ever. */
  lemma {:induction false} BlocksAtFirstAgent(s: StoreView, locks: Locks, recs: seq<WalRecord>, tail: Option<Error>, i: nat)
    requires i < |recs| && PutsAgent(recs[i])
    requires forall j :: 0 <= j < i ==> PutsGateway(recs[j])
    ensures ApplyAllAsWritten(s, locks, recs, tail).Blocked?
    decreases i
  {
    if i > 0 {
      var c := ApplyRecordAsWritten(s, locks, recs[0]);
      if c.Returned? {
        assert PutsGateway(recs[0]);
        assert c.value == Apply(s, recs[0]);
        var s' := c.value.0;
        assert forall j :: 0 <= j < i - 1 ==> PutsGateway(recs[1..][j]) by {
          forall j | 0 <= j < i - 1 ensures PutsGateway(recs[1..][j]) {
            assert recs[1..][j] == recs[j + 1];
          }
        }
        BlocksAtFirstAgent(s', c.locks, recs[1..], tail, i - 1);
      }
    }
  }

  /**
   * A log written by the live handlers whose records register gateways up to
   * its first agent record makes the start-up replay hang on that record.
   */
  lemma ReplayHangsOnLoggedAgent(s: StoreView, recs: seq<WalRecord>, i: nat)
    requires AllLoggable(recs)
    requires i < |recs| && PutsAgent(recs[i])
    requires forall j :: 0 <= j < i ==> PutsGateway(recs[j])
    ensures ReplayAsWritten(s, Log(recs)).Blocked?
  {
    LogRoundTrip(recs);
    BlocksAtFirstAgent(s, map[], recs, None, i);
  }
}
