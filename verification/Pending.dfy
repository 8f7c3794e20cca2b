/**
 * internal/server/pending.go, as relations between the map before and after each locked section.
 * `E` is whatever the map holds a reference to: a `PendingContainer` object for the store class, an entry
 * identity for the interleaving model.
 */
module PendingSpec {
  import opened Common
  import Ids

  /** The fields of a pending container that never change after /create. */
  datatype Info = Info(id: string, dockerName: string, podName: string, createdAt: int)

  datatype Failure = CreateFailed | PendingRemoved | PendingExpired

  /** The latch: open until the first markStarted or markFailed decides it. */
  datatype Latch = Waiting | Started | Failed(reason: Failure)

  function Resolve(latch: Latch, outcome: Latch): Latch
  {
    if latch == Waiting then outcome else latch
  }

  /** The first decision stands. */
  lemma FirstDecision(latch: Latch, reason: Failure)
    ensures Resolve(Waiting, Started) == Started && Resolve(Waiting, Failed(reason)) == Failed(reason)
    ensures latch != Waiting ==> Resolve(latch, Started) == latch && Resolve(latch, Failed(reason)) == latch
  {
  }

  predicate Expired(info: Info, now: int, ttl: int) { ttl > 0 && info.createdAt < now - ttl }

  function Survivors<E>(m: map<string, E>, info: E -> Info, now: int, ttl: int): map<string, E>
  {
    map k | k in m && !Expired(info(m[k]), now, ttl) :: m[k]
  }

  /** Entries as old as the lifetime stay, older ones go, and without a lifetime all stay. */
  lemma SurvivorsMean<E>(m: map<string, E>, info: E -> Info, now: int, ttl: int, k: string)
    requires k in m
    ensures k in Survivors(m, info, now, ttl) <==> ttl <= 0 || now - info(m[k]).createdAt <= ttl
    ensures k in Survivors(m, info, now, ttl) ==> Survivors(m, info, now, ttl)[k] == m[k]
  {
  }

  /** The latches after a reap that kept `kept`: waiters on the dropped entries see PendingExpired. */
  function ReapedLatches<K>(latches: map<K, Latch>, kept: set<K>): map<K, Latch>
  {
    map k | k in latches :: if k in kept then latches[k] else Resolve(latches[k], Failed(PendingExpired))
  }

  predicate Matches(id: string, info: Info, ref: string)
  {
    Ids.ShortID(id) == ref || info.podName == ref || info.dockerName == ref
  }

  /** What the scan in findLocked may return: map order decides among several matches. */
  predicate IsFound<E(==)>(m: map<string, E>, info: E -> Info, ref: string, r: Option<E>)
  {
    if ref in m then r == Some(m[ref])
    else
      match r
      case Some(e) => exists id :: id in m && m[id] == e && Matches(id, info(e), ref)
      case None => forall id :: id in m ==> !Matches(id, info(m[id]), ref)
  }

  predicate SomeMatch<E>(m: map<string, E>, info: E -> Info, ref: string)
  {
    ref in m || exists id :: id in m && Matches(id, info(m[id]), ref)
  }

  /** Whether reserve accepts an entry into the already reaped map `m`. */
  predicate Reservable<E>(m: map<string, E>, info: E -> Info, id: string, dockerName: string)
  {
    (dockerName == "" || !SomeMatch(m, info, dockerName)) && id !in m
  }
}

/** The pending container latch and the mutex-guarded store of internal/server/pending.go. */
module PendingStore {
  import opened Common
  import opened PendingSpec

  datatype WaitError = StartFailed(reason: Failure) | ContextDone

  class PendingContainer {
    const ID: string
    const DockerName: string
    const PodName: string
    const CreatedAt: int

    var started: bool
    var failed: Option<Failure>
    var startChClosed: bool
    ghost var closes: nat

    function Info(): Info { PendingSpec.Info(ID, DockerName, PodName, CreatedAt) }

    /** The channel is closed iff exactly one of started and failed holds, and it was closed at most once. */
    ghost predicate Valid()
      reads this
    {
      && !(started && failed.Some?)
      && startChClosed == (started || failed.Some?)
      && closes == (if startChClosed then 1 else 0)
    }

    function Latch(): Latch
      reads this
    {
      if started then Started else if failed.Some? then Failed(failed.value) else Waiting
    }

    constructor (id: string, dockerName: string, podName: string, createdAt: int)
      ensures Valid() && Latch() == Waiting
      ensures Info() == PendingSpec.Info(id, dockerName, podName, createdAt)
    {
      ID, DockerName, PodName, CreatedAt := id, dockerName, podName, createdAt;
      started, failed, startChClosed, closes := false, None, false, 0;
    }

    /** `close(p.startCh)`, which panics on a closed channel. */
    method CloseStartCh()
      requires !startChClosed
      modifies this`startChClosed, this`closes
      ensures startChClosed && closes == old(closes) + 1
    {
      startChClosed, closes := true, closes + 1;
    }

    method MarkStarted()
      requires Valid()
      modifies this
      ensures Valid() && Latch() == Resolve(old(Latch()), Started)
      ensures old(!started && failed.None?) ==> started && failed.None?
      ensures old(started || failed.Some?) ==> started == old(started) && failed == old(failed)
      ensures startChClosed && closes == 1
    {
      if started || failed.Some? {
        return;
      }
      started := true;
      CloseStartCh();
    }

    method MarkFailed(reason: Failure)
      requires Valid()
      modifies this
      ensures Valid() && Latch() == Resolve(old(Latch()), Failed(reason))
      ensures old(!started && failed.None?) ==> !started && failed == Some(reason)
      ensures old(started || failed.Some?) ==> started == old(started) && failed == old(failed)
      ensures startChClosed && closes == 1
    {
      if started || failed.Some? {
        return;
      }
      failed := Some(reason);
      CloseStartCh();
    }

    /**
     * The select of waitForStart once it can proceed: the channel is closed or the context is done.
     * When both are, either branch may run.
     */
    method WaitForStart(ctxDone: bool) returns (err: Option<WaitError>)
      requires Valid()
      requires startChClosed || ctxDone
      ensures err.None? ==> started && failed.None?
      ensures err == Some(ContextDone) ==> ctxDone
      ensures forall r :: err == Some(StartFailed(r)) ==> failed == Some(r)
      ensures !ctxDone ==> (err.None? <==> started) && (err.Some? <==> failed.Some?)
    {
      var channelFirst: bool := *;
      if startChClosed && (!ctxDone || channelFirst) {
        err := match failed case Some(r) => Some(StartFailed(r)) case None => None;
      } else {
        err := Some(ContextDone);
      }
    }
  }

  function InfoOf(p: PendingContainer): Info { p.Info() }

  function LatchesOf(m: map<string, PendingContainer>): map<string, Latch>
    reads m.Values
  {
    map k | k in m :: m[k].Latch()
  }

  class Store {
    var m: map<string, PendingContainer>
    const ttl: int

    ghost predicate Valid()
      reads this, m.Values
    {
      forall k :: k in m ==> m[k].ID == k && m[k].Valid()
    }

    constructor (ttl: int)
      ensures Valid() && m == map[] && this.ttl == ttl
    {
      m, this.ttl := map[], ttl;
    }

    /** The loop of reapLocked, entry by entry. */
    method DropOlderThan(cutoff: int)
      requires Valid()
      modifies this`m, m.Values
      ensures Valid()
      ensures forall k :: k in m <==> k in old(m) && old(m)[k].CreatedAt >= cutoff
      ensures forall k :: k in m ==> m[k] == old(m)[k]
      ensures forall k :: k in old(m) ==> old(m)[k].Valid()
      ensures forall k :: k in old(m) ==> (old(m)[k].Latch() ==
                if k in m then old(m[k].Latch()) else Resolve(old(m[k].Latch()), Failed(PendingExpired)))
    {
      ghost var before, dropped := m, {};
      var todo := m.Keys;
      while todo != {}
        invariant todo <= m.Keys
        invariant m == before - dropped && dropped <= before.Keys
        invariant forall k :: k in dropped ==> before[k].CreatedAt < cutoff
        invariant forall k :: k in m && k !in todo ==> m[k].CreatedAt >= cutoff
        invariant forall k :: k in m ==> unchanged(m[k])
        invariant forall k :: k in dropped ==>
                    before[k].Valid() && before[k].Latch() == Resolve(old(m[k].Latch()), Failed(PendingExpired))
        decreases todo
      {
        var id :| id in todo;
        todo := todo - {id};
        var p := m[id];
        if p.CreatedAt < cutoff {
          p.MarkFailed(PendingExpired);
          m := m - {id};
          dropped := dropped + {id};
        }
      }
    }

    /** Drops the expired entries, failing their waiters, in whatever order the map is walked. */
    method ReapLocked(now: int)
      requires Valid()
      modifies this, m.Values
      ensures Valid()
      ensures m == Survivors(old(m), InfoOf, now, ttl)
      ensures LatchesOf(old(m)) == ReapedLatches(old(LatchesOf(m)), m.Keys)
      ensures forall k :: k in old(m) ==> old(m)[k].Valid()
    {
      if ttl <= 0 {
        return;
      }
      DropOlderThan(now - ttl);
    }

    /** Exact key first, then the first match by short ID, pod name or --name in map order. */
    method FindLocked(ref: string) returns (r: Option<PendingContainer>)
      requires Valid()
      ensures IsFound(m, InfoOf, ref, r)
      ensures r.None? <==> !SomeMatch(m, InfoOf, ref)
      ensures r.None? ==> forall k :: k in m ==> m[k].PodName != ref && m[k].DockerName != ref && k != ref
      ensures r.Some? && r.value.ID != ref && r.value.PodName != ref && r.value.DockerName != ref ==>
        |r.value.ID| > 12 && r.value.ID[..12] == ref
    {
      if ref in m {
        return Some(m[ref]);
      }
      var todo := m.Keys;
      while todo != {}
        invariant todo <= m.Keys
        invariant forall id :: id in m && id !in todo ==> !Matches(id, InfoOf(m[id]), ref)
        decreases todo
      {
        var id :| id in todo;
        todo := todo - {id};
        if Matches(id, InfoOf(m[id]), ref) {
          return Some(m[id]);
        }
      }
      return None;
    }

    /** The check and the insertion of reserve, once expired entries are gone. */
    method ReserveLocked(p: PendingContainer, dockerName: string) returns (ok: bool)
      requires Valid() && p.Valid()
      modifies this
      ensures Valid()
      ensures ok == Reservable(old(m), InfoOf, p.ID, dockerName)
      ensures m == if ok then old(m)[p.ID := p] else old(m)
      ensures ok ==> p.ID !in old(m)
      ensures ok && dockerName != "" ==> forall k :: k in old(m) ==> old(m)[k].DockerName != dockerName
    {
      if dockerName != "" {
        var found := FindLocked(dockerName);
        if found.Some? {
          return false;
        }
      }
      ok := p.ID !in m;
      if ok {
        m := m[p.ID := p];
      }
    }

    method Reserve(p: PendingContainer, dockerName: string, now: int) returns (ok: bool)
      requires Valid() && p.Valid()
      modifies this, m.Values
      ensures Valid()
      ensures ok == Reservable(Survivors(old(m), InfoOf, now, ttl), InfoOf, p.ID, dockerName)
      ensures m == if ok then Survivors(old(m), InfoOf, now, ttl)[p.ID := p]
                   else Survivors(old(m), InfoOf, now, ttl)
      ensures LatchesOf(old(m)) ==
              ReapedLatches(old(LatchesOf(m)), Survivors(old(m), InfoOf, now, ttl).Keys)
    {
      ReapLocked(now);
      ok := ReserveLocked(p, dockerName);
    }

    method GetByRef(ref: string, now: int) returns (r: Option<PendingContainer>)
      requires Valid()
      modifies this, m.Values
      ensures Valid()
      ensures m == Survivors(old(m), InfoOf, now, ttl)
      ensures IsFound(m, InfoOf, ref, r)
      ensures LatchesOf(old(m)) == ReapedLatches(old(LatchesOf(m)), m.Keys)
    {
      ReapLocked(now);
      r := FindLocked(ref);
    }

    method Remove(id: string)
      requires Valid()
      modifies this
      ensures Valid() && m == old(m) - {id}
    {
      m := m - {id};
    }

    /** Every unexpired entry once, in map order. */
    method List(now: int) returns (out: seq<PendingContainer>)
      requires Valid()
      modifies this, m.Values
      ensures Valid()
      ensures m == Survivors(old(m), InfoOf, now, ttl)
      ensures forall p :: p in out <==> p in m.Values
      ensures forall i, j :: 0 <= i < j < |out| ==> out[i] != out[j]
    {
      ReapLocked(now);
      out := [];
      var todo := m.Keys;
      while todo != {}
        invariant todo <= m.Keys
        invariant forall p :: p in out ==> p.ID in m && p.ID !in todo && m[p.ID] == p
        invariant forall k :: k in m && k !in todo ==> m[k] in out
        invariant forall i, j :: 0 <= i < j < |out| ==> out[i] != out[j]
        decreases todo
      {
        var id :| id in todo;
        todo := todo - {id};
        out := out + [m[id]];
      }
    }
  }
}
