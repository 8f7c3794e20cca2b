/**
 * Runs in which nothing is removed: no pod is deleted, no pending entry is removed by rm, stop or kill or expires,
 * Get answers accurately and pods.Create fails only when the pod exists. Any number of create, start, wait and
 * attach handlers still interleave. In these runs the reserve-then-Get protocol of /create keeps its promises,
 * provided no two pod names the run asks for share an ID.
 */
module QuietRuns {
  import opened Common
  import opened PendingSpec
  import opened Lifecycle
  import LifecycleRuns
  import Runs
  import Ids

  predicate Live(s: State, e: Entry) { e.info.podName in s.pods }

  predicate Owns(s: State, e: Entry) { e.info.id in s.pending && s.pending[e.info.id] == e }

  predicate NothingExpired(cfg: Config, s: State)
  {
    forall k :: k in s.pending ==> !Expired(s.pending[k].info, s.now, cfg.ttl)
  }

  /** What the environment and the clients refrain from. */
  predicate Quiet(cfg: Config, s: State, a: Action)
  {
    match a
    case Cluster(pods) => s.pods.Keys <= pods.Keys
    case ListPending => NothingExpired(cfg, s)
    case Run(t, effect, pc') =>
      t in s.tasks ==>
        var pc := s.tasks[t];
        && !pc.DeletePod?
        && (effect.Reap? || effect.ReapInsert? ==> NothingExpired(cfg, s))
        && (pc.With? ==>
              && pc.stage != MarkRemoved && pc.stage != DropRemoved
              && (pc.stage == CheckPod && Live(s, pc.entry) ==> pc' == With(pc.entry, RollBack))
              && (pc.stage == CreatePod && !Live(s, pc.entry) ==> effect == PodCreated(pc.entry)))
    case _ => true
  }

  predicate IsQuietRun(cfg: Config, run: seq<State>, acts: seq<Action>)
  {
    IsRun(cfg, run, acts) && forall i :: 0 <= i < |acts| ==> Quiet(cfg, run[i], acts[i])
  }

  // ---- the invariant ----

  /** Every handler at work on an entry of the same pod name works on `e` itself. */
  ghost predicate Exclusive(tasks: map<nat, Pc>, e: Entry)
  {
    forall t :: t in tasks && tasks[t].With? && tasks[t].entry.info.podName == e.info.podName ==> tasks[t].entry == e
  }

  ghost predicate Unchallenged(s: State, e: Entry) { Owns(s, e) && Exclusive(s.tasks, e) }

  ghost predicate StoreQuiet(s: State)
  {
    && (forall e :: e in s.latches ==> e.info.id in s.pending || Live(s, e))
    && (forall e :: e in s.accepted ==> Owns(s, e) || Live(s, e))
    && (forall e :: e in s.accepted ==> e in s.claimed || Live(s, e))
    && (forall e :: e in s.accepted && e.info.dockerName != "" ==> e in s.claimed)
    && (forall e :: e in s.claimed ==> (e in s.latches && s.latches[e] != Waiting) || Unchallenged(s, e))
  }

  /** No entry answered 201 after another of the same pod name was claimed. */
  ghost predicate FirstClaims(s: State)
  {
    forall i, j :: 0 <= i < j < |s.accepted| && s.accepted[i].info.podName == s.accepted[j].info.podName ==>
      s.accepted[j].info.dockerName == ""
  }

  ghost predicate TaskQuiet(s: State, pc: Pc)
  {
    && (pc.With? ==>
          && (pc.stage in {RollBack, MarkStarted, DropStarted, MarkFailed, DropFailed} ==> Live(s, pc.entry))
          && (pc.stage == CheckPod ==> Live(s, pc.entry) || Unchallenged(s, pc.entry))
          && pc.stage != DropRemoved)
    && (pc.FindGet? || pc.FindList? ==>
          forall e :: e in pc.known ==> e in s.latches && (e.info.id == pc.ref ==> Live(s, e)))
    && (pc.Finished? && pc.outcome.NotFound? ==>
          forall e :: e in pc.outcome.known ==> e.info.id != pc.outcome.ref)
  }

  ghost predicate TasksQuiet(s: State) { forall t :: t in s.tasks ==> TaskQuiet(s, s.tasks[t]) }

  ghost predicate QuietInv(s: State) { StoreQuiet(s) && FirstClaims(s) && TasksQuiet(s) }

  /** No two pod names among the entries of `s` share an ID. */
  ghost predicate Separate(s: State)
  {
    && (forall e :: e in s.latches ==> e.info.id != "")
    && (forall e, e' :: e in s.latches && e' in s.latches && e.info.id == e'.info.id ==>
          e.info.podName == e'.info.podName)
  }

  // ---- what the rules say in a quiet step ----

  predicate QuietMove(s: State, pc: Pc, effect: Effect, pc': Pc)
  {
    pc'.With? ==>
      || (pc.With? && pc.entry == pc'.entry &&
          match pc'.stage
          case RollBack => pc.stage == CheckPod && Live(s, pc.entry)
          case MarkStarted => effect == PodCreated(pc.entry)
          case DropStarted => pc.stage == MarkStarted
          case MarkFailed => Live(s, pc.entry)
          case DropFailed => pc.stage == MarkFailed
          case _ => false)
      || (pc.Lookup? && Owns(s, pc'.entry) && pc'.stage in {CreatePod, MarkRemoved, AwaitLatch})
      || (effect == ReapInsert(pc'.entry) && pc'.stage == CheckPod)
  }

  predicate QuietEffect(cfg: Config, s: State, pc: Pc, effect: Effect, pc': Pc)
  {
    && !effect.PodDeleted?
    && (effect.Reap? || effect.ReapInsert? ==> Kept(cfg, s) == s.pending)
    && (effect.ReapInsert? ==>
          effect.entry.info.id !in s.pending && effect.entry.info.id == IdOf(cfg, effect.entry.info.podName))
    && (effect.Remove? ==> pc.With? && effect.entry == pc.entry && pc.stage in {RollBack, DropStarted, DropFailed})
    && (effect.Decide? ==> pc.With?)
    && (pc'.Finished? && pc'.outcome.Accepted? ==>
          var e := pc'.outcome.entry;
          || (pc == With(e, CheckPod) && effect == Silent && !Live(s, e))
          || (effect == ReapInsert(e) && e.info.dockerName == ""))
  }

  predicate QuietFind(cfg: Config, s: State, pc: Pc, effect: Effect, pc': Pc)
  {
    && (pc'.FindGet? ==> effect == Reap && pc'.known == s.accepted && pc'.ref !in s.pending)
    && (pc'.FindList? ==> pc == FindGet(pc'.op, pc'.ref, pc'.known))
    && (pc'.Finished? && pc'.outcome.NotFound? ==>
          || (pc'.outcome.ref == "" && pc'.outcome.known == s.accepted)
          || (pc.FindList? && pc.ref == pc'.outcome.ref && pc.known == pc'.outcome.known
              && NoPodMatches(cfg, s.pods, pc.ref)))
  }

  predicate QuietFollows(cfg: Config, s: State, pc: Pc, effect: Effect, pc': Pc)
  {
    QuietMove(s, pc, effect, pc') && QuietEffect(cfg, s, pc, effect, pc') && QuietFind(cfg, s, pc, effect, pc')
  }

  lemma MovesQuietly(cfg: Config, s: State, t: nat, effect: Effect, pc': Pc)
    requires StoreInv(cfg, s) && t in s.tasks && Allowed(cfg, s, s.tasks[t], effect, pc')
    requires Quiet(cfg, s, Run(t, effect, pc')) && TaskQuiet(s, s.tasks[t])
    ensures QuietMove(s, s.tasks[t], effect, pc')
  {
  }

  lemma NoReap(cfg: Config, s: State)
    requires NothingExpired(cfg, s)
    ensures Kept(cfg, s) == s.pending && Reaped(cfg, s) == s
  {
    assert Kept(cfg, s) == s.pending;
  }

  lemma ActsQuietly(cfg: Config, s: State, t: nat, effect: Effect, pc': Pc)
    requires StoreInv(cfg, s) && t in s.tasks && Allowed(cfg, s, s.tasks[t], effect, pc')
    requires Quiet(cfg, s, Run(t, effect, pc')) && TaskQuiet(s, s.tasks[t])
    ensures QuietEffect(cfg, s, s.tasks[t], effect, pc')
  {
    if NothingExpired(cfg, s) { NoReap(cfg, s); }
  }

  lemma FindsQuietly(cfg: Config, s: State, t: nat, effect: Effect, pc': Pc)
    requires StoreInv(cfg, s) && t in s.tasks && Allowed(cfg, s, s.tasks[t], effect, pc')
    requires Quiet(cfg, s, Run(t, effect, pc')) && TaskQuiet(s, s.tasks[t])
    ensures QuietFind(cfg, s, s.tasks[t], effect, pc')
  {
    if NothingExpired(cfg, s) { NoReap(cfg, s); }
  }

  lemma RulesFollowQuietly(cfg: Config, s: State, t: nat, effect: Effect, pc': Pc)
    requires StoreInv(cfg, s) && t in s.tasks && Allowed(cfg, s, s.tasks[t], effect, pc')
    requires Quiet(cfg, s, Run(t, effect, pc')) && TaskQuiet(s, s.tasks[t])
    ensures QuietFollows(cfg, s, s.tasks[t], effect, pc')
  {
    MovesQuietly(cfg, s, t, effect, pc');
    ActsQuietly(cfg, s, t, effect, pc');
    FindsQuietly(cfg, s, t, effect, pc');
  }

  // ---- preservation ----

  lemma OnlyOwnerRemoves(cfg: Config, s: State, pc: Pc, effect: Effect, pc': Pc, t: nat, e: Entry)
    requires Separate(s) && Inv(cfg, s) && t in s.tasks && s.tasks[t] == pc
    requires QuietFollows(cfg, s, pc, effect, pc') && e in s.latches && Owns(s, e)
    ensures Owns(Perform(cfg, s, effect), e) || (effect.Remove? && effect.entry.info.podName == e.info.podName)
  {
    assert TaskInv(s, pc);
  }

  lemma MoverIsExclusive(cfg: Config, s: State, pc: Pc, effect: Effect, pc': Pc, e: Entry)
    requires StoreInv(cfg, s) && Owns(s, e)
    requires pc.With? && pc.entry.info.podName == e.info.podName ==> pc.entry == e
    requires QuietMove(s, pc, effect, pc') && QuietEffect(cfg, s, pc, effect, pc')
    ensures pc'.With? && pc'.entry.info.podName == e.info.podName ==> pc'.entry == e
  {
    assert e.info.id == IdOf(cfg, e.info.podName);
  }

  lemma StaysExclusive(cfg: Config, s: State, t: nat, effect: Effect, pc': Pc, e: Entry)
    requires StoreInv(cfg, s) && t in s.tasks && Unchallenged(s, e)
    requires QuietMove(s, s.tasks[t], effect, pc') && QuietEffect(cfg, s, s.tasks[t], effect, pc')
    ensures Exclusive(s.tasks[t := pc'], e)
  {
    MoverIsExclusive(cfg, s, s.tasks[t], effect, pc', e);
  }

  lemma StaysUnchallenged(cfg: Config, s: State, t: nat, effect: Effect, pc': Pc, e: Entry)
    requires Separate(s) && Inv(cfg, s) && t in s.tasks
    requires QuietFollows(cfg, s, s.tasks[t], effect, pc') && e in s.latches && Unchallenged(s, e)
    requires !(effect.Remove? && effect.entry == e)
    ensures Unchallenged(Goto(Perform(cfg, s, effect), t, pc'), e)
  {
    StaysExclusive(cfg, s, t, effect, pc', e);
    OnlyOwnerRemoves(cfg, s, s.tasks[t], effect, pc', t, e);
  }

  lemma NewIsUnchallenged(cfg: Config, s: State, t: nat, e: Entry, pc': Pc)
    requires Inv(cfg, s) && StoreQuiet(s) && t in s.tasks
    requires QuietFollows(cfg, s, s.tasks[t], ReapInsert(e), pc')
    requires pc'.With? ==> pc'.entry == e
    requires !Live(s, e)
    ensures Unchallenged(Goto(Perform(cfg, s, ReapInsert(e)), t, pc'), e)
  {
    forall u | u in s.tasks && s.tasks[u].With? ensures s.tasks[u].entry.info.podName != e.info.podName {
      assert TaskInv(s, s.tasks[u]);
    }
  }

  lemma LiveStays(cfg: Config, s: State, pc: Pc, effect: Effect, pc': Pc, t: nat, e: Entry)
    requires QuietEffect(cfg, s, pc, effect, pc') && Live(s, e)
    ensures Live(Goto(Perform(cfg, s, effect), t, pc'), e)
  {
  }

  /** The store after a quiet step, entry by entry. */
  lemma PendingOrLive(cfg: Config, s: State, t: nat, effect: Effect, pc': Pc, e: Entry)
    requires Separate(s) && Inv(cfg, s) && QuietInv(s) && t in s.tasks
    requires QuietFollows(cfg, s, s.tasks[t], effect, pc')
    requires e in Perform(cfg, s, effect).latches
    ensures var s' := Goto(Perform(cfg, s, effect), t, pc'); e.info.id in s'.pending || Live(s', e)
  {
    assert TaskInv(s, s.tasks[t]) && TaskQuiet(s, s.tasks[t]);
  }

  lemma OwnedOrLive(cfg: Config, s: State, t: nat, effect: Effect, pc': Pc, e: Entry)
    requires Separate(s) && Inv(cfg, s) && QuietInv(s) && t in s.tasks
    requires QuietFollows(cfg, s, s.tasks[t], effect, pc')
    requires e in s.latches && (Owns(s, e) || Live(s, e))
    ensures var s' := Goto(Perform(cfg, s, effect), t, pc'); Owns(s', e) || Live(s', e)
  {
    assert TaskInv(s, s.tasks[t]) && TaskQuiet(s, s.tasks[t]);
    if Live(s, e) { LiveStays(cfg, s, s.tasks[t], effect, pc', t, e); }
    else { OnlyOwnerRemoves(cfg, s, s.tasks[t], effect, pc', t, e); }
  }

  lemma ClaimKept(cfg: Config, s: State, t: nat, effect: Effect, pc': Pc, e: Entry)
    requires Separate(s) && Inv(cfg, s) && QuietInv(s) && t in s.tasks
    requires QuietFollows(cfg, s, s.tasks[t], effect, pc') && e in s.claimed
    requires Evolves(s, Goto(Perform(cfg, s, effect), t, pc'))
    ensures var s' := Goto(Perform(cfg, s, effect), t, pc');
            (e in s'.latches && s'.latches[e] != Waiting) || Unchallenged(s', e)
  {
    if s.latches[e] == Waiting {
      assert TaskInv(s, s.tasks[t]);
      StaysUnchallenged(cfg, s, t, effect, pc', e);
    }
  }

  /** A 201 is only given to an entry that still owns its name, or whose name is live. */
  lemma NewAcceptance(cfg: Config, s: State, t: nat, effect: Effect, pc': Pc)
    requires Separate(s) && Inv(cfg, s) && QuietInv(s) && t in s.tasks
    requires QuietFollows(cfg, s, s.tasks[t], effect, pc')
    requires pc'.Finished? && pc'.outcome.Accepted?
    ensures var s', e := Goto(Perform(cfg, s, effect), t, pc'), pc'.outcome.entry;
            && (Unchallenged(s', e) || (Live(s', e) && effect.ReapInsert?))
            && (e in s'.claimed <==> !Live(s', e) || e in s.claimed)
            && s'.accepted == s.accepted + [e]
  {
    var e := pc'.outcome.entry;
    assert TaskInv(s, s.tasks[t]) && TaskQuiet(s, s.tasks[t]);
    if effect == Silent {
      StaysUnchallenged(cfg, s, t, effect, pc', e);
    } else if !Live(s, e) {
      NewIsUnchallenged(cfg, s, t, e, pc');
    }
  }

  lemma AcceptedNext(cfg: Config, s: State, t: nat, effect: Effect, pc': Pc, e: Entry)
    requires Separate(s) && Inv(cfg, s) && QuietInv(s) && t in s.tasks
    requires QuietFollows(cfg, s, s.tasks[t], effect, pc')
    requires e in Goto(Perform(cfg, s, effect), t, pc').accepted
    ensures var s' := Goto(Perform(cfg, s, effect), t, pc');
            && (Owns(s', e) || Live(s', e))
            && (e in s'.claimed || Live(s', e))
            && (e.info.dockerName != "" ==> e in s'.claimed)
  {
    if e in s.accepted {
      OwnedOrLive(cfg, s, t, effect, pc', e);
      if Live(s, e) { LiveStays(cfg, s, s.tasks[t], effect, pc', t, e); }
    } else {
      NewAcceptance(cfg, s, t, effect, pc');
    }
  }

  lemma ClaimedNext(cfg: Config, s: State, t: nat, effect: Effect, pc': Pc, e: Entry)
    requires Separate(s) && Inv(cfg, s) && QuietInv(s) && t in s.tasks
    requires QuietFollows(cfg, s, s.tasks[t], effect, pc')
    requires Evolves(s, Goto(Perform(cfg, s, effect), t, pc'))
    requires e in Goto(Perform(cfg, s, effect), t, pc').claimed
    ensures var s' := Goto(Perform(cfg, s, effect), t, pc');
            (e in s'.latches && s'.latches[e] != Waiting) || Unchallenged(s', e)
  {
    if e in s.claimed { ClaimKept(cfg, s, t, effect, pc', e); } else { NewAcceptance(cfg, s, t, effect, pc'); }
  }

  lemma StoreQuietNext(cfg: Config, s: State, t: nat, effect: Effect, pc': Pc)
    requires Separate(s) && Inv(cfg, s) && QuietInv(s) && t in s.tasks
    requires QuietFollows(cfg, s, s.tasks[t], effect, pc')
    requires Evolves(s, Goto(Perform(cfg, s, effect), t, pc'))
    ensures StoreQuiet(Goto(Perform(cfg, s, effect), t, pc'))
  {
    var s' := Goto(Perform(cfg, s, effect), t, pc');
    forall e | e in s'.latches ensures e.info.id in s'.pending || Live(s', e) {
      PendingOrLive(cfg, s, t, effect, pc', e);
    }
    forall e | e in s'.accepted
      ensures Owns(s', e) || Live(s', e)
      ensures e in s'.claimed || Live(s', e)
      ensures e.info.dockerName != "" ==> e in s'.claimed
    {
      AcceptedNext(cfg, s, t, effect, pc', e);
    }
    forall e | e in s'.claimed
      ensures (e in s'.latches && s'.latches[e] != Waiting) || Unchallenged(s', e)
    {
      ClaimedNext(cfg, s, t, effect, pc', e);
    }
  }

  lemma NameIsNew(cfg: Config, s: State, t: nat, effect: Effect, pc': Pc, earlier: Entry)
    requires Inv(cfg, s) && StoreQuiet(s) && t in s.tasks && TaskQuiet(s, s.tasks[t])
    requires QuietFollows(cfg, s, s.tasks[t], effect, pc')
    requires pc'.Finished? && pc'.outcome.Accepted? && pc'.outcome.entry.info.dockerName != ""
    requires earlier in s.accepted
    ensures earlier.info.podName != pc'.outcome.entry.info.podName
  {
    var e := pc'.outcome.entry;
    assert TaskInv(s, s.tasks[t]);
    assert Owns(s, e) && !Live(s, e) && e in s.latches;
    assert earlier in s.latches && (Owns(s, earlier) || Live(s, earlier));
  }

  lemma AppendClaim(s: State, s': State, e: Entry)
    requires FirstClaims(s) && s'.accepted == s.accepted + [e]
    requires e.info.dockerName != "" ==>
               forall earlier :: earlier in s.accepted ==> earlier.info.podName != e.info.podName
    ensures FirstClaims(s')
  {
  }

  lemma FirstClaimsNext(cfg: Config, s: State, t: nat, effect: Effect, pc': Pc)
    requires Inv(cfg, s) && QuietInv(s) && t in s.tasks
    requires QuietFollows(cfg, s, s.tasks[t], effect, pc')
    ensures FirstClaims(Goto(Perform(cfg, s, effect), t, pc'))
  {
    var s' := Goto(Perform(cfg, s, effect), t, pc');
    if pc'.Finished? && pc'.outcome.Accepted? {
      var e := pc'.outcome.entry;
      forall earlier | e.info.dockerName != "" && earlier in s.accepted ensures earlier.info.podName != e.info.podName {
        NameIsNew(cfg, s, t, effect, pc', earlier);
      }
      AppendClaim(s, s', e);
    } else {
      assert s'.accepted == s.accepted;
    }
  }

  lemma OtherTaskQuiet(cfg: Config, s: State, t: nat, effect: Effect, pc': Pc, u: nat)
    requires Separate(s) && Inv(cfg, s) && QuietInv(s) && t in s.tasks && u in s.tasks && u != t
    requires QuietFollows(cfg, s, s.tasks[t], effect, pc')
    ensures TaskQuiet(Goto(Perform(cfg, s, effect), t, pc'), s.tasks[u])
  {
    var pc, s' := s.tasks[u], Goto(Perform(cfg, s, effect), t, pc');
    assert TaskInv(s, pc) && TaskQuiet(s, pc) && TaskInv(s, s.tasks[t]) && TaskQuiet(s, s.tasks[t]);
    assert forall e :: Live(s, e) ==> Live(s', e);
    if pc.With? && pc.stage == CheckPod && !Live(s, pc.entry) {
      StaysUnchallenged(cfg, s, t, effect, pc', pc.entry);
    }
  }

  lemma MovingLive(cfg: Config, s: State, t: nat, effect: Effect, pc': Pc)
    requires t in s.tasks && TaskQuiet(s, s.tasks[t])
    requires QuietFollows(cfg, s, s.tasks[t], effect, pc') && pc'.With?
    ensures pc'.stage in {RollBack, MarkStarted, DropStarted, MarkFailed, DropFailed} ==>
      Live(Goto(Perform(cfg, s, effect), t, pc'), pc'.entry)
    ensures pc'.stage != DropRemoved
    ensures pc'.stage == CheckPod ==> effect == ReapInsert(pc'.entry)
  {
  }

  lemma MovingTaskQuiet(cfg: Config, s: State, t: nat, effect: Effect, pc': Pc)
    requires Inv(cfg, s) && QuietInv(s) && t in s.tasks
    requires QuietFollows(cfg, s, s.tasks[t], effect, pc')
    requires pc'.With? || pc'.DeletePod? || pc'.Reserve? || pc'.Lookup?
    ensures TaskQuiet(Goto(Perform(cfg, s, effect), t, pc'), pc')
  {
    if pc'.With? {
      MovingLive(cfg, s, t, effect, pc');
      if pc'.stage == CheckPod && !Live(s, pc'.entry) {
        NewIsUnchallenged(cfg, s, t, pc'.entry, pc');
      }
    }
  }

  lemma LookupTaskQuiet(cfg: Config, s: State, t: nat, effect: Effect, pc': Pc)
    requires Inv(cfg, s) && QuietInv(s) && t in s.tasks
    requires QuietFollows(cfg, s, s.tasks[t], effect, pc') && (pc'.FindGet? || pc'.FindList?)
    requires Evolves(s, Goto(Perform(cfg, s, effect), t, pc'))
    ensures TaskQuiet(Goto(Perform(cfg, s, effect), t, pc'), pc')
  {
    assert TaskQuiet(s, s.tasks[t]);
    forall e | e in pc'.known && e.info.id == pc'.ref ensures Live(s, e) {
      if pc'.FindGet? { assert e.info.id in s.pending || Live(s, e); }
    }
  }

  /** A lookup by the ID of a container accepted before it began does not end in 404. */
  lemma FinishedTaskQuiet(cfg: Config, s: State, t: nat, effect: Effect, pc': Pc)
    requires Separate(s) && Inv(cfg, s) && QuietInv(s) && t in s.tasks
    requires QuietFollows(cfg, s, s.tasks[t], effect, pc') && pc'.Finished?
    ensures TaskQuiet(Goto(Perform(cfg, s, effect), t, pc'), pc')
  {
    var pc := s.tasks[t];
    assert TaskQuiet(s, pc);
    if pc'.outcome.NotFound? {
      forall e | e in pc'.outcome.known ensures e.info.id != pc'.outcome.ref {
        assert e in s.latches && e.info.id == IdOf(cfg, e.info.podName);
        if pc'.outcome.ref != "" && Live(s, e) {
          assert !PodMatches(cfg, e.info.podName, s.pods[e.info.podName], pc.ref);
        }
      }
    }
  }

  lemma OthersQuiet(cfg: Config, s: State, t: nat, effect: Effect, pc': Pc, s': State)
    requires Separate(s) && Inv(cfg, s) && QuietInv(s) && t in s.tasks
    requires QuietFollows(cfg, s, s.tasks[t], effect, pc') && s' == Goto(Perform(cfg, s, effect), t, pc')
    ensures forall u :: u in s.tasks && u != t ==> TaskQuiet(s', s.tasks[u])
  {
    forall u | u in s.tasks && u != t ensures TaskQuiet(s', s.tasks[u]) {
      OtherTaskQuiet(cfg, s, t, effect, pc', u);
    }
  }

  lemma TasksQuietFrom(s: State, s': State, t: nat, pc': Pc)
    requires s'.tasks == s.tasks[t := pc'] && TaskQuiet(s', pc')
    requires forall u :: u in s.tasks && u != t ==> TaskQuiet(s', s.tasks[u])
    ensures TasksQuiet(s')
  {
  }

  lemma OwnTaskQuiet(cfg: Config, s: State, t: nat, effect: Effect, pc': Pc)
    requires Separate(s) && Inv(cfg, s) && QuietInv(s) && t in s.tasks
    requires QuietFollows(cfg, s, s.tasks[t], effect, pc')
    requires Evolves(s, Goto(Perform(cfg, s, effect), t, pc'))
    ensures TaskQuiet(Goto(Perform(cfg, s, effect), t, pc'), pc')
  {
    if pc'.Finished? { FinishedTaskQuiet(cfg, s, t, effect, pc'); }
    else if pc'.FindGet? || pc'.FindList? { LookupTaskQuiet(cfg, s, t, effect, pc'); }
    else { MovingTaskQuiet(cfg, s, t, effect, pc'); }
  }

  lemma TasksQuietNext(cfg: Config, s: State, t: nat, effect: Effect, pc': Pc)
    requires Separate(s) && Inv(cfg, s) && QuietInv(s) && t in s.tasks
    requires QuietFollows(cfg, s, s.tasks[t], effect, pc')
    requires Evolves(s, Goto(Perform(cfg, s, effect), t, pc'))
    ensures TasksQuiet(Goto(Perform(cfg, s, effect), t, pc'))
  {
    var s' := Goto(Perform(cfg, s, effect), t, pc');
    OwnTaskQuiet(cfg, s, t, effect, pc');
    OthersQuiet(cfg, s, t, effect, pc', s');
    TasksQuietFrom(s, s', t, pc');
  }

  lemma QuietTask(cfg: Config, s: State, t: nat, effect: Effect, pc': Pc)
    requires Separate(s) && Inv(cfg, s) && QuietInv(s) && t in s.tasks
    requires QuietFollows(cfg, s, s.tasks[t], effect, pc')
    requires Evolves(s, Goto(Perform(cfg, s, effect), t, pc'))
    ensures QuietInv(Goto(Perform(cfg, s, effect), t, pc'))
  {
    StoreQuietNext(cfg, s, t, effect, pc');
    FirstClaimsNext(cfg, s, t, effect, pc');
    TasksQuietNext(cfg, s, t, effect, pc');
  }

  /** Steps that only touch the pods, the clock or an arriving task. */
  lemma QuietOutside(s: State, s': State)
    requires QuietInv(s)
    requires s.pending == s'.pending && s.latches == s'.latches && s.accepted == s'.accepted && s.claimed == s'.claimed
    requires s.pods.Keys <= s'.pods.Keys
    requires forall t :: t in s.tasks ==> t in s'.tasks && s'.tasks[t] == s.tasks[t]
    requires forall t :: t in s'.tasks && t !in s.tasks ==>
               s'.tasks[t].Reserve? || s'.tasks[t].Lookup? || s'.tasks[t] == Finished(Rejected)
    ensures QuietInv(s')
  {
    assert forall e :: Live(s, e) ==> Live(s', e);
    assert forall e :: Unchallenged(s, e) ==> Unchallenged(s', e);
    forall t | t in s'.tasks ensures TaskQuiet(s', s'.tasks[t]) {
      if t in s.tasks { assert TaskQuiet(s, s.tasks[t]); }
    }
  }

  lemma QuietAllowed(cfg: Config, s: State, t: nat, effect: Effect, pc': Pc)
    requires Separate(s) && Inv(cfg, s) && QuietInv(s) && t in s.tasks
    requires Allowed(cfg, s, s.tasks[t], effect, pc') && Quiet(cfg, s, Run(t, effect, pc'))
    ensures QuietInv(Goto(Perform(cfg, s, effect), t, pc'))
  {
    assert TaskQuiet(s, s.tasks[t]);
    InvAllowed(cfg, s, t, effect, pc');
    RulesFollowQuietly(cfg, s, t, effect, pc');
    QuietTask(cfg, s, t, effect, pc');
  }

  lemma QuietArrive(s: State, t: nat, pc: Pc)
    requires QuietInv(s) && t !in s.tasks && (pc.Reserve? || pc.Lookup? || pc == Finished(Rejected))
    ensures QuietInv(Goto(s, t, pc))
  {
    QuietOutside(s, Goto(s, t, pc));
  }

  lemma QuietElsewhere(cfg: Config, s: State, a: Action)
    requires QuietInv(s) && Next(cfg, s, a).Some? && Quiet(cfg, s, a) && !a.Run?
    ensures QuietInv(Next(cfg, s, a).value)
  {
    match a
    case ListPending => NoReap(cfg, s);
    case ArriveCreate(t, req) => QuietArrive(s, t, AfterBuild(cfg, req, s.now));
    case ArriveLookup(t, op, ref) => QuietArrive(s, t, Lookup(op, ref));
    case Cluster(pods) => QuietOutside(s, s.(pods := pods));
    case Tick(now) => QuietOutside(s, s.(now := now));
  }

  lemma QuietNext(cfg: Config, s: State, a: Action)
    requires Separate(s) && Inv(cfg, s) && QuietInv(s) && Next(cfg, s, a).Some? && Quiet(cfg, s, a)
    ensures QuietInv(Next(cfg, s, a).value)
  {
    if a.Run? {
      QuietAllowed(cfg, s, a.task, a.effect, a.pc);
    } else {
      QuietElsewhere(cfg, s, a);
    }
  }

  // ---- the names of a run ----

  /** The pod names that the create requests of a run ask for. */
  function PodNames(cfg: Config, acts: seq<Action>): set<string>
  {
    set i | 0 <= i < |acts| && acts[i].ArriveCreate? && PodNameFor(cfg, acts[i].req).Ok? ::
      PodNameFor(cfg, acts[i].req).value
  }

  /** IDs are hex digests, and no two pod names that the run asks for share one. */
  ghost predicate SoundIds(cfg: Config, acts: seq<Action>)
  {
    Ids.IsDigest(cfg.digest) && Ids.Separates(cfg.digest, cfg.namespace, PodNames(cfg, acts))
  }

  lemma SeparateNames(cfg: Config, s: State, names: set<string>, rule: LifecycleRuns.NameRule)
    requires StoreInv(cfg, s) && LifecycleRuns.Named(rule, s)
    requires forall dockerName, podName :: rule(dockerName, podName) ==> podName in names
    requires Ids.IsDigest(cfg.digest) && Ids.Separates(cfg.digest, cfg.namespace, names)
    ensures Separate(s)
  {
    forall e | e in s.latches
      ensures e.info.id != "" && e.info.podName in names && e.info.id == IdOf(cfg, e.info.podName)
    {
      assert rule(e.info.dockerName, e.info.podName);
      assert Ids.IsContainerID(IdOf(cfg, e.info.podName));
    }
  }

  lemma RunSeparate(cfg: Config, run: seq<State>, acts: seq<Action>, i: nat)
    requires SoundIds(cfg, acts) && IsRun(cfg, run, acts) && i < |run|
    ensures Separate(run[i])
  {
    var names := PodNames(cfg, acts);
    var rule: LifecycleRuns.NameRule := (dockerName, podName) => podName in names;
    LifecycleRuns.RunFollows(cfg, rule, run, acts, i);
    LifecycleRuns.RunInv(cfg, run, acts, i);
    SeparateNames(cfg, run[i], names, rule);
  }

  lemma RunQuiet(cfg: Config, run: seq<State>, acts: seq<Action>, i: nat)
    requires SoundIds(cfg, acts) && IsQuietRun(cfg, run, acts) && i < |run|
    ensures Inv(cfg, run[i]) && QuietInv(run[i])
  {
    var step := StepOf(cfg);
    var allowed := (s: State, a: Action) => Quiet(cfg, s, a) && Separate(s);
    forall s, a | Inv(cfg, s) && QuietInv(s) && allowed(s, a) && step(s, a).Some?
      ensures Inv(cfg, step(s, a).value) && QuietInv(step(s, a).value)
    {
      InvNext(cfg, s, a);
      QuietNext(cfg, s, a);
    }
    forall j | 0 <= j < |acts| ensures allowed(run[j], acts[j]) {
      RunSeparate(cfg, run, acts, j);
    }
    Runs.Invariant(Init, step, allowed, s => Inv(cfg, s) && QuietInv(s), run, acts, i);
  }

  // ---- the promises ----

  /**
   * No named /create answers 201 once any /create of the same pod name has: so at most one named /create per
   * pod name does, and it comes first.
   */
  lemma AtMostOneNamedCreate(cfg: Config, run: seq<State>, acts: seq<Action>, n: nat, i: nat, j: nat)
    requires SoundIds(cfg, acts) && IsQuietRun(cfg, run, acts) && n < |run|
    requires i < j < |run[n].accepted| && run[n].accepted[i].info.podName == run[n].accepted[j].info.podName
    ensures run[n].accepted[j].info.dockerName == ""
  {
    RunQuiet(cfg, run, acts, n);
  }

  /** Between reserve and Get, a /create owns its ID in the pending store or the pod is already live. */
  lemma ReservationOwnsOrLive(cfg: Config, run: seq<State>, acts: seq<Action>, n: nat, t: nat, e: Entry)
    requires SoundIds(cfg, acts) && IsQuietRun(cfg, run, acts) && n < |run|
    requires t in run[n].tasks && run[n].tasks[t] == With(e, CheckPod)
    ensures Owns(run[n], e) || Live(run[n], e)
  {
    RunQuiet(cfg, run, acts, n);
    assert TaskQuiet(run[n], run[n].tasks[t]);
  }

  /** From its 201 on, a container is in every state pending as itself or live. */
  lemma AcceptedStaysVisible(cfg: Config, run: seq<State>, acts: seq<Action>, i: nat, j: nat, e: Entry)
    requires SoundIds(cfg, acts) && IsQuietRun(cfg, run, acts) && i <= j < |run| && e in run[i].accepted
    ensures Owns(run[j], e) || Live(run[j], e)
  {
    LifecycleRuns.RunEvolves(cfg, run, acts, i, j);
    RunQuiet(cfg, run, acts, j);
  }

  /** The two-step lookup by full ID never answers 404 for a container accepted before the lookup began. */
  lemma LookupNeverLosesAccepted(cfg: Config, run: seq<State>, acts: seq<Action>, n: nat, t: nat,
                                 ref: string, known: seq<Entry>, e: Entry)
    requires SoundIds(cfg, acts) && IsQuietRun(cfg, run, acts) && n < |run|
    requires t in run[n].tasks && run[n].tasks[t] == Finished(NotFound(ref, known)) && e in known
    ensures e.info.id != ref
  {
    RunQuiet(cfg, run, acts, n);
    assert TaskQuiet(run[n], run[n].tasks[t]);
  }

  /**
   * No waiter is lost: an entry accepted under a --name, or under a generated name no live pod had, is pending
   * as itself until its latch is decided.
   */
  lemma NoWaiterLost(cfg: Config, run: seq<State>, acts: seq<Action>, n: nat, e: Entry)
    requires SoundIds(cfg, acts) && IsQuietRun(cfg, run, acts) && n < |run|
    requires e in run[n].accepted && (e.info.dockerName != "" || e in run[n].claimed)
    ensures e in run[n].latches && (Owns(run[n], e) || run[n].latches[e] != Waiting)
  {
    RunQuiet(cfg, run, acts, n);
  }
}
