/** What the handlers of internal/server/containers.go do step by step, and leave when nothing disturbs them. */
module Handlers {
  import opened Common
  import opened PendingSpec
  import opened Lifecycle
  import LifecycleRuns
  import Runs
  import Ids

  // ---- who decides a latch, and how ----

  /** The reasons a waiter sees, by the operation that decides first. */
  lemma MarkStep(cfg: Config, s: State, e: Entry, stage: Stage, effect: Effect, pc': Pc)
    requires stage == MarkStarted || stage == MarkFailed || stage == MarkRemoved
    requires Allowed(cfg, s, With(e, stage), effect, pc') && e in s.latches
    ensures var latches := Perform(cfg, s, effect).latches;
      && latches.Keys == s.latches.Keys
      && (forall x :: x in s.latches && x != e ==> latches[x] == s.latches[x])
      && (s.latches[e] != Waiting ==> latches[e] == s.latches[e])
      && (s.latches[e] == Waiting && stage == MarkStarted ==> latches[e] == Started)
      && (s.latches[e] == Waiting && stage == MarkFailed ==> latches[e] == Failed(CreateFailed))
      && (s.latches[e] == Waiting && stage == MarkRemoved ==> latches[e] == Failed(PendingRemoved))
  {
  }

  /** A reap drops the entries older than the lifetime and tells their waiters so; the others it leaves alone. */
  lemma ReapStep(cfg: Config, s: State, k: string)
    requires StoreInv(cfg, s) && k in s.pending
    ensures var r, e := Reaped(cfg, s), s.pending[k];
      if cfg.ttl > 0 && s.now - e.info.createdAt > cfg.ttl then
        && k !in r.pending && e in r.latches
        && r.latches[e] == if s.latches[e] == Waiting then Failed(PendingExpired) else s.latches[e]
      else k in r.pending && r.pending[k] == e && e in r.latches && r.latches[e] == s.latches[e]
  {
    var kept := Kept(cfg, s);
    assert s.pending[k] in s.pending.Values;
    assert k !in kept ==> s.pending[k] !in kept.Values;
    assert k in kept ==> s.pending[k] in kept.Values;
  }

  /** A waiter reports the decision of its entry's latch, and before there is one only that its context is done. */
  lemma WaiterAnswers(cfg: Config, s: State, e: Entry, effect: Effect, pc': Pc)
    requires Allowed(cfg, s, With(e, AwaitLatch), effect, pc') && e in s.latches
    ensures pc' == Finished(WaitTimeout)
      || (s.latches[e] == Started && pc' == Finished(WaitOk(e)))
      || (exists reason :: s.latches[e] == Failed(reason) && pc' == Finished(WaitFailed(e, reason)))
  {
  }

  /** What a waiter has reported is the decision for good. */
  lemma WaitersAreRight(cfg: Config, run: seq<State>, acts: seq<Action>, i: nat, j: nat, t: nat, e: Entry)
    requires IsRun(cfg, run, acts) && i <= j < |run| && t in run[i].tasks
    ensures run[i].tasks[t] == Finished(WaitOk(e)) ==> e in run[j].latches && run[j].latches[e] == Started
    ensures forall reason :: run[i].tasks[t] == Finished(WaitFailed(e, reason)) ==>
      e in run[j].latches && run[j].latches[e] == Failed(reason)
  {
    LifecycleRuns.RunInv(cfg, run, acts, i);
    LifecycleRuns.RunEvolves(cfg, run, acts, i, j);
    assert TaskInv(run[i], run[i].tasks[t]);
  }

  /** The step that fails the waiters of `e` for this reason. */
  ghost predicate Fails(cfg: Config, s: State, a: Action, e: Entry, reason: Failure)
  {
    match reason
    case CreateFailed => a.Run? && a.task in s.tasks && s.tasks[a.task] == With(e, MarkFailed)
    case PendingRemoved => a.Run? && a.task in s.tasks && s.tasks[a.task] == With(e, MarkRemoved)
    case PendingExpired => cfg.ttl > 0 && s.now - e.info.createdAt > cfg.ttl && e in s.pending.Values
  }

  lemma ReapFails(cfg: Config, s: State, e: Entry, reason: Failure)
    requires StoreInv(cfg, s) && e in Reaped(cfg, s).latches && Reaped(cfg, s).latches[e] == Failed(reason)
    ensures e in s.latches && (s.latches[e] == Failed(reason) || (reason == PendingExpired && e in s.pending.Values
      && cfg.ttl > 0 && s.now - e.info.createdAt > cfg.ttl))
  {
    var kept := Kept(cfg, s);
    if e in s.pending.Values && e !in kept.Values {
      var k :| k in s.pending && s.pending[k] == e;
      assert k !in kept;
    }
  }

  lemma EffectFails(cfg: Config, s: State, pc: Pc, effect: Effect, pc': Pc, e: Entry, reason: Failure)
    requires StoreInv(cfg, s) && Allowed(cfg, s, pc, effect, pc')
    requires var latches := Perform(cfg, s, effect).latches; e in latches && latches[e] == Failed(reason)
    ensures (e in s.latches && s.latches[e] == Failed(reason))
      || (reason == CreateFailed && pc == With(e, MarkFailed))
      || (reason == PendingRemoved && pc == With(e, MarkRemoved))
      || (reason == PendingExpired && e in s.pending.Values && cfg.ttl > 0 && s.now - e.info.createdAt > cfg.ttl)
  {
    if effect.Reap? || effect.ReapInsert? {
      if e in Reaped(cfg, s).latches && Reaped(cfg, s).latches[e] == Failed(reason) {
        ReapFails(cfg, s, e, reason);
      }
    } else if effect.Decide? {
      assert pc.With? && effect.entry == pc.entry;
    }
  }

  lemma StepFails(cfg: Config, s: State, a: Action, e: Entry, reason: Failure)
    requires StoreInv(cfg, s) && Next(cfg, s, a).Some?
    requires var s' := Next(cfg, s, a).value; e in s'.latches && s'.latches[e] == Failed(reason)
    ensures (e in s.latches && s.latches[e] == Failed(reason)) || Fails(cfg, s, a, e, reason)
  {
    if a.Run? {
      EffectFails(cfg, s, s.tasks[a.task], a.effect, a.pc, e, reason);
    } else if a.ListPending? {
      ReapFails(cfg, s, e, reason);
    }
  }

  /** In every run a failed latch was failed by an operation of just that kind on that entry. */
  lemma {:induction false} FailureHasCause(
      cfg: Config, run: seq<State>, acts: seq<Action>, i: nat, e: Entry, reason: Failure)
    requires IsRun(cfg, run, acts) && i < |run| && e in run[i].latches && run[i].latches[e] == Failed(reason)
    ensures exists j :: 0 <= j < i && Fails(cfg, run[j], acts[j], e, reason)
  {
    assert i > 0;
    LifecycleRuns.RunInv(cfg, run, acts, i - 1);
    assert Runs.StepAt(StepOf(cfg), run, acts, i - 1);
    StepFails(cfg, run[i - 1], acts[i - 1], e, reason);
    if !Fails(cfg, run[i - 1], acts[i - 1], e, reason) {
      FailureHasCause(cfg, run, acts, i - 1, e, reason);
    }
  }

  // ---- handlers that run undisturbed ----

  /** The steps are all of task `t`. */
  predicate Undisturbed(cfg: Config, t: nat, run: seq<State>, acts: seq<Action>)
  {
    && |run| == |acts| + 1
    && forall i :: 0 <= i < |acts| ==> Runs.StepAt(StepOf(cfg), run, acts, i) && acts[i].Run? && acts[i].task == t
  }

  lemma OneStep(cfg: Config, t: nat, run: seq<State>, acts: seq<Action>, i: nat)
    requires Undisturbed(cfg, t, run, acts) && i < |acts|
    ensures t in run[i].tasks && Allowed(cfg, run[i], run[i].tasks[t], acts[i].effect, acts[i].pc)
    ensures run[i + 1] == Goto(Perform(cfg, run[i], acts[i].effect), t, acts[i].pc)
  {
    assert Runs.StepAt(StepOf(cfg), run, acts, i);
  }

  /** `s'` is `s` but for the latch of `e`, which is decided if it was not. */
  predicate Decided(s: State, s': State, e: Entry, decision: Latch)
  {
    && s'.latches.Keys == s.latches.Keys && e in s.latches
    && (forall x :: x in s.latches && x != e ==> s'.latches[x] == s.latches[x])
    && s'.latches[e] == if s.latches[e] == Waiting then decision else s.latches[e]
  }

  /** Deciding the latch and removing the entry, the end of every handler that takes a container out of the store. */
  lemma MarkAndDrop(cfg: Config, t: nat, run: seq<State>, acts: seq<Action>, i: nat, e: Entry, stage: Stage)
    requires Undisturbed(cfg, t, run, acts) && i + 2 == |acts| && e in run[i].latches
    requires stage == MarkStarted || stage == MarkFailed || stage == MarkRemoved
    requires t in run[i].tasks && run[i].tasks[t] == With(e, stage)
    ensures var s, s' := run[i], run[i + 2];
      && s'.pods == s.pods && s'.pending == s.pending - {e.info.id}
      && (stage == MarkStarted ==> Decided(s, s', e, Started) && s'.tasks == s.tasks[t := Finished(StartedPod(e))])
      && (stage == MarkFailed ==>
            Decided(s, s', e, Failed(CreateFailed)) && s'.tasks == s.tasks[t := Finished(ServerError)])
      && (stage == MarkRemoved ==>
            Decided(s, s', e, Failed(PendingRemoved)) && s'.tasks == s.tasks[t := Finished(Removed)])
  {
    OneStep(cfg, t, run, acts, i);
    MarkStep(cfg, run[i], e, stage, acts[i].effect, acts[i].pc);
    OneStep(cfg, t, run, acts, i + 1);
  }

  /** A start whose pods.Create succeeds: the pod is live, the waiters know, and nothing is pending under its ID. */
  lemma StartSucceeds(cfg: Config, t: nat, run: seq<State>, acts: seq<Action>, e: Entry)
    requires Undisturbed(cfg, t, run, acts) && |acts| == 3 && e in run[0].latches
    requires t in run[0].tasks && run[0].tasks[t] == With(e, CreatePod) && acts[0].effect != Silent
    ensures var s, s' := run[0], run[3];
      && e.info.podName !in s.pods && s'.pods == s.pods[e.info.podName := e.info.dockerName]
      && s'.pending == s.pending - {e.info.id} && Decided(s, s', e, Started)
      && s'.tasks == s.tasks[t := Finished(StartedPod(e))]
  {
    OneStep(cfg, t, run, acts, 0);
    MarkAndDrop(cfg, t, run, acts, 1, e, MarkStarted);
  }

  /** A start whose pods.Create fails. */
  lemma StartFails(cfg: Config, t: nat, run: seq<State>, acts: seq<Action>, e: Entry)
    requires Undisturbed(cfg, t, run, acts) && |acts| == 3 && e in run[0].latches
    requires t in run[0].tasks && run[0].tasks[t] == With(e, CreatePod) && acts[0].effect == Silent
    ensures var s, s' := run[0], run[3];
      && s'.pods == s.pods && s'.pending == s.pending - {e.info.id} && Decided(s, s', e, Failed(CreateFailed))
      && s'.tasks == s.tasks[t := Finished(ServerError)]
  {
    OneStep(cfg, t, run, acts, 0);
    MarkAndDrop(cfg, t, run, acts, 1, e, MarkFailed);
  }

  /** An rm, stop or kill of a pending container. */
  lemma RemoveSucceeds(cfg: Config, t: nat, run: seq<State>, acts: seq<Action>, e: Entry)
    requires Undisturbed(cfg, t, run, acts) && |acts| == 2 && e in run[0].latches
    requires t in run[0].tasks && run[0].tasks[t] == With(e, MarkRemoved)
    ensures var s, s' := run[0], run[2];
      && s'.pods == s.pods && s'.pending == s.pending - {e.info.id} && Decided(s, s', e, Failed(PendingRemoved))
      && s'.tasks == s.tasks[t := Finished(Removed)]
  {
    MarkAndDrop(cfg, t, run, acts, 0, e, MarkRemoved);
  }

  /** What a create that reserves puts into the store: the ID is the hash of namespace and pod name. */
  lemma ReservedEntry(
      cfg: Config, s: State, dockerName: string, podName: string, createdAt: int, effect: Effect, pc': Pc)
    requires Allowed(cfg, s, Reserve(dockerName, podName, createdAt), effect, pc') && effect.ReapInsert?
    ensures effect.entry.info == Info(cfg.digest(cfg.namespace + "/" + podName), dockerName, podName, createdAt)
    ensures effect.entry.info.id !in Kept(cfg, s)
    ensures dockerName != "" ==> forall k :: k in Kept(cfg, s) ==>
      k != dockerName && s.pending[k].info.podName != dockerName && s.pending[k].info.dockerName != dockerName
    ensures pc' == if dockerName == "" then Finished(Accepted(effect.entry)) else With(effect.entry, CheckPod)
  {
    if dockerName != "" {
      forall k | k in Kept(cfg, s)
        ensures k != dockerName && !Matches(k, InfoOf(Kept(cfg, s)[k]), dockerName)
      {
      }
    }
  }

  /** A named create, with an accurate Get: answered 201 and pending when no pod has the name, else rolled back. */
  lemma NamedCreate(cfg: Config, t: nat, run: seq<State>, acts: seq<Action>, e: Entry)
    requires Undisturbed(cfg, t, run, acts) && t in run[0].tasks && run[0].tasks[t] == With(e, CheckPod)
    requires |acts| > 0
    requires acts[0].pc == if e.info.podName in run[0].pods then With(e, RollBack) else Finished(Accepted(e))
    requires |acts| == if e.info.podName in run[0].pods then 2 else 1
    ensures var s, s' := run[0], run[|acts|];
      if e.info.podName in s.pods then
        && s'.pending == s.pending - {e.info.id} && s'.accepted == s.accepted
        && s'.tasks == s.tasks[t := Finished(Conflict)]
      else s'.pending == s.pending && s'.accepted == s.accepted + [e] && e in s'.claimed
  {
    OneStep(cfg, t, run, acts, 0);
    if |acts| == 2 {
      OneStep(cfg, t, run, acts, 1);
    }
  }

  /** What a handler does with a pending container it has found, and that it asks the apiserver when it found none. */
  lemma LookupLeads(cfg: Config, s: State, op: Op, ref: string, effect: Effect, pc': Pc)
    requires Allowed(cfg, s, Lookup(op, ref), effect, pc')
    ensures pc'.With? ==>
      && pc'.entry in Kept(cfg, s).Values
      && (op == OpStart <==> pc'.stage == CreatePod)
      && (op == OpRemove <==> pc'.stage == MarkRemoved)
      && (op == OpWait <==> pc'.stage == AwaitLatch)
    ensures !pc'.With? ==> !SomeMatch(Kept(cfg, s), InfoOf, ref)
    ensures !pc'.With? && ref != "" ==> pc' == FindGet(op, ref, s.accepted)
  {
  }

  /** A pod that FindByID found: rm, stop and kill go on to delete it, the others go on with it. */
  predicate IsFoundPod(op: Op, pc: Pc, name: string)
  {
    if op == OpRemove then pc == DeletePod(name) else pc == Finished(Found(name))
  }

  lemma ListFinds(cfg: Config, s: State, op: Op, ref: string, known: seq<Entry>, pc: Pc)
    requires ListRule(cfg, s, op, ref, known, pc) && pc != Finished(ServerError) && ref !in s.pods
    ensures
      || (exists n :: LifecycleRuns.FindByID(cfg, s.pods, ref, n) && IsFoundPod(op, pc, n))
      || (pc == Finished(NotFound(ref, known)) && forall n :: !LifecycleRuns.FindByID(cfg, s.pods, ref, n))
  {
    if pc != Finished(NotFound(ref, known)) {
      var n := NameIn(pc);
      assert LifecycleRuns.FindByID(cfg, s.pods, ref, n) && IsFoundPod(op, pc, n);
    }
  }

  /** The two calls of FindByID, when both answer accurately and no pod changes in between. */
  lemma FindRuns(cfg: Config, t: nat, run: seq<State>, acts: seq<Action>, op: Op, ref: string, known: seq<Entry>)
    requires Undisturbed(cfg, t, run, acts) && t in run[0].tasks && run[0].tasks[t] == FindGet(op, ref, known)
    requires |acts| == (if ref in run[0].pods then 1 else 2)
    requires |acts| == 1 ==> !acts[0].pc.FindList?
    requires acts[|acts| - 1].pc != Finished(ServerError)
    ensures var pc := acts[|acts| - 1].pc;
      || (exists n :: LifecycleRuns.FindByID(cfg, run[0].pods, ref, n) && IsFoundPod(op, pc, n))
      || (pc == Finished(NotFound(ref, known)) && forall n :: !LifecycleRuns.FindByID(cfg, run[0].pods, ref, n))
  {
    OneStep(cfg, t, run, acts, 0);
    if |acts| == 1 {
      assert IsFoundPod(op, acts[0].pc, ref);
    } else {
      assert acts[0].pc == FindList(op, ref, known);
      OneStep(cfg, t, run, acts, 1);
      ListFinds(cfg, run[1], op, ref, known, acts[1].pc);
    }
  }

  /** A delete that the apiserver accepts removes that pod and no other. */
  lemma DeleteRuns(cfg: Config, s: State, name: string, effect: Effect, pc': Pc)
    requires Allowed(cfg, s, DeletePod(name), effect, pc') && effect != Silent
    ensures Perform(cfg, s, effect) == s.(pods := s.pods - {name})
  {
  }
}
