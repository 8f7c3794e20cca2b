/**
 * The polling loops over a pod's status: waitForExit (internal/server/containers.go) and WaitForReady
 * (internal/k8s/pods.go). A sequence of polls is any finite beginning of the stream of samples a loop would see;
 * a result of None means that the loop is still polling at its end.
 */
module Polling {
  import opened Common

  datatype Phase = Pending | Running | Succeeded | Failed | Unknown

  datatype Waiting = Waiting(reason: string, message: string)

  datatype Termination = Termination(exitCode: int, finishedAt: int)

  datatype ContainerStatus = ContainerStatus(waiting: Option<Waiting>, terminated: Option<Termination>)

  datatype Condition = Condition(kind: string, status: string)

  datatype Pod = Pod(phase: Phase, statuses: seq<ContainerStatus>, conditions: seq<Condition>)

  /** What the apiserver answers to a Get. */
  datatype Sample = Found(pod: Pod) | NotFound | GetFailed

  /** The first container's terminated state: terminationOf. */
  function FirstTerminated(statuses: seq<ContainerStatus>): Option<Termination>
  {
    if statuses == [] then None
    else if statuses[0].terminated.Some? then statuses[0].terminated
    else FirstTerminated(statuses[1..])
  }

  function TerminationOf(pod: Pod): Option<Termination> { FirstTerminated(pod.statuses) }

  predicate PodTerminated(pod: Pod)
  {
    || pod.phase == Succeeded || pod.phase == Failed
    || exists i :: 0 <= i < |pod.statuses| && pod.statuses[i].terminated.Some?
  }

  /** exitCodeFromPod: the container states first, then the phase. */
  function ExitCodeFromPod(pod: Pod): Option<int>
  {
    match FirstTerminated(pod.statuses)
    case Some(t) => Some(t.exitCode)
    case None =>
      match pod.phase
      case Succeeded => Some(0)
      case Failed => Some(1)
      case _ => None
  }

  lemma {:induction false} FirstTerminatedSpec(statuses: seq<ContainerStatus>)
    ensures FirstTerminated(statuses).None? <==> forall i :: 0 <= i < |statuses| ==> statuses[i].terminated.None?
    ensures forall i :: 0 <= i < |statuses| && statuses[i].terminated.Some? ==>
      (forall j :: 0 <= j < i ==> statuses[j].terminated.None?) ==>
        FirstTerminated(statuses) == statuses[i].terminated
  {
    if statuses != [] && statuses[0].terminated.None? {
      var rest := statuses[1..];
      FirstTerminatedSpec(rest);
      assert forall i :: 0 < i < |statuses| ==> statuses[i] == rest[i - 1];
    }
  }

  /** An exit code is observable exactly when the pod counts as terminated, and is the one inspect reports. */
  lemma ExitCodeIffTerminated(pod: Pod)
    ensures ExitCodeFromPod(pod).Some? <==> PodTerminated(pod)
    ensures PodTerminated(pod) <==>
      || pod.phase == Succeeded || pod.phase == Failed
      || exists i :: 0 <= i < |pod.statuses| && pod.statuses[i].terminated.Some?
    ensures TerminationOf(pod).Some? ==> ExitCodeFromPod(pod) == Some(TerminationOf(pod).value.exitCode)
    ensures TerminationOf(pod).None? && PodTerminated(pod) ==>
      ExitCodeFromPod(pod) == Some(if pod.phase == Succeeded then 0 else 1)
  {
    FirstTerminatedSpec(pod.statuses);
  }

  /** One round of waitForExit: the sample, and whether the context is done by the time of the select. */
  datatype ExitPoll = ExitPoll(sample: Sample, cancelled: bool)

  datatype ExitOutcome = Exited(code: int) | Gone | GetError | Cancelled

  /** Whether a round ends the loop. */
  predicate EndsWait(p: ExitPoll)
  {
    p.cancelled || !p.sample.Found? || PodTerminated(p.sample.pod)
  }

  predicate FirstEnd(polls: seq<ExitPoll>, i: nat)
  {
    i < |polls| && EndsWait(polls[i]) && forall j :: 0 <= j < i ==> !EndsWait(polls[j])
  }

  /** The round that ends the loop decides: the exit code is that of the first sample with a terminated pod. */
  predicate WaitResult(polls: seq<ExitPoll>, r: Option<ExitOutcome>)
  {
    && (r.None? <==> forall i :: 0 <= i < |polls| ==> !EndsWait(polls[i]))
    && forall i :: 0 <= i < |polls| && FirstEnd(polls, i) ==>
         match polls[i].sample
         case NotFound => r == Some(Gone)
         case GetFailed => r == Some(GetError)
         case Found(pod) =>
           if PodTerminated(pod) then ExitCodeFromPod(pod).Some? && r == Some(Exited(ExitCodeFromPod(pod).value))
           else r == Some(Cancelled)
  }

  method WaitForExit(polls: seq<ExitPoll>) returns (r: Option<ExitOutcome>)
    ensures WaitResult(polls, r)
  {
    var i := 0;
    while i < |polls|
      invariant 0 <= i <= |polls|
      invariant forall j :: 0 <= j < i ==> !EndsWait(polls[j])
    {
      match polls[i].sample
      case NotFound =>
        return Some(Gone);
      case GetFailed =>
        return Some(GetError);
      case Found(pod) =>
        ExitCodeIffTerminated(pod);
        var exit := ExitCodeFromPod(pod);
        if exit.Some? {
          return Some(Exited(exit.value));
        }
      if polls[i].cancelled {
        return Some(Cancelled);
      }
      i := i + 1;
    }
    return None;
  }

  /** A terminated pod stays so, with the exit code it has. */
  predicate Settles(history: seq<Pod>)
  {
    forall i, j :: 0 <= i <= j < |history| && PodTerminated(history[i]) ==>
      ExitCodeFromPod(history[j]) == ExitCodeFromPod(history[i])
  }

  /** The polls look at the pod at times that never go back. */
  predicate Samples(history: seq<Pod>, times: seq<nat>, polls: seq<ExitPoll>)
  {
    && |times| == |polls|
    && (forall i :: 0 <= i < |times| ==> times[i] < |history| && polls[i].sample == Found(history[times[i]]))
    && forall i, j :: 0 <= i <= j < |times| ==> times[i] <= times[j]
  }

  lemma {:induction false} FirstEndOf(polls: seq<ExitPoll>, k: nat) returns (i: nat)
    requires k < |polls| && EndsWait(polls[k])
    ensures FirstEnd(polls, i)
  {
    i := k;
    if j :| 0 <= j < k && EndsWait(polls[j]) {
      i := FirstEndOf(polls, j);
    }
  }

  /** Where an exit code comes from. */
  lemma ExitedAt(polls: seq<ExitPoll>, r: Option<ExitOutcome>, code: int) returns (i: nat)
    requires WaitResult(polls, r) && r == Some(Exited(code))
    ensures i < |polls| && polls[i].sample.Found? && PodTerminated(polls[i].sample.pod)
    ensures ExitCodeFromPod(polls[i].sample.pod) == Some(code)
  {
    var k :| 0 <= k < |polls| && EndsWait(polls[k]);
    i := FirstEndOf(polls, k);
  }

  /** Waiters that poll the same pod, each at its own times, never report different exit codes. */
  lemma WaitersAgree(
      history: seq<Pod>, times: seq<nat>, polls: seq<ExitPoll>, code: int,
      times': seq<nat>, polls': seq<ExitPoll>, code': int)
    requires Settles(history) && Samples(history, times, polls) && Samples(history, times', polls')
    requires WaitResult(polls, Some(Exited(code))) && WaitResult(polls', Some(Exited(code')))
    ensures code == code'
  {
    var i := ExitedAt(polls, Some(Exited(code)), code);
    var i' := ExitedAt(polls', Some(Exited(code')), code');
    if times[i] <= times'[i'] {
      assert ExitCodeFromPod(history[times'[i']]) == ExitCodeFromPod(history[times[i]]);
    } else {
      assert ExitCodeFromPod(history[times[i]]) == ExitCodeFromPod(history[times'[i']]);
    }
  }

  /** Waiting reasons that no retry cures. */
  predicate FatalReason(reason: string)
  {
    reason in {"ImagePullBackOff", "ErrImagePull", "CreateContainerError", "InvalidImageName", "RegistryUnavailable"}
  }

  /** fatalContainerWaitingState: empty strings when no container is stuck. */
  function FatalWaiting(statuses: seq<ContainerStatus>): Waiting
  {
    if statuses == [] then Waiting("", "")
    else if statuses[0].waiting.Some? && FatalReason(statuses[0].waiting.value.reason) then statuses[0].waiting.value
    else FatalWaiting(statuses[1..])
  }

  predicate Stuck(status: ContainerStatus) { status.waiting.Some? && FatalReason(status.waiting.value.reason) }

  /** The reason is empty exactly when no container is stuck, and otherwise that of the first one that is. */
  /** The five waiting reasons that no retry cures. */
  lemma StuckMeans(status: ContainerStatus)
    ensures status.waiting.None? ==> !Stuck(status)
    ensures status.waiting.Some? ==>
      var fatal :=
        ["ImagePullBackOff", "ErrImagePull", "CreateContainerError", "InvalidImageName", "RegistryUnavailable"];
      Stuck(status) == (status.waiting.value.reason in fatal)
  {
  }

  lemma {:induction false} FatalWaitingSpec(statuses: seq<ContainerStatus>)
    ensures FatalWaiting(statuses).reason == "" <==> forall i :: 0 <= i < |statuses| ==> !Stuck(statuses[i])
    ensures forall i :: 0 <= i < |statuses| && Stuck(statuses[i]) ==>
      (forall j :: 0 <= j < i ==> !Stuck(statuses[j])) ==>
        FatalWaiting(statuses) == statuses[i].waiting.value
  {
    if statuses != [] && !Stuck(statuses[0]) {
      var rest := statuses[1..];
      FatalWaitingSpec(rest);
      assert forall i :: 0 < i < |statuses| ==> statuses[i] == rest[i - 1];
    }
  }

  /** The first Ready condition of a running pod. */
  predicate FirstReady(conditions: seq<Condition>)
  {
    conditions != [] &&
    if conditions[0].kind == "Ready" then conditions[0].status == "True" else FirstReady(conditions[1..])
  }

  predicate IsReady(pod: Pod) { pod.phase == Running && FirstReady(pod.conditions) }

  lemma {:induction false} FirstReadyIff(conditions: seq<Condition>)
    ensures FirstReady(conditions) <==>
      exists i :: 0 <= i < |conditions| && conditions[i].kind == "Ready" && conditions[i].status == "True"
                  && forall j :: 0 <= j < i ==> conditions[j].kind != "Ready"
  {
    if conditions != [] && conditions[0].kind != "Ready" {
      var rest := conditions[1..];
      FirstReadyIff(rest);
      assert forall i :: 0 < i < |conditions| ==> conditions[i] == rest[i - 1];
      if i :| 0 <= i < |rest| && rest[i].kind == "Ready" && rest[i].status == "True"
              && forall j :: 0 <= j < i ==> rest[j].kind != "Ready" {
        assert conditions[i + 1] == rest[i];
      }
      if i :| 0 <= i < |conditions| && conditions[i].kind == "Ready" && conditions[i].status == "True"
              && forall j :: 0 <= j < i ==> conditions[j].kind != "Ready" {
        assert rest[i - 1] == conditions[i];
        assert forall j :: 0 <= j < i - 1 ==> rest[j].kind != "Ready" by {
          assert forall j :: 0 <= j < i - 1 ==> rest[j] == conditions[j + 1];
        }
      }
    } else if conditions != [] && conditions[0].status == "True" {
      assert conditions[0].kind == "Ready";
    }
  }

  /** A pod is ready when it runs and the first of its conditions of kind Ready, which has to be there, is True. */
  lemma ReadyIff(pod: Pod)
    ensures IsReady(pod) <==>
      && pod.phase == Running
      && exists i :: 0 <= i < |pod.conditions|
                     && pod.conditions[i].kind == "Ready" && pod.conditions[i].status == "True"
                     && forall j :: 0 <= j < i ==> pod.conditions[j].kind != "Ready"
  {
    FirstReadyIff(pod.conditions);
  }

  /** One round of WaitForReady: the sample, the clock when the deadline is checked, and the context at the select. */
  datatype ReadyPoll = ReadyPoll(sample: Sample, now: int, cancelled: bool)

  datatype ReadyOutcome = Ready | ApiError | PullFailed(waiting: Waiting) | PodFailed | TimedOut | ContextDone

  /** A pod past which no further sample matters. */
  predicate Decisive(pod: Pod)
  {
    || IsReady(pod) || pod.phase == Succeeded || pod.phase == Failed
    || exists i :: 0 <= i < |pod.statuses| && Stuck(pod.statuses[i])
  }

  predicate EndsReady(deadline: int, p: ReadyPoll)
  {
    !p.sample.Found? || Decisive(p.sample.pod) || p.now > deadline || p.cancelled
  }

  /** The first round that ends the loop, and how: success goes before a stuck container, that before a failed pod. */
  predicate ReadyResult(deadline: int, polls: seq<ReadyPoll>, r: Option<ReadyOutcome>, samples: nat)
  {
    && samples <= |polls|
    && (forall i :: 0 <= i < samples - 1 ==> !EndsReady(deadline, polls[i]))
    && match r
       case None => samples == |polls| && forall i :: 0 <= i < |polls| ==> !EndsReady(deadline, polls[i])
       case Some(outcome) =>
         && samples > 0
         && EndsReady(deadline, polls[samples - 1])
         && var p := polls[samples - 1];
         if !p.sample.Found? then outcome == ApiError
         else
           var pod := p.sample.pod;
           && (outcome == Ready <==> IsReady(pod) || pod.phase == Succeeded)
           && (outcome.PullFailed? <==>
                 !IsReady(pod) && pod.phase != Succeeded && FatalWaiting(pod.statuses).reason != "")
           && (outcome.PullFailed? ==> outcome.waiting == FatalWaiting(pod.statuses))
           && (outcome == PodFailed <==> pod.phase == Failed && FatalWaiting(pod.statuses).reason == "")
           && (outcome == TimedOut <==> !Decisive(pod) && p.now > deadline)
           && (outcome == ContextDone <==> !Decisive(pod) && p.now <= deadline)
  }

  method WaitForReady(start: int, timeout: int, polls: seq<ReadyPoll>) returns (r: Option<ReadyOutcome>, samples: nat)
    ensures ReadyResult(start + timeout, polls, r, samples)
  {
    var deadline := start + timeout;
    samples := 0;
    while samples < |polls|
      invariant 0 <= samples <= |polls|
      invariant forall j :: 0 <= j < samples ==> !EndsReady(deadline, polls[j])
    {
      var p := polls[samples];
      samples := samples + 1;
      if !p.sample.Found? {
        return Some(ApiError), samples;
      }
      var pod := p.sample.pod;
      FatalWaitingSpec(pod.statuses);
      if IsReady(pod) || pod.phase == Succeeded {
        return Some(Ready), samples;
      }
      var fatal := FatalWaiting(pod.statuses);
      if fatal.reason != "" {
        return Some(PullFailed(fatal)), samples;
      }
      if pod.phase == Failed {
        return Some(PodFailed), samples;
      }
      if p.now > deadline {
        return Some(TimedOut), samples;
      }
      if p.cancelled {
        return Some(ContextDone), samples;
      }
    }
    return None, samples;
  }

  /** The clock starts at `start`, and every sleep lasts at least `interval`. */
  predicate Paced(start: int, interval: int, polls: seq<ReadyPoll>)
  {
    && (polls != [] ==> polls[0].now >= start)
    && forall i :: 0 < i < |polls| ==> polls[i].now >= polls[i - 1].now + interval
  }

  lemma {:induction false} ClockAdvances(start: int, interval: nat, polls: seq<ReadyPoll>, i: nat)
    requires Paced(start, interval, polls) && i < |polls|
    ensures polls[i].now >= start + i * interval
  {
    if i > 0 {
      ClockAdvances(start, interval, polls, i - 1);
    }
  }

  lemma PastDeadline(timeout: nat, interval: nat)
    requires interval > 0
    ensures (timeout / interval + 1) * interval > timeout
  {
  }

  /** However the pod behaves, WaitForReady is over after at most `timeout / interval + 2` samples. */
  lemma ReadyInTime(
      start: int, timeout: nat, interval: nat, polls: seq<ReadyPoll>, r: Option<ReadyOutcome>, samples: nat)
    requires interval > 0 && Paced(start, interval, polls)
    requires ReadyResult(start + timeout, polls, r, samples)
    ensures samples <= timeout / interval + 2
    ensures |polls| >= timeout / interval + 2 ==> r.Some?
  {
    var last := timeout / interval + 1;
    if |polls| > last {
      ClockAdvances(start, interval, polls, last);
      PastDeadline(timeout, interval);
      assert EndsReady(start + timeout, polls[last]);
    }
  }
}
