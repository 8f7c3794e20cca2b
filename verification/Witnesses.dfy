/** Runs of the lifecycle machine that show what the code does not promise. */
module Witnesses {
  import opened Common
  import opened PendingSpec
  import opened Lifecycle
  import LifecycleRuns
  import Runs
  import Names
  import Ids

  // ---- single steps ----

  ghost predicate Reachable(cfg: Config, s: State)
  {
    exists run: seq<State>, acts: seq<Action> :: IsRun(cfg, run, acts) && run[|run| - 1] == s
  }

  lemma Initially(cfg: Config, s: State)
    requires Init(s)
    ensures Reachable(cfg, s)
  {
    assert IsRun(cfg, [s], []) && [s][|[s]| - 1] == s;
  }

  lemma Step(cfg: Config, s: State, a: Action, s': State)
    requires Reachable(cfg, s) && Next(cfg, s, a) == Some(s')
    ensures Reachable(cfg, s')
  {
    var run: seq<State>, acts: seq<Action> :| IsRun(cfg, run, acts) && run[|run| - 1] == s;
    Runs.Extend(Init, StepOf(cfg), run, acts, a, s');
    var run', acts' := run + [s'], acts + [a];
    assert IsRun(cfg, run', acts') && run'[|run'| - 1] == s';
  }

  /** Nothing is dropped while every entry is as old as the clock. */
  lemma NoReapNow(cfg: Config, s: State)
    requires forall k :: k in s.pending ==> s.pending[k].info.createdAt == s.now
    ensures Kept(cfg, s) == s.pending && Reaped(cfg, s) == s
  {
    assert Kept(cfg, s) == s.pending;
  }

  lemma ReserveStep(cfg: Config, s: State, t: nat, dockerName: string, podName: string, e: Entry)
    requires Reachable(cfg, s) && t in s.tasks && s.tasks[t] == Reserve(dockerName, podName, s.now)
    requires e == NewEntry(cfg, s, dockerName, podName, s.now)
    requires forall k :: k in s.pending ==> s.pending[k].info.createdAt == s.now
    requires Reservable(s.pending, InfoOf, e.info.id, dockerName)
    ensures Reachable(cfg,
      Goto(Insert(s, e), t, if dockerName != "" then With(e, CheckPod) else Finished(Accepted(e))))
  {
    NoReapNow(cfg, s);
    var pc := if dockerName != "" then With(e, CheckPod) else Finished(Accepted(e));
    Step(cfg, s, Run(t, ReapInsert(e), pc), Goto(Insert(s, e), t, pc));
  }

  lemma LookupStep(cfg: Config, s: State, t: nat, op: Op, e: Entry)
    requires Reachable(cfg, s) && t !in s.tasks
    requires s.pending == map[e.info.id := e] && e.info.createdAt == s.now
    ensures Reachable(cfg, Goto(s, t, With(e, FirstStage(op))))
  {
    var s' := Goto(s, t, Lookup(op, e.info.id));
    Step(cfg, s, ArriveLookup(t, op, e.info.id), s');
    NoReapNow(cfg, s');
    Step(cfg, s', Run(t, Reap, With(e, FirstStage(op))), Goto(s', t, With(e, FirstStage(op))));
    assert Goto(s', t, With(e, FirstStage(op))) == Goto(s, t, With(e, FirstStage(op)));
  }

  lemma StageStep(cfg: Config, s: State, t: nat, e: Entry, stage: Stage, effect: Effect, pc: Pc)
    requires Reachable(cfg, s) && t in s.tasks && s.tasks[t] == With(e, stage) && StageRule(s, e, stage, effect, pc)
    ensures Reachable(cfg, Goto(Perform(cfg, s, effect), t, pc))
  {
    Step(cfg, s, Run(t, effect, pc), Goto(Perform(cfg, s, effect), t, pc));
  }

  // ---- handlers that run undisturbed ----

  /** A create up to its reservation. */
  lemma ReserveSteps(cfg: Config, s: State, t: nat, req: Request, e: Entry)
    requires Reachable(cfg, s) && t !in s.tasks && s.pending == map[]
    requires req.dockerName != "" && PodNameFor(cfg, req) == Ok(e.info.podName)
    requires e == NewEntry(cfg, s, req.dockerName, e.info.podName, s.now)
    ensures Reachable(cfg, Goto(Insert(s, e), t, With(e, CheckPod)))
  {
    var pc := Reserve(req.dockerName, e.info.podName, s.now);
    Step(cfg, s, ArriveCreate(t, req), Goto(s, t, pc));
    ReserveStep(cfg, Goto(s, t, pc), t, req.dockerName, e.info.podName, e);
    assert Goto(Insert(Goto(s, t, pc), e), t, With(e, CheckPod)) == Goto(Insert(s, e), t, With(e, CheckPod));
  }

  /** A create that is answered 201. */
  function Created(s: State, t: nat, e: Entry): State { Goto(Insert(s, e), t, Finished(Accepted(e))) }

  lemma CreateSteps(cfg: Config, s: State, t: nat, req: Request, e: Entry)
    requires Reachable(cfg, s) && t !in s.tasks && s.pending == map[]
    requires req.dockerName != "" && PodNameFor(cfg, req) == Ok(e.info.podName)
    requires e == NewEntry(cfg, s, req.dockerName, e.info.podName, s.now)
    ensures Reachable(cfg, Created(s, t, e))
  {
    ReserveSteps(cfg, s, t, req, e);
    var s' := Goto(Insert(s, e), t, With(e, CheckPod));
    StageStep(cfg, s', t, e, CheckPod, Silent, Finished(Accepted(e)));
    assert Goto(s', t, Finished(Accepted(e))) == Created(s, t, e);
  }

  /** An unnamed create does not look for a live pod. */
  lemma UnnamedSteps(cfg: Config, s: State, t: nat, req: Request, e: Entry)
    requires Reachable(cfg, s) && t !in s.tasks && e.info.id !in s.pending
    requires forall k :: k in s.pending ==> s.pending[k].info.createdAt == s.now
    requires req.dockerName == "" && PodNameFor(cfg, req) == Ok(e.info.podName)
    requires e == NewEntry(cfg, s, "", e.info.podName, s.now)
    ensures Reachable(cfg, Created(s, t, e))
  {
    var pc := Reserve("", e.info.podName, s.now);
    Step(cfg, s, ArriveCreate(t, req), Goto(s, t, pc));
    ReserveStep(cfg, Goto(s, t, pc), t, "", e.info.podName, e);
    assert Goto(Insert(Goto(s, t, pc), e), t, Finished(Accepted(e))) == Created(s, t, e);
  }

  /** A create that finds a pod of its name and rolls back. */
  function RolledBack(s: State, t: nat, e: Entry): State
  {
    Goto(s.(pending := s.pending - {e.info.id}), t, Finished(Conflict))
  }

  lemma RollBackSteps(cfg: Config, s: State, t: nat, e: Entry)
    requires Reachable(cfg, s) && t in s.tasks && s.tasks[t] == With(e, CheckPod) && e.info.podName in s.pods
    ensures Reachable(cfg, RolledBack(s, t, e))
  {
    StageStep(cfg, s, t, e, CheckPod, Silent, With(e, RollBack));
    var s' := Goto(s, t, With(e, RollBack));
    StageStep(cfg, s', t, e, RollBack, Remove(e), Finished(Conflict));
    assert Goto(Perform(cfg, s', Remove(e)), t, Finished(Conflict)) == RolledBack(s, t, e);
  }

  /** An rm up to the point where it has told the waiters and is about to remove the entry by ID. */
  function Marked(s: State, t: nat, e: Entry): State
  {
    Goto(Mark(s, e, Failed(PendingRemoved)), t, With(e, DropRemoved))
  }

  lemma MarkSteps(cfg: Config, s: State, t: nat, e: Entry)
    requires Reachable(cfg, s) && t !in s.tasks
    requires s.pending == map[e.info.id := e] && e.info.createdAt == s.now
    ensures Reachable(cfg, Marked(s, t, e))
  {
    LookupStep(cfg, s, t, OpRemove, e);
    var s', decide := Goto(s, t, With(e, MarkRemoved)), Decide(e, Failed(PendingRemoved));
    StageStep(cfg, s', t, e, MarkRemoved, decide, With(e, DropRemoved));
    assert Goto(Perform(cfg, s', decide), t, With(e, DropRemoved)) == Marked(s, t, e);
  }

  // ---- a create conflict strands a waiter ----

  /** The entry number `uid` made for pod name "a" at time 0. */
  function EntryOf(cfg: Config, uid: nat): Entry { Entry(uid, Info(IdOf(cfg, "a"), "a", "a", 0)) }

  /** A create request for the name "a". */
  lemma RequestForA(cfg: Config) returns (req: Request)
    ensures req.dockerName == "a" && PodNameFor(cfg, req) == Ok("a")
  {
    req := Request("a", "redis", "000000");
    Names.FixedPoints(cfg.lower, "a", "");
  }

  function LiveA(): State { State(0, 0, map[], map[], map["a" := "a"], map[], [], {}, {}) }

  /** A create has reserved the name of a live pod that it has not looked for yet. */
  function ReservedA(cfg: Config): State
  {
    Goto(Insert(LiveA(), EntryOf(cfg, 0)), 0, With(EntryOf(cfg, 0), CheckPod))
  }

  lemma ReservationOfLiveName(cfg: Config)
    ensures Reachable(cfg, ReservedA(cfg))
  {
    var req := RequestForA(cfg);
    Initially(cfg, LiveA());
    ReserveSteps(cfg, LiveA(), 0, req, EntryOf(cfg, 0));
  }

  /** A create that loses against a live pod strands a waiter that found its reservation. */
  lemma RollbackStrandsWaiter(cfg: Config) returns (s: State, e: Entry)
    ensures Reachable(cfg, s)
    ensures 1 in s.tasks && s.tasks[1] == With(e, AwaitLatch)
    ensures e.info.id !in s.pending && e in s.latches && s.latches[e] == Waiting
  {
    e := EntryOf(cfg, 0);
    ReservationOfLiveName(cfg);
    LookupStep(cfg, ReservedA(cfg), 1, OpWait, e);
    s := Goto(ReservedA(cfg), 1, With(e, AwaitLatch));
    RollBackSteps(cfg, s, 0, e);
    s := RolledBack(s, 0, e);
  }

  // ---- a stale removal loses an accepted container ----

  /** The reservation is marked by an rm, then rolled back by its create, and the pod goes away. */
  function GoneA(cfg: Config): State
  {
    RolledBack(Marked(ReservedA(cfg), 1, EntryOf(cfg, 0)), 0, EntryOf(cfg, 0)).(pods := map[])
  }

  lemma MarkedAndGone(cfg: Config)
    ensures Reachable(cfg, GoneA(cfg))
  {
    var e := EntryOf(cfg, 0);
    ReservationOfLiveName(cfg);
    MarkSteps(cfg, ReservedA(cfg), 1, e);
    var s := Marked(ReservedA(cfg), 1, e);
    RollBackSteps(cfg, s, 0, e);
    Step(cfg, RolledBack(s, 0, e), Cluster(map[]), GoneA(cfg));
  }

  /** What is left of it: the rm that is about to remove by ID. */
  lemma GoneFacts(cfg: Config)
    ensures var s := GoneA(cfg);
      && s.now == 0 && s.nextUid == 1 && s.pending == map[] && s.pods == map[]
      && s.tasks == map[0 := Finished(Conflict), 1 := With(EntryOf(cfg, 0), DropRemoved)]
  {
  }

  /** Created again, and a waiter has found the new entry. */
  lemma CreatedAgain(cfg: Config) returns (s: State)
    ensures Reachable(cfg, s) && s.pods == map[] && s.accepted != [] && s.accepted[|s.accepted| - 1] == EntryOf(cfg, 1)
    ensures EntryOf(cfg, 1) in s.latches && s.latches[EntryOf(cfg, 1)] == Waiting
    ensures 1 in s.tasks && s.tasks[1] == With(EntryOf(cfg, 0), DropRemoved)
    ensures 3 in s.tasks && s.tasks[3] == With(EntryOf(cfg, 1), AwaitLatch)
  {
    var e := EntryOf(cfg, 1);
    var req := RequestForA(cfg);
    MarkedAndGone(cfg);
    GoneFacts(cfg);
    CreateSteps(cfg, GoneA(cfg), 2, req, e);
    s := Created(GoneA(cfg), 2, e);
    LookupStep(cfg, s, 3, OpWait, e);
    s := Goto(s, 3, With(e, AwaitLatch));
  }

  /** A handler that removes by ID after the entry was replaced loses an accepted container and its waiter. */
  lemma StaleRemovalLosesAccepted(cfg: Config) returns (s: State, e: Entry)
    ensures Reachable(cfg, s)
    ensures e in s.accepted && e.info.id !in s.pending && e.info.podName !in s.pods
    ensures 3 in s.tasks && s.tasks[3] == With(e, AwaitLatch) && e in s.latches && s.latches[e] == Waiting
  {
    var stale := EntryOf(cfg, 0);
    e := EntryOf(cfg, 1);
    s := CreatedAgain(cfg);
    StageStep(cfg, s, 1, stale, DropRemoved, Remove(stale), Finished(Removed));
    s := Goto(Perform(cfg, s, Remove(stale)), 1, Finished(Removed));
  }

  // ---- an ambiguous name ----

  function ClashingName(base: string): string { "dink-" + base + "-" }

  function NamedEntry(cfg: Config, base: string): Entry
  {
    Entry(0, Info(IdOf(cfg, "dink-" + base), ClashingName(base), "dink-" + base, 0))
  }

  function UnnamedEntry(cfg: Config, base: string): Entry
  {
    Entry(1, Info(IdOf(cfg, ClashingName(base)), "", ClashingName(base), 0))
  }

  function NamedState(cfg: Config, base: string): State
  {
    Created(State(0, 0, map[], map[], map[], map[], [], {}, {}), 0, NamedEntry(cfg, base))
  }

  predicate IsBase(base: string) { |base| == 57 && forall i :: 0 <= i < |base| ==> Names.IsAlnum(base[i]) }

  /** A create under the name that clashes, and an unnamed one of an image that makes it clash. */
  lemma ClashingRequests(cfg: Config, base: string) returns (named: Request, unnamed: Request)
    requires IsBase(base)
    ensures named.dockerName == ClashingName(base) && PodNameFor(cfg, named) == Ok("dink-" + base)
    ensures unnamed.dockerName == "" && PodNameFor(cfg, unnamed) == Ok(ClashingName(base))
  {
    named, unnamed := Request(ClashingName(base), "redis", "000000"), Request("", base, "000000");
    Names.TrailingDashIsCut(cfg.lower, base);
    Names.GeneratedNameEndingInDash(cfg.lower, base, "000000");
  }

  lemma AcceptedUnderDash(cfg: Config, base: string)
    requires IsBase(base)
    ensures Reachable(cfg, NamedState(cfg, base))
  {
    var s := State(0, 0, map[], map[], map[], map[], [], {}, {});
    var named, _ := ClashingRequests(cfg, base);
    Initially(cfg, s);
    CreateSteps(cfg, s, 0, named, NamedEntry(cfg, base));
  }

  lemma BothMatch(cfg: Config, base: string, m: map<string, Entry>)
    requires IsBase(base) && Ids.IsDigest(cfg.digest)
    requires var e, e' := NamedEntry(cfg, base), UnnamedEntry(cfg, base);
      e.info.id != e'.info.id && m == map[e.info.id := e, e'.info.id := e']
    ensures !LifecycleRuns.IsSomeId(m, ClashingName(base)) && !LifecycleRuns.Unambiguous(m, ClashingName(base))
  {
    var e, e', ref := NamedEntry(cfg, base), UnnamedEntry(cfg, base), ClashingName(base);
    assert |ref| == 63 && |Ids.ShortID(e.info.id)| == 12 && |Ids.ShortID(e'.info.id)| == 12;
    assert Matches(e.info.id, InfoOf(m[e.info.id]), ref) && Matches(e'.info.id, InfoOf(m[e'.info.id]), ref);
    assert IsFound(m, InfoOf, ref, Some(e)) && IsFound(m, InfoOf, ref, Some(e'));
  }

  lemma AcceptedTwice(cfg: Config, base: string) returns (s: State)
    requires IsBase(base) && NamedEntry(cfg, base).info.id != UnnamedEntry(cfg, base).info.id
    ensures Reachable(cfg, s)
    ensures var e, e' := NamedEntry(cfg, base), UnnamedEntry(cfg, base);
      s.pending == map[e.info.id := e, e'.info.id := e'] && s.accepted == [e, e']
  {
    var _, unnamed := ClashingRequests(cfg, base);
    AcceptedUnderDash(cfg, base);
    s := Created(NamedState(cfg, base), 1, UnnamedEntry(cfg, base));
    UnnamedSteps(cfg, NamedState(cfg, base), 1, unnamed, UnnamedEntry(cfg, base));
  }

  /**
   * A container created as `dink-…-` and an unnamed one whose generated pod name is just that are both accepted: the
   * name finds either, as map order has it.
   */
  lemma AmbiguousName(cfg: Config, base: string) returns (s: State)
    requires IsBase(base) && Ids.IsDigest(cfg.digest)
    requires NamedEntry(cfg, base).info.id != UnnamedEntry(cfg, base).info.id
    ensures Reachable(cfg, s) && s.accepted == [NamedEntry(cfg, base), UnnamedEntry(cfg, base)]
    ensures !LifecycleRuns.IsSomeId(s.pending, ClashingName(base))
    ensures !LifecycleRuns.Unambiguous(s.pending, ClashingName(base))
  {
    s := AcceptedTwice(cfg, base);
    BothMatch(cfg, base, s.pending);
  }

  /** In the other order the named create is refused. */
  lemma ClashNeedsNamedFirst(m: map<string, Entry>, k: string, id: string, dockerName: string)
    requires k in m && m[k].info.podName == dockerName
    ensures dockerName != "" ==> !Reservable(m, InfoOf, id, dockerName)
  {
    assert Matches(k, InfoOf(m[k]), dockerName);
  }
}
