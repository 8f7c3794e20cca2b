/**
 * The create/start/wait/remove lifecycle of internal/server/containers.go as a step machine.
 *
 * A task is one HTTP handler. Every section under the pendingStore mutex, every latch operation and every
 * apiserver call is one atomic step; between two steps of a task anything else may happen. The number of
 * tasks is unbounded. What a step may do depends on the task's program counter and on the environment's
 * answers; the rules below list, for each program counter, the possible effects and next counters.
 */
module Lifecycle {
  import opened Common
  import opened PendingSpec
  import Names
  import Runs
  import Ids

  type Suffix = s: string | |s| == 6 && Names.IsHex(s) witness "000000"

  datatype Config = Config(digest: string -> string, lower: Names.Lowering, namespace: string, ttl: int)

  /** A /create request; `suffix` is what crypto/rand supplies to GeneratedName. */
  datatype Request = Request(dockerName: string, image: string, suffix: Suffix)

  /** A *pendingContainer: its identity and its immutable fields. */
  datatype Entry = Entry(uid: nat, info: Info)

  function InfoOf(e: Entry): Info { e.info }

  /** What a handler does with the container it looked up; attach and inspect look up as wait does. */
  datatype Op = OpStart | OpRemove | OpWait

  datatype Outcome =
    | Rejected | Conflict | Accepted(entry: Entry)
    | Found(name: string) | NotFound(ref: string, known: seq<Entry>) | ServerError
    | StartedPod(entry: Entry) | Removed
    | WaitOk(entry: Entry) | WaitFailed(entry: Entry, reason: Failure) | WaitTimeout

  /** Where a handler that works on an entry stands: the operation it performs next. */
  datatype Stage =
    | CheckPod | RollBack
    | CreatePod | MarkStarted | DropStarted | MarkFailed | DropFailed
    | MarkRemoved | DropRemoved
    | AwaitLatch

  /**
   * Program counters. A /create that has built its pod and stamped its entry waits to reserve it; `known` remembers
   * which containers had been accepted when a lookup began.
   */
  datatype Pc =
    | Reserve(dockerName: string, podName: string, createdAt: int)
    | Lookup(op: Op, ref: string)
    | With(entry: Entry, stage: Stage)
    | FindGet(op: Op, ref: string, known: seq<Entry>)
    | FindList(op: Op, ref: string, known: seq<Entry>)
    | DeletePod(name: string)
    | Finished(outcome: Outcome)

  /**
   * `pods` maps each live managed pod to its docker-name annotation. The last three fields are history:
   * the entries answered 201, in order; those answered 201 while no pod of that name was live; and those
   * whose spec a pods.Create accepted.
   */
  datatype State = State(
    now: int,
    nextUid: nat,
    pending: map<string, Entry>,
    latches: map<Entry, Latch>,
    pods: map<string, string>,
    tasks: map<nat, Pc>,
    accepted: seq<Entry>,
    claimed: set<Entry>,
    realized: set<Entry>)

  /** What a step does to the shared state. */
  datatype Effect =
    | Silent
    | Reap
    | ReapInsert(entry: Entry)
    | Decide(entry: Entry, outcome: Latch)
    | Remove(entry: Entry)
    | PodCreated(entry: Entry)
    | PodDeleted(name: string)

  datatype Action =
    | ArriveCreate(task: nat, req: Request)
    | ArriveLookup(task: nat, op: Op, ref: string)
    | Run(task: nat, effect: Effect, pc: Pc)
    | Cluster(pods: map<string, string>)
    | Tick(now: int)
    | ListPending

  // ---- effects ----

  function Kept(cfg: Config, s: State): map<string, Entry> { Survivors(s.pending, InfoOf, s.now, cfg.ttl) }

  function Reaped(cfg: Config, s: State): State
  {
    var kept := Kept(cfg, s);
    s.(pending := kept,
       latches := ReapedLatches(s.latches, s.latches.Keys - (s.pending.Values - kept.Values)))
  }

  function Insert(r: State, e: Entry): State
  {
    r.(nextUid := e.uid + 1, pending := r.pending[e.info.id := e], latches := r.latches[e := Waiting])
  }

  function Mark(s: State, e: Entry, outcome: Latch): State
  {
    s.(latches := map x | x in s.latches :: if x == e then Resolve(s.latches[x], outcome) else s.latches[x])
  }

  function Perform(cfg: Config, s: State, effect: Effect): State
  {
    match effect
    case Silent => s
    case Reap => Reaped(cfg, s)
    case ReapInsert(e) => Insert(Reaped(cfg, s), e)
    case Decide(e, outcome) => Mark(s, e, outcome)
    case Remove(e) => s.(pending := s.pending - {e.info.id})
    case PodCreated(e) =>
      s.(pods := s.pods[e.info.podName := e.info.dockerName], realized := s.realized + {e})
    case PodDeleted(name) => s.(pods := s.pods - {name})
  }

  /** The task moves on; an answer of 201 enters the history. */
  function Goto(s: State, t: nat, pc: Pc): State
  {
    if pc.Finished? && pc.outcome.Accepted? then
      var e := pc.outcome.entry;
      s.(tasks := s.tasks[t := pc], accepted := s.accepted + [e],
         claimed := if e.info.podName in s.pods then s.claimed else s.claimed + {e})
    else s.(tasks := s.tasks[t := pc])
  }

  // ---- the rules: what a task at `pc` may do next ----

  function PodNameFor(cfg: Config, req: Request): Result<string, string>
  {
    if req.dockerName != "" then Names.SanitizeName(cfg.lower, req.dockerName, "")
    else Ok(Names.GeneratedName(cfg.lower, req.image, req.suffix))
  }

  function IdOf(cfg: Config, name: string): string { Ids.ContainerID(cfg.digest, cfg.namespace, name) }

  /** Build fails on a name without letters and digits; else the handler goes on to reserve the pod name. */
  function AfterBuild(cfg: Config, req: Request, now: int): Pc
  {
    match PodNameFor(cfg, req)
    case Ok(name) => Reserve(req.dockerName, name, now)
    case Err(_) => Finished(Rejected)
  }

  function NewEntry(cfg: Config, s: State, dockerName: string, podName: string, createdAt: int): Entry
  {
    Entry(s.nextUid, Info(IdOf(cfg, podName), dockerName, podName, createdAt))
  }

  /** reserve, and what /create does with its answer; it may fail before, on the rest of the request. */
  predicate ReserveRule(
      cfg: Config, s: State, dockerName: string, podName: string, createdAt: int, effect: Effect, pc': Pc)
  {
    var e := NewEntry(cfg, s, dockerName, podName, createdAt);
    || (effect == Silent && pc' == Finished(Rejected))
    || if Reservable(Kept(cfg, s), InfoOf, e.info.id, dockerName) then
         && effect == ReapInsert(e)
         && pc' == if dockerName != "" then With(e, CheckPod) else Finished(Accepted(e))
       else effect == Reap && pc' == Finished(Conflict)
  }

  function FirstStage(op: Op): Stage
  {
    match op
    case OpStart => CreatePod
    case OpRemove => MarkRemoved
    case OpWait => AwaitLatch
  }

  /** getByRef: map order picks among several matches; without a match the handler asks the apiserver. */
  predicate LookupRule(cfg: Config, s: State, op: Op, ref: string, effect: Effect, pc': Pc)
  {
    var found := if pc'.With? then Some(pc'.entry) else None;
    && effect == Reap
    && IsFound(Kept(cfg, s), InfoOf, ref, found)
    && pc' == match found
              case Some(p) => With(p, FirstStage(op))
              case None => if ref == "" then Finished(NotFound(ref, s.accepted)) else FindGet(op, ref, s.accepted)
  }

  predicate StageRule(s: State, e: Entry, stage: Stage, effect: Effect, pc': Pc)
  {
    match stage
    case CheckPod =>
      && effect == Silent
      && (pc' == Finished(Accepted(e)) || (e.info.podName in s.pods && pc' == With(e, RollBack)))
    case RollBack => effect == Remove(e) && pc' == Finished(Conflict)
    case CreatePod =>
      || (effect == PodCreated(e) && e.info.podName !in s.pods && pc' == With(e, MarkStarted))
      || (effect == Silent && pc' == With(e, MarkFailed))
    case MarkStarted => effect == Decide(e, Started) && pc' == With(e, DropStarted)
    case DropStarted => effect == Remove(e) && pc' == Finished(StartedPod(e))
    case MarkFailed => effect == Decide(e, Failed(CreateFailed)) && pc' == With(e, DropFailed)
    case DropFailed => effect == Remove(e) && pc' == Finished(ServerError)
    case MarkRemoved => effect == Decide(e, Failed(PendingRemoved)) && pc' == With(e, DropRemoved)
    case DropRemoved => effect == Remove(e) && pc' == Finished(Removed)
    case AwaitLatch =>
      && effect == Silent
      && (|| pc' == Finished(WaitTimeout)
          || (e in s.latches && s.latches[e] == Started && pc' == Finished(WaitOk(e)))
          || (e in s.latches && s.latches[e].Failed? && pc' == Finished(WaitFailed(e, s.latches[e].reason))))
  }

  /** FindByID's scan: a pod matches by --name, full ID or short ID. */
  predicate PodMatches(cfg: Config, name: string, dockerName: string, ref: string)
  {
    dockerName == ref || IdOf(cfg, name) == ref || Ids.ShortID(IdOf(cfg, name)) == ref
  }

  function FoundPod(op: Op, name: string): Pc
  {
    if op == OpRemove then DeletePod(name) else Finished(Found(name))
  }

  function NameIn(pc: Pc): string
  {
    if pc.DeletePod? then pc.name else if pc.Finished? && pc.outcome.Found? then pc.outcome.name else ""
  }

  predicate NoPodMatches(cfg: Config, pods: map<string, string>, ref: string)
  {
    forall n :: n in pods ==> !PodMatches(cfg, n, pods[n], ref)
  }

  /** FindByID's second call: an error, the first matching pod in list order, or not found. */
  predicate ListRule(cfg: Config, s: State, op: Op, ref: string, known: seq<Entry>, pc': Pc)
  {
    var n := NameIn(pc');
    || pc' == Finished(ServerError)
    || (pc' == FoundPod(op, n) && n in s.pods && PodMatches(cfg, n, s.pods[n], ref))
    || (pc' == Finished(NotFound(ref, known)) && NoPodMatches(cfg, s.pods, ref))
  }

  predicate Allowed(cfg: Config, s: State, pc: Pc, effect: Effect, pc': Pc)
  {
    match pc
    case Reserve(dockerName, podName, createdAt) => ReserveRule(cfg, s, dockerName, podName, createdAt, effect, pc')
    case Lookup(op, ref) => LookupRule(cfg, s, op, ref, effect, pc')
    case With(e, stage) => StageRule(s, e, stage, effect, pc')
    case FindGet(op, ref, known) =>
      effect == Silent && (pc' == FindList(op, ref, known) || (ref in s.pods && pc' == FoundPod(op, ref)))
    case FindList(op, ref, known) => effect == Silent && ListRule(cfg, s, op, ref, known, pc')
    case DeletePod(name) => (effect == Silent || effect == PodDeleted(name)) && pc' == Finished(Found(name))
    case Finished(_) => false
  }

  function Next(cfg: Config, s: State, a: Action): Option<State>
  {
    match a
    case ArriveCreate(t, req) => if t in s.tasks then None else Some(Goto(s, t, AfterBuild(cfg, req, s.now)))
    case ArriveLookup(t, op, ref) => if t in s.tasks then None else Some(Goto(s, t, Lookup(op, ref)))
    case Run(t, effect, pc) =>
      if t in s.tasks && Allowed(cfg, s, s.tasks[t], effect, pc) then Some(Goto(Perform(cfg, s, effect), t, pc))
      else None
    case Cluster(pods) => Some(s.(pods := pods))
    case Tick(now) => if s.now <= now then Some(s.(now := now)) else None
    case ListPending => Some(Reaped(cfg, s))
  }

  predicate Init(s: State)
  {
    && s.pending == map[] && s.latches == map[] && s.tasks == map[]
    && s.accepted == [] && s.claimed == {} && s.realized == {}
  }

  function StepOf(cfg: Config): (State, Action) -> Option<State> { (s: State, a: Action) => Next(cfg, s, a) }

  predicate IsRun(cfg: Config, run: seq<State>, acts: seq<Action>) { Runs.IsRun(Init, StepOf(cfg), run, acts) }

  // ---- what every step keeps ----

  ghost predicate StoreInv(cfg: Config, s: State)
  {
    && (forall k :: k in s.pending ==> s.pending[k].info.id == k && s.pending[k] in s.latches)
    && (forall e :: e in s.latches ==> e.uid < s.nextUid && e.info.id == IdOf(cfg, e.info.podName))
    && (forall e :: e in s.latches && s.latches[e] == Started ==> e in s.realized)
    && (forall e :: e in s.accepted ==> e in s.latches)
    && (forall e :: e in s.claimed ==> e in s.accepted)
  }

  /** The decision that a waiter reports. */
  function Told(outcome: Outcome): Latch
  {
    match outcome
    case WaitOk(_) => Started
    case WaitFailed(_, reason) => Failed(reason)
    case _ => Waiting
  }

  predicate IsCreating(pc: Pc) { pc.With? && (pc.stage == CheckPod || pc.stage == RollBack) }

  /** What holds of one task, whatever the others do. */
  predicate TaskInv(s: State, pc: Pc)
  {
    && (pc.With? ==>
          && pc.entry in s.latches
          && (pc.stage == MarkStarted || pc.stage == DropStarted ==> pc.entry in s.realized)
          && (pc.stage in {DropStarted, DropFailed, DropRemoved} ==> s.latches[pc.entry] != Waiting)
          && (IsCreating(pc) ==> pc.entry !in s.accepted))
    && (pc.Finished? && (pc.outcome.WaitOk? || pc.outcome.WaitFailed?) ==>
          pc.outcome.entry in s.latches && s.latches[pc.outcome.entry] == Told(pc.outcome))
  }

  predicate Distinct(tasks: map<nat, Pc>)
  {
    forall t, u :: t in tasks && u in tasks && t != u && IsCreating(tasks[t]) && IsCreating(tasks[u]) ==>
      tasks[t].entry != tasks[u].entry
  }

  ghost predicate Inv(cfg: Config, s: State)
  {
    && StoreInv(cfg, s)
    && (forall t :: t in s.tasks ==> TaskInv(s, s.tasks[t]))
    && Distinct(s.tasks)
  }

  /** What no step undoes: in particular a decided latch keeps its outcome. */
  ghost predicate Evolves(s: State, s': State)
  {
    && s.nextUid <= s'.nextUid
    && (forall e :: e in s.latches ==> e in s'.latches && (s.latches[e] != Waiting ==> s'.latches[e] == s.latches[e]))
    && (forall e :: e in s.realized ==> e in s'.realized)
    && (forall e :: e in s.accepted ==> e in s'.accepted)
    && (forall e :: e in s.claimed ==> e in s'.claimed)
  }

  /** What a rule says of the entry the task goes on with, or answers 201 for. */
  predicate Follows(cfg: Config, s: State, pc: Pc, effect: Effect, pc': Pc)
  {
    && (effect.ReapInsert? ==>
          && effect.entry.uid == s.nextUid && effect.entry.info.id == IdOf(cfg, effect.entry.info.podName)
          && (pc' == With(effect.entry, CheckPod) || pc' == Finished(Accepted(effect.entry))))
    && (effect.Decide? ==>
          && pc.With? && effect.entry == pc.entry && effect.outcome != Waiting
          && (effect.outcome == Started ==> pc.stage == MarkStarted)
          && pc'.With? && pc'.entry == pc.entry && pc'.stage in {DropStarted, DropFailed, DropRemoved}
          && (pc'.stage == DropStarted ==> pc.stage == MarkStarted))
    && (effect.PodCreated? ==> pc == With(effect.entry, CreatePod) && pc' == With(effect.entry, MarkStarted))
    && (effect in {Silent, Reap} || effect.Remove? || effect.PodDeleted? ==>
          && (pc'.With? ==>
                && (pc == With(pc'.entry, CheckPod) || pc'.stage != RollBack)
                && ((pc.With? && pc.entry == pc'.entry)
                    || (pc'.entry.info.id in Kept(cfg, s) && Kept(cfg, s)[pc'.entry.info.id] == pc'.entry))
                && pc'.stage in {RollBack, CreatePod, MarkFailed, MarkRemoved, AwaitLatch})
          && (pc'.Finished? && pc'.outcome.Accepted? ==> pc == With(pc'.outcome.entry, CheckPod)))
    && (pc'.Finished? && (pc'.outcome.WaitOk? || pc'.outcome.WaitFailed?) ==>
          && pc'.outcome.entry in s.latches && s.latches[pc'.outcome.entry] == Told(pc'.outcome)
          && effect == Silent)
  }

  lemma StageFollows(cfg: Config, s: State, e: Entry, stage: Stage, effect: Effect, pc': Pc)
    requires StageRule(s, e, stage, effect, pc')
    ensures Follows(cfg, s, With(e, stage), effect, pc')
  {
  }

  lemma ReserveFollows(
      cfg: Config, s: State, dockerName: string, podName: string, createdAt: int, effect: Effect, pc': Pc)
    requires ReserveRule(cfg, s, dockerName, podName, createdAt, effect, pc')
    ensures Follows(cfg, s, Reserve(dockerName, podName, createdAt), effect, pc')
  {
  }

  /** getByRef returns an entry that is pending under its own ID. */
  lemma LookupFollows(cfg: Config, s: State, op: Op, ref: string, effect: Effect, pc': Pc)
    requires LookupRule(cfg, s, op, ref, effect, pc')
    requires forall k :: k in s.pending ==> s.pending[k].info.id == k
    ensures Follows(cfg, s, Lookup(op, ref), effect, pc')
  {
  }

  lemma RulesFollow(cfg: Config, s: State, pc: Pc, effect: Effect, pc': Pc)
    requires Allowed(cfg, s, pc, effect, pc')
    requires forall k :: k in s.pending ==> s.pending[k].info.id == k
    ensures Follows(cfg, s, pc, effect, pc')
  {
    match pc
    case With(e, stage) => StageFollows(cfg, s, e, stage, effect, pc');
    case Reserve(dockerName, podName, createdAt) =>
      ReserveFollows(cfg, s, dockerName, podName, createdAt, effect, pc');
    case Lookup(op, ref) => LookupFollows(cfg, s, op, ref, effect, pc');
    case _ =>
  }

  lemma ReapKeeps(cfg: Config, s: State)
    requires StoreInv(cfg, s)
    ensures StoreInv(cfg, Reaped(cfg, s)) && Evolves(s, Reaped(cfg, s))
  {
  }

  lemma InsertKeeps(cfg: Config, r: State, e: Entry)
    requires StoreInv(cfg, r) && e.uid == r.nextUid && e.info.id == IdOf(cfg, e.info.podName)
    ensures StoreInv(cfg, Insert(r, e)) && Evolves(r, Insert(r, e))
  {
    assert e !in r.latches;
  }

  lemma PerformKeeps(cfg: Config, s: State, pc: Pc, effect: Effect, pc': Pc)
    requires StoreInv(cfg, s) && Follows(cfg, s, pc, effect, pc') && TaskInv(s, pc)
    ensures StoreInv(cfg, Perform(cfg, s, effect)) && Evolves(s, Perform(cfg, s, effect))
    ensures Perform(cfg, s, effect).tasks == s.tasks && Perform(cfg, s, effect).accepted == s.accepted
  {
    if effect.Reap? || effect.ReapInsert? { ReapKeeps(cfg, s); }
    if effect.ReapInsert? { InsertKeeps(cfg, Reaped(cfg, s), effect.entry); }
  }

  lemma MoverKeeps(cfg: Config, s: State, pc: Pc, effect: Effect, pc': Pc)
    requires StoreInv(cfg, s) && Follows(cfg, s, pc, effect, pc') && TaskInv(s, pc)
    ensures TaskInv(Perform(cfg, s, effect), pc')
    ensures pc'.Finished? && pc'.outcome.Accepted? ==> pc'.outcome.entry in Perform(cfg, s, effect).latches
  {
    assert effect.ReapInsert? ==> effect.entry !in s.latches;
  }

  lemma TaskInvKept(s: State, s': State, pc: Pc)
    requires TaskInv(s, pc) && Evolves(s, s')
    requires IsCreating(pc) ==> pc.entry !in s'.accepted
    ensures TaskInv(s', pc)
  {
  }

  function CreatingEntry(pc: Pc): Option<Entry>
  {
    if IsCreating(pc) then Some(pc.entry)
    else if pc.Finished? && pc.outcome.Accepted? then Some(pc.outcome.entry)
    else None
  }

  lemma InvGoto(cfg: Config, s: State, base: State, t: nat, pc: Pc)
    requires Inv(cfg, s) && t in s.tasks && base.tasks == s.tasks && base.accepted == s.accepted
    requires StoreInv(cfg, base) && Evolves(s, base) && TaskInv(base, pc)
    requires pc.Finished? && pc.outcome.Accepted? ==> pc.outcome.entry in base.latches
    requires CreatingEntry(pc).Some? ==>
               forall u :: u in s.tasks && u != t && IsCreating(s.tasks[u]) ==>
                 s.tasks[u].entry != CreatingEntry(pc).value
    ensures Inv(cfg, Goto(base, t, pc)) && Evolves(s, Goto(base, t, pc))
  {
    var s' := Goto(base, t, pc);
    assert Evolves(base, s') && Evolves(s, s');
    assert StoreInv(cfg, s');
    forall u | u in s'.tasks ensures TaskInv(s', s'.tasks[u]) {
      if u != t { TaskInvKept(s, s', s.tasks[u]); } else { TaskInvKept(base, s', pc); }
    }
  }

  lemma OthersDiffer(cfg: Config, s: State, t: nat, effect: Effect, pc': Pc)
    requires Inv(cfg, s) && t in s.tasks && Follows(cfg, s, s.tasks[t], effect, pc') && CreatingEntry(pc').Some?
    ensures forall u :: u in s.tasks && u != t && IsCreating(s.tasks[u]) ==>
              s.tasks[u].entry != CreatingEntry(pc').value
  {
    forall u | u in s.tasks && u != t && IsCreating(s.tasks[u])
      ensures s.tasks[u].entry != CreatingEntry(pc').value
    {
      assert TaskInv(s, s.tasks[u]);
    }
  }

  lemma InvRun(cfg: Config, s: State, t: nat, effect: Effect, pc': Pc)
    requires Inv(cfg, s) && t in s.tasks && Follows(cfg, s, s.tasks[t], effect, pc')
    ensures var s' := Goto(Perform(cfg, s, effect), t, pc'); Inv(cfg, s') && Evolves(s, s')
  {
    assert TaskInv(s, s.tasks[t]);
    PerformKeeps(cfg, s, s.tasks[t], effect, pc');
    MoverKeeps(cfg, s, s.tasks[t], effect, pc');
    if CreatingEntry(pc').Some? { OthersDiffer(cfg, s, t, effect, pc'); }
    InvGoto(cfg, s, Perform(cfg, s, effect), t, pc');
  }

  lemma InvArrive(cfg: Config, s: State, t: nat, pc: Pc)
    requires Inv(cfg, s) && (pc.Reserve? || pc.Lookup? || pc == Finished(Rejected))
    ensures Inv(cfg, Goto(s, t, pc)) && Evolves(s, Goto(s, t, pc))
  {
    var s' := Goto(s, t, pc);
    forall u | u in s'.tasks ensures TaskInv(s', s'.tasks[u]) {
      if u != t { TaskInvKept(s, s', s.tasks[u]); }
    }
  }

  lemma InvReap(cfg: Config, s: State)
    requires Inv(cfg, s)
    ensures Inv(cfg, Reaped(cfg, s)) && Evolves(s, Reaped(cfg, s))
  {
    var s' := Reaped(cfg, s);
    ReapKeeps(cfg, s);
    forall u | u in s.tasks ensures TaskInv(s', s.tasks[u]) { TaskInvKept(s, s', s.tasks[u]); }
  }

  lemma InvOutside(cfg: Config, s: State, pods: map<string, string>, now: int)
    requires Inv(cfg, s)
    ensures var s' := s.(pods := pods, now := now); Inv(cfg, s') && Evolves(s, s')
  {
    var s' := s.(pods := pods, now := now);
    forall u | u in s.tasks ensures TaskInv(s', s.tasks[u]) { TaskInvKept(s, s', s.tasks[u]); }
  }

  lemma InvAllowed(cfg: Config, s: State, t: nat, effect: Effect, pc': Pc)
    requires Inv(cfg, s) && t in s.tasks && Allowed(cfg, s, s.tasks[t], effect, pc')
    ensures var s' := Goto(Perform(cfg, s, effect), t, pc'); Inv(cfg, s') && Evolves(s, s')
  {
    RulesFollow(cfg, s, s.tasks[t], effect, pc');
    InvRun(cfg, s, t, effect, pc');
  }

  lemma InvNext(cfg: Config, s: State, a: Action)
    requires Inv(cfg, s) && Next(cfg, s, a).Some?
    ensures Inv(cfg, Next(cfg, s, a).value) && Evolves(s, Next(cfg, s, a).value)
  {
    match a
    case Run(t, effect, pc) => InvAllowed(cfg, s, t, effect, pc);
    case ArriveCreate(t, req) => InvArrive(cfg, s, t, AfterBuild(cfg, req, s.now));
    case ArriveLookup(t, op, ref) => InvArrive(cfg, s, t, Lookup(op, ref));
    case ListPending => InvReap(cfg, s);
    case Cluster(pods) => InvOutside(cfg, s, pods, s.now);
    case Tick(now) => InvOutside(cfg, s, s.pods, now);
  }
}
