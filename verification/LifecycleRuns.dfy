/** What holds in every run of the lifecycle machine, including removals, expiry and API errors. */
module LifecycleRuns {
  import opened Common
  import opened PendingSpec
  import opened Lifecycle
  import Runs
  import Names
  import Ids

  lemma RunInv(cfg: Config, run: seq<State>, acts: seq<Action>, i: nat)
    requires IsRun(cfg, run, acts) && i < |run|
    ensures Inv(cfg, run[i])
  {
    var step := StepOf(cfg);
    forall s, a | Inv(cfg, s) && step(s, a).Some? ensures Inv(cfg, step(s, a).value) { InvNext(cfg, s, a); }
    Runs.Invariant(Init, step, (s, a) => true, s => Inv(cfg, s), run, acts, i);
  }

  /** The outcome of a latch never changes, and no 201 is forgotten. */
  lemma RunEvolves(cfg: Config, run: seq<State>, acts: seq<Action>, i: nat, j: nat)
    requires IsRun(cfg, run, acts) && i <= j < |run|
    ensures Evolves(run[i], run[j])
  {
    var step := StepOf(cfg);
    forall s, a | Inv(cfg, s) && step(s, a).Some? ensures Evolves(s, step(s, a).value) { InvNext(cfg, s, a); }
    forall k | 0 <= k < |run| ensures Inv(cfg, run[k]) { RunInv(cfg, run, acts, k); }
    Runs.Progress(Init, step, s => Inv(cfg, s), (s, s') => Evolves(s, s'), run, acts, i, j);
  }

  /** The step in which pods.Create succeeds on the spec of `e`. */
  ghost predicate CreatesPodFor(s: State, a: Action, e: Entry)
  {
    && a.Run? && a.task in s.tasks && s.tasks[a.task] == With(e, CreatePod)
    && a.effect == PodCreated(e) && e.info.podName !in s.pods
  }

  lemma OnlyCreateCreates(cfg: Config, s: State, pc: Pc, e: Entry, pc': Pc)
    requires Allowed(cfg, s, pc, PodCreated(e), pc')
    ensures pc == With(e, CreatePod) && e.info.podName !in s.pods
  {
  }

  lemma RealizedByCreate(cfg: Config, s: State, a: Action, e: Entry)
    requires Next(cfg, s, a).Some?
    requires e in Next(cfg, s, a).value.realized && e !in s.realized
    ensures CreatesPodFor(s, a, e)
  {
    assert a.Run? && a.effect == PodCreated(e);
    OnlyCreateCreates(cfg, s, s.tasks[a.task], e, a.pc);
  }

  lemma {:induction false} RealizedEarlier(cfg: Config, run: seq<State>, acts: seq<Action>, i: nat, e: Entry)
    requires IsRun(cfg, run, acts) && i < |run| && e in run[i].realized
    ensures exists j :: 0 <= j < i && CreatesPodFor(run[j], acts[j], e)
  {
    assert i > 0;
    assert Runs.StepAt(StepOf(cfg), run, acts, i - 1);
    if e in run[i - 1].realized {
      RealizedEarlier(cfg, run, acts, i - 1, e);
    } else {
      RealizedByCreate(cfg, run[i - 1], acts[i - 1], e);
    }
  }

  /** A waiter whose waitForStart returned nil was preceded by a successful pods.Create of that very spec. */
  lemma WaiterImpliesCreate(cfg: Config, run: seq<State>, acts: seq<Action>, i: nat, t: nat, e: Entry)
    requires IsRun(cfg, run, acts) && i < |run|
    requires t in run[i].tasks && run[i].tasks[t] == Finished(WaitOk(e))
    ensures exists j :: 0 <= j < i && CreatesPodFor(run[j], acts[j], e)
  {
    RunInv(cfg, run, acts, i);
    assert TaskInv(run[i], run[i].tasks[t]);
    RealizedEarlier(cfg, run, acts, i, e);
  }

  // ---- entries that leave the store undecided ----

  ghost predicate LeavesUndecided(s: State, s': State, k: string)
  {
    && k in s.pending && s.pending[k] in s'.latches
    && (k in s'.pending ==> s'.pending[k] != s.pending[k])
    && s'.latches[s.pending[k]] == Waiting
  }

  /** A task about to call remove(k) for a create conflict, or on behalf of an entry no longer stored under k. */
  predicate RemovesUndecided(s: State, a: Action, k: string)
  {
    && a.Run? && a.task in s.tasks && s.tasks[a.task].With?
    && s.tasks[a.task].entry.info.id == k
    && k in s.pending && s.pending[k] in s.latches && s.latches[s.pending[k]] == Waiting
    && (s.tasks[a.task].stage == RollBack ||
        (s.tasks[a.task].stage in {DropStarted, DropFailed, DropRemoved} && s.tasks[a.task].entry != s.pending[k]))
  }

  lemma ReapDecides(cfg: Config, s: State, k: string)
    requires StoreInv(cfg, s) && k in s.pending
    ensures var r := Reaped(cfg, s);
            && s.pending[k] in r.latches
            && (if k in r.pending then r.pending[k] == s.pending[k] else r.latches[s.pending[k]] != Waiting)
  {
    var kept := Kept(cfg, s);
    assert s.pending[k] in s.pending.Values;
    assert k !in kept ==> s.pending[k] !in kept.Values;
  }

  lemma RemovesKey(cfg: Config, s: State, e: Entry, k: string)
    requires StoreInv(cfg, s) && k in s.pending
    ensures LeavesUndecided(s, Perform(cfg, s, Remove(e)), k) <==>
              e.info.id == k && s.latches[s.pending[k]] == Waiting
  {
  }

  predicate RemovesOwn(cfg: Config, s: State, pc: Pc, effect: Effect)
  {
    && (effect.Remove? <==> pc.With? && pc.stage in {RollBack, DropStarted, DropFailed, DropRemoved})
    && (effect.Remove? ==> effect.entry == pc.entry)
    && (effect.ReapInsert? ==> effect.entry.uid == s.nextUid && effect.entry.info.id !in Kept(cfg, s))
  }

  lemma RemoversOnly(cfg: Config, s: State, pc: Pc, effect: Effect, pc': Pc)
    requires Allowed(cfg, s, pc, effect, pc')
    ensures RemovesOwn(cfg, s, pc, effect)
  {
  }

  lemma OthersKeepOrDecide(cfg: Config, s: State, effect: Effect, k: string)
    requires StoreInv(cfg, s) && k in s.pending && !effect.Remove?
    requires effect.ReapInsert? ==> effect.entry.uid == s.nextUid && effect.entry.info.id !in Kept(cfg, s)
    ensures !LeavesUndecided(s, Perform(cfg, s, effect), k)
  {
    if effect.Reap? || effect.ReapInsert? { ReapDecides(cfg, s, k); }
  }

  lemma EffectRemovals(cfg: Config, s: State, t: nat, effect: Effect, pc: Pc, k: string)
    requires Inv(cfg, s) && t in s.tasks && RemovesOwn(cfg, s, s.tasks[t], effect) && k in s.pending
    ensures LeavesUndecided(s, Goto(Perform(cfg, s, effect), t, pc), k) <==> RemovesUndecided(s, Run(t, effect, pc), k)
  {
    assert TaskInv(s, s.tasks[t]);
    var base := Perform(cfg, s, effect);
    assert LeavesUndecided(s, Goto(base, t, pc), k) <==> LeavesUndecided(s, base, k);
    if effect.Remove? { RemovesKey(cfg, s, effect.entry, k); } else { OthersKeepOrDecide(cfg, s, effect, k); }
  }

  lemma RunRemovals(cfg: Config, s: State, t: nat, effect: Effect, pc: Pc, k: string)
    requires Inv(cfg, s) && t in s.tasks && Allowed(cfg, s, s.tasks[t], effect, pc) && k in s.pending
    ensures LeavesUndecided(s, Goto(Perform(cfg, s, effect), t, pc), k) <==> RemovesUndecided(s, Run(t, effect, pc), k)
  {
    RemoversOnly(cfg, s, s.tasks[t], effect, pc);
    EffectRemovals(cfg, s, t, effect, pc, k);
  }

  /**
   * An entry leaves the pending store without its waiters being told in exactly two ways: /create rolling
   * back after finding a live pod, and a handler removing by ID after the entry it marked was replaced.
   */
  lemma UndecidedRemovals(cfg: Config, s: State, a: Action, k: string)
    requires Inv(cfg, s) && Next(cfg, s, a).Some?
    ensures LeavesUndecided(s, Next(cfg, s, a).value, k) <==> RemovesUndecided(s, a, k)
  {
    if k in s.pending {
      if a.Run? {
        RunRemovals(cfg, s, a.task, a.effect, a.pc, k);
      } else if a.ListPending? {
        ReapDecides(cfg, s, k);
      }
    }
  }

  /** An accepted entry is only lost to a handler that works on a different entry. */
  lemma AcceptedLostToStranger(cfg: Config, s: State, a: Action, k: string)
    requires Inv(cfg, s) && Next(cfg, s, a).Some? && k in s.pending && s.pending[k] in s.accepted
    ensures LeavesUndecided(s, Next(cfg, s, a).value, k) ==>
      RemovesUndecided(s, a, k) && s.tasks[a.task].entry != s.pending[k]
  {
    UndecidedRemovals(cfg, s, a, k);
    if RemovesUndecided(s, a, k) {
      assert TaskInv(s, s.tasks[a.task]);
    }
  }

  // ---- lookups by name ----

  /** What is to hold of the --name and the pod name of an entry. */
  type NameRule = (string, string) -> bool

  predicate TaskNamed(rule: NameRule, pc: Pc) { pc.Reserve? ==> rule(pc.dockerName, pc.podName) }

  /** Every entry, and every /create about to reserve one, has names that follow the rule. */
  ghost predicate Named(rule: NameRule, s: State)
  {
    && (forall e :: e in s.latches ==> rule(e.info.dockerName, e.info.podName))
    && (forall t :: t in s.tasks ==> TaskNamed(rule, s.tasks[t]))
  }

  predicate NamesKept(pc: Pc, effect: Effect, pc': Pc)
  {
    && !pc'.Reserve?
    && (effect.ReapInsert? ==>
          && pc.Reserve?
          && pc.dockerName == effect.entry.info.dockerName && pc.podName == effect.entry.info.podName)
  }

  lemma NewEntries(cfg: Config, s: State, pc: Pc, effect: Effect, pc': Pc)
    requires Allowed(cfg, s, pc, effect, pc')
    ensures NamesKept(pc, effect, pc')
  {
  }

  lemma LatchesAdded(cfg: Config, s: State, effect: Effect, e: Entry)
    requires e in Perform(cfg, s, effect).latches
    ensures e in s.latches || effect == ReapInsert(e)
  {
  }

  lemma NamedGoto(rule: NameRule, s: State, t: nat, pc: Pc)
    requires Named(rule, s) && TaskNamed(rule, pc)
    ensures Named(rule, Goto(s, t, pc))
  {
  }

  lemma NamedPerform(cfg: Config, rule: NameRule, s: State, t: nat, effect: Effect, pc: Pc)
    requires Named(rule, s) && t in s.tasks && NamesKept(s.tasks[t], effect, pc)
    ensures Named(rule, Goto(Perform(cfg, s, effect), t, pc))
  {
    assert TaskNamed(rule, s.tasks[t]);
    var s' := Perform(cfg, s, effect);
    forall e | e in s'.latches ensures rule(e.info.dockerName, e.info.podName) {
      LatchesAdded(cfg, s, effect, e);
    }
    NamedGoto(rule, s', t, pc);
  }

  lemma NamedRun(cfg: Config, rule: NameRule, s: State, t: nat, effect: Effect, pc: Pc)
    requires Named(rule, s) && t in s.tasks && Allowed(cfg, s, s.tasks[t], effect, pc)
    ensures Named(rule, Goto(Perform(cfg, s, effect), t, pc))
  {
    NewEntries(cfg, s, s.tasks[t], effect, pc);
    NamedPerform(cfg, rule, s, t, effect, pc);
  }

  /** The pod name Build gives a request, if it gives one, follows the rule. */
  predicate RequestNamed(cfg: Config, rule: NameRule, req: Request)
  {
    PodNameFor(cfg, req).Ok? ==> rule(req.dockerName, PodNameFor(cfg, req).value)
  }

  lemma NamedNext(cfg: Config, rule: NameRule, s: State, a: Action)
    requires Named(rule, s) && Next(cfg, s, a).Some?
    requires a.ArriveCreate? ==> RequestNamed(cfg, rule, a.req)
    ensures Named(rule, Next(cfg, s, a).value)
  {
    match a
    case Run(t, effect, pc) => NamedRun(cfg, rule, s, t, effect, pc);
    case ArriveCreate(t, req) => NamedGoto(rule, s, t, AfterBuild(cfg, req, s.now));
    case ArriveLookup(t, op, ref) => NamedGoto(rule, s, t, Lookup(op, ref));
    case _ =>
  }

  /** What holds of the names of all requests holds of all entries. */
  lemma RunFollows(cfg: Config, rule: NameRule, run: seq<State>, acts: seq<Action>, i: nat)
    requires IsRun(cfg, run, acts) && i < |run|
    requires forall j :: 0 <= j < |acts| && acts[j].ArriveCreate? ==> RequestNamed(cfg, rule, acts[j].req)
    ensures Named(rule, run[i])
  {
    var step := StepOf(cfg);
    var allowed := (s: State, a: Action) => a.ArriveCreate? ==> RequestNamed(cfg, rule, a.req);
    forall s, a | Named(rule, s) && allowed(s, a) && step(s, a).Some? ensures Named(rule, step(s, a).value) {
      NamedNext(cfg, rule, s, a);
    }
    Runs.Invariant(Init, step, allowed, s => Named(rule, s), run, acts, i);
  }

  /** SanitizeName on non-empty input and the range of GeneratedName, as function values. */
  datatype Namer = Namer(clean: string -> Result<string, string>, generates: string -> bool)

  ghost predicate IsGenerated(lower: Names.Lowering, podName: string)
  {
    exists image: string, suffix: Suffix :: podName == Names.GeneratedName(lower, image, suffix)
  }

  ghost function NamerOf(cfg: Config): Namer
  {
    Namer(name => Names.SanitizeName(cfg.lower, name, ""), podName => IsGenerated(cfg.lower, podName))
  }

  /**
   * The pod name is what SanitizeName makes of the --name, or one of GeneratedName when there is none; it is a fixed
   * point of SanitizeName unless it is a generated one that ends in a dash.
   */
  predicate WellNamed(namer: Namer, dockerName: string, podName: string)
  {
    && 0 < |podName| <= Names.MAX_NAME_LEN
    && (dockerName != "" ==> namer.clean(dockerName) == Ok(podName) && namer.clean(podName) == Ok(podName))
    && (dockerName == "" ==> namer.generates(podName))
    && (namer.clean(podName) == Ok(podName) || podName[|podName| - 1] == '-')
  }

  function RuleOf(namer: Namer): NameRule { (dockerName, podName) => WellNamed(namer, dockerName, podName) }

  lemma BuildNames(cfg: Config, req: Request)
    ensures RequestNamed(cfg, RuleOf(NamerOf(cfg)), req)
  {
    if req.dockerName != "" {
      Names.SanitizeNameSpec(cfg.lower, req.dockerName, "");
    } else {
      Names.GeneratedNameIsLabel(cfg.lower, req.image, req.suffix);
    }
    if PodNameFor(cfg, req).Ok? {
      Names.FixedPoints(cfg.lower, PodNameFor(cfg, req).value, "");
    }
  }

  lemma RunNamed(cfg: Config, run: seq<State>, acts: seq<Action>, i: nat)
    requires IsRun(cfg, run, acts) && i < |run|
    ensures Named(RuleOf(NamerOf(cfg)), run[i])
  {
    forall j | 0 <= j < |acts| && acts[j].ArriveCreate?
      ensures RequestNamed(cfg, RuleOf(NamerOf(cfg)), acts[j].req)
    {
      BuildNames(cfg, acts[j].req);
    }
    RunFollows(cfg, RuleOf(NamerOf(cfg)), run, acts, i);
  }

  predicate IsSomeId(m: map<string, Entry>, ref: string)
  {
    exists k :: k in m && (k == ref || Ids.ShortID(k) == ref)
  }

  ghost predicate Unambiguous(m: map<string, Entry>, ref: string)
  {
    forall p, q :: IsFound(m, InfoOf, ref, Some(p)) && IsFound(m, InfoOf, ref, Some(q)) ==> p == q
  }

  /** The generated pod name of an unnamed container is another's --name. */
  predicate Clash(p: Info, q: Info, ref: string)
  {
    p.dockerName == "" && p.podName == ref && q.dockerName == ref
  }

  ghost predicate NameClash(m: map<string, Entry>, ref: string)
  {
    exists k, l :: k in m && l in m && Clash(m[k].info, m[l].info, ref)
  }

  /** Two entries that match the same name by pod name or --name are the same one, unless their names clash. */
  lemma SameName(namer: Namer, p: Info, q: Info, ref: string)
    requires WellNamed(namer, p.dockerName, p.podName) && WellNamed(namer, q.dockerName, q.podName) && ref != ""
    requires p.podName == ref || p.dockerName == ref
    requires q.podName == ref || q.dockerName == ref
    ensures p.podName == q.podName || ref[|ref| - 1] == '-'
    ensures p.podName == q.podName || Clash(p, q, ref) || Clash(q, p, ref)
  {
  }

  lemma TwoMatchesClash(cfg: Config, namer: Namer, s: State, ref: string, k: string, l: string)
    requires StoreInv(cfg, s) && Named(RuleOf(namer), s)
    requires ref != "" && !IsSomeId(s.pending, ref) && k in s.pending && l in s.pending
    requires Matches(k, s.pending[k].info, ref) && Matches(l, s.pending[l].info, ref)
    requires s.pending[k].info.podName != s.pending[l].info.podName
    ensures NameClash(s.pending, ref) && ref[|ref| - 1] == '-'
  {
    var p, q := s.pending[k].info, s.pending[l].info;
    assert RuleOf(namer)(p.dockerName, p.podName) && RuleOf(namer)(q.dockerName, q.podName);
    SameName(namer, p, q, ref);
  }

  /** A name that clashes finds either container, and those have different pod names. */
  lemma ClashFindsBoth(cfg: Config, s: State, ref: string) returns (k: string, l: string)
    requires StoreInv(cfg, s) && ref != "" && !IsSomeId(s.pending, ref) && NameClash(s.pending, ref)
    ensures k in s.pending && l in s.pending && Clash(s.pending[k].info, s.pending[l].info, ref)
    ensures IsFound(s.pending, InfoOf, ref, Some(s.pending[k])) && IsFound(s.pending, InfoOf, ref, Some(s.pending[l]))
    ensures s.pending[k].info.podName != s.pending[l].info.podName
  {
    var m := s.pending;
    k, l :| k in m && l in m && Clash(m[k].info, m[l].info, ref);
    assert Matches(k, InfoOf(m[k]), ref) && Matches(l, InfoOf(m[l]), ref);
    assert m[k].info.id == k && m[l].info.id == l;
  }

  lemma FoundMatches(s: State, ref: string, p: Entry) returns (k: string)
    requires !IsSomeId(s.pending, ref) && IsFound(s.pending, InfoOf, ref, Some(p))
    ensures k in s.pending && s.pending[k] == p && Matches(k, p.info, ref)
  {
    k :| k in s.pending && s.pending[k] == p && Matches(k, p.info, ref);
  }

  /**
   * In every reachable pending store a name that is no ID resolves to at most one container whatever the map
   * order, exactly unless the names clash; and names that do not end in a dash never clash.
   */
  lemma NamesUnambiguous(cfg: Config, run: seq<State>, acts: seq<Action>, i: nat, ref: string)
    requires IsRun(cfg, run, acts) && i < |run|
    requires ref != "" && !IsSomeId(run[i].pending, ref)
    ensures Unambiguous(run[i].pending, ref) <==> !NameClash(run[i].pending, ref)
    ensures NameClash(run[i].pending, ref) ==> ref[|ref| - 1] == '-'
  {
    RunInv(cfg, run, acts, i);
    RunNamed(cfg, run, acts, i);
    var s := run[i];
    forall p, q | IsFound(s.pending, InfoOf, ref, Some(p)) && IsFound(s.pending, InfoOf, ref, Some(q)) && p != q
      ensures NameClash(s.pending, ref)
    {
      var k := FoundMatches(s, ref, p);
      var l := FoundMatches(s, ref, q);
      TwoMatchesClash(cfg, NamerOf(cfg), s, ref, k, l);
    }
    if NameClash(s.pending, ref) {
      var k, l := ClashFindsBoth(cfg, s, ref);
      TwoMatchesClash(cfg, NamerOf(cfg), s, ref, k, l);
    }
  }

  /** FindByID: a direct Get by pod name, else the first pod in list order that matches. */
  predicate FindByID(cfg: Config, pods: map<string, string>, ref: string, name: string)
  {
    if ref in pods then name == ref else name in pods && PodMatches(cfg, name, pods[name], ref)
  }

  /** The live pods are those of the entries of `m`. */
  ghost predicate SameContainers(m: map<string, Entry>, pods: map<string, string>)
  {
    && (forall k :: k in m ==> m[k].info.podName in pods && pods[m[k].info.podName] == m[k].info.dockerName)
    && (forall n :: n in pods ==> exists k :: k in m && m[k].info.podName == n)
  }

  /** A pod FindByID returns for a name matches it as a pending entry, too. */
  lemma FoundPodMatches(cfg: Config, s: State, pods: map<string, string>, ref: string, n: string) returns (k: string)
    requires StoreInv(cfg, s) && SameContainers(s.pending, pods) && FindByID(cfg, pods, ref, n)
    ensures k in s.pending && s.pending[k].info.podName == n
    ensures Matches(k, s.pending[k].info, ref) || k == ref
  {
    k :| k in s.pending && s.pending[k].info.podName == n;
  }

  /** Whatever the lookups pick, they pick the same pod name. */
  ghost predicate LookupsAgree(cfg: Config, m: map<string, Entry>, pods: map<string, string>, ref: string)
  {
    forall p, n :: IsFound(m, InfoOf, ref, Some(p)) && FindByID(cfg, pods, ref, n) ==> n == p.info.podName
  }

  lemma DisagreementClashes(
      cfg: Config, namer: Namer, s: State, pods: map<string, string>, ref: string, p: Entry, n: string)
    requires StoreInv(cfg, s) && Named(RuleOf(namer), s) && SameContainers(s.pending, pods)
    requires ref != "" && !IsSomeId(s.pending, ref)
    requires IsFound(s.pending, InfoOf, ref, Some(p)) && FindByID(cfg, pods, ref, n) && n != p.info.podName
    ensures NameClash(s.pending, ref)
  {
    var k := FoundMatches(s, ref, p);
    var l := FoundPodMatches(cfg, s, pods, ref, n);
    TwoMatchesClash(cfg, namer, s, ref, k, l);
  }

  lemma BothOrNeither(cfg: Config, s: State, pods: map<string, string>, ref: string)
    requires StoreInv(cfg, s) && SameContainers(s.pending, pods) && !IsSomeId(s.pending, ref)
    ensures SomeMatch(s.pending, InfoOf, ref) <==> exists n :: FindByID(cfg, pods, ref, n)
  {
    forall n | FindByID(cfg, pods, ref, n) ensures SomeMatch(s.pending, InfoOf, ref) {
      var k := FoundPodMatches(cfg, s, pods, ref, n);
      assert Matches(k, InfoOf(s.pending[k]), ref);
    }
    if SomeMatch(s.pending, InfoOf, ref) {
      var k :| k in s.pending && Matches(k, InfoOf(s.pending[k]), ref);
      assert FindByID(cfg, pods, ref, if ref in pods then ref else s.pending[k].info.podName);
    }
  }

  /**
   * Once started, the containers of a reachable pending store are found under the same names as before, exactly
   * unless the names clash.
   */
  lemma PendingAndLiveLookupsAgree(
      cfg: Config, run: seq<State>, acts: seq<Action>, i: nat, pods: map<string, string>, ref: string)
    requires IsRun(cfg, run, acts) && i < |run| && SameContainers(run[i].pending, pods)
    requires ref != "" && !IsSomeId(run[i].pending, ref)
    ensures LookupsAgree(cfg, run[i].pending, pods, ref) <==> !NameClash(run[i].pending, ref)
    ensures SomeMatch(run[i].pending, InfoOf, ref) <==> exists n :: FindByID(cfg, pods, ref, n)
  {
    RunInv(cfg, run, acts, i);
    RunNamed(cfg, run, acts, i);
    var s := run[i];
    forall p, n |
      IsFound(s.pending, InfoOf, ref, Some(p)) && FindByID(cfg, pods, ref, n) && n != p.info.podName
      ensures NameClash(s.pending, ref)
    {
      DisagreementClashes(cfg, NamerOf(cfg), s, pods, ref, p, n);
    }
    if NameClash(s.pending, ref) {
      var k, l := ClashFindsBoth(cfg, s, ref);
      assert FindByID(cfg, pods, ref, ref);
    }
    BothOrNeither(cfg, s, pods, ref);
  }

  /** The full ID of pod name `name` is no other pending container's ID or, failing that, --name. */
  predicate OwnPendingId(m: map<string, Entry>, id: string, name: string)
  {
    if id in m then m[id].info.podName == name
    else forall k :: k in m && m[k].info.dockerName == id ==> m[k].info.podName == name
  }

  /** It is no other pod's name or, failing that, --name or ID. */
  predicate OwnPodId(cfg: Config, pods: map<string, string>, id: string, name: string)
  {
    if id in pods then id == name else forall n :: n in pods && (pods[n] == id || IdOf(cfg, n) == id) ==> n == name
  }

  lemma PendingIdIsNoName(namer: Namer, s: State, id: string, k: string)
    requires Named(RuleOf(namer), s) && k in s.pending && s.pending[k] in s.latches && |id| == 64 && |k| == 64
    ensures Matches(k, InfoOf(s.pending[k]), id) <==> s.pending[k].info.dockerName == id
  {
    var p := s.pending[k].info;
    assert RuleOf(namer)(p.dockerName, p.podName);
    assert |Ids.ShortID(k)| == 12;
  }

  lemma PendingByIdIsExact(cfg: Config, namer: Namer, s: State, name: string)
    requires StoreInv(cfg, s) && Named(RuleOf(namer), s) && Ids.IsDigest(cfg.digest)
    ensures (forall p :: IsFound(s.pending, InfoOf, IdOf(cfg, name), Some(p)) ==> p.info.podName == name)
            <==> OwnPendingId(s.pending, IdOf(cfg, name), name)
  {
    var m, id := s.pending, IdOf(cfg, name);
    forall k | k in m ensures Matches(k, InfoOf(m[k]), id) <==> m[k].info.dockerName == id {
      assert k == IdOf(cfg, m[k].info.podName);
      PendingIdIsNoName(namer, s, id, k);
    }
    if !OwnPendingId(m, id, name) {
      var k :| k in m && (if id in m then k == id else m[k].info.dockerName == id) && m[k].info.podName != name;
      assert IsFound(m, InfoOf, id, Some(m[k]));
    }
  }

  lemma PodByIdIsExact(cfg: Config, pods: map<string, string>, name: string)
    requires Ids.IsDigest(cfg.digest)
    ensures (forall n :: FindByID(cfg, pods, IdOf(cfg, name), n) ==> n == name)
            <==> OwnPodId(cfg, pods, IdOf(cfg, name), name)
    ensures name in pods && OwnPodId(cfg, pods, IdOf(cfg, name), name) ==> FindByID(cfg, pods, IdOf(cfg, name), name)
  {
    var id := IdOf(cfg, name);
    forall n ensures PodMatches(cfg, n, "", id) <==> IdOf(cfg, n) == id || id == "" {
      assert |Ids.ShortID(IdOf(cfg, n))| == 12;
    }
    if !OwnPodId(cfg, pods, id, name) {
      var n :| n in pods && (if id in pods then n == id else pods[n] == id || IdOf(cfg, n) == id) && n != name;
      assert FindByID(cfg, pods, id, n);
    }
  }

  /**
   * A lookup by a full container ID acts on that container and no other, before and after it is started, exactly
   * when the ID is its own. Short IDs and the pod names the daemon gives never get in the way.
   */
  lemma LookupByIdIsExact(
      cfg: Config, run: seq<State>, acts: seq<Action>, i: nat, name: string, pods: map<string, string>)
    requires IsRun(cfg, run, acts) && i < |run| && Ids.IsDigest(cfg.digest)
    ensures (forall p :: IsFound(run[i].pending, InfoOf, IdOf(cfg, name), Some(p)) ==> p.info.podName == name)
            <==> OwnPendingId(run[i].pending, IdOf(cfg, name), name)
    ensures (forall n :: FindByID(cfg, pods, IdOf(cfg, name), n) ==> n == name)
            <==> OwnPodId(cfg, pods, IdOf(cfg, name), name)
    ensures name in pods && OwnPodId(cfg, pods, IdOf(cfg, name), name) ==> FindByID(cfg, pods, IdOf(cfg, name), name)
  {
    RunInv(cfg, run, acts, i);
    RunNamed(cfg, run, acts, i);
    PendingByIdIsExact(cfg, NamerOf(cfg), run[i], name);
    PodByIdIsExact(cfg, pods, name);
  }

  // ---- what a short ID or a name finds ----

  /** A reference that is no key and matches `k` finds it for certain exactly when it matches nothing else. */
  lemma OnlyMatchIsFound(cfg: Config, s: State, ref: string, k: string)
    requires StoreInv(cfg, s) && k in s.pending && ref !in s.pending && Matches(k, s.pending[k].info, ref)
    ensures (forall r :: IsFound(s.pending, InfoOf, ref, r) <==> r == Some(s.pending[k]))
      <==> forall l :: l in s.pending && l != k ==> !Matches(l, s.pending[l].info, ref)
  {
    var m := s.pending;
    assert IsFound(m, InfoOf, ref, Some(m[k]));
    forall l | l in m && Matches(l, m[l].info, ref) ensures IsFound(m, InfoOf, ref, Some(m[l])) && m[l].info.id == l {
    }
  }

  lemma PendingIdLength(cfg: Config, s: State, k: string)
    requires StoreInv(cfg, s) && Ids.IsDigest(cfg.digest) && k in s.pending
    ensures |k| == 64 && Ids.ShortID(k) == k[..12]
  {
    assert k == IdOf(cfg, s.pending[k].info.podName);
  }

  lemma ShortIdMatches(cfg: Config, s: State, k: string, l: string)
    requires StoreInv(cfg, s) && Ids.IsDigest(cfg.digest) && k in s.pending && l in s.pending
    ensures |k| == 64
    ensures Matches(l, s.pending[l].info, k[..12]) <==>
      k[..12] <= l || s.pending[l].info.podName == k[..12] || s.pending[l].info.dockerName == k[..12]
  {
    PendingIdLength(cfg, s, k);
    PendingIdLength(cfg, s, l);
  }

  /**
   * In every reachable store the first twelve characters of an ID find its container, and nothing else, exactly when
   * no other container's ID starts with them or has them as pod name or --name.
   */
  lemma ShortIdIsExact(cfg: Config, run: seq<State>, acts: seq<Action>, i: nat, k: string)
    requires IsRun(cfg, run, acts) && i < |run| && Ids.IsDigest(cfg.digest) && k in run[i].pending
    ensures |k| == 64
    ensures var m, ref := run[i].pending, k[..12];
      (forall r :: IsFound(m, InfoOf, ref, r) <==> r == Some(m[k]))
      <==> forall l :: l in m && l != k ==> !(ref <= l) && m[l].info.podName != ref && m[l].info.dockerName != ref
  {
    RunInv(cfg, run, acts, i);
    var s, m := run[i], run[i].pending;
    forall l | l in m
      ensures |l| == 64 && (Matches(l, m[l].info, k[..12]) <==>
        k[..12] <= l || m[l].info.podName == k[..12] || m[l].info.dockerName == k[..12])
    {
      PendingIdLength(cfg, s, l);
      ShortIdMatches(cfg, s, k, l);
    }
    OnlyMatchIsFound(cfg, s, k[..12], k);
  }

  /** A pending container is found by its --name and by its pod name, and nothing else is, unless that name clashes. */
  lemma NameFindsContainer(cfg: Config, run: seq<State>, acts: seq<Action>, i: nat, k: string, ref: string)
    requires IsRun(cfg, run, acts) && i < |run| && k in run[i].pending
    requires ref == run[i].pending[k].info.dockerName || ref == run[i].pending[k].info.podName
    requires ref != "" && !IsSomeId(run[i].pending, ref)
    ensures (forall r :: IsFound(run[i].pending, InfoOf, ref, r) <==> r == Some(run[i].pending[k]))
      <==> !NameClash(run[i].pending, ref)
  {
    RunInv(cfg, run, acts, i);
    RunNamed(cfg, run, acts, i);
    var s := run[i];
    forall l | l in s.pending && l != k && Matches(l, s.pending[l].info, ref) ensures NameClash(s.pending, ref) {
      assert s.pending[k].info.id == k && s.pending[l].info.id == l;
      TwoMatchesClash(cfg, NamerOf(cfg), s, ref, k, l);
    }
    OnlyMatchIsFound(cfg, s, ref, k);
    if NameClash(s.pending, ref) {
      var p, q := ClashFindsBoth(cfg, s, ref);
    }
  }

  /** FindByID's answers: the pod of that name, else any whose --name it is or whose ID is or starts with it. */
  lemma FindByIDAnswers(cfg: Config, pods: map<string, string>, ref: string, n: string)
    requires Ids.IsDigest(cfg.digest)
    ensures FindByID(cfg, pods, ref, n) <==>
      if ref in pods then n == ref
      else n in pods && (pods[n] == ref || ref == IdOf(cfg, n) || (|ref| == 12 && ref <= IdOf(cfg, n)))
  {
    assert |IdOf(cfg, n)| == 64;
    assert Ids.ShortID(IdOf(cfg, n)) == IdOf(cfg, n)[..12];
  }

  /** The same for the live pods. */
  lemma PodShortIdIsExact(cfg: Config, pods: map<string, string>, n: string)
    requires Ids.IsDigest(cfg.digest) && n in pods
    ensures |IdOf(cfg, n)| == 64
    ensures var ref := IdOf(cfg, n)[..12];
      (forall x :: FindByID(cfg, pods, ref, x) <==> x == n)
      <==> if ref in pods then ref == n
           else forall x :: x in pods && x != n ==> pods[x] != ref && !(ref <= IdOf(cfg, x))
  {
    assert Ids.IsContainerID(IdOf(cfg, n));
    var ref := IdOf(cfg, n)[..12];
    forall x
      ensures FindByID(cfg, pods, ref, x) <==>
        if ref in pods then x == ref else x in pods && (pods[x] == ref || ref <= IdOf(cfg, x))
    {
      assert |IdOf(cfg, x)| == 64;
      FindByIDAnswers(cfg, pods, ref, x);
    }
    if ref in pods {
      assert FindByID(cfg, pods, ref, ref);
    }
  }
}
