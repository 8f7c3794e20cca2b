/**
 * Who owns a forwarder handle: ensureRunning, watchPodForCleanup, deletePod, wait-removed and Shutdown as a step
 * machine over internal/forwarder/forwarder.go. Every locked section of the registry, every Open, every handle
 * Close outside the lock and every apiserver call is one step; the number of tasks is unbounded.
 */
module Ownership {
  import opened Common
  import Registry
  import Runs

  /** A handle returned by one Open call. */
  type Handle = nat

  type IdFunction = string -> string

  /**
   * Program counters: of a start in ensureRunning, of a cleanup watcher, of a handler about to close the
   * forwarder of an ID, and of whoever took handles out of the registry and still has to close them.
   */
  datatype Pc =
    | WaitReady(name: string) | CheckHas(name: string) | OpenForwarder(name: string)
    | SetHandle(name: string, handle: Handle) | SpawnWatcher(name: string)
    | WatchHas(name: string) | WatchGet(name: string) | WatchClose(name: string)
    | CloseId(id: string) | CloseHandles(handles: set<Handle>) | ShutdownSwap
    | Done

  datatype PodState = Running | Terminated

  /** `closed` records every call of a handle's Close, in order. */
  datatype State = State(
    registry: map<string, Handle>,
    issued: set<Handle>,
    closed: seq<Handle>,
    pods: map<string, PodState>,
    tasks: map<nat, Pc>)

  datatype Effect =
    | Silent
    | Opened(handle: Handle)
    | Set(id: string, handle: Handle)
    | Spawn(watcher: nat, name: string)
    | Unbind(id: string)
    | Swap
    | CloseOne(handle: Handle)

  datatype Action =
    | Arrive(task: nat, pc: Pc)
    | Run(task: nat, effect: Effect, pc: Pc)
    | Cluster(pods: map<string, PodState>)

  function Perform(s: State, effect: Effect): State
  {
    match effect
    case Silent => s
    case Opened(h) => s.(issued := s.issued + {h})
    case Set(id, h) =>
      var closing := match Registry.Bound(s.registry, id) case Some(prev) => [prev] case None => [];
      s.(registry := s.registry[id := h], closed := s.closed + closing)
    case Spawn(u, name) => s.(tasks := s.tasks[u := WatchHas(name)])
    case Unbind(id) => s.(registry := s.registry - {id})
    case Swap => s.(registry := map[])
    case CloseOne(h) => s.(closed := s.closed + [h])
  }

  /** The container terminated or its pod is gone. */
  predicate Dead(s: State, name: string) { name !in s.pods || s.pods[name] == Terminated }

  function Taken(s: State, id: string): set<Handle>
  {
    match Registry.Bound(s.registry, id) case Some(h) => {h} case None => {}
  }

  predicate Allowed(idOf: IdFunction, s: State, pc: Pc, effect: Effect, pc': Pc)
  {
    match pc
    case WaitReady(name) => effect == Silent && (pc' == CheckHas(name) || pc' == Done)
    case CheckHas(name) =>
      effect == Silent && (pc' == Done || (idOf(name) !in s.registry && pc' == OpenForwarder(name)))
    case OpenForwarder(name) =>
      || (effect == Silent && pc' == Done)
      || (effect.Opened? && effect.handle !in s.issued && pc' == SetHandle(name, effect.handle))
    case SetHandle(name, h) => effect == Set(idOf(name), h) && pc' == SpawnWatcher(name)
    case SpawnWatcher(name) => effect.Spawn? && effect.watcher !in s.tasks && effect.name == name && pc' == Done
    case WatchHas(name) => effect == Silent && pc' == if idOf(name) in s.registry then WatchGet(name) else Done
    case WatchGet(name) =>
      effect == Silent && (pc' == WatchHas(name) || (Dead(s, name) && pc' == WatchClose(name)))
    case WatchClose(name) => effect == Unbind(idOf(name)) && pc' == CloseHandles(Taken(s, idOf(name)))
    case CloseId(id) => effect == Unbind(id) && pc' == CloseHandles(Taken(s, id))
    case ShutdownSwap => effect == Swap && pc' == CloseHandles(s.registry.Values)
    case CloseHandles(hs) =>
      || (hs == {} && effect == Silent && pc' == Done)
      || (effect.CloseOne? && effect.handle in hs && pc' == CloseHandles(hs - {effect.handle}))
    case Done => false
  }

  function Goto(s: State, t: nat, pc: Pc): State { s.(tasks := s.tasks[t := pc]) }

  function Next(idOf: IdFunction, s: State, a: Action): Option<State>
  {
    match a
    case Arrive(t, pc) =>
      if t !in s.tasks && (pc.WaitReady? || pc.CloseId? || pc.ShutdownSwap?) then Some(Goto(s, t, pc)) else None
    case Run(t, effect, pc) =>
      if t in s.tasks && Allowed(idOf, s, s.tasks[t], effect, pc) then Some(Goto(Perform(s, effect), t, pc)) else None
    case Cluster(pods) => Some(s.(pods := pods))
  }

  predicate Init(s: State) { s.registry == map[] && s.issued == {} && s.closed == [] && s.tasks == map[] }

  function StepOf(idOf: IdFunction): (State, Action) -> Option<State> { (s: State, a: Action) => Next(idOf, s, a) }

  predicate IsRun(idOf: IdFunction, run: seq<State>, acts: seq<Action>) { Runs.IsRun(Init, StepOf(idOf), run, acts) }

  // ---- conservation of handles ----

  datatype Location =
    | HeldByStart(task: nat)
    | Registered(id: string)
    | BeingClosed(task: nat)
    | Closed(call: nat)

  predicate At(s: State, h: Handle, l: Location)
  {
    match l
    case HeldByStart(t) => t in s.tasks && s.tasks[t].SetHandle? && s.tasks[t].handle == h
    case Registered(id) => id in s.registry && s.registry[id] == h
    case BeingClosed(t) => t in s.tasks && s.tasks[t].CloseHandles? && h in s.tasks[t].handles
    case Closed(i) => i < |s.closed| && s.closed[i] == h
  }

  /** `loc` tells where each issued handle is, and it is nowhere else. */
  ghost predicate Located(s: State, loc: map<Handle, Location>)
  {
    && loc.Keys == s.issued
    && forall h, l :: At(s, h, l) <==> h in loc && loc[h] == l
  }

  ghost predicate Conserved(s: State) { exists loc :: Located(s, loc) }

  /** Where the handles are after a step. */
  ghost function Moved(s: State, t: nat, effect: Effect, pc': Pc, loc: map<Handle, Location>): map<Handle, Location>
  {
    match effect
    case Opened(h) => loc[h := HeldByStart(t)]
    case Set(id, h) =>
      (match Registry.Bound(s.registry, id)
       case Some(prev) => loc[prev := Closed(|s.closed|)][h := Registered(id)]
       case None => loc[h := Registered(id)])
    case Unbind(id) => (match Registry.Bound(s.registry, id) case Some(h) => loc[h := BeingClosed(t)] case None => loc)
    case Swap => map h | h in loc :: if h in s.registry.Values then BeingClosed(t) else loc[h]
    case CloseOne(h) => loc[h := Closed(|s.closed|)]
    case _ => loc
  }

  /** A handle bound to an ID, in the hands of a task or already closed is one that Open issued. */
  lemma Issued(s: State, loc: map<Handle, Location>, h: Handle, l: Location)
    requires Located(s, loc) && At(s, h, l)
    ensures h in s.issued && loc[h] == l
  {
  }

  lemma Where(s: State, loc: map<Handle, Location>, x: Handle, l: Location)
    requires Located(s, loc)
    ensures At(s, x, l) <==> x in loc && loc[x] == l
    ensures x in loc ==> At(s, x, loc[x])
  {
  }

  lemma SetMoves(idOf: IdFunction, s: State, t: nat, name: string, h: Handle, pc': Pc, loc: map<Handle, Location>)
    requires Located(s, loc) && t in s.tasks && s.tasks[t] == SetHandle(name, h) && pc' == SpawnWatcher(name)
    ensures var effect := Set(idOf(name), h);
            Located(Goto(Perform(s, effect), t, pc'), Moved(s, t, effect, pc', loc))
  {
    Issued(s, loc, h, HeldByStart(t));
    var id := idOf(name);
    if id in s.registry { Issued(s, loc, s.registry[id], Registered(id)); }
    var s' := Goto(Perform(s, Set(id, h)), t, pc');
    var loc' := Moved(s, t, Set(id, h), pc', loc);
    assert loc'.Keys == s'.issued;
    forall x, l ensures At(s', x, l) <==> x in loc' && loc'[x] == l {
      Where(s, loc, x, l);
    }
  }

  lemma UnbindMoves(s: State, t: nat, id: string, pc': Pc, loc: map<Handle, Location>)
    requires Located(s, loc) && t in s.tasks && (s.tasks[t].WatchClose? || s.tasks[t] == CloseId(id))
    requires pc' == CloseHandles(Taken(s, id))
    ensures Located(Goto(Perform(s, Unbind(id)), t, pc'), Moved(s, t, Unbind(id), pc', loc))
  {
    if id in s.registry { Issued(s, loc, s.registry[id], Registered(id)); }
    var s', loc' := Goto(Perform(s, Unbind(id)), t, pc'), Moved(s, t, Unbind(id), pc', loc);
    assert loc'.Keys == s'.issued;
    forall x, l ensures At(s', x, l) <==> x in loc' && loc'[x] == l {
      Where(s, loc, x, l);
    }
  }

  lemma SwapMoves(s: State, t: nat, pc': Pc, loc: map<Handle, Location>)
    requires Located(s, loc) && t in s.tasks && s.tasks[t] == ShutdownSwap
    requires pc' == CloseHandles(s.registry.Values)
    ensures Located(Goto(Perform(s, Swap), t, pc'), Moved(s, t, Swap, pc', loc))
  {
    forall id | id in s.registry ensures s.registry[id] in loc && loc[s.registry[id]] == Registered(id) {
      Issued(s, loc, s.registry[id], Registered(id));
    }
    var s', loc' := Goto(Perform(s, Swap), t, pc'), Moved(s, t, Swap, pc', loc);
    forall x, l ensures At(s', x, l) <==> x in loc' && loc'[x] == l {
      Where(s, loc, x, l);
      if x in s.registry.Values {
        var id :| id in s.registry && s.registry[id] == x;
        assert At(s, x, Registered(id));
      }
    }
  }

  lemma CloseMoves(s: State, t: nat, h: Handle, pc': Pc, loc: map<Handle, Location>)
    requires Located(s, loc) && t in s.tasks && s.tasks[t].CloseHandles? && h in s.tasks[t].handles
    requires pc' == CloseHandles(s.tasks[t].handles - {h})
    ensures Located(Goto(Perform(s, CloseOne(h)), t, pc'), Moved(s, t, CloseOne(h), pc', loc))
  {
    Issued(s, loc, h, BeingClosed(t));
    var s', loc' := Goto(Perform(s, CloseOne(h)), t, pc'), Moved(s, t, CloseOne(h), pc', loc);
    assert loc'.Keys == s'.issued;
    forall x, l ensures At(s', x, l) <==> x in loc' && loc'[x] == l {
      Where(s, loc, x, l);
    }
  }

  lemma OtherMoves(idOf: IdFunction, s: State, t: nat, effect: Effect, pc': Pc, loc: map<Handle, Location>)
    requires Located(s, loc) && t in s.tasks && Allowed(idOf, s, s.tasks[t], effect, pc')
    requires effect.Silent? || effect.Opened? || effect.Spawn?
    ensures Located(Goto(Perform(s, effect), t, pc'), Moved(s, t, effect, pc', loc))
  {
    var s', loc' := Goto(Perform(s, effect), t, pc'), Moved(s, t, effect, pc', loc);
    assert loc'.Keys == s'.issued;
    forall x, l ensures At(s', x, l) <==> x in loc' && loc'[x] == l {
      Where(s, loc, x, l);
    }
  }

  /** Every step moves handles as `Moved` says and loses or duplicates none. */
  lemma StepMoves(idOf: IdFunction, s: State, t: nat, effect: Effect, pc': Pc, loc: map<Handle, Location>)
    requires Located(s, loc) && t in s.tasks && Allowed(idOf, s, s.tasks[t], effect, pc')
    ensures Located(Goto(Perform(s, effect), t, pc'), Moved(s, t, effect, pc', loc))
  {
    match effect
    case Set(_, h) => SetMoves(idOf, s, t, s.tasks[t].name, h, pc', loc);
    case Unbind(id) => UnbindMoves(s, t, id, pc', loc);
    case Swap => SwapMoves(s, t, pc', loc);
    case CloseOne(h) => CloseMoves(s, t, h, pc', loc);
    case _ => OtherMoves(idOf, s, t, effect, pc', loc);
  }

  lemma NextConserves(idOf: IdFunction, s: State, a: Action)
    requires Conserved(s) && Next(idOf, s, a).Some?
    ensures Conserved(Next(idOf, s, a).value)
  {
    var loc :| Located(s, loc);
    var s' := Next(idOf, s, a).value;
    match a
    case Run(t, effect, pc) =>
      StepMoves(idOf, s, t, effect, pc, loc);
      assert Located(s', Moved(s, t, effect, pc, loc));
    case _ =>
      assert forall h, l :: At(s', h, l) <==> At(s, h, l);
      assert Located(s', loc);
  }

  lemma RunConserved(idOf: IdFunction, run: seq<State>, acts: seq<Action>, i: nat)
    requires IsRun(idOf, run, acts) && i < |run|
    ensures Conserved(run[i])
  {
    var step := StepOf(idOf);
    forall s | Init(s) ensures Conserved(s) { assert Located(s, map[]); }
    forall s, a | Conserved(s) && step(s, a).Some? ensures Conserved(step(s, a).value) { NextConserves(idOf, s, a); }
    Runs.Invariant(Init, step, (s, a) => true, s => Conserved(s), run, acts, i);
  }

  /**
   * In every reachable state each handle Open returned is in exactly one place: held by one start, registered
   * under one ID, in the hands of one task that is to close it, or closed by exactly one call of Close. In
   * particular no registered handle has been closed, and none is closed twice.
   */
  lemma HandlesConserved(idOf: IdFunction, run: seq<State>, acts: seq<Action>, i: nat, h: Handle)
    requires IsRun(idOf, run, acts) && i < |run|
    ensures h in run[i].issued <==> exists l :: At(run[i], h, l)
    ensures forall l, l' :: At(run[i], h, l) && At(run[i], h, l') ==> l == l'
  {
    RunConserved(idOf, run, acts, i);
    var loc :| Located(run[i], loc);
    if h in run[i].issued { assert At(run[i], h, loc[h]); }
  }

  // ---- registered implies watched ----

  /** The task will still look at `id`: a watcher before its Close, or a start between Set and go. */
  predicate Watches(idOf: IdFunction, pc: Pc, id: string)
  {
    (pc.SpawnWatcher? || pc.WatchHas? || pc.WatchGet? || pc.WatchClose?) && idOf(pc.name) == id
  }

  ghost predicate Watched(idOf: IdFunction, s: State)
  {
    forall id :: id in s.registry ==> exists t :: t in s.tasks && Watches(idOf, s.tasks[t], id)
  }

  lemma RunWatched(idOf: IdFunction, s: State, t: nat, effect: Effect, pc': Pc, id: string)
    requires Watched(idOf, s) && t in s.tasks && Allowed(idOf, s, s.tasks[t], effect, pc')
    requires id in Perform(s, effect).registry
    ensures var s' := Goto(Perform(s, effect), t, pc'); exists u :: u in s'.tasks && Watches(idOf, s'.tasks[u], id)
  {
    var s' := Goto(Perform(s, effect), t, pc');
    if effect.Set? && effect.id == id {
      assert Watches(idOf, s'.tasks[t], id);
    } else {
      var u :| u in s.tasks && Watches(idOf, s.tasks[u], id);
      if u != t {
        assert u in s'.tasks && s'.tasks[u] == s.tasks[u];
      } else if s.tasks[t].SpawnWatcher? {
        assert s'.tasks[effect.watcher] == WatchHas(s.tasks[t].name);
      } else {
        assert Watches(idOf, s'.tasks[t], id);
      }
    }
  }

  lemma NextWatched(idOf: IdFunction, s: State, a: Action)
    requires Watched(idOf, s) && Next(idOf, s, a).Some?
    ensures Watched(idOf, Next(idOf, s, a).value)
  {
    var s' := Next(idOf, s, a).value;
    forall id | id in s'.registry ensures exists t :: t in s'.tasks && Watches(idOf, s'.tasks[t], id) {
      if a.Run? {
        RunWatched(idOf, s, a.task, a.effect, a.pc, id);
      } else {
        var u :| u in s.tasks && Watches(idOf, s.tasks[u], id);
        assert u in s'.tasks && s'.tasks[u] == s.tasks[u];
      }
    }
  }

  /**
   * In every reachable state a registered ID has a cleanup watcher that has not given up, or a start about to
   * spawn one, whatever the number of starts, external closes and re-registrations.
   */
  lemma RegisteredIsWatched(idOf: IdFunction, run: seq<State>, acts: seq<Action>, i: nat, id: string)
    requires IsRun(idOf, run, acts) && i < |run| && id in run[i].registry
    ensures exists t :: t in run[i].tasks && Watches(idOf, run[i].tasks[t], id)
  {
    var step := StepOf(idOf);
    forall s, a | Watched(idOf, s) && step(s, a).Some? ensures Watched(idOf, step(s, a).value) {
      NextWatched(idOf, s, a);
    }
    Runs.Invariant(Init, step, (s, a) => true, s => Watched(idOf, s), run, acts, i);
  }

  /** The watcher has nothing to do any more, and all that changed is that it closed what was under its ID. */
  function Emptied(idOf: IdFunction, s: State, t: nat, name: string): State
  {
    var id := idOf(name);
    s.(registry := s.registry - {id},
       closed := s.closed + (match Registry.Bound(s.registry, id) case Some(h) => [h] case None => []),
       tasks := s.tasks[t := Done])
  }

  /** The steps of task `t`, with nothing in between. */
  predicate Undisturbed(idOf: IdFunction, t: nat, run: seq<State>, acts: seq<Action>)
  {
    && |run| == |acts| + 1
    && forall i :: 0 <= i < |acts| ==> Runs.StepAt(StepOf(idOf), run, acts, i) && acts[i].Run? && acts[i].task == t
  }

  /** The watcher as far as the call of registry.Close: the ID is unbound, its handle in the watcher's hands. */
  lemma WatcherUnbinds(idOf: IdFunction, s: State, t: nat, name: string, run: seq<State>, acts: seq<Action>)
    requires t in s.tasks && s.tasks[t] == WatchHas(name) && Dead(s, name) && idOf(name) in s.registry
    requires Undisturbed(idOf, t, run, acts) && |acts| >= 3 && run[0] == s && acts[1].pc != WatchHas(name)
    ensures var id := idOf(name);
      run[3] == s.(registry := s.registry - {id}, tasks := s.tasks[t := CloseHandles({s.registry[id]})])
  {
    assert Runs.StepAt(StepOf(idOf), run, acts, 0);
    assert run[1] == Goto(s, t, WatchGet(name));
    assert Runs.StepAt(StepOf(idOf), run, acts, 1);
    assert run[2] == Goto(run[1], t, WatchClose(name));
    assert Runs.StepAt(StepOf(idOf), run, acts, 2);
  }

  /** A watcher only goes on to close after a Get on which the pod was terminated or missing. */
  lemma WatcherSparesRunning(idOf: IdFunction, s: State, name: string, effect: Effect, pc': Pc)
    requires Allowed(idOf, s, WatchGet(name), effect, pc')
    requires name in s.pods && s.pods[name] != Terminated
    ensures effect == Silent && pc' == WatchHas(name)
  {
  }

  /** A start opens a forwarder only for an ID that had none when it looked, and registers what it opened under it. */
  lemma StartOpensOnce(idOf: IdFunction, s: State, name: string, effect: Effect, pc': Pc)
    ensures Allowed(idOf, s, CheckHas(name), effect, pc') && idOf(name) in s.registry ==> pc' == Done
    ensures Allowed(idOf, s, OpenForwarder(name), effect, pc') && effect.Opened? ==>
      effect.handle !in s.issued && pc' == SetHandle(name, effect.handle)
    ensures forall h :: Allowed(idOf, s, SetHandle(name, h), effect, pc') ==>
      Perform(s, effect).registry == s.registry[idOf(name) := h]
  {
  }

  /** The rest of registry.Close: one call of the handle's Close. */
  lemma HandleCloses(idOf: IdFunction, s: State, t: nat, h: Handle, run: seq<State>, acts: seq<Action>, i: nat)
    requires t in s.tasks && s.tasks[t] == CloseHandles({h})
    requires Undisturbed(idOf, t, run, acts) && i + 2 <= |acts| && run[i] == s
    ensures run[i + 2] == s.(closed := s.closed + [h], tasks := s.tasks[t := Done])
  {
    assert Runs.StepAt(StepOf(idOf), run, acts, i);
    assert {h} - {h} == {};
    assert run[i + 1] == s.(closed := s.closed + [h], tasks := s.tasks[t := CloseHandles({})]);
    assert Runs.StepAt(StepOf(idOf), run, acts, i + 1);
  }

  /** A handle is in no other place once its registration has become a call of Close. */
  lemma OnlyThere(s: State, id: string, s': State, t: nat)
    requires Conserved(s) && id in s.registry && t in s.tasks && !s.tasks[t].SetHandle? && !s.tasks[t].CloseHandles?
    requires s'.registry == s.registry - {id} && s'.closed == s.closed + [s.registry[id]]
    requires s'.tasks == s.tasks[t := Done]
    ensures forall l :: At(s', s.registry[id], l) <==> l == Closed(|s.closed|)
  {
    var h := s.registry[id];
    var loc :| Located(s, loc);
    assert At(s, h, Registered(id));
    forall l ensures At(s', h, l) <==> l == Closed(|s.closed|) {
      Where(s, loc, h, l);
    }
  }

  /**
   * One iteration of a watcher to its end, undisturbed and with an accurate Get, on a terminated or missing pod:
   * nothing is registered under its ID any more, and the handle that was has been closed, once, by the watcher.
   */
  lemma WatcherIteration(idOf: IdFunction, s: State, t: nat, name: string, run: seq<State>, acts: seq<Action>)
    requires t in s.tasks && s.tasks[t] == WatchHas(name)
    requires name in s.pods ==> s.pods[name] == Terminated
    requires Undisturbed(idOf, t, run, acts) && run[0] == s && |acts| == if idOf(name) in s.registry then 5 else 1
    requires |acts| == 5 ==> acts[1].pc != WatchHas(name)
    ensures run[|acts|] == Emptied(idOf, s, t, name)
    ensures Conserved(s) ==> forall h, l :: Registry.Bound(s.registry, idOf(name)) == Some(h) ==>
      (At(run[|acts|], h, l) <==> l == Closed(|s.closed|))
  {
    if idOf(name) in s.registry {
      WatcherUnbinds(idOf, s, t, name, run, acts);
      HandleCloses(idOf, run[3], t, s.registry[idOf(name)], run, acts, 3);
      if Conserved(s) {
        OnlyThere(s, idOf(name), Emptied(idOf, s, t, name), t);
      }
    } else {
      assert Runs.StepAt(StepOf(idOf), run, acts, 0);
    }
  }
}
