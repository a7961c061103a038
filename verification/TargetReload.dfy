/** Replacing the target engine while sessions refer to targets by name. */
module TargetReload {

  import opened Protocol
  import opened Text
  import opened EnvSubst
  import opened Targets
  import opened SessionHub

  /** The refused names: referenced by a session and missing from the new engine. */
  ghost predicate IsRefused(newEngine: seq<Target>, live: iset<string>, refused: seq<string>) {
    StrictlySorted(refused) && forall n :: n in refused <==> n in live && Find(newEngine, n).None?
  }

  /** The names a preview marks as blocked: removed from the current engine and referenced. */
  ghost predicate IsBlocked(current: seq<Target>, newEngine: seq<Target>, live: iset<string>, blocked: seq<string>) {
    && StrictlySorted(blocked)
    && forall n :: n in blocked <==> n in live && Find(current, n).Some? && Find(newEngine, n).None?
  }

  ghost function Referenced(sessions: Sessions): iset<string> {
    iset id | id in sessions :: TargetOf(sessions[id])
  }

  /** The gateway's shared state as far as targets go. */
  class AppState {
    var targets: seq<Target>
    const hub: Hub

    ghost predicate Ok()
      reads this, hub
    {
      Validated(targets) && hub.Ok()
    }

    constructor (targets: seq<Target>, hub: Hub)
      requires Validated(targets) && hub.Ok()
      ensures Ok() && this.targets == targets && this.hub == hub
    {
      this.targets := targets;
      this.hub := hub;
    }

    /** Count and store as one step: refused as a whole while any referenced name would go. */
    method Reload(newEngine: seq<Target>, now: Instant) returns (refused: seq<string>)
      requires Ok() && Validated(newEngine)
      modifies this`targets, hub
      ensures Ok()
      ensures hub.sessions == GcExpired(old(hub.sessions), now, hub.pendingAttachTtl)
      ensures IsRefused(newEngine, Referenced(hub.sessions), refused)
      ensures targets == if refused == [] then newEngine else old(targets)
      ensures refused == [] <==> AllFound(newEngine, hub.sessions)
      ensures refused == [] ==> AllResolve(targets, hub.sessions)
    {
      var counts := hub.CountLiveSessionsPerTarget(now);
      CountedIsReferenced(hub.sessions, counts);
      refused := StillReferenced(counts, newEngine);
      NothingRefusedIff(newEngine, hub.sessions, refused);
      if refused == [] {
        NothingRefused(newEngine, hub.sessions, refused);
        targets := newEngine;
      }
    }

    /** The dry run: the difference and the removed names still in use. */
    method ValidateReload(newEngine: seq<Target>, now: Instant) returns (diff: TargetDiff, blocked: seq<string>)
      requires Ok() && Validated(newEngine)
      modifies hub
      ensures Ok() && targets == old(targets)
      ensures hub.sessions == GcExpired(old(hub.sessions), now, hub.pendingAttachTtl)
      ensures IsDiff(targets, newEngine, diff)
      ensures IsBlocked(targets, newEngine, Referenced(hub.sessions), blocked)
    {
      diff := Diff(targets, newEngine);
      var counts := hub.CountLiveSessionsPerTarget(now);
      CountedIsReferenced(hub.sessions, counts);
      blocked := Counted(diff.removed, counts);
      CountedKeepsSorted(diff.removed, counts);
    }
  }

  /** Every session's target is in the engine. */
  ghost predicate AllFound(targets: seq<Target>, sessions: Sessions) {
    forall id :: id in sessions ==> Find(targets, TargetOf(sessions[id])).Some?
  }

  lemma NothingRefusedIff(newEngine: seq<Target>, sessions: Sessions, refused: seq<string>)
    requires IsRefused(newEngine, Referenced(sessions), refused)
    ensures refused == [] <==> AllFound(newEngine, sessions)
  {
    if refused == [] {
      forall id | id in sessions ensures Find(newEngine, TargetOf(sessions[id])).Some? {
        assert TargetOf(sessions[id]) in Referenced(sessions) && TargetOf(sessions[id]) !in refused;
      }
    } else {
      HasMember(refused);
    }
  }

  /** Every session's target can be launched, under any environment. */
  ghost predicate AllResolve(targets: seq<Target>, sessions: Sessions) {
    forall id, env: Env, defaultShell: string :: id in sessions ==>
      Resolve(targets, TargetOf(sessions[id]), env, defaultShell).Some?
  }

  lemma CountedIsReferenced(sessions: Sessions, counts: map<string, nat>)
    requires forall t :: t in counts <==> SessionsOn(sessions, t) != {}
    ensures forall t :: t in counts <==> t in Referenced(sessions)
  {
    forall t ensures SessionsOn(sessions, t) != {} <==> t in Referenced(sessions) {
      if t in Referenced(sessions) {
        var id :| id in sessions && TargetOf(sessions[id]) == t;
        assert id in SessionsOn(sessions, t);
      }
    }
  }

  lemma NothingRefused(newEngine: seq<Target>, sessions: Sessions, refused: seq<string>)
    requires Validated(newEngine) && IsRefused(newEngine, Referenced(sessions), refused) && refused == []
    ensures AllResolve(newEngine, sessions)
  {
    forall id, env: Env, defaultShell: string | id in sessions
      ensures Resolve(newEngine, TargetOf(sessions[id]), env, defaultShell).Some?
    {
      assert TargetOf(sessions[id]) in Referenced(sessions) && TargetOf(sessions[id]) !in refused;
      FoundResolves(newEngine, TargetOf(sessions[id]), env, defaultShell);
    }
  }

  method StillReferenced(counts: map<string, nat>, newEngine: seq<Target>) returns (refused: seq<string>)
    ensures StrictlySorted(refused) && forall n :: n in refused <==> n in counts && Find(newEngine, n).None?
  {
    var names: seq<string> := [];
    var todo := counts.Keys;
    while todo != {}
      invariant todo <= counts.Keys && NoRepeats(names)
      invariant forall n :: n in names <==> n in counts && n !in todo && Find(newEngine, n).None?
      decreases todo
    {
      var name :| name in todo;
      todo := todo - {name};
      if Find(newEngine, name).None? {
        Pushed(names, name);
        names := names + [name];
      }
    }
    SortSorts(names);
    refused := Sort(names);
  }

  function Counted(names: seq<string>, counts: map<string, nat>): seq<string> {
    if names == [] then []
    else (if names[0] in counts then [names[0]] else []) + Counted(names[1..], counts)
  }

  lemma {:induction false} CountedKeepsSorted(names: seq<string>, counts: map<string, nat>)
    requires StrictlySorted(names)
    ensures StrictlySorted(Counted(names, counts))
    ensures forall n :: n in Counted(names, counts) <==> n in names && n in counts
  {
    if names != [] {
      CountedKeepsSorted(names[1..], counts);
      forall n | n in names[1..] ensures LexLess(names[0], n) {
      }
      if names[0] in counts {
        Prepended(names[0], Counted(names[1..], counts));
      }
      assert names == [names[0]] + names[1..];
    }
  }

  // ---- does the preview tell what a reload would refuse? ----

  /** Blocked and refused agree exactly when every referenced name that the new engine
      lacks is in the current one. */
  lemma BlockedIsRefusedIff(current: seq<Target>, newEngine: seq<Target>, live: iset<string>,
                            blocked: seq<string>, refused: seq<string>)
    requires IsBlocked(current, newEngine, live, blocked) && IsRefused(newEngine, live, refused)
    ensures blocked == refused <==> forall n :: n in live && Find(newEngine, n).None? ==> Find(current, n).Some?
  {
    if forall n :: n in live && Find(newEngine, n).None? ==> Find(current, n).Some? {
      SortedDetermined(blocked, refused);
    } else {
      var n :| n in live && Find(newEngine, n).None? && Find(current, n).None?;
      assert n in refused && n !in blocked;
    }
  }

  /** Sessions on a user's own target are counted under its name too, which no engine
      needs to know: then even reloading the unchanged file is refused, while the
      preview shows nothing removed and nothing blocked. */
  lemma SameFileRefusedIff(current: seq<Target>, live: iset<string>, blocked: seq<string>, refused: seq<string>)
    requires IsBlocked(current, current, live, blocked) && IsRefused(current, live, refused)
    ensures blocked == []
    ensures refused == [] <==> forall n :: n in live ==> Find(current, n).Some?
  {
    if blocked != [] {
      HasMember(blocked);
    }
    if refused != [] {
      HasMember(refused);
    }
  }

  /** One session on a user's own target, and the file as it is: the preview shows no
      change and nothing blocked, the reload is refused. */
  method OwnTargetBlocksReload(engine: seq<Target>, id: SessionId, name: string, ttl: nat, now: Instant)
    returns (diff: TargetDiff, blocked: seq<string>, refused: seq<string>)
    requires Validated(engine) && Find(engine, name).None? && ttl > 0
    ensures diff.added == diff.removed == diff.changed == []
    ensures blocked == [] && refused == [name]
  {
    var hub := new Hub(ttl);
    hub.ReserveTarget(id, name, now);
    var state := new AppState(engine, hub);
    ghost var reserved := map[id := Pending(name, now)];
    assert hub.sessions == reserved && GcExpired(reserved, now, ttl) == reserved;
    OnlyReference(id, name, now);
    diff, blocked := state.ValidateReload(engine, now);
    SameEngineNoChange(engine, diff);
    refused := state.Reload(engine, now);
    SameFileRefusedIff(engine, Referenced(reserved), blocked, refused);
    SortedDetermined(refused, [name]);
  }

  lemma OnlyReference(id: SessionId, name: string, now: Instant)
    ensures forall n :: n in Referenced(map[id := Pending(name, now)]) <==> n == name
  {
    var sessions := map[id := Pending(name, now)];
    assert id in sessions && TargetOf(sessions[id]) == name;
  }

  lemma SameEngineNoChange(engine: seq<Target>, d: TargetDiff)
    requires IsDiff(engine, engine, d)
    ensures d.added == d.removed == d.changed == []
  {
    SortedDetermined(d.added, []);
    SortedDetermined(d.removed, []);
    SortedDetermined(d.changed, []);
  }

  // ---- whole runs ----

  /** The engine and the hub's entries; `shared` are those made for targets of the engine,
      as opposed to user-owned ones. `looked` holds the names that requests have found in
      the engine, `approved` the new engines that reloads have found to lack no referenced
      name: both are acted on later. */
  datatype System = System(
    engine: seq<Target>, sessions: Sessions, shared: set<SessionId>, looked: map<nat, string>,
    approved: map<nat, seq<Target>>, now: Instant)

  datatype Step =
    | Tick(d: nat)
    | Look(h: nat, name: string)
    | Create(h: nat, id: SessionId)
    | CreateOwned(id: SessionId, name: string)
    | Attach(h: nat, id: SessionId)
    | AttachOwned(id: SessionId, name: string)
    | Change(id: SessionId, live: LiveSession)
    | Sweep(ttl: nat)
    | ReleaseSlot(id: SessionId)
    | Remove(id: SessionId)
    | Approve(r: nat, newEngine: seq<Target>, ttl: nat)
    | Store(r: nat)

  /** An attach makes an entry live, over a reservation or afresh, unless it is live already. */
  function MadeLive(sessions: Sessions, id: SessionId, name: string, now: Instant): Sessions {
    if IsLive(sessions, id) then sessions else sessions[id := Live(NewLive(name, now))]
  }

  ghost function Next(s: System, step: Step): System {
    match step
    case Tick(d) => s.(now := s.now + d)
    case Look(h, name) => if Find(s.engine, name).Some? then s.(looked := s.looked[h := name]) else s
    case Create(h, id) =>
      if h !in s.looked || id in s.sessions then s
      else s.(sessions := Reserve(s.sessions, id, s.looked[h], s.now), shared := s.shared + {id})
    case CreateOwned(id, name) =>
      if id in s.sessions then s
      else s.(sessions := Reserve(s.sessions, id, name, s.now), shared := s.shared - {id})
    case Attach(h, id) =>
      if h !in s.looked || IsLive(s.sessions, id) then s
      else s.(sessions := MadeLive(s.sessions, id, s.looked[h], s.now), shared := s.shared + {id})
    case AttachOwned(id, name) =>
      if IsLive(s.sessions, id) then s
      else s.(sessions := MadeLive(s.sessions, id, name, s.now), shared := s.shared - {id})
    case Change(id, live) =>
      // any other operation on a live session
      if IsLive(s.sessions, id) && live.targetName == s.sessions[id].live.targetName
      then s.(sessions := s.sessions[id := Live(live)]) else s
    case Sweep(ttl) => s.(sessions := GcExpired(s.sessions, s.now, ttl))
    case ReleaseSlot(id) => s.(sessions := Release(s.sessions, id))
    case Remove(id) => s.(sessions := s.sessions - {id})
    case Approve(r, newEngine, ttl) =>
      var swept := GcExpired(s.sessions, s.now, ttl);
      s.(sessions := swept,
         approved := if Validated(newEngine) && AllFound(newEngine, swept)
                     then s.approved[r := newEngine] else s.approved)
    case Store(r) => if r in s.approved then s.(engine := s.approved[r]) else s
  }

  ghost function Run(s: System, steps: seq<Step>): System {
    if steps == [] then s else Next(Run(s, steps[..|steps| - 1]), steps[|steps| - 1])
  }

  /** Every entry made for a target of the engine has it there still. */
  ghost predicate Serves(engine: seq<Target>, s: System) {
    forall id :: id in s.sessions && id in s.shared ==> Find(engine, TargetOf(s.sessions[id])).Some?
  }

  /** The step acts on a check that no longer holds. */
  ghost predicate Overtaken(s: System, step: Step) {
    match step
    case Create(h, id) => h in s.looked && id !in s.sessions && Find(s.engine, s.looked[h]).None?
    case Attach(h, id) => h in s.looked && !IsLive(s.sessions, id) && Find(s.engine, s.looked[h]).None?
    case Store(r) => r in s.approved && !Serves(s.approved[r], s)
    case _ => false
  }

  lemma StepServesIff(s: System, step: Step)
    requires Serves(s.engine, s)
    ensures Serves(Next(s, step).engine, Next(s, step)) <==> !Overtaken(s, step)
  {
    hide Find, Validated, AllFound;
    var after := Next(s, step);
    if Overtaken(s, step) && !step.Store? {
      assert step.id in after.sessions && step.id in after.shared;
      assert TargetOf(after.sessions[step.id]) == s.looked[step.h];
    }
  }

  ghost predicate EnginesValid(s: System) {
    Validated(s.engine) && forall r :: r in s.approved ==> Validated(s.approved[r])
  }

  lemma StepKeepsEngines(s: System, step: Step)
    requires EnginesValid(s)
    ensures EnginesValid(Next(s, step))
  {
    hide Validated, AllFound, Find;
  }

  lemma {:induction false} RunEnginesValid(engine: seq<Target>, steps: seq<Step>)
    requires Validated(engine)
    ensures EnginesValid(Run(Initially(engine), steps))
  {
    if steps != [] {
      hide Validated, Next, EnginesValid;
      RunEnginesValid(engine, steps[..|steps| - 1]);
      StepKeepsEngines(Run(Initially(engine), steps[..|steps| - 1]), steps[|steps| - 1]);
    }
  }

  function Initially(engine: seq<Target>): System { System(engine, map[], {}, map[], map[], 0) }

  /** Every entry for an engine target, reserved or live, can be launched under any environment. */
  ghost predicate Launchable(s: System) {
    forall id, env: Env, defaultShell: string :: id in s.sessions && id in s.shared ==>
      Resolve(s.engine, TargetOf(s.sessions[id]), env, defaultShell).Some?
  }

  lemma LaunchableIff(s: System)
    requires Validated(s.engine)
    ensures Launchable(s) <==> Serves(s.engine, s)
  {
    hide Validated, Find, Resolve;
    forall id, env: Env, defaultShell: string | id in s.sessions && id in s.shared
      ensures Find(s.engine, TargetOf(s.sessions[id])).Some?
         <==> Resolve(s.engine, TargetOf(s.sessions[id]), env, defaultShell).Some?
    {
      FoundResolves(s.engine, TargetOf(s.sessions[id]), env, defaultShell);
    }
    if Launchable(s) {
      forall id | id in s.sessions && id in s.shared ensures Find(s.engine, TargetOf(s.sessions[id])).Some? {
        assert Resolve(s.engine, TargetOf(s.sessions[id]), map[], "").Some?;
      }
    }
  }

  ghost predicate LaunchableThroughout(engine: seq<Target>, steps: seq<Step>) {
    forall k {:trigger steps[..k]} :: 0 <= k <= |steps| ==> Launchable(Run(Initially(engine), steps[..k]))
  }

  ghost predicate NoneOvertaken(engine: seq<Target>, steps: seq<Step>) {
    forall k {:trigger steps[k]} :: 0 <= k < |steps| ==> !Overtaken(Run(Initially(engine), steps[..k]), steps[k])
  }

  /** Whatever is created, attached, swept, removed and reloaded, and however reservations
      expire: all entries of the hub for engine targets can be launched at every point of a
      run exactly if none of its steps acts on a check that was overtaken meanwhile. */
  lemma {:induction false} AlwaysLaunchableIff(engine: seq<Target>, steps: seq<Step>)
    requires Validated(engine)
    ensures LaunchableThroughout(engine, steps) <==> NoneOvertaken(engine, steps)
    decreases |steps|
  {
    hide Validated, Launchable, Overtaken, Next;
    RunEnginesValid(engine, steps);
    LaunchableIff(Run(Initially(engine), steps));
    assert steps[..|steps|] == steps;
    if steps == [] {
    } else {
      var front, last := steps[..|steps| - 1], steps[|steps| - 1];
      RunEnginesValid(engine, front);
      LaunchableIff(Run(Initially(engine), front));
      AlwaysLaunchableIff(engine, front);
      forall k | 0 <= k <= |front| ensures steps[..k] == front[..k] {
      }
      forall k | 0 <= k < |front| ensures steps[k] == front[k] {
      }
      assert front[..|front|] == front;
      if Launchable(Run(Initially(engine), front)) {
        StepServesIff(Run(Initially(engine), front), last);
      }
    }
  }

  /** An attach is not overtaken while the reservation of its session lasts: the reason
      for reserving. */
  lemma ReservedInTime(s: System, h: nat, id: SessionId)
    requires Serves(s.engine, s) && h in s.looked
    requires id in s.sessions && id in s.shared && TargetOf(s.sessions[id]) == s.looked[h]
    ensures !Overtaken(s, Attach(h, id)) && Serves(s.engine, Next(s, Attach(h, id)))
  {
    StepServesIff(s, Attach(h, id));
  }

  lemma RunSnoc(s: System, steps: seq<Step>, step: Step)
    ensures Run(s, steps + [step]) == Next(Run(s, steps), step)
  {
    assert (steps + [step])[..|steps|] == steps;
  }

  /** The run so far extended by one step. */
  lemma Then(engine: seq<Target>, s: System, steps: seq<Step>, step: Step) returns (s': System, steps': seq<Step>)
    requires s == Run(Initially(engine), steps)
    ensures s' == Next(s, step) && steps' == steps + [step] && s' == Run(Initially(engine), steps')
  {
    RunSnoc(Initially(engine), steps, step);
    s', steps' := Next(s, step), steps + [step];
  }

  /** The reservation expires after the attach has looked its target up; a reload drops the
      target while the shell is being spawned, and the session goes live on a target that
      nobody can launch again. */
  lemma DroppedDuringSpawn(engine: seq<Target>, newEngine: seq<Target>, name: string, id: SessionId, ttl: nat)
    returns (steps: seq<Step>)
    requires Validated(engine) && Validated(newEngine)
    requires Find(engine, name).Some? && Find(newEngine, name).None?
    ensures steps == [Look(0, name), Create(0, id), Tick(ttl), Look(1, name)]
                     + [Approve(2, newEngine, ttl), Store(2), Attach(1, id)]
    ensures var s := Run(Initially(engine), steps);
            && IsLive(s.sessions, id) && id in s.shared && s.sessions[id].live.targetName == name
            && !Launchable(s)
  {
    hide Run, Next, Validated, Find, Launchable;
    var s;
    s, steps := Initially(engine), [];
    EmptyRun(s);
    s, steps := Then(engine, s, steps, Look(0, name));
    s, steps := Then(engine, s, steps, Create(0, id));
    s, steps := Then(engine, s, steps, Tick(ttl));
    s, steps := Then(engine, s, steps, Look(1, name));
    ReservedAndLooked(engine, name, id, ttl);
    DropAndAttach(s, newEngine, name, id, ttl);
    s, steps := Then(engine, s, steps, Approve(2, newEngine, ttl));
    s, steps := Then(engine, s, steps, Store(2));
    s, steps := Then(engine, s, steps, Attach(1, id));
  }

  lemma ReservedAndLooked(engine: seq<Target>, name: string, id: SessionId, ttl: nat)
    requires Find(engine, name).Some?
    ensures var s := Next(Next(Next(Next(Initially(engine), Look(0, name)), Create(0, id)), Tick(ttl)), Look(1, name));
            s == System(engine, map[id := Pending(name, 0)], {id}, map[0 := name, 1 := name], map[], ttl)
  {
    hide Find;
  }

  lemma DropAndAttach(s: System, newEngine: seq<Target>, name: string, id: SessionId, ttl: nat)
    requires s.sessions == map[id := Pending(name, 0)] && s.now == ttl && 1 in s.looked && s.looked[1] == name
    requires Validated(newEngine) && Find(newEngine, name).None?
    ensures var t := Next(Next(Next(s, Approve(2, newEngine, ttl)), Store(2)), Attach(1, id));
            && IsLive(t.sessions, id) && id in t.shared && t.sessions[id].live.targetName == name
            && !Launchable(t)
  {
    hide Find, Validated, Launchable;
    var s1 := Next(s, Approve(2, newEngine, ttl));
    assert s1.sessions == map[] && 2 in s1.approved && s1.approved[2] == newEngine;
    var t := Next(Next(s1, Store(2)), Attach(1, id));
    assert t.engine == newEngine && id in t.sessions && TargetOf(t.sessions[id]) == name;
    LaunchableIff(t);
  }

  lemma EmptyRun(s: System)
    ensures Run(s, []) == s
  {
  }
}
