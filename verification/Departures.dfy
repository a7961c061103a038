/** Which departures give their connection back: the plain reading of a connection count,
    as the number of running registered handlers, and the steps that break it. */
module Departures {
  import opened Protocol
  import opened SessionHub
  import opened HubRuns

  /** Every count is the number of running registered handlers. */
  ghost predicate Plain(w: World) {
    forall id: SessionId, u: UserId :: |RunningHolders(w.handlers, id, u)| == CountOf(w.sessions, id, u)
  }

  /** A registered handler that still holds its connection and leaves without giving it
      back: by the early return of the replay, or because it read an eviction notice. */
  predicate Leaks(w: World, step: Step) {
    || (step.BailOut? && InHandler(w, step.h, Counted))
    || (step.Exit? && InHandler(w, step.h, Counted) && w.handlers[step.h].wasEvicted)
  }

  ghost predicate NoneLeaked(w: World) { forall h :: h in w.handlers ==> w.handlers[h].status != Leaked }

  lemma PlainIffNoneLeaked(w: World)
    requires CountsMatch(w)
    ensures Plain(w) <==> NoneLeaked(w)
  {
    if Plain(w) {
      forall h | h in w.handlers ensures w.handlers[h].status != Leaked {
        var id, u := w.handlers[h].session, w.handlers[h].user;
        CountIsRunningIff(w, id, u);
        assert |RunningHolders(w.handlers, id, u)| == CountOf(w.sessions, id, u);
        assert Holds(w.handlers[h]) ==> h in Holders(w.handlers, id, u);
      }
    }
    if NoneLeaked(w) {
      forall id: SessionId, u: UserId ensures |RunningHolders(w.handlers, id, u)| == CountOf(w.sessions, id, u) {
        CountIsRunningIff(w, id, u);
      }
    }
  }

  lemma NoNewLeak(w: World, step: Step)
    requires NoneLeaked(w)
    ensures NoneLeaked(Next(w, step)) <==> !Leaks(w, step)
  {
    if Leaks(w, step) {
      assert Next(w, step).handlers[step.h].status == Leaked;
    }
  }

  /** A stray exit takes a connection from a handler that is still running. */
  lemma StrayBreaksPlain(w: World, step: Step)
    requires CountsMatch(w) && Plain(w) && StrayExit(w, step)
    ensures !Plain(Next(w, step))
  {
    var h := step.h;
    var id, u := w.handlers[h].session, w.handlers[h].user;
    var after := Next(w, step);
    assert RunningHolders(after.handlers, id, u) == RunningHolders(w.handlers, id, u);
    assert |RunningHolders(w.handlers, id, u)| == CountOf(w.sessions, id, u);
    assert CountOf(after.sessions, id, u) < CountOf(w.sessions, id, u);
  }

  /** One step keeps the plain equation exactly if it is neither a leak nor a stray exit. */
  lemma PlainStepIff(w: World, step: Step)
    requires CountsMatch(w) && Plain(w)
    ensures Plain(Next(w, step)) <==> !Leaks(w, step) && !StrayExit(w, step)
  {
    hide Next, Plain, CountsMatch, NoneLeaked, Leaks, StrayExit;
    if StrayExit(w, step) {
      StrayBreaksPlain(w, step);
    } else {
      NextCounts(w, step);
      PlainIffNoneLeaked(w);
      PlainIffNoneLeaked(Next(w, step));
      NoNewLeak(w, step);
    }
  }

  // ---- whole runs ----

  /** Every handler that stops running gives back the one connection it held, and no other. */
  ghost predicate GivesBack(steps: seq<Step>) {
    forall i {:trigger steps[i]} :: 0 <= i < |steps| ==>
      !Leaks(Run(Start, steps[..i]), steps[i]) && !StrayExit(Run(Start, steps[..i]), steps[i])
  }

  ghost predicate PlainThroughout(steps: seq<Step>) {
    forall i {:trigger steps[..i]} :: 0 <= i <= |steps| ==> Plain(Run(Start, steps[..i]))
  }

  lemma StartIsPlain()
    ensures Plain(Start) && CountsMatch(Start)
  {
    assert forall id: SessionId, u: UserId :: Holders(map[], id, u) == {} && RunningHolders(map[], id, u) == {};
  }

  lemma Prefixes(steps: seq<Step>)
    requires steps != []
    ensures var front, last := steps[..|steps| - 1], steps[|steps| - 1];
            && (PlainThroughout(steps) <==> PlainThroughout(front) && Plain(Run(Start, steps)))
            && (GivesBack(steps)
                <==> GivesBack(front) && !Leaks(Run(Start, front), last) && !StrayExit(Run(Start, front), last))
  {
    hide Run, Plain, Leaks, StrayExit;
    var front := steps[..|steps| - 1];
    assert steps[..|steps|] == steps && front[..|front|] == front;
    forall i {:trigger front[..i]} {:trigger steps[..i]} | 0 <= i <= |front| ensures front[..i] == steps[..i] {
    }
    assert forall i {:trigger front[i]} {:trigger steps[i]} :: 0 <= i < |front| ==> front[i] == steps[i];
  }

  lemma {:induction false} PlainRunCounts(steps: seq<Step>)
    requires GivesBack(steps)
    ensures CountsMatch(Run(Start, steps))
  {
    RunCounts(steps);
  }

  /** Over whole runs: every count is at all times the number of running registered
      handlers if and only if no step of the run is a leak or a stray exit. */
  lemma {:induction false} PlainRunIff(steps: seq<Step>)
    ensures PlainThroughout(steps) <==> GivesBack(steps)
  {
    StartIsPlain();
    if steps == [] {
      assert steps[..0] == [];
    } else {
      var front := steps[..|steps| - 1];
      PlainRunIff(front);
      Prefixes(steps);
      if GivesBack(front) {
        PlainRunCounts(front);
        assert front[..|front|] == front;
        assert Plain(Run(Start, front));
        PlainStepIff(Run(Start, front), steps[|steps| - 1]);
      }
    }
  }

  ghost predicate NobodyRegistered(w: World, id: SessionId) {
    forall h :: h in w.handlers && w.handlers[h].session == id ==> w.handlers[h].status != Counted
  }

  /** In such a run the idle clock of a live session runs exactly while it has no running
      registered handler: nothing but a leak keeps an abandoned session from the reaper. */
  lemma IdleIffNobodyRegistered(steps: seq<Step>, id: SessionId)
    requires GivesBack(steps) && IsLive(Run(Start, steps).sessions, id)
    ensures Run(Start, steps).sessions[id].live.idleSince.Some? <==> NobodyRegistered(Run(Start, steps), id)
  {
    PlainRunIff(steps);
    RunKeepsValid(steps);
    assert steps[..|steps|] == steps;
    ClockIffNobody(Run(Start, steps), id);
  }

  lemma ClockIffNobody(w: World, id: SessionId)
    requires Plain(w) && Valid(w.sessions) && IsLive(w.sessions, id)
    ensures w.sessions[id].live.idleSince.Some? <==> NobodyRegistered(w, id)
  {
    var live := w.sessions[id].live;
    forall u: UserId ensures u in live.connections <==> RunningHolders(w.handlers, id, u) != {} {
      assert |RunningHolders(w.handlers, id, u)| == CountOf(w.sessions, id, u);
    }
    if NobodyRegistered(w, id) {
      assert forall u: UserId :: RunningHolders(w.handlers, id, u) == {};
      assert live.connections == map[];
    } else {
      var h :| h in w.handlers && w.handlers[h].session == id && w.handlers[h].status == Counted;
      assert h in RunningHolders(w.handlers, id, w.handlers[h].user);
      assert w.handlers[h].user in live.connections;
    }
  }
}
