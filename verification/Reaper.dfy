/** The reaper against reconnects, over whole runs of the hub. */
module Reaper {
  import opened Protocol
  import opened SessionHub
  import opened HubRuns

  lemma {:induction false} ClockMonotone(steps: seq<Step>, j: nat, i: nat)
    requires j <= i <= |steps|
    ensures Run(Start, steps[..j]).now <= Run(Start, steps[..i]).now
    decreases i - j
  {
    if j < i {
      ClockMonotone(steps, j, i - 1);
      assert steps[..i][..i - 1] == steps[..i - 1];
    }
  }

  /** The idle clock of a session either is what it was or was set just now. */
  lemma IdleClockStep(w: World, step: Step, id: SessionId, t: Instant)
    requires IsLive(Next(w, step).sessions, id) && Next(w, step).sessions[id].live.idleSince == Some(t)
    ensures (IsLive(w.sessions, id) && w.sessions[id].live.idleSince == Some(t)) || (t == w.now == Next(w, step).now)
  {
  }

  /** If a session's idle clock shows `t`, then at every earlier point of the run
      later than `t` it was live and nobody was connected. */
  lemma {:induction false} IdleThroughout(steps: seq<Step>, j: nat, i: nat, id: SessionId, t: Instant)
    requires j <= i <= |steps|
    requires IsLive(Run(Start, steps[..i]).sessions, id)
    requires Run(Start, steps[..i]).sessions[id].live.idleSince == Some(t)
    requires Run(Start, steps[..j]).now > t
    ensures var w := Run(Start, steps[..j]);
            IsLive(w.sessions, id) && w.sessions[id].live.connections == map[]
    decreases i
  {
    if i == j {
      RunKeepsValid(steps[..j]);
    } else {
      assert steps[..i][..i - 1] == steps[..i - 1];
      var before := Run(Start, steps[..i - 1]);
      IdleClockStep(before, steps[i - 1], id, t);
      ClockMonotone(steps, j, i - 1);
      IdleThroughout(steps, j, i - 1, id, t);
    }
  }

  /** A session is reaped only if nobody was connected at any point of the last
      `timeout`. */
  lemma ReapedWasIdle(steps: seq<Step>, k: nat, id: SessionId, timeout: nat)
    requires k < |steps| && steps[k] == Reap(id, timeout)
    requires id in Run(Start, steps[..k]).sessions
    requires id !in Run(Start, steps[..k + 1]).sessions
    ensures forall j {:trigger steps[..j]} ::
              0 <= j <= k && Run(Start, steps[..j]).now + timeout > Run(Start, steps[..k]).now ==>
              IsLive(Run(Start, steps[..j]).sessions, id)
              && Run(Start, steps[..j]).sessions[id].live.connections == map[]
  {
    assert steps[..k + 1][..k] == steps[..k];
    var w := Run(Start, steps[..k]);
    assert Due(w.sessions, id, w.now, timeout);
    var t := w.sessions[id].live.idleSince.value;
    forall j | 0 <= j <= k && Run(Start, steps[..j]).now + timeout > w.now
      ensures IsLive(Run(Start, steps[..j]).sessions, id)
              && Run(Start, steps[..j]).sessions[id].live.connections == map[]
    {
      if w.now < t {
        IdleNotInFuture(steps, k, id);
      }
      IdleThroughout(steps, j, k, id, t);
    }
  }

  lemma {:induction false} IdleNotInFuture(steps: seq<Step>, i: nat, id: SessionId)
    requires i <= |steps| && IsLive(Run(Start, steps[..i]).sessions, id)
    ensures var w := Run(Start, steps[..i]);
            w.sessions[id].live.idleSince.Some? ==> w.sessions[id].live.idleSince.value <= w.now
  {
    if i > 0 && Run(Start, steps[..i]).sessions[id].live.idleSince.Some? {
      assert steps[..i][..i - 1] == steps[..i - 1];
      var before := Run(Start, steps[..i - 1]);
      IdleClockStep(before, steps[i - 1], id, Run(Start, steps[..i]).sessions[id].live.idleSince.value);
      ClockMonotone(steps, i - 1, i);
      if IsLive(before.sessions, id) {
        IdleNotInFuture(steps, i - 1, id);
      }
    }
  }

  // ---- exactly which sessions are reaped ----

  /** From point `j` to point `k` of the run the session was live and nobody was connected. */
  ghost predicate QuietFrom(steps: seq<Step>, j: nat, k: nat, id: SessionId) {
    && j <= k <= |steps|
    && forall i {:trigger steps[..i]} :: j <= i <= k ==>
         IsLive(Run(Start, steps[..i]).sessions, id) && Run(Start, steps[..i]).sessions[id].live.connections == map[]
  }

  lemma {:induction false} ClockWasSet(steps: seq<Step>, k: nat, id: SessionId, t: Instant) returns (j: nat)
    requires k <= |steps| && IsLive(Run(Start, steps[..k]).sessions, id)
    requires Run(Start, steps[..k]).sessions[id].live.idleSince == Some(t)
    ensures QuietFrom(steps, j, k, id) && Run(Start, steps[..j]).now == t
  {
    hide Next, RecorderOk, ColorsInTurn, Joins, Chats, LastEntries;
    RunKeepsValid(steps[..k]);
    assert k > 0;
    assert steps[..k][..k - 1] == steps[..k - 1];
    var before := Run(Start, steps[..k - 1]);
    IdleClockStep(before, steps[k - 1], id, t);
    if IsLive(before.sessions, id) && before.sessions[id].live.idleSince == Some(t) {
      j := ClockWasSet(steps, k - 1, id, t);
    } else {
      j := k;
    }
  }

  lemma QuietStep(w: World, step: Step, id: SessionId)
    requires IsLive(w.sessions, id) && w.sessions[id].live.connections == map[]
    requires IsLive(Next(w, step).sessions, id) && Next(w, step).sessions[id].live.connections == map[]
    ensures Next(w, step).sessions[id].live.idleSince == w.sessions[id].live.idleSince
  {
  }

  lemma {:induction false} QuietKeepsClock(steps: seq<Step>, j: nat, k: nat, id: SessionId)
    requires QuietFrom(steps, j, k, id)
    ensures Run(Start, steps[..k]).sessions[id].live.idleSince == Run(Start, steps[..j]).sessions[id].live.idleSince
    decreases k - j
  {
    if j < k {
      QuietKeepsClock(steps, j, k - 1, id);
      assert steps[..k][..k - 1] == steps[..k - 1];
      assert IsLive(Run(Start, steps[..k - 1]).sessions, id) && IsLive(Run(Start, steps[..k]).sessions, id);
      QuietStep(Run(Start, steps[..k - 1]), steps[k - 1], id);
    }
  }

  /** Nobody has been connected since some point of the run at least `timeout` back. */
  ghost predicate IdleLongEnough(steps: seq<Step>, k: nat, id: SessionId, timeout: nat)
    requires k <= |steps|
  {
    exists j: nat :: QuietFrom(steps, j, k, id) && Run(Start, steps[..j]).now + timeout <= Run(Start, steps[..k]).now
  }

  lemma IdleLongIsDue(steps: seq<Step>, j: nat, k: nat, id: SessionId, timeout: nat)
    requires QuietFrom(steps, j, k, id) && Run(Start, steps[..j]).now + timeout <= Run(Start, steps[..k]).now
    ensures Due(Run(Start, steps[..k]).sessions, id, Run(Start, steps[..k]).now, timeout)
  {
    QuietKeepsClock(steps, j, k, id);
    RunKeepsValid(steps[..j]);
    assert IsLive(Run(Start, steps[..j]).sessions, id) && IsLive(Run(Start, steps[..k]).sessions, id);
    IdleNotInFuture(steps, j, id);
  }

  /** The re-check finds a session due exactly if its last connection, or its creation,
      lies at least `timeout` back. */
  lemma DueIff(steps: seq<Step>, k: nat, id: SessionId, timeout: nat)
    requires k <= |steps|
    ensures Due(Run(Start, steps[..k]).sessions, id, Run(Start, steps[..k]).now, timeout)
       <==> IdleLongEnough(steps, k, id, timeout)
  {
    var w := Run(Start, steps[..k]);
    if Due(w.sessions, id, w.now, timeout) {
      IdleNotInFuture(steps, k, id);
      var j := ClockWasSet(steps, k, id, w.sessions[id].live.idleSince.value);
    }
    if IdleLongEnough(steps, k, id, timeout) {
      var j: nat :| QuietFrom(steps, j, k, id) && Run(Start, steps[..j]).now + timeout <= Run(Start, steps[..k]).now;
      IdleLongIsDue(steps, j, k, id, timeout);
    }
  }

  /** A live session is removed by the reaper if and only if a scan named it and, at the
      re-check, nobody has been connected since some point at least `timeout` back:
      so a handler saves it by registering before the re-check, and only so. */
  lemma ReapedIff(steps: seq<Step>, k: nat, id: SessionId, timeout: nat)
    requires k < |steps| && steps[k] == Reap(id, timeout) && IsLive(Run(Start, steps[..k]).sessions, id)
    ensures id !in Run(Start, steps[..k + 1]).sessions
       <==> id in Run(Start, steps[..k]).candidates && IdleLongEnough(steps, k, id, timeout)
  {
    DueIff(steps, k, id, timeout);
    assert steps[..k + 1][..k] == steps[..k];
  }

  /** A scan names exactly the sessions in which nobody has been connected since some point
      at least `timeout` back. */
  lemma NamedIff(steps: seq<Step>, k: nat, id: SessionId, timeout: nat)
    requires k < |steps| && steps[k] == Scan(timeout)
    ensures id in Run(Start, steps[..k + 1]).candidates <==> IdleLongEnough(steps, k, id, timeout)
  {
    hide Due, IdleLongEnough;
    DueIff(steps, k, id, timeout);
    assert steps[..k + 1][..k] == steps[..k];
    ScanStep(Run(Start, steps[..k]), id, timeout);
  }

  lemma ScanStep(w: World, id: SessionId, timeout: nat)
    ensures id in Next(w, Scan(timeout)).candidates <==> Due(w.sessions, id, w.now, timeout)
  {
  }

  lemma RegisteredMeansConnected(w: World, h: nat)
    requires Valid(w.sessions) && CountsMatch(w) && InHandler(w, h, Counted)
    ensures var id := w.handlers[h].session;
            IsLive(w.sessions, id) && w.sessions[id].live.idleSince == None
  {
    var id, u := w.handlers[h].session, w.handlers[h].user;
    assert h in Holders(w.handlers, id, u);
    assert |Holders(w.handlers, id, u)| == CountOf(w.sessions, id, u);
    assert Holders(w.handlers, id, u) != {};
    assert u in w.sessions[id].live.connections;
  }

  /** An attach that has its receiver survives the re-check of a named session exactly if
      it has registered, or the session is not due anyway. */
  lemma AttachSurvivesIff(steps: seq<Step>, h: nat, timeout: nat)
    requires NoStrayExits(steps)
    requires InHandler(Run(Start, steps), h, Subscribed) || InHandler(Run(Start, steps), h, Counted)
    requires var w := Run(Start, steps);
             w.handlers[h].session in w.candidates && IsLive(w.sessions, w.handlers[h].session)
    ensures var w := Run(Start, steps);
            var id := w.handlers[h].session;
            (IsLive(Next(w, Reap(id, timeout)).sessions, id)
             <==> InHandler(w, h, Counted) || !Due(w.sessions, id, w.now, timeout))
  {
    hide Run;
    RunKeepsValid(steps);
    RunCounts(steps);
    if InHandler(Run(Start, steps), h, Counted) {
      RegisteredMeansConnected(Run(Start, steps), h);
    }
  }

  /** A tab that attached between scan and re-check but had not registered yet: its session
      is reaped under it, and its registration finds nothing. */
  lemma AttachedButReaped() returns (w: World)
    ensures w == Run(Start, [Spawn("s", "t"), Tick(120)]
                         + [Scan(120), Attach(0, "s", 7), Reap("s", 120), Register(0, "ann", Operator)])
    ensures !IsLive(w.sessions, "s") && InHandler(w, 0, Uncounted)
  {
    var w2 := IdleTwoMinutes();
    RunFour(Start, [Spawn("s", "t"), Tick(120)],
            Scan(120), Attach(0, "s", 7), Reap("s", 120), Register(0, "ann", Operator));
    var w4 := Scanned(w2);
    var w5 := Next(w4, Reap("s", 120));
    assert !IsLive(w5.sessions, "s") && InHandler(w5, 0, Subscribed);
    w := Next(w5, Register(0, "ann", Operator));
  }

  /** Registered in time, the same tab keeps it. */
  lemma RegisteredInTime() returns (w: World)
    ensures w == Run(Start, [Spawn("s", "t"), Tick(120)]
                         + [Scan(120), Attach(0, "s", 7), Register(0, "ann", Operator), Reap("s", 120)])
    ensures IsLive(w.sessions, "s") && "s" in w.candidates && InHandler(w, 0, Counted)
  {
    var w2 := IdleTwoMinutes();
    RunFour(Start, [Spawn("s", "t"), Tick(120)],
            Scan(120), Attach(0, "s", 7), Register(0, "ann", Operator), Reap("s", 120));
    var w4 := Scanned(w2);
    var w5 := Next(w4, Register(0, "ann", Operator));
    assert w5.sessions["s"].live.idleSince == None;
    w := Next(w5, Reap("s", 120));
  }

  lemma Scanned(w2: World) returns (w4: World)
    requires w2 == World(map["s" := Live(NewLive("t", 0))], map[], {}, 120)
    ensures w4 == Next(Next(w2, Scan(120)), Attach(0, "s", 7))
    ensures "s" in w4.candidates && InHandler(w4, 0, Subscribed) && w4.handlers[0].session == "s"
    ensures w4.sessions == w2.sessions && w4.now == 120
  {
    var w3 := Next(w2, Scan(120));
    assert "s" in w3.candidates && w3.handlers == map[];
    w4 := Next(w3, Attach(0, "s", 7));
  }

  lemma IdleTwoMinutes() returns (w: World)
    ensures w == Run(Start, [Spawn("s", "t"), Tick(120)])
    ensures w == World(map["s" := Live(NewLive("t", 0))], map[], {}, 120)
  {
    assert [Spawn("s", "t"), Tick(120)] == [] + [Spawn("s", "t")] + [Tick(120)];
    RunSnoc(Start, [], Spawn("s", "t"));
    RunSnoc(Start, [] + [Spawn("s", "t")], Tick(120));
    w := Next(Next(Start, Spawn("s", "t")), Tick(120));
  }

  lemma AbandonedIsDue(w: World, id: SessionId, timeout: nat)
    requires IsLive(w.sessions, id) && w.sessions[id].live.idleSince.Some?
    requires w.sessions[id].live.idleSince.value <= w.now
    ensures var later := Next(Next(w, Tick(timeout)), Scan(timeout));
            && later.handlers == w.handlers && later.sessions == w.sessions
            && !IsLive(Next(later, Reap(id, timeout)).sessions, id)
  {
  }

  /** A live session without connections is reaped after `timeout`, whoever runs in it. */
  lemma AbandonedIsReaped(steps: seq<Step>, id: SessionId, timeout: nat)
    requires IsLive(Run(Start, steps).sessions, id) && Run(Start, steps).sessions[id].live.connections == map[]
    ensures var w := Next(Next(Run(Start, steps), Tick(timeout)), Scan(timeout));
            && w.handlers == Run(Start, steps).handlers && w.sessions == Run(Start, steps).sessions
            && !IsLive(Next(w, Reap(id, timeout)).sessions, id)
  {
    hide Run, Next;
    RunKeepsValid(steps);
    assert steps[..|steps|] == steps;
    IdleNotInFuture(steps, |steps|, id);
    AbandonedIsDue(Run(Start, steps), id, timeout);
  }

  /** So after a stray exit took the connection of a reopened tab, the session is reaped
      while that tab is still registered and running. */
  lemma StrayThenReaped(reason: EvictReason) returns (w: World, steps: seq<Step>)
    ensures w == Run(Start, steps + [Tick(120)] + [Scan(120)])
    ensures steps == [Spawn("s", "t"), Attach(0, "s", 7), Register(0, "ann", Operator), EvictAll(7, reason)]
                     + [Attach(1, "s", 7), Register(1, "ann", Operator), Exit(0), Tick(0)]
    ensures InHandler(w, 1, Counted) && IsLive(w.sessions, "s")
    ensures !IsLive(Next(w, Reap("s", 120)).sessions, "s")
  {
    hide Run, Next;
    steps := [Spawn("s", "t"), Attach(0, "s", 7), Register(0, "ann", Operator), EvictAll(7, reason)]
             + [Attach(1, "s", 7), Register(1, "ann", Operator), Exit(0), Tick(0)];
    var v := StrayExitDropsReconnect(reason);
    AbandonedIsReaped(steps, "s", 120);
    RunSnoc(Start, steps, Tick(120));
    RunSnoc(Start, steps + [Tick(120)], Scan(120));
    w := Next(Next(v, Tick(120)), Scan(120));
  }
}
