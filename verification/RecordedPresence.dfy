/** Whom a reader of a running recording believes to be present, against the participants. */
module RecordedPresence {
  import opened Protocol
  import opened Presence
  import opened SessionHub
  import opened HubRuns

  lemma {:induction false} EvictedIsAbsent(u: UserId, log: seq<CollabMessage>)
    requires Present(log).Some? && EvictedLast(u, log)
    ensures u !in Present(log).value
  {
    var front, last := log[..|log| - 1], log[|log| - 1];
    if !(last.PeerEvicted? && last.user == u) {
      EvictedIsAbsent(u, front);
    }
  }

  lemma {:induction false} EvictedSince(u: UserId, before: seq<CollabMessage>, since: seq<CollabMessage>)
    requires EvictedLast(u, since)
    ensures EvictedLast(u, before + since)
  {
    var front := since[..|since| - 1];
    assert (before + since)[..|before + since| - 1] == before + front;
    if EvictedLast(u, front) {
      EvictedSince(u, before, front);
    }
  }

  predicate Recorded(w: World, id: SessionId) {
    IsLive(w.sessions, id) && w.sessions[id].live.recordingFrom.Some?
  }

  /** The broadcasts since the running recording began, which is no later than now. */
  function Since(live: LiveSession): seq<CollabMessage>
    requires live.recordingFrom.Some?
  {
    var p := live.recordingFrom.value;
    if p <= |live.collab| then live.collab[p..] else []
  }

  /** In every reachable state a running recording shows exactly those who joined since it
      began and are present or were last seen being evicted. */
  lemma ShownIff(steps: seq<Step>, id: SessionId, u: UserId)
    requires Recorded(Run(Start, steps), id)
    ensures var live := Run(Start, steps).sessions[id].live;
            (u in RecordedPresent(live.taps)
             <==> JoinedIn(u, Since(live)) && (u in live.participants || EvictedLast(u, Since(live))))
  {
    hide Run;
    RunKeepsValid(steps);
  }

  ghost predicate ShowsParticipants(live: LiveSession) {
    forall u :: u in RecordedPresent(live.taps) <==> u in live.participants
  }

  ghost predicate AllJoinedSince(live: LiveSession)
    requires live.recordingFrom.Some?
  {
    forall u :: u in live.participants ==> JoinedIn(u, Since(live))
  }

  ghost predicate NoneEvictedSince(live: LiveSession)
    requires live.recordingFrom.Some?
  {
    forall u :: JoinedIn(u, Since(live)) ==> !EvictedLast(u, Since(live))
  }

  lemma EvictedIsNoParticipant(live: LiveSession, u: UserId)
    requires WellFormed(live) && live.recordingFrom.Some? && EvictedLast(u, Since(live))
    ensures u !in live.participants
  {
    assert live.collab == live.collab[..live.recordingFrom.value] + Since(live);
    EvictedSince(u, live.collab[..live.recordingFrom.value], Since(live));
    EvictedIsAbsent(u, live.collab);
    assert u !in live.participants.Keys;
  }

  lemma ShowsParticipantsIff(live: LiveSession)
    requires WellFormed(live) && live.recordingFrom.Some?
    ensures ShowsParticipants(live) <==> AllJoinedSince(live) && NoneEvictedSince(live)
  {
    if ShowsParticipants(live) {
      forall u | JoinedIn(u, Since(live)) ensures !EvictedLast(u, Since(live)) {
        if EvictedLast(u, Since(live)) {
          EvictedIsNoParticipant(live, u);
        }
      }
      forall u | u in live.participants ensures JoinedIn(u, Since(live)) {
        assert u in RecordedPresent(live.taps);
      }
    }
    if AllJoinedSince(live) && NoneEvictedSince(live) {
      forall u ensures u in RecordedPresent(live.taps) <==> u in live.participants {
        assert JoinedIn(u, Since(live)) ==> !EvictedLast(u, Since(live));
      }
    }
  }

  /** In every reachable state a running recording shows exactly the participants if and
      only if everybody present joined since it began and nobody who joined since then was
      last evicted. */
  lemma RecordedArePresentIff(steps: seq<Step>, id: SessionId)
    requires Recorded(Run(Start, steps), id)
    ensures var live := Run(Start, steps).sessions[id].live;
            (ShowsParticipants(live) <==> AllJoinedSince(live) && NoneEvictedSince(live))
  {
    hide Run;
    RunKeepsValid(steps);
    ShowsParticipantsIff(Run(Start, steps).sessions[id].live);
  }

  /** An evicted user is shown afterwards exactly if it had joined since the recording began. */
  lemma EvictedIsShownIff(live: LiveSession, u: UserId, reason: EvictReason, now: Instant)
    requires WellFormed(live) && live.recordingFrom.Some? && u in live.connections
    ensures var after := Evict(live, u, reason, now);
            && u !in after.participants
            && (u in RecordedPresent(after.taps) <==> JoinedIn(u, Since(live)))
  {
    var after := Evict(live, u, reason, now);
    EvictKeepsWellFormed(live, u, reason, now);
    assert u in live.participants.Keys && after.taps == live.taps;
  }

  lemma EvictionIsNotRecorded(steps: seq<Step>, u: UserId, reason: EvictReason, id: SessionId)
    requires Recorded(Run(Start, steps), id) && Connected(Run(Start, steps).sessions[id], u)
    ensures var live := Run(Start, steps).sessions[id].live;
            var w := Next(Run(Start, steps), EvictAll(u, reason));
            && IsLive(w.sessions, id) && u !in w.sessions[id].live.participants
            && (u in RecordedPresent(w.sessions[id].live.taps) <==> JoinedIn(u, Since(live)))
  {
    hide Evict, WellFormed, Run;
    RunKeepsValid(steps);
    EvictedIsShownIff(Run(Start, steps).sessions[id].live, u, reason, Run(Start, steps).now);
  }

  // ---- one run for each way to differ ----

  /** A recording begun while somebody is present never shows that user. */
  lemma StartedLateMissesUser() returns (w: World)
    ensures w == Run(Start, [Spawn("s", "t"), Attach(0, "s", 7), Register(0, "ann", Operator), InSession("s", Begin)])
    ensures Recorded(w, "s") && 7 in w.sessions["s"].live.participants
    ensures RecordedPresent(w.sessions["s"].live.taps) == {} && !EvictedLast(7, w.sessions["s"].live.collab)
  {
    var before := Next(Next(Start, Spawn("s", "t")), Attach(0, "s", 7));
    FromOneTab(InSession("s", Begin));
    OneTabScene();
    assert OneTab() == Next(before, Register(0, "ann", Operator));
    FirstJoin(before.sessions["s"].live, 7, "ann", Operator);
    w := Next(OneTab(), InSession("s", Begin));
  }

  lemma FirstJoin(live: LiveSession, u: UserId, name: string, role: Role)
    requires u !in live.connections
    ensures var after := AddConnection(live, u, name, role);
            u in after.participants && u in after.connections
            && !EvictedLast(u, after.collab) && JoinedIn(u, after.collab)
    ensures var after := AddConnection(live, u, name, role);
            live.recordingFrom.Some? && live.recordingFrom.value <= |live.collab|
            ==> after.recordingFrom == live.recordingFrom && JoinedIn(u, Since(after))
  {
    var after := AddConnection(live, u, name, role);
    assert after.collab[..|live.collab|] == live.collab;
  }

  /** A user who joins a running recording and is evicted is still shown by it. */
  lemma EvictedIsStillShown(reason: EvictReason) returns (w: World)
    ensures w == Run(Start, [Spawn("s", "t")]
                            + [InSession("s", Begin), Attach(0, "s", 7), Register(0, "ann", Operator),
                                EvictAll(7, reason)])
    ensures Recorded(w, "s") && w.sessions["s"].live.participants == map[]
    ensures 7 in RecordedPresent(w.sessions["s"].live.taps)
  {
    RunFour(Start, [Spawn("s", "t")], InSession("s", Begin), Attach(0, "s", 7), Register(0, "ann", Operator),
            EvictAll(7, reason));
    SpawnedAlone();
    var w1 := Next(Start, Spawn("s", "t"));
    var w2 := BeginAndAttach(w1);
    RegisterAndEvict(w2, BeginRecording(NewLive("t", 0)), reason);
    w := Next(Next(w2, Register(0, "ann", Operator)), EvictAll(7, reason));
    JoinAndGo(reason);
  }

  lemma BeginAndAttach(w: World) returns (w2: World)
    requires w == World(map["s" := Live(NewLive("t", 0))], map[], {}, 0)
    ensures w2 == Next(Next(w, InSession("s", Begin)), Attach(0, "s", 7))
    ensures w2.sessions == map["s" := Live(BeginRecording(NewLive("t", 0)))] && w2.now == 0
    ensures InHandler(w2, 0, Subscribed) && w2.handlers[0].session == "s" && w2.handlers[0].user == 7
  {
    hide BeginRecording, NewLive;
    w2 := Next(Next(w, InSession("s", Begin)), Attach(0, "s", 7));
  }

  lemma RegisterAndEvict(w: World, live: LiveSession, reason: EvictReason)
    requires w.sessions == map["s" := Live(live)] && w.now == 0
    requires InHandler(w, 0, Subscribed) && w.handlers[0].session == "s" && w.handlers[0].user == 7
    ensures var after := Next(Next(w, Register(0, "ann", Operator)), EvictAll(7, reason));
            && IsLive(after.sessions, "s")
            && after.sessions["s"].live == Evict(AddConnection(live, 7, "ann", Operator), 7, reason, 0)
  {
    hide Evict, AddConnection;
    var w3 := Next(w, Register(0, "ann", Operator));
    assert w3.sessions == map["s" := Live(AddConnection(live, 7, "ann", Operator))] && w3.now == 0;
  }

  lemma SpawnedAlone()
    ensures Run(Start, [Spawn("s", "t")]) == Next(Start, Spawn("s", "t"))
  {
    assert [Spawn("s", "t")][..0] == [];
  }

  lemma JoinAndGo(reason: EvictReason)
    ensures var joined := AddConnection(BeginRecording(NewLive("t", 0)), 7, "ann", Operator);
            var gone := Evict(joined, 7, reason, 0);
            && gone.recordingFrom == Some(0) && gone.participants == map[]
            && 7 in RecordedPresent(gone.taps)
  {
    NewLiveWellFormed("t", 0);
    var live := BeginRecording(NewLive("t", 0));
    BeginKeepsWellFormed(NewLive("t", 0));
    AddKeepsWellFormed(live, 7, "ann", Operator);
    FirstJoin(live, 7, "ann", Operator);
    EvictedIsShownIff(AddConnection(live, 7, "ann", Operator), 7, reason, 0);
  }
}
