/** What a connected client makes of the broadcasts, over whole runs of the hub. */
module ClientViews {
  import opened Protocol
  import opened Presence
  import opened SessionHub
  import opened HubRuns

  /** Handler `h` receives from the present channel of its session, which is live. */
  predicate Hears(w: World, h: nat) {
    h in w.handlers && w.handlers[h].hearing && IsLive(w.sessions, w.handlers[h].session)
  }

  /** Everything broadcast so far in the session of a handler. */
  function LogOf(w: World, h: nat): seq<CollabMessage>
    requires Hears(w, h)
  {
    w.sessions[w.handlers[h].session].live.collab
  }

  lemma OpExtends(live: LiveSession, op: Op)
    ensures live.collab <= ApplyOp(live, op).collab
  {
  }

  /** A channel only grows while its entry stays. */
  lemma LogGrows(w: World, step: Step, id: SessionId)
    requires IsLive(w.sessions, id) && IsLive(Next(w, step).sessions, id)
    ensures w.sessions[id].live.collab <= Next(w, step).sessions[id].live.collab
  {
    hide ApplyOp;
    if step.InSession? && IsLive(w.sessions, step.id) {
      OpExtends(w.sessions[step.id].live, step.op);
    }
  }

  /** A handler hears from when it subscribed until its entry is dropped, never again. */
  lemma HearingStep(w: World, step: Step, h: nat)
    requires h in w.handlers && h in Next(w, step).handlers && Next(w, step).handlers[h].hearing
    ensures w.handlers[h].hearing && Next(w, step).handlers[h].session == w.handlers[h].session
    ensures Hears(w, h) ==> Hears(Next(w, step), h) && LogOf(w, h) <= LogOf(Next(w, step), h)
  {
    if Hears(w, h) {
      StaysLive(w, step, h);
      LogGrows(w, step, w.handlers[h].session);
    }
  }

  lemma StaysLive(w: World, step: Step, h: nat)
    requires Hears(w, h) && h in Next(w, step).handlers && Next(w, step).handlers[h].hearing
    ensures IsLive(Next(w, step).sessions, w.handlers[h].session)
  {
  }

  lemma HandlersStay(w: World, step: Step, h: nat)
    requires h in w.handlers
    ensures h in Next(w, step).handlers
  {
  }

  lemma RunPrefix(steps: seq<Step>, j: nat)
    requires 0 < j <= |steps|
    ensures Run(Start, steps[..j]) == Next(Run(Start, steps[..j - 1]), steps[j - 1])
  {
    hide Next;
    assert steps[..j][..j - 1] == steps[..j - 1];
  }

  lemma {:induction false} HeardThroughout(steps: seq<Step>, i: nat, j: nat, h: nat)
    requires i <= j <= |steps| && Hears(Run(Start, steps[..i]), h)
    requires h in Run(Start, steps[..j]).handlers && Run(Start, steps[..j]).handlers[h].hearing
    ensures var v, w := Run(Start, steps[..i]), Run(Start, steps[..j]);
            Hears(w, h) && w.handlers[h].session == v.handlers[h].session && LogOf(v, h) <= LogOf(w, h)
    decreases j - i
  {
    if i < j {
      RunPrefix(steps, j);
      hide Next, Hears, LogOf, Run;
      var before := Run(Start, steps[..j - 1]);
      StillThere(steps, i, j - 1, h);
      HearingStep(before, steps[j - 1], h);
      HeardThroughout(steps, i, j - 1, h);
    }
  }

  lemma {:induction false} StillThere(steps: seq<Step>, i: nat, j: nat, h: nat)
    requires i <= j <= |steps| && h in Run(Start, steps[..i]).handlers
    ensures h in Run(Start, steps[..j]).handlers
    decreases j - i
  {
    if i < j {
      RunPrefix(steps, j);
      hide Next, Run;
      StillThere(steps, i, j - 1, h);
      HandlersStay(Run(Start, steps[..j - 1]), steps[j - 1], h);
    }
  }

  /** The participant list the hub has for the session of a handler. */
  function HubList(w: World, h: nat): Participants
    requires Hears(w, h)
  {
    w.sessions[w.handlers[h].session].live.participants
  }

  lemma ListIsReplay(steps: seq<Step>, i: nat, h: nat)
    requires i <= |steps| && Hears(Run(Start, steps[..i]), h)
    ensures HubList(Run(Start, steps[..i]), h) == Replay(map[], LogOf(Run(Start, steps[..i]), h))
  {
    RunKeepsValid(steps[..i]);
  }

  /** Step `i` of the run is the attach of handler `h`, and it finds its session live. */
  ghost predicate AttachesAt(steps: seq<Step>, i: nat, h: nat) {
    && i < |steps| && steps[i].Attach? && steps[i].h == h
    && h !in Run(Start, steps[..i]).handlers && IsLive(Run(Start, steps[..i]).sessions, steps[i].id)
  }

  lemma AttachHears(w: World, h: nat, id: SessionId, u: UserId)
    requires h !in w.handlers && IsLive(w.sessions, id)
    ensures Hears(Next(w, Attach(h, id, u)), h)
  {
  }

  /** A client that subscribed when its handler attached, was given the participant list at
      any later point, and folds all it received since it subscribed, has at every moment
      the hub's own list, as long as the entry it attached to is there. */
  lemma ClientFollows(steps: seq<Step>, a: nat, b: nat, h: nat)
    requires AttachesAt(steps, a, h) && a < b <= |steps|
    requires h in Run(Start, steps).handlers && Run(Start, steps).handlers[h].hearing
    ensures var subscribed, snapshot, now := Run(Start, steps[..a + 1]), Run(Start, steps[..b]), Run(Start, steps);
            && Hears(subscribed, h) && Hears(snapshot, h) && Hears(now, h)
            && |LogOf(subscribed, h)| <= |LogOf(now, h)|
            && Replay(HubList(snapshot, h), LogOf(now, h)[|LogOf(subscribed, h)|..]) == HubList(now, h)
  {
    hide Next, Replay;
    assert steps[..|steps|] == steps && steps[..a + 1][..a] == steps[..a];
    AttachHears(Run(Start, steps[..a]), h, steps[a].id, steps[a].user);
    StillThere(steps, a + 1, b, h);
    StillHearing(steps, b, |steps|, h);
    HeardThroughout(steps, a + 1, b, h);
    HeardThroughout(steps, b, |steps|, h);
    ListIsReplay(steps, b, h);
    ListIsReplay(steps, |steps|, h);
    var early, log := LogOf(Run(Start, steps[..b]), h), LogOf(Run(Start, steps), h);
    var j, k := |LogOf(Run(Start, steps[..a + 1]), h)|, |early|;
    assert log[..k] == early;
    ClientConverges(log, j, k);
  }

  lemma {:induction false} StillHearing(steps: seq<Step>, i: nat, j: nat, h: nat)
    requires i <= j <= |steps| && h in Run(Start, steps[..i]).handlers
    requires h in Run(Start, steps[..j]).handlers && Run(Start, steps[..j]).handlers[h].hearing
    ensures Run(Start, steps[..i]).handlers[h].hearing
    decreases j - i
  {
    if i < j {
      RunPrefix(steps, j);
      hide Next, Hears, LogOf, Run;
      StillThere(steps, i, j - 1, h);
      HearingStep(Run(Start, steps[..j - 1]), steps[j - 1], h);
      StillHearing(steps, i, j - 1, h);
    }
  }

  // ---- under which name and role a user is listed ----

  /** The step registers the first connection of `u` in the live session `id`. */
  predicate JoinsBy(w: World, step: Step, id: SessionId, u: UserId) {
    && step.Register? && InHandler(w, step.h, Subscribed)
    && w.handlers[step.h].session == id && w.handlers[step.h].user == u
    && IsLive(w.sessions, id) && u !in w.sessions[id].live.connections
  }

  predicate SetsRole(step: Step, id: SessionId, u: UserId) {
    step.InSession? && step.id == id && step.op.SetRole? && step.op.user == u
  }

  /** Name and role that `u` was given last: by the handler that registered its first
      connection, or by a change of role since. */
  function Given(steps: seq<Step>, id: SessionId, u: UserId): (string, Role) {
    if steps == [] then ("", Viewer)
    else
      var front, last := steps[..|steps| - 1], steps[|steps| - 1];
      if JoinsBy(Run(Start, front), last, id, u) then (last.name, last.role)
      else if SetsRole(last, id, u) then (Given(front, id, u).0, last.op.role)
      else Given(front, id, u)
  }

  predicate Listed(w: World, id: SessionId, u: UserId) {
    IsLive(w.sessions, id) && u in w.sessions[id].live.participants
  }

  function ListedAs(w: World, id: SessionId, u: UserId): (string, Role)
    requires Listed(w, id, u)
  {
    (w.sessions[id].live.participants[u].name, w.sessions[id].live.participants[u].role)
  }

  lemma OpListing(live: LiveSession, op: Op, u: UserId)
    requires u in ApplyOp(live, op).participants
    ensures u in live.participants
    ensures ApplyOp(live, op).participants[u].name == live.participants[u].name
    ensures ApplyOp(live, op).participants[u].role
         == if op.SetRole? && op.user == u then op.role else live.participants[u].role
  {
  }

  lemma ListedStep(w: World, step: Step, id: SessionId, u: UserId)
    requires Valid(w.sessions) && Listed(Next(w, step), id, u)
    ensures var now := ListedAs(Next(w, step), id, u);
            if JoinsBy(w, step, id, u) then now == (step.name, step.role)
            else Listed(w, id, u)
                 && now == (ListedAs(w, id, u).0, if SetsRole(step, id, u) then step.op.role else ListedAs(w, id, u).1)
  {
    hide ApplyOp, RecorderOk, Chats, Joins, ColorsInTurn, LastEntries;
    if IsLive(w.sessions, id) {
      assert w.sessions[id].live.participants.Keys == w.sessions[id].live.connections.Keys;
      if step.InSession? && step.id == id {
        OpListing(w.sessions[id].live, step.op, u);
      }
    }
  }

  /** Over every run a participant is listed under the name and role it was given last. */
  lemma {:induction false} ListedAsGiven(steps: seq<Step>, id: SessionId, u: UserId)
    requires Listed(Run(Start, steps), id, u)
    ensures ListedAs(Run(Start, steps), id, u) == Given(steps, id, u)
  {
    if steps != [] {
      hide Next, JoinsBy, SetsRole, Listed, ListedAs;
      var front, last := steps[..|steps| - 1], steps[|steps| - 1];
      RunKeepsValid(front);
      ListedStep(Run(Start, front), last, id, u);
      if !JoinsBy(Run(Start, front), last, id, u) {
        ListedAsGiven(front, id, u);
      }
    } else {
      NobodyListed(id, u);
    }
  }

  lemma NobodyListed(id: SessionId, u: UserId)
    ensures !Listed(Run(Start, []), id, u)
  {
  }
}
