/** Whole runs of the hub: any number of connection handlers, the HTTP endpoints,
    the PTY loops and the reaper, interleaved in any order on one clock. */
module HubRuns {
  import opened Protocol
  import opened Presence
  import opened SessionHub

  /** Where a connection handler stands with the hub's connection count.
      `Counted`: registered and running. `Leaked`: it has ended but its
      count was never given back. `Uncounted`: running, but the count it took is
      gone (evicted, entry dropped) or it never got one. */
  datatype Status = Subscribed | Counted | Leaked | Uncounted | Gone

  /** `hearing` says that the receivers belong to the present channel of the session and not
      to that of an entry dropped since. */
  datatype Handler = Handler(
    session: SessionId, user: UserId, status: Status, evictSent: bool, wasEvicted: bool, hearing: bool)

  type Handlers = map<nat, Handler>

  /** `candidates` are the sessions the reaper found idle in its last scan. */
  datatype World = World(sessions: Sessions, handlers: Handlers, candidates: set<SessionId>, now: Instant)

  /** Operations on one live session that concern no connection. */
  datatype Op =
    | SetRole(user: UserId, role: Role)
    | Say(entry: ChatEntry)
    | Announce(notice: RecordingNotice)
    | Begin
    | End

  function ApplyOp(live: LiveSession, op: Op): LiveSession {
    match op
    case SetRole(u, role) => ChangeRole(live, u, role)
    case Say(entry) => RecordChat(live, entry)
    case Announce(notice) => Notify(live, notice)
    case Begin => BeginRecording(live)
    case End => EndRecording(live)
  }

  datatype Step =
    | Tick(d: nat)
    | ReserveSlot(id: SessionId, target: string)
    | ReleaseSlot(id: SessionId)
    | SweepPending(ttl: nat)
    | Spawn(id: SessionId, target: string)
    | Attach(h: nat, id: SessionId, user: UserId)
    | Register(h: nat, name: string, role: Role)
    | BailOut(h: nat)
    | SeeEviction(h: nat)
    | Exit(h: nat)
    | EvictAll(user: UserId, reason: EvictReason)
    | InSession(id: SessionId, op: Op)
    | Drop(id: SessionId)
    | Scan(timeout: nat)
    | Reap(id: SessionId, timeout: nat)

  const Start := World(map[], map[], {}, 0)

  predicate InHandler(w: World, h: nat, status: Status) {
    h in w.handlers && w.handlers[h].status == status
  }

  predicate Running(w: World, h: nat) {
    InHandler(w, h, Counted) || InHandler(w, h, Uncounted)
  }

  /** Handlers of a session lose their count when the entry they took it in goes. */
  function Orphan(h: Handler): Handler {
    match h.status
    case Counted => h.(status := Uncounted)
    case Leaked => h.(status := Gone)
    case _ => h
  }

  function OrphanSession(hs: Handlers, id: SessionId): Handlers {
    map h | h in hs :: if hs[h].session == id then Orphan(hs[h]).(hearing := false) else hs[h]
  }

  function OrphanUser(hs: Handlers, sessions: Sessions, u: UserId): Handlers {
    map h | h in hs ::
      if hs[h].user == u && hs[h].session in sessions && Connected(sessions[hs[h].session], u)
      then Orphan(hs[h]).(evictSent := hs[h].evictSent || hs[h].hearing) else hs[h]
  }

  function UpdateLive(w: World, id: SessionId, live: LiveSession): World {
    w.(sessions := w.sessions[id := Live(live)])
  }

  function DropEntry(w: World, id: SessionId): World {
    w.(sessions := w.sessions - {id}, handlers := OrphanSession(w.handlers, id))
  }

  function RegisterStep(w: World, h: nat, name: string, role: Role): World
    requires InHandler(w, h, Subscribed)
  {
    var me := w.handlers[h];
    if IsLive(w.sessions, me.session) then
      UpdateLive(w, me.session, AddConnection(w.sessions[me.session].live, me.user, name, role))
      .(handlers := w.handlers[h := me.(status := Counted)])
    else w.(handlers := w.handlers[h := me.(status := Uncounted)])
  }

  /** A handler that saw its own eviction skips the bookkeeping; any other one
      gives back a connection of its user, whether it still holds one or not. */
  function ExitStep(w: World, h: nat): World
    requires Running(w, h)
  {
    var me := w.handlers[h];
    if me.wasEvicted then
      w.(handlers := w.handlers[h := me.(status := if me.status.Counted? then Leaked else Gone)])
    else
      var v := if IsLive(w.sessions, me.session)
               then UpdateLive(w, me.session, RemoveConnection(w.sessions[me.session].live, me.user, w.now)) else w;
      v.(handlers := w.handlers[h := me.(status := Gone)])
  }

  function Next(w: World, step: Step): World {
    match step
    case Tick(d) => w.(now := w.now + d)
    case ReserveSlot(id, target) => w.(sessions := Reserve(w.sessions, id, target, w.now))
    case ReleaseSlot(id) => w.(sessions := Release(w.sessions, id))
    case SweepPending(ttl) => w.(sessions := GcExpired(w.sessions, w.now, ttl))
    case Spawn(id, target) => if IsLive(w.sessions, id) then w else UpdateLive(w, id, NewLive(target, w.now))
    case Attach(h, id, u) =>
      if h in w.handlers || !IsLive(w.sessions, id) then w
      else w.(handlers := w.handlers[h := Handler(id, u, Subscribed, false, false, true)])
    case Register(h, name, role) => if InHandler(w, h, Subscribed) then RegisterStep(w, h, name, role) else w
    case BailOut(h) =>
      // returns from the replay loop without telling the hub
      if !Running(w, h) then w
      else
        var me := w.handlers[h];
        w.(handlers := w.handlers[h := me.(status := if me.status.Counted? then Leaked else Gone)])
    case SeeEviction(h) =>
      if Running(w, h) && w.handlers[h].evictSent
      then w.(handlers := w.handlers[h := w.handlers[h].(wasEvicted := true)]) else w
    case Exit(h) => if Running(w, h) then ExitStep(w, h) else w
    case EvictAll(u, reason) =>
      w.(sessions := EvictEverywhere(w.sessions, u, reason, w.now), handlers := OrphanUser(w.handlers, w.sessions, u))
    case InSession(id, op) =>
      if IsLive(w.sessions, id) then UpdateLive(w, id, ApplyOp(w.sessions[id].live, op)) else w
    case Drop(id) => DropEntry(w, id)
    case Scan(timeout) =>
      // under the read lock
      w.(candidates := set id | id in w.sessions && Due(w.sessions, id, w.now, timeout))
    case Reap(id, timeout) =>
      // the re-check of a candidate under the write lock
      if id in w.candidates && Due(w.sessions, id, w.now, timeout) then DropEntry(w, id) else w
  }

  function Run(w: World, steps: seq<Step>): World {
    if steps == [] then w
    else Next(Run(w, steps[..|steps| - 1]), steps[|steps| - 1])
  }

  // ---- every session stays well formed ----

  lemma PutKeepsValid(sessions: Sessions, id: SessionId, live: LiveSession)
    requires Valid(sessions) && WellFormed(live)
    ensures Valid(sessions[id := Live(live)])
  {
  }

  lemma OpKeepsWellFormed(live: LiveSession, op: Op)
    requires WellFormed(live)
    ensures WellFormed(ApplyOp(live, op))
  {
    match op
    case SetRole(u, role) => ChangeRoleKeepsWellFormed(live, u, role);
    case Say(entry) => RecordChatKeepsWellFormed(live, entry);
    case Announce(notice) => NotifyKeepsWellFormed(live, notice);
    case Begin => BeginKeepsWellFormed(live);
    case End =>
  }

  lemma RegisterKeepsValid(w: World, h: nat, name: string, role: Role)
    requires Valid(w.sessions) && InHandler(w, h, Subscribed)
    ensures Valid(RegisterStep(w, h, name, role).sessions)
  {
    var me := w.handlers[h];
    if IsLive(w.sessions, me.session) {
      AddKeepsWellFormed(w.sessions[me.session].live, me.user, name, role);
      PutKeepsValid(w.sessions, me.session, AddConnection(w.sessions[me.session].live, me.user, name, role));
    }
  }

  lemma ExitKeepsValid(w: World, h: nat)
    requires Valid(w.sessions) && Running(w, h)
    ensures Valid(ExitStep(w, h).sessions)
  {
    var me := w.handlers[h];
    if IsLive(w.sessions, me.session) {
      RemoveKeepsWellFormed(w.sessions[me.session].live, me.user, w.now);
      PutKeepsValid(w.sessions, me.session, RemoveConnection(w.sessions[me.session].live, me.user, w.now));
    }
  }

  lemma NextKeepsValid(w: World, step: Step)
    requires Valid(w.sessions)
    ensures Valid(Next(w, step).sessions)
  {
    hide WellFormed;
    match step
    case Spawn(id, target) =>
      NewLiveWellFormed(target, w.now);
      PutKeepsValid(w.sessions, id, NewLive(target, w.now));
    case Register(h, name, role) => if InHandler(w, h, Subscribed) { RegisterKeepsValid(w, h, name, role); }
    case Exit(h) => if Running(w, h) { ExitKeepsValid(w, h); }
    case EvictAll(u, reason) => EvictEverywhereValid(w.sessions, u, reason, w.now);
    case InSession(id, op) =>
      if IsLive(w.sessions, id) {
        OpKeepsWellFormed(w.sessions[id].live, op);
        PutKeepsValid(w.sessions, id, ApplyOp(w.sessions[id].live, op));
      }
    case _ =>
  }

  /** In every reachable state and every live session: the same users are in
      `participants` and `connections`, counts are positive, the idle clock runs
      exactly while nobody is connected, the participant list is the fold of the
      broadcasts, joins and departures alternate, and the chat backlog is the
      last 50 chats broadcast. */
  lemma {:induction false} RunKeepsValid(steps: seq<Step>)
    ensures Valid(Run(Start, steps).sessions)
  {
    if steps != [] {
      RunKeepsValid(steps[..|steps| - 1]);
      NextKeepsValid(Run(Start, steps[..|steps| - 1]), steps[|steps| - 1]);
    }
  }

  // ---- connection counts against handlers ----

  predicate Holds(h: Handler) { h.status.Counted? || h.status.Leaked? }

  function Holders(hs: Handlers, id: SessionId, u: UserId): set<nat> {
    set h | h in hs && Holds(hs[h]) && hs[h].session == id && hs[h].user == u
  }

  function CountOf(sessions: Sessions, id: SessionId, u: UserId): nat {
    if IsLive(sessions, id) then Connections(sessions[id].live, u) else 0
  }

  ghost predicate CountsMatch(w: World) {
    forall id: SessionId, u: UserId :: |Holders(w.handlers, id, u)| == CountOf(w.sessions, id, u)
  }

  /** A handler about to give back a connection it does not hold, while its user
      is connected through some other handler. */
  predicate StrayExit(w: World, step: Step) {
    && step.Exit? && InHandler(w, step.h, Uncounted) && !w.handlers[step.h].wasEvicted
    && CountOf(w.sessions, w.handlers[step.h].session, w.handlers[step.h].user) > 0
  }

  function Bit(b: bool): nat { if b then 1 else 0 }

  lemma SizeWithout(s: set<nat>, x: nat)
    ensures |s| == |s - {x}| + Bit(x in s)
  {
    if x in s {
      assert s == (s - {x}) + {x};
    } else {
      assert s == s - {x};
    }
  }

  lemma OneHandler(hs: Handlers, h: nat, x: Handler, id: SessionId, u: UserId)
    ensures |Holders(hs[h := x], id, u)| + Bit(h in Holders(hs, id, u))
         == |Holders(hs, id, u)| + Bit(Holds(x) && x.session == id && x.user == u)
  {
    var before, after := Holders(hs, id, u), Holders(hs[h := x], id, u);
    SizeWithout(before, h);
    SizeWithout(after, h);
    assert after - {h} == before - {h};
  }

  lemma RegisterCounts(w: World, h: nat, name: string, role: Role)
    requires CountsMatch(w) && InHandler(w, h, Subscribed)
    ensures CountsMatch(RegisterStep(w, h, name, role))
  {
    var after := RegisterStep(w, h, name, role);
    forall id: SessionId, u: UserId ensures |Holders(after.handlers, id, u)| == CountOf(after.sessions, id, u) {
      OneHandler(w.handlers, h, after.handlers[h], id, u);
      assert |Holders(w.handlers, id, u)| == CountOf(w.sessions, id, u);
    }
  }

  /** The count equation survives an exit exactly when the exit is not stray. */
  lemma ExitCountsIff(w: World, h: nat)
    requires CountsMatch(w) && Running(w, h)
    ensures CountsMatch(Next(w, Exit(h))) <==> !StrayExit(w, Exit(h))
  {
    var me := w.handlers[h];
    var after := Next(w, Exit(h));
    OneHandler(w.handlers, h, after.handlers[h], me.session, me.user);
    assert |Holders(w.handlers, me.session, me.user)| == CountOf(w.sessions, me.session, me.user);
    if StrayExit(w, Exit(h)) {
      assert |Holders(after.handlers, me.session, me.user)| != CountOf(after.sessions, me.session, me.user);
    } else {
      forall id: SessionId, u: UserId ensures |Holders(after.handlers, id, u)| == CountOf(after.sessions, id, u) {
        OneHandler(w.handlers, h, after.handlers[h], id, u);
        assert |Holders(w.handlers, id, u)| == CountOf(w.sessions, id, u);
      }
    }
  }

  lemma SameStatusCounts(w: World, h: nat, x: Handler)
    requires CountsMatch(w) && h in w.handlers
    requires Holds(x) == Holds(w.handlers[h]) && x.session == w.handlers[h].session && x.user == w.handlers[h].user
    ensures CountsMatch(w.(handlers := w.handlers[h := x]))
  {
    forall id: SessionId, u: UserId ensures |Holders(w.handlers[h := x], id, u)| == CountOf(w.sessions, id, u) {
      OneHandler(w.handlers, h, x, id, u);
      assert |Holders(w.handlers, id, u)| == CountOf(w.sessions, id, u);
    }
  }

  lemma DropCounts(w: World, id0: SessionId)
    requires CountsMatch(w)
    ensures CountsMatch(DropEntry(w, id0))
  {
    var after := DropEntry(w, id0);
    forall id: SessionId, u: UserId ensures |Holders(after.handlers, id, u)| == CountOf(after.sessions, id, u) {
      assert Holders(after.handlers, id, u) == if id == id0 then {} else Holders(w.handlers, id, u);
      assert |Holders(w.handlers, id, u)| == CountOf(w.sessions, id, u);
    }
  }

  predicate Ejected(w: World, v: UserId, id: SessionId, u: UserId) {
    u == v && id in w.sessions && Connected(w.sessions[id], v)
  }

  lemma EvictHoldersAt(w: World, v: UserId, id: SessionId, u: UserId)
    ensures Holders(OrphanUser(w.handlers, w.sessions, v), id, u)
         == if Ejected(w, v, id, u) then {} else Holders(w.handlers, id, u)
  {
  }

  lemma EvictCountAt(w: World, v: UserId, reason: EvictReason, id: SessionId, u: UserId)
    ensures CountOf(Next(w, EvictAll(v, reason)).sessions, id, u)
         == if Ejected(w, v, id, u) then 0 else CountOf(w.sessions, id, u)
  {
    hide OrphanUser;
  }

  lemma EvictCounts(w: World, v: UserId, reason: EvictReason)
    requires CountsMatch(w)
    ensures CountsMatch(Next(w, EvictAll(v, reason)))
  {
    hide OrphanUser, EvictEverywhere, Ejected, Holders, CountOf;
    var after := Next(w, EvictAll(v, reason));
    forall id: SessionId, u: UserId ensures |Holders(after.handlers, id, u)| == CountOf(after.sessions, id, u) {
      assert |Holders(w.handlers, id, u)| == CountOf(w.sessions, id, u);
      EvictHoldersAt(w, v, id, u);
      EvictCountAt(w, v, reason, id, u);
    }
  }

  /** Steps that touch neither counts nor handlers. */
  predicate Quiet(step: Step) {
    step.Tick? || step.ReserveSlot? || step.ReleaseSlot? || step.SweepPending?
    || step.Spawn? || step.Scan? || step.InSession?
  }

  lemma QuietCountAt(w: World, step: Step, id: SessionId, u: UserId)
    requires Quiet(step)
    ensures Next(w, step).handlers == w.handlers
    ensures CountOf(Next(w, step).sessions, id, u) == CountOf(w.sessions, id, u)
  {
  }

  lemma QuietCounts(w: World, step: Step)
    requires CountsMatch(w) && Quiet(step)
    ensures CountsMatch(Next(w, step))
  {
    forall id: SessionId, u: UserId
      ensures |Holders(Next(w, step).handlers, id, u)| == CountOf(Next(w, step).sessions, id, u)
    {
      hide Next;
      assert |Holders(w.handlers, id, u)| == CountOf(w.sessions, id, u);
      QuietCountAt(w, step, id, u);
    }
  }

  lemma AttachCounts(w: World, step: Step)
    requires CountsMatch(w) && step.Attach?
    ensures CountsMatch(Next(w, step))
  {
    var after := Next(w, step);
    if after != w {
      forall i: SessionId, v: UserId ensures |Holders(after.handlers, i, v)| == CountOf(w.sessions, i, v) {
        OneHandler(w.handlers, step.h, after.handlers[step.h], i, v);
        assert |Holders(w.handlers, i, v)| == CountOf(w.sessions, i, v);
      }
    }
  }

  lemma NextCounts(w: World, step: Step)
    requires CountsMatch(w) && !StrayExit(w, step)
    ensures CountsMatch(Next(w, step))
  {
    match step
    case Attach(_, _, _) => AttachCounts(w, step);
    case Register(h, name, role) => if InHandler(w, h, Subscribed) { RegisterCounts(w, h, name, role); }
    case BailOut(h) => if Running(w, h) { SameStatusCounts(w, h, Next(w, step).handlers[h]); }
    case SeeEviction(h) =>
      if Running(w, h) && w.handlers[h].evictSent {
        SameStatusCounts(w, h, Next(w, step).handlers[h]);
      }
    case Exit(h) => if Running(w, h) { ExitCountsIff(w, h); }
    case EvictAll(v, reason) => EvictCounts(w, v, reason);
    case Drop(id) => DropCounts(w, id);
    case Reap(id, _) => DropCounts(w, id);
    case _ => QuietCounts(w, step);
  }

  ghost predicate NoStrayExits(steps: seq<Step>) {
    forall i {:trigger steps[i]} :: 0 <= i < |steps| ==> !StrayExit(Run(Start, steps[..i]), steps[i])
  }

  /** In every run without a stray exit, a user's connection count in a session is
      the number of its handlers that hold one: running and registered, or leaked. */
  lemma {:induction false} RunCounts(steps: seq<Step>)
    requires NoStrayExits(steps)
    ensures CountsMatch(Run(Start, steps))
  {
    if steps == [] {
      forall id: SessionId, u: UserId ensures |Holders(Start.handlers, id, u)| == CountOf(Start.sessions, id, u) {
        assert Holders(Start.handlers, id, u) == {};
      }
    } else {
      var front := steps[..|steps| - 1];
      forall i | 0 <= i < |front| ensures !StrayExit(Run(Start, front[..i]), front[i]) {
        assert front[..i] == steps[..i] && front[i] == steps[i];
      }
      RunCounts(front);
      assert !StrayExit(Run(Start, steps[..|steps| - 1]), steps[|steps| - 1]);
      NextCounts(Run(Start, front), steps[|steps| - 1]);
    }
  }

  // ---- what a leaked count does, and when the plain equation holds ----

  function RunningHolders(hs: Handlers, id: SessionId, u: UserId): set<nat> {
    set h | h in Holders(hs, id, u) && hs[h].status.Counted?
  }

  /** The count is the number of running registered handlers exactly when no
      handler of that user and session left without giving its count back. */
  lemma CountIsRunningIff(w: World, id: SessionId, u: UserId)
    requires CountsMatch(w)
    ensures CountOf(w.sessions, id, u) == |RunningHolders(w.handlers, id, u)|
       <==> forall h :: h in Holders(w.handlers, id, u) ==> w.handlers[h].status != Leaked
  {
    var all, running := Holders(w.handlers, id, u), RunningHolders(w.handlers, id, u);
    assert |all| == CountOf(w.sessions, id, u);
    if h :| h in all && w.handlers[h].status == Leaked {
      SubsetSize(running, all, h);
    } else {
      assert running == all;
    }
  }

  lemma SubsetSize(a: set<nat>, b: set<nat>, x: nat)
    requires a <= b && x in b && x !in a
    ensures |a| < |b|
  {
    assert b == a + (b - a);
    assert x in b - a;
  }

  lemma LeakedMeansConnected(w: World, h: nat)
    requires Valid(w.sessions) && CountsMatch(w) && InHandler(w, h, Leaked)
    ensures IsLive(w.sessions, w.handlers[h].session)
    ensures w.sessions[w.handlers[h].session].live.idleSince == None
  {
    var id, u := w.handlers[h].session, w.handlers[h].user;
    assert h in Holders(w.handlers, id, u);
    assert |Holders(w.handlers, id, u)| == CountOf(w.sessions, id, u);
    assert Holders(w.handlers, id, u) != {};
    assert u in w.sessions[id].live.connections;
  }

  /** One leaked count keeps the session live with its idle clock stopped, so no
      reaper ever collects it, until the user is evicted or the entry is dropped. */
  lemma {:induction false} LeakPinsSession(w: World, h: nat, more: seq<Step>)
    requires Valid(w.sessions) && CountsMatch(w) && InHandler(w, h, Leaked)
    requires forall i {:trigger more[i]} :: 0 <= i < |more| ==>
               && !StrayExit(Run(w, more[..i]), more[i])
               && more[i] != Drop(w.handlers[h].session)
               && !(more[i].EvictAll? && more[i].user == w.handlers[h].user)
    ensures var v := Run(w, more);
            && Valid(v.sessions) && CountsMatch(v)
            && h in v.handlers && v.handlers[h] == w.handlers[h]
            && IsLive(v.sessions, w.handlers[h].session)
            && v.sessions[w.handlers[h].session].live.idleSince == None
  {
    if more == [] {
      LeakedMeansConnected(w, h);
    } else {
      var front, last := more[..|more| - 1], more[|more| - 1];
      forall i {:trigger front[i]} | 0 <= i < |front|
        ensures && !StrayExit(Run(w, front[..i]), front[i])
                && front[i] != Drop(w.handlers[h].session)
                && !(front[i].EvictAll? && front[i].user == w.handlers[h].user)
      {
        assert front[..i] == more[..i] && front[i] == more[i];
      }
      LeakPinsSession(w, h, front);
      var v := Run(w, front);
      assert !StrayExit(v, last);
      NextKeepsValid(v, last);
      NextCounts(v, last);
      LeakedStays(v, h, last);
      LeakedMeansConnected(Next(v, last), h);
    }
  }

  lemma LeakedStays(v: World, h: nat, step: Step)
    requires InHandler(v, h, Leaked) && IsLive(v.sessions, v.handlers[h].session)
    requires v.sessions[v.handlers[h].session].live.idleSince == None
    requires step != Drop(v.handlers[h].session)
    requires !(step.EvictAll? && step.user == v.handlers[h].user)
    ensures h in Next(v, step).handlers && Next(v, step).handlers[h] == v.handlers[h]
  {
  }

  lemma RunSnoc(w: World, steps: seq<Step>, step: Step)
    ensures Run(w, steps + [step]) == Next(Run(w, steps), step)
  {
    assert (steps + [step])[..|steps|] == steps;
  }

  lemma RunFour(w: World, before: seq<Step>, a: Step, b: Step, c: Step, d: Step)
    ensures Run(w, before + [a, b, c, d]) == Next(Next(Next(Next(Run(w, before), a), b), c), d)
  {
    assert before + [a, b, c, d] == before + [a] + [b] + [c] + [d];
    RunSnoc(w, before, a);
    RunSnoc(w, before + [a], b);
    RunSnoc(w, before + [a] + [b], c);
    RunSnoc(w, before + [a] + [b] + [c], d);
  }

  /** Session "s" is live with these connections, and these are all handlers. */
  predicate Scene(w: World, connections: map<UserId, nat>, hs: Handlers) {
    IsLive(w.sessions, "s") && w.sessions["s"].live.connections == connections && w.handlers == hs
  }

  lemma SceneAttach(w: World, h: nat, connections: map<UserId, nat>, hs: Handlers)
    requires Scene(w, connections, hs) && h !in hs
    ensures Scene(Next(w, Attach(h, "s", 7)), connections, hs[h := Handler("s", 7, Subscribed, false, false, true)])
  {
  }

  lemma SceneRegister(w: World, h: nat, hs: Handlers)
    requires Scene(w, map[], hs) && h in hs && hs[h].status == Subscribed && hs[h].session == "s" && hs[h].user == 7
    ensures Scene(Next(w, Register(h, "ann", Operator)), map[7 := 1], hs[h := hs[h].(status := Counted)])
  {
  }

  lemma SceneEvict(w: World, reason: EvictReason, hs: Handlers)
    requires Scene(w, map[7 := 1], hs)
    requires forall h :: h in hs ==> hs[h].session == "s" && hs[h].user == 7 && hs[h].hearing
    ensures Scene(Next(w, EvictAll(7, reason)), map[], map h | h in hs :: Orphan(hs[h]).(evictSent := true))
  {
  }

  lemma SceneStrayExit(w: World, h: nat, hs: Handlers)
    requires Scene(w, map[7 := 1], hs) && h in hs && hs[h] == Handler("s", 7, Uncounted, true, false, true)
    ensures Scene(Next(w, Exit(h)), map[], hs[h := hs[h].(status := Gone)])
  {
    assert map[7 := 1 as nat] - {7} == map[];
  }

  lemma SceneSkippedExit(w: World, h: nat, hs: Handlers)
    requires Scene(w, map[7 := 1], hs) && h in hs && hs[h] == Handler("s", 7, Counted, true, false, true)
    ensures Scene(Next(Next(w, SeeEviction(h)), Exit(h)), map[7 := 1],
                  hs[h := Handler("s", 7, Leaked, true, true, true)])
  {
  }

  /** One session with one registered tab, as the scenarios below start. */
  function OneTab(): World {
    Next(Next(Next(Start, Spawn("s", "t")), Attach(0, "s", 7)), Register(0, "ann", Operator))
  }

  const Tab0 := Handler("s", 7, Counted, false, false, true)

  lemma OneTabScene()
    ensures Scene(OneTab(), map[7 := 1], map[0 := Tab0])
  {
    var w := Next(Start, Spawn("s", "t"));
    assert Scene(w, map[], map[]);
    SceneAttach(w, 0, map[], map[]);
    SceneRegister(Next(w, Attach(0, "s", 7)), 0, map[0 := Handler("s", 7, Subscribed, false, false, true)]);
  }

  lemma FromOneTab(a: Step)
    ensures Run(Start, [Spawn("s", "t"), Attach(0, "s", 7), Register(0, "ann", Operator), a]) == Next(OneTab(), a)
  {
    assert [] + [Spawn("s", "t"), Attach(0, "s", 7), Register(0, "ann", Operator), a]
        == [Spawn("s", "t"), Attach(0, "s", 7), Register(0, "ann", Operator), a];
    RunFour(Start, [], Spawn("s", "t"), Attach(0, "s", 7), Register(0, "ann", Operator), a);
  }

  /** A client that goes away during the scrollback replay leaks its count: its
      handler is gone, and an hour later the session still cannot be reaped. */
  lemma ReplayBailLeaks() returns (w: World)
    ensures w == Run(Start, [Spawn("s", "t"), Attach(0, "s", 7), Register(0, "ann", Operator), BailOut(0)])
    ensures RunningHolders(w.handlers, "s", 7) == {} && CountOf(w.sessions, "s", 7) == 1
    ensures var later := Next(w, Tick(3600)); !Due(later.sessions, "s", later.now, 120)
  {
    FromOneTab(BailOut(0));
    OneTabScene();
    w := Next(OneTab(), BailOut(0));
    assert Scene(w, map[7 := 1], map[0 := Tab0.(status := Leaked)]);
  }

  /** An evicted handler that exits before it saw its eviction takes away the
      connection of the tab the user reopened meanwhile. */
  lemma StrayExitDropsReconnect(reason: EvictReason) returns (w: World)
    ensures var first := [Spawn("s", "t"), Attach(0, "s", 7), Register(0, "ann", Operator), EvictAll(7, reason)];
            w == Run(Start, first + [Attach(1, "s", 7), Register(1, "ann", Operator), Exit(0), Tick(0)])
    ensures InHandler(w, 1, Counted) && CountOf(w.sessions, "s", 7) == 0
    ensures IsLive(w.sessions, "s") && w.sessions["s"].live.connections == map[]
  {
    var first := [Spawn("s", "t"), Attach(0, "s", 7), Register(0, "ann", Operator), EvictAll(7, reason)];
    FromOneTab(EvictAll(7, reason));
    RunFour(Start, first, Attach(1, "s", 7), Register(1, "ann", Operator), Exit(0), Tick(0));
    OneTabScene();
    SceneEvict(OneTab(), reason, map[0 := Tab0]);
    assert Run(Start, first).handlers == map[0 := Handler("s", 7, Uncounted, true, false, true)];
    w := StrayAfterEviction(Run(Start, first));
  }

  lemma StrayAfterEviction(v: World) returns (w: World)
    requires Scene(v, map[], map[0 := Handler("s", 7, Uncounted, true, false, true)])
    ensures w == Next(Next(Next(Next(v, Attach(1, "s", 7)), Register(1, "ann", Operator)), Exit(0)), Tick(0))
    ensures InHandler(w, 1, Counted) && CountOf(w.sessions, "s", 7) == 0
    ensures IsLive(w.sessions, "s") && w.sessions["s"].live.connections == map[]
  {
    var hs := map[0 := Handler("s", 7, Uncounted, true, false, true)];
    SceneAttach(v, 1, map[], hs);
    var v1 := Next(v, Attach(1, "s", 7));
    hs := hs[1 := Handler("s", 7, Subscribed, false, false, true)];
    SceneRegister(v1, 1, hs);
    var v2 := Next(v1, Register(1, "ann", Operator));
    hs := hs[1 := Tab0];
    SceneStrayExit(v2, 0, hs);
    w := Next(Next(v2, Exit(0)), Tick(0));
  }

  /** A second tab that subscribed before an eviction and registered after it
      reads the stale eviction notice, skips its bookkeeping and leaks its count. */
  lemma StaleEvictionLeaks(reason: EvictReason) returns (w: World)
    ensures var first := [Spawn("s", "t"), Attach(0, "s", 7), Register(0, "ann", Operator), Attach(1, "s", 7)];
            w == Run(Start, first + [EvictAll(7, reason), Register(1, "ann", Operator), SeeEviction(1), Exit(1)])
    ensures RunningHolders(w.handlers, "s", 7) == {} && CountOf(w.sessions, "s", 7) == 1
  {
    var first := [Spawn("s", "t"), Attach(0, "s", 7), Register(0, "ann", Operator), Attach(1, "s", 7)];
    FromOneTab(Attach(1, "s", 7));
    RunFour(Start, first, EvictAll(7, reason), Register(1, "ann", Operator), SeeEviction(1), Exit(1));
    OneTabScene();
    SceneAttach(OneTab(), 1, map[7 := 1], map[0 := Tab0]);
    w := LeakAfterStaleEviction(Run(Start, first), reason);
  }

  lemma LeakAfterStaleEviction(v: World, reason: EvictReason) returns (w: World)
    requires Scene(v, map[7 := 1], map[0 := Tab0, 1 := Handler("s", 7, Subscribed, false, false, true)])
    ensures w == Next(Next(Next(Next(v, EvictAll(7, reason)), Register(1, "ann", Operator)), SeeEviction(1)), Exit(1))
    ensures RunningHolders(w.handlers, "s", 7) == {} && CountOf(w.sessions, "s", 7) == 1
  {
    SceneEvict(v, reason, v.handlers);
    var v1 := Next(v, EvictAll(7, reason));
    var hs := map[0 := Handler("s", 7, Uncounted, true, false, true),
                  1 := Handler("s", 7, Subscribed, true, false, true)];
    assert v1.handlers == hs;
    SceneRegister(v1, 1, hs);
    var v2 := Next(v1, Register(1, "ann", Operator));
    hs := hs[1 := Handler("s", 7, Counted, true, false, true)];
    SceneSkippedExit(v2, 1, hs);
    w := Next(Next(v2, SeeEviction(1)), Exit(1));
  }
}
