/** The gateway's session map: pending reservations and live sessions with their
    participants, connection counts, idle clock, chat backlog and broadcasts. */
module SessionHub {
  import opened Protocol
  import opened Presence

  type Instant = nat

  const COLORS: seq<string> :=
    ["#58a6ff", "#3fb950", "#d29922", "#f85149", "#bc8cff", "#39c5cf", "#ffa198", "#56d364"]

  const CHAT_HISTORY_CAP := 50

  function AssignColor(index: nat): string { COLORS[index % |COLORS|] }

  /** Time since `earlier`, zero if the clock has not reached it. */
  function Elapsed(now: Instant, earlier: Instant): nat {
    if now < earlier then 0 else now - earlier
  }

  /** Events offered to the recording slot by the hub. */
  datatype Tap =
    | TapJoin(user: UserId, name: string, role: Role)
    | TapLeave(user: UserId)
    | TapChat(entry: ChatEntry)

  /** `collab` is everything sent so far on the collaboration channel. While a recording
      slot is installed, `recordingFrom` is the position in it at which that happened, and
      `taps` is what the slot has been offered since. */
  datatype LiveSession = LiveSession(
    targetName: string,
    participants: Participants,
    connections: map<UserId, nat>,
    idleSince: Option<Instant>,
    colorCounter: nat,
    chatHistory: seq<ChatEntry>,
    collab: seq<CollabMessage>,
    recordingFrom: Option<nat>,
    taps: seq<Tap>)

  datatype SessionEntry =
    | Live(live: LiveSession)
    | Pending(target: string, reservedAt: Instant)

  type Sessions = map<SessionId, SessionEntry>

  function TargetOf(e: SessionEntry): string {
    match e
    case Live(live) => live.targetName
    case Pending(target, _) => target
  }

  function NewLive(target: string, now: Instant): LiveSession {
    LiveSession(target, map[], map[], Some(now), 0, [], [], None, [])
  }

  // ---- what each operation does to one live session ----

  function Connections(live: LiveSession, u: UserId): nat {
    if u in live.connections then live.connections[u] else 0
  }

  /** A tap reaches the slot if one is installed. */
  function Tapped(live: LiveSession, t: Tap): seq<Tap> {
    if live.recordingFrom.Some? then live.taps + [t] else live.taps
  }

  function AddConnection(live: LiveSession, u: UserId, name: string, role: Role): LiveSession {
    var counted := live.(idleSince := None, connections := live.connections[u := Connections(live, u) + 1]);
    if Connections(live, u) > 0 then counted
    else
      var info := ParticipantInfo(name, role, AssignColor(live.colorCounter));
      counted.(participants := live.participants[u := info],
               colorCounter := live.colorCounter + 1,
               collab := live.collab + [PeerJoined(u, info)],
               taps := Tapped(live, TapJoin(u, name, role)))
  }

  function IdleClock(live: LiveSession, now: Instant): LiveSession {
    if live.connections == map[] then live.(idleSince := Some(now)) else live
  }

  function RemoveConnection(live: LiveSession, u: UserId, now: Instant): LiveSession {
    if u !in live.connections then live
    else if live.connections[u] > 1 then
      live.(connections := live.connections[u := live.connections[u] - 1])
    else
      var gone := live.(connections := live.connections - {u});
      IdleClock(if u !in live.participants then gone else
        gone.(participants := live.participants - {u},
              collab := live.collab + [PeerLeft(u)],
              taps := Tapped(live, TapLeave(u))), now)
  }

  function Evict(live: LiveSession, u: UserId, reason: EvictReason, now: Instant): LiveSession {
    if u !in live.connections then live
    else IdleClock(live.(connections := live.connections - {u},
                         participants := live.participants - {u},
                         collab := live.collab + [PeerEvicted(u, reason)]), now)
  }

  function ChangeRole(live: LiveSession, u: UserId, role: Role): LiveSession {
    if u !in live.participants || live.participants[u].role == role then live
    else live.(participants := live.participants[u := live.participants[u].(role := role)],
               collab := live.collab + [PeerRoleChanged(u, role)])
  }

  function RecordChat(live: LiveSession, entry: ChatEntry): LiveSession {
    live.(chatHistory := LastEntries(live.chatHistory + [entry]),
          collab := live.collab + [PeerChat(entry)],
          taps := Tapped(live, TapChat(entry)))
  }

  function LastEntries(h: seq<ChatEntry>): seq<ChatEntry> {
    if |h| <= CHAT_HISTORY_CAP then h else h[|h| - CHAT_HISTORY_CAP..]
  }

  function Notify(live: LiveSession, notice: RecordingNotice): LiveSession {
    live.(collab := live.collab + [Recording(notice)])
  }

  function BeginRecording(live: LiveSession): LiveSession {
    if live.recordingFrom.Some? then live else live.(recordingFrom := Some(|live.collab|), taps := [])
  }

  function EndRecording(live: LiveSession): LiveSession {
    live.(recordingFrom := None)
  }

  // ---- the invariant of a live session ----

  function Chats(log: seq<CollabMessage>): seq<ChatEntry> {
    if log == [] then []
    else
      var before := Chats(log[..|log| - 1]);
      match log[|log| - 1]
      case PeerChat(entry) => before + [entry]
      case _ => before
  }

  /** What was broadcast of each user that joined, in order. */
  function Joins(log: seq<CollabMessage>): seq<ParticipantInfo> {
    if log == [] then []
    else
      var before := Joins(log[..|log| - 1]);
      match log[|log| - 1]
      case PeerJoined(_, info) => before + [info]
      case _ => before
  }

  /** The palette is dealt out in turn, one colour to each join. */
  predicate ColorsInTurn(infos: seq<ParticipantInfo>)
    decreases |infos|
  {
    infos == [] ||
    (infos[|infos| - 1].color == COLORS[(|infos| - 1) % |COLORS|] && ColorsInTurn(infos[..|infos| - 1]))
  }

  /** Users whose last join or departure in `log` was an eviction. */
  predicate EvictedLast(u: UserId, log: seq<CollabMessage>) {
    log != [] &&
    match log[|log| - 1]
    case PeerEvicted(v, _) => v == u || EvictedLast(u, log[..|log| - 1])
    case PeerJoined(v, _) => v != u && EvictedLast(u, log[..|log| - 1])
    case PeerLeft(v) => v != u && EvictedLast(u, log[..|log| - 1])
    case _ => EvictedLast(u, log[..|log| - 1])
  }

  /** The users a reader of the recording believes to be present. */
  function RecordedPresent(taps: seq<Tap>): set<UserId> {
    if taps == [] then {}
    else
      var before := RecordedPresent(taps[..|taps| - 1]);
      match taps[|taps| - 1]
      case TapJoin(u, _, _) => before + {u}
      case TapLeave(u) => before - {u}
      case TapChat(_) => before
  }

  predicate JoinedIn(u: UserId, log: seq<CollabMessage>) {
    log != [] && ((log[|log| - 1].PeerJoined? && log[|log| - 1].user == u) || JoinedIn(u, log[..|log| - 1]))
  }

  /** A running recording shows those who joined since it began and are present or were
      evicted. */
  ghost predicate RecorderOk(live: LiveSession) {
    live.recordingFrom.Some? ==>
      && live.recordingFrom.value <= |live.collab|
      && var since := live.collab[live.recordingFrom.value..];
         forall u :: u in RecordedPresent(live.taps)
                <==> JoinedIn(u, since) && (u in live.participants || EvictedLast(u, since))
  }

  ghost predicate WellFormed(live: LiveSession) {
    && live.participants.Keys == live.connections.Keys
    && (forall u :: u in live.connections ==> live.connections[u] > 0)
    && (live.idleSince.None? <==> live.connections != map[])
    && live.participants == Replay(map[], live.collab)
    && Present(live.collab) == Some(live.participants.Keys)
    && live.chatHistory == LastEntries(Chats(live.collab))
    && |Joins(live.collab)| == live.colorCounter && ColorsInTurn(Joins(live.collab))
    && RecorderOk(live)
  }

  /** How one more broadcast and at most one more tap move the folds. */
  lemma FoldsStep(log: seq<CollabMessage>, m: CollabMessage)
    ensures Replay(map[], log + [m]) == Apply(Replay(map[], log), m)
    ensures (log + [m])[..|log|] == log && (log + [m])[|log|] == m
  {
    ReplayConcat(map[], log, [m]);
    assert Replay(Replay(map[], log), [m]) == Apply(Replay(map[], log), m);
  }

  /** What a broadcast offers to the slot. */
  function TapsAfter(live: LiveSession, m: CollabMessage): seq<Tap> {
    match m
    case PeerJoined(u, info) => Tapped(live, TapJoin(u, info.name, info.role))
    case PeerLeft(u) => Tapped(live, TapLeave(u))
    case PeerChat(entry) => Tapped(live, TapChat(entry))
    case _ => live.taps
  }

  predicate Legal(p: Participants, m: CollabMessage) {
    match m
    case PeerJoined(u, _) => u !in p
    case PeerLeft(u) => u in p
    case PeerEvicted(u, _) => u in p
    case _ => true
  }

  lemma RecorderStep(live: LiveSession, after: LiveSession, m: CollabMessage)
    requires RecorderOk(live) && Legal(live.participants, m)
    requires after.collab == live.collab + [m] && after.recordingFrom == live.recordingFrom
    requires after.taps == TapsAfter(live, m) && after.participants == Apply(live.participants, m)
    ensures RecorderOk(after)
  {
    if live.recordingFrom.Some? {
      var p := live.recordingFrom.value;
      var since := live.collab[p..];
      assert after.collab[p..] == since + [m] && (since + [m])[..|since|] == since;
      assert after.taps != live.taps ==> after.taps[..|live.taps|] == live.taps;
    }
  }

  lemma SameRecorder(live: LiveSession, after: LiveSession)
    requires RecorderOk(live) && after.participants.Keys == live.participants.Keys
    requires after.collab == live.collab && after.recordingFrom == live.recordingFrom && after.taps == live.taps
    ensures RecorderOk(after)
  {
    assert forall u :: u in after.participants.Keys <==> u in live.participants.Keys;
  }

  lemma NewLiveWellFormed(target: string, now: Instant)
    ensures WellFormed(NewLive(target, now))
  {
    assert NewLive(target, now).participants.Keys == {};
  }

  lemma NextColor(infos: seq<ParticipantInfo>, info: ParticipantInfo)
    requires ColorsInTurn(infos) && info.color == AssignColor(|infos|)
    ensures ColorsInTurn(infos + [info])
  {
    assert (infos + [info])[..|infos|] == infos;
  }

  lemma AddKeepsWellFormed(live: LiveSession, u: UserId, name: string, role: Role)
    requires WellFormed(live)
    ensures WellFormed(AddConnection(live, u, name, role))
  {
    hide RecorderOk;
    var after := AddConnection(live, u, name, role);
    assert u in after.connections;
    if Connections(live, u) > 0 {
      SameRecorder(live, after);
    } else {
      assert after.participants.Keys == live.participants.Keys + {u};
      FoldsStep(live.collab, after.collab[|live.collab|]);
      RecorderStep(live, after, after.collab[|live.collab|]);
      NextColor(Joins(live.collab), ParticipantInfo(name, role, AssignColor(live.colorCounter)));
    }
  }

  lemma RemoveKeepsWellFormed(live: LiveSession, u: UserId, now: Instant)
    requires WellFormed(live)
    ensures WellFormed(RemoveConnection(live, u, now))
  {
    hide RecorderOk;
    if u in live.connections {
      assert u in live.participants.Keys;
      var after := RemoveConnection(live, u, now);
      if live.connections[u] > 1 {
        SameRecorder(live, after);
        assert u in after.connections;
      } else {
        FoldsStep(live.collab, PeerLeft(u));
        RecorderStep(live, after, PeerLeft(u));
      }
    }
  }

  lemma EvictKeepsWellFormed(live: LiveSession, u: UserId, reason: EvictReason, now: Instant)
    requires WellFormed(live)
    ensures WellFormed(Evict(live, u, reason, now))
  {
    hide RecorderOk;
    FoldsStep(live.collab, PeerEvicted(u, reason));
    if u in live.connections {
      assert u in live.participants.Keys;
      RecorderStep(live, Evict(live, u, reason, now), PeerEvicted(u, reason));
    }
  }

  lemma ChangeRoleKeepsWellFormed(live: LiveSession, u: UserId, role: Role)
    requires WellFormed(live)
    ensures WellFormed(ChangeRole(live, u, role))
  {
    hide RecorderOk;
    FoldsStep(live.collab, PeerRoleChanged(u, role));
    if u in live.participants && live.participants[u].role != role {
      RecorderStep(live, ChangeRole(live, u, role), PeerRoleChanged(u, role));
      assert ChangeRole(live, u, role).participants.Keys == live.participants.Keys;
    }
  }

  lemma ChatsStep(h: seq<ChatEntry>, chats: seq<ChatEntry>, entry: ChatEntry)
    requires h == LastEntries(chats)
    ensures LastEntries(h + [entry]) == LastEntries(chats + [entry])
  {
  }

  lemma RecordChatKeepsWellFormed(live: LiveSession, entry: ChatEntry)
    requires WellFormed(live)
    ensures WellFormed(RecordChat(live, entry))
  {
    hide RecorderOk, ColorsInTurn;
    FoldsStep(live.collab, PeerChat(entry));
    RecorderStep(live, RecordChat(live, entry), PeerChat(entry));
    ChatsStep(live.chatHistory, Chats(live.collab), entry);
    hide LastEntries;
  }

  lemma NotifyKeepsWellFormed(live: LiveSession, notice: RecordingNotice)
    requires WellFormed(live)
    ensures WellFormed(Notify(live, notice))
  {
    hide RecorderOk;
    FoldsStep(live.collab, Recording(notice));
    RecorderStep(live, Notify(live, notice), Recording(notice));
  }

  lemma BeginKeepsWellFormed(live: LiveSession)
    requires WellFormed(live)
    ensures WellFormed(BeginRecording(live))
  {
    assert live.collab[|live.collab|..] == [];
  }

  // ---- the map as a whole ----

  ghost predicate Valid(sessions: Sessions) {
    forall id :: id in sessions && sessions[id].Live? ==> WellFormed(sessions[id].live)
  }

  predicate ExpiredPending(e: SessionEntry, now: Instant, ttl: nat) {
    e.Pending? && Elapsed(now, e.reservedAt) >= ttl
  }

  function GcExpired(sessions: Sessions, now: Instant, ttl: nat): Sessions {
    map id | id in sessions && !ExpiredPending(sessions[id], now, ttl) :: sessions[id]
  }

  function Reserve(sessions: Sessions, id: SessionId, target: string, now: Instant): Sessions {
    if id in sessions then sessions else sessions[id := Pending(target, now)]
  }

  function Release(sessions: Sessions, id: SessionId): Sessions {
    if id in sessions && sessions[id].Pending? then sessions - {id} else sessions
  }

  function EvictEntry(e: SessionEntry, u: UserId, reason: EvictReason, now: Instant): SessionEntry {
    if e.Live? then Live(Evict(e.live, u, reason, now)) else e
  }

  function EvictEverywhere(sessions: Sessions, u: UserId, reason: EvictReason, now: Instant): Sessions {
    map id | id in sessions :: EvictEntry(sessions[id], u, reason, now)
  }

  lemma EvictEverywhereValid(sessions: Sessions, u: UserId, reason: EvictReason, now: Instant)
    requires Valid(sessions)
    ensures Valid(EvictEverywhere(sessions, u, reason, now))
  {
    forall id | id in sessions && sessions[id].Live?
      ensures WellFormed(Evict(sessions[id].live, u, reason, now))
    {
      EvictKeepsWellFormed(sessions[id].live, u, reason, now);
    }
  }

  predicate IsLive(sessions: Sessions, id: SessionId) {
    id in sessions && sessions[id].Live?
  }

  predicate Connected(e: SessionEntry, u: UserId) {
    e.Live? && u in e.live.connections
  }

  function Among(sessions: Sessions, ids: set<SessionId>, target: string): set<SessionId> {
    set id | id in ids && id in sessions && TargetOf(sessions[id]) == target
  }

  /** The sessions, live or reserved, that reference a target. */
  function SessionsOn(sessions: Sessions, target: string): set<SessionId> {
    Among(sessions, sessions.Keys, target)
  }

  /** Idle for at least the timeout at the given clock reading. */
  predicate Due(sessions: Sessions, id: SessionId, now: Instant, timeout: nat) {
    && IsLive(sessions, id)
    && sessions[id].live.idleSince.Some?
    && Elapsed(now, sessions[id].live.idleSince.value) >= timeout
  }

  predicate Reaped(sessions: Sessions, id: SessionId, candidates: seq<SessionId>, readings: seq<Instant>, timeout: nat)
    requires |readings| == |candidates|
  {
    exists i :: 0 <= i < |candidates| && candidates[i] == id && Due(sessions, id, readings[i], timeout)
  }

  lemma AmongRemove(sessions: Sessions, ids: set<SessionId>, id: SessionId)
    requires id in sessions && id in ids
    ensures forall t :: |Among(sessions, ids, t)|
                     == |Among(sessions, ids - {id}, t)| + (if TargetOf(sessions[id]) == t then 1 else 0)
  {
    forall t ensures |Among(sessions, ids, t)|
                  == |Among(sessions, ids - {id}, t)| + (if TargetOf(sessions[id]) == t then 1 else 0) {
      var rest := Among(sessions, ids - {id}, t);
      assert Among(sessions, ids, t) == if TargetOf(sessions[id]) == t then rest + {id} else rest;
    }
  }

  function ConnectedAmong(sessions: Sessions, ids: set<SessionId>, u: UserId): set<SessionId> {
    set id | id in ids && id in sessions && Connected(sessions[id], u)
  }

  lemma ConnectedRemove(sessions: Sessions, ids: set<SessionId>, id: SessionId, u: UserId)
    requires id in sessions && id in ids
    ensures |ConnectedAmong(sessions, ids, u)|
         == |ConnectedAmong(sessions, ids - {id}, u)| + (if Connected(sessions[id], u) then 1 else 0)
  {
    var rest := ConnectedAmong(sessions, ids - {id}, u);
    assert ConnectedAmong(sessions, ids, u) == if Connected(sessions[id], u) then rest + {id} else rest;
  }

  lemma LastEntriesPush(h: seq<ChatEntry>, entry: ChatEntry)
    requires |h| <= CHAT_HISTORY_CAP
    ensures LastEntries(h + [entry]) == (if |h| >= CHAT_HISTORY_CAP then h[1..] else h) + [entry]
  {
  }

  /** Ejects a user from one entry; `hit` says whether it had a connection there. */
  method EvictFrom(e: SessionEntry, u: UserId, reason: EvictReason, now: Instant)
    returns (after: SessionEntry, hit: bool)
    ensures after == EvictEntry(e, u, reason, now)
    ensures hit <==> Connected(e, u)
  {
    if e.Pending? || u !in e.live.connections {
      return e, false;
    }
    var live := e.live;
    live := live.(connections := live.connections - {u});
    live := live.(participants := live.participants - {u});
    live := live.(collab := live.collab + [PeerEvicted(u, reason)]);
    if live.connections == map[] {
      live := live.(idleSince := Some(now));
    }
    return Live(live), true;
  }

  /** All sessions but `id` are as before. */
  ghost predicate OthersSame(before: Sessions, after: Sessions, id: SessionId) {
    && after.Keys == before.Keys + {id}
    && forall other :: other in before && other != id ==> after[other] == before[other]
  }

  /** Everybody but `u` is listed and counted as before. */
  ghost predicate OtherUsersSame(before: LiveSession, after: LiveSession, u: UserId) {
    && after.participants - {u} == before.participants - {u}
    && after.connections - {u} == before.connections - {u}
  }

  /** One message was sent, and the installed slot, if any, was offered `tap`. */
  ghost predicate SentAndTapped(before: LiveSession, after: LiveSession, m: CollabMessage, tap: Tap) {
    && after.collab == before.collab + [m]
    && after.recordingFrom == before.recordingFrom
    && after.taps == before.taps + if before.recordingFrom.Some? then [tap] else []
  }

  ghost predicate Unheard(before: LiveSession, after: LiveSession) {
    after.collab == before.collab && after.taps == before.taps && after.recordingFrom == before.recordingFrom
  }

  ghost predicate SameBacklog(before: LiveSession, after: LiveSession) {
    after.chatHistory == before.chatHistory && after.targetName == before.targetName
  }

  /** The idle clock starts when the last connection goes and is left alone otherwise. */
  ghost predicate ClockStarts(before: LiveSession, after: LiveSession, now: Instant) {
    after.idleSince == if after.connections == map[] then Some(now) else before.idleSince
  }

  /** A connection was given back, by a user that had one. */
  ghost predicate GaveBack(before: LiveSession, after: LiveSession, u: UserId, now: Instant)
    requires u in before.connections
  {
    && OtherUsersSame(before, after, u) && SameBacklog(before, after)
    && (before.connections[u] > 1 ==>
         && u in after.connections && after.connections[u] == before.connections[u] - 1
         && after.participants == before.participants && Unheard(before, after)
         && after.idleSince == before.idleSince)
    && (before.connections[u] == 1 ==>
         && u !in after.connections && u !in after.participants
         && SentAndTapped(before, after, PeerLeft(u), TapLeave(u)) && ClockStarts(before, after, now))
  }

  lemma RemoveGivesBack(live: LiveSession, u: UserId, now: Instant)
    requires WellFormed(live)
    ensures u in live.connections ==> GaveBack(live, RemoveConnection(live, u, now), u, now)
    ensures u !in live.connections ==> RemoveConnection(live, u, now) == live
  {
    hide RecorderOk;
    assert u in live.connections ==> u in live.participants.Keys;
  }

  /** One more connection of `u`. The first one lists it under its name and role with the
      next colour, and tells everybody; a further one is only counted. */
  ghost predicate Registered(before: LiveSession, after: LiveSession, u: UserId, name: string, role: Role) {
    && OtherUsersSame(before, after, u) && SameBacklog(before, after)
    && after.idleSince == None
    && u in after.connections && after.connections[u] == Connections(before, u) + 1
    && (u !in before.connections ==>
         var info := ParticipantInfo(name, role, COLORS[before.colorCounter % 8]);
         && u in after.participants && after.participants[u] == info
         && SentAndTapped(before, after, PeerJoined(u, info), TapJoin(u, name, role)))
    && (u in before.connections ==> after.participants == before.participants && Unheard(before, after))
  }

  lemma AddRegisters(live: LiveSession, u: UserId, name: string, role: Role)
    requires WellFormed(live)
    ensures Registered(live, AddConnection(live, u, name, role), u, name, role)
  {
    hide RecorderOk;
  }

  /** A user with connections was ejected: told so, no longer listed, and not tapped. */
  ghost predicate WasEjected(before: LiveSession, after: LiveSession, u: UserId, reason: EvictReason, now: Instant) {
    && u !in after.connections && u !in after.participants && OtherUsersSame(before, after, u)
    && after.collab == before.collab + [PeerEvicted(u, reason)] && after.taps == before.taps
    && after.recordingFrom == before.recordingFrom && SameBacklog(before, after)
    && ClockStarts(before, after, now)
  }

  class Hub {
    var sessions: Sessions
    const pendingAttachTtl: nat

    ghost predicate Ok()
      reads this
    {
      Valid(sessions)
    }

    constructor (ttl: nat)
      ensures Ok() && sessions == map[] && pendingAttachTtl == ttl
    {
      sessions := map[];
      pendingAttachTtl := ttl;
    }

    /** Fast path of an attach: a live session is joined as it is. */
    method TryJoin(id: SessionId) returns (attached: Option<(seq<ChatEntry>, nat)>)
      requires Ok()
      ensures attached.Some? <==> IsLive(sessions, id)
      ensures attached.Some? ==>
                var live := sessions[id].live;
                attached.value == (LastEntries(Chats(live.collab)), |live.collab|)
    {
      if id in sessions && sessions[id].Live? {
        attached := Some((sessions[id].live.chatHistory, |sessions[id].live.collab|));
      } else {
        attached := None;
      }
    }

    /** Slow path, after the PTY was spawned without any lock: a session another
        task made live meanwhile is joined, a reservation is upgraded. */
    method InsertOrJoin(id: SessionId, target: string, now: Instant)
      returns (chatHistory: seq<ChatEntry>, position: nat)
      requires Ok()
      modifies this
      ensures Ok()
      ensures old(IsLive(sessions, id)) ==>
                sessions == old(sessions) && position == |sessions[id].live.collab|
      ensures !old(IsLive(sessions, id)) ==>
                sessions == old(sessions)[id := Live(NewLive(target, now))] && position == 0
      ensures !old(IsLive(sessions, id)) ==>
                && OthersSame(old(sessions), sessions, id)
                && var live := sessions[id].live;
                   && live.targetName == target && live.idleSince == Some(now)
                   && live.participants == map[] && live.connections == map[]
                   && live.collab == [] && live.chatHistory == [] && live.recordingFrom == None
      ensures chatHistory == LastEntries(Chats(sessions[id].live.collab))
    {
      if id in sessions && sessions[id].Live? {
        return sessions[id].live.chatHistory, |sessions[id].live.collab|;
      }
      NewLiveWellFormed(target, now);
      var live := LiveSession(target, map[], map[], Some(now), 0, [], [], None, []);
      sessions := sessions[id := Live(live)];
      return [], 0;
    }

    method AddParticipantAndSnapshot(id: SessionId, u: UserId, name: string, role: Role)
      returns (snapshot: Option<Participants>)
      requires Ok()
      modifies this
      ensures Ok()
      ensures snapshot.Some? <==> old(IsLive(sessions, id))
      ensures snapshot.None? ==> sessions == old(sessions)
      ensures snapshot.Some? ==>
                && sessions == old(sessions)[id := Live(AddConnection(old(sessions[id].live), u, name, role))]
                && snapshot.value == Replay(map[], sessions[id].live.collab)
                && u in snapshot.value
      ensures snapshot.Some? ==>
                && OthersSame(old(sessions), sessions, id) && snapshot.value == sessions[id].live.participants
                && Registered(old(sessions[id].live), sessions[id].live, u, name, role)
    {
      if id !in sessions || sessions[id].Pending? {
        return None;
      }
      var live := sessions[id].live;
      AddKeepsWellFormed(live, u, name, role);
      AddRegisters(live, u, name, role);
      hide Registered;
      ghost var before := live;
      live := live.(idleSince := None);
      var count := if u in live.connections then live.connections[u] else 0;
      count := count + 1;
      live := live.(connections := live.connections[u := count]);
      if count == 1 {
        var color := AssignColor(live.colorCounter);
        live := live.(colorCounter := live.colorCounter + 1);
        var info := ParticipantInfo(name, role, color);
        live := live.(participants := live.participants[u := info]);
        live := live.(collab := live.collab + [PeerJoined(u, info)]);
        live := live.(taps := Tapped(live, TapJoin(u, name, role)));
      }
      assert live == AddConnection(before, u, name, role);
      assert u in live.connections.Keys;
      sessions := sessions[id := Live(live)];
      return Some(live.participants);
    }

    method RemoveParticipant(id: SessionId, u: UserId, now: Instant) returns (last: bool)
      requires Ok()
      modifies this
      ensures Ok()
      ensures last <==> old(IsLive(sessions, id) && Connections(sessions[id].live, u) == 1)
      ensures sessions == if old(IsLive(sessions, id))
                          then old(sessions)[id := Live(RemoveConnection(old(sessions[id].live), u, now))]
                          else old(sessions)
      ensures old(IsLive(sessions, id) && u in sessions[id].live.connections) ==>
                && IsLive(sessions, id) && OthersSame(old(sessions), sessions, id)
                && GaveBack(old(sessions[id].live), sessions[id].live, u, now)
      ensures !old(IsLive(sessions, id) && u in sessions[id].live.connections) ==> sessions == old(sessions)
    {
      if id !in sessions || sessions[id].Pending? {
        return false;
      }
      var live := sessions[id].live;
      RemoveKeepsWellFormed(live, u, now);
      RemoveGivesBack(live, u, now);
      hide GaveBack;
      if u !in live.connections {
        assert sessions[id] == Live(live);
        return false;
      }
      assert live.connections[u] > 0;
      var count := live.connections[u];
      if count > 1 {
        live := live.(connections := live.connections[u := count - 1]);
        sessions := sessions[id := Live(live)];
        return false;
      }
      live := live.(connections := live.connections - {u});
      if u in live.participants {
        live := live.(participants := live.participants - {u});
        live := live.(collab := live.collab + [PeerLeft(u)]);
        live := live.(taps := Tapped(live, TapLeave(u)));
      }
      if live.connections == map[] {
        live := live.(idleSince := Some(now));
      }
      sessions := sessions[id := Live(live)];
      return true;
    }

    /** Ejects a user from every live session; the affected sessions are exactly
        those where the user had a connection. */
    method EvictUser(u: UserId, reason: EvictReason, now: Instant) returns (affected: nat)
      requires Ok()
      modifies this
      ensures Ok()
      ensures sessions == EvictEverywhere(old(sessions), u, reason, now)
      ensures affected == |ConnectedAmong(old(sessions), old(sessions).Keys, u)|
      ensures sessions.Keys == old(sessions).Keys
      ensures forall id :: id in sessions ==>
                if Connected(old(sessions)[id], u)
                then IsLive(sessions, id) && WasEjected(old(sessions)[id].live, sessions[id].live, u, reason, now)
                else sessions[id] == old(sessions)[id]
    {
      hide WellFormed;
      EvictEverywhereValid(sessions, u, reason, now);
      ghost var before := sessions;
      affected := 0;
      var todo := sessions.Keys;
      while todo != {}
        invariant todo <= before.Keys && sessions.Keys == before.Keys
        invariant forall id :: id in before ==>
                    sessions[id] == if id in todo then before[id] else EvictEntry(before[id], u, reason, now)
        invariant affected + |ConnectedAmong(before, todo, u)| == |ConnectedAmong(before, before.Keys, u)|
        decreases todo
      {
        var id :| id in todo;
        ConnectedRemove(before, todo, id, u);
        todo := todo - {id};
        var entry, hit := EvictFrom(sessions[id], u, reason, now);
        sessions := sessions[id := entry];
        if hit {
          affected := affected + 1;
        }
      }
      assert ConnectedAmong(before, {}, u) == {};
      assert sessions == EvictEverywhere(before, u, reason, now);
    }

    method UpdateParticipantRole(id: SessionId, u: UserId, role: Role) returns (changed: bool)
      requires Ok()
      modifies this
      ensures Ok()
      ensures changed <==> old(IsLive(sessions, id) && u in sessions[id].live.participants
                               && sessions[id].live.participants[u].role != role)
      ensures sessions == if old(IsLive(sessions, id))
                          then old(sessions)[id := Live(ChangeRole(old(sessions[id].live), u, role))]
                          else old(sessions)
      ensures !changed ==> sessions == old(sessions)
      ensures changed ==>
                && IsLive(sessions, id) && OthersSame(old(sessions), sessions, id)
                && var before, after := old(sessions[id].live), sessions[id].live;
                   && u in after.participants && after.participants[u].role == role
                   && after.participants[u].name == before.participants[u].name
                   && after.participants[u].color == before.participants[u].color
                   && after.connections == before.connections && OtherUsersSame(before, after, u)
                   && after.collab == before.collab + [PeerRoleChanged(u, role)]
                   && after.taps == before.taps && SameBacklog(before, after)
    {
      if id !in sessions || sessions[id].Pending? {
        return false;
      }
      var live := sessions[id].live;
      assert sessions[id] == Live(live);
      ChangeRoleKeepsWellFormed(live, u, role);
      if u !in live.participants {
        return false;
      }
      var info := live.participants[u];
      if info.role == role {
        return false;
      }
      live := live.(participants := live.participants[u := info.(role := role)]);
      live := live.(collab := live.collab + [PeerRoleChanged(u, role)]);
      sessions := sessions[id := Live(live)];
      return true;
    }

    method RecordChatEntry(id: SessionId, entry: ChatEntry)
      requires Ok()
      modifies this
      ensures Ok()
      ensures sessions == if old(IsLive(sessions, id))
                          then old(sessions)[id := Live(RecordChat(old(sessions[id].live), entry))]
                          else old(sessions)
      ensures old(IsLive(sessions, id)) ==>
                && IsLive(sessions, id) && OthersSame(old(sessions), sessions, id)
                && var before, after := old(sessions[id].live), sessions[id].live;
                   && SentAndTapped(before, after, PeerChat(entry), TapChat(entry))
                   && after.chatHistory != [] && after.chatHistory[|after.chatHistory| - 1] == entry
                   && after.participants == before.participants && after.connections == before.connections
                   && after.idleSince == before.idleSince
    {
      if id !in sessions || sessions[id].Pending? {
        return;
      }
      var live := sessions[id].live;
      RecordChatKeepsWellFormed(live, entry);
      LastEntriesPush(live.chatHistory, entry);
      var hist := live.chatHistory;
      if |hist| >= CHAT_HISTORY_CAP {
        hist := hist[1..];
      }
      hist := hist + [entry];
      live := live.(chatHistory := hist, collab := live.collab + [PeerChat(entry)]);
      live := live.(taps := Tapped(live, TapChat(entry)));
      sessions := sessions[id := Live(live)];
    }

    method BroadcastRecording(id: SessionId, notice: RecordingNotice)
      requires Ok()
      modifies this
      ensures Ok()
      ensures sessions == if old(IsLive(sessions, id))
                          then old(sessions)[id := Live(Notify(old(sessions[id].live), notice))]
                          else old(sessions)
      ensures old(IsLive(sessions, id)) ==>
                && IsLive(sessions, id) && OthersSame(old(sessions), sessions, id)
                && sessions[id].live == old(sessions[id].live).(
                     collab := old(sessions[id].live.collab) + [Recording(notice)])
    {
      if id in sessions && sessions[id].Live? {
        var live := sessions[id].live;
        NotifyKeepsWellFormed(live, notice);
        sessions := sessions[id := Live(live.(collab := live.collab + [Recording(notice)]))];
      }
    }

    /** Installs the recording slot, unless there is one. */
    method StartRecording(id: SessionId) returns (started: bool)
      requires Ok()
      modifies this
      ensures Ok()
      ensures started <==> old(IsLive(sessions, id) && sessions[id].live.recordingFrom.None?)
      ensures sessions == if started then old(sessions)[id := Live(BeginRecording(old(sessions[id].live)))]
                          else old(sessions)
      ensures started ==>
                && OthersSame(old(sessions), sessions, id)
                && sessions[id].live == old(sessions[id].live).(
                     recordingFrom := Some(|old(sessions[id].live.collab)|), taps := [])
    {
      if id !in sessions || sessions[id].Pending? || sessions[id].live.recordingFrom.Some? {
        return false;
      }
      var live := sessions[id].live;
      BeginKeepsWellFormed(live);
      sessions := sessions[id := Live(live.(recordingFrom := Some(|live.collab|), taps := []))];
      return true;
    }

    /** Takes the slot out, whoever asks for it. */
    method TakeRecording(id: SessionId) returns (taken: bool)
      requires Ok()
      modifies this
      ensures Ok()
      ensures taken <==> old(IsLive(sessions, id) && sessions[id].live.recordingFrom.Some?)
      ensures sessions == if taken then old(sessions)[id := Live(EndRecording(old(sessions[id].live)))]
                          else old(sessions)
      ensures taken ==>
                OthersSame(old(sessions), sessions, id)
                && sessions[id].live == old(sessions[id].live).(recordingFrom := None)
    {
      if id !in sessions || sessions[id].Pending? || sessions[id].live.recordingFrom.None? {
        return false;
      }
      sessions := sessions[id := Live(sessions[id].live.(recordingFrom := None))];
      return true;
    }

    /** Forced stop and the exit of the PTY loop both drop whatever entry the id has. */
    method StopSession(id: SessionId)
      requires Ok()
      modifies this
      ensures Ok() && sessions == old(sessions) - {id}
      ensures !IsLive(sessions, id)
      ensures forall t :: SessionsOn(sessions, t) == SessionsOn(old(sessions), t) - {id}
    {
      sessions := sessions - {id};
    }

    /** A fresh reservation is counted for its target until its time is up and no longer;
        an entry that exists already, reserved or live, is left as it is. */
    method ReserveTarget(id: SessionId, target: string, now: Instant)
      requires Ok()
      modifies this
      ensures Ok() && sessions == Reserve(old(sessions), id, target, now)
      ensures id in sessions && forall other :: other in old(sessions) ==>
                other in sessions && sessions[other] == old(sessions)[other]
      ensures id !in old(sessions) ==>
                && id in SessionsOn(sessions, target)
                && forall t :: id in GcExpired(sessions, t, pendingAttachTtl) <==> Elapsed(t, now) < pendingAttachTtl
    {
      if id !in sessions {
        sessions := sessions[id := Pending(target, now)];
      }
    }

    /** Only a reservation is dropped: a session that went live meanwhile stays, and no
        other entry is touched. */
    method ReleaseReservation(id: SessionId)
      requires Ok()
      modifies this
      ensures Ok() && sessions == Release(old(sessions), id)
      ensures id in sessions <==> old(IsLive(sessions, id))
      ensures forall other :: other in old(sessions) && (other != id || old(IsLive(sessions, id))) ==>
                other in sessions && sessions[other] == old(sessions)[other]
    {
      if id in sessions && sessions[id].Pending? {
        sessions := sessions - {id};
      }
    }

    /** Sessions per target after dropping the reservations that expired. */
    method CountLiveSessionsPerTarget(now: Instant) returns (counts: map<string, nat>)
      requires Ok()
      modifies this
      ensures Ok() && sessions == GcExpired(old(sessions), now, pendingAttachTtl)
      ensures forall t :: t in counts <==> SessionsOn(sessions, t) != {}
      ensures forall t :: t in counts ==> counts[t] == |SessionsOn(sessions, t)|
    {
      sessions := GcExpired(sessions, now, pendingAttachTtl);
      counts := map[];
      var todo := sessions.Keys;
      while todo != {}
        invariant todo <= sessions.Keys && sessions == GcExpired(old(sessions), now, pendingAttachTtl)
        invariant forall t :: (if t in counts then counts[t] else 0) + |Among(sessions, todo, t)|
                    == |SessionsOn(sessions, t)|
        invariant forall t :: t in counts ==> counts[t] > 0
        decreases todo
      {
        var id :| id in todo;
        AmongRemove(sessions, todo, id);
        todo := todo - {id};
        var target := TargetOf(sessions[id]);
        counts := counts[target := (if target in counts then counts[target] else 0) + 1];
      }
    }

    /** First phase of a reaper tick, under the read lock. */
    method ScanIdle(now: Instant, timeout: nat) returns (candidates: seq<SessionId>)
      ensures forall id :: id in candidates <==> Due(sessions, id, now, timeout)
    {
      candidates := [];
      var todo := sessions.Keys;
      while todo != {}
        invariant todo <= sessions.Keys
        invariant forall id :: id in candidates <==> id !in todo && Due(sessions, id, now, timeout)
        decreases todo
      {
        var id :| id in todo;
        todo := todo - {id};
        if sessions[id].Live? && sessions[id].live.idleSince.Some? &&
           Elapsed(now, sessions[id].live.idleSince.value) >= timeout {
          candidates := candidates + [id];
        }
      }
    }

    /** Second phase, under the write lock: expired reservations go, and each
        candidate is judged again with the clock read at that moment. */
    method ReapCandidates(candidates: seq<SessionId>, nowPending: Instant, readings: seq<Instant>, timeout: nat)
      returns (reaped: seq<SessionId>)
      requires Ok() && |readings| == |candidates|
      modifies this
      ensures Ok()
      ensures sessions == map id | id in old(sessions)
                                && !ExpiredPending(old(sessions)[id], nowPending, pendingAttachTtl)
                                && !Reaped(old(sessions), id, candidates, readings, timeout) :: old(sessions)[id]
      ensures forall id :: id in reaped <==> Reaped(old(sessions), id, candidates, readings, timeout)
    {
      hide WellFormed;
      ghost var before := sessions;
      sessions := GcExpired(sessions, nowPending, pendingAttachTtl);
      ghost var kept := sessions;
      reaped := [];
      for i := 0 to |candidates|
        invariant sessions == map id | id in kept
                                       && !Reaped(before, id, candidates[..i], readings[..i], timeout) :: kept[id]
        invariant forall id :: id in reaped <==> Reaped(before, id, candidates[..i], readings[..i], timeout)
      {
        var id := candidates[i];
        ReapedStep(before, candidates, readings, i, timeout);
        if id in sessions && sessions[id].Live? && sessions[id].live.idleSince.Some? {
          if Elapsed(readings[i], sessions[id].live.idleSince.value) >= timeout {
            sessions := sessions - {id};
            reaped := reaped + [id];
          }
        }
      }
      assert candidates[..|candidates|] == candidates && readings[..|readings|] == readings;
    }
  }

  lemma ReapedStep(sessions: Sessions, candidates: seq<SessionId>, readings: seq<Instant>, i: nat, timeout: nat)
    requires i < |candidates| == |readings|
    ensures forall id :: Reaped(sessions, id, candidates[..i + 1], readings[..i + 1], timeout)
                    <==> Reaped(sessions, id, candidates[..i], readings[..i], timeout)
                         || (id == candidates[i] && Due(sessions, id, readings[i], timeout))
  {
    var c, r := candidates[..i + 1], readings[..i + 1];
    var c0, r0 := candidates[..i], readings[..i];
    forall id ensures Reaped(sessions, id, c, r, timeout)
                 <==> Reaped(sessions, id, c0, r0, timeout)
                      || (id == candidates[i] && Due(sessions, id, readings[i], timeout))
    {
      if Reaped(sessions, id, c0, r0, timeout) {
        var k :| 0 <= k < |c0| && c0[k] == id && Due(sessions, id, r0[k], timeout);
        assert c[k] == id && Due(sessions, id, r[k], timeout);
      }
      if id == candidates[i] && Due(sessions, id, readings[i], timeout) {
        assert c[i] == id && Due(sessions, id, r[i], timeout);
      }
      if Reaped(sessions, id, c, r, timeout) {
        var k :| 0 <= k < |c| && c[k] == id && Due(sessions, id, r[k], timeout);
        if k < i {
          assert c0[k] == id && Due(sessions, id, r0[k], timeout);
        }
      }
    }
  }
}
