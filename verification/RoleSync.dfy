/** The server-side input gate of one connection: a role copy kept up to date
    from a lossy broadcast channel, re-fetched from the hub after a lag. */
module RoleSync {
  import opened Protocol
  import opened Broadcast

  const COLLAB_SLOTS := 64

  datatype DenyReason = VIEWER | SERIALIZED_NOT_OWNER

  function ComputeInputDenied(role: Role, mode: InputMode): Option<DenyReason> {
    var canForward := (role.Owner? || role.Operator?) && !(mode == Serialized && role != Owner);
    if canForward then None
    else if role == Viewer then Some(VIEWER)
    else Some(SERIALIZED_NOT_OWNER)
  }

  datatype Gate = Gate(role: Role, denied: Option<DenyReason>, noticeSent: bool)

  function NewRole(role: Role, mode: InputMode): Gate {
    Gate(role, ComputeInputDenied(role, mode), false)
  }

  function OnMessage(g: Gate, me: UserId, m: CollabMessage, mode: InputMode): Gate {
    if m.PeerRoleChanged? && m.user == me then NewRole(m.newRole, mode) else g
  }

  /** The re-fetch after a lag; None when the hub no longer lists the user. */
  function OnResync(g: Gate, fetched: Option<Role>, mode: InputMode): Gate {
    if fetched.Some? && fetched.value != g.role then NewRole(fetched.value, mode) else g
  }

  datatype Verdict = Forwarded | Noticed(reason: DenyReason) | Silent

  function OnBinary(g: Gate): (Gate, Verdict) {
    if g.denied.None? then (g, Forwarded)
    else if g.noticeSent then (g, Silent)
    else (g.(noticeSent := true), Noticed(g.denied.value))
  }

  // ---- the loop of one connection ----

  /** What the loop reacts to: a keystroke frame, a message on the role receiver, or the
      role fetched from the hub after a lag. */
  datatype Event = Typed | Heard(m: CollabMessage) | Resynced(fetched: Option<Role>)

  function Handle(g: Gate, me: UserId, mode: InputMode, e: Event): (Gate, seq<Verdict>) {
    match e
    case Typed => (OnBinary(g).0, [OnBinary(g).1])
    case Heard(m) => (OnMessage(g, me, m, mode), [])
    case Resynced(fetched) => (OnResync(g, fetched, mode), [])
  }

  function Served(g: Gate, me: UserId, mode: InputMode, events: seq<Event>): (Gate, seq<Verdict>)
    decreases |events|
  {
    if events == [] then (g, [])
    else
      var (g1, first) := Handle(g, me, mode, events[0]);
      var (g2, more) := Served(g1, me, mode, events[1..]);
      (g2, first + more)
  }

  class InputGate {
    const me: UserId
    const mode: InputMode
    var currentRole: Role
    var inputDeniedReason: Option<DenyReason>
    var denialNoticeSent: bool

    function View(): Gate
      reads this
    {
      Gate(currentRole, inputDeniedReason, denialNoticeSent)
    }

    constructor (me: UserId, mode: InputMode, role: Role)
      ensures View() == NewRole(role, mode) && this.me == me && this.mode == mode
    {
      this.me, this.mode := me, mode;
      currentRole, inputDeniedReason, denialNoticeSent := role, ComputeInputDenied(role, mode), false;
    }

    method SetRole(role: Role)
      modifies this
      ensures View() == NewRole(role, mode)
    {
      currentRole := role;
      inputDeniedReason := ComputeInputDenied(role, mode);
      denialNoticeSent := false;
    }

    method HandleEvent(e: Event) returns (verdicts: seq<Verdict>)
      modifies this
      ensures (View(), verdicts) == Handle(old(View()), me, mode, e)
    {
      verdicts := [];
      match e {
        case Typed =>
          if inputDeniedReason.None? {
            verdicts := [Forwarded];
          } else if !denialNoticeSent {
            denialNoticeSent := true;
            verdicts := [Noticed(inputDeniedReason.value)];
          } else {
            verdicts := [Silent];
          }
        case Heard(m) =>
          if m.PeerRoleChanged? && m.user == me {
            SetRole(m.newRole);
          }
        case Resynced(fetched) =>
          if fetched.Some? && fetched.value != currentRole {
            SetRole(fetched.value);
          }
      }
    }

    method Serve(events: seq<Event>) returns (verdicts: seq<Verdict>)
      modifies this
      ensures (View(), verdicts) == Served(old(View()), me, mode, events)
    {
      ghost var whole := Served(View(), me, mode, events);
      verdicts := [];
      var i := 0;
      assert events[0..] == events && verdicts + whole.1 == whole.1;
      while i < |events|
        invariant 0 <= i <= |events|
        invariant whole == (Served(View(), me, mode, events[i..]).0, verdicts + Served(View(), me, mode, events[i..]).1)
      {
        ghost var before := verdicts;
        assert events[i..][1..] == events[i + 1..];
        var more := HandleEvent(events[i]);
        verdicts := verdicts + more;
        Regroup(before, more, Served(View(), me, mode, events[i + 1..]).1);
        i := i + 1;
      }
      assert events[|events|..] == [] && verdicts + [] == verdicts;
    }
  }

  lemma Regroup(a: seq<Verdict>, b: seq<Verdict>, c: seq<Verdict>)
    ensures a + (b + c) == (a + b) + c
  {
  }

  predicate KeepsRole(role: Role, me: UserId, e: Event) {
    match e
    case Typed => true
    case Heard(m) => !AboutMe(me, m)
    case Resynced(fetched) => fetched.None? || fetched.value == role
  }

  /** Between two role changes all keystrokes get the same answer, except that of those
      denied exactly the first is answered with a notice. */
  lemma {:induction false} OneNoticePerRole(g: Gate, me: UserId, mode: InputMode, events: seq<Event>)
    requires forall i :: 0 <= i < |events| ==> KeepsRole(g.role, me, events[i])
    ensures var (after, verdicts) := Served(g, me, mode, events);
            && after.role == g.role && after.denied == g.denied
            && (forall i :: 0 <= i < |verdicts| ==>
                 verdicts[i] == if g.denied.None? then Forwarded
                                else if i == 0 && !g.noticeSent then Noticed(g.denied.value) else Silent)
    decreases |events|
  {
    if events != [] {
      OneNoticePerRole(Handle(g, me, mode, events[0]).0, me, mode, events[1..]);
    }
  }

  /** The answer to keystroke `i` since the role was last set. */
  function Answer(role: Role, mode: InputMode, i: nat): Verdict {
    if role == Owner || (role == Operator && mode == Multiplexed) then Forwarded
    else if i > 0 then Silent
    else Noticed(if role == Viewer then VIEWER else SERIALIZED_NOT_OWNER)
  }

  function Keystrokes(events: seq<Event>): nat {
    if events == [] then 0 else (if events[0].Typed? then 1 else 0) + Keystrokes(events[1..])
  }

  lemma {:induction false} EachIsAnswered(g: Gate, me: UserId, mode: InputMode, events: seq<Event>)
    ensures |Served(g, me, mode, events).1| == Keystrokes(events)
    decreases |events|
  {
    if events != [] {
      EachIsAnswered(Handle(g, me, mode, events[0]).0, me, mode, events[1..]);
    }
  }

  /** From joining on, until the role changes: input is forwarded if the role may type, and
      otherwise the first keystroke is answered with the reason and all others with nothing. */
  lemma AnswersSinceJoining(role: Role, me: UserId, mode: InputMode, events: seq<Event>)
    requires forall i :: 0 <= i < |events| ==> KeepsRole(role, me, events[i])
    ensures var verdicts := Served(NewRole(role, mode), me, mode, events).1;
            |verdicts| == Keystrokes(events) && forall i :: 0 <= i < |verdicts| ==> verdicts[i] == Answer(role, mode, i)
  {
    EachIsAnswered(NewRole(role, mode), me, mode, events);
    OneNoticePerRole(NewRole(role, mode), me, mode, events);
  }

  /** The event makes `role` the role of the connection. */
  predicate Sets(g: Gate, me: UserId, e: Event, role: Role) {
    match e
    case Typed => false
    case Heard(m) => m == PeerRoleChanged(me, role)
    case Resynced(fetched) => fetched == Some(role) && g.role != role
  }

  /** The same from any change of role on, whatever was denied and noticed before. */
  lemma AnswersSinceChange(g: Gate, me: UserId, mode: InputMode, e: Event, role: Role, events: seq<Event>)
    requires Sets(g, me, e, role) && forall i :: 0 <= i < |events| ==> KeepsRole(role, me, events[i])
    ensures var verdicts := Served(g, me, mode, [e] + events).1;
            |verdicts| == Keystrokes(events) && forall i :: 0 <= i < |verdicts| ==> verdicts[i] == Answer(role, mode, i)
  {
    assert ([e] + events)[1..] == events;
    AnswersSinceJoining(role, me, mode, events);
    var more := Served(NewRole(role, mode), me, mode, events).1;
    assert [] + more == more;
  }

  // ---- a connection, its hub and the channel between them ----

  /** `touched` records whether the hub changed the role since the receiver was
      created, or a re-fetch happened. */
  datatype State = State(log: seq<CollabMessage>, hubRole: Role, next: nat, gate: Gate, refetching: bool, touched: bool)

  datatype Step = Change(role: Role) | OtherMessage(m: CollabMessage) | Recv | Refetch | Input

  predicate AboutMe(me: UserId, m: CollabMessage) {
    m.PeerRoleChanged? && m.user == me
  }

  /** The receiver starts at the tail of whatever was sent before. */
  function Init(before: seq<CollabMessage>, joined: Role, hubRole: Role, mode: InputMode): State {
    State(before, hubRole, |before|, NewRole(joined, mode), false, false)
  }

  function Next(s: State, me: UserId, mode: InputMode, step: Step): State {
    match step
    case Change(r) =>
      if r == s.hubRole then s
      else s.(hubRole := r, log := s.log + [PeerRoleChanged(me, r)], touched := true)
    case OtherMessage(m) => if AboutMe(me, m) then s else s.(log := s.log + [m])
    case Recv =>
      if s.refetching then s else
      (match Receive(s.log, COLLAB_SLOTS, s.next)
       case Empty => s
       case Lagged => s.(next := Oldest(|s.log|, COLLAB_SLOTS), refetching := true)
       case Message(m) => s.(next := s.next + 1, gate := OnMessage(s.gate, me, m, mode)))
    case Refetch =>
      if s.refetching
      then s.(gate := OnResync(s.gate, Some(s.hubRole), mode), refetching := false, touched := true) else s
    case Input => s.(gate := OnBinary(s.gate).0)
  }

  function Run(s: State, me: UserId, mode: InputMode, steps: seq<Step>): State {
    if steps == [] then s
    else Next(Run(s, me, mode, steps[..|steps| - 1]), me, mode, steps[|steps| - 1])
  }

  /** The role that reading a stretch of the log leads to. */
  function RoleAfter(r: Role, me: UserId, log: seq<CollabMessage>): Role {
    if log == [] then r
    else if AboutMe(me, log[|log| - 1]) then log[|log| - 1].newRole
    else RoleAfter(r, me, log[..|log| - 1])
  }

  lemma {:induction false} RoleAfterCons(r: Role, me: UserId, log: seq<CollabMessage>)
    requires log != []
    ensures RoleAfter(r, me, log)
         == RoleAfter(if AboutMe(me, log[0]) then log[0].newRole else r, me, log[1..])
  {
    if |log| > 1 && !AboutMe(me, log[|log| - 1]) {
      RoleAfterCons(r, me, log[..|log| - 1]);
      assert log[..|log| - 1][1..] == log[1..][..|log| - 2];
    }
  }

  ghost predicate Inv(s: State, me: UserId, mode: InputMode, start: nat, joined: Role, hub0: Role) {
    && start <= s.next <= |s.log|
    && s.gate.denied == ComputeInputDenied(s.gate.role, mode)
    && (forall p :: start <= p <= |s.log| ==> RoleAfter(s.hubRole, me, s.log[p..]) == s.hubRole)
    && (!s.refetching ==>
          RoleAfter(s.gate.role, me, s.log[s.next..]) == if s.touched then s.hubRole else joined)
    && (!s.touched ==> s.hubRole == hub0 && forall i :: start <= i < |s.log| ==> !AboutMe(me, s.log[i]))
  }

  lemma SendKeepsInv(s: State, t: State, m: CollabMessage, me: UserId, mode: InputMode,
                     start: nat, joined: Role, hub0: Role)
    requires Inv(s, me, mode, start, joined, hub0)
    requires t == s.(log := s.log + [m], hubRole := if AboutMe(me, m) then m.newRole else s.hubRole,
                     touched := s.touched || AboutMe(me, m))
    ensures Inv(t, me, mode, start, joined, hub0)
  {
    forall p | start <= p <= |t.log| ensures RoleAfter(t.hubRole, me, t.log[p..]) == t.hubRole {
      if p <= |s.log| {
        assert t.log[p..] == s.log[p..] + [m];
        assert t.log[p..][..|t.log| - p - 1] == s.log[p..];
      }
    }
    assert t.log[s.next..] == s.log[s.next..] + [m];
    assert t.log[s.next..][..|s.log| - s.next] == s.log[s.next..];
  }

  lemma RecvKeepsInv(s: State, me: UserId, mode: InputMode, start: nat, joined: Role, hub0: Role)
    requires Inv(s, me, mode, start, joined, hub0)
    ensures Inv(Next(s, me, mode, Recv), me, mode, start, joined, hub0)
  {
    if !s.refetching && Receive(s.log, COLLAB_SLOTS, s.next).Message? {
      RoleAfterCons(s.gate.role, me, s.log[s.next..]);
      assert s.log[s.next..][1..] == s.log[s.next + 1..];
    }
  }

  lemma NextKeepsInv(s: State, me: UserId, mode: InputMode, step: Step, start: nat, joined: Role, hub0: Role)
    requires Inv(s, me, mode, start, joined, hub0)
    ensures Inv(Next(s, me, mode, step), me, mode, start, joined, hub0)
  {
    match step
    case Change(r) =>
      if r != s.hubRole {
        SendKeepsInv(s, Next(s, me, mode, step), PeerRoleChanged(me, r), me, mode, start, joined, hub0);
      }
    case OtherMessage(m) =>
      if !AboutMe(me, m) {
        SendKeepsInv(s, Next(s, me, mode, step), m, me, mode, start, joined, hub0);
      }
    case Recv => RecvKeepsInv(s, me, mode, start, joined, hub0);
    case Refetch =>
      assert RoleAfter(s.hubRole, me, s.log[s.next..]) == s.hubRole;
    case Input =>
  }

  lemma {:induction false} RunKeepsInv(before: seq<CollabMessage>, me: UserId, mode: InputMode,
                                       joined: Role, hub0: Role, steps: seq<Step>)
    ensures Inv(Run(Init(before, joined, hub0, mode), me, mode, steps), me, mode, |before|, joined, hub0)
  {
    if steps == [] {
      assert before[|before|..] == [];
    } else {
      RunKeepsInv(before, me, mode, joined, hub0, steps[..|steps| - 1]);
      NextKeepsInv(Run(Init(before, joined, hub0, mode), me, mode, steps[..|steps| - 1]), me, mode, steps[|steps| - 1],
                   |before|, joined, hub0);
    }
  }

  /** Whenever the role channel is drained, the connection's role is the hub's
      exactly when it was at the start or a change or re-fetch came since: the one
      thing that can stay missed is a change made before the receiver existed. */
  lemma DrainedRoleIff(before: seq<CollabMessage>, me: UserId, mode: InputMode, joined: Role,
                       hub0: Role, steps: seq<Step>)
    ensures var s := Run(Init(before, joined, hub0, mode), me, mode, steps);
            !s.refetching && s.next == |s.log| ==>
              (s.gate.role == s.hubRole <==> s.touched || joined == hub0)
  {
    RunKeepsInv(before, me, mode, joined, hub0, steps);
    var s := Run(Init(before, joined, hub0, mode), me, mode, steps);
    if s.next == |s.log| {
      assert s.log[s.next..] == [];
    }
  }

  /** After any role changes, overflows and re-fetches, a connection that started
      in step with the hub and has drained its channel forwards input exactly when
      the hub's role for the user may type in this mode. */
  lemma NoMissedDemotion(before: seq<CollabMessage>, me: UserId, mode: InputMode, role: Role, steps: seq<Step>)
    ensures var s := Run(Init(before, role, role, mode), me, mode, steps);
            !s.refetching && s.next == |s.log| ==>
              && s.gate.role == s.hubRole
              && s.gate.denied == ComputeInputDenied(s.hubRole, mode)
              && (OnBinary(s.gate).1 == Forwarded
                 <==> s.hubRole == Owner || (s.hubRole == Operator && mode == Multiplexed))
              && (OnBinary(s.gate).1.Noticed? ==> (OnBinary(s.gate).1.reason == VIEWER <==> s.hubRole == Viewer))
  {
    DrainedRoleIff(before, me, mode, role, role, steps);
    RunKeepsInv(before, me, mode, role, role, steps);
  }

  // ---- from the moment of registering ----

  /** What the hub does between the moment it handed out `role` and the creation of the
      role receiver: changes are broadcast, and nobody here is listening. */
  function BeforeSubscribe(log: seq<CollabMessage>, role: Role, me: UserId, steps: seq<Step>):
    (seq<CollabMessage>, Role)
    decreases |steps|
  {
    if steps == [] then (log, role)
    else
      match steps[0]
      case Change(r) =>
        BeforeSubscribe(if r == role then log else log + [PeerRoleChanged(me, r)], r, me, steps[1..])
      case OtherMessage(m) => BeforeSubscribe(if AboutMe(me, m) then log else log + [m], role, me, steps[1..])
      case _ => BeforeSubscribe(log, role, me, steps[1..])
  }

  /** A handler that registered with `joined` and created its receiver after `early`. */
  function Joining(log: seq<CollabMessage>, joined: Role, me: UserId, mode: InputMode, early: seq<Step>): State {
    Init(BeforeSubscribe(log, joined, me, early).0, joined, BeforeSubscribe(log, joined, me, early).1, mode)
  }

  /** A drained connection is in step with the hub exactly if the changes made before its
      receiver existed led back to the role it registered with, or one came since. */
  lemma RoleSinceJoinIff(log: seq<CollabMessage>, joined: Role, me: UserId, mode: InputMode,
                         early: seq<Step>, later: seq<Step>)
    ensures var s := Run(Joining(log, joined, me, mode, early), me, mode, later);
            !s.refetching && s.next == |s.log| ==>
              (s.gate.role == s.hubRole <==> s.touched || BeforeSubscribe(log, joined, me, early).1 == joined)
  {
    var (before, hub0) := BeforeSubscribe(log, joined, me, early);
    DrainedRoleIff(before, me, mode, joined, hub0, later);
  }

  /** A user demoted between registering and the creation of its role receiver keeps
      typing: the broadcast went out before anybody listened. */
  lemma DemotionBeforeSubscribeIsMissed(log: seq<CollabMessage>, me: UserId)
    ensures var s := Run(Joining(log, Operator, me, Multiplexed, [Change(Viewer)]), me, Multiplexed, [Recv, Input]);
            && s.log == log + [PeerRoleChanged(me, Viewer)] && s.hubRole == Viewer
            && s.next == |s.log| && !s.refetching
            && OnBinary(s.gate).1 == Forwarded
  {
    var s0 := Joining(log, Operator, me, Multiplexed, [Change(Viewer)]);
    assert [Change(Viewer)][1..] == [];
    assert s0 == Init(log + [PeerRoleChanged(me, Viewer)], Operator, Viewer, Multiplexed);
    assert [Recv, Input][..1] == [Recv] && [Recv][..0] == [];
    assert Run(s0, me, Multiplexed, [Recv]) == s0;
  }
}
