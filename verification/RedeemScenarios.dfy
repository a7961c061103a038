/** Concrete runs in which a redeeming caller is told something else than what holds. */
module RedeemScenarios {

  import opened Protocol
  import opened Invites

  /** The run so far extended by one action. */
  lemma Then(w: World, actions: seq<Action>, a: Action) returns (w': World, actions': seq<Action>)
    requires w == Run(EMPTY, actions)
    ensures w' == Next(w, a) && actions' == actions + [a] && w' == Run(EMPTY, actions')
  {
    RunSnoc(EMPTY, actions, a);
    w', actions' := Next(w, a), actions + [a];
  }

  const AT: Input := Input(10, 10, 9, "guest")

  function Policy(role: Role, at: Option<Instant>): Params { Params(role, 1, None, None, at) }

  const EVE := Some(Caller(5, None))

  /** Session "s" of user 1 is open, 5 is a user and no member of it. */
  ghost predicate Open(w: World) {
    && w.db.sessions == map["s" := Session(1, true)] && 5 in w.db.names
    && !IsMember(w.db, "s", 5) && "s" in w.db.sessions
  }

  lemma OpenedSession() returns (w: World, actions: seq<Action>)
    ensures w == Run(EMPTY, actions) && Open(w)
    ensures w.db.minted == map[] && w.db.invites == map[] && w.calls == map[] && w.phases == map[] && w.changes == map[]
  {
    w, actions := EMPTY, [];
    w, actions := Then(w, actions, Register(1, "ann"));
    assert w.db.names == map[1 := "ann"];
    assert "eve" != "ann" by {
      assert "eve"[0] != "ann"[0];
    }
    w, actions := Then(w, actions, Register(5, "eve"));
    assert w.db.names == map[1 := "ann", 5 := "eve"];
    w, actions := Then(w, actions, OpenSession("s", 1));
  }

  lemma Minted(w0: World, actions0: seq<Action>, token: Token, role: Role, at: Option<Instant>)
    returns (w: World, actions: seq<Action>)
    requires w0 == Run(EMPTY, actions0) && token !in w0.db.minted && !role.Owner?
    requires at.Some? ==> 5 < at.value <= 5 + MAX_INVITE_TTL_SECS
    ensures w == Run(EMPTY, actions)
    ensures w == w0.(db := w0.db.(invites := w0.db.invites[token := Invite("s", role, 1, 0, at)],
                                  minted := w0.db.minted[token := 1]))
  {
    w, actions := Then(w0, actions0, MintInvite("s", Policy(role, at), 5, token));
  }

  /** A call of user 5 that got as far as its transaction. */
  lemma Poised(w0: World, actions0: seq<Action>, pid: Pid, token: Token) returns (w: World, actions: seq<Action>)
    requires w0 == Run(EMPTY, actions0) && Open(w0) && pid !in w0.calls && w0.calls.Keys == w0.phases.Keys
    requires token in w0.db.invites && w0.db.invites[token].session == "s"
    ensures w == Run(EMPTY, actions)
    ensures w == w0.(calls := w0.calls[pid := Call(EVE, token)], phases := w0.phases[pid := Attempting(0)])
  {
    w, actions := Then(w0, actions0, Arrive(pid, Call(EVE, token)));
    w, actions := Then(w, actions, Advance(pid, AT));
    assert w.phases[pid] == Previewed("s");
    w, actions := Then(w, actions, Advance(pid, AT));
    assert w.phases[pid] == SessionSeen("s");
    w, actions := Then(w, actions, Advance(pid, AT));
    assert w.phases == w0.phases[pid := Attempting(0)];
  }

  /** Both calls have found no membership yet. */
  ghost predicate BothPoised(w: World) {
    && Open(w) && w.calls == map[1 := Call(EVE, 100), 2 := Call(EVE, 200)]
    && w.phases == map[1 := Attempting(0), 2 := Attempting(0)]
    && 100 in w.db.invites && w.db.invites[100] == Invite("s", Viewer, 1, 0, None)
    && 200 in w.db.invites && w.db.invites[200] == Invite("s", Operator, 1, 0, None)
  }

  lemma BothReady() returns (w: World, actions: seq<Action>)
    ensures w == Run(EMPTY, actions) && BothPoised(w)
  {
    hide Run, Next;
    w, actions := OpenedSession();
    w, actions := Minted(w, actions, 100, Viewer, None);
    w, actions := Minted(w, actions, 200, Operator, None);
    w, actions := Poised(w, actions, 1, 100);
    w, actions := Poised(w, actions, 2, 200);
  }

  lemma Race(w: World)
    requires BothPoised(w)
    ensures var v := Next(Next(w, Advance(1, AT)), Advance(2, AT));
            && 2 in v.calls && v.calls[2] == Call(EVE, 200) && 2 in v.phases
            && v.phases[2] == Ended(NoOp("s", Operator))
            && IsMember(v.db, "s", 5) && v.db.members[("s", 5)] == Viewer
  {
    var v1 := Next(w, Advance(1, AT));
    assert v1.db == Committed(w.db, 1, 100, Existing(5)) && v1.calls == w.calls && v1.phases[2] == Attempting(0);
  }

  /** Two calls of one user race with a viewer and an operator invite: the first makes it a
      viewer, the second reports operator. */
  lemma RaceLoserIsToldAnotherRole() returns (actions: seq<Action>)
    ensures var w := Run(EMPTY, actions);
            && 2 in w.calls && w.calls[2] == Call(EVE, 200) && 2 in w.phases
            && w.phases[2] == Ended(NoOp("s", Operator))
            && IsMember(w.db, "s", 5) && w.db.members[("s", 5)] == Viewer
  {
    hide Run, Next;
    var w;
    w, actions := BothReady();
    Race(w);
    w, actions := Then(w, actions, Advance(1, AT));
    w, actions := Then(w, actions, Advance(2, AT));
  }

  lemma ExpiringNow(w: World)
    requires Open(w) && 100 in w.db.invites && w.db.invites[100] == Invite("s", Viewer, 1, 0, Some(10))
    requires 1 in w.calls && w.calls[1] == Call(EVE, 100) && 1 in w.phases && w.phases[1] == Attempting(0)
    ensures Next(w, Advance(1, Input(10, 10, 9, "guest"))).phases[1] == Ended(Failed(InvalidToken))
    ensures Next(w, Advance(1, Input(10, 11, 9, "guest"))).phases[1] == Ended(Failed(Expired))
  {
  }

  /** An unused invite of an open session, tried at the very instant of its expiry, is
      refused as invalid; a second reading of the clock later it is refused as expired. */
  lemma ExpiringNowIsToldInvalid() returns (before: seq<Action>)
    ensures var w := Run(EMPTY, before);
            && Open(w) && 100 in w.db.invites && w.db.invites[100] == Invite("s", Viewer, 1, 0, Some(10))
            && 1 in w.calls && w.calls[1] == Call(EVE, 100) && 1 in w.phases
            && Next(w, Advance(1, Input(10, 10, 9, "guest"))).phases[1] == Ended(Failed(InvalidToken))
            && Next(w, Advance(1, Input(10, 11, 9, "guest"))).phases[1] == Ended(Failed(Expired))
  {
    hide Run, Next;
    var w;
    w, before := OpenedSession();
    w, before := Minted(w, before, 100, Viewer, Some(10));
    w, before := Poised(w, before, 1, 100);
    ExpiringNow(w);
  }

  const PROMOTED := RoleChange("s", 5, Operator)

  lemma ChangeAcrossClose(w: World)
    requires Open(w) && w.changes == map[] && 100 in w.db.invites
             && w.db.invites[100] == Invite("s", Viewer, 1, 0, None)
    requires w.calls == map[1 := Call(EVE, 100)] && w.phases == map[1 := Attempting(0)]
    ensures var v := Next(Next(Next(Next(w, Advance(1, AT)), AskRole(9, 1, PROMOTED)), Close("s")), WriteRole(9));
            IsClosed(v.db, "s") && IsMember(v.db, "s", 5)
  {
    var v1 := Next(w, Advance(1, AT));
    assert v1.db == Committed(w.db, 1, 100, Existing(5)) && v1.changes == map[];
    assert IsOpen(v1.db, "s") && IsMember(v1.db, "s", 5) && v1.db.members[("s", 5)] == Viewer;
    var v2 := Next(v1, AskRole(9, 1, PROMOTED));
    assert v2.changes == map[9 := PROMOTED] && v2.db == v1.db;
  }

  /** The owner promotes a participant, the session is closed, and then the new role is
      written: the closed session has an active participant. */
  lemma ReseatedAfterClose() returns (actions: seq<Action>)
    ensures var db := Run(EMPTY, actions).db; IsClosed(db, "s") && IsMember(db, "s", 5)
  {
    hide Run, Next;
    var w;
    w, actions := OpenedSession();
    w, actions := Minted(w, actions, 100, Viewer, None);
    w, actions := Poised(w, actions, 1, 100);
    ChangeAcrossClose(w);
    w, actions := Then(w, actions, Advance(1, AT));
    w, actions := Then(w, actions, AskRole(9, 1, PROMOTED));
    w, actions := Then(w, actions, Close("s"));
    w, actions := Then(w, actions, WriteRole(9));
  }
}
