/** Changes of role, read first and written later with anything between, and what is left in
    closed sessions and of revoked invites. */
module RoleChanges {

  import opened Protocol
  import opened Invites

  /** The action writes a role of `u` in a session that has been closed. */
  predicate ReseatsNow(w: World, a: Action, session: SessionId, u: UserId) {
    && a.WriteRole? && a.pid in w.changes && IsClosed(w.db, session)
    && w.changes[a.pid].session == session && w.changes[a.pid].user == u
  }

  /** Action `i` of the run does. */
  ghost predicate Reseats(actions: seq<Action>, i: nat, session: SessionId, u: UserId) {
    i < |actions| && ReseatsNow(Run(EMPTY, actions[..i]), actions[i], session, u)
  }

  /** A closed session whose active participants include `u`. */
  predicate Lingers(db: Db, session: SessionId, u: UserId) {
    IsClosed(db, session) && IsMember(db, session, u)
  }

  lemma CallLeavesClosed(w: World, pid: Pid, input: Input, session: SessionId, u: UserId)
    requires Consistent(w)
    ensures Lingers(Next(w, Advance(pid, input)).db, session, u) <==> Lingers(w.db, session, u)
  {
    hide StepCall, Conserved, OneEach, MembersAreUsers;
    if pid in w.calls && pid in w.phases {
      var granted, identity := StepEffect(w.db, pid, w.calls[pid], w.phases[pid], input);
    }
  }

  lemma LingersStep(w: World, a: Action, session: SessionId, u: UserId)
    requires Consistent(w)
    ensures Lingers(Next(w, a).db, session, u) <==> Lingers(w.db, session, u) || ReseatsNow(w, a, session, u)
  {
    if a.Advance? {
      hide Next;
      CallLeavesClosed(w, a.pid, a.input, session, u);
    }
  }

  lemma Reached(actions: seq<Action>)
    ensures Consistent(Run(EMPTY, actions))
  {
    RunKeeps(EMPTY, actions);
  }

  lemma ReseatsSnoc(front: seq<Action>, last: Action, session: SessionId, u: UserId)
    ensures (exists i: nat :: Reseats(front + [last], i, session, u))
       <==> (exists i: nat :: Reseats(front, i, session, u)) || ReseatsNow(Run(EMPTY, front), last, session, u)
  {
    hide Run, ReseatsNow;
    var actions := front + [last];
    assert actions[..|front|] == front && actions[|front|] == last;
    forall i: nat
      ensures Reseats(actions, i, session, u)
         <==> if i < |front| then Reseats(front, i, session, u)
              else i == |front| && ReseatsNow(Run(EMPTY, front), last, session, u)
    {
      if i < |front| {
        assert actions[..i] == front[..i] && actions[i] == front[i];
      }
    }
    assert forall i: nat :: Reseats(front, i, session, u) ==> i < |front|;
    assert Reseats(actions, |front|, session, u) <==> ReseatsNow(Run(EMPTY, front), last, session, u);
  }

  /** In every interleaving a user is an active participant of a closed session exactly if
      a change of its role, allowed while the session was open, was written after the close. */
  lemma {:induction false} LingersIff(actions: seq<Action>, session: SessionId, u: UserId)
    ensures Lingers(Run(EMPTY, actions).db, session, u) <==> exists i: nat :: Reseats(actions, i, session, u)
    decreases |actions|
  {
    if actions != [] {
      hide Next, Consistent, Lingers, ReseatsNow, Reseats;
      var front, last := actions[..|actions| - 1], actions[|actions| - 1];
      assert actions == front + [last];
      RunSnoc(EMPTY, front, last);
      Reached(front);
      LingersStep(Run(EMPTY, front), last, session, u);
      LingersIff(front, session, u);
      ReseatsSnoc(front, last, session, u);
    }
  }

  // ---- who owns ----

  /** The owner's role belongs to the owner alone, and no invite or change hands it out. */
  ghost predicate OwnersOwn(w: World) {
    && (forall s, u :: (s, u) in w.db.members ==>
         s in w.db.sessions && (w.db.members[(s, u)].Owner? <==> u == w.db.sessions[s].owner))
    && (forall t :: t in w.db.invites ==> !w.db.invites[t].role.Owner?)
    && (forall s :: IsOpen(w.db, s) ==> IsMember(w.db, s, w.db.sessions[s].owner))
  }

  lemma CallKeepsOwners(w: World, pid: Pid, input: Input)
    requires Consistent(w) && OwnersOwn(w)
    ensures OwnersOwn(Next(w, Advance(pid, input)))
  {
    hide StepCall, Conserved, OneEach, MembersAreUsers;
    if pid in w.calls && pid in w.phases {
      var granted, identity := StepEffect(w.db, pid, w.calls[pid], w.phases[pid], input);
    }
  }

  lemma StepKeepsOwners(w: World, a: Action)
    requires Consistent(w) && OwnersOwn(w)
    ensures OwnersOwn(Next(w, a))
  {
    if a.Advance? {
      hide Next, OwnersOwn;
      CallKeepsOwners(w, a.pid, a.input);
    }
  }

  lemma {:induction false} RunKeepsOwners(w: World, actions: seq<Action>)
    requires Consistent(w) && OwnersOwn(w)
    ensures OwnersOwn(Run(w, actions))
    decreases |actions|
  {
    if actions != [] {
      hide Next, Consistent, OwnersOwn;
      AnyStepKeeps(w, actions[0]);
      StepKeepsOwners(w, actions[0]);
      RunKeepsOwners(Next(w, actions[0]), actions[1..]);
    }
  }

  /** However calls to redeem, changes of role and closes interleave: an active participant
      has the owner's role exactly if it owns the session, and while the session is open
      its owner is one. */
  lemma OneOwner(actions: seq<Action>, session: SessionId, u: UserId)
    ensures var db := Run(EMPTY, actions).db;
            && (IsMember(db, session, u) ==>
                 session in db.sessions && (db.members[(session, u)].Owner? <==> u == db.sessions[session].owner))
            && (IsOpen(db, session) ==> IsMember(db, session, db.sessions[session].owner))
  {
    RunKeepsOwners(EMPTY, actions);
  }

  // ---- who may ask, and what is written ----

  /** The owner of an open session asks for another active participant to get another role,
      which is not the owner's. */
  predicate OwnerAsks(db: Db, caller: UserId, c: RoleChange) {
    && c.session in db.sessions && db.sessions[c.session] == Session(caller, true)
    && c.user != caller && c.role != Owner
    && (c.session, c.user) in db.members && db.members[(c.session, c.user)] != c.role
  }

  /** Action `i` of the run is the request that `c` goes back to. */
  ghost predicate AskedAt(actions: seq<Action>, i: nat, pid: Pid, c: RoleChange) {
    && i < |actions| && actions[i].AskRole? && actions[i].pid == pid && actions[i].change == c
    && OwnerAsks(Run(EMPTY, actions[..i]).db, actions[i].caller, c)
  }

  /** A request is let through exactly if the owner asks, and unless it is under way already. */
  lemma LetThroughIff(w: World, pid: Pid, caller: UserId, c: RoleChange)
    requires pid !in w.changes
    ensures var after := Next(w, AskRole(pid, caller, c));
            && after.changes == (if OwnerAsks(w.db, caller, c) then w.changes[pid := c] else w.changes)
            && after.db == w.db
  {
  }

  /** Every role about to be written was asked for by the owner while the session was open. */
  lemma {:induction false} OwnerAsked(actions: seq<Action>, pid: Pid) returns (i: nat)
    requires pid in Run(EMPTY, actions).changes
    ensures AskedAt(actions, i, pid, Run(EMPTY, actions).changes[pid])
    decreases |actions|
  {
    var front, last := actions[..|actions| - 1], actions[|actions| - 1];
    assert actions == front + [last];
    RunSnoc(EMPTY, front, last);
    if pid in Run(EMPTY, front).changes {
      i := OwnerAsked(front, pid);
      assert actions[..i] == front[..i];
      ChangeStays(Run(EMPTY, front), last, pid);
    } else {
      i := |front|;
      ChangeComes(Run(EMPTY, front), last, pid);
      assert actions[..i] == front;
    }
  }

  lemma ChangeStays(w: World, a: Action, pid: Pid)
    requires pid in w.changes && pid in Next(w, a).changes
    ensures Next(w, a).changes[pid] == w.changes[pid]
  {
  }

  lemma ChangeComes(w: World, a: Action, pid: Pid)
    requires pid !in w.changes && pid in Next(w, a).changes
    ensures a.AskRole? && a.pid == pid && Next(w, a).changes[pid] == a.change && OwnerAsks(w.db, a.caller, a.change)
  {
  }

  /** The action admits `u` to the session, by a call that got as far as its transaction. */
  predicate Admits(w: World, a: Action, session: SessionId, u: UserId) {
    && a.Advance? && a.pid in w.calls && a.pid in w.phases && w.phases[a.pid].Attempting?
    && var call := w.calls[a.pid];
       && Usable(w.db, call.token, a.input.now) && w.db.invites[call.token].session == session
       && Admissible(w.db, session, call.caller, a.input.guestId, a.input.guestName)
       && Joiner(call.caller, a.input.guestId) == u
  }

  /** The action opens the session for its owner `u`. */
  predicate Opens(w: World, a: Action, session: SessionId, u: UserId) {
    a == OpenSession(session, u) && session !in w.db.sessions && u in w.db.names
  }

  predicate Writes(w: World, a: Action, session: SessionId, u: UserId) {
    a.WriteRole? && a.pid in w.changes && w.changes[a.pid].session == session && w.changes[a.pid].user == u
  }

  /** The role that `u` was last given in the session: as its owner, by an invite, or by a change. */
  function RoleGiven(actions: seq<Action>, session: SessionId, u: UserId): Role
    decreases |actions|
  {
    if actions == [] then Viewer
    else
      var front, last := actions[..|actions| - 1], actions[|actions| - 1];
      var w := Run(EMPTY, front);
      if Opens(w, last, session, u) then Owner
      else if Admits(w, last, session, u) then w.db.invites[w.calls[last.pid].token].role
      else if Writes(w, last, session, u) then w.changes[last.pid].role
      else RoleGiven(front, session, u)
  }

  lemma CallGives(w: World, pid: Pid, input: Input, session: SessionId, u: UserId)
    requires IsMember(Next(w, Advance(pid, input)).db, session, u)
    ensures var role := Next(w, Advance(pid, input)).db.members[(session, u)];
            if Admits(w, Advance(pid, input), session, u) then role == w.db.invites[w.calls[pid].token].role
            else IsMember(w.db, session, u) && role == w.db.members[(session, u)]
  {
    if pid in w.calls && pid in w.phases && w.phases[pid].Attempting? {
      hide RedeemTx;
      GrantsIff(w.db, pid, w.calls[pid].token, w.calls[pid].caller, input);
    }
  }

  lemma RoleStep(w: World, a: Action, session: SessionId, u: UserId)
    requires IsMember(Next(w, a).db, session, u)
    ensures var role := Next(w, a).db.members[(session, u)];
            if Opens(w, a, session, u) then role == Owner
            else if Admits(w, a, session, u) then role == w.db.invites[w.calls[a.pid].token].role
            else if Writes(w, a, session, u) then role == w.changes[a.pid].role
            else IsMember(w.db, session, u) && role == w.db.members[(session, u)]
  {
    if a.Advance? {
      hide Next, Admits;
      CallGives(w, a.pid, a.input, session, u);
    }
  }

  /** However everything interleaves: an active participant has the role it was given last. */
  lemma {:induction false} RoleIsLastGiven(actions: seq<Action>, session: SessionId, u: UserId)
    requires IsMember(Run(EMPTY, actions).db, session, u)
    ensures Run(EMPTY, actions).db.members[(session, u)] == RoleGiven(actions, session, u)
    decreases |actions|
  {
    if actions == [] {
      NobodyYet(session, u);
    } else {
      hide Next, Opens, Admits, Writes;
      var front, last := actions[..|actions| - 1], actions[|actions| - 1];
      assert actions == front + [last];
      RunSnoc(EMPTY, front, last);
      var w := Run(EMPTY, front);
      RoleStep(w, last, session, u);
      if !Opens(w, last, session, u) && !Admits(w, last, session, u) && !Writes(w, last, session, u) {
        RoleIsLastGiven(front, session, u);
      }
    }
  }

  lemma NobodyYet(session: SessionId, u: UserId)
    ensures !IsMember(Run(EMPTY, []).db, session, u)
  {
  }

  // ---- revoking ----

  predicate IsRevoked(db: Db, token: Token) { token in db.minted && token !in db.invites }

  lemma RevokedStep(w: World, a: Action, token: Token)
    requires IsRevoked(w.db, token) && Consistent(w)
    ensures IsRevoked(Next(w, a).db, token) && Uses(Next(w, a).db.log, token) == Uses(w.db.log, token)
  {
    if a.Advance? {
      hide Next, Consistent, IsRevoked;
      RevokedCallStep(w, a.pid, a.input, token);
    } else {
      hide Consistent, Uses;
    }
  }

  lemma RevokedCallStep(w: World, pid: Pid, input: Input, token: Token)
    requires IsRevoked(w.db, token) && Consistent(w)
    ensures var after := Next(w, Advance(pid, input)).db;
            IsRevoked(after, token) && Uses(after.log, token) == Uses(w.db.log, token)
  {
    hide StepCall, Conserved, OneEach;
    if pid in w.calls && pid in w.phases {
      var granted, identity := StepEffect(w.db, pid, w.calls[pid], w.phases[pid], input);
      if granted {
        hide MembersAreUsers;
        var other := w.calls[pid].token;
        Logged(w.db.log, Grant(other, w.db.invites[other].session, UserOf(identity), pid));
      }
    }
  }

  lemma {:induction false} RevokedRun(w: World, actions: seq<Action>, token: Token)
    requires IsRevoked(w.db, token) && Consistent(w)
    ensures Uses(Run(w, actions).db.log, token) == Uses(w.db.log, token)
    decreases |actions|
  {
    if actions != [] {
      hide Next, Consistent, IsRevoked;
      RevokedStep(w, actions[0], token);
      AnyStepKeeps(w, actions[0]);
      RevokedRun(Next(w, actions[0]), actions[1..], token);
    }
  }

  /** Once revoked, an invite admits nobody any more, however far a call had come. */
  lemma NothingAfterRevoke(before: seq<Action>, after: seq<Action>, token: Token)
    requires token in Run(EMPTY, before).db.minted
    ensures var w := Next(Run(EMPTY, before), Revoke(token));
            Uses(Run(w, after).db.log, token) == Uses(w.db.log, token)
  {
    Reached(before);
    AnyStepKeeps(Run(EMPTY, before), Revoke(token));
    RevokedRun(Next(Run(EMPTY, before), Revoke(token)), after, token);
  }
}
