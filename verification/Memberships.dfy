/** What redeemed invites amount to in the table of participants. */
module Memberships {

  import opened Protocol
  import opened Invites

  function MembersOf(db: Db, session: SessionId): set<UserId> {
    set k | k in db.members && k.0 == session :: k.1
  }

  /** The users an invite was redeemed by. */
  function Redeemers(log: seq<Grant>, token: Token): set<UserId>
    decreases |log|
  {
    if log == [] then {}
    else Redeemers(log[..|log| - 1], token) + if log[|log| - 1].token == token then {log[|log| - 1].user} else {}
  }

  lemma {:induction false} RedeemerHasGrant(log: seq<Grant>, token: Token, u: UserId) returns (i: nat)
    requires u in Redeemers(log, token)
    ensures i < |log| && log[i].token == token && log[i].user == u
    decreases |log|
  {
    var front := log[..|log| - 1];
    if u in Redeemers(front, token) {
      i := RedeemerHasGrant(front, token, u);
    } else {
      i := |log| - 1;
    }
  }

  /** Every member of an open session but its owner came by exactly one grant. */
  ghost predicate Seated(db: Db) {
    forall s :: IsOpen(db, s) ==>
      && IsMember(db, s, db.sessions[s].owner)
      && |MembersOf(db, s)| == 1 + GrantsIn(db.log, s)
  }

  ghost predicate Rooted(db: Db) {
    && (forall k :: k in db.members ==> k.0 in db.sessions)
    && (forall i :: 0 <= i < |db.log| ==> db.log[i].session in db.sessions && db.log[i].token in db.minted)
  }

  ghost predicate GrantsStand(db: Db) {
    && (forall i :: 0 <= i < |db.log| && IsOpen(db, db.log[i].session) ==>
         IsMember(db, db.log[i].session, db.log[i].user))
    && (forall i, t :: 0 <= i < |db.log| && t in db.invites && db.log[i].token == t ==>
         db.log[i].session == db.invites[t].session)
  }

  /** Nobody is granted the same membership twice. */
  ghost predicate NoneTwice(log: seq<Grant>) {
    forall i, j :: 0 <= i < j < |log| ==> log[i].session != log[j].session || log[i].user != log[j].user
  }

  ghost predicate Inv(db: Db) {
    Seated(db) && Rooted(db) && GrantsStand(db) && NoneTwice(db.log)
  }

  lemma {:induction false} NoGrantsIn(log: seq<Grant>, session: SessionId)
    requires forall i :: 0 <= i < |log| ==> log[i].session != session
    ensures GrantsIn(log, session) == 0
  {
    if log != [] {
      NoGrantsIn(log[..|log| - 1], session);
    }
  }

  // ---- a grant ----

  lemma NewMember(db: Db, pid: Pid, token: Token, identity: Identity, s: SessionId)
    requires Grantable(db, token, UserOf(identity))
    ensures MembersOf(Committed(db, pid, token, identity), s)
         == MembersOf(db, s) + (if s == db.invites[token].session then {UserOf(identity)} else {})
    ensures s == db.invites[token].session ==> UserOf(identity) !in MembersOf(db, s)
  {
    var after := Committed(db, pid, token, identity);
    var u := UserOf(identity);
    forall v ensures v in MembersOf(after, s) <==> v in MembersOf(db, s) || (s == db.invites[token].session && v == u) {
      assert v in MembersOf(after, s) <==> (s, v) in after.members;
      assert v in MembersOf(db, s) <==> (s, v) in db.members;
    }
    if u in MembersOf(db, s) {
      assert (s, u) in db.members;
    }
  }

  lemma GrantKeepsSeats(db: Db, pid: Pid, token: Token, identity: Identity)
    requires Seated(db) && Grantable(db, token, UserOf(identity))
    ensures Seated(Committed(db, pid, token, identity))
  {
    var after := Committed(db, pid, token, identity);
    var g := Grant(token, db.invites[token].session, UserOf(identity), pid);
    Logged(db.log, g);
    forall s | IsOpen(after, s)
      ensures IsMember(after, s, after.sessions[s].owner) && |MembersOf(after, s)| == 1 + GrantsIn(after.log, s)
    {
      assert IsOpen(db, s);
      NewMember(db, pid, token, identity, s);
    }
  }

  lemma GrantKeepsRest(db: Db, pid: Pid, token: Token, identity: Identity)
    requires Rooted(db) && GrantsStand(db) && NoneTwice(db.log) && Grantable(db, token, UserOf(identity))
    requires token in db.minted
    ensures var after := Committed(db, pid, token, identity);
            Rooted(after) && GrantsStand(after) && NoneTwice(after.log)
  {
  }

  // ---- everything else ----

  lemma OpenKeeps(db: Db, session: SessionId, owner: UserId)
    requires Inv(db)
    ensures Inv(OpenIn(db, session, owner))
  {
    var after := OpenIn(db, session, owner);
    if after != db {
      NoGrantsIn(db.log, session);
      forall s | IsOpen(after, s)
        ensures IsMember(after, s, after.sessions[s].owner) && |MembersOf(after, s)| == 1 + GrantsIn(after.log, s)
      {
        if s == session {
          assert MembersOf(after, s) == {owner};
        } else {
          assert IsOpen(db, s) && MembersOf(after, s) == MembersOf(db, s);
        }
      }
    }
  }

  lemma CloseKeeps(db: Db, session: SessionId)
    requires Inv(db)
    ensures Inv(CloseIn(db, session))
  {
    var after := CloseIn(db, session);
    forall s | IsOpen(after, s)
      ensures IsMember(after, s, after.sessions[s].owner) && |MembersOf(after, s)| == 1 + GrantsIn(after.log, s)
    {
      assert IsOpen(db, s);
      forall v ensures v in MembersOf(after, s) <==> v in MembersOf(db, s) {
        assert v in MembersOf(after, s) <==> (s, v) in after.members;
        assert v in MembersOf(db, s) <==> (s, v) in db.members;
      }
      assert MembersOf(after, s) == MembersOf(db, s);
    }
  }

  /** Steps that touch neither sessions, members nor grants. */
  lemma SameSeats(db: Db, after: Db)
    requires Inv(db) && after.sessions == db.sessions && after.members == db.members && after.log == db.log
    requires forall t :: t in db.minted ==> t in after.minted
    requires forall t :: t in after.invites ==>
               (t in db.invites && db.invites[t].session == after.invites[t].session) || t !in db.minted
    ensures Inv(after)
  {
    forall s | IsOpen(after, s)
      ensures IsMember(after, s, after.sessions[s].owner) && |MembersOf(after, s)| == 1 + GrantsIn(after.log, s)
    {
      assert IsOpen(db, s) && MembersOf(after, s) == MembersOf(db, s);
    }
  }

  /** A change of role seats nobody anew in an open session. */
  lemma RoleStepKeeps(w: World, pid: Pid)
    requires Inv(w.db) && ChangesStand(w)
    ensures Inv(Next(w, WriteRole(pid)).db)
  {
    if pid in w.changes {
      var after := Next(w, WriteRole(pid)).db;
      forall s | IsOpen(after, s)
        ensures IsMember(after, s, after.sessions[s].owner) && |MembersOf(after, s)| == 1 + GrantsIn(after.log, s)
      {
        assert IsOpen(w.db, s);
        forall v ensures v in MembersOf(after, s) <==> v in MembersOf(w.db, s) {
          assert v in MembersOf(after, s) <==> (s, v) in after.members;
          assert v in MembersOf(w.db, s) <==> (s, v) in w.db.members;
        }
        assert MembersOf(after, s) == MembersOf(w.db, s);
      }
    }
  }

  lemma CallStepKeeps(w: World, pid: Pid, input: Input)
    requires Inv(w.db) && Consistent(w)
    ensures Inv(Next(w, Advance(pid, input)).db)
  {
    hide StepCall, Seated, Rooted, GrantsStand, NoneTwice, MembersAreUsers, Committed;
    if pid in w.calls && pid in w.phases {
      var granted, identity := StepEffect(w.db, pid, w.calls[pid], w.phases[pid], input);
      if granted {
        GrantKeepsSeats(w.db, pid, w.calls[pid].token, identity);
        GrantKeepsRest(w.db, pid, w.calls[pid].token, identity);
      }
    }
  }

  lemma StepKeeps(w: World, a: Action)
    requires Inv(w.db) && Consistent(w)
    ensures Inv(Next(w, a).db)
  {
    hide StepCall, OpenIn, CloseIn, Inv, MembersAreUsers;
    match a
    case OpenSession(session, owner) => OpenKeeps(w.db, session, owner);
    case Close(session) => CloseKeeps(w.db, session);
    case Advance(pid, input) => CallStepKeeps(w, pid, input);
    case WriteRole(pid) => RoleStepKeeps(w, pid);
    case _ => SameSeats(w.db, Next(w, a).db);
  }

  lemma {:induction false} RunKeepsSeats(w: World, actions: seq<Action>)
    requires Inv(w.db) && Consistent(w)
    ensures Inv(Run(w, actions).db)
    decreases |actions|
  {
    if actions != [] {
      hide Next, Inv, Consistent;
      StepKeeps(w, actions[0]);
      AnyStepKeeps(w, actions[0]);
      RunKeepsSeats(Next(w, actions[0]), actions[1..]);
    }
  }

  // ---- main results ----

  /** In every interleaving each open session has its owner and one member for each grant,
      and nobody was ever granted the same membership twice. */
  lemma MembersAreGrants(actions: seq<Action>, session: SessionId)
    ensures var db := Run(EMPTY, actions).db;
            && (IsOpen(db, session) ==> |MembersOf(db, session)| == 1 + GrantsIn(db.log, session))
            && NoneTwice(db.log)
  {
    RunKeepsSeats(EMPTY, actions);
  }

  lemma {:induction false} UsesAreRedeemers(log: seq<Grant>, token: Token, session: SessionId)
    requires NoneTwice(log) && forall i :: 0 <= i < |log| && log[i].token == token ==> log[i].session == session
    ensures |Redeemers(log, token)| == Uses(log, token)
  {
    if log == [] {
      assert Redeemers(log, token) == {};
    } else {
      var front, g := log[..|log| - 1], log[|log| - 1];
      UsesAreRedeemers(front, token, session);
      if g.token == token && g.user in Redeemers(front, token) {
        var i := RedeemerHasGrant(front, token, g.user);
      }
    }
  }

  lemma RedeemersAreMembers(db: Db, token: Token)
    requires GrantsStand(db) && token in db.invites && IsOpen(db, db.invites[token].session)
    ensures Redeemers(db.log, token) <= MembersOf(db, db.invites[token].session)
  {
    var s := db.invites[token].session;
    forall u | u in Redeemers(db.log, token) ensures u in MembersOf(db, s) {
      var i := RedeemerHasGrant(db.log, token, u);
      assert (s, u) in db.members;
    }
  }

  /** An invite's use count is the number of distinct users it made members, within its
      limit of at most 100; while the session is open they are all members of it. */
  lemma UsedIsMembersMade(actions: seq<Action>, token: Token)
    ensures var db := Run(EMPTY, actions).db;
            token in db.invites ==>
              var invite := db.invites[token];
              && invite.usedCount == |Redeemers(db.log, token)| <= invite.maxUses <= MAX_INVITE_USES
              && (IsOpen(db, invite.session) ==> Redeemers(db.log, token) <= MembersOf(db, invite.session))
  {
    hide Run;
    UsesAreGrants(actions, token);
    RunKeepsSeats(EMPTY, actions);
    var db := Run(EMPTY, actions).db;
    if token in db.invites {
      UsesAreRedeemers(db.log, token, db.invites[token].session);
      if IsOpen(db, db.invites[token].session) {
        RedeemersAreMembers(db, token);
      }
    }
  }
}
