/** Invite tokens: minting, and redemption as a transaction behind several reads. */
module Invites {

  import opened Protocol

  const MAX_INVITE_USES := 100
  const MAX_INVITE_TTL_SECS := 7 * 24 * 60 * 60
  const GUEST_NAME_MAX_ATTEMPTS := 5

  type Token = nat
  type Pid = nat
  type Instant = nat

  datatype Invite = Invite(session: SessionId, role: Role, maxUses: nat, usedCount: nat, expiresAt: Option<Instant>)

  /** A committed redemption: which call made which user a member of which session. */
  datatype Grant = Grant(token: Token, session: SessionId, user: UserId, pid: Pid)

  datatype Session = Session(owner: UserId, open: bool)

  /** `members` holds the participants that have not left, `names` the users. `minted`
      and `log` are history: the use limit of every token ever minted, and all grants. */
  datatype Db = Db(
    invites: map<Token, Invite>, sessions: map<SessionId, Session>, members: map<(SessionId, UserId), Role>,
    names: map<UserId, string>, minted: map<Token, nat>, log: seq<Grant>)

  datatype Error =
    | InvalidToken | Expired | SessionClosed | SessionNotFound | UserNotFound | NameTaken | PermissionDenied

  predicate IsOpen(db: Db, session: SessionId) { session in db.sessions && db.sessions[session].open }

  predicate IsMember(db: Db, session: SessionId, user: UserId) { (session, user) in db.members }

  // ---- minting ----

  /** The three ways to give an expiry; seconds since a common origin. */
  datatype Params = Params(
    role: Role, maxUses: int, inMinutes: Option<int>, inSecs: Option<int>, at: Option<Instant>)

  datatype Expiry = Resolved(at: Option<Instant>) | Rejected

  function Clamped(now: Instant, secs: nat): Instant {
    now + if secs < MAX_INVITE_TTL_SECS then secs else MAX_INVITE_TTL_SECS
  }

  /** An absolute expiry out of range is rejected, a relative one is clamped. */
  function ResolveExpiry(p: Params, now: Instant): (r: Expiry)
    ensures r.Resolved? && r.at.Some? ==> now < r.at.value <= now + MAX_INVITE_TTL_SECS
    ensures r.Resolved? && r.at.None? <==> p.at.None? && p.inSecs.None? && p.inMinutes.None?
    ensures p.at.Some? ==> (r.Resolved? <==> now < p.at.value <= now + MAX_INVITE_TTL_SECS)
    ensures p.at.None? && p.inSecs.Some? ==> (r.Resolved? <==> p.inSecs.value > 0)
    ensures p.at.None? && p.inSecs.None? && p.inMinutes.Some? ==> (r.Resolved? <==> p.inMinutes.value > 0)
    ensures p.at.None? && p.inSecs.Some? && p.inSecs.value > MAX_INVITE_TTL_SECS ==>
              r == Resolved(Some(now + MAX_INVITE_TTL_SECS))
    ensures p.at.None? && p.inSecs.None? && p.inMinutes.Some? && 60 * p.inMinutes.value > MAX_INVITE_TTL_SECS ==>
              r == Resolved(Some(now + MAX_INVITE_TTL_SECS))
    ensures p.at.Some? && r.Resolved? ==> r.at == p.at
    ensures p.at.None? && p.inSecs.Some? && 0 < p.inSecs.value <= MAX_INVITE_TTL_SECS ==>
              r == Resolved(Some(now + p.inSecs.value))
    ensures p.at.None? && p.inSecs.None? && p.inMinutes.Some? && 0 < 60 * p.inMinutes.value <= MAX_INVITE_TTL_SECS ==>
              r == Resolved(Some(now + 60 * p.inMinutes.value))
  {
    if p.at.Some? then
      if p.at.value <= now || p.at.value > now + MAX_INVITE_TTL_SECS then Rejected else Resolved(p.at)
    else if p.inSecs.Some? then
      if p.inSecs.value <= 0 then Rejected else Resolved(Some(Clamped(now, p.inSecs.value)))
    else if p.inMinutes.Some? then
      if p.inMinutes.value <= 0 then Rejected else Resolved(Some(Clamped(now, 60 * p.inMinutes.value)))
    else Resolved(None)
  }

  predicate WithinPolicy(p: Params, now: Instant) {
    !p.role.Owner? && 1 <= p.maxUses <= MAX_INVITE_USES && ResolveExpiry(p, now).Resolved?
  }

  /** The insert at the end of `create`. That the session was open and owned by the caller
      was checked earlier and may no longer hold; `token` is random, so never used before. */
  function Mint(db: Db, session: SessionId, p: Params, now: Instant, token: Token): Db {
    if WithinPolicy(p, now) && token !in db.minted then
      db.(invites := db.invites[token := Invite(session, p.role, p.maxUses, 0, ResolveExpiry(p, now).at)],
          minted := db.minted[token := p.maxUses])
    else db
  }

  // ---- the redemption transaction ----

  datatype Identity = Existing(user: UserId) | NewGuest(id: UserId, name: string)

  datatype Outcome =
    | Granted(session: SessionId, role: Role)
    | WasMember(session: SessionId, role: Role)
    | Refused(error: Error)

  /** The condition of the counting update. */
  predicate Consumable(db: Db, token: Token, identity: Identity, now: Instant) {
    && token in db.invites
    && var invite := db.invites[token];
       && invite.usedCount < invite.maxUses
       && (invite.expiresAt.Some? ==> invite.expiresAt.value > now)
       && IsOpen(db, invite.session)
       && (identity.Existing? ==> !IsMember(db, invite.session, identity.user))
  }

  /** The user can be found, or the guest be inserted. */
  predicate IdentityFits(db: Db, identity: Identity) {
    match identity
    case Existing(user) => user in db.names
    case NewGuest(id, name) => id !in db.names && name !in db.names.Values
  }

  function UserOf(identity: Identity): UserId {
    match identity
    case Existing(user) => user
    case NewGuest(id, _) => id
  }

  function Committed(db: Db, pid: Pid, token: Token, identity: Identity): Db
    requires token in db.invites
  {
    var invite := db.invites[token];
    var user := UserOf(identity);
    db.(invites := db.invites[token := invite.(usedCount := invite.usedCount + 1)],
        members := db.members[(invite.session, user) := invite.role],
        names := if identity.NewGuest? then db.names[user := identity.name] else db.names,
        log := db.log + [Grant(token, invite.session, user, pid)])
  }

  /** Why nothing was updated; `later` is a second reading of the clock. */
  function Diagnosis(db: Db, token: Token, identity: Identity, later: Instant): Outcome {
    if token !in db.invites then Refused(InvalidToken)
    else
      var invite := db.invites[token];
      if invite.session !in db.sessions then Refused(SessionNotFound)
      else if !db.sessions[invite.session].open then Refused(SessionClosed)
      else if identity.Existing? && IsMember(db, invite.session, identity.user) && identity.user in db.names then
        WasMember(invite.session, invite.role)
      else if invite.expiresAt.Some? && invite.expiresAt.value < later then Refused(Expired)
      else Refused(InvalidToken)
  }

  datatype Tx = Tx(db: Db, outcome: Outcome)

  function RedeemTx(db: Db, pid: Pid, token: Token, identity: Identity, now: Instant, later: Instant): Tx {
    if !Consumable(db, token, identity, now) then Tx(db, Diagnosis(db, token, identity, later))
    else if !IdentityFits(db, identity) then
      Tx(db, Refused(if identity.Existing? then UserNotFound else NameTaken))
    else Tx(Committed(db, pid, token, identity), Granted(db.invites[token].session, db.invites[token].role))
  }

  // ---- the call around it ----

  datatype Caller = Caller(user: UserId, scope: Option<SessionId>)

  datatype Call = Call(caller: Option<Caller>, token: Token)

  datatype Result =
    | Joined(session: SessionId, role: Role)
    | NoOp(session: SessionId, role: Role)
    | Failed(error: Error)

  /** A call between its storage accesses: each step sees the database as it is then. */
  datatype Phase =
    | Begun
    | Previewed(session: SessionId)
    | SessionSeen(session: SessionId)
    | Attempting(tries: nat)
    | Ended(result: Result)

  /** What a step takes from outside: clock readings, a fresh id and a random name. */
  datatype Input = Input(now: Instant, later: Instant, guestId: UserId, guestName: string)

  function IdentityOf(caller: Option<Caller>, input: Input): Identity {
    if caller.Some? then Existing(caller.value.user) else NewGuest(input.guestId, input.guestName)
  }

  datatype Stepped = Stepped(db: Db, phase: Phase)

  function ResultOf(outcome: Outcome): Result {
    match outcome
    case Granted(session, role) => Joined(session, role)
    case WasMember(session, role) => NoOp(session, role)
    case Refused(error) => Failed(error)
  }

  function StepCall(db: Db, pid: Pid, call: Call, phase: Phase, input: Input): Stepped {
    match phase
    case Begun =>
      if call.token !in db.invites then Stepped(db, Ended(Failed(InvalidToken)))
      else
        var session := db.invites[call.token].session;
        if call.caller.Some? && call.caller.value.scope.Some? && call.caller.value.scope.value != session
        then Stepped(db, Ended(Failed(PermissionDenied)))
        else Stepped(db, Previewed(session))
    case Previewed(session) =>
      if session !in db.sessions then Stepped(db, Ended(Failed(SessionNotFound)))
      else if !db.sessions[session].open then Stepped(db, Ended(Failed(SessionClosed)))
      else Stepped(db, SessionSeen(session))
    case SessionSeen(session) =>
      if call.caller.Some? && IsOpen(db, session) && IsMember(db, session, call.caller.value.user)
      then Stepped(db, Ended(NoOp(session, db.members[(session, call.caller.value.user)])))
      else Stepped(db, Attempting(0))
    case Attempting(tries) =>
      var tx := RedeemTx(db, pid, call.token, IdentityOf(call.caller, input), input.now, input.later);
      if tx.outcome == Refused(NameTaken) && tries + 1 < GUEST_NAME_MAX_ATTEMPTS
      then Stepped(tx.db, Attempting(tries + 1))
      else Stepped(tx.db, Ended(ResultOf(tx.outcome)))
    case Ended(_) => Stepped(db, phase)
  }

  /** The call on its own, one input for each step. */
  function Alone(db: Db, pid: Pid, call: Call, phase: Phase, inputs: seq<Input>): Stepped
    decreases |inputs|
  {
    if inputs == [] then Stepped(db, phase)
    else
      var next := StepCall(db, pid, call, phase, inputs[0]);
      Alone(next.db, pid, call, next.phase, inputs[1..])
  }

  lemma {:induction false} EndedStays(db: Db, pid: Pid, call: Call, result: Result, inputs: seq<Input>)
    ensures Alone(db, pid, call, Ended(result), inputs) == Stepped(db, Ended(result))
    decreases |inputs|
  {
    if inputs != [] {
      EndedStays(db, pid, call, result, inputs[1..]);
    }
  }

  // ---- exactly when a redemption succeeds ----

  /** The invite exists, has room, has not run out of time and leads to an open session. */
  predicate Usable(db: Db, token: Token, now: Instant) {
    && token in db.invites && db.invites[token].usedCount < db.invites[token].maxUses
    && (db.invites[token].expiresAt.None? || now < db.invites[token].expiresAt.value)
    && db.invites[token].session in db.sessions && db.sessions[db.invites[token].session].open
  }

  /** A known user that is not in the session, or a guest whose id and name are free. */
  predicate Admissible(db: Db, session: SessionId, caller: Option<Caller>, guestId: UserId, guestName: string) {
    match caller
    case Some(c) => c.user in db.names && (session, c.user) !in db.members
    case None => guestId !in db.names && forall u :: u in db.names ==> db.names[u] != guestName
  }

  function Joiner(caller: Option<Caller>, guestId: UserId): UserId {
    if caller.Some? then caller.value.user else guestId
  }

  /** One more use, one more member with the role of the invite, the guest among the users,
      and nothing else. */
  ghost predicate Admitted(before: Db, after: Db, pid: Pid, token: Token, caller: Option<Caller>, guestId: UserId,
                           guestName: string)
    requires token in before.invites
  {
    var invite, user := before.invites[token], Joiner(caller, guestId);
    && after.invites == before.invites[token := invite.(usedCount := invite.usedCount + 1)]
    && after.members == before.members[(invite.session, user) := invite.role]
    && after.names == (if caller.None? then before.names[guestId := guestName] else before.names)
    && after.sessions == before.sessions && after.minted == before.minted
    && after.log == before.log + [Grant(token, invite.session, user, pid)]
  }

  /** The transaction grants exactly a usable invite to an admissible caller, and then just
      that; in every other case it changes nothing. */
  lemma GrantsIff(db: Db, pid: Pid, token: Token, caller: Option<Caller>, input: Input)
    ensures var tx := RedeemTx(db, pid, token, IdentityOf(caller, input), input.now, input.later);
            var fits := Usable(db, token, input.now)
                        && Admissible(db, db.invites[token].session, caller, input.guestId, input.guestName);
            && (tx.outcome.Granted? <==> fits)
            && (fits ==>
                 && tx.outcome == Granted(db.invites[token].session, db.invites[token].role)
                 && Admitted(db, tx.db, pid, token, caller, input.guestId, input.guestName))
            && (!fits ==> tx.db == db)
  {
    if caller.None? {
      NameIsFree(db.names, input.guestName);
    }
  }

  lemma NameIsFree(names: map<UserId, string>, name: string)
    ensures name !in names.Values <==> forall u :: u in names ==> names[u] != name
  {
    if name in names.Values {
      var u :| u in names && names[u] == name;
    }
  }

  /** An expiry asked for in seconds, cut off after a week. */
  predicate WithinSecs(secs: int, minted: Instant, at: Instant) {
    secs > 0 && at < minted + if secs < 604_800 then secs else 604_800
  }

  /** What was asked for on minting is allowed, and `at` lies before the expiry. */
  predicate InTime(p: Params, minted: Instant, at: Instant) {
    match p.at
    case Some(end) => minted < end <= minted + 604_800 && at < end
    case None =>
      match p.inSecs
      case Some(secs) => WithinSecs(secs, minted, at)
      case None => p.inMinutes.Some? ==> WithinSecs(60 * p.inMinutes.value, minted, at)
  }

  /** A token just minted is honoured exactly if no ownership and one to a hundred uses were
      asked for, its time is not up, its session is open and the caller is admissible; then
      with the role asked for. */
  lemma MintedIsHonouredIff(db: Db, session: SessionId, p: Params, minted: Instant, token: Token, pid: Pid,
                            caller: Option<Caller>, input: Input)
    requires token !in db.minted && token !in db.invites
    ensures var after := Mint(db, session, p, minted, token);
            var outcome := RedeemTx(after, pid, token, IdentityOf(caller, input), input.now, input.later).outcome;
            && (outcome.Granted? <==>
                 && p.role != Owner && 1 <= p.maxUses <= 100 && InTime(p, minted, input.now)
                 && session in db.sessions && db.sessions[session].open
                 && Admissible(db, session, caller, input.guestId, input.guestName))
            && (outcome.Granted? ==> outcome == Granted(session, p.role))
  {
    GrantsIff(Mint(db, session, p, minted, token), pid, token, caller, input);
  }

  /** Why a transaction fails: the first of these that applies. */
  lemma RefusalIs(db: Db, pid: Pid, token: Token, caller: Option<Caller>, input: Input)
    ensures var outcome := RedeemTx(db, pid, token, IdentityOf(caller, input), input.now, input.later).outcome;
            !outcome.Granted? ==>
              outcome ==
                if token !in db.invites then Refused(InvalidToken)
                else
                  var invite := db.invites[token];
                  if invite.session !in db.sessions then Refused(SessionNotFound)
                  else if !db.sessions[invite.session].open then Refused(SessionClosed)
                  else if caller.Some? && (invite.session, caller.value.user) in db.members
                          && caller.value.user in db.names
                  then WasMember(invite.session, invite.role)
                  else if Usable(db, token, input.now)
                          && (caller.Some? ==> (invite.session, caller.value.user) !in db.members)
                  then Refused(if caller.Some? then UserNotFound else NameTaken)
                  else if invite.expiresAt.Some? && invite.expiresAt.value < input.later then Refused(Expired)
                  else Refused(InvalidToken)
  {
    if caller.None? {
      NameIsFree(db.names, input.guestName);
    }
  }

  /** The caller's token is for another session than that of the invite. */
  predicate OutOfScope(db: Db, caller: Option<Caller>, token: Token) {
    && token in db.invites && caller.Some? && caller.value.scope.Some?
    && caller.value.scope.value != db.invites[token].session
  }

  /** Attempt `k` succeeds, all earlier ones having found their guest's id or name taken. */
  predicate SucceedsAt(db: Db, caller: Option<Caller>, token: Token, inputs: seq<Input>, k: nat) {
    && k < |inputs| && Usable(db, token, inputs[k].now)
    && Admissible(db, db.invites[token].session, caller, inputs[k].guestId, inputs[k].guestName)
    && (k > 0 ==> caller.None?)
    && forall j :: 0 <= j < k ==>
         && Usable(db, token, inputs[j].now)
         && !Admissible(db, db.invites[token].session, caller, inputs[j].guestId, inputs[j].guestName)
  }

  /** What an undisturbed call does and answers; its attempts come after three reads. */
  ghost predicate RedeemedAs(before: Db, after: Db, pid: Pid, caller: Option<Caller>, token: Token, inputs: seq<Input>,
                             result: Result)
    requires |inputs| >= 3
  {
    && (result == Failed(PermissionDenied) <==> OutOfScope(before, caller, token))
    && (result.Joined? <==>
         !OutOfScope(before, caller, token) && exists k: nat :: SucceedsAt(before, caller, token, inputs[3..], k))
    && (forall k: nat :: !OutOfScope(before, caller, token) && SucceedsAt(before, caller, token, inputs[3..], k) ==>
         && result == Joined(before.invites[token].session, before.invites[token].role)
         && Admitted(before, after, pid, token, caller, inputs[3 + k].guestId, inputs[3 + k].guestName))
    && (!result.Joined? ==> after == before)
    && (token !in before.invites ==> result == Failed(InvalidToken))
    && (token in before.invites && !OutOfScope(before, caller, token) ==>
         var session := before.invites[token].session;
         && (session !in before.sessions ==> result == Failed(SessionNotFound))
         && (session in before.sessions && !before.sessions[session].open ==> result == Failed(SessionClosed))
         && (session in before.sessions && before.sessions[session].open && caller.Some?
             && (session, caller.value.user) in before.members ==>
               result == NoOp(session, before.members[(session, caller.value.user)])))
  }

  lemma SucceedsLater(db: Db, caller: Option<Caller>, token: Token, inputs: seq<Input>)
    requires inputs != [] && caller.None? && Usable(db, token, inputs[0].now)
    requires !Admissible(db, db.invites[token].session, caller, inputs[0].guestId, inputs[0].guestName)
    ensures forall k: nat :: SucceedsAt(db, caller, token, inputs, k) ==>
              k > 0 && SucceedsAt(db, caller, token, inputs[1..], k - 1)
    ensures forall k: nat :: SucceedsAt(db, caller, token, inputs[1..], k) ==>
              SucceedsAt(db, caller, token, inputs, k + 1)
  {
    hide Usable, Admissible;
    assert forall j :: 0 <= j < |inputs| - 1 ==> inputs[1..][j] == inputs[j + 1];
    forall k: nat | SucceedsAt(db, caller, token, inputs[1..], k) ensures SucceedsAt(db, caller, token, inputs, k + 1) {
      forall j | 0 < j < k + 1 ensures inputs[j] == inputs[1..][j - 1] {
      }
    }
  }

  lemma {:induction false} AttemptsAlone(db: Db, pid: Pid, caller: Option<Caller>, token: Token, tries: nat,
                                         inputs: seq<Input>)
    requires |inputs| == GUEST_NAME_MAX_ATTEMPTS - tries && tries < GUEST_NAME_MAX_ATTEMPTS
    ensures var end := Alone(db, pid, Call(caller, token), Attempting(tries), inputs);
            && end.phase.Ended?
            && (end.phase.result.Joined? <==> exists k: nat :: SucceedsAt(db, caller, token, inputs, k))
            && (forall k: nat :: SucceedsAt(db, caller, token, inputs, k) ==>
                 && end.phase.result == Joined(db.invites[token].session, db.invites[token].role)
                 && Admitted(db, end.db, pid, token, caller, inputs[k].guestId, inputs[k].guestName))
            && (!end.phase.result.Joined? ==> end.db == db)
    ensures Alone(db, pid, Call(caller, token), Attempting(tries), inputs).phase != Ended(Failed(PermissionDenied))
    decreases |inputs|
  {
    var call, input := Call(caller, token), inputs[0];
    var tx := RedeemTx(db, pid, token, IdentityOf(caller, input), input.now, input.later);
    hide RedeemTx;
    GrantsIff(db, pid, token, caller, input);
    RefusalIs(db, pid, token, caller, input);
    assert SucceedsAt(db, caller, token, inputs, 0) <==> tx.outcome.Granted?;
    if tx.outcome == Refused(NameTaken) && tries + 1 < GUEST_NAME_MAX_ATTEMPTS {
      AttemptsAlone(db, pid, caller, token, tries + 1, inputs[1..]);
      SucceedsLater(db, caller, token, inputs);
      if exists k: nat :: SucceedsAt(db, caller, token, inputs[1..], k) {
        var k: nat :| SucceedsAt(db, caller, token, inputs[1..], k);
        assert SucceedsAt(db, caller, token, inputs, k + 1);
      }
    } else {
      EndedStays(tx.db, pid, call, ResultOf(tx.outcome), inputs[1..]);
    }
  }

  /** Undisturbed, a call joins exactly if its caller is in scope and some attempt succeeds,
      and then admits just the one of that attempt. It is denied exactly when out of scope;
      everything else it is told follows from what it finds, and changes nothing. */
  lemma RedeemsAlone(db: Db, pid: Pid, caller: Option<Caller>, token: Token, inputs: seq<Input>)
    requires |inputs| == 3 + GUEST_NAME_MAX_ATTEMPTS
    ensures var end := Alone(db, pid, Call(caller, token), Begun, inputs);
            end.phase.Ended? && RedeemedAs(db, end.db, pid, caller, token, inputs, end.phase.result)
  {
    var call := Call(caller, token);
    assert inputs[1..][1..] == inputs[2..] && inputs[2..][1..] == inputs[3..];
    AttemptsAlone(db, pid, caller, token, 0, inputs[3..]);
    hide RedeemTx;
    if token !in db.invites {
      EndedStays(db, pid, call, Failed(InvalidToken), inputs[1..]);
    } else {
      var session := db.invites[token].session;
      if OutOfScope(db, caller, token) {
        EndedStays(db, pid, call, Failed(PermissionDenied), inputs[1..]);
      } else if session !in db.sessions {
        EndedStays(db, pid, call, Failed(SessionNotFound), inputs[2..]);
      } else if !db.sessions[session].open {
        EndedStays(db, pid, call, Failed(SessionClosed), inputs[2..]);
      } else {
        assert Alone(db, pid, call, Begun, inputs) == Alone(db, pid, call, Previewed(session), inputs[1..]);
        assert Alone(db, pid, call, Previewed(session), inputs[1..])
            == Alone(db, pid, call, SessionSeen(session), inputs[2..]);
        if caller.Some? && IsMember(db, session, caller.value.user) {
          EndedStays(db, pid, call, NoOp(session, db.members[(session, caller.value.user)]), inputs[3..]);
        }
      }
    }
  }

  class InviteService {
    var db: Db

    constructor (db: Db)
      ensures this.db == db
    {
      this.db := db;
    }

    /** `redeem` without interference: the three reads, then the transaction, repeated
        for a guest whose random name is taken. */
    method Redeem(pid: Pid, caller: Option<Caller>, token: Token, inputs: seq<Input>) returns (result: Result)
      requires |inputs| == 3 + 5
      modifies this
      ensures Stepped(db, Ended(result)) == Alone(old(db), pid, Call(caller, token), Begun, inputs)
      ensures RedeemedAs(old(db), db, pid, caller, token, inputs, result)
    {
      RedeemsAlone(db, pid, caller, token, inputs);
      ghost var call := Call(caller, token);
      if token !in db.invites {
        EndedStays(db, pid, call, Failed(InvalidToken), inputs[1..]);
        return Failed(InvalidToken);
      }
      var session := db.invites[token].session;
      if caller.Some? && caller.value.scope.Some? && caller.value.scope.value != session {
        EndedStays(db, pid, call, Failed(PermissionDenied), inputs[1..]);
        return Failed(PermissionDenied);
      }
      ghost var whole := Alone(db, pid, call, Begun, inputs);
      assert whole == Alone(db, pid, call, Previewed(session), inputs[1..]) && inputs[1..][1..] == inputs[2..];
      if session !in db.sessions {
        EndedStays(db, pid, call, Failed(SessionNotFound), inputs[2..]);
        return Failed(SessionNotFound);
      }
      if !db.sessions[session].open {
        EndedStays(db, pid, call, Failed(SessionClosed), inputs[2..]);
        return Failed(SessionClosed);
      }
      assert whole == Alone(db, pid, call, SessionSeen(session), inputs[2..]) && inputs[2..][1..] == inputs[3..];
      if caller.Some? && IsMember(db, session, caller.value.user) {
        var role := db.members[(session, caller.value.user)];
        EndedStays(db, pid, call, NoOp(session, role), inputs[3..]);
        return NoOp(session, role);
      }
      result := Attempt(pid, caller, token, inputs[3..]);
    }

    method Attempt(pid: Pid, caller: Option<Caller>, token: Token, inputs: seq<Input>) returns (result: Result)
      requires |inputs| == 5
      modifies this
      ensures Stepped(db, Ended(result)) == Alone(old(db), pid, Call(caller, token), Attempting(0), inputs)
    {
      ghost var call := Call(caller, token);
      ghost var whole := Alone(db, pid, call, Attempting(0), inputs);
      var i := 0;
      while i < GUEST_NAME_MAX_ATTEMPTS
        invariant 0 <= i <= GUEST_NAME_MAX_ATTEMPTS
        invariant i < GUEST_NAME_MAX_ATTEMPTS ==> Alone(db, pid, call, Attempting(i), inputs[i..]) == whole
        invariant i == GUEST_NAME_MAX_ATTEMPTS ==> whole == Stepped(db, Ended(Failed(NameTaken)))
      {
        var tx := RedeemTx(db, pid, token, IdentityOf(caller, inputs[i]), inputs[i].now, inputs[i].later);
        assert inputs[i..][1..] == inputs[i + 1..];
        db := tx.db;
        if tx.outcome != Refused(NameTaken) {
          EndedStays(db, pid, call, ResultOf(tx.outcome), inputs[i + 1..]);
          return ResultOf(tx.outcome);
        }
        i := i + 1;
      }
      return Failed(NameTaken);
    }
  }

  // ---- runs: calls interleaved with everything else ----

  /** A change of role whose request has passed its checks and not yet written. */
  datatype RoleChange = RoleChange(session: SessionId, user: UserId, role: Role)

  datatype World = World(db: Db, calls: map<Pid, Call>, phases: map<Pid, Phase>, changes: map<Pid, RoleChange>)

  datatype Action =
    | OpenSession(session: SessionId, owner: UserId)
    | Register(user: UserId, name: string)
    | MintInvite(session: SessionId, params: Params, now: Instant, token: Token)
    | Revoke(token: Token)
    | Close(session: SessionId)
    | Arrive(pid: Pid, call: Call)
    | Advance(pid: Pid, input: Input)
    | AskRole(pid: Pid, caller: UserId, change: RoleChange)
    | WriteRole(pid: Pid)

  function OpenIn(db: Db, session: SessionId, owner: UserId): Db {
    if session !in db.sessions && owner in db.names
    then db.(sessions := db.sessions[session := Session(owner, true)], members := db.members[(session, owner) := Owner])
    else db
  }

  function CloseIn(db: Db, session: SessionId): Db {
    if IsOpen(db, session)
    then db.(sessions := db.sessions[session := db.sessions[session].(open := false)],
             members := map k | k in db.members && k.0 != session :: db.members[k])
    else db
  }

  /** The owner of an open session gives another active participant another role, below owner. */
  predicate MayChange(db: Db, caller: UserId, c: RoleChange) {
    && IsOpen(db, c.session) && db.sessions[c.session].owner == caller != c.user && !c.role.Owner?
    && IsMember(db, c.session, c.user) && db.members[(c.session, c.user)] != c.role
  }

  /** The upsert: the participant has the role and has not left, whatever the session. */
  function Seat(db: Db, c: RoleChange): Db {
    db.(members := db.members[(c.session, c.user) := c.role])
  }

  function DbNext(db: Db, a: Action): Db {
    match a
    case OpenSession(session, owner) => OpenIn(db, session, owner)
    case Register(user, name) =>
      if user !in db.names && name !in db.names.Values then db.(names := db.names[user := name]) else db
    case MintInvite(session, params, now, token) => Mint(db, session, params, now, token)
    case Revoke(token) => db.(invites := db.invites - {token})
    case Close(session) => CloseIn(db, session)
    case _ => db
  }

  function Next(w: World, a: Action): World {
    match a
    case Arrive(pid, call) =>
      if pid in w.calls then w else w.(calls := w.calls[pid := call], phases := w.phases[pid := Begun])
    case Advance(pid, input) =>
      if pid !in w.calls || pid !in w.phases then w
      else
        var next := StepCall(w.db, pid, w.calls[pid], w.phases[pid], input);
        w.(db := next.db, phases := w.phases[pid := next.phase])
    case AskRole(pid, caller, change) =>
      if pid !in w.changes && MayChange(w.db, caller, change) then w.(changes := w.changes[pid := change]) else w
    case WriteRole(pid) =>
      if pid in w.changes then w.(db := Seat(w.db, w.changes[pid]), changes := w.changes - {pid}) else w
    case _ => w.(db := DbNext(w.db, a))
  }

  function Run(w: World, actions: seq<Action>): World
    decreases |actions|
  {
    if actions == [] then w else Run(Next(w, actions[0]), actions[1..])
  }

  const EMPTY := World(Db(map[], map[], map[], map[], map[], []), map[], map[], map[])

  // ---- conservation ----

  function Uses(log: seq<Grant>, token: Token): nat
    decreases |log|
  {
    if log == [] then 0
    else Uses(log[..|log| - 1], token) + if log[|log| - 1].token == token then 1 else 0
  }

  function GrantsBy(log: seq<Grant>, pid: Pid): nat
    decreases |log|
  {
    if log == [] then 0
    else GrantsBy(log[..|log| - 1], pid) + if log[|log| - 1].pid == pid then 1 else 0
  }

  function GrantsIn(log: seq<Grant>, session: SessionId): nat
    decreases |log|
  {
    if log == [] then 0
    else GrantsIn(log[..|log| - 1], session) + if log[|log| - 1].session == session then 1 else 0
  }

  lemma Logged(log: seq<Grant>, g: Grant)
    ensures forall t :: Uses(log + [g], t) == Uses(log, t) + if g.token == t then 1 else 0
    ensures forall p :: GrantsBy(log + [g], p) == GrantsBy(log, p) + if g.pid == p then 1 else 0
    ensures forall s :: GrantsIn(log + [g], s) == GrantsIn(log, s) + if g.session == s then 1 else 0
  {
    assert (log + [g])[..|log|] == log;
  }

  /** What holds for every token: its uses are its grants and stay within its limit. */
  ghost predicate Conserved(db: Db) {
    && (forall t :: t !in db.minted ==> Uses(db.log, t) == 0 && t !in db.invites)
    && (forall t :: t in db.minted ==> Uses(db.log, t) <= db.minted[t] <= MAX_INVITE_USES)
    && (forall t :: t in db.invites && t in db.minted ==>
         db.invites[t].maxUses == db.minted[t] && db.invites[t].usedCount == Uses(db.log, t))
  }

  predicate HasJoined(phases: map<Pid, Phase>, pid: Pid) {
    pid in phases && phases[pid].Ended? && phases[pid].result.Joined?
  }

  /** A call has granted one membership if it ended by joining, and none otherwise. */
  ghost predicate OneEach(w: World) {
    && w.phases.Keys == w.calls.Keys
    && (forall p :: GrantsBy(w.db.log, p) == if HasJoined(w.phases, p) then 1 else 0)
    && (forall p :: p in w.phases && w.phases[p].Attempting? ==> w.phases[p].tries < GUEST_NAME_MAX_ATTEMPTS)
  }

  /** Members are users, so a new guest is nobody's member yet. */
  ghost predicate MembersAreUsers(db: Db) {
    forall s, u :: (s, u) in db.members ==> u in db.names
  }

  /** Whoever is to get another role is a user, and an active participant while the session is open. */
  ghost predicate ChangesStand(w: World) {
    forall p :: p in w.changes ==>
      var c := w.changes[p];
      && c.user in w.db.names && c.session in w.db.sessions
      && (IsOpen(w.db, c.session) ==> IsMember(w.db, c.session, c.user))
      && !c.role.Owner? && c.user != w.db.sessions[c.session].owner
  }

  ghost predicate Consistent(w: World) {
    Conserved(w.db) && OneEach(w) && MembersAreUsers(w.db) && ChangesStand(w)
  }

  /** Room for one more use, an open session, and a user who is not yet a member. */
  ghost predicate Grantable(db: Db, token: Token, user: UserId) {
    && token in db.invites && db.invites[token].usedCount < db.invites[token].maxUses
    && IsOpen(db, db.invites[token].session) && !IsMember(db, db.invites[token].session, user)
  }

  /** Everything a step of a call can do to the database: nothing, or one new membership
      for one use, and then the call ends by joining. */
  lemma StepEffect(db: Db, pid: Pid, call: Call, phase: Phase, input: Input) returns (granted: bool, identity: Identity)
    requires MembersAreUsers(db)
    ensures var next := StepCall(db, pid, call, phase, input);
            if granted then
              && Grantable(db, call.token, UserOf(identity))
              && next.db == Committed(db, pid, call.token, identity)
              && next.phase == Ended(Joined(db.invites[call.token].session, db.invites[call.token].role))
              && phase.Attempting? && IdentityFits(db, identity)
            else
              next.db == db && (next.phase.Ended? && next.phase.result.Joined? ==> next.phase == phase)
    ensures phase.Ended? ==> StepCall(db, pid, call, phase, input).phase == phase
    ensures var next := StepCall(db, pid, call, phase, input).phase;
            next.Attempting? ==> next.tries < GUEST_NAME_MAX_ATTEMPTS
  {
    identity := IdentityOf(call.caller, input);
    granted := phase.Attempting? && RedeemTx(db, pid, call.token, identity, input.now, input.later).outcome.Granted?;
  }

  lemma ConservedAfterGrant(db: Db, pid: Pid, token: Token, identity: Identity)
    requires Conserved(db) && token in db.invites && db.invites[token].usedCount < db.invites[token].maxUses
    ensures Conserved(Committed(db, pid, token, identity))
  {
    Logged(db.log, Grant(token, db.invites[token].session, UserOf(identity), pid));
  }

  lemma CallKeeps(w: World, pid: Pid, input: Input)
    requires Consistent(w)
    ensures Consistent(Next(w, Advance(pid, input)))
  {
    if pid in w.calls {
      var granted, identity := StepEffect(w.db, pid, w.calls[pid], w.phases[pid], input);
      if granted {
        var token := w.calls[pid].token;
        ConservedAfterGrant(w.db, pid, token, identity);
        OneEachAfterGrant(w, pid, token, identity);
      }
    }
  }

  lemma OneEachAfterGrant(w: World, pid: Pid, token: Token, identity: Identity)
    requires OneEach(w) && pid in w.phases && !w.phases[pid].Ended? && Grantable(w.db, token, UserOf(identity))
    ensures var invite := w.db.invites[token];
            OneEach(w.(db := Committed(w.db, pid, token, identity),
                       phases := w.phases[pid := Ended(Joined(invite.session, invite.role))]))
  {
    Logged(w.db.log, Grant(token, w.db.invites[token].session, UserOf(identity), pid));
  }

  lemma OtherKeeps(w: World, a: Action)
    requires Consistent(w) && !a.Advance?
    ensures Consistent(Next(w, a))
  {
    if !a.AskRole? && !a.WriteRole? {
      DbStepKeeps(w, a);
    }
  }

  lemma DbStepKeeps(w: World, a: Action)
    requires Consistent(w) && !a.Advance? && !a.AskRole? && !a.WriteRole?
    ensures Consistent(Next(w, a))
  {
  }

  lemma AnyStepKeeps(w: World, a: Action)
    requires Consistent(w)
    ensures Consistent(Next(w, a))
  {
    hide Next, Consistent;
    if a.Advance? {
      CallKeeps(w, a.pid, a.input);
    } else {
      OtherKeeps(w, a);
    }
  }

  lemma {:induction false} RunSnoc(w: World, actions: seq<Action>, a: Action)
    ensures Run(w, actions + [a]) == Next(Run(w, actions), a)
    decreases |actions|
  {
    hide Next;
    if actions == [] {
      assert actions + [a] == [a] && [a][1..] == [];
    } else {
      RunSnoc(Next(w, actions[0]), actions[1..], a);
      assert (actions + [a])[1..] == actions[1..] + [a];
    }
  }

  lemma {:induction false} RunKeeps(w: World, actions: seq<Action>)
    requires Consistent(w)
    ensures Consistent(Run(w, actions))
    decreases |actions|
  {
    if actions != [] {
      AnyStepKeeps(w, actions[0]);
      RunKeeps(Next(w, actions[0]), actions[1..]);
    }
  }

  /** In every interleaving an invite has been used exactly as often as it was redeemed,
      never more often than its limit, and its limit is at most 100. */
  lemma UsesAreGrants(actions: seq<Action>, token: Token)
    ensures var db := Run(EMPTY, actions).db;
            && Uses(db.log, token) <= MAX_INVITE_USES
            && (token in db.invites ==>
                 db.invites[token].usedCount == Uses(db.log, token) <= db.invites[token].maxUses <= MAX_INVITE_USES)
  {
    RunKeeps(EMPTY, actions);
  }

  /** A call to redeem grants one membership if it reports a new one, and none if it
      fails, finds its caller a member already, or has not finished: so neither members
      nor failed guest names use anything up. */
  lemma OneGrantPerCall(actions: seq<Action>, pid: Pid)
    ensures var w := Run(EMPTY, actions);
            GrantsBy(w.db.log, pid) == if HasJoined(w.phases, pid) then 1 else 0
  {
    RunKeeps(EMPTY, actions);
  }

  // ---- closed sessions ----

  predicate IsClosed(db: Db, session: SessionId) { session in db.sessions && !db.sessions[session].open }

  lemma ClosedStep(w: World, a: Action, session: SessionId)
    requires IsClosed(w.db, session) && MembersAreUsers(w.db)
    ensures IsClosed(Next(w, a).db, session)
    ensures GrantsIn(Next(w, a).db.log, session) == GrantsIn(w.db.log, session)
  {
    if a.Advance? && a.pid in w.calls && a.pid in w.phases {
      var granted, identity := StepEffect(w.db, a.pid, w.calls[a.pid], w.phases[a.pid], a.input);
      if granted {
        var token := w.calls[a.pid].token;
        Logged(w.db.log, Grant(token, w.db.invites[token].session, UserOf(identity), a.pid));
      }
    }
  }

  lemma {:induction false} ClosedRun(w: World, actions: seq<Action>, session: SessionId)
    requires IsClosed(w.db, session) && Consistent(w)
    ensures IsClosed(Run(w, actions).db, session)
    ensures GrantsIn(Run(w, actions).db.log, session) == GrantsIn(w.db.log, session)
    decreases |actions|
  {
    if actions != [] {
      ClosedStep(w, actions[0], session);
      AnyStepKeeps(w, actions[0]);
      ClosedRun(Next(w, actions[0]), actions[1..], session);
    }
  }

  /** Nothing is granted in a closed session, however far a call had come when it was closed. */
  lemma NothingAfterClose(before: seq<Action>, after: seq<Action>, session: SessionId)
    requires IsOpen(Run(EMPTY, before).db, session)
    ensures var w := Next(Run(EMPTY, before), Close(session));
            GrantsIn(Run(w, after).db.log, session) == GrantsIn(w.db.log, session)
  {
    RunKeeps(EMPTY, before);
    OtherKeeps(Run(EMPTY, before), Close(session));
    ClosedRun(Next(Run(EMPTY, before), Close(session)), after, session);
  }

  // ---- what the caller is told ----

  /** An invite that has only run out of time is reported as expired except at the very
      instant of its expiry: then it is refused as if it had never existed. */
  lemma ReportedExpiredIff(db: Db, pid: Pid, token: Token, identity: Identity, now: Instant, later: Instant)
    requires token in db.invites && IsOpen(db, db.invites[token].session)
    requires identity.Existing? ==> !IsMember(db, db.invites[token].session, identity.user)
    requires db.invites[token].expiresAt.Some? && db.invites[token].expiresAt.value <= now <= later
    ensures var outcome := RedeemTx(db, pid, token, identity, now, later).outcome;
            && outcome.Refused?
            && (outcome.error == Expired <==> db.invites[token].expiresAt.value < later)
            && (outcome.error != Expired ==>
                 outcome.error == InvalidToken && db.invites[token].expiresAt == Some(later))
  {
  }

  /** The role reported is the role held, except that a caller who lost a race against
      another of its own calls is told the invite's role: right exactly if the two agree. */
  lemma ReportedRoleIff(db: Db, pid: Pid, call: Call, phase: Phase, input: Input)
    requires !phase.Ended?
    ensures var next := StepCall(db, pid, call, phase, input);
            next.phase.Ended? && next.phase.result.Joined? ==>
              exists u :: IsMember(next.db, next.phase.result.session, u)
                       && next.db.members[(next.phase.result.session, u)] == next.phase.result.role
    ensures var next := StepCall(db, pid, call, phase, input);
            next.phase.Ended? && next.phase.result.NoOp? ==>
              && call.caller.Some? && IsMember(db, next.phase.result.session, call.caller.value.user)
              && var held := db.members[(next.phase.result.session, call.caller.value.user)];
                 (next.phase.result.role == held
                  <==> (phase.Attempting? ==> call.token in db.invites && db.invites[call.token].role == held))
  {
    var next := StepCall(db, pid, call, phase, input);
    if next.phase.Ended? && next.phase.result.Joined? {
      var user := if call.caller.Some? then call.caller.value.user else input.guestId;
      assert IsMember(next.db, next.phase.result.session, user);
    }
  }
}
