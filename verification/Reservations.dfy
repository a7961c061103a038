/** Expired reservations are collected lazily, by whichever reader or reaper tick
    comes first. The schedule of those sweeps must not be observable in the
    per-target counts the reload guard reads. */
module Reservations {
  import opened Protocol
  import opened SessionHub

  datatype Op =
    | Tick(d: nat)
    | ReserveSlot(id: SessionId, target: string)
    | ReleaseSlot(id: SessionId)
    | PutLive(id: SessionId, live: LiveSession)
    | Remove(id: SessionId)
    | Sweep

  datatype Clocked = Clocked(sessions: Sessions, now: Instant)

  /** One operation; with `collect` off, sweeps do nothing. */
  function Next(s: Clocked, op: Op, ttl: nat, collect: bool): Clocked {
    match op
    case Tick(d) => s.(now := s.now + d)
    case ReserveSlot(id, target) => s.(sessions := Reserve(s.sessions, id, target, s.now))
    case ReleaseSlot(id) => s.(sessions := Release(s.sessions, id))
    case PutLive(id, live) => s.(sessions := s.sessions[id := Live(live)])
    case Remove(id) => s.(sessions := s.sessions - {id})
    case Sweep => if collect then s.(sessions := GcExpired(s.sessions, s.now, ttl)) else s
  }

  function Run(ops: seq<Op>, ttl: nat, collect: bool): Clocked {
    if ops == [] then Clocked(map[], 0)
    else Next(Run(ops[..|ops| - 1], ttl, collect), ops[|ops| - 1], ttl, collect)
  }

  /** The swept map is the unswept one minus some expired reservations. */
  ghost predicate Related(c: Clocked, u: Clocked, ttl: nat) {
    && c.now == u.now
    && (forall id :: id in c.sessions ==> id in u.sessions && c.sessions[id] == u.sessions[id])
    && (forall id :: id in u.sessions && id !in c.sessions ==> ExpiredPending(u.sessions[id], u.now, ttl))
  }

  predicate Revives(u: Clocked, op: Op, ttl: nat) {
    op.ReserveSlot? && op.id in u.sessions && ExpiredPending(u.sessions[op.id], u.now, ttl)
  }

  lemma NextRelated(c: Clocked, u: Clocked, op: Op, ttl: nat)
    requires Related(c, u, ttl) && !Revives(u, op, ttl)
    ensures Related(Next(c, op, ttl, true), Next(u, op, ttl, false), ttl)
  {
  }

  ghost predicate NeverRevives(ops: seq<Op>, ttl: nat) {
    forall i {:trigger ops[i]} :: 0 <= i < |ops| ==> !Revives(Run(ops[..i], ttl, false), ops[i], ttl)
  }

  lemma {:induction false} RunRelated(ops: seq<Op>, ttl: nat)
    requires NeverRevives(ops, ttl)
    ensures Related(Run(ops, ttl, true), Run(ops, ttl, false), ttl)
  {
    if ops != [] {
      var front := ops[..|ops| - 1];
      forall i {:trigger front[i]} | 0 <= i < |front| ensures !Revives(Run(front[..i], ttl, false), front[i], ttl) {
        assert front[..i] == ops[..i] && front[i] == ops[i];
      }
      RunRelated(front, ttl);
      assert !Revives(Run(ops[..|ops| - 1], ttl, false), ops[|ops| - 1], ttl);
      NextRelated(Run(front, ttl, true), Run(front, ttl, false), ops[|ops| - 1], ttl);
    }
  }

  /** Whatever the schedule of sweeps, a count sees what filtering a
      never-collected map by age would show. */
  lemma SweepsAreInvisible(ops: seq<Op>, ttl: nat, target: string)
    requires NeverRevives(ops, ttl)
    ensures var c, u := Run(ops, ttl, true), Run(ops, ttl, false);
            && GcExpired(c.sessions, c.now, ttl) == GcExpired(u.sessions, u.now, ttl)
            && |SessionsOn(GcExpired(c.sessions, c.now, ttl), target)|
               == |set id | id in u.sessions && !ExpiredPending(u.sessions[id], u.now, ttl)
                             && TargetOf(u.sessions[id]) == target|
  {
    RunRelated(ops, ttl);
    var c, u := Run(ops, ttl, true), Run(ops, ttl, false);
    assert GcExpired(c.sessions, c.now, ttl) == GcExpired(u.sessions, u.now, ttl);
    assert SessionsOn(GcExpired(c.sessions, c.now, ttl), target)
        == set id | id in u.sessions && !ExpiredPending(u.sessions[id], u.now, ttl)
                      && TargetOf(u.sessions[id]) == target;
  }

  // ---- reserving each id once is enough ----

  ghost predicate ReservedOnce(ops: seq<Op>) {
    forall i, j :: 0 <= i < j < |ops| && ops[i].ReserveSlot? && ops[j].ReserveSlot? ==> ops[i].id != ops[j].id
  }

  lemma {:induction false} PendingWasReserved(ops: seq<Op>, ttl: nat, id: SessionId) returns (i: nat)
    requires id in Run(ops, ttl, false).sessions && Run(ops, ttl, false).sessions[id].Pending?
    ensures i < |ops| && ops[i].ReserveSlot? && ops[i].id == id
  {
    var front, last := ops[..|ops| - 1], ops[|ops| - 1];
    var before := Run(front, ttl, false);
    if id in before.sessions && before.sessions[id].Pending? {
      i := PendingWasReserved(front, ttl, id);
    } else {
      i := |ops| - 1;
    }
  }

  lemma ReservedOnceNeverRevives(ops: seq<Op>, ttl: nat)
    requires ReservedOnce(ops)
    ensures NeverRevives(ops, ttl)
  {
    forall i {:trigger ops[i]} | 0 <= i < |ops| ensures !Revives(Run(ops[..i], ttl, false), ops[i], ttl) {
      if Revives(Run(ops[..i], ttl, false), ops[i], ttl) {
        var k := PendingWasReserved(ops[..i], ttl, ops[i].id);
        assert false;
      }
    }
  }

  lemma RunSnoc(ops: seq<Op>, op: Op, ttl: nat, collect: bool)
    ensures Run(ops + [op], ttl, collect) == Next(Run(ops, ttl, collect), op, ttl, collect)
  {
    assert (ops + [op])[..|ops|] == ops;
  }

  /** Reserving an expired id again shows whether a sweep ran in between. */
  lemma RevivalIsVisible(id: SessionId, target: string, ttl: nat)
    requires ttl > 0
    ensures var ops := [ReserveSlot(id, target)] + [Tick(ttl)] + [Sweep] + [ReserveSlot(id, target)];
            && id in GcExpired(Run(ops, ttl, true).sessions, Run(ops, ttl, true).now, ttl)
            && id !in GcExpired(Run(ops, ttl, false).sessions, Run(ops, ttl, false).now, ttl)
  {
    var reserve := ReserveSlot(id, target);
    forall collect: bool
      ensures Run([reserve] + [Tick(ttl)], ttl, collect) == Clocked(map[id := Pending(target, 0)], ttl)
    {
      assert Run([reserve], ttl, collect) == Clocked(map[id := Pending(target, 0)], 0);
      RunSnoc([reserve], Tick(ttl), ttl, collect);
    }
    RunSnoc([reserve] + [Tick(ttl)], Sweep, ttl, true);
    RunSnoc([reserve] + [Tick(ttl)], Sweep, ttl, false);
    RunSnoc([reserve] + [Tick(ttl)] + [Sweep], reserve, ttl, true);
    RunSnoc([reserve] + [Tick(ttl)] + [Sweep], reserve, ttl, false);
  }
}
