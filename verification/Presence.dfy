/** Presence is event-sourced: the participant list is the fold of the broadcast
    collaboration messages, on the hub and in every client alike. */
module Presence {
  import opened Protocol

  type Participants = map<UserId, ParticipantInfo>

  /** How a client folds one message into its participant list. */
  function Apply(p: Participants, m: CollabMessage): Participants {
    match m
    case PeerJoined(u, info) => p[u := info]
    case PeerLeft(u) => p - {u}
    case PeerEvicted(u, _) => p - {u}
    case PeerRoleChanged(u, r) => if u in p then p[u := p[u].(role := r)] else p
    case _ => p
  }

  function Replay(p: Participants, log: seq<CollabMessage>): Participants
    decreases |log|
  {
    if log == [] then p else Replay(Apply(p, log[0]), log[1..])
  }

  lemma {:induction false} ReplayConcat(p: Participants, a: seq<CollabMessage>, b: seq<CollabMessage>)
    ensures Replay(p, a + b) == Replay(Replay(p, a), b)
    decreases |a|
  {
    if a == [] {
      assert a + b == b;
    } else {
      assert (a + b)[1..] == a[1..] + b;
      ReplayConcat(Apply(p, a[0]), a[1..], b);
    }
  }

  function Lookup(p: Participants, u: UserId): Option<ParticipantInfo> {
    if u in p then Some(p[u]) else None
  }

  /** What a stretch of the log does to one user, whatever it started from:
      fix the entry, or leave its presence alone and at most set its role. */
  datatype Effect = Fix(entry: Option<ParticipantInfo>) | Adjust(role: Option<Role>)

  function ActOn(e: Effect, x: Option<ParticipantInfo>): Option<ParticipantInfo> {
    match e
    case Fix(entry) => entry
    case Adjust(None) => x
    case Adjust(Some(r)) => if x.Some? then Some(x.value.(role := r)) else None
  }

  function EffectOn(u: UserId, log: seq<CollabMessage>): Effect {
    if log == [] then Adjust(None)
    else
      var last := log[|log| - 1];
      var before := EffectOn(u, log[..|log| - 1]);
      match last
      case PeerJoined(v, info) => if v == u then Fix(Some(info)) else before
      case PeerLeft(v) => if v == u then Fix(None) else before
      case PeerEvicted(v, _) => if v == u then Fix(None) else before
      case PeerRoleChanged(v, r) =>
        if v != u then before
        else if before.Fix? then Fix(ActOn(Adjust(Some(r)), before.entry))
        else Adjust(Some(r))
      case _ => before
  }

  lemma {:induction false} ReplayIsEffect(p: Participants, log: seq<CollabMessage>, u: UserId)
    ensures Lookup(Replay(p, log), u) == ActOn(EffectOn(u, log), Lookup(p, u))
    decreases |log|
  {
    if log != [] {
      var front := log[..|log| - 1];
      assert log == front + [log[|log| - 1]];
      ReplayConcat(p, front, [log[|log| - 1]]);
      assert Replay(Replay(p, front), [log[|log| - 1]]) == Apply(Replay(p, front), log[|log| - 1]);
      ReplayIsEffect(p, front, u);
    }
  }

  lemma SameEntries(p: Participants, q: Participants)
    requires forall u :: Lookup(p, u) == Lookup(q, u)
    ensures p == q
  {
    forall u ensures u in p <==> u in q {
      assert Lookup(p, u) == Lookup(q, u);
    }
    forall u | u in p ensures p[u] == q[u] {
      assert Lookup(p, u) == Lookup(q, u);
    }
  }

  /** Replaying messages a snapshot already reflects changes nothing. */
  lemma OverlapIsIdempotent(p: Participants, overlap: seq<CollabMessage>)
    ensures Replay(Replay(p, overlap), overlap) == Replay(p, overlap)
  {
    forall u ensures Lookup(Replay(Replay(p, overlap), overlap), u) == Lookup(Replay(p, overlap), u) {
      ReplayIsEffect(p, overlap, u);
      ReplayIsEffect(Replay(p, overlap), overlap, u);
    }
    SameEntries(Replay(Replay(p, overlap), overlap), Replay(p, overlap));
  }

  /** A client that subscribed at position `j`, took its snapshot at a later `k`,
      and then folded every message from `j` on, ends with the hub's own list. */
  lemma ClientConverges(log: seq<CollabMessage>, j: nat, k: nat)
    requires j <= k <= |log|
    ensures Replay(Replay(map[], log[..k]), log[j..]) == Replay(map[], log)
  {
    hide Replay;
    var start, overlap, rest := Replay(map[], log[..j]), log[j..k], log[k..];
    assert log[..k] == log[..j] + overlap;
    ReplayConcat(map[], log[..j], overlap);
    assert log[j..] == overlap + rest;
    ReplayConcat(Replay(start, overlap), overlap, rest);
    OverlapIsIdempotent(start, overlap);
    assert log == log[..k] + rest;
    ReplayConcat(map[], log[..k], rest);
  }

  // ---- joins and departures of one user strictly alternate ----

  /** The users present after `log`, or None if some user joined twice in a row,
      departed without being present, or had a role changed while absent. */
  function Present(log: seq<CollabMessage>): Option<set<UserId>> {
    if log == [] then Some({})
    else
      var before := Present(log[..|log| - 1]);
      if before.None? then None
      else
        var s := before.value;
        match log[|log| - 1]
        case PeerJoined(u, _) => if u in s then None else Some(s + {u})
        case PeerLeft(u) => if u in s then Some(s - {u}) else None
        case PeerEvicted(u, _) => if u in s then Some(s - {u}) else None
        case PeerRoleChanged(u, _) => if u in s then Some(s) else None
        case _ => Some(s)
  }

  function JoinOrDeparture(u: UserId, log: seq<CollabMessage>): seq<bool> {
    if log == [] then []
    else
      var before := JoinOrDeparture(u, log[..|log| - 1]);
      match log[|log| - 1]
      case PeerJoined(v, _) => if v == u then before + [true] else before
      case PeerLeft(v) => if v == u then before + [false] else before
      case PeerEvicted(v, _) => if v == u then before + [false] else before
      case _ => before
  }

  /** In a log that `Present` accepts, the joins (true) and the left-or-evicted
      broadcasts (false) of each user alternate, starting with a join, and the
      user is present exactly when the last one was a join. */
  lemma {:induction false} Alternation(u: UserId, log: seq<CollabMessage>)
    requires Present(log).Some?
    ensures var a := JoinOrDeparture(u, log);
            && (forall i :: 0 <= i < |a| ==> a[i] == (i % 2 == 0))
            && (u in Present(log).value <==> |a| % 2 == 1)
  {
    if log != [] {
      Alternation(u, log[..|log| - 1]);
    }
  }
}
