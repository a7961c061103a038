/** The per-address limiter in front of the public register endpoint. */
module RateLimit {

  import opened Protocol

  type Ip = nat

  datatype Decision = Allowed | Throttled(retryAfter: nat)

  /** Time since `prev`, never negative. */
  function Elapsed(prev: nat, now: nat): nat { if now >= prev then now - prev else 0 }

  function Decide(interval: nat, seen: map<Ip, nat>, ip: Ip, now: nat): Decision {
    if ip in seen && Elapsed(seen[ip], now) < interval then Throttled(interval - Elapsed(seen[ip], now)) else Allowed
  }

  function AfterCheck(interval: nat, seen: map<Ip, nat>, ip: Ip, now: nat): map<Ip, nat> {
    if Decide(interval, seen, ip, now).Allowed? then seen[ip := now] else seen
  }

  function Purged(interval: nat, seen: map<Ip, nat>, now: nat): map<Ip, nat> {
    map ip | ip in seen && Elapsed(seen[ip], now) < interval :: seen[ip]
  }

  /** From `now` on, attempts are throttled with the time left until `end`, then let through. */
  ghost predicate CoolsDown(interval: nat, seen: map<Ip, nat>, ip: Ip, now: nat, end: nat) {
    forall t :: t >= now ==> Decide(interval, seen, ip, t) == if t < end then Throttled(end - t) else Allowed
  }

  class RegisterRateLimiter {
    const minInterval: nat
    var lastSeen: map<Ip, nat>

    constructor (minInterval: nat)
      ensures this.minInterval == minInterval && lastSeen == map[]
    {
      this.minInterval := minInterval;
      lastSeen := map[];
    }

    /** An admitted attempt starts a cooldown of exactly `minInterval`; a throttled one is
        told exactly what is left of it and changes nothing; other addresses notice neither. */
    method Check(ip: Ip, now: nat) returns (decision: Decision)
      modifies this
      ensures decision.Allowed? ==> CoolsDown(minInterval, lastSeen, ip, now, now + minInterval)
      ensures decision.Throttled? ==>
                && lastSeen == old(lastSeen) && ip in lastSeen && 0 < decision.retryAfter <= minInterval
                && (lastSeen[ip] <= now ==> CoolsDown(minInterval, lastSeen, ip, now, now + decision.retryAfter))
      ensures forall other, t :: other != ip ==>
                Decide(minInterval, lastSeen, other, t) == Decide(minInterval, old(lastSeen), other, t)
      ensures decision == Decide(minInterval, old(lastSeen), ip, now)
      ensures lastSeen == AfterCheck(minInterval, old(lastSeen), ip, now)
    {
      if ip in lastSeen {
        var elapsed := Elapsed(lastSeen[ip], now);
        if elapsed < minInterval {
          assert lastSeen[ip] <= now ==> lastSeen[ip] + minInterval == now + (minInterval - elapsed);
          return Throttled(minInterval - elapsed);
        }
      }
      lastSeen := lastSeen[ip := now];
      return Allowed;
    }

    /** No later answer changes, and what is kept is still in its cooldown. */
    method PurgeExpired(now: nat)
      modifies this
      ensures forall ip, t :: t >= now ==>
                Decide(minInterval, lastSeen, ip, t) == Decide(minInterval, old(lastSeen), ip, t)
      ensures forall ip :: ip in lastSeen ==> Decide(minInterval, lastSeen, ip, now).Throttled?
      ensures lastSeen == Purged(minInterval, old(lastSeen), now)
    {
      lastSeen := map ip | ip in lastSeen && Elapsed(lastSeen[ip], now) < minInterval :: lastSeen[ip];
    }
  }

  // ---- whole runs ----

  datatype Event = Check(ip: Ip, now: nat) | Purge(now: nat)

  function After(interval: nat, seen: map<Ip, nat>, e: Event): map<Ip, nat> {
    match e
    case Check(ip, now) => AfterCheck(interval, seen, ip, now)
    case Purge(now) => Purged(interval, seen, now)
  }

  /** The answer to each event; a purge has none. */
  function Answers(interval: nat, seen: map<Ip, nat>, events: seq<Event>): (answers: seq<Option<Decision>>)
    ensures |answers| == |events|
    decreases |events|
  {
    if events == [] then []
    else
      [match events[0] case Check(ip, now) => Some(Decide(interval, seen, ip, now)) case Purge(_) => None]
      + Answers(interval, After(interval, seen, events[0]), events[1..])
  }

  predicate Monotone(from: nat, events: seq<Event>)
    decreases |events|
  {
    events == [] || (from <= events[0].now && Monotone(events[0].now, events[1..]))
  }

  lemma {:induction false} MonotoneBounds(from: nat, events: seq<Event>)
    requires Monotone(from, events)
    ensures forall j :: 0 <= j < |events| ==> from <= events[j].now
    decreases |events|
  {
    if events != [] {
      MonotoneBounds(events[0].now, events[1..]);
      assert forall j :: 0 < j < |events| ==> events[j] == events[1..][j - 1];
    }
  }

  /** Once `ip` was let through at `t`, it is let through again no sooner than `t + interval`. */
  lemma {:induction false} NextAllowed(interval: nat, seen: map<Ip, nat>, from: nat, events: seq<Event>,
                                       ip: Ip, t: nat, j: nat)
    requires Monotone(from, events) && t <= from
    requires (ip in seen && t <= seen[ip] <= from) || t + interval <= from
    requires j < |events| && events[j].Check? && events[j].ip == ip
    requires Answers(interval, seen, events)[j] == Some(Allowed)
    ensures t + interval <= events[j].now
    decreases |events|
  {
    if t + interval <= from {
      MonotoneBounds(from, events);
    } else if j > 0 {
      NextAllowed(interval, After(interval, seen, events[0]), events[0].now, events[1..], ip, t, j - 1);
    }
  }

  /** Two attempts from one address are let through only `interval` apart, whatever
      purges and other addresses do in between. */
  lemma {:induction false} AllowedAreSpaced(interval: nat, seen: map<Ip, nat>, from: nat,
                                            events: seq<Event>, i: nat, j: nat)
    requires Monotone(from, events)
    requires i < j < |events| && events[i].Check? && events[j].Check? && events[i].ip == events[j].ip
    requires Answers(interval, seen, events)[i] == Some(Allowed)
    requires Answers(interval, seen, events)[j] == Some(Allowed)
    ensures events[i].now + interval <= events[j].now
    decreases i
  {
    var next := After(interval, seen, events[0]);
    if i == 0 {
      NextAllowed(interval, next, events[0].now, events[1..], events[0].ip, events[0].now, j - 1);
    } else {
      AllowedAreSpaced(interval, next, events[0].now, events[1..], i - 1, j - 1);
    }
  }

  /** The cooldown is exact. After an attempt let through at `t`, and as long as `ip` only
      retried within the cooldown, an attempt at `now` is throttled with precisely the
      time left until `t + interval`, and let through from then on: retrying extends
      nothing, and a purge shortens nothing. */
  lemma {:induction false} CooldownIsExact(interval: nat, seen: map<Ip, nat>, from: nat, events: seq<Event>,
                                           ip: Ip, t: nat, j: nat)
    requires Monotone(from, events)
    requires if ip in seen then seen[ip] == t <= from else t + interval <= from
    requires j < |events| && events[j].Check? && events[j].ip == ip
    requires forall k :: 0 <= k < j && events[k].Check? && events[k].ip == ip ==> events[k].now < t + interval
    ensures Answers(interval, seen, events)[j] ==
            Some(if events[j].now < t + interval then Throttled(t + interval - events[j].now) else Allowed)
    decreases j
  {
    MonotoneBounds(from, events);
    if j > 0 {
      assert forall k :: 0 <= k < j - 1 ==> events[1..][k] == events[k + 1];
      CooldownIsExact(interval, After(interval, seen, events[0]), events[0].now, events[1..], ip, t, j - 1);
    }
  }

  // ---- purges are invisible ----

  function Checks(events: seq<Event>): seq<Event> {
    if events == [] then []
    else if events[0].Purge? then Checks(events[1..])
    else [events[0]] + Checks(events[1..])
  }

  function Decisions(answers: seq<Option<Decision>>): seq<Decision> {
    if answers == [] then []
    else if answers[0].None? then Decisions(answers[1..])
    else [answers[0].value] + Decisions(answers[1..])
  }

  /** From `now` on the two maps decide alike. */
  ghost predicate Alike(interval: nat, a: map<Ip, nat>, b: map<Ip, nat>, now: nat) {
    forall ip ::
      && (ip in a ==> a[ip] <= now)
      && (ip in b ==> b[ip] <= now)
      && ((ip in a && now - a[ip] < interval) <==> (ip in b && now - b[ip] < interval))
      && (ip in a && ip in b && now - a[ip] < interval ==> a[ip] == b[ip])
  }

  lemma AlikeAfter(interval: nat, a: map<Ip, nat>, b: map<Ip, nat>, from: nat, e: Event)
    requires Alike(interval, a, b, from) && from <= e.now
    ensures Alike(interval, After(interval, a, e), if e.Purge? then b else After(interval, b, e), e.now)
    ensures e.Check? ==> Decide(interval, a, e.ip, e.now) == Decide(interval, b, e.ip, e.now)
  {
  }

  lemma {:induction false} DecisionsAlike(interval: nat, a: map<Ip, nat>, b: map<Ip, nat>,
                                          from: nat, events: seq<Event>)
    requires Monotone(from, events) && Alike(interval, a, b, from)
    ensures Decisions(Answers(interval, a, events)) == Decisions(Answers(interval, b, Checks(events)))
    decreases |events|
  {
    if events != [] {
      var e := events[0];
      AlikeAfter(interval, a, b, from, e);
      var a', b' := After(interval, a, e), if e.Purge? then b else After(interval, b, e);
      DecisionsAlike(interval, a', b', e.now, events[1..]);
      assert Answers(interval, a, events)[1..] == Answers(interval, a', events[1..]);
      if e.Check? {
        assert Checks(events)[1..] == Checks(events[1..]);
        assert Answers(interval, b, Checks(events))[1..] == Answers(interval, b', Checks(events[1..]));
      }
    }
  }

  /** Wherever the background purge runs, every attempt gets the answer it would have
      got from a map that is never purged. */
  lemma PurgesAreInvisible(interval: nat, events: seq<Event>)
    requires Monotone(0, events)
    ensures Decisions(Answers(interval, map[], events)) == Decisions(Answers(interval, map[], Checks(events)))
  {
    DecisionsAlike(interval, map[], map[], 0, events);
  }
}
