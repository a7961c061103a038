/** A bounded broadcast channel seen from outside: the log of everything sent,
    and per receiver the log position it reads next. Only the last `slots`
    messages are retained; a receiver that fell behind is told so once and
    continues at the oldest retained message. */
module Broadcast {

  datatype Received<+M> = Empty | Lagged | Message(msg: M)

  function Oldest(sent: nat, slots: nat): nat {
    if sent > slots then sent - slots else 0
  }

  function Receive<M>(log: seq<M>, slots: nat, next: nat): Received<M> {
    if next < Oldest(|log|, slots) then Lagged
    else if next >= |log| then Empty
    else Message(log[next])
  }

  function Advance<M>(log: seq<M>, slots: nat, next: nat): nat {
    match Receive(log, slots, next)
    case Empty => next
    case Lagged => Oldest(|log|, slots)
    case Message(_) => next + 1
  }

  /** A receiver that is at most `slots` behind gets every message in turn, and only one
      that is further behind is told that it lagged. */
  lemma ReceivesIff<M>(log: seq<M>, slots: nat, next: nat)
    requires next <= |log|
    ensures Receive(log, slots, next).Lagged? <==> |log| - next > slots
    ensures next == |log| ==> Receive(log, slots, next) == Empty
    ensures next < |log| && |log| - next <= slots ==> Receive(log, slots, next) == Message(log[next])
    ensures |log| - next > slots ==> |log| - Advance(log, slots, next) == slots
  {
  }
}
