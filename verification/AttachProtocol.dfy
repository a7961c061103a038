/** The push+send and subscribe+snapshot critical sections as single-action
    steps under one lock, interleaved with receivers in any order.

    The same protocol runs twice in a live session: PTY chunks with the
    scrollback lock (entries weighed in bytes, 256 slots, nothing else on the
    channel), and chat with the chat-history lock (weight 1, 64 slots, other
    collaboration messages sent on the same channel without taking the lock). */
module AttachProtocol {
  import opened Retention
  import opened Broadcast

  datatype Frame<E, O> = Entry(e: E) | Other(o: O)

  /** Who holds the lock and which of its actions are done. */
  datatype Lock<E> =
    | Free
    | PushBegin(e: E)
    | PushRecorded(e: E)
    | PushSent
    | AttachBegin(id: nat)
    | AttachSubscribed(id: nat)
    | AttachSnapped(id: nat)

  datatype Phase = Attaching | Replaying | Streaming | Closed

  /** A WebSocket attachment: its receiver, its snapshot, and what its client got:
      the first `replayed` snapshot entries, then the frames in `streamed`. */
  datatype Client<E, O> = Client(
    phase: Phase, first: nat, next: nat, snapshot: seq<E>, replayed: nat, streamed: seq<Frame<E, O>>)

  datatype State<E, O> = State(
    history: seq<E>, ring: seq<E>, log: seq<Frame<E, O>>, lock: Lock<E>, clients: map<nat, Client<E, O>>)

  /** What the connection handler does after it got its attachment. */
  datatype Action = ReplayOne | BeginStream | Recv | Disconnect

  datatype Step<E, O> =
    | LockForPush(e: E)
    | Record
    | Send
    | LockForAttach(id: nat)
    | Subscribe
    | Snapshot
    | Unlock
    | SendOther(o: O)
    | Handler(id: nat, action: Action)

  /** A freshly spawned session: the spawner's receiver was created with the
      channel, so it starts at position 0 with nothing to replay. */
  function Init<E, O>(spawner: nat): State<E, O> {
    State([], [], [], Free, map[spawner := Client(Replaying, 0, 0, [], 0, [])])
  }

  function ClientStep<E, O>(c: Client<E, O>, log: seq<Frame<E, O>>, slots: nat, action: Action): Client<E, O>
  {
    match action
    case ReplayOne =>
      if c.phase.Replaying? && c.replayed < |c.snapshot| then c.(replayed := c.replayed + 1) else c
    case BeginStream =>
      if c.phase.Replaying? && c.replayed == |c.snapshot| then c.(phase := Streaming) else c
    case Recv =>
      if !c.phase.Streaming? then c else
      (match Receive(log, slots, c.next)
       case Empty => c
       case Lagged => c.(phase := Closed)
       case Message(m) => c.(next := c.next + 1, streamed := c.streamed + [m]))
    case Disconnect => if c.phase.Attaching? then c else c.(phase := Closed)
  }

  /** One scheduler step; a step that is not enabled (lock held by another task,
      wrong phase) leaves the state as it is. */
  function Next<E, O>(s: State<E, O>, w: E -> nat, budget: nat, slots: nat, step: Step<E, O>): State<E, O>
  {
    match step
    case LockForPush(e) => if s.lock.Free? then s.(lock := PushBegin(e)) else s
    case Record =>
      if s.lock.PushBegin? then
        s.(history := s.history + [s.lock.e],
           ring := Retained(s.ring + [s.lock.e], w, budget),
           lock := PushRecorded(s.lock.e))
      else s
    case Send =>
      if s.lock.PushRecorded? then s.(log := s.log + [Entry(s.lock.e)], lock := PushSent) else s
    case LockForAttach(id) =>
      if s.lock.Free? && id !in s.clients then s.(lock := AttachBegin(id)) else s
    case Subscribe =>
      if s.lock.AttachBegin? then
        s.(clients := s.clients[s.lock.id := Client(Attaching, |s.log|, |s.log|, [], 0, [])],
           lock := AttachSubscribed(s.lock.id))
      else s
    case Snapshot =>
      if s.lock.AttachSubscribed? && s.lock.id in s.clients then
        s.(clients := s.clients[s.lock.id := s.clients[s.lock.id].(phase := Replaying, snapshot := s.ring)],
           lock := AttachSnapped(s.lock.id))
      else s
    case Unlock => if s.lock.PushSent? || s.lock.AttachSnapped? then s.(lock := Free) else s
    case SendOther(o) => s.(log := s.log + [Other(o)])
    case Handler(id, action) =>
      if id in s.clients then
        s.(clients := s.clients[id := ClientStep(s.clients[id], s.log, slots, action)])
      else s
  }

  // ---- projecting the entries out of a mixed log ----

  function Entries<E, O>(log: seq<Frame<E, O>>): seq<E> {
    if log == [] then []
    else if log[0].Entry? then [log[0].e] + Entries(log[1..])
    else Entries(log[1..])
  }

  lemma {:induction false} EntriesConcat<E, O>(a: seq<Frame<E, O>>, b: seq<Frame<E, O>>)
    ensures Entries(a + b) == Entries(a) + Entries(b)
  {
    if a == [] {
      assert a + b == b;
    } else {
      EntriesConcat(a[1..], b);
      assert (a + b)[0] == a[0] && (a + b)[1..] == a[1..] + b;
      if a[0].Entry? {
        assert Entries(a) + Entries(b) == [a[0].e] + (Entries(a[1..]) + Entries(b));
      }
    }
  }

  // ---- what every step keeps ----

  ghost predicate ClientOk<E, O>(log: seq<Frame<E, O>>, c: Client<E, O>, w: E -> nat, budget: nat) {
    && c.first <= c.next <= |log|
    && c.streamed == log[c.first..c.next]
    && c.replayed <= |c.snapshot|
    && (c.phase.Attaching? ==> c.snapshot == [] && c.next == c.first)
    && (!c.phase.Attaching? ==> c.snapshot == Retained(Entries(log[..c.first]), w, budget))
    && (c.next > c.first || c.phase.Streaming? ==> c.replayed == |c.snapshot|)
  }

  ghost predicate Inv<E, O>(s: State<E, O>, w: E -> nat, budget: nat) {
    && s.history == (if s.lock.PushRecorded? then Entries(s.log) + [s.lock.e] else Entries(s.log))
    && s.ring == Retained(s.history, w, budget)
    && (forall id :: id in s.clients ==> ClientOk(s.log, s.clients[id], w, budget))
    && (forall id :: id in s.clients && s.clients[id].phase.Attaching? ==> s.lock == AttachSubscribed(id))
    && (s.lock.AttachBegin? ==> s.lock.id !in s.clients)
    && (s.lock.AttachSubscribed? ==>
          && s.lock.id in s.clients
          && s.clients[s.lock.id].phase.Attaching?
          && Entries(s.log[s.clients[s.lock.id].first..]) == [])
  }

  /** Appending to the log disturbs no client: each has read a prefix. */
  lemma LogGrows<E, O>(s: State<E, O>, t: State<E, O>, f: Frame<E, O>, w: E -> nat, budget: nat)
    requires Inv(s, w, budget) && t.log == s.log + [f] && t.clients == s.clients
    ensures forall id :: id in t.clients ==> ClientOk(t.log, t.clients[id], w, budget)
    ensures Entries(t.log) == Entries(s.log) + Entries([f])
  {
    EntriesConcat(s.log, [f]);
    forall id | id in t.clients
      ensures ClientOk(t.log, t.clients[id], w, budget)
    {
      var c := s.clients[id];
      assert ClientOk(s.log, c, w, budget);
      assert t.log[c.first..c.next] == s.log[c.first..c.next];
      assert t.log[..c.first] == s.log[..c.first];
    }
  }

  lemma ClientStepOk<E, O>(log: seq<Frame<E, O>>, c: Client<E, O>, w: E -> nat, budget: nat, slots: nat, action: Action)
    requires ClientOk(log, c, w, budget)
    ensures ClientOk(log, ClientStep(c, log, slots, action), w, budget)
    ensures ClientStep(c, log, slots, action).phase.Attaching? <==> c.phase.Attaching?
    ensures c.phase.Attaching? ==> ClientStep(c, log, slots, action) == c
  {
    if action.Recv? && c.phase.Streaming? && Receive(log, slots, c.next).Message? {
      assert log[c.first..c.next + 1] == log[c.first..c.next] + [log[c.next]];
    }
  }

  /** The snapshot is taken while no entry can have been sent since the subscribe. */
  lemma SnapshotKeepsInv<E, O>(s: State<E, O>, w: E -> nat, budget: nat, slots: nat)
    requires Inv(s, w, budget) && s.lock.AttachSubscribed?
    ensures Inv(Next(s, w, budget, slots, Snapshot), w, budget)
  {
    var id := s.lock.id;
    var c := s.clients[id];
    assert s.log == s.log[..c.first] + s.log[c.first..];
    EntriesConcat(s.log[..c.first], s.log[c.first..]);
    assert Entries(s.log[..c.first]) == s.history;
    assert ClientOk(s.log, c.(phase := Replaying, snapshot := s.ring), w, budget);
  }

  lemma PushKeepsInv<E, O>(s: State<E, O>, w: E -> nat, budget: nat, slots: nat, step: Step<E, O>)
    requires Inv(s, w, budget) && (step.LockForPush? || step.Record? || step.Send? || step.Unlock?)
    ensures Inv(Next(s, w, budget, slots, step), w, budget)
  {
    if step.Record? && s.lock.PushBegin? {
      RetainedPush(s.history, s.lock.e, w, budget);
    } else if step.Send? && s.lock.PushRecorded? {
      LogGrows(s, Next(s, w, budget, slots, step), Entry(s.lock.e), w, budget);
    }
  }

  lemma SendOtherKeepsInv<E, O>(s: State<E, O>, w: E -> nat, budget: nat, slots: nat, o: O)
    requires Inv(s, w, budget)
    ensures Inv(Next(s, w, budget, slots, SendOther(o)), w, budget)
  {
    LogGrows(s, Next(s, w, budget, slots, SendOther(o)), Other(o), w, budget);
    if s.lock.AttachSubscribed? {
      var first := s.clients[s.lock.id].first;
      assert (s.log + [Other(o)])[first..] == s.log[first..] + [Other(o)];
      EntriesConcat(s.log[first..], [Other(o)]);
    }
  }

  lemma StepKeepsInv<E, O>(s: State<E, O>, w: E -> nat, budget: nat, slots: nat, step: Step<E, O>)
    requires Inv(s, w, budget)
    ensures Inv(Next(s, w, budget, slots, step), w, budget)
  {
    match step
    case LockForAttach(_) =>
    case Subscribe => assert s.log[|s.log|..] == [];
    case Snapshot =>
      if s.lock.AttachSubscribed? {
        SnapshotKeepsInv(s, w, budget, slots);
      }
    case SendOther(o) => SendOtherKeepsInv(s, w, budget, slots, o);
    case Handler(id, action) =>
      if id in s.clients {
        ClientStepOk(s.log, s.clients[id], w, budget, slots, action);
      }
    case _ => PushKeepsInv(s, w, budget, slots, step);
  }

  // ---- whole runs ----

  /** The state after any interleaving of steps. */
  function Run<E, O>(s: State<E, O>, steps: seq<Step<E, O>>, w: E -> nat, budget: nat, slots: nat): State<E, O>
    decreases |steps|
  {
    if steps == [] then s
    else Run(Next(s, w, budget, slots, steps[0]), steps[1..], w, budget, slots)
  }

  lemma InitInv<E, O>(spawner: nat, w: E -> nat, budget: nat)
    ensures Inv(Init<E, O>(spawner), w, budget)
  {
  }

  lemma {:induction false} RunKeepsInv<E, O>(s: State<E, O>, steps: seq<Step<E, O>>,
                                             w: E -> nat, budget: nat, slots: nat)
    requires Inv(s, w, budget)
    ensures Inv(Run(s, steps, w, budget, slots), w, budget)
    decreases |steps|
  {
    if steps != [] {
      StepKeepsInv(s, w, budget, slots, steps[0]);
      RunKeepsInv(Next(s, w, budget, slots, steps[0]), steps[1..], w, budget, slots);
    }
  }

  /** What the client of `c` has been given so far, entries only. */
  function Delivered<E, O>(c: Client<E, O>): seq<E>
    requires c.replayed <= |c.snapshot|
  {
    c.snapshot[..c.replayed] + Entries(c.streamed)
  }

  /** The delivered entries are `history[lo..]` cut at the last entry read. */
  ghost predicate ContiguousFrom<E, O>(c: Client<E, O>, log: seq<Frame<E, O>>, history: seq<E>, lo: nat,
                                       w: E -> nat, budget: nat)
  {
    && c.replayed <= |c.snapshot| && c.next <= |log|
    && lo + |c.snapshot| <= |history| && lo + |Delivered(c)| <= |history|
    // a contiguous piece: no gap, no duplicate
    && Delivered(c) == history[lo..lo + |Delivered(c)|]
    // starting with the longest suffix that fitted at the subscribe
    && c.snapshot == Retained(history[..lo + |c.snapshot|], w, budget)
    // ending at the last entry read
    && (c.replayed == |c.snapshot| ==> lo + |Delivered(c)| == |Entries(log[..c.next])|)
  }

  lemma EntriesSplit<E, O>(log: seq<Frame<E, O>>, i: nat, j: nat)
    requires i <= j <= |log|
    ensures Entries(log[..j]) == Entries(log[..i]) + Entries(log[i..j])
  {
    EntriesConcat(log[..i], log[i..j]);
    assert log[..i] + log[i..j] == log[..j];
  }

  lemma Glue<T>(a: seq<T>, b: seq<T>, rest: seq<T>, history: seq<T>, snapshot: seq<T>, replayed: nat) returns (lo: nat)
    requires history == a + b + rest
    requires |snapshot| <= |a| && snapshot == a[|a| - |snapshot|..]
    requires replayed <= |snapshot| && (b != [] ==> replayed == |snapshot|)
    ensures lo + |snapshot| == |a| && history[..|a|] == a
    ensures lo + replayed + |b| <= |history|
    ensures snapshot[..replayed] + b == history[lo..lo + replayed + |b|]
  {
    lo := |a| - |snapshot|;
  }

  lemma ClientContiguous<E, O>(log: seq<Frame<E, O>>, c: Client<E, O>, extra: seq<E>, history: seq<E>,
                               w: E -> nat, budget: nat)
    returns (lo: nat)
    requires ClientOk(log, c, w, budget) && !c.phase.Attaching?
    requires history == Entries(log) + extra
    ensures ContiguousFrom(c, log, history, lo, w, budget)
  {
    var a, b := Entries(log[..c.first]), Entries(c.streamed);
    RetainedIsSuffix(a, w, budget);
    EntriesSplit(log, c.first, c.next);
    EntriesSplit(log, c.next, |log|);
    assert log[..|log|] == log && log[c.next..|log|] == log[c.next..];
    assert c.streamed == [] ==> b == [];
    lo := Glue(a, b, Entries(log[c.next..]) + extra, history, c.snapshot, c.replayed);
  }

  lemma ReachedContiguous<E, O>(s: State<E, O>, id: nat, w: E -> nat, budget: nat) returns (lo: nat)
    requires Inv(s, w, budget)
    requires id in s.clients && !s.clients[id].phase.Attaching?
    ensures var c := s.clients[id];
            && ContiguousFrom(c, s.log, s.history, lo, w, budget)
            && (c.replayed == |c.snapshot| && c.next == |s.log| && !s.lock.PushRecorded? ==>
                  Delivered(c) == s.history[lo..])
  {
    var extra := if s.lock.PushRecorded? then [s.lock.e] else [];
    assert s.history == Entries(s.log) + extra;
    assert ClientOk(s.log, s.clients[id], w, budget);
    lo := ClientContiguous(s.log, s.clients[id], extra, s.history, w, budget);
    assert s.log[..|s.log|] == s.log;
  }

  /** Every entry is in the snapshot or delivered by the receiver, never both and
      never neither, in every interleaving; a drained receiver has seen it all. */
  lemma ExactlyOnce<E, O>(spawner: nat, steps: seq<Step<E, O>>, id: nat, w: E -> nat, budget: nat, slots: nat)
    returns (s: State<E, O>, lo: nat)
    ensures s == Run(Init<E, O>(spawner), steps, w, budget, slots)
    ensures id in s.clients && !s.clients[id].phase.Attaching? ==>
              var c := s.clients[id];
              && ContiguousFrom(c, s.log, s.history, lo, w, budget)
              && (c.replayed == |c.snapshot| && c.next == |s.log| && !s.lock.PushRecorded? ==>
                    Delivered(c) == s.history[lo..])
  {
    hide *;
    s := Run(Init<E, O>(spawner), steps, w, budget, slots);
    lo := 0;
    InitInv<E, O>(spawner, w, budget);
    RunKeepsInv(Init<E, O>(spawner), steps, w, budget, slots);
    if id in s.clients && !s.clients[id].phase.Attaching? {
      lo := ReachedContiguous(s, id, w, budget);
    }
  }

  lemma InvSnapshot<E, O>(s: State<E, O>, id: nat, w: E -> nat, budget: nat)
    requires Inv(s, w, budget)
    ensures id in s.clients && !s.clients[id].phase.Attaching? ==>
              && s.clients[id].first <= |s.log| && s.clients[id].replayed <= |s.clients[id].snapshot|
              && s.clients[id].snapshot == Retained(Entries(s.log[..s.clients[id].first]), w, budget)
  {
    assert id in s.clients ==> ClientOk(s.log, s.clients[id], w, budget);
  }

  /** The snapshot is the ring as it stood when the receiver was created. */
  lemma SnapshotAtSubscribe<E, O>(spawner: nat, steps: seq<Step<E, O>>, id: nat, w: E -> nat, budget: nat, slots: nat)
    ensures var s := Run(Init<E, O>(spawner), steps, w, budget, slots);
            id in s.clients && !s.clients[id].phase.Attaching? ==>
              && s.clients[id].first <= |s.log| && s.clients[id].replayed <= |s.clients[id].snapshot|
              && s.clients[id].snapshot == Retained(Entries(s.log[..s.clients[id].first]), w, budget)
  {
    hide *;
    InitInv<E, O>(spawner, w, budget);
    RunKeepsInv(Init<E, O>(spawner), steps, w, budget, slots);
    InvSnapshot(Run(Init<E, O>(spawner), steps, w, budget, slots), id, w, budget);
  }

  /** Once closed, a client is never given anything again. */
  lemma {:induction false} ClosedStaysClosed<E, O>(s: State<E, O>, id: nat, more: seq<Step<E, O>>,
                                                   w: E -> nat, budget: nat, slots: nat)
    requires id in s.clients && s.clients[id].phase.Closed?
    requires s.lock != AttachSubscribed(id) && s.lock != AttachBegin(id)
    ensures var t := Run(s, more, w, budget, slots);
            id in t.clients && t.clients[id] == s.clients[id]
    decreases |more|
  {
    if more != [] {
      ClosedStaysClosed(Next(s, w, budget, slots, more[0]), id, more[1..], w, budget, slots);
    }
  }

  /** A receiver that lagged is closed with nothing sent past the gap, whatever
      happens afterwards. */
  lemma LaggedClosesForGood<E, O>(s: State<E, O>, id: nat, more: seq<Step<E, O>>, w: E -> nat, budget: nat, slots: nat)
    requires Inv(s, w, budget) && id in s.clients
    requires s.clients[id].phase.Streaming? && s.clients[id].next < Oldest(|s.log|, slots)
    ensures var t := Run(s, [Handler(id, Recv)] + more, w, budget, slots);
            id in t.clients && t.clients[id] == s.clients[id].(phase := Closed)
  {
    var steps := [Handler(id, Recv)] + more;
    assert steps[1..] == more;
    ClosedStaysClosed(Next(s, w, budget, slots, steps[0]), id, more, w, budget, slots);
  }
}
