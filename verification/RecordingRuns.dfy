/** Runs of one recording slot: who taps, who stops, what the writer and the database do,
    in any interleaving. */
module RecordingRuns {

  import opened Protocol
  import opened Json
  import opened Utf8
  import opened Asciicast
  import opened Recording

  /** Where the sending half is: with the request that starts the recording, in the hub,
      taken out by whoever stops it, or dropped. */
  datatype Sender = Offered | Installed | Stopping | Gone

  datatype Status = InProgress | Completed | Failed

  datatype Row = Row(status: Status, eventCount: nat, fileSize: nat)

  /** `tapped` and `accepted` are the events offered so far and those that were queued,
      `lost` those taken from the queue whose line could not be written; `refused` says
      that the hub did not take the slot. */
  datatype Channel = Channel(
    sender: Sender, refused: bool, tapped: seq<RecordingEvent>, accepted: seq<RecordingEvent>, dropped: nat,
    queue: seq<RecordingEvent>, lost: seq<RecordingEvent>)

  /** `finished` says that the writer has returned, having written its verdict;
      `refusals` counts database writes that failed. */
  datatype State = State(channel: Channel, writer: Writer, clock: nat, finished: bool, row: Row, refusals: nat)

  const START := State(Channel(Offered, false, [], [], 0, [], []), NEW_WRITER, 0, false, Row(InProgress, 0, 0), 0)

  datatype HubAction = Install | Refuse | Tap(event: RecordingEvent) | Take | SendStop | Abandon

  datatype Action =
    | Hub(action: HubAction)
    | Rollback(dbOk: bool)
    | Open(fileOk: bool, headerOk: bool)
    | Tick(flushOk: bool)
    | Receive(delay: nat, writeOk: bool, flushOk: bool)
    | Shut(ok: bool)
    | Verdict(dbOk: bool)

  // ---- the hub's side ----

  /** `RecordingSlot::try_send`: queue the event or count it. */
  function TrySend(c: Channel, alive: bool, e: RecordingEvent): Channel {
    if alive && |c.queue| < QUEUE_CAPACITY
    then c.(tapped := c.tapped + [e], accepted := c.accepted + [e], queue := c.queue + [e])
    else c.(tapped := c.tapped + [e], dropped := c.dropped + 1)
  }

  /** The slot as the hub's taps use it. */
  class RecordingSlot {
    var channel: Channel

    constructor ()
      ensures channel == START.channel
    {
      channel := START.channel;
    }

    method TryToSend(alive: bool, e: RecordingEvent)
      modifies this
      ensures channel == TrySend(old(channel), alive, e)
      ensures |channel.queue| + channel.dropped == old(|channel.queue| + channel.dropped) + 1
      ensures channel.tapped == old(channel.tapped) + [e]
      ensures channel.queue == old(channel.queue) + if alive && old(|channel.queue|) < 1024 then [e] else []
      ensures channel.accepted == old(channel.accepted) + if alive && old(|channel.queue|) < 1024 then [e] else []
      ensures channel.sender == old(channel.sender)
    {
      channel := channel.(tapped := channel.tapped + [e]);
      if alive && |channel.queue| < QUEUE_CAPACITY {
        channel := channel.(accepted := channel.accepted + [e], queue := channel.queue + [e]);
      } else {
        channel := channel.(dropped := channel.dropped + 1);
      }
    }
  }

  /** The awaited send of the stop signal: waits for room, gives up on a dead writer. */
  function SendStopSignal(c: Channel, alive: bool): Channel {
    if !alive then c.(sender := Gone)
    else if |c.queue| < QUEUE_CAPACITY then c.(sender := Gone, queue := c.queue + [Stop])
    else c
  }

  /** `alive` says that the receiving half has not been dropped. */
  function HubNext(c: Channel, alive: bool, a: HubAction): Channel {
    match a
    case Install => if c.sender.Offered? then c.(sender := Installed) else c
    case Refuse => if c.sender.Offered? then c.(sender := Gone, refused := true) else c
    case Tap(e) => if c.sender.Installed? && !e.Stop? then TrySend(c, alive, e) else c
    case Take => if c.sender.Installed? then c.(sender := Stopping) else c
    case SendStop => if c.sender.Stopping? then SendStopSignal(c, alive) else c
    case Abandon => if c.sender.Installed? || c.sender.Stopping? then c.(sender := Gone) else c
  }

  // ---- the writer's side ----

  /** What the writer gets next, if it need not wait: the end of the channel or its head. */
  function Incoming(c: Channel, micros: nat, writeOk: bool, flushOk: bool): Option<Input> {
    if c.queue == [] then (if c.sender.Gone? then Some(Input.Closed) else None)
    else Some(Received(c.queue[0], micros, writeOk, flushOk))
  }

  /** The head of the queue is an event. */
  predicate HeadIsEvent(c: Channel) { c.queue != [] && !c.queue[0].Stop? }

  function Popped(c: Channel, writeOk: bool): Channel {
    if c.queue == [] then c
    else c.(queue := c.queue[1..], lost := if HeadIsEvent(c) && !writeOk then c.lost + [c.queue[0]] else c.lost)
  }

  function ReceiveNext(s: State, header: string, delay: nat, writeOk: bool, flushOk: bool): State {
    var input := Incoming(s.channel, s.clock + delay, writeOk, flushOk);
    if !s.writer.phase.Running? || input.None? then s
    else
      s.(writer := WriterNext(s.writer, header, input.value),
         channel := Popped(s.channel, writeOk), clock := s.clock + delay)
  }

  function Refused(s: State, dbOk: bool): nat { s.refusals + if dbOk then 0 else 1 }

  /** The last database write, and the return of the writer. */
  function Conclude(s: State, dbOk: bool): State {
    if s.finished then s
    else if s.writer.phase.Aborting? then
      s.(finished := true, writer := s.writer.(phase := Done(false)), refusals := Refused(s, dbOk),
         row := if dbOk then s.row.(status := Failed) else s.row)
    else if s.writer.phase == Done(true) then
      s.(finished := true, refusals := Refused(s, dbOk),
         row := if !dbOk then s.row
                else if s.channel.dropped > 0 then s.row.(status := Failed)
                else Row(Completed, s.writer.eventCount, s.writer.bytesWritten))
    else s
  }

  function Next(s: State, header: string, a: Action): State {
    match a
    case Hub(h) => s.(channel := HubNext(s.channel, !s.finished, h))
    case Rollback(dbOk) =>
      if s.channel.refused
      then s.(row := if dbOk then s.row.(status := Failed) else s.row, refusals := Refused(s, dbOk))
      else s
    case Open(fileOk, headerOk) => s.(writer := WriterNext(s.writer, header, Opened(fileOk, headerOk)))
    case Tick(flushOk) => s.(writer := WriterNext(s.writer, header, TimedOut(flushOk)))
    case Receive(delay, writeOk, flushOk) => ReceiveNext(s, header, delay, writeOk, flushOk)
    case Shut(ok) => s.(writer := WriterNext(s.writer, header, ShutDown(ok)))
    case Verdict(dbOk) => Conclude(s, dbOk)
  }

  function Run(s: State, header: string, actions: seq<Action>): State
    decreases |actions|
  {
    if actions == [] then s else Run(Next(s, header, actions[0]), header, actions[1..])
  }

  // ---- what every step keeps ----

  /** The queue without a stop signal at its end. */
  function Waiting(queue: seq<RecordingEvent>): seq<RecordingEvent> {
    if queue != [] && queue[|queue| - 1].Stop? then queue[..|queue| - 1] else queue
  }

  predicate NoStop(events: seq<RecordingEvent>) { forall i :: 0 <= i < |events| ==> !events[i].Stop? }

  /** The stop signal comes last, once, and only when nobody can send any more. */
  ghost predicate StopIsLast(c: Channel) {
    |c.queue| <= QUEUE_CAPACITY && NoStop(Waiting(c.queue)) && (Waiting(c.queue) != c.queue ==> c.sender.Gone?)
  }

  /** Once the writer leaves its loop in good order, nobody sends and nothing waits. */
  ghost predicate QuietAfterLoop(c: Channel, phase: Phase) {
    phase.Closing? || phase == Done(true) ==> c.queue == [] && c.sender.Gone?
  }

  function EventsOf(entries: Entries): (events: seq<RecordingEvent>)
    ensures |events| == |entries|
  {
    if entries == [] then [] else EventsOf(entries[..|entries| - 1]) + [entries[|entries| - 1].0]
  }

  predicate HealthyPhase(p: Phase) { !p.Aborting? && p != Done(false) }

  /** Every event queued is in the file or still queued, but for the one whose write
      failed and stopped the writer. */
  ghost predicate Accounted(c: Channel, phase: Phase, entries: Entries) {
    && c.accepted == EventsOf(entries) + c.lost + Waiting(c.queue)
    && |c.lost| <= 1
    && (HealthyPhase(phase) ==> c.lost == [])
  }

  /** `kept` arises from `all` by leaving out elements. */
  ghost predicate Subsequence<T(!new)>(kept: seq<T>, all: seq<T>)
    decreases |all|
  {
    if all == [] then kept == []
    else
      || Subsequence(kept, all[..|all| - 1])
      || (kept != [] && kept[|kept| - 1] == all[|all| - 1] && Subsequence(kept[..|kept| - 1], all[..|all| - 1]))
  }

  ghost predicate DropsCounted(c: Channel) {
    && |c.tapped| == |c.accepted| + c.dropped
    && Subsequence(c.accepted, c.tapped)
    && NoStop(c.tapped)
    && (c.sender.Offered? || c.refused ==> c.tapped == [])
    && (c.refused ==> c.sender.Gone?)
  }

  /** Times never go back, and none is later than `clock`. */
  ghost predicate TimesInOrder(entries: Entries, clock: nat)
    decreases |entries|
  {
    entries == [] ||
    (entries[|entries| - 1].1 <= clock && TimesInOrder(entries[..|entries| - 1], entries[|entries| - 1].1))
  }

  /** The row says completed only when nothing was dropped and the writer got through;
      otherwise, unless the database refuses, it ends as failed. */
  ghost predicate Honest(s: State) {
    && (s.finished ==> s.writer.phase.Done?) && (s.writer.phase == Done(false) ==> s.finished)
    && (s.row.status.Completed? ==>
         && s.finished && s.writer.phase == Done(true) && s.channel.dropped == 0
         && s.row.eventCount == s.writer.eventCount && s.row.fileSize == s.writer.bytesWritten)
    && (s.finished && s.refusals == 0 && (s.writer.phase == Done(false) || s.channel.dropped > 0)
       ==> s.row.status.Failed?)
  }

  ghost predicate Inv(s: State, header: string) {
    && WriterOk(s.writer, header) && StopIsLast(s.channel) && QuietAfterLoop(s.channel, s.writer.phase)
    && Accounted(s.channel, s.writer.phase, s.writer.entries) && DropsCounted(s.channel)
    && TimesInOrder(s.writer.entries, s.clock) && Honest(s)
  }

  lemma WaitingTail(queue: seq<RecordingEvent>)
    requires queue != [] && NoStop(Waiting(queue))
    ensures queue[0].Stop? ==> queue == [Stop] && Waiting(queue) == []
    ensures !queue[0].Stop? ==> Waiting(queue) == [queue[0]] + Waiting(queue[1..])
    ensures NoStop(Waiting(queue[1..]))
    ensures Waiting(queue[1..]) != queue[1..] ==> Waiting(queue) != queue
  {
  }

  lemma WaitingSnoc(queue: seq<RecordingEvent>, e: RecordingEvent)
    ensures Waiting(queue + [e]) == if e.Stop? then queue else queue + [e]
  {
  }

  lemma StopStaysLast(c: Channel, alive: bool, a: HubAction)
    requires StopIsLast(c)
    ensures StopIsLast(HubNext(c, alive, a))
  {
    if a.Tap? {
      WaitingSnoc(c.queue, a.event);
    } else if a.SendStop? {
      WaitingSnoc(c.queue, Stop);
    }
  }

  lemma HubKeepsAccount(c: Channel, alive: bool, a: HubAction, phase: Phase, entries: Entries)
    requires StopIsLast(c) && Accounted(c, phase, entries)
    ensures Accounted(HubNext(c, alive, a), phase, entries)
  {
    if a.Tap? {
      WaitingSnoc(c.queue, a.event);
      assert EventsOf(entries) + c.lost + (c.queue + [a.event]) == EventsOf(entries) + c.lost + c.queue + [a.event];
    } else if a.SendStop? {
      WaitingSnoc(c.queue, Stop);
    }
  }

  lemma HubKeepsQuiet(c: Channel, alive: bool, a: HubAction, phase: Phase)
    requires QuietAfterLoop(c, phase)
    ensures QuietAfterLoop(HubNext(c, alive, a), phase)
    ensures phase == Done(true) ==> HubNext(c, alive, a).dropped == c.dropped
  {
  }

  lemma SubsequenceSnoc(kept: seq<RecordingEvent>, all: seq<RecordingEvent>, e: RecordingEvent)
    requires Subsequence(kept, all)
    ensures Subsequence(kept, all + [e]) && Subsequence(kept + [e], all + [e])
  {
    assert (all + [e])[..|all|] == all && (kept + [e])[..|kept|] == kept;
  }

  lemma DropsStayCounted(c: Channel, alive: bool, a: HubAction)
    requires DropsCounted(c)
    ensures DropsCounted(HubNext(c, alive, a))
  {
    if a.Tap? {
      SubsequenceSnoc(c.accepted, c.tapped, a.event);
    }
  }

  /** What the writer's own steps leave alone. */
  lemma WriterEffect(w: Writer, header: string, input: Input)
    requires input.Opened? || input.TimedOut? || input.ShutDown?
    ensures var w' := WriterNext(w, header, input);
            && w'.entries == (if input.Opened? && w.phase.Opening? && w'.phase.Running? then [] else w.entries)
            && (w'.phase.Closing? ==> w.phase.Closing?)
            && (w'.phase == Done(true) ==> w.phase.Closing? || w.phase == Done(true))
            && (w'.phase == Done(false) ==> w.phase == Done(false))
            && (w.phase.Done? || w.phase.Aborting? ==> w' == w)
  {
  }

  /** How the writer looks after taking in the head of the queue, or its end. */
  ghost predicate TookIn(w: Writer, w': Writer, c: Channel, micros: nat, writeOk: bool) {
    && (w'.phase.Running? || w'.phase.Closing? || w'.phase.Aborting?)
    && (w'.phase.Running? ==> HeadIsEvent(c) && writeOk)
    && (w'.phase.Closing? ==> !HeadIsEvent(c) && (c.queue == [] ==> c.sender.Gone?))
    && (HeadIsEvent(c) && !writeOk ==> w'.phase.Aborting?)
    && w'.entries == (if HeadIsEvent(c) && writeOk then w.entries + [(c.queue[0], micros)] else w.entries)
  }

  lemma ReceiveTakesIn(s: State, s': State, header: string, delay: nat, writeOk: bool, flushOk: bool)
    requires s' == ReceiveNext(s, header, delay, writeOk, flushOk) && s.writer.phase.Running?
    requires Incoming(s.channel, s.clock + delay, writeOk, flushOk).Some?
    ensures TookIn(s.writer, s'.writer, s.channel, s.clock + delay, writeOk)
    ensures s'.channel == Popped(s.channel, writeOk) && s'.clock == s.clock + delay
    ensures s'.finished == s.finished && s'.row == s.row && s'.refusals == s.refusals
    ensures s'.writer == WriterNext(s.writer, header, Incoming(s.channel, s.clock + delay, writeOk, flushOk).value)
  {
    hide ToAsciicastLine;
  }

  lemma PoppedKeepsStop(c: Channel, w: Writer, w': Writer, micros: nat, writeOk: bool)
    requires StopIsLast(c) && TookIn(w, w', c, micros, writeOk)
    ensures StopIsLast(Popped(c, writeOk)) && QuietAfterLoop(Popped(c, writeOk), w'.phase)
  {
    if c.queue != [] {
      WaitingTail(c.queue);
    }
  }

  lemma MoveOver(events: seq<RecordingEvent>, lost: seq<RecordingEvent>,
                 e: RecordingEvent, waiting: seq<RecordingEvent>)
    requires lost == []
    ensures events + lost + ([e] + waiting) == events + [e] + waiting
    ensures events + [e] + waiting == events + [e] + lost + waiting
    ensures events + [e] + waiting == events + (lost + [e]) + waiting
  {
    assert lost + [e] == [e] && events + lost == events && events + [e] + lost == events + [e];
  }

  lemma PoppedKeepsAccount(c: Channel, w: Writer, w': Writer, micros: nat, writeOk: bool)
    requires StopIsLast(c) && Accounted(c, w.phase, w.entries) && w.phase.Running? && TookIn(w, w', c, micros, writeOk)
    ensures Accounted(Popped(c, writeOk), w'.phase, w'.entries)
  {
    if c.queue != [] {
      WaitingTail(c.queue);
      MoveOver(EventsOf(w.entries), c.lost, c.queue[0], Waiting(c.queue[1..]));
      assert (w.entries + [(c.queue[0], micros)])[..|w.entries|] == w.entries;
    }
  }

  lemma PoppedKeepsDrops(c: Channel, writeOk: bool)
    requires DropsCounted(c)
    ensures DropsCounted(Popped(c, writeOk))
  {
  }

  lemma TimesExtend(entries: Entries, clock: nat, e: RecordingEvent, delay: nat)
    requires TimesInOrder(entries, clock)
    ensures TimesInOrder(entries, clock + delay)
    ensures TimesInOrder(entries + [(e, clock + delay)], clock + delay)
  {
    assert (entries + [(e, clock + delay)])[..|entries|] == entries;
  }

  lemma TookInKeepsTimes(w: Writer, w': Writer, c: Channel, clock: nat, delay: nat, writeOk: bool)
    requires TimesInOrder(w.entries, clock) && TookIn(w, w', c, clock + delay, writeOk)
    ensures TimesInOrder(w'.entries, clock + delay)
  {
    TimesExtend(w.entries, clock, if c.queue == [] then Stop else c.queue[0], delay);
  }

  lemma HubStaysHonest(s: State, h: HubAction)
    requires Honest(s) && QuietAfterLoop(s.channel, s.writer.phase)
    ensures Honest(s.(channel := HubNext(s.channel, !s.finished, h)))
  {
    HubKeepsQuiet(s.channel, !s.finished, h, s.writer.phase);
  }

  lemma HubStepKeeps(s: State, header: string, h: HubAction)
    requires Inv(s, header)
    ensures Inv(Next(s, header, Hub(h)), header)
  {
    hide HubNext, WriterOk, StopIsLast, QuietAfterLoop, Accounted, DropsCounted, TimesInOrder, Honest;
    StopStaysLast(s.channel, !s.finished, h);
    HubKeepsAccount(s.channel, !s.finished, h, s.writer.phase, s.writer.entries);
    HubKeepsQuiet(s.channel, !s.finished, h, s.writer.phase);
    DropsStayCounted(s.channel, !s.finished, h);
    HubStaysHonest(s, h);
  }

  /** Steps of the writer outside its receive. */
  lemma FedKeeps(s: State, s': State, header: string, input: Input)
    requires Inv(s, header) && WriterOk(s'.writer, header)
    requires input.Opened? || input.TimedOut? || input.ShutDown?
    requires s'.writer == WriterNext(s.writer, header, input) && s' == s.(writer := s'.writer)
    ensures Inv(s', header)
  {
    WriterEffect(s.writer, header, input);
  }

  lemma FeedStepKeeps(s: State, header: string, input: Input)
    requires Inv(s, header) && (input.Opened? || input.TimedOut? || input.ShutDown?)
    ensures Inv(s.(writer := WriterNext(s.writer, header, input)), header)
  {
    hide WriterNext, WriterOk, StopIsLast, QuietAfterLoop, Accounted, DropsCounted, TimesInOrder, Honest;
    WriterStepKeeps(s.writer, header, input);
    FedKeeps(s, s.(writer := WriterNext(s.writer, header, input)), header, input);
  }

  lemma TookInStaysHonest(s: State, s': State, delay: nat, writeOk: bool)
    requires Honest(s) && s.writer.phase.Running?
    requires TookIn(s.writer, s'.writer, s.channel, s.clock + delay, writeOk)
             && s'.channel == Popped(s.channel, writeOk)
    requires s'.finished == s.finished && s'.row == s.row && s'.refusals == s.refusals
    ensures Honest(s')
  {
  }

  lemma TookInKeeps(s: State, s': State, header: string, delay: nat, writeOk: bool)
    requires Inv(s, header) && s.writer.phase.Running? && WriterOk(s'.writer, header)
    requires TookIn(s.writer, s'.writer, s.channel, s.clock + delay, writeOk)
    requires s'.channel == Popped(s.channel, writeOk) && s'.clock == s.clock + delay
    requires s'.finished == s.finished && s'.row == s.row && s'.refusals == s.refusals
    ensures Inv(s', header)
  {
    hide Popped, TookIn, WriterOk, StopIsLast, QuietAfterLoop, Accounted, DropsCounted, TimesInOrder, Honest;
    PoppedKeepsStop(s.channel, s.writer, s'.writer, s.clock + delay, writeOk);
    PoppedKeepsAccount(s.channel, s.writer, s'.writer, s.clock + delay, writeOk);
    PoppedKeepsDrops(s.channel, writeOk);
    TookInKeepsTimes(s.writer, s'.writer, s.channel, s.clock, delay, writeOk);
    TookInStaysHonest(s, s', delay, writeOk);
  }

  lemma ReceiveStepKeeps(s: State, s': State, header: string, delay: nat, writeOk: bool, flushOk: bool)
    requires Inv(s, header) && s' == ReceiveNext(s, header, delay, writeOk, flushOk)
    ensures Inv(s', header)
  {
    hide WriterNext, Incoming, TookIn, WriterOk, Inv;
    var input := Incoming(s.channel, s.clock + delay, writeOk, flushOk);
    if s.writer.phase.Running? && input.Some? {
      ReceiveTakesIn(s, s', header, delay, writeOk, flushOk);
      WriterIsOk(s, header);
      WriterStepKeeps(s.writer, header, input.value);
      TookInKeeps(s, s', header, delay, writeOk);
    }
  }

  lemma WriterIsOk(s: State, header: string)
    requires Inv(s, header)
    ensures WriterOk(s.writer, header)
  {
  }

  lemma VerdictStepKeeps(s: State, header: string, dbOk: bool)
    requires Inv(s, header)
    ensures Inv(Conclude(s, dbOk), header)
  {
  }

  lemma {:induction false} RunKeepsInv(s: State, header: string, actions: seq<Action>)
    requires Inv(s, header)
    ensures Inv(Run(s, header, actions), header)
    decreases |actions|
  {
    if actions != [] {
      StepKeepsInv(s, header, actions[0]);
      RunKeepsInv(Next(s, header, actions[0]), header, actions[1..]);
    }
  }

  lemma StepKeepsInv(s: State, header: string, a: Action)
    requires Inv(s, header)
    ensures Inv(Next(s, header, a), header)
  {
    match a
    case Hub(h) => HubStepKeeps(s, header, h);
    case Rollback(_) =>
    case Open(fileOk, headerOk) => FeedStepKeeps(s, header, Opened(fileOk, headerOk));
    case Tick(flushOk) => FeedStepKeeps(s, header, TimedOut(flushOk));
    case Receive(delay, writeOk, flushOk) => ReceiveStepKeeps(s, Next(s, header, a), header, delay, writeOk, flushOk);
    case Shut(ok) => FeedStepKeeps(s, header, ShutDown(ok));
    case Verdict(dbOk) => VerdictStepKeeps(s, header, dbOk);
  }

  lemma Reached(header: string, actions: seq<Action>)
    ensures Inv(Run(START, header, actions), header)
  {
    RunKeepsInv(START, header, actions);
  }

  // ---- main results ----

  lemma StopOnlyAtEnd(c: Channel, i: nat)
    requires StopIsLast(c) && i < |c.queue| && c.queue[i].Stop?
    ensures i == |c.queue| - 1 && c.sender.Gone?
  {
  }

  /** The action takes an event from the queue and fails to write its line. */
  predicate WriteFails(s: State, a: Action) {
    a.Receive? && !a.writeOk && s.writer.phase.Running? && HeadIsEvent(s.channel)
  }

  predicate SomeWriteFails(s: State, header: string, actions: seq<Action>)
    decreases |actions|
  {
    actions != [] && (WriteFails(s, actions[0]) || SomeWriteFails(Next(s, header, actions[0]), header, actions[1..]))
  }

  lemma LostStep(s: State, header: string, a: Action)
    ensures Next(s, header, a).channel.lost
         == if WriteFails(s, a) then s.channel.lost + [s.channel.queue[0]] else s.channel.lost
  {
    hide WriterNext;
  }

  lemma {:induction false} LostIff(s: State, header: string, actions: seq<Action>)
    ensures Run(s, header, actions).channel.lost != [] <==> s.channel.lost != [] || SomeWriteFails(s, header, actions)
    decreases |actions|
  {
    if actions != [] {
      hide Next, WriteFails;
      LostStep(s, header, actions[0]);
      LostIff(Next(s, header, actions[0]), header, actions[1..]);
    }
  }

  /** In every run of a slot, whatever fails: each event offered is in the file, in the
      queue, counted as dropped, or the one event whose write failed, in the order offered;
      and the stop signal is the last item in the queue. */
  lemma Conservation(header: string, actions: seq<Action>)
    ensures var s := Run(START, header, actions);
            && |s.channel.tapped|
               == |s.writer.entries| + |s.channel.lost| + |Waiting(s.channel.queue)| + s.channel.dropped
            && Subsequence(EventsOf(s.writer.entries) + s.channel.lost + Waiting(s.channel.queue), s.channel.tapped)
            && |s.channel.lost| <= 1
            && (s.channel.lost != [] <==> SomeWriteFails(START, header, actions))
    ensures var c := Run(START, header, actions).channel;
            forall i :: 0 <= i < |c.queue| && c.queue[i].Stop? ==> i == |c.queue| - 1 && c.sender.Gone?
  {
    Reached(header, actions);
    LostIff(START, header, actions);
    hide Run, Next, SomeWriteFails;
    var c := Run(START, header, actions).channel;
    forall i | 0 <= i < |c.queue| && c.queue[i].Stop? ensures i == |c.queue| - 1 && c.sender.Gone? {
      StopOnlyAtEnd(c, i);
    }
  }

  lemma {:induction false} FullSubsequence(kept: seq<RecordingEvent>, all: seq<RecordingEvent>)
    requires Subsequence(kept, all)
    ensures |kept| <= |all|
    ensures |kept| == |all| ==> kept == all
    decreases |all|
  {
    if all != [] {
      var front := all[..|all| - 1];
      if Subsequence(kept, front) {
        FullSubsequence(kept, front);
      } else {
        FullSubsequence(kept[..|kept| - 1], front);
        assert kept == kept[..|kept| - 1] + [kept[|kept| - 1]] && all == front + [all[|all| - 1]];
      }
    }
  }

  lemma CompletedHasAll(s: State, header: string)
    requires Inv(s, header) && s.row.status.Completed?
    ensures s.channel.tapped == EventsOf(s.writer.entries) && s.writer.file == FileText(header, s.writer.entries)
    ensures s.row.eventCount == |s.channel.tapped| && s.row.fileSize == |Encoded(s.writer.file)|
  {
    FullSubsequence(s.channel.accepted, s.channel.tapped);
    assert EventsOf(s.writer.entries) + [] == EventsOf(s.writer.entries);
  }

  /** What a reader finds in the file: the header and, line by line, `tapped` with times
      that never go back. */
  ghost predicate Faithful(file: string, header: string, tapped: seq<RecordingEvent>, entries: Entries) {
    && |entries| == |tapped|
    && |Lines(file)| == |tapped| + 1 && Lines(file)[0] == header
    && (forall i :: 0 <= i < |tapped| ==>
         !tapped[i].Stop? && ReadLine(Lines(file)[i + 1]) == Some(Played(entries[i].1, Shows(tapped[i]))))
    && (forall i, j :: 0 <= i < j < |entries| ==> entries[i].1 <= entries[j].1)
  }

  lemma {:induction false} TimesPairwise(entries: Entries, clock: nat)
    requires TimesInOrder(entries, clock)
    ensures forall i :: 0 <= i < |entries| ==> entries[i].1 <= clock
    ensures forall i, j :: 0 <= i < j < |entries| ==> entries[i].1 <= entries[j].1
    decreases |entries|
  {
    if entries != [] {
      TimesPairwise(entries[..|entries| - 1], entries[|entries| - 1].1);
    }
  }

  lemma {:induction false} EventsAt(entries: Entries)
    ensures forall i :: 0 <= i < |entries| ==> EventsOf(entries)[i] == entries[i].0
  {
    if entries != [] {
      EventsAt(entries[..|entries| - 1]);
    }
  }

  lemma FileIsFaithful(header: string, entries: Entries, clock: nat)
    requires Json.Printable(header) && Clean(entries) && TimesInOrder(entries, clock)
    ensures Faithful(FileText(header, entries), header, EventsOf(entries), entries)
  {
    hide ToAsciicastLine;
    FileTextLines(header, entries);
    FileRoundTrip(header, entries);
    EventsAt(entries);
    TimesPairwise(entries, clock);
  }

  /** A recording is marked completed only if its file consists of the header and the
      lines of all events ever offered, in order and with times that never go back:
      split into lines it has one more than the row's event count, and each of them
      decodes to its event. */
  lemma CompletedIsFaithful(header: string, actions: seq<Action>)
    requires Json.Printable(header)
    ensures var s := Run(START, header, actions);
            s.row.status.Completed? ==>
              && Faithful(s.writer.file, header, s.channel.tapped, s.writer.entries)
              && s.row.eventCount == |s.channel.tapped|
              && s.row.fileSize == |Encoded(s.writer.file)|
  {
    Reached(header, actions);
    var s := Run(START, header, actions);
    if s.row.status.Completed? {
      CompletedHasAll(s, header);
      FileIsFaithful(header, s.writer.entries, s.clock);
    }
  }

  lemma {:induction false} RunConcat(s: State, header: string, first: seq<Action>, last: Action)
    ensures Run(s, header, first + [last]) == Next(Run(s, header, first), header, last)
    decreases |first|
  {
    if first == [] {
      assert first + [last] == [last] && [last][1..] == [];
    } else {
      RunConcat(Next(s, header, first[0]), header, first[1..], last);
      assert (first + [last])[1..] == first[1..] + [last];
    }
  }

  // ---- I/O errors, from the actions alone ----

  /** How far the recording has come by what happened, whether I/O succeeded or not. */
  datatype Stage = Unopened | Looping | Ended | Settled

  function StageOf(header: string, actions: seq<Action>): Stage
    decreases |actions|
  {
    if actions == [] then Unopened
    else
      var front := actions[..|actions| - 1];
      var before, c := StageOf(header, front), Run(START, header, front).channel;
      match actions[|actions| - 1]
      case Open(_, _) => if before.Unopened? then Looping else before
      case Receive(_, _, _) =>
        if before.Looping? && !HeadIsEvent(c) && (c.queue != [] || c.sender.Gone?) then Ended else before
      case Shut(_) => if before.Ended? then Settled else before
      case _ => before
  }

  /** Bytes of the lines since the last flush. */
  function Unflushed(header: string, actions: seq<Action>): nat
    decreases |actions|
  {
    if actions == [] then 0
    else
      var front := actions[..|actions| - 1];
      var before, s := Unflushed(header, front), Run(START, header, front);
      if !StageOf(header, front).Looping? then before
      else
        match actions[|actions| - 1]
        case Tick(_) => 0
        case Receive(delay, _, _) =>
          if !HeadIsEvent(s.channel) then before
          else
            var sum := before + LineSize(s.channel.queue[0], s.clock + delay);
            if sum < 64 * 1024 then sum else 0
        case _ => before
  }

  /** The file cannot be created or take its header, what is pending cannot be flushed, a
      line cannot be written or flushed when that is due, or the file cannot be shut. */
  predicate IoFails(header: string, front: seq<Action>, a: Action) {
    var s, stage := Run(START, header, front), StageOf(header, front);
    match a
    case Open(fileOk, headerOk) => stage.Unopened? && !(fileOk && headerOk)
    case Tick(flushOk) => stage.Looping? && Unflushed(header, front) > 0 && !flushOk
    case Receive(delay, writeOk, flushOk) =>
      && stage.Looping? && HeadIsEvent(s.channel)
      && (!writeOk ||
         (Unflushed(header, front) + LineSize(s.channel.queue[0], s.clock + delay) >= 64 * 1024 && !flushOk))
    case Shut(ok) => stage.Ended? && !ok
    case _ => false
  }

  ghost predicate IoFailed(header: string, actions: seq<Action>) {
    exists i :: 0 <= i < |actions| && IoFails(header, actions[..i], actions[i])
  }

  lemma IoFailedSnoc(header: string, front: seq<Action>, last: Action)
    ensures IoFailed(header, front + [last]) <==> IoFailed(header, front) || IoFails(header, front, last)
  {
    hide IoFails;
    var actions := front + [last];
    assert actions[..|front|] == front && actions[|front|] == last;
    forall i | 0 <= i < |front| ensures actions[..i] == front[..i] && actions[i] == front[i] {
    }
    if IoFailed(header, front) {
      var i :| 0 <= i < |front| && IoFails(header, front[..i], front[i]);
      assert IoFails(header, actions[..i], actions[i]);
    }
  }

  predicate PhaseAt(phase: Phase, stage: Stage) {
    match stage
    case Unopened => phase.Opening?
    case Looping => phase.Running?
    case Ended => phase.Closing?
    case Settled => phase == Done(true)
  }

  /** The writer is where the actions say, with what they left unflushed. */
  ghost predicate InStep(w: Writer, header: string, actions: seq<Action>) {
    && PhaseAt(w.phase, StageOf(header, actions))
    && (w.phase.Opening? || w.phase.Running? ==> w.unflushedBytes == Unflushed(header, actions))
  }

  lemma FirstSteps(header: string, front: seq<Action>, last: Action)
    ensures (front + [last])[..|front|] == front
  {
  }

  lemma StageStep(s: State, header: string, front: seq<Action>, last: Action)
    requires s == Run(START, header, front) && InStep(s.writer, header, front) && WriterOk(s.writer, header)
    requires !s.finished || s.writer.phase.Done?
    ensures var t := Next(s, header, last);
            if IoFails(header, front, last) then !HealthyPhase(t.writer.phase)
            else InStep(t.writer, header, front + [last])
  {
    hide Run, ToAsciicastLine;
    FirstSteps(header, front, last);
    if last.Receive? && HeadIsEvent(s.channel) {
      SizeIsLineBytes(s.channel.queue[0], s.clock + last.delay);
    }
  }

  lemma UnhealthyStays(s: State, header: string, a: Action)
    requires !HealthyPhase(s.writer.phase)
    ensures !HealthyPhase(Next(s, header, a).writer.phase)
  {
  }

  /** In every run: the writer aborts, or has aborted, exactly if some I/O failed, and
      otherwise its phase is that of the actions. */
  lemma {:induction false} PhaseIs(header: string, actions: seq<Action>)
    ensures var w := Run(START, header, actions).writer;
            if IoFailed(header, actions) then !HealthyPhase(w.phase) else InStep(w, header, actions)
    decreases |actions|
  {
    if actions != [] {
      hide Run, Next, InStep, IoFailed, IoFails, HealthyPhase;
      var front, last := actions[..|actions| - 1], actions[|actions| - 1];
      assert actions == front + [last];
      RunConcat(START, header, front, last);
      IoFailedSnoc(header, front, last);
      PhaseIs(header, front);
      if IoFailed(header, front) {
        UnhealthyStays(Run(START, header, front), header, last);
      } else {
        Reached(header, front);
        StageStep(Run(START, header, front), header, front, last);
      }
    }
  }

  /** The I/O errors of a run are exactly those after which the writer gives up, and only a
      run without any that got through all stages leaves it done. */
  lemma WriterGivesUpIff(header: string, actions: seq<Action>)
    ensures var phase := Run(START, header, actions).writer.phase;
            && (IoFailed(header, actions) <==> phase.Aborting? || phase == Done(false))
            && (phase == Done(true) <==> !IoFailed(header, actions) && StageOf(header, actions) == Settled)
  {
    hide Run, IoFailed, StageOf;
    PhaseIs(header, actions);
  }

  /** Any drop and any I/O error: never completed, and failed in the end unless the
      database refuses the write. */
  lemma GapsEndFailed(header: string, actions: seq<Action>)
    ensures var s := Run(START, header, actions);
            s.channel.dropped > 0 || IoFailed(header, actions) ==>
              !s.row.status.Completed? && (s.finished && s.refusals == 0 ==> s.row.status.Failed?)
  {
    hide Run, IoFailed, StageOf;
    Reached(header, actions);
    WriterGivesUpIff(header, actions);
  }

  /** A start that the hub refuses is rolled back to failed, but the writer does not know:
      its verdict reads completed exactly when its I/O and its write go through, whether
      the rollback came before or not. */
  lemma RefusedShowsCompletedIff(header: string, actions: seq<Action>, dbOk: bool)
    ensures var s := Run(START, header, actions);
            s.channel.refused && !s.finished && (IoFailed(header, actions) || StageOf(header, actions) == Settled) ==>
              (Next(s, header, Verdict(dbOk)).row.status.Completed? <==> !IoFailed(header, actions) && dbOk)
  {
    hide Run, IoFailed, StageOf;
    Reached(header, actions);
    WriterGivesUpIff(header, actions);
    var s := Run(START, header, actions);
    if s.channel.refused {
      assert |s.channel.tapped| == 0;
    }
  }

  /** The database takes the writer's verdict that all is well. */
  predicate Completes(s: State, a: Action) {
    a == Verdict(true) && !s.finished && s.writer.phase == Done(true) && s.channel.dropped == 0
  }

  predicate RollsBack(s: State, a: Action) {
    a == Rollback(true) && s.channel.refused
  }

  lemma RowStep(s: State, header: string, a: Action)
    requires Honest(s)
    ensures Next(s, header, a).row.status.Completed?
       <==> Completes(s, a) || (s.row.status.Completed? && !RollsBack(s, a))
  {
    hide WriterNext, ReceiveNext;
    if a.Receive? {
      ReceiveKeepsRow(s, header, a.delay, a.writeOk, a.flushOk);
    }
  }

  lemma ReceiveKeepsRow(s: State, header: string, delay: nat, writeOk: bool, flushOk: bool)
    ensures ReceiveNext(s, header, delay, writeOk, flushOk).row == s.row
  {
  }

  /** The database takes the verdict of a run that got through all its stages without an
      I/O error and without a drop. */
  ghost predicate GoodVerdict(header: string, front: seq<Action>, a: Action) {
    && a == Verdict(true) && !Run(START, header, front).finished
    && StageOf(header, front) == Settled && !IoFailed(header, front)
    && Run(START, header, front).channel.dropped == 0
  }

  lemma GoodVerdictCompletes(header: string, front: seq<Action>, a: Action)
    ensures GoodVerdict(header, front, a) <==> Completes(Run(START, header, front), a)
  {
    hide Run, IoFailed, StageOf;
    WriterGivesUpIff(header, front);
  }

  /** Action `i` of the run completes the recording, and no later one rolls it back. */
  ghost predicate CompletedAt(header: string, actions: seq<Action>, i: nat) {
    && i < |actions|
    && GoodVerdict(header, actions[..i], actions[i])
    && forall j {:trigger actions[j]} :: i < j < |actions| ==> !RollsBack(Run(START, header, actions[..j]), actions[j])
  }

  lemma CompletedAtSnoc(header: string, front: seq<Action>, last: Action, i: nat)
    ensures CompletedAt(header, front + [last], i)
       <==> (if i < |front| then CompletedAt(header, front, i) && !RollsBack(Run(START, header, front), last)
             else i == |front| && GoodVerdict(header, front, last))
  {
    hide Run, GoodVerdict, RollsBack;
    var actions := front + [last];
    assert actions[..|front|] == front && actions[|front|] == last;
    forall j | 0 <= j < |front| ensures actions[..j] == front[..j] && actions[j] == front[j] {
    }
  }

  /** Over whole runs, whatever failed and in whichever order: a recording reads completed
      exactly when the database took the verdict of a run without I/O errors and drops, and
      no successful rollback came after it. */
  lemma {:induction false} CompletedIff(header: string, actions: seq<Action>)
    ensures Run(START, header, actions).row.status.Completed? <==> exists i: nat :: CompletedAt(header, actions, i)
    decreases |actions|
  {
    if actions != [] {
      hide Next, Completes, GoodVerdict, RollsBack, CompletedAt;
      var front, last := actions[..|actions| - 1], actions[|actions| - 1];
      assert actions == front + [last];
      RunConcat(START, header, front, last);
      Reached(header, front);
      RowStep(Run(START, header, front), header, last);
      CompletedIff(header, front);
      GoodVerdictCompletes(header, front, last);
      CompletedAtCases(header, front, last);
    }
  }

  lemma CompletedAtCases(header: string, front: seq<Action>, last: Action)
    ensures (exists i: nat :: CompletedAt(header, front + [last], i))
       <==> || GoodVerdict(header, front, last)
            || ((exists i: nat :: CompletedAt(header, front, i)) && !RollsBack(Run(START, header, front), last))
  {
    hide Run, GoodVerdict, RollsBack;
    CompletedAtSnoc(header, front, last, |front|);
    forall i: nat
      ensures CompletedAt(header, front + [last], i)
         <==> (if i < |front| then CompletedAt(header, front, i) && !RollsBack(Run(START, header, front), last)
               else i == |front| && GoodVerdict(header, front, last))
    {
      CompletedAtSnoc(header, front, last, i);
    }
    assert forall i: nat :: CompletedAt(header, front, i) ==> i < |front|;
  }

  /** So a recording that never started can end up listed as completed. */
  lemma RolledBackThenCompleted(header: string)
    ensures var s := Run(START, header, [Hub(Refuse)] + [Rollback(true)] + [Open(true, true)] + [Receive(0, true, true)]
                                        + [Shut(true)] + [Verdict(true)]);
            s.channel.refused && s.channel.tapped == [] && s.row == Row(Completed, 0, LineBytes(header))
  {
    var none: seq<Action> := [];
    assert none + [Hub(Refuse)] == [Hub(Refuse)];
    RunConcat(START, header, none, Hub(Refuse));
    var a := [Hub(Refuse)];
    RunConcat(START, header, a, Rollback(true));
    var b := a + [Rollback(true)];
    RunConcat(START, header, b, Open(true, true));
    var c := b + [Open(true, true)];
    RunConcat(START, header, c, Receive(0, true, true));
    var d := c + [Receive(0, true, true)];
    RunConcat(START, header, d, Shut(true));
    RunConcat(START, header, d + [Shut(true)], Verdict(true));
  }

  // ---- an undisturbed recording ----

  /** Every event is taken from the queue as soon as it is tapped, without an error. */
  function Feed(events: seq<RecordingEvent>, delay: nat): seq<Action> {
    if events == [] then []
    else Feed(events[..|events| - 1], delay) + [Hub(Tap(events[|events| - 1]))] + [Receive(delay, true, true)]
  }

  const BEGIN: seq<Action> := [Open(true, true)] + [Hub(Install)]
  const FINISH: seq<Action> :=
    [Hub(Take)] + [Hub(SendStop)] + [Receive(0, true, true)] + [Shut(true)] + [Verdict(true)]

  /** The slot is in the hub, everything tapped so far is in the file and all is well. */
  ghost predicate Keeping(s: State, header: string, events: seq<RecordingEvent>) {
    && s.channel == Channel(Installed, false, events, events, 0, [], [])
    && s.writer.phase.Running? && EventsOf(s.writer.entries) == events && WriterOk(s.writer, header)
    && !s.finished && s.row == Row(InProgress, 0, 0)
  }

  lemma BegunKeeping(header: string)
    ensures Keeping(Run(START, header, BEGIN), header, [])
  {
    RunConcat(START, header, [Open(true, true)], Hub(Install));
    var none: seq<Action> := [];
    assert none + [Open(true, true)] == [Open(true, true)];
    RunConcat(START, header, none, Open(true, true));
    Reached(header, BEGIN);
  }

  lemma TappedAndTaken(s: State, header: string, events: seq<RecordingEvent>, e: RecordingEvent, delay: nat)
    requires Keeping(s, header, events) && !e.Stop?
    ensures Keeping(Next(Next(s, header, Hub(Tap(e))), header, Receive(delay, true, true)), header, events + [e])
  {
    hide ToAsciicastLine, WriterOk;
    var s1 := Next(s, header, Hub(Tap(e)));
    assert s1.channel.queue == [e] && [e][1..] == [];
    WriterStepKeeps(s.writer, header, Received(e, s.clock + delay, true, true));
    assert (s.writer.entries + [(e, s.clock + delay)])[..|s.writer.entries|] == s.writer.entries;
  }

  lemma {:induction false} FedKeeping(header: string, events: seq<RecordingEvent>, delay: nat)
    requires NoStop(events)
    ensures Keeping(Run(START, header, BEGIN + Feed(events, delay)), header, events)
  {
    hide Run, Next, Keeping;
    if events == [] {
      assert BEGIN + Feed([], delay) == BEGIN;
      BegunKeeping(header);
    } else {
      var front, e := events[..|events| - 1], events[|events| - 1];
      var before := BEGIN + Feed(front, delay);
      FedKeeping(header, front, delay);
      RunConcat(START, header, before, Hub(Tap(e)));
      RunConcat(START, header, before + [Hub(Tap(e))], Receive(delay, true, true));
      assert BEGIN + Feed(events, delay) == before + [Hub(Tap(e))] + [Receive(delay, true, true)];
      TappedAndTaken(Run(START, header, before), header, front, e, delay);
      assert events == front + [e];
    }
  }

  lemma StopTaken(s: State, header: string, events: seq<RecordingEvent>)
    requires Keeping(s, header, events)
    ensures var t := Next(Next(Next(s, header, Hub(Take)), header, Hub(SendStop)), header, Receive(0, true, true));
            t == s.(channel := Channel(Sender.Gone, false, events, events, 0, [], []),
                    writer := s.writer.(phase := Closing))
  {
    hide OnEvent, WriterOk, EventsOf;
    var s2 := Next(Next(s, header, Hub(Take)), header, Hub(SendStop));
    assert s2.channel == Channel(Sender.Gone, false, events, events, 0, [Stop], []) && [Stop][1..] == [];
  }

  lemma Concluded(t: State, header: string)
    requires t.writer.phase.Closing? && !t.finished && t.channel.dropped == 0
    ensures Next(Next(t, header, Shut(true)), header, Verdict(true))
         == t.(writer := t.writer.(phase := Done(true)), finished := true,
               row := Row(Completed, t.writer.eventCount, t.writer.bytesWritten))
  {
  }

  lemma KeptCounts(s: State, header: string, events: seq<RecordingEvent>)
    requires Keeping(s, header, events)
    ensures EventsOf(s.writer.entries) == events && !s.finished
    ensures s.writer.eventCount == |events| && s.writer.bytesWritten == |Encoded(s.writer.file)|
  {
  }

  /** A recording that nothing disturbs completes with every event offered, however many. */
  lemma UndisturbedCompletes(header: string, events: seq<RecordingEvent>, delay: nat)
    requires NoStop(events)
    ensures var s := Run(START, header, BEGIN + Feed(events, delay) + FINISH);
            && s.row == Row(Completed, |events|, |Encoded(s.writer.file)|)
            && EventsOf(s.writer.entries) == events && s.channel.tapped == events
  {
    hide Run, Next, Keeping;
    var a := BEGIN + Feed(events, delay);
    FedKeeping(header, events, delay);
    StopTaken(Run(START, header, a), header, events);
    KeptCounts(Run(START, header, a), header, events);
    var b := a + [Hub(Take)];
    RunConcat(START, header, a, Hub(Take));
    var c := b + [Hub(SendStop)];
    RunConcat(START, header, b, Hub(SendStop));
    var d := c + [Receive(0, true, true)];
    RunConcat(START, header, c, Receive(0, true, true));
    var e := d + [Shut(true)];
    RunConcat(START, header, d, Shut(true));
    RunConcat(START, header, e, Verdict(true));
    Concluded(Run(START, header, d), header);
    assert a + FINISH == e + [Verdict(true)];
  }

  const BREAK: seq<Action> := [Hub(Abandon)] + [Receive(0, true, true)] + [Shut(true)] + [Verdict(true)]

  lemma AbandonTaken(s: State, header: string, events: seq<RecordingEvent>)
    requires Keeping(s, header, events)
    ensures var t := Next(Next(s, header, Hub(Abandon)), header, Receive(0, true, true));
            t == s.(channel := Channel(Sender.Gone, false, events, events, 0, [], []),
                    writer := s.writer.(phase := Closing))
  {
    hide OnEvent, WriterOk, EventsOf;
    assert Next(s, header, Hub(Abandon)).channel == Channel(Sender.Gone, false, events, events, 0, [], []);
  }

  /** So does one whose slot is dropped without a stop signal, as when its session ends. */
  lemma AbandonedCompletes(header: string, events: seq<RecordingEvent>, delay: nat)
    requires NoStop(events)
    ensures var s := Run(START, header, BEGIN + Feed(events, delay) + BREAK);
            && s.row == Row(Completed, |events|, |Encoded(s.writer.file)|)
            && EventsOf(s.writer.entries) == events && s.channel.tapped == events
  {
    hide Run, Next, Keeping;
    var a := BEGIN + Feed(events, delay);
    FedKeeping(header, events, delay);
    AbandonTaken(Run(START, header, a), header, events);
    KeptCounts(Run(START, header, a), header, events);
    RunConcat(START, header, a, Hub(Abandon));
    var b := a + [Hub(Abandon)];
    RunConcat(START, header, b, Receive(0, true, true));
    var c := b + [Receive(0, true, true)];
    Concluded(Run(START, header, c), header);
    RunConcat(START, header, c, Shut(true));
    RunConcat(START, header, c + [Shut(true)], Verdict(true));
    assert a + BREAK == c + [Shut(true)] + [Verdict(true)];
  }
}
