/** What an undisturbed attachment achieves, from any state the protocol can reach. */
module AttachProgress {
  import opened Retention
  import opened Broadcast
  import opened AttachProtocol

  lemma {:induction false} RunConcat<E, O>(s: State<E, O>, a: seq<Step<E, O>>, b: seq<Step<E, O>>,
                                           w: E -> nat, budget: nat, slots: nat)
    ensures Run(s, a + b, w, budget, slots) == Run(Run(s, a, w, budget, slots), b, w, budget, slots)
    decreases |a|
  {
    hide Next;
    if a == [] {
      assert a + b == b;
    } else {
      assert (a + b)[1..] == a[1..] + b;
      RunConcat(Next(s, w, budget, slots, a[0]), a[1..], b, w, budget, slots);
    }
  }

  lemma RunOne<E, O>(s: State<E, O>, a: Step<E, O>, w: E -> nat, budget: nat, slots: nat)
    ensures Run(s, [a], w, budget, slots) == Next(s, w, budget, slots, a)
  {
    assert [a][1..] == [];
  }

  lemma RunFour<E, O>(s: State<E, O>, a: Step<E, O>, b: Step<E, O>, c: Step<E, O>, d: Step<E, O>,
                      w: E -> nat, budget: nat, slots: nat)
    ensures Run(s, [a, b, c, d], w, budget, slots)
         == Next(Next(Next(Next(s, w, budget, slots, a), w, budget, slots, b), w, budget, slots, c),
                 w, budget, slots, d)
  {
    hide Next;
    assert [a, b, c, d] == [a] + ([b] + ([c] + [d]));
    RunConcat(s, [a], [b] + ([c] + [d]), w, budget, slots);
    RunOne(s, a, w, budget, slots);
    var s1 := Next(s, w, budget, slots, a);
    RunConcat(s1, [b], [c] + [d], w, budget, slots);
    RunOne(s1, b, w, budget, slots);
    var s2 := Next(s1, w, budget, slots, b);
    RunConcat(s2, [c], [d], w, budget, slots);
    RunOne(s2, c, w, budget, slots);
    RunOne(Next(s2, w, budget, slots, c), d, w, budget, slots);
  }

  // ---- attaching ----

  function AttachSteps<E, O>(id: nat): seq<Step<E, O>> { [LockForAttach(id), Subscribe, Snapshot, Unlock] }

  lemma Attaches<E, O>(s: State<E, O>, id: nat, w: E -> nat, budget: nat, slots: nat)
    requires s.lock.Free? && id !in s.clients
    ensures Run(s, AttachSteps<E, O>(id), w, budget, slots)
         == s.(clients := s.clients[id := Client(Replaying, |s.log|, |s.log|, s.ring, 0, [])])
  {
    RunFour(s, LockForAttach(id), Subscribe, Snapshot, Unlock, w, budget, slots);
    var c := Client.Client(Attaching, |s.log|, |s.log|, [], 0, []);
    assert s.clients[id := c][id := c.(phase := Replaying, snapshot := s.ring)]
        == s.clients[id := c.(phase := Replaying, snapshot := s.ring)];
  }

  /** The same action of one handler, `n` times. */
  function Repeat<E, O>(id: nat, action: Action, n: nat): seq<Step<E, O>> {
    if n == 0 then [] else [Handler(id, action)] + Repeat(id, action, n - 1)
  }

  lemma {:induction false} Replays<E, O>(s: State<E, O>, id: nat, n: nat, w: E -> nat, budget: nat, slots: nat)
    requires id in s.clients && s.clients[id].phase.Replaying? && s.clients[id].replayed + n <= |s.clients[id].snapshot|
    ensures Run(s, Repeat(id, ReplayOne, n), w, budget, slots)
         == s.(clients := s.clients[id := s.clients[id].(replayed := s.clients[id].replayed + n)])
    decreases n
  {
    if n == 0 {
      assert s.clients[id := s.clients[id]] == s.clients;
    } else {
      var t := Next(s, w, budget, slots, Handler(id, ReplayOne));
      Replays(t, id, n - 1, w, budget, slots);
      assert Repeat<E, O>(id, ReplayOne, n)[1..] == Repeat(id, ReplayOne, n - 1);
      assert t.clients[id := t.clients[id].(replayed := t.clients[id].replayed + (n - 1))]
          == s.clients[id := s.clients[id].(replayed := s.clients[id].replayed + n)];
    }
  }

  // ---- streaming ----

  lemma ReceivesOne<E, O>(s: State<E, O>, id: nat, w: E -> nat, budget: nat, slots: nat)
    requires id in s.clients && s.clients[id].phase.Streaming?
    requires s.clients[id].next < |s.log| <= s.clients[id].next + slots
    ensures var c := s.clients[id];
            Next(s, w, budget, slots, Handler(id, Recv))
            == s.(clients := s.clients[id := c.(next := c.next + 1, streamed := c.streamed + [s.log[c.next]])])
  {
    ReceivesIff(s.log, slots, s.clients[id].next);
  }

  /** A streaming client that is at most `slots` behind gets everything that is there. */
  lemma {:induction false} CatchesUp<E, O>(s: State<E, O>, id: nat, w: E -> nat, budget: nat, slots: nat)
    requires id in s.clients && s.clients[id].phase.Streaming?
    requires s.clients[id].next <= |s.log| <= s.clients[id].next + slots
    ensures var c := s.clients[id];
            Run(s, Repeat(id, Recv, |s.log| - c.next), w, budget, slots)
            == s.(clients := s.clients[id := c.(next := |s.log|, streamed := c.streamed + s.log[c.next..])])
    decreases |s.log| - s.clients[id].next
  {
    hide Next;
    var c := s.clients[id];
    if c.next == |s.log| {
      assert c.streamed + s.log[c.next..] == c.streamed && s.clients[id := c] == s.clients;
    } else {
      var t := Next(s, w, budget, slots, Handler(id, Recv));
      var n := |s.log| - c.next;
      ReceivesOne(s, id, w, budget, slots);
      CatchesUp(t, id, w, budget, slots);
      assert Repeat<E, O>(id, Recv, n)[1..] == Repeat(id, Recv, n - 1);
      assert c.streamed + [s.log[c.next]] + s.log[c.next + 1..] == c.streamed + s.log[c.next..];
      var end := c.(next := |s.log|, streamed := c.streamed + s.log[c.next..]);
      assert t.clients[id := end] == s.clients[id := end];
    }
  }

  // ---- pushing ----

  function PushSteps<E, O>(e: E): seq<Step<E, O>> { [LockForPush(e), Record, Send, Unlock] }

  function PushAll<E, O>(es: seq<E>): seq<Step<E, O>> {
    if es == [] then [] else PushSteps(es[0]) + PushAll(es[1..])
  }

  lemma Pushes<E, O>(s: State<E, O>, e: E, w: E -> nat, budget: nat, slots: nat)
    requires s.lock.Free?
    ensures var t := Run(s, PushSteps<E, O>(e), w, budget, slots);
            && t.lock.Free? && t.clients == s.clients
            && t.history == s.history + [e] && t.log == s.log + [Entry(e)]
  {
    RunFour(s, LockForPush(e), Record, Send, Unlock, w, budget, slots);
  }

  function AsEntries<E, O>(es: seq<E>): seq<Frame<E, O>> {
    if es == [] then [] else [Entry(es[0])] + AsEntries(es[1..])
  }

  lemma {:induction false} EntriesBack<E, O>(es: seq<E>)
    ensures |AsEntries<E, O>(es)| == |es| && Entries(AsEntries<E, O>(es)) == es
  {
    if es != [] {
      EntriesBack<E, O>(es[1..]);
      assert AsEntries<E, O>(es)[1..] == AsEntries(es[1..]);
    }
  }

  lemma {:induction false} PushesAll<E, O>(s: State<E, O>, es: seq<E>, w: E -> nat, budget: nat, slots: nat)
    requires s.lock.Free?
    ensures var t := Run(s, PushAll<E, O>(es), w, budget, slots);
            && t.lock.Free? && t.clients == s.clients
            && t.history == s.history + es && t.log == s.log + AsEntries(es)
    decreases |es|
  {
    hide Next;
    if es == [] {
      assert s.history + es == s.history && s.log + AsEntries<E, O>(es) == s.log;
    } else {
      var t := Run(s, PushSteps<E, O>(es[0]), w, budget, slots);
      Pushes(s, es[0], w, budget, slots);
      RunConcat(s, PushSteps<E, O>(es[0]), PushAll(es[1..]), w, budget, slots);
      PushesAll(t, es[1..], w, budget, slots);
      assert s.history + [es[0]] + es[1..] == s.history + es;
      assert s.log + [Entry(es[0])] + AsEntries<E, O>(es[1..]) == s.log + AsEntries<E, O>(es);
    }
  }

  // ---- all of it ----

  /** Attach, replay and start streaming; then some output, read as it is there. */
  function Follow<E, O>(id: nat, ring: nat, es: seq<E>): seq<Step<E, O>> {
    AttachSteps(id) + Repeat(id, ReplayOne, ring) + [Handler(id, BeginStream)] + PushAll(es) + Repeat(id, Recv, |es|)
  }

  /** From any reachable state in which nobody holds the lock: whoever attaches is given the
      ring and then every entry pushed, unless it falls further behind than the channel is long. */
  lemma FollowsOutput<E, O>(spawner: nat, before: seq<Step<E, O>>, id: nat, es: seq<E>,
                            w: E -> nat, budget: nat, slots: nat)
    returns (s: State<E, O>, t: State<E, O>)
    requires |es| <= slots
    requires var r := Run(Init<E, O>(spawner), before, w, budget, slots); r.lock.Free? && id !in r.clients
    ensures s == Run(Init<E, O>(spawner), before, w, budget, slots)
    ensures t == Run(s, Follow(id, |s.ring|, es), w, budget, slots)
    ensures t.history == s.history + es && id in t.clients && t.clients[id].phase.Streaming?
    ensures var c := t.clients[id];
            c.replayed == |c.snapshot| && Delivered(c) == Retained(s.history, w, budget) + es
  {
    hide Run, Inv, PushAll, Repeat, AttachSteps, Retained, Delivered;
    s := Run(Init<E, O>(spawner), before, w, budget, slots);
    InitInv<E, O>(spawner, w, budget);
    RunKeepsInv(Init<E, O>(spawner), before, w, budget, slots);
    RingIsRetained(s, w, budget);
    var s1 := Streams(s, id, w, budget, slots);
    t := Reads(s1, id, es, w, budget, slots);
    var a, b, c := StreamSteps<E, O>(id, |s.ring|), PushAll<E, O>(es), Repeat<E, O>(id, Recv, |es|);
    RunConcat(s, a, b + c, w, budget, slots);
    assert Follow(id, |s.ring|, es) == a + (b + c);
  }

  lemma RingIsRetained<E, O>(s: State<E, O>, w: E -> nat, budget: nat)
    requires Inv(s, w, budget)
    ensures s.ring == Retained(s.history, w, budget)
  {
  }

  function StreamSteps<E, O>(id: nat, ring: nat): seq<Step<E, O>> {
    AttachSteps(id) + Repeat(id, ReplayOne, ring) + [Handler(id, BeginStream)]
  }

  lemma Streams<E, O>(s: State<E, O>, id: nat, w: E -> nat, budget: nat, slots: nat) returns (t: State<E, O>)
    requires s.lock.Free? && id !in s.clients
    ensures t == Run(s, StreamSteps<E, O>(id, |s.ring|), w, budget, slots)
    ensures t == s.(clients := s.clients[id := Client(Streaming, |s.log|, |s.log|, s.ring, |s.ring|, [])])
  {
    var a, b := AttachSteps<E, O>(id), Repeat<E, O>(id, ReplayOne, |s.ring|);
    var c: seq<Step<E, O>> := [Handler(id, BeginStream)];
    assert StreamSteps<E, O>(id, |s.ring|) == a + (b + c);
    RunConcat(s, a, b + c, w, budget, slots);
    Attaches(s, id, w, budget, slots);
    var s1 := Run(s, a, w, budget, slots);
    RunConcat(s1, b, c, w, budget, slots);
    Replays(s1, id, |s.ring|, w, budget, slots);
    var s2 := Run(s1, b, w, budget, slots);
    RunOne(s2, Handler(id, BeginStream), w, budget, slots);
    t := Next(s2, w, budget, slots, Handler(id, BeginStream));
    assert t.clients == s.clients[id := Client(Streaming, |s.log|, |s.log|, s.ring, |s.ring|, [])];
  }

  lemma Reads<E, O>(s: State<E, O>, id: nat, es: seq<E>, w: E -> nat, budget: nat, slots: nat) returns (t: State<E, O>)
    requires s.lock.Free? && id in s.clients && |es| <= slots
    requires s.clients[id] == Client(Streaming, |s.log|, |s.log|, s.ring, |s.ring|, [])
    ensures t == Run(s, PushAll<E, O>(es) + Repeat(id, Recv, |es|), w, budget, slots)
    ensures t.history == s.history + es && id in t.clients && t.clients[id].phase.Streaming?
    ensures t.clients[id].replayed == |t.clients[id].snapshot| && Delivered(t.clients[id]) == s.ring + es
  {
    RunConcat(s, PushAll<E, O>(es), Repeat(id, Recv, |es|), w, budget, slots);
    PushesAll(s, es, w, budget, slots);
    EntriesBack<E, O>(es);
    var s1 := Run(s, PushAll<E, O>(es), w, budget, slots);
    CatchesUp(s1, id, w, budget, slots);
    t := Run(s1, Repeat(id, Recv, |es|), w, budget, slots);
    assert s1.log[|s.log|..] == AsEntries<E, O>(es);
    assert [] + AsEntries<E, O>(es) == AsEntries<E, O>(es);
    assert s.ring[..|s.ring|] == s.ring;
  }
}
