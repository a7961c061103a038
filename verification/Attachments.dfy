/** The attach protocol with the hub's two channels: terminal output and chat. */
module Attachments {

  import opened Protocol
  import opened Retention
  import opened Scrollback
  import opened SessionHub
  import opened AttachProtocol
  import RoleSync

  const OUTPUT_SLOTS := 256

  /** Nothing but chunks travels on the output channel. */
  datatype Nothing = Nothing

  function OneEach(e: ChatEntry): nat { 1 }

  /** Chat and scrollback seen by one attachment, once it has its snapshot. */
  ghost predicate Attached<E, O>(s: State<E, O>, id: nat) {
    id in s.clients && !s.clients[id].phase.Attaching?
  }

  /** An attachment's terminal is a gapless piece of the output: the snapshot is the
      longest suffix of what was read before it that fits in 64 KiB, and snapshot and
      receiver together give each chunk exactly once, up to the last when drained. */
  lemma OutputExactlyOnce(spawner: nat, steps: seq<Step<Bytes, Nothing>>, id: nat) returns (lo: nat)
    ensures var s := Run(Init<Bytes, Nothing>(spawner), steps, Len, SCROLLBACK_CAP_BYTES, OUTPUT_SLOTS);
            Attached(s, id) ==>
              var c := s.clients[id];
              && c.first <= |s.log| && c.replayed <= |c.snapshot|
              && IsLongestFittingSuffix(c.snapshot, Entries(s.log[..c.first]), Len, 64 * 1024)
              && lo + |Delivered(c)| <= |s.history| && Delivered(c) == s.history[lo..lo + |Delivered(c)|]
              && (c.replayed == |c.snapshot| && c.next == |s.log| && !s.lock.PushRecorded? ==>
                    Delivered(c) == s.history[lo..])
  {
    var s;
    s, lo := ExactlyOnce<Bytes, Nothing>(spawner, steps, id, Len, SCROLLBACK_CAP_BYTES, OUTPUT_SLOTS);
    SnapshotAtSubscribe<Bytes, Nothing>(spawner, steps, id, Len, SCROLLBACK_CAP_BYTES, OUTPUT_SLOTS);
    if Attached(s, id) {
      RetainedIsLongest(Entries(s.log[..s.clients[id].first]), Len, SCROLLBACK_CAP_BYTES);
    }
  }

  /** The same for chat, projected out of the mixed collaboration channel; the snapshot is
      exactly the last 50 chats, or all if there were fewer. */
  lemma ChatExactlyOnce(spawner: nat, steps: seq<Step<ChatEntry, CollabMessage>>, id: nat) returns (lo: nat)
    ensures var s := Run(Init<ChatEntry, CollabMessage>(spawner), steps,
                         OneEach, CHAT_HISTORY_CAP, RoleSync.COLLAB_SLOTS);
            Attached(s, id) ==>
              var c := s.clients[id];
              && c.first <= |s.log| && c.replayed <= |c.snapshot|
              && (var chats := Entries(s.log[..c.first]);
                  c.snapshot == if |chats| <= 50 then chats else chats[|chats| - 50..])
              && lo + |Delivered(c)| <= |s.history| && Delivered(c) == s.history[lo..lo + |Delivered(c)|]
              && (c.replayed == |c.snapshot| && c.next == |s.log| && !s.lock.PushRecorded? ==>
                    Delivered(c) == s.history[lo..])
  {
    var s;
    s, lo := ExactlyOnce<ChatEntry, CollabMessage>(spawner, steps, id,
      OneEach, CHAT_HISTORY_CAP, RoleSync.COLLAB_SLOTS);
    SnapshotAtSubscribe<ChatEntry, CollabMessage>(spawner, steps, id, OneEach, CHAT_HISTORY_CAP, RoleSync.COLLAB_SLOTS);
    if Attached(s, id) {
      LastN(Entries(s.log[..s.clients[id].first]), OneEach, CHAT_HISTORY_CAP);
    }
  }
}
