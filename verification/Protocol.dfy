/** Message and record types shared by the session hub and its handlers. */
module Protocol {

  datatype Option<+T> = None | Some(value: T)

  type UserId = nat
  type SessionId = string

  datatype Role = Owner | Operator | Viewer
  datatype InputMode = Serialized | Multiplexed
  datatype EvictReason = AccountDisabled | TokenRotated

  datatype ParticipantInfo = ParticipantInfo(name: string, role: Role, color: string)
  datatype ChatEntry = ChatEntry(userId: UserId, name: string, text: string, ts: string)

  /** Notices the recording endpoints broadcast to a session. */
  datatype RecordingNotice = RecordingStarted(recordingId: string) | RecordingStopped(recordingId: string)

  /** The messages that travel on a session's collaboration channel. */
  datatype CollabMessage =
    | PeerJoined(user: UserId, info: ParticipantInfo)
    | PeerLeft(user: UserId)
    | PeerEvicted(user: UserId, reason: EvictReason)
    | PeerRoleChanged(user: UserId, newRole: Role)
    | PeerChat(entry: ChatEntry)
    | Recording(notice: RecordingNotice)
}
