/** The messages of the JSON-lines protocol between the daemon and its local clients. */
module Protocol {
  import opened Common

  datatype ClientMessage =
    | Chat(requestId: string, session: Option<string>, message: string)
    | SessionCreate(requestId: string, title: Option<string>)
    | SessionList(requestId: string)
    | SessionResume(requestId: string, sessionId: string)
    | SessionMessages(requestId: string, sessionId: string)
    | Cancel(requestId: string)
    | StatusQuery(requestId: string)
    | Subscribe(correlation: Option<string>)
    | ModelList(requestId: string)
    | SetModel(correlation: Option<string>, model: string)
  {
    /** The correlation id, if the message carries one. */
    function RequestId(): Option<string> {
      match this
      case Subscribe(c) => c
      case SetModel(c, _) => c
      case _ => Some(requestId)
    }
  }

  datatype DaemonMessage =
    | Delta(requestId: string, content: string)
    | Draft(requestId: string, content: string)
    | ToolProgress(requestId: string, toolName: string, status: string)
    | ChatComplete(requestId: string, content: string)
    | SessionCreated(requestId: string, sessionId: string, title: Option<string>, model: Option<string>)
    | Sessions(requestId: string, sessions: seq<SessionInfo>)
    | Messages(requestId: string, sessionId: string, history: seq<ChatMessage>)
    | SessionReset(correlation: Option<string>, oldId: string, newId: string)
    | Toast(heading: string, body: string, icon: Option<string>)
    | Status(hermes: string, daemon: string, correlation: Option<string>)
    | Error(correlation: Option<string>, message: string)
    | Models(requestId: string, models: seq<ModelInfo>)
  {
    /** The request the message answers, if any. */
    function Answers(): Option<string> {
      match this
      case SessionReset(c, _, _) => c
      case Toast(_, _, _) => None
      case Status(_, _, c) => c
      case Error(c, _) => c
      case _ => Some(requestId)
    }

    /** The two ways a chat request ends. */
    predicate Terminal() {
      ChatComplete? || Error?
    }
  }

  /** `lastActive` is a 64-bit float; its printed form is kept as an opaque JSON number. */
  datatype SessionInfo = SessionInfo(
    id: string, title: Option<string>, model: Option<string>, source: Option<string>,
    lastActive: Option<string>, messageCount: Option<nat>, preview: Option<string>)

  datatype ChatMessage = ChatMessage(role: string, content: string)

  datatype ModelInfo = ModelInfo(id: string, loaded: bool, active: bool)

  const CONNECTED := "connected"
  const DISCONNECTED := "disconnected"
  const READY := "ready"
}
