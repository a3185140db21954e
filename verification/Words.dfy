/** The field names and the type tags of the protocol, and how a string is recognised as one. */
module Words {
  import opened Common

  /** Length, first and last but one character; no two names below share all three. */
  type Sign = (nat, char, char)

  function SignOf(name: string): Sign {
    if |name| < 2 then (0, ' ', ' ') else (|name|, name[0], name[|name| - 2])
  }

  function Search<K>(name: string, words: seq<K>, nameOf: K -> string): Option<K> {
    if words == [] then None
    else if nameOf(words[0]) == name then Some(words[0])
    else Search(name, words[1..], nameOf)
  }

  lemma {:induction false} SearchFinds<K>(w: K, words: seq<K>, nameOf: K -> string)
    requires w in words
    requires forall a, b :: nameOf(a) == nameOf(b) ==> a == b
    ensures Search(nameOf(w), words, nameOf) == Some(w)
  {
    if nameOf(words[0]) != nameOf(w) {
      SearchFinds(w, words[1..], nameOf);
    }
  }

  // ---------- field names ----------

  datatype Key =
    Type | RequestId | SessionId | Text | Title | Model | Content | ToolName | State | Data | OldId |
    NewId | Body | Icon | Hermes | Daemon | Id | Source | LastActive | MessageCount | Preview | Role |
    Loaded | Active

  const KEYS: seq<Key> := [
    Type, RequestId, SessionId, Text, Title, Model, Content, ToolName, State, Data, OldId, NewId, Body,
    Icon, Hermes, Daemon, Id, Source, LastActive, MessageCount, Preview, Role, Loaded, Active
  ]

  function KeyName(k: Key): string {
    match k
    case Type => "type"
    case RequestId => "request_id"
    case SessionId => "session_id"
    case Text => "message"
    case Title => "title"
    case Model => "model"
    case Content => "content"
    case ToolName => "tool_name"
    case State => "status"
    case Data => "data"
    case OldId => "old_id"
    case NewId => "new_id"
    case Body => "body"
    case Icon => "icon"
    case Hermes => "hermes"
    case Daemon => "daemon"
    case Id => "id"
    case Source => "source"
    case LastActive => "last_active"
    case MessageCount => "message_count"
    case Preview => "preview"
    case Role => "role"
    case Loaded => "loaded"
    case Active => "active"
  }

  function KeySign(k: Key): Sign {
    match k
    case Type => (4, 't', 'p')
    case RequestId => (10, 'r', 'i')
    case SessionId => (10, 's', 'i')
    case Text => (7, 'm', 'g')
    case Title => (5, 't', 'l')
    case Model => (5, 'm', 'e')
    case Content => (7, 'c', 'n')
    case ToolName => (9, 't', 'm')
    case State => (6, 's', 'u')
    case Data => (4, 'd', 't')
    case OldId => (6, 'o', 'i')
    case NewId => (6, 'n', 'i')
    case Body => (4, 'b', 'd')
    case Icon => (4, 'i', 'o')
    case Hermes => (6, 'h', 'e')
    case Daemon => (6, 'd', 'o')
    case Id => (2, 'i', 'i')
    case Source => (6, 's', 'c')
    case LastActive => (11, 'l', 'v')
    case MessageCount => (13, 'm', 'n')
    case Preview => (7, 'p', 'e')
    case Role => (4, 'r', 'l')
    case Loaded => (6, 'l', 'e')
    case Active => (6, 'a', 'v')
  }

  lemma KeySignsDiffer(v: Key, w: Key)
    requires KeySign(v) == KeySign(w)
    ensures v == w
  {
  }

  lemma KeySigned(v: Key)
    ensures SignOf(KeyName(v)) == KeySign(v)
  {
  }

  lemma KeyNamesDiffer(a: Key, b: Key)
    requires KeyName(a) == KeyName(b)
    ensures a == b
  {
    KeySigned(a);
    KeySigned(b);
    KeySignsDiffer(a, b);
  }

  /** The Key with a given name is found. */
  lemma KeyFound(v: Key)
    ensures Search(KeyName(v), KEYS, KeyName) == Some(v)
  {
    forall a: Key, b: Key | KeyName(a) == KeyName(b)
      ensures a == b
    {
      KeyNamesDiffer(a, b);
    }
    SearchFinds(v, KEYS, KeyName);
  }

  // ---------- tags of client messages ----------

  datatype ClientTag =
    CChat | CSessionCreate | CSessionList | CSessionResume | CSessionMessages | CCancel |
    CStatusQuery | CSubscribe | CModelList | CSetModel

  const CLIENT_TAGS: seq<ClientTag> := [
    CChat, CSessionCreate, CSessionList, CSessionResume, CSessionMessages, CCancel, CStatusQuery,
    CSubscribe, CModelList, CSetModel
  ]

  function ClientTagName(c: ClientTag): string {
    match c
    case CChat => "chat"
    case CSessionCreate => "session_create"
    case CSessionList => "session_list"
    case CSessionResume => "session_resume"
    case CSessionMessages => "session_messages"
    case CCancel => "cancel"
    case CStatusQuery => "status"
    case CSubscribe => "subscribe"
    case CModelList => "model_list"
    case CSetModel => "set_model"
  }

  function ClientTagSign(c: ClientTag): Sign {
    match c
    case CChat => (4, 'c', 'a')
    case CSessionCreate => (14, 's', 't')
    case CSessionList => (12, 's', 's')
    case CSessionResume => (14, 's', 'm')
    case CSessionMessages => (16, 's', 'e')
    case CCancel => (6, 'c', 'e')
    case CStatusQuery => (6, 's', 'u')
    case CSubscribe => (9, 's', 'b')
    case CModelList => (10, 'm', 's')
    case CSetModel => (9, 's', 'e')
  }

  lemma ClientTagSignsDiffer(v: ClientTag, w: ClientTag)
    requires ClientTagSign(v) == ClientTagSign(w)
    ensures v == w
  {
  }

  lemma ClientTagSigned(v: ClientTag)
    ensures SignOf(ClientTagName(v)) == ClientTagSign(v)
  {
  }

  lemma ClientTagNamesDiffer(a: ClientTag, b: ClientTag)
    requires ClientTagName(a) == ClientTagName(b)
    ensures a == b
  {
    ClientTagSigned(a);
    ClientTagSigned(b);
    ClientTagSignsDiffer(a, b);
  }

  /** The ClientTag with a given name is found. */
  lemma ClientTagFound(v: ClientTag)
    ensures Search(ClientTagName(v), CLIENT_TAGS, ClientTagName) == Some(v)
  {
    forall a: ClientTag, b: ClientTag | ClientTagName(a) == ClientTagName(b)
      ensures a == b
    {
      ClientTagNamesDiffer(a, b);
    }
    SearchFinds(v, CLIENT_TAGS, ClientTagName);
  }

  // ---------- tags of daemon messages ----------

  datatype DaemonTag =
    DDelta | DDraft | DToolProgress | DChatComplete | DSessionCreated | DSessions | DMessages |
    DSessionReset | DToast | DStatus | DError | DModels

  const DAEMON_TAGS: seq<DaemonTag> := [
    DDelta, DDraft, DToolProgress, DChatComplete, DSessionCreated, DSessions, DMessages, DSessionReset,
    DToast, DStatus, DError, DModels
  ]

  function DaemonTagName(d: DaemonTag): string {
    match d
    case DDelta => "delta"
    case DDraft => "draft"
    case DToolProgress => "tool_progress"
    case DChatComplete => "chat_complete"
    case DSessionCreated => "session_created"
    case DSessions => "sessions"
    case DMessages => "messages"
    case DSessionReset => "session_reset"
    case DToast => "toast"
    case DStatus => "status"
    case DError => "error"
    case DModels => "models"
  }

  function DaemonTagSign(d: DaemonTag): Sign {
    match d
    case DDelta => (5, 'd', 't')
    case DDraft => (5, 'd', 'f')
    case DToolProgress => (13, 't', 's')
    case DChatComplete => (13, 'c', 't')
    case DSessionCreated => (15, 's', 'e')
    case DSessions => (8, 's', 'n')
    case DMessages => (8, 'm', 'e')
    case DSessionReset => (13, 's', 'e')
    case DToast => (5, 't', 's')
    case DStatus => (6, 's', 'u')
    case DError => (5, 'e', 'o')
    case DModels => (6, 'm', 'l')
  }

  lemma DaemonTagSignsDiffer(v: DaemonTag, w: DaemonTag)
    requires DaemonTagSign(v) == DaemonTagSign(w)
    ensures v == w
  {
  }

  lemma DaemonTagSigned(v: DaemonTag)
    ensures SignOf(DaemonTagName(v)) == DaemonTagSign(v)
  {
  }

  lemma DaemonTagNamesDiffer(a: DaemonTag, b: DaemonTag)
    requires DaemonTagName(a) == DaemonTagName(b)
    ensures a == b
  {
    DaemonTagSigned(a);
    DaemonTagSigned(b);
    DaemonTagSignsDiffer(a, b);
  }

  /** The DaemonTag with a given name is found. */
  lemma DaemonTagFound(v: DaemonTag)
    ensures Search(DaemonTagName(v), DAEMON_TAGS, DaemonTagName) == Some(v)
  {
    forall a: DaemonTag, b: DaemonTag | DaemonTagName(a) == DaemonTagName(b)
      ensures a == b
    {
      DaemonTagNamesDiffer(a, b);
    }
    SearchFinds(v, DAEMON_TAGS, DaemonTagName);
  }
}
