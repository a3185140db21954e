/** The text of every message, field by field, as it stands on its line. */
module Wording {
  import opened Common
  import opened Json
  import opened Words
  import opened Codec
  import Lines

  // ---------- objects, in so many words ----------

  /** A field: its name, and the text of its value. */
  datatype Word = Word(name: string, value: string)

  function Says(name: string, value: string): Option<Word> {
    Some(Word(name, value))
  }

  /** A field that is left out if there is nothing to say. */
  function MaySay(name: string, text: Option<string>): Option<Word> {
    if text.None? then None else Some(Word(name, Quote(text.value)))
  }

  function SaysType(name: string): Option<Word> {
    Some(Word("type", "\"" + name + "\""))
  }

  /** The fields that are there, each with its name in quotes and a colon. */
  function Spelled(words: seq<Option<Word>>): seq<string> {
    if words == [] then []
    else if words[0].None? then Spelled(words[1..])
    else ["\"" + words[0].value.name + "\":" + words[0].value.value] + Spelled(words[1..])
  }

  function Joined(parts: seq<string>): string {
    if parts == [] then ""
    else parts[0] + if |parts| == 1 then "" else "," + Joined(parts[1..])
  }

  function Braced(words: seq<Option<Word>>): string {
    "{" + Joined(Spelled(words)) + "}"
  }

  function Bracketed(parts: seq<string>): string {
    "[" + Joined(parts) + "]"
  }

  function BoolText(b: bool): string {
    if b then "true" else "false"
  }

  function SessionWords(s: P.SessionInfo): seq<Option<Word>> {
    [Says("id", Quote(s.id)), MaySay("title", s.title), MaySay("model", s.model), MaySay("source", s.source),
     if s.lastActive.None? then None else Says("last_active", s.lastActive.value),
     if s.messageCount.None? then None else Says("message_count", Decimal.Show(s.messageCount.value)),
     MaySay("preview", s.preview)]
  }

  function ChatMessageWords(m: P.ChatMessage): seq<Option<Word>> {
    [Says("role", Quote(m.role)), Says("content", Quote(m.content))]
  }

  function ModelWords(m: P.ModelInfo): seq<Option<Word>> {
    [Says("id", Quote(m.id)), Says("loaded", BoolText(m.loaded)), Says("active", BoolText(m.active))]
  }

  /** One text for each item. */
  function Each<T>(items: seq<T>, words: T -> seq<Option<Word>>): seq<string> {
    if items == [] then [] else [Braced(words(items[0]))] + Each(items[1..], words)
  }

  /** The fields of a client message, in order. */
  function ClientWords(m: P.ClientMessage): seq<Option<Word>> {
    match m
    case Chat(rid, session, text) =>
      [SaysType("chat"), Says("request_id", Quote(rid)), MaySay("session_id", session), Says("message", Quote(text))]
    case SessionCreate(rid, title) =>
      [SaysType("session_create"), Says("request_id", Quote(rid)), MaySay("title", title)]
    case SessionList(rid) => [SaysType("session_list"), Says("request_id", Quote(rid))]
    case SessionResume(rid, sid) =>
      [SaysType("session_resume"), Says("request_id", Quote(rid)), Says("session_id", Quote(sid))]
    case SessionMessages(rid, sid) =>
      [SaysType("session_messages"), Says("request_id", Quote(rid)), Says("session_id", Quote(sid))]
    case Cancel(rid) => [SaysType("cancel"), Says("request_id", Quote(rid))]
    case StatusQuery(rid) => [SaysType("status"), Says("request_id", Quote(rid))]
    case Subscribe(c) => [SaysType("subscribe"), MaySay("request_id", c)]
    case ModelList(rid) => [SaysType("model_list"), Says("request_id", Quote(rid))]
    case SetModel(c, model) => [SaysType("set_model"), MaySay("request_id", c), Says("model", Quote(model))]
  }

  /** The fields of a daemon message, in order. */
  function DaemonWords(m: P.DaemonMessage): seq<Option<Word>> {
    match m
    case Delta(rid, content) =>
      [SaysType("delta"), Says("request_id", Quote(rid)), Says("content", Quote(content))]
    case Draft(rid, content) =>
      [SaysType("draft"), Says("request_id", Quote(rid)), Says("content", Quote(content))]
    case ToolProgress(rid, tool, status) =>
      [SaysType("tool_progress"), Says("request_id", Quote(rid)), Says("tool_name", Quote(tool)),
       Says("status", Quote(status))]
    case ChatComplete(rid, content) =>
      [SaysType("chat_complete"), Says("request_id", Quote(rid)), Says("content", Quote(content))]
    case SessionCreated(rid, sid, title, model) =>
      [SaysType("session_created"), Says("request_id", Quote(rid)), Says("session_id", Quote(sid)),
       MaySay("title", title), MaySay("model", model)]
    case Sessions(rid, sessions) =>
      [SaysType("sessions"), Says("request_id", Quote(rid)), Says("data", Bracketed(Each(sessions, SessionWords)))]
    case Messages(rid, sid, history) =>
      [SaysType("messages"), Says("request_id", Quote(rid)), Says("session_id", Quote(sid)),
       Says("data", Bracketed(Each(history, ChatMessageWords)))]
    case SessionReset(c, oldId, newId) =>
      [SaysType("session_reset"), MaySay("request_id", c), Says("old_id", Quote(oldId)), Says("new_id", Quote(newId))]
    case Toast(heading, body, icon) =>
      [SaysType("toast"), Says("title", Quote(heading)), Says("body", Quote(body)), MaySay("icon", icon)]
    case Status(hermes, daemon, c) =>
      [SaysType("status"), Says("hermes", Quote(hermes)), Says("daemon", Quote(daemon)), MaySay("request_id", c)]
    case Error(c, text) => [SaysType("error"), MaySay("request_id", c), Says("message", Quote(text))]
    case Models(rid, models) =>
      [SaysType("models"), Says("request_id", Quote(rid)), Says("data", Bracketed(Each(models, ModelWords)))]
  }

  // ---------- what the encoder writes ----------

  /** Characters that JSON writes as they are. */
  predicate IsPlain(s: string) {
    forall i :: 0 <= i < |s| ==> s[i] == '_' || 'a' <= s[i] <= 'z'
  }

  lemma {:induction false} PlainEscapes(s: string)
    requires IsPlain(s)
    ensures Escape(s) == s && Quote(s) == "\"" + s + "\""
  {
    if s != "" {
      PlainEscapes(s[1..]);
      assert [s[0]] + s[1..] == s;
    }
  }

  lemma KeysArePlain(k: Key)
    ensures IsPlain(KeyName(k))
  {
  }

  function RowWord(row: Row): Option<Word> {
    if row.value.None? then None else Some(Word(KeyName(row.key), Print(row.value.value)))
  }

  /** The words say what the rows hold, one by one. */
  predicate Match(rows: seq<Row>, words: seq<Option<Word>>) {
    |rows| == |words| && forall i :: 0 <= i < |rows| ==> RowWord(rows[i]) == words[i]
  }

  lemma FieldSays(k: Key, value: Json)
    ensures PrintField(Field(KeyName(k), value)) == "\"" + KeyName(k) + "\":" + Print(value)
  {
    KeysArePlain(k);
    PlainEscapes(KeyName(k));
  }

  lemma {:induction false} PrintedFields(rows: seq<Row>, words: seq<Option<Word>>)
    requires Match(rows, words)
    ensures PrintFields(Named(Present(rows))) == Joined(Spelled(words))
    ensures |Named(Present(rows))| == |Spelled(words)|
  {
    if rows != [] {
      PrintedFields(rows[1..], words[1..]);
      assert RowWord(rows[0]) == words[0];
      if rows[0].value.Some? {
        FieldSays(rows[0].key, rows[0].value.value);
        assert Present(rows)[1..] == Present(rows[1..]);
        assert Named(Present(rows))[1..] == Named(Present(rows[1..]));
        assert Spelled(words)[1..] == Spelled(words[1..]);
      }
    }
  }

  /** An object is its rows, one after the other. */
  lemma ObjectSays(rows: seq<Row>, words: seq<Option<Word>>)
    requires Match(rows, words)
    ensures Print(ToObject(rows)) == Braced(words)
  {
    PrintedFields(rows, words);
  }

  lemma {:induction false} ItemsSay<T>(items: seq<T>, encode: T -> Json, words: T -> seq<Option<Word>>)
    requires forall x :: Print(encode(x)) == Braced(words(x))
    ensures PrintItems(EncodeAll(items, encode)) == Joined(Each(items, words))
    ensures |EncodeAll(items, encode)| == |Each(items, words)|
  {
    if items != [] {
      ItemsSay(items[1..], encode, words);
      var all, texts := EncodeAll(items, encode), Each(items, words);
      assert all[1..] == EncodeAll(items[1..], encode) && texts[1..] == Each(items[1..], words);
    }
  }

  lemma MustSays(k: Key, text: string)
    ensures RowWord(Must(k, text)) == Says(KeyName(k), Quote(text))
  {
  }

  lemma MaySays(k: Key, text: Option<string>)
    ensures RowWord(May(k, text)) == MaySay(KeyName(k), text)
  {
  }

  lemma NumberSays(k: Key, token: string)
    ensures RowWord(Row(k, Some(Number(token)))) == Says(KeyName(k), token)
  {
  }

  lemma MatchAppend(rows: seq<Row>, words: seq<Option<Word>>, rows2: seq<Row>, words2: seq<Option<Word>>)
    requires Match(rows, words) && Match(rows2, words2)
    ensures Match(rows + rows2, words + words2)
  {
  }

  lemma SessionNamesSay(s: P.SessionInfo)
    ensures Match([Must(Id, s.id), May(Title, s.title), May(Model, s.model), May(Source, s.source)],
                  [Says("id", Quote(s.id)), MaySay("title", s.title), MaySay("model", s.model),
                   MaySay("source", s.source)])
  {
    MustSays(Id, s.id);
    MaySays(Title, s.title);
    MaySays(Model, s.model);
    MaySays(Source, s.source);
  }

  lemma SessionUseSays(active: Option<string>, count: Option<nat>, preview: Option<string>)
    ensures Match([Row(LastActive, if active.None? then None else Some(Number(active.value))),
                   Row(MessageCount, if count.None? then None else Some(Number(Decimal.Show(count.value)))),
                   May(Preview, preview)],
                  [if active.None? then None else Says("last_active", active.value),
                   if count.None? then None else Says("message_count", Decimal.Show(count.value)),
                   MaySay("preview", preview)])
  {
    if active.Some? {
      NumberSays(LastActive, active.value);
    }
    if count.Some? {
      NumberSays(MessageCount, Decimal.Show(count.value));
    }
    MaySays(Preview, preview);
  }

  lemma SessionRowsSay(s: P.SessionInfo)
    ensures Match(SessionRows(s), SessionWords(s))
  {
    var rows, words := SessionRows(s), SessionWords(s);
    SessionNamesSay(s);
    SessionUseSays(s.lastActive, s.messageCount, s.preview);
    assert rows == rows[..4] + rows[4..] && words == words[..4] + words[4..];
    MatchAppend(rows[..4], words[..4], rows[4..], words[4..]);
  }

  lemma SessionSays(s: P.SessionInfo)
    ensures Print(EncodeSession(s)) == Braced(SessionWords(s))
  {
    SessionRowsSay(s);
    ObjectSays(SessionRows(s), SessionWords(s));
  }

  lemma ChatMessageSays(m: P.ChatMessage)
    ensures Print(EncodeChatMessage(m)) == Braced(ChatMessageWords(m))
  {
    ObjectSays(ChatMessageRows(m), ChatMessageWords(m));
  }

  lemma ModelSays(m: P.ModelInfo)
    ensures Print(EncodeModel(m)) == Braced(ModelWords(m))
  {
    ObjectSays(ModelRows(m), ModelWords(m));
  }

  // ---------- whole messages ----------

  lemma ClientTagsArePlain(tag: ClientTag)
    ensures IsPlain(ClientTagName(tag))
  {
  }

  lemma DaemonTagsArePlain(tag: DaemonTag)
    ensures IsPlain(DaemonTagName(tag))
  {
  }

  lemma TypeSays(name: string)
    requires IsPlain(name)
    ensures RowWord(Must(Type, name)) == SaysType(name)
  {
    PlainEscapes(name);
  }

  lemma SessionRequestSays(m: P.ClientMessage, tag: Row)
    requires m.SessionCreate? || m.SessionList? || m.SessionResume? || m.SessionMessages?
    requires RowWord(tag) == ClientWords(m)[0]
    ensures Match(ClientRows(m, tag), ClientWords(m))
  {
  }

  lemma OtherRequestSays(m: P.ClientMessage, tag: Row)
    requires !m.SessionCreate? && !m.SessionList? && !m.SessionResume? && !m.SessionMessages?
    requires RowWord(tag) == ClientWords(m)[0]
    ensures Match(ClientRows(m, tag), ClientWords(m))
  {
  }

  lemma ClientTypeSays(m: P.ClientMessage, name: string)
    requires IsPlain(name) && name == ClientTagName(ClientTagOf(m))
    ensures RowWord(Must(Type, name)) == ClientWords(m)[0]
  {
    TypeSays(name);
  }

  lemma ClientRowsSay(m: P.ClientMessage, name: string)
    requires IsPlain(name) && name == ClientTagName(ClientTagOf(m))
    ensures Match(ClientRows(m, Must(Type, name)), ClientWords(m))
  {
    ClientTypeSays(m, name);
    if m.SessionCreate? || m.SessionList? || m.SessionResume? || m.SessionMessages? {
      SessionRequestSays(m, Must(Type, name));
    } else {
      OtherRequestSays(m, Must(Type, name));
    }
  }

  /** The line of every client message. */
  lemma ClientLineSays(m: P.ClientMessage)
    ensures Lines.ClientLine(m) == Braced(ClientWords(m))
  {
    var name := ClientTagName(ClientTagOf(m));
    ClientTagsArePlain(ClientTagOf(m));
    ClientRowsSay(m, name);
    ObjectSays(ClientRows(m, Must(Type, name)), ClientWords(m));
  }

  lemma SessionsSay(sessions: seq<P.SessionInfo>)
    ensures Print(Array(EncodeAll(sessions, EncodeSession))) == Bracketed(Each(sessions, SessionWords))
  {
    forall x
      ensures Print(EncodeSession(x)) == Braced(SessionWords(x))
    {
      SessionSays(x);
    }
    ItemsSay(sessions, EncodeSession, SessionWords);
  }

  lemma HistorySays(history: seq<P.ChatMessage>)
    ensures Print(Array(EncodeAll(history, EncodeChatMessage))) == Bracketed(Each(history, ChatMessageWords))
  {
    forall x
      ensures Print(EncodeChatMessage(x)) == Braced(ChatMessageWords(x))
    {
      ChatMessageSays(x);
    }
    ItemsSay(history, EncodeChatMessage, ChatMessageWords);
  }

  lemma ModelsSay(models: seq<P.ModelInfo>)
    ensures Print(Array(EncodeAll(models, EncodeModel))) == Bracketed(Each(models, ModelWords))
  {
    forall x
      ensures Print(EncodeModel(x)) == Braced(ModelWords(x))
    {
      ModelSays(x);
    }
    ItemsSay(models, EncodeModel, ModelWords);
  }

  lemma SessionListSays(m: P.DaemonMessage, tag: Row)
    requires m.Sessions? && RowWord(tag) == DaemonWords(m)[0]
    ensures Match(DaemonRows(m, tag), DaemonWords(m))
  {
    SessionsSay(m.sessions);
  }

  lemma MessagesSay(m: P.DaemonMessage, tag: Row)
    requires m.Messages? && RowWord(tag) == DaemonWords(m)[0]
    ensures Match(DaemonRows(m, tag), DaemonWords(m))
  {
    HistorySays(m.history);
  }

  lemma ModelListSays(m: P.DaemonMessage, tag: Row)
    requires m.Models? && RowWord(tag) == DaemonWords(m)[0]
    ensures Match(DaemonRows(m, tag), DaemonWords(m))
  {
    ModelsSay(m.models);
  }

  lemma ResetSays(m: P.DaemonMessage, tag: Row)
    requires m.SessionReset? && RowWord(tag) == DaemonWords(m)[0]
    ensures Match(DaemonRows(m, tag), DaemonWords(m))
  {
    MaySays(RequestId, m.correlation);
    MustSays(OldId, m.oldId);
    MustSays(NewId, m.newId);
  }

  lemma ToastSays(m: P.DaemonMessage, tag: Row)
    requires m.Toast? && RowWord(tag) == DaemonWords(m)[0]
    ensures Match(DaemonRows(m, tag), DaemonWords(m))
  {
    MustSays(Title, m.heading);
    MustSays(Body, m.body);
    MaySays(Icon, m.icon);
  }

  lemma StatusSays(m: P.DaemonMessage, tag: Row)
    requires m.Status? && RowWord(tag) == DaemonWords(m)[0]
    ensures Match(DaemonRows(m, tag), DaemonWords(m))
  {
    MustSays(Hermes, m.hermes);
    MustSays(Daemon, m.daemon);
    MaySays(RequestId, m.correlation);
  }

  lemma ErrorSays(m: P.DaemonMessage, tag: Row)
    requires m.Error? && RowWord(tag) == DaemonWords(m)[0]
    ensures Match(DaemonRows(m, tag), DaemonWords(m))
  {
  }

  lemma ContentSays(m: P.DaemonMessage, tag: Row)
    requires (m.Delta? || m.Draft? || m.ChatComplete?) && RowWord(tag) == DaemonWords(m)[0]
    ensures Match(DaemonRows(m, tag), DaemonWords(m))
  {
  }

  lemma ProgressSays(m: P.DaemonMessage, tag: Row)
    requires m.ToolProgress? && RowWord(tag) == DaemonWords(m)[0]
    ensures Match(DaemonRows(m, tag), DaemonWords(m))
  {
    MustSays(RequestId, m.requestId);
    MustSays(ToolName, m.toolName);
    MustSays(Key.State, m.status);
  }

  lemma CreatedSays(m: P.DaemonMessage, tag: Row)
    requires m.SessionCreated? && RowWord(tag) == DaemonWords(m)[0]
    ensures Match(DaemonRows(m, tag), DaemonWords(m))
  {
  }

  lemma DaemonTypeSays(m: P.DaemonMessage, name: string)
    requires IsPlain(name) && name == DaemonTagName(DaemonTagOf(m))
    ensures RowWord(Must(Type, name)) == DaemonWords(m)[0]
  {
    TypeSays(name);
  }

  lemma DaemonRowsSay(m: P.DaemonMessage, name: string)
    requires IsPlain(name) && name == DaemonTagName(DaemonTagOf(m))
    ensures Match(DaemonRows(m, Must(Type, name)), DaemonWords(m))
  {
    DaemonTypeSays(m, name);
    var tag := Must(Type, name);
    match m
    case ToolProgress(_, _, _) => ProgressSays(m, tag);
    case SessionCreated(_, _, _, _) => CreatedSays(m, tag);
    case Sessions(_, _) => SessionListSays(m, tag);
    case Messages(_, _, _) => MessagesSay(m, tag);
    case SessionReset(_, _, _) => ResetSays(m, tag);
    case Toast(_, _, _) => ToastSays(m, tag);
    case Status(_, _, _) => StatusSays(m, tag);
    case Error(_, _) => ErrorSays(m, tag);
    case Models(_, _) => ModelListSays(m, tag);
    case _ => ContentSays(m, tag);
  }

  /** The line of every daemon message. */
  lemma DaemonLineSays(m: P.DaemonMessage)
    ensures Lines.DaemonLine(m) == Braced(DaemonWords(m))
  {
    var name := DaemonTagName(DaemonTagOf(m));
    DaemonTagsArePlain(DaemonTagOf(m));
    DaemonRowsSay(m, name);
    ObjectSays(DaemonRows(m, Must(Type, name)), DaemonWords(m));
  }

  /** A message of three fields. */
  lemma ThreeFields(a: Word, b: Word, c: Word)
    ensures Joined(Spelled([Some(a), Some(b), Some(c)])) ==
            "\"" + a.name + "\":" + a.value + ("," + ("\"" + b.name + "\":" + b.value + (
              "," + ("\"" + c.name + "\":" + c.value))))
  {
    var words := [Some(a), Some(b), Some(c)];
    assert words[1..] == [Some(b), Some(c)] && words[1..][1..] == [Some(c)] && words[1..][1..][1..] == [];
    var x, y, z :=
      "\"" + a.name + "\":" + a.value, "\"" + b.name + "\":" + b.value, "\"" + c.name + "\":" + c.value;
    assert Spelled([Some(c)]) == [z] && Spelled([Some(b), Some(c)]) == [y, z];
    assert Spelled(words) == [x, y, z];
    assert [x, y, z][1..] == [y, z] && [y, z][1..] == [z];
    assert Joined([z]) == z && Joined([y, z]) == y + ("," + z);
  }

  lemma Flat(kind: string, name: string, id: string, tag: string, text: string)
    ensures "{" + (kind + ("," + (name + id + ("," + (tag + text))))) + "}" ==
            ("{" + kind + "," + name) + id + ("," + tag) + text + "}"
  {
  }

  lemma Literals()
    ensures "\"" + "type" + "\":" + ("\"" + "draft" + "\"") == "\"type\":\"draft\""
    ensures "\"" + "request_id" + "\":" == "\"request_id\":" && "\"" + "content" + "\":" == "\"content\":"
    ensures "{" + "\"type\":\"draft\"" + "," + "\"request_id\":" == "{\"type\":\"draft\",\"request_id\":"
    ensures "," + "\"content\":" == ",\"content\":"
  {
  }

  lemma DraftFields(id: string, content: string)
    ensures Braced([SaysType("draft"), Says("request_id", id), Says("content", content)]) ==
            "{\"type\":\"draft\",\"request_id\":" + id + ",\"content\":" + content + "}"
  {
    ThreeFields(Word("type", "\"" + "draft" + "\""), Word("request_id", id), Word("content", content));
    Literals();
    Flat("\"type\":\"draft\"", "\"request_id\":", id, "\"content\":", content);
  }

  /** For instance a draft. */
  lemma DraftLine(rid: string, text: string)
    ensures Lines.DaemonLine(P.Draft(rid, text)) ==
            "{\"type\":\"draft\",\"request_id\":" + Quote(rid) + ",\"content\":" + Quote(text) + "}"
  {
    DaemonLineSays(P.Draft(rid, text));
    DraftFields(Quote(rid), Quote(text));
  }
}
