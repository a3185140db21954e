/** The messages as JSON: tagged objects in which an absent optional field is left out. */
module Codec {
  import opened Common
  import opened Json
  import opened Words
  import Decimal
  import P = Protocol

  // ---------- objects ----------

  /** A field with a name of the protocol. */
  datatype Entry = Entry(key: Key, value: Json)

  /** The fields whose name some message uses; a decoder passes over all others. */
  function Keyed(fields: seq<Field>): seq<Entry> {
    if fields == [] then []
    else
      var others := Keyed(fields[1..]);
      match Search(fields[0].name, KEYS, KeyName)
      case None => others
      case Some(k) => [Entry(k, fields[0].value)] + others
  }

  /** A field to be written, or left out. */
  datatype Row = Row(key: Key, value: Option<Json>)

  function Present(rows: seq<Row>): seq<Entry> {
    if rows == [] then []
    else if rows[0].value.None? then Present(rows[1..])
    else [Entry(rows[0].key, rows[0].value.value)] + Present(rows[1..])
  }

  function Named(entries: seq<Entry>): seq<Field> {
    if entries == [] then []
    else [Field(KeyName(entries[0].key), entries[0].value)] + Named(entries[1..])
  }

  function ToObject(rows: seq<Row>): Json {
    Object(Named(Present(rows)))
  }

  /** What an object holds under one name. */
  datatype Found = Missing | One(value: Json) | Twice

  function Get(entries: seq<Entry>, k: Key): Found {
    if entries == [] then Missing
    else
      var others := Get(entries[1..], k);
      if entries[0].key != k then others
      else if others.Missing? then One(entries[0].value) else Twice
  }

  type Lookup = Key -> Found

  function FromObject(j: Json): Option<Lookup> {
    if j.Object? then Some(k => Get(Keyed(j.fields), k)) else None
  }

  // ---------- values ----------

  function Must(k: Key, s: string): Row {
    Row(k, Some(Str(s)))
  }

  function May(k: Key, s: Option<string>): Row {
    Row(k, if s.None? then None else Some(Str(s.value)))
  }

  /** A field that must be there, once, and be a string. */
  function AsText(f: Found): Option<string> {
    match f
    case One(Str(s)) => Some(s)
    case _ => None
  }

  /** An optional string: `null` and a missing field mean the same. */
  function AsTextOrAbsent(f: Found): Option<Option<string>> {
    match f
    case Missing => Some(None)
    case One(Null) => Some(None)
    case One(Str(s)) => Some(Some(s))
    case _ => None
  }

  function AsBool(f: Found): Option<bool> {
    match f
    case One(Bool(b)) => Some(b)
    case _ => None
  }

  /** An optional floating-point number, by its printed form. */
  function AsNumberOrAbsent(f: Found): Option<Option<string>> {
    match f
    case Missing => Some(None)
    case One(Null) => Some(None)
    case One(Number(token)) => Some(Some(token))
    case _ => None
  }

  const U64 := 0x1_0000_0000_0000_0000

  /** An optional `u64`. */
  function AsCountOrAbsent(f: Found): Option<Option<nat>> {
    match f
    case Missing => Some(None)
    case One(Null) => Some(None)
    case One(Number(token)) =>
      if (forall c :: c in token ==> Decimal.IsDigit(c)) && Decimal.Value(token) < U64
      then Some(Some(Decimal.Value(token)))
      else None
    case _ => None
  }

  function EncodeAll<T>(items: seq<T>, encode: T -> Json): seq<Json> {
    if items == [] then [] else [encode(items[0])] + EncodeAll(items[1..], encode)
  }

  function DecodeAll<T>(items: seq<Json>, decode: Json -> Option<T>): Option<seq<T>> {
    if items == [] then Some([])
    else
      var first :- decode(items[0]);
      var others :- DecodeAll(items[1..], decode);
      Some([first] + others)
  }

  /** An array whose elements all decode. */
  function AsArray<T>(f: Found, decode: Json -> Option<T>): Option<seq<T>> {
    match f
    case One(Array(items)) => DecodeAll(items, decode)
    case _ => None
  }

  // ---------- entries ----------

  function SessionRows(s: P.SessionInfo): seq<Row> {
    [Must(Id, s.id), May(Title, s.title), May(Model, s.model), May(Source, s.source),
     Row(LastActive, if s.lastActive.None? then None else Some(Number(s.lastActive.value))),
     Row(MessageCount, if s.messageCount.None? then None else Some(Number(Decimal.Show(s.messageCount.value)))),
     May(Preview, s.preview)]
  }

  function SessionFrom(fs: Lookup): Option<P.SessionInfo> {
    var id :- AsText(fs(Id));
    var title :- AsTextOrAbsent(fs(Title));
    var model :- AsTextOrAbsent(fs(Model));
    var source :- AsTextOrAbsent(fs(Source));
    var lastActive :- AsNumberOrAbsent(fs(LastActive));
    var messageCount :- AsCountOrAbsent(fs(MessageCount));
    var preview :- AsTextOrAbsent(fs(Preview));
    Some(P.SessionInfo(id, title, model, source, lastActive, messageCount, preview))
  }

  function EncodeSession(s: P.SessionInfo): Json {
    ToObject(SessionRows(s))
  }

  function DecodeSession(j: Json): Option<P.SessionInfo> {
    var fs :- FromObject(j);
    SessionFrom(fs)
  }

  function ChatMessageRows(m: P.ChatMessage): seq<Row> {
    [Must(Role, m.role), Must(Content, m.content)]
  }

  function ChatMessageFrom(fs: Lookup): Option<P.ChatMessage> {
    var role :- AsText(fs(Role));
    var content :- AsText(fs(Content));
    Some(P.ChatMessage(role, content))
  }

  function EncodeChatMessage(m: P.ChatMessage): Json {
    ToObject(ChatMessageRows(m))
  }

  function DecodeChatMessage(j: Json): Option<P.ChatMessage> {
    var fs :- FromObject(j);
    ChatMessageFrom(fs)
  }

  function ModelRows(m: P.ModelInfo): seq<Row> {
    [Must(Id, m.id), Row(Loaded, Some(Bool(m.loaded))), Row(Active, Some(Bool(m.active)))]
  }

  function ModelFrom(fs: Lookup): Option<P.ModelInfo> {
    var id :- AsText(fs(Id));
    var loaded :- AsBool(fs(Loaded));
    var active :- AsBool(fs(Active));
    Some(P.ModelInfo(id, loaded, active))
  }

  function EncodeModel(m: P.ModelInfo): Json {
    ToObject(ModelRows(m))
  }

  function DecodeModel(j: Json): Option<P.ModelInfo> {
    var fs :- FromObject(j);
    ModelFrom(fs)
  }

  // ---------- client messages ----------

  function ClientTagOf(m: P.ClientMessage): ClientTag {
    match m
    case Chat(_, _, _) => CChat
    case SessionCreate(_, _) => CSessionCreate
    case SessionList(_) => CSessionList
    case SessionResume(_, _) => CSessionResume
    case SessionMessages(_, _) => CSessionMessages
    case Cancel(_) => CCancel
    case StatusQuery(_) => CStatusQuery
    case Subscribe(_) => CSubscribe
    case ModelList(_) => CModelList
    case SetModel(_, _) => CSetModel
  }

  function ClientRows(m: P.ClientMessage, tag: Row): seq<Row> {
    match m
    case Chat(rid, session, text) => [tag, Must(RequestId, rid), May(SessionId, session), Must(Key.Text, text)]
    case SessionCreate(rid, title) => [tag, Must(RequestId, rid), May(Title, title)]
    case SessionList(rid) => [tag, Must(RequestId, rid)]
    case SessionResume(rid, sid) => [tag, Must(RequestId, rid), Must(SessionId, sid)]
    case SessionMessages(rid, sid) => [tag, Must(RequestId, rid), Must(SessionId, sid)]
    case Cancel(rid) => [tag, Must(RequestId, rid)]
    case StatusQuery(rid) => [tag, Must(RequestId, rid)]
    case Subscribe(c) => [tag, May(RequestId, c)]
    case ModelList(rid) => [tag, Must(RequestId, rid)]
    case SetModel(c, model) => [tag, May(RequestId, c), Must(Model, model)]
  }

  function EncodeClient(m: P.ClientMessage): Json {
    ToObject(ClientRows(m, Must(Type, ClientTagName(ClientTagOf(m)))))
  }

  function ClientFrom(tag: ClientTag, fs: Lookup): Option<P.ClientMessage> {
    if tag.CSubscribe? then
      var c :- AsTextOrAbsent(fs(RequestId));
      Some(P.Subscribe(c))
    else if tag.CSetModel? then
      var c :- AsTextOrAbsent(fs(RequestId));
      var model :- AsText(fs(Model));
      Some(P.SetModel(c, model))
    else
      var rid :- AsText(fs(RequestId));
      match tag
      case CChat =>
        var session :- AsTextOrAbsent(fs(SessionId));
        var text :- AsText(fs(Key.Text));
        Some(P.Chat(rid, session, text))
      case CSessionCreate =>
        var title :- AsTextOrAbsent(fs(Title));
        Some(P.SessionCreate(rid, title))
      case CSessionResume =>
        var sid :- AsText(fs(SessionId));
        Some(P.SessionResume(rid, sid))
      case CSessionMessages =>
        var sid :- AsText(fs(SessionId));
        Some(P.SessionMessages(rid, sid))
      case CSessionList => Some(P.SessionList(rid))
      case CCancel => Some(P.Cancel(rid))
      case CStatusQuery => Some(P.StatusQuery(rid))
      case _ => Some(P.ModelList(rid))
  }

  function DecodeClient(j: Json): Option<P.ClientMessage> {
    var fs :- FromObject(j);
    var name :- AsText(fs(Type));
    var tag :- Search(name, CLIENT_TAGS, ClientTagName);
    ClientFrom(tag, fs)
  }

  // ---------- daemon messages ----------

  function DaemonTagOf(m: P.DaemonMessage): DaemonTag {
    match m
    case Delta(_, _) => DDelta
    case Draft(_, _) => DDraft
    case ToolProgress(_, _, _) => DToolProgress
    case ChatComplete(_, _) => DChatComplete
    case SessionCreated(_, _, _, _) => DSessionCreated
    case Sessions(_, _) => DSessions
    case Messages(_, _, _) => DMessages
    case SessionReset(_, _, _) => DSessionReset
    case Toast(_, _, _) => DToast
    case Status(_, _, _) => DStatus
    case Error(_, _) => DError
    case Models(_, _) => DModels
  }

  function DaemonRows(m: P.DaemonMessage, tag: Row): seq<Row> {
    match m
    case Delta(rid, content) => [tag, Must(RequestId, rid), Must(Content, content)]
    case Draft(rid, content) => [tag, Must(RequestId, rid), Must(Content, content)]
    case ToolProgress(rid, tool, status) =>
      [tag, Must(RequestId, rid), Must(ToolName, tool), Must(Key.State, status)]
    case ChatComplete(rid, content) => [tag, Must(RequestId, rid), Must(Content, content)]
    case SessionCreated(rid, sid, title, model) =>
      [tag, Must(RequestId, rid), Must(SessionId, sid), May(Title, title), May(Model, model)]
    case Sessions(rid, sessions) =>
      [tag, Must(RequestId, rid), Row(Data, Some(Array(EncodeAll(sessions, EncodeSession))))]
    case Messages(rid, sid, history) =>
      [tag, Must(RequestId, rid), Must(SessionId, sid), Row(Data, Some(Array(EncodeAll(history, EncodeChatMessage))))]
    case SessionReset(c, oldId, newId) => [tag, May(RequestId, c), Must(OldId, oldId), Must(NewId, newId)]
    case Toast(heading, body, icon) => [tag, Must(Title, heading), Must(Body, body), May(Icon, icon)]
    case Status(hermes, daemon, c) => [tag, Must(Hermes, hermes), Must(Daemon, daemon), May(RequestId, c)]
    case Error(c, text) => [tag, May(RequestId, c), Must(Key.Text, text)]
    case Models(rid, models) =>
      [tag, Must(RequestId, rid), Row(Data, Some(Array(EncodeAll(models, EncodeModel))))]
  }

  function EncodeDaemon(m: P.DaemonMessage): Json {
    ToObject(DaemonRows(m, Must(Type, DaemonTagName(DaemonTagOf(m)))))
  }

  function DaemonFrom(tag: DaemonTag, fs: Lookup): Option<P.DaemonMessage> {
    match tag
    case DDelta =>
      var rid :- AsText(fs(RequestId));
      var content :- AsText(fs(Content));
      Some(P.Delta(rid, content))
    case DDraft =>
      var rid :- AsText(fs(RequestId));
      var content :- AsText(fs(Content));
      Some(P.Draft(rid, content))
    case DToolProgress =>
      var rid :- AsText(fs(RequestId));
      var tool :- AsText(fs(ToolName));
      var status :- AsText(fs(Key.State));
      Some(P.ToolProgress(rid, tool, status))
    case DChatComplete =>
      var rid :- AsText(fs(RequestId));
      var content :- AsText(fs(Content));
      Some(P.ChatComplete(rid, content))
    case DSessionCreated =>
      var rid :- AsText(fs(RequestId));
      var sid :- AsText(fs(SessionId));
      var title :- AsTextOrAbsent(fs(Title));
      var model :- AsTextOrAbsent(fs(Model));
      Some(P.SessionCreated(rid, sid, title, model))
    case DSessions =>
      var rid :- AsText(fs(RequestId));
      var sessions :- AsArray(fs(Data), DecodeSession);
      Some(P.Sessions(rid, sessions))
    case DMessages =>
      var rid :- AsText(fs(RequestId));
      var sid :- AsText(fs(SessionId));
      var history :- AsArray(fs(Data), DecodeChatMessage);
      Some(P.Messages(rid, sid, history))
    case DSessionReset =>
      var c :- AsTextOrAbsent(fs(RequestId));
      var oldId :- AsText(fs(OldId));
      var newId :- AsText(fs(NewId));
      Some(P.SessionReset(c, oldId, newId))
    case DToast =>
      var heading :- AsText(fs(Title));
      var body :- AsText(fs(Body));
      var icon :- AsTextOrAbsent(fs(Icon));
      Some(P.Toast(heading, body, icon))
    case DStatus =>
      var hermes :- AsText(fs(Hermes));
      var daemon :- AsText(fs(Daemon));
      var c :- AsTextOrAbsent(fs(RequestId));
      Some(P.Status(hermes, daemon, c))
    case DError =>
      var c :- AsTextOrAbsent(fs(RequestId));
      var text :- AsText(fs(Key.Text));
      Some(P.Error(c, text))
    case DModels =>
      var rid :- AsText(fs(RequestId));
      var models :- AsArray(fs(Data), DecodeModel);
      Some(P.Models(rid, models))
  }

  function DecodeDaemon(j: Json): Option<P.DaemonMessage> {
    var fs :- FromObject(j);
    var name :- AsText(fs(Type));
    var tag :- Search(name, DAEMON_TAGS, DaemonTagName);
    DaemonFrom(tag, fs)
  }

  // ---------- round trips ----------

  /** The fields whose type is narrower in the protocol than here. */
  predicate SessionFits(s: P.SessionInfo) {
    (s.messageCount.Some? ==> s.messageCount.value < U64) &&
    (s.lastActive.Some? ==> IsNumberToken(s.lastActive.value))
  }

  predicate Fits(m: P.DaemonMessage) {
    m.Sessions? ==> forall i :: 0 <= i < |m.sessions| ==> SessionFits(m.sessions[i])
  }

  lemma CountRoundTrip(n: nat)
    requires n < U64
    ensures AsCountOrAbsent(One(Number(Decimal.Show(n)))) == Some(Some(n))
    ensures IsNumberToken(Decimal.Show(n))
  {
    Decimal.ValueOfShow(n);
    var s := Decimal.Show(n);
    forall i | 0 <= i < |s|
      ensures Decimal.IsDigit(s[i])
    {
      assert s[i] in s;
    }
    assert Decimal.IsDigit(s[0]);
  }

  predicate AllWell(entries: seq<Entry>) {
    forall i :: 0 <= i < |entries| ==> WellFormed(entries[i].value)
  }

  lemma {:induction false} KeyedNamed(entries: seq<Entry>)
    ensures Keyed(Named(entries)) == entries
  {
    if entries != [] {
      KeyFound(entries[0].key);
      KeyedNamed(entries[1..]);
      assert Named(entries)[1..] == Named(entries[1..]);
      assert [entries[0]] + entries[1..] == entries;
    }
  }

  lemma {:induction false} NamedIsWell(entries: seq<Entry>)
    requires AllWell(entries)
    ensures WellFormed(Object(Named(entries)))
  {
    if entries != [] {
      NamedIsWell(entries[1..]);
      assert Named(entries)[1..] == Named(entries[1..]);
    }
  }

  function FoundIn(v: Option<Json>): Found {
    if v.None? then Missing else One(v.value)
  }

  /** The lookup answers with every row under its key. */
  predicate Holds(rows: seq<Row>, look: Lookup) {
    forall i :: 0 <= i < |rows| ==> look(rows[i].key) == FoundIn(rows[i].value)
  }

  /** The lookup answers with every row under its key, or with nothing or `null` for a row that is left out. */
  predicate Gives(rows: seq<Row>, look: Lookup) {
    forall i :: 0 <= i < |rows| ==>
      look(rows[i].key) == FoundIn(rows[i].value) || (rows[i].value.None? && look(rows[i].key) == One(Null))
  }

  predicate DistinctKeys(rows: seq<Row>) {
    forall i, j :: 0 <= i < j < |rows| ==> rows[i].key != rows[j].key
  }

  predicate RowsWell(rows: seq<Row>) {
    forall i :: 0 <= i < |rows| && rows[i].value.Some? ==> WellFormed(rows[i].value.value)
  }

  lemma {:induction false} OtherKeysAreMissing(rows: seq<Row>, k: Key)
    requires forall i :: 0 <= i < |rows| ==> rows[i].key != k
    ensures Get(Present(rows), k) == Missing
  {
    if rows != [] {
      OtherKeysAreMissing(rows[1..], k);
      assert rows[0].value.Some? ==> Present(rows)[1..] == Present(rows[1..]);
    }
  }

  /** Each row of an object is found in it again, or missing if it was left out. */
  lemma {:induction false} RowsAreFound(rows: seq<Row>)
    requires DistinctKeys(rows)
    ensures forall i :: 0 <= i < |rows| ==> Get(Present(rows), rows[i].key) == FoundIn(rows[i].value)
  {
    if rows != [] {
      RowsAreFound(rows[1..]);
      OtherKeysAreMissing(rows[1..], rows[0].key);
      assert rows[0].value.Some? ==> Present(rows)[1..] == Present(rows[1..]);
      forall i | 1 <= i < |rows|
        ensures Get(Present(rows), rows[i].key) == FoundIn(rows[i].value)
      {
        assert rows[i] == rows[1..][i - 1];
      }
    }
  }

  lemma {:induction false} PresentIsWell(rows: seq<Row>)
    requires RowsWell(rows)
    ensures AllWell(Present(rows))
  {
    if rows != [] {
      PresentIsWell(rows[1..]);
    }
  }

  /** Reading an object back: every row is found under its key, or missing if it was left out. */
  lemma ObjectRoundTrip(rows: seq<Row>) returns (look: Lookup)
    requires DistinctKeys(rows) && RowsWell(rows)
    ensures FromObject(ToObject(rows)) == Some(look)
    ensures Holds(rows, look)
    ensures WellFormed(ToObject(rows))
  {
    look := FromObject(ToObject(rows)).value;
    KeyedNamed(Present(rows));
    RowsAreFound(rows);
    PresentIsWell(rows);
    NamedIsWell(Present(rows));
  }

  lemma SessionReads(s: P.SessionInfo, fs: Lookup)
    requires SessionFits(s) && Holds(SessionRows(s), fs)
    ensures AsText(fs(Id)) == Some(s.id)
    ensures AsTextOrAbsent(fs(Title)) == Some(s.title)
    ensures AsTextOrAbsent(fs(Model)) == Some(s.model)
    ensures AsTextOrAbsent(fs(Source)) == Some(s.source)
    ensures AsNumberOrAbsent(fs(LastActive)) == Some(s.lastActive)
    ensures AsTextOrAbsent(fs(Preview)) == Some(s.preview)
  {
    var rows := SessionRows(s);
    assert rows[0].key == Id && rows[1].key == Title && rows[2].key == Model && rows[3].key == Source;
    assert rows[4].key == LastActive && rows[6].key == Preview;
  }

  lemma SessionCount(s: P.SessionInfo, fs: Lookup)
    requires SessionFits(s) && Holds(SessionRows(s), fs)
    ensures AsCountOrAbsent(fs(MessageCount)) == Some(s.messageCount)
  {
    assert SessionRows(s)[5].key == MessageCount;
    if s.messageCount.Some? {
      CountRoundTrip(s.messageCount.value);
    }
  }

  lemma SessionRowsFit(s: P.SessionInfo)
    requires SessionFits(s)
    ensures DistinctKeys(SessionRows(s)) && RowsWell(SessionRows(s))
  {
    if s.messageCount.Some? {
      CountRoundTrip(s.messageCount.value);
    }
  }

  lemma SessionRoundTrip(s: P.SessionInfo)
    requires SessionFits(s)
    ensures DecodeSession(EncodeSession(s)) == Some(s) && WellFormed(EncodeSession(s))
  {
    SessionRowsFit(s);
    var fs := ObjectRoundTrip(SessionRows(s));
    SessionReads(s, fs);
    SessionCount(s, fs);
  }

  lemma ChatMessageReads(m: P.ChatMessage, fs: Lookup)
    requires Holds(ChatMessageRows(m), fs)
    ensures ChatMessageFrom(fs) == Some(m)
  {
    var rows := ChatMessageRows(m);
    assert rows[0].key == Role && rows[1].key == Content;
  }

  lemma ChatMessageRoundTrip(m: P.ChatMessage)
    ensures DecodeChatMessage(EncodeChatMessage(m)) == Some(m) && WellFormed(EncodeChatMessage(m))
  {
    var fs := ObjectRoundTrip(ChatMessageRows(m));
    ChatMessageReads(m, fs);
  }

  lemma ModelReads(m: P.ModelInfo, fs: Lookup)
    requires Holds(ModelRows(m), fs)
    ensures ModelFrom(fs) == Some(m)
  {
    var rows := ModelRows(m);
    assert rows[0].key == Id && rows[1].key == Loaded && rows[2].key == Active;
  }

  lemma ModelRoundTrip(m: P.ModelInfo)
    ensures DecodeModel(EncodeModel(m)) == Some(m) && WellFormed(EncodeModel(m))
  {
    var fs := ObjectRoundTrip(ModelRows(m));
    ModelReads(m, fs);
  }

  lemma {:induction false} AllRoundTrip<T>(items: seq<T>, encode: T -> Json, decode: Json -> Option<T>)
    requires forall i :: 0 <= i < |items| ==> decode(encode(items[i])) == Some(items[i]) && WellFormed(encode(items[i]))
    ensures DecodeAll(EncodeAll(items, encode), decode) == Some(items)
    ensures WellFormed(Array(EncodeAll(items, encode)))
  {
    if items != [] {
      AllRoundTrip(items[1..], encode, decode);
      assert EncodeAll(items, encode)[1..] == EncodeAll(items[1..], encode);
      assert [items[0]] + items[1..] == items;
    }
  }

  lemma ClientRowsFit(m: P.ClientMessage, name: string)
    ensures DistinctKeys(ClientRows(m, Must(Type, name))) && RowsWell(ClientRows(m, Must(Type, name)))
  {
  }

  lemma ClientReads(m: P.ClientMessage, name: string, fs: Lookup)
    requires Gives(ClientRows(m, Must(Type, name)), fs)
    ensures fs(Type) == One(Str(name)) && ClientFrom(ClientTagOf(m), fs) == Some(m)
  {
    var rows := ClientRows(m, Must(Type, name));
    assert rows[0] == rows[0] && rows[1] == rows[1];
    assert |rows| > 2 ==> rows[2] == rows[2];
    assert |rows| > 3 ==> rows[3] == rows[3];
  }

  /** Every client message is recovered from its JSON. */
  lemma ClientRoundTrip(m: P.ClientMessage)
    ensures DecodeClient(EncodeClient(m)) == Some(m) && WellFormed(EncodeClient(m))
  {
    var name := ClientTagName(ClientTagOf(m));
    ClientTagFound(ClientTagOf(m));
    ClientRowsFit(m, name);
    var fs := ObjectRoundTrip(ClientRows(m, Must(Type, name)));
    ClientReads(m, name, fs);
  }

  /** The lists that a message carries. */
  lemma DataRoundTrips(m: P.DaemonMessage)
    requires Fits(m)
    ensures m.Sessions? ==> DecodeAll(EncodeAll(m.sessions, EncodeSession), DecodeSession) == Some(m.sessions)
    ensures m.Messages? ==> DecodeAll(EncodeAll(m.history, EncodeChatMessage), DecodeChatMessage) == Some(m.history)
    ensures m.Models? ==> DecodeAll(EncodeAll(m.models, EncodeModel), DecodeModel) == Some(m.models)
    ensures m.Sessions? ==> WellFormed(Array(EncodeAll(m.sessions, EncodeSession)))
    ensures m.Messages? ==> WellFormed(Array(EncodeAll(m.history, EncodeChatMessage)))
    ensures m.Models? ==> WellFormed(Array(EncodeAll(m.models, EncodeModel)))
  {
    match m
    case Sessions(_, sessions) =>
      forall i | 0 <= i < |sessions|
        ensures DecodeSession(EncodeSession(sessions[i])) == Some(sessions[i]) && WellFormed(EncodeSession(sessions[i]))
      {
        SessionRoundTrip(sessions[i]);
      }
      AllRoundTrip(sessions, EncodeSession, DecodeSession);
    case Messages(_, _, history) =>
      forall i | 0 <= i < |history|
        ensures DecodeChatMessage(EncodeChatMessage(history[i])) == Some(history[i])
        ensures WellFormed(EncodeChatMessage(history[i]))
      {
        ChatMessageRoundTrip(history[i]);
      }
      AllRoundTrip(history, EncodeChatMessage, DecodeChatMessage);
    case Models(_, models) =>
      forall i | 0 <= i < |models|
        ensures DecodeModel(EncodeModel(models[i])) == Some(models[i]) && WellFormed(EncodeModel(models[i]))
      {
        ModelRoundTrip(models[i]);
      }
      AllRoundTrip(models, EncodeModel, DecodeModel);
    case _ =>
  }

  predicate CarriesList(m: P.DaemonMessage) {
    m.Sessions? || m.Messages? || m.Models?
  }

  lemma DaemonKeysDiffer(m: P.DaemonMessage, name: string)
    ensures DistinctKeys(DaemonRows(m, Must(Type, name)))
  {
  }

  lemma PlainRowsAreWell(m: P.DaemonMessage, name: string)
    requires !CarriesList(m)
    ensures RowsWell(DaemonRows(m, Must(Type, name)))
  {
  }

  lemma ListRowsAreWell(m: P.DaemonMessage, name: string, data: Json)
    requires CarriesList(m) && WellFormed(data)
    requires Last(DaemonRows(m, Must(Type, name))) == Row(Data, Some(data))
    ensures RowsWell(DaemonRows(m, Must(Type, name)))
  {
  }

  lemma DaemonRowsAreWell(m: P.DaemonMessage, name: string)
    requires Fits(m)
    ensures RowsWell(DaemonRows(m, Must(Type, name)))
  {
    DataRoundTrips(m);
    match m
    case Sessions(_, sessions) => ListRowsAreWell(m, name, Array(EncodeAll(sessions, EncodeSession)));
    case Messages(_, _, history) => ListRowsAreWell(m, name, Array(EncodeAll(history, EncodeChatMessage)));
    case Models(_, models) => ListRowsAreWell(m, name, Array(EncodeAll(models, EncodeModel)));
    case _ => PlainRowsAreWell(m, name);
  }

  lemma PlainReads(m: P.DaemonMessage, name: string, fs: Lookup)
    requires !CarriesList(m) && Gives(DaemonRows(m, Must(Type, name)), fs)
    ensures fs(Type) == One(Str(name)) && DaemonFrom(DaemonTagOf(m), fs) == Some(m)
  {
    var rows := DaemonRows(m, Must(Type, name));
    assert rows[0] == rows[0] && rows[1] == rows[1] && rows[2] == rows[2];
    assert |rows| > 3 ==> rows[3] == rows[3];
    assert |rows| > 4 ==> rows[4] == rows[4];
  }

  lemma ListData(m: P.DaemonMessage, name: string, fs: Lookup)
    requires CarriesList(m) && Fits(m) && Holds(DaemonRows(m, Must(Type, name)), fs)
    ensures fs(Type) == One(Str(name)) && fs(RequestId) == One(Str(m.requestId))
    ensures m.Sessions? ==> AsArray(fs(Data), DecodeSession) == Some(m.sessions)
    ensures m.Messages? ==> fs(SessionId) == One(Str(m.sessionId))
    ensures m.Messages? ==> AsArray(fs(Data), DecodeChatMessage) == Some(m.history)
    ensures m.Models? ==> AsArray(fs(Data), DecodeModel) == Some(m.models)
  {
    var rows := DaemonRows(m, Must(Type, name));
    assert rows[0] == rows[0] && rows[1] == rows[1] && rows[2] == rows[2];
    assert |rows| > 3 ==> rows[3] == rows[3];
    DataRoundTrips(m);
  }

  lemma SessionsFrom(rid: string, sessions: seq<P.SessionInfo>, fs: Lookup)
    requires fs(RequestId) == One(Str(rid)) && AsArray(fs(Data), DecodeSession) == Some(sessions)
    ensures DaemonFrom(DSessions, fs) == Some(P.Sessions(rid, sessions))
  {
  }

  lemma MessagesFrom(rid: string, sid: string, history: seq<P.ChatMessage>, fs: Lookup)
    requires fs(RequestId) == One(Str(rid)) && fs(SessionId) == One(Str(sid))
    requires AsArray(fs(Data), DecodeChatMessage) == Some(history)
    ensures DaemonFrom(DMessages, fs) == Some(P.Messages(rid, sid, history))
  {
  }

  lemma ModelsFrom(rid: string, models: seq<P.ModelInfo>, fs: Lookup)
    requires fs(RequestId) == One(Str(rid)) && AsArray(fs(Data), DecodeModel) == Some(models)
    ensures DaemonFrom(DModels, fs) == Some(P.Models(rid, models))
  {
  }

  lemma ListReads(m: P.DaemonMessage, name: string, fs: Lookup)
    requires CarriesList(m) && Fits(m) && Holds(DaemonRows(m, Must(Type, name)), fs)
    ensures fs(Type) == One(Str(name)) && DaemonFrom(DaemonTagOf(m), fs) == Some(m)
  {
    ListData(m, name, fs);
    match m
    case Sessions(rid, sessions) => SessionsFrom(rid, sessions, fs);
    case Messages(rid, sid, history) => MessagesFrom(rid, sid, history, fs);
    case Models(rid, models) => ModelsFrom(rid, models, fs);
  }

  lemma DaemonReads(m: P.DaemonMessage, name: string, fs: Lookup)
    requires Fits(m) && Holds(DaemonRows(m, Must(Type, name)), fs)
    ensures fs(Type) == One(Str(name)) && DaemonFrom(DaemonTagOf(m), fs) == Some(m)
  {
    if CarriesList(m) {
      ListReads(m, name, fs);
    } else {
      PlainReads(m, name, fs);
    }
  }

  /** Every daemon message is recovered from its JSON. */
  lemma DaemonRoundTrip(m: P.DaemonMessage)
    requires Fits(m)
    ensures DecodeDaemon(EncodeDaemon(m)) == Some(m) && WellFormed(EncodeDaemon(m))
  {
    var name := DaemonTagName(DaemonTagOf(m));
    DaemonTagFound(DaemonTagOf(m));
    DaemonKeysDiffer(m, name);
    DaemonRowsAreWell(m, name);
    var fs := ObjectRoundTrip(DaemonRows(m, Must(Type, name)));
    DaemonReads(m, name, fs);
  }

  // ---------- what is left out ----------

  /** The `request_id` a message is written with: the correlation id it carries, and no field without one. */
  lemma DaemonRequestId(m: P.DaemonMessage)
    requires Fits(m)
    ensures FromObject(EncodeDaemon(m)).Some?
    ensures FromObject(EncodeDaemon(m)).value(RequestId) ==
            match m.Answers() case None => Missing case Some(id) => One(Str(id))
  {
    var name := DaemonTagName(DaemonTagOf(m));
    DaemonKeysDiffer(m, name);
    DaemonRowsAreWell(m, name);
    var rows := DaemonRows(m, Must(Type, name));
    var fs := ObjectRoundTrip(rows);
    if m.Toast? {
      OtherKeysAreMissing(rows, RequestId);
      KeyedNamed(Present(rows));
    } else {
      RequestIdRow(m, rows[0], fs);
    }
  }

  lemma RequestIdRow(m: P.DaemonMessage, tag: Row, fs: Lookup)
    requires !m.Toast? && Holds(DaemonRows(m, tag), fs)
    ensures fs(RequestId) == match m.Answers() case None => Missing case Some(id) => One(Str(id))
  {
    var rows := DaemonRows(m, tag);
    var i := if m.Status? then 3 else 1;
    assert rows[i].key == RequestId;
  }

  lemma ClientRequestId(m: P.ClientMessage)
    ensures FromObject(EncodeClient(m)).Some?
    ensures FromObject(EncodeClient(m)).value(RequestId) ==
            match m.RequestId() case None => Missing case Some(id) => One(Str(id))
  {
    var name := ClientTagName(ClientTagOf(m));
    ClientRowsFit(m, name);
    var rows := ClientRows(m, Must(Type, name));
    var fs := ObjectRoundTrip(rows);
    assert rows[1].key == RequestId;
  }

  // ---------- what an object holds ----------

  /** The values of the fields with that name, in order. */
  function Under(fields: seq<Field>, k: Key): seq<Json> {
    if fields == [] then []
    else (if fields[0].name == KeyName(k) then [fields[0].value] else []) + Under(fields[1..], k)
  }

  lemma NamedField(f: Field, others: seq<Field>, k: Key)
    ensures Get(Keyed([f] + others), k) ==
            if f.name != KeyName(k) then Get(Keyed(others), k)
            else if Get(Keyed(others), k).Missing? then One(f.value) else Twice
  {
    assert ([f] + others)[1..] == others;
    var found := Search(f.name, KEYS, KeyName);
    KeyFound(k);
    if found.Some? {
      SearchedHasTheName(f.name, KEYS, KeyName);
      assert ([Entry(found.value, f.value)] + Keyed(others))[1..] == Keyed(others);
    }
  }

  /** Whatever else it holds: an object has nothing under a name, one value, or more than one, as its fields say. */
  lemma {:induction false} HeldOnce(fields: seq<Field>, k: Key)
    ensures Get(Keyed(fields), k) ==
            var values := Under(fields, k);
            if values == [] then Missing else if |values| == 1 then One(values[0]) else Twice
  {
    if fields != [] {
      assert fields == [fields[0]] + fields[1..];
      NamedField(fields[0], fields[1..], k);
      HeldOnce(fields[1..], k);
    }
  }

  // ---------- what decodes at all ----------

  lemma {:induction false} SearchedHasTheName<K>(name: string, words: seq<K>, nameOf: K -> string)
    requires Search(name, words, nameOf).Some?
    ensures nameOf(Search(name, words, nameOf).value) == name
  {
    if nameOf(words[0]) != name {
      SearchedHasTheName(name, words[1..], nameOf);
    }
  }

  lemma ClientTagOfDecoded(tag: ClientTag, fs: Lookup)
    requires ClientFrom(tag, fs).Some?
    ensures ClientTagOf(ClientFrom(tag, fs).value) == tag
  {
  }

  lemma DecodedIsGiven(m: P.ClientMessage, name: string, fs: Lookup)
    requires fs(Type) == One(Str(name)) && ClientFrom(ClientTagOf(m), fs) == Some(m)
    ensures Gives(ClientRows(m, Must(Type, name)), fs)
  {
  }

  /**
   What a client message decodes from: exactly the objects that hold its type and its fields, each
   once, in any order and among any others; an optional field that it lacks may be there as `null`.
   */
  lemma DecodesExactly(m: P.ClientMessage, j: Json)
    ensures DecodeClient(j) == Some(m) <==>
            j.Object? && Gives(ClientRows(m, Must(Type, ClientTagName(ClientTagOf(m)))), FromObject(j).value)
  {
    if j.Object? {
      var name, fs := ClientTagName(ClientTagOf(m)), FromObject(j).value;
      ClientTagFound(ClientTagOf(m));
      if Gives(ClientRows(m, Must(Type, name)), fs) {
        ClientReads(m, name, fs);
      }
      if DecodeClient(j) == Some(m) {
        var found := AsText(fs(Type)).value;
        SearchedHasTheName(found, CLIENT_TAGS, ClientTagName);
        ClientTagOfDecoded(Search(found, CLIENT_TAGS, ClientTagName).value, fs);
        DecodedIsGiven(m, name, fs);
      }
    }
  }

  predicate IsAnswerTag(tag: DaemonTag) {
    tag.DDelta? || tag.DDraft? || tag.DToolProgress? || tag.DChatComplete? || tag.DSessionCreated?
  }

  lemma AnswerTagOfDecoded(tag: DaemonTag, fs: Lookup)
    requires DaemonFrom(tag, fs).Some? && IsAnswerTag(tag)
    ensures DaemonTagOf(DaemonFrom(tag, fs).value) == tag
  {
  }

  lemma OtherTagOfDecoded(tag: DaemonTag, fs: Lookup)
    requires DaemonFrom(tag, fs).Some? && !IsAnswerTag(tag)
    ensures DaemonTagOf(DaemonFrom(tag, fs).value) == tag
  {
  }

  lemma DaemonTagOfDecoded(tag: DaemonTag, fs: Lookup)
    requires DaemonFrom(tag, fs).Some?
    ensures DaemonTagOf(DaemonFrom(tag, fs).value) == tag
  {
    if IsAnswerTag(tag) {
      AnswerTagOfDecoded(tag, fs);
    } else {
      OtherTagOfDecoded(tag, fs);
    }
  }

  lemma DecodedAnswerIsGiven(m: P.DaemonMessage, name: string, fs: Lookup)
    requires !CarriesList(m) && fs(Type) == One(Str(name)) && DaemonFrom(DaemonTagOf(m), fs) == Some(m)
    ensures Gives(DaemonRows(m, Must(Type, name)), fs)
  {
  }

  /** The same for every daemon message without a list. */
  lemma AnswerDecodesExactly(m: P.DaemonMessage, j: Json)
    requires !CarriesList(m)
    ensures DecodeDaemon(j) == Some(m) <==>
            j.Object? && Gives(DaemonRows(m, Must(Type, DaemonTagName(DaemonTagOf(m)))), FromObject(j).value)
  {
    if j.Object? {
      var name, fs := DaemonTagName(DaemonTagOf(m)), FromObject(j).value;
      DaemonTagFound(DaemonTagOf(m));
      if Gives(DaemonRows(m, Must(Type, name)), fs) {
        PlainReads(m, name, fs);
      }
      if DecodeDaemon(j) == Some(m) {
        var found := AsText(fs(Type)).value;
        SearchedHasTheName(found, DAEMON_TAGS, DaemonTagName);
        DaemonTagOfDecoded(Search(found, DAEMON_TAGS, DaemonTagName).value, fs);
        DecodedAnswerIsGiven(m, name, fs);
      }
    }
  }
}
