/**
 The panel's conversation state, `HermesService`: user actions and daemon lines in any order.

 `_uuid()` is a source of non-empty strings; an event carries the ones drawn while handling it, in
 order, and the pick among the sessions by last activity, which `HandleLine` makes.
 */
module Panel {
  import opened Common
  import P = Protocol
  import JsText
  import Turns

  datatype Entry = Entry(role: string, content: string)

  datatype Ids = Ids(a: string, b: string, c: string)

  datatype Event =
    | Submit(text: string, ids: Ids)
    | PressCancel
    | NewConversation(ids: Ids)
    | Resume(id: string, ids: Ids)
    | Line(m: P.DaemonMessage, ids: Ids, newest: nat)
    | Started(ids: Ids)
    | Exited

  datatype State = State(
    running: bool, connected: bool, busy: bool,
    sessionId: string, sessions: seq<P.SessionInfo>, adoptOnList: bool,
    transcript: seq<Entry>, streamIndex: int,
    pending: string, rid: string,
    out: seq<P.ClientMessage>)
  {
    /** Lines written while the relay process is not running are lost. */
    function Emit(m: P.ClientMessage): State {
      if running then this.(out := out + [m]) else this
    }

    function Append(e: Entry): State {
      this.(transcript := transcript + [e])
    }

    /** The entry that `streamIndex` points at exists, so `messages.get` finds it. */
    predicate HasBubble() {
      0 <= streamIndex < |transcript|
    }

    function SetBubble(content: string): State {
      if HasBubble() then
        this.(transcript := transcript[streamIndex := transcript[streamIndex].(content := content)])
      else this
    }

    function StartChat(text: string, id: string): State {
      var s := this.(rid := id).Append(Entry("assistant", ""));
      s.(streamIndex := |s.transcript| - 1).Emit(P.Chat(id, Some(sessionId), text))
    }

    function Submit(text: string, ids: Ids): State {
      if busy || JsText.IsBlank(text) then this
      else
        var s := Append(Entry("user", text)).(busy := true);
        if sessionId != "" then s.StartChat(text, ids.a)
        else s.(pending := text, rid := ids.a).Emit(P.SessionCreate(ids.a, None))
    }

    function NewConversation(ids: Ids): State {
      this.(sessionId := "", rid := "", busy := false, streamIndex := -1, transcript := [])
      .Emit(P.SessionCreate(ids.a, None)).Emit(P.SessionList(ids.b))
    }

    function Resume(id: string, ids: Ids): State {
      if id == "" || id == sessionId then this
      else
        this.(sessionId := id, busy := false, streamIndex := -1, transcript := [])
        .Emit(P.SessionMessages(ids.a, id))
    }

    /** A turn is over: the panel is idle again. */
    function Idle(): State {
      this.(busy := false, streamIndex := -1, rid := "")
    }

    /** An index past the transcript makes `get` return undefined, and the handler throws there. */
    function Complete(content: string, ids: Ids): State {
      if streamIndex >= 0 && !HasBubble() then this
      else
        var s := if HasBubble() && transcript[streamIndex].content == "" then SetBubble(content) else this;
        s.Idle().Emit(P.SessionList(ids.a))
    }

    function Extend(content: string): State {
      if HasBubble() then SetBubble(transcript[streamIndex].content + content) else this
    }

    /** The daemon minted a session: a message that waited for it goes out now. */
    function Created(id: string, ids: Ids): State {
      var s := this.(sessionId := id);
      if pending != "" then s.(pending := "").StartChat(pending, ids.a) else s
    }

    function Reset(id: string): State {
      this.(sessionId := if id != "" then id else sessionId)
      .Append(Entry("assistant", "_Session refreshed._"))
    }

    function Listed(data: seq<P.SessionInfo>, ids: Ids, newest: nat): State {
      var s := this.(sessions := data, adoptOnList := false);
      if adoptOnList && sessionId == "" && data != [] then s.Resume(data[newest % |data|].id, ids) else s
    }

    function Replay(history: seq<P.ChatMessage>): State {
      this.(transcript := seq(|history|, i requires 0 <= i < |history| => Entry(history[i].role, history[i].content)))
    }

    function Fail(text: string): State {
      Append(Entry("error", if text != "" then text else "error")).Idle()
    }

    function Handle(m: P.DaemonMessage, ids: Ids, newest: nat): State {
      match m
      case Delta(id, content) => if id == rid then Extend(content) else this
      case Draft(id, content) => if id == rid then SetBubble(content) else this
      case ChatComplete(id, content) => if id == rid then Complete(content, ids) else this
      case SessionCreated(_, id, _, _) => Created(id, ids)
      case SessionReset(_, _, id) => Reset(id)
      case Sessions(_, data) => Listed(data, ids, newest)
      case Messages(_, id, history) => if id == sessionId then Replay(history) else this
      case Status(hermes, _, _) => this.(connected := hermes == P.CONNECTED)
      case Error(id, text) => if id == None || id == Some("") || id == Some(rid) then Fail(text) else this
      case ToolProgress(_, _, _) => this
      case Toast(_, _, _) => this
      case Models(_, _) => this
    }

    function Start(ids: Ids): State {
      this.(running := true)
      .Emit(P.StatusQuery(ids.a)).Emit(P.ModelList(ids.b))
      .(adoptOnList := sessionId == "").Emit(P.SessionList(ids.c))
    }

    function Step(e: Event): State {
      match e
      case Submit(text, ids) => Submit(text, ids)
      case PressCancel => if rid != "" then Emit(P.Cancel(rid)) else this
      case NewConversation(ids) => NewConversation(ids)
      case Resume(id, ids) => Resume(id, ids)
      case Line(m, ids, newest) => Handle(m, ids, newest)
      case Started(ids) => Start(ids)
      case Exited => this.(running := false, connected := false).Idle()
    }

    function Run(es: seq<Event>): State
      decreases |es|
    {
      if es == [] then this else Step(es[0]).Run(es[1..])
    }
  }

  const FRESH := State(false, false, false, "", [], false, [], -1, "", "", [])

  // ---------- invariants over every run ----------

  /** The ids drawn are non-empty, and so are the session ids that the daemon mints. */
  predicate Sound(e: Event) {
    match e
    case Submit(_, ids) => ids.a != ""
    case Line(m, ids, _) => ids.a != "" && (m.SessionCreated? ==> m.sessionId != "")
    case _ => true
  }

  /** A busy panel knows its request; a streaming one knows its request and its session. */
  predicate Consistent(s: State) {
    && (s.busy ==> s.rid != "")
    && -1 <= s.streamIndex
    && (0 <= s.streamIndex ==> s.rid != "" && s.sessionId != "")
  }

  /** The streaming index points at an assistant entry of the transcript. */
  predicate BubbleInPlace(s: State) {
    0 <= s.streamIndex ==> s.HasBubble() && s.transcript[s.streamIndex].role == "assistant"
  }

  lemma ConsistentStep(s: State, e: Event)
    requires Consistent(s) && Sound(e)
    ensures Consistent(s.Step(e))
  {
    match e
    case Line(m, ids, newest) => ConsistentHandled(s, m, ids, newest);
    case _ =>
  }

  lemma ConsistentHandled(s: State, m: P.DaemonMessage, ids: Ids, newest: nat)
    requires Consistent(s) && Sound(Line(m, ids, newest))
    ensures Consistent(s.Handle(m, ids, newest))
  {
  }

  lemma {:induction false} AlwaysConsistent(s: State, es: seq<Event>)
    requires Consistent(s) && forall e :: e in es ==> Sound(e)
    ensures Consistent(s.Run(es))
    decreases |es|
  {
    if es != [] {
      ConsistentStep(s, es[0]);
      AlwaysConsistent(s.Step(es[0]), es[1..]);
    }
  }

  /** A busy panel whose relay runs can always cancel its request, and can always be cleared. */
  lemma BusyCanBeCancelledOrCleared(es: seq<Event>, ids: Ids)
    requires forall e :: e in es ==> Sound(e)
    ensures
      var s := FRESH.Run(es);
      && !s.NewConversation(ids).busy
      && (s.busy && s.running ==> s.rid != "" && s.Step(PressCancel).out == s.out + [P.Cancel(s.rid)])
  {
    AlwaysConsistent(FRESH, es);
  }

  /** A history reply for the current session arrives while a reply streams, and misses the bubble. */
  predicate LosesBubble(s: State, e: Event) {
    && e.Line? && e.m.Messages? && e.m.sessionId == s.sessionId && 0 <= s.streamIndex
    && !(s.streamIndex < |e.m.history| && e.m.history[s.streamIndex].role == "assistant")
  }

  /** One step leaves the bubble in place exactly unless a history reply replaces it. */
  lemma BubbleStep(s: State, e: Event)
    requires BubbleInPlace(s)
    ensures BubbleInPlace(s.Step(e)) <==> !LosesBubble(s, e)
  {
    match e
    case Line(m, ids, newest) => BubbleHandled(s, m, ids, newest);
    case _ =>
  }

  lemma BubbleHandled(s: State, m: P.DaemonMessage, ids: Ids, newest: nat)
    requires BubbleInPlace(s)
    ensures BubbleInPlace(s.Handle(m, ids, newest)) <==> !LosesBubble(s, Line(m, ids, newest))
  {
  }

  /** The events up to the first that loses the bubble, if any, all leave it in place. */
  predicate NeverLoses(s: State, es: seq<Event>)
    decreases |es|
  {
    es == [] || (!LosesBubble(s, es[0]) && NeverLoses(s.Step(es[0]), es[1..]))
  }

  lemma {:induction false} BubbleStaysInPlace(s: State, es: seq<Event>)
    requires BubbleInPlace(s) && NeverLoses(s, es)
    ensures BubbleInPlace(s.Run(es))
    decreases |es|
  {
    if es != [] {
      BubbleStep(s, es[0]);
      BubbleStaysInPlace(s.Step(es[0]), es[1..]);
    }
  }

  // ---------- when a completion ends the turn ----------

  /** The streaming index is within the transcript, if there is one. */
  predicate InRange(s: State) {
    s.streamIndex < |s.transcript|
  }

  /** A history reply for the current session, too short for the reply that streams. */
  predicate Short(s: State, e: Event) {
    && e.Line? && e.m.Messages? && e.m.sessionId == s.sessionId
    && 0 <= s.streamIndex && |e.m.history| <= s.streamIndex
  }

  /** One event takes the index out of range exactly if it is such a reply. */
  lemma RangeStep(s: State, e: Event)
    requires InRange(s)
    ensures InRange(s.Step(e)) <==> !Short(s, e)
  {
    match e
    case Line(m, ids, newest) => RangeHandled(s, m, ids, newest);
    case _ =>
  }

  lemma RangeHandled(s: State, m: P.DaemonMessage, ids: Ids, newest: nat)
    requires InRange(s)
    ensures InRange(s.Handle(m, ids, newest)) <==> !Short(s, Line(m, ids, newest))
  {
  }

  predicate NeverShort(s: State, es: seq<Event>)
    decreases |es|
  {
    es == [] || (!Short(s, es[0]) && NeverShort(s.Step(es[0]), es[1..]))
  }

  lemma {:induction false} StaysInRange(s: State, es: seq<Event>)
    requires InRange(s) && NeverShort(s, es)
    ensures InRange(s.Run(es))
    decreases |es|
  {
    if es != [] {
      RangeStep(s, es[0]);
      StaysInRange(s.Step(es[0]), es[1..]);
    }
  }

  /** No request runs and none is shown as running. */
  predicate IsIdle(s: State) {
    !s.busy && s.streamIndex == -1 && s.rid == ""
  }

  /**
   After every run, the completion of the current request makes the panel idle if and only if the
   streaming index is within the transcript; otherwise it changes nothing, and a busy panel stays
   busy. It always makes it idle when no history reply of the run was too short.
   */
  lemma CompletionIdlesExactlyInRange(es: seq<Event>, content: string, ids: Ids, newest: nat)
    requires forall e :: e in es ==> Sound(e)
    ensures
      var s := FRESH.Run(es);
      var after := s.Handle(P.ChatComplete(s.rid, content), ids, newest);
      && (IsIdle(after) <==> InRange(s))
      && (!after.busy <==> InRange(s) || !s.busy)
      && (!InRange(s) ==> after == s)
      && (NeverShort(FRESH, es) ==> IsIdle(after))
  {
    AlwaysConsistent(FRESH, es);
    if NeverShort(FRESH, es) {
      StaysInRange(FRESH, es);
    }
  }

  const SOME_IDS := Ids("a", "b", "c")

  /** A session is created, a message is sent, and an empty history of that session arrives. */
  const CUT_SHORT: seq<Event> := [
    Started(SOME_IDS), Line(P.SessionCreated("r", "sid", None, None), SOME_IDS, 0),
    Submit("h", SOME_IDS), Line(P.Messages("q", "sid", []), SOME_IDS, 0)
  ]

  lemma {:induction false} RunSnoc(s: State, es: seq<Event>, e: Event)
    ensures s.Run(es + [e]) == s.Run(es).Step(e)
    decreases |es|
  {
    if es == [] {
      assert es + [e] == [e] && [e][1..] == [];
    } else {
      assert (es + [e])[1..] == es[1..] + [e];
      RunSnoc(s.Step(es[0]), es[1..], e);
    }
  }

  /** A run of sound events after which the completion is lost: the panel stays busy with an empty transcript. */
  lemma CompletionLostAfterShortHistory(content: string, ids: Ids, newest: nat)
    ensures forall e :: e in CUT_SHORT ==> Sound(e)
    ensures
      var before, s := FRESH.Run(Front(CUT_SHORT)), FRESH.Run(CUT_SHORT);
      && BubbleInPlace(before) && LosesBubble(before, Last(CUT_SHORT)) && Short(before, Last(CUT_SHORT))
      && !BubbleInPlace(s) && !InRange(s)
      && s.running && s.busy && s.streamIndex == 1 && s.transcript == []
      && s.Handle(P.ChatComplete(s.rid, content), ids, newest) == s
  {
    var es := CUT_SHORT;
    var a := FRESH.Step(es[0]);
    var c := a.Step(es[1]);
    var d := c.Step(es[2]);
    assert !JsText.IsBlank("h") by {
      assert !JsText.IsSpace("h"[0]);
    }
    assert d.transcript == [Entry("user", "h"), Entry("assistant", "")];
    forall k | 0 <= k < 4
      ensures FRESH.Run(es[..k + 1]) == FRESH.Run(es[..k]).Step(es[k])
    {
      assert es[..k + 1] == es[..k] + [es[k]];
      RunSnoc(FRESH, es[..k], es[k]);
    }
    assert FRESH.Run(es[..0]) == FRESH && FRESH.Run(es[..1]) == a && FRESH.Run(es[..2]) == c;
    assert Front(es) == es[..3] && es == es[..4];
  }

  // ---------- what the bubble shows ----------

  /** The event empties or replaces the transcript. */
  predicate Clears(s: State, e: Event) {
    match e
    case NewConversation(_) => true
    case Resume(id, _) => id != "" && id != s.sessionId
    case Line(Sessions(_, data), _, newest) =>
      s.adoptOnList && s.sessionId == "" && data != [] && data[newest % |data|].id != ""
    case Line(Messages(_, id, _), _, _) => id == s.sessionId
    case _ => false
  }

  /** What a message does to the text of a bubble that belongs to request `rid`. */
  function Fold1(rid: string, shown: string, m: P.DaemonMessage): string {
    match m
    case Delta(id, content) => if id == rid then shown + content else shown
    case Draft(id, content) => if id == rid then content else shown
    case ChatComplete(id, content) => if id == rid && shown == "" then content else shown
    case _ => shown
  }

  /** Deltas append, drafts replace, and the final text is used only when nothing was shown. */
  function Fold(rid: string, shown: string, ms: seq<P.DaemonMessage>): string
    decreases |ms|
  {
    if ms == [] then shown else Fold(rid, Fold1(rid, shown, ms[0]), ms[1..])
  }

  /** The messages handled while entry `i` is the bubble. */
  function Attended(s: State, i: int, es: seq<Event>): seq<P.DaemonMessage>
    decreases |es|
  {
    if es == [] then []
    else (if es[0].Line? && s.streamIndex == i then [es[0].m] else []) + Attended(s.Step(es[0]), i, es[1..])
  }

  predicate NeverClears(s: State, es: seq<Event>)
    decreases |es|
  {
    es == [] || (!Clears(s, es[0]) && NeverClears(s.Step(es[0]), es[1..]))
  }

  /** Short of a clear, a step keeps every entry but the bubble, and changes the bubble only for its own request. */
  lemma OnlyTheBubbleChanges(s: State, e: Event, j: nat)
    requires j < |s.transcript| && !Clears(s, e)
    ensures j < |s.Step(e).transcript|
    ensures s.Step(e).transcript[j].role == s.transcript[j].role
    ensures s.Step(e).transcript[j].content ==
      if e.Line? && j == s.streamIndex then Fold1(s.rid, s.transcript[j].content, e.m) else s.transcript[j].content
  {
    match e
    case Line(m, ids, newest) => OnlyTheBubbleIsHandled(s, m, ids, newest, j);
    case _ =>
  }

  lemma OnlyTheBubbleIsHandled(s: State, m: P.DaemonMessage, ids: Ids, newest: nat, j: nat)
    requires j < |s.transcript| && !Clears(s, Line(m, ids, newest))
    ensures
      var t := s.Handle(m, ids, newest).transcript;
      && j < |t| && t[j].role == s.transcript[j].role
      && t[j].content == (if j == s.streamIndex then Fold1(s.rid, s.transcript[j].content, m)
                          else s.transcript[j].content)
  {
    match m
    case Delta(_, content) =>
      var shown := if s.HasBubble() then s.transcript[s.streamIndex].content else "";
      SetBubbleAt(s, shown + content, j);
    case Draft(_, content) => SetBubbleAt(s, content, j);
    case ChatComplete(_, content) => SetBubbleAt(s, content, j);
    case _ => OtherMessagesOnlyAppend(s, m, ids, newest);
  }

  lemma SetBubbleAt(s: State, content: string, j: nat)
    requires j < |s.transcript|
    ensures
      var t := s.SetBubble(content).transcript;
      && |t| == |s.transcript| && t[j].role == s.transcript[j].role
      && t[j].content == if j == s.streamIndex then content else s.transcript[j].content
  {
  }

  lemma OtherMessagesOnlyAppend(s: State, m: P.DaemonMessage, ids: Ids, newest: nat)
    requires !Clears(s, Line(m, ids, newest)) && !m.Delta? && !m.Draft? && !m.ChatComplete?
    ensures s.transcript <= s.Handle(m, ids, newest).transcript
  {
  }

  /** Entry `i` is the bubble only for request `rid`. */
  predicate BelongsTo(s: State, i: nat, rid: string) {
    i < |s.transcript| && (s.streamIndex == i ==> s.rid == rid)
  }

  /** A bubble is left, kept with its request, or moved to a new entry. */
  lemma BubbleMoves(s: State, e: Event)
    requires Consistent(s) && !Clears(s, e)
    ensures
      var t := s.Step(e);
      || t.streamIndex == -1
      || (t.streamIndex == s.streamIndex && t.rid == s.rid)
      || |s.transcript| <= t.streamIndex
  {
    if e.Line? {
      BubbleMovesWhenHandled(s, e.m, e.ids, e.newest);
    }
  }

  lemma BubbleMovesWhenHandled(s: State, m: P.DaemonMessage, ids: Ids, newest: nat)
    requires !Clears(s, Line(m, ids, newest))
    ensures
      var t := s.Handle(m, ids, newest);
      || t.streamIndex == -1
      || (t.streamIndex == s.streamIndex && t.rid == s.rid)
      || |s.transcript| <= t.streamIndex
  {
  }

  /**
   From the moment a bubble is opened, and as long as nothing clears the transcript, its text is
   the fold of the messages of its own request that were handled while it was the bubble.
   */
  lemma {:induction false} BubbleIsTheFold(s: State, i: nat, rid: string, es: seq<Event>)
    requires Consistent(s) && BelongsTo(s, i, rid)
    requires NeverClears(s, es) && forall e :: e in es ==> Sound(e)
    ensures i < |s.Run(es).transcript|
    ensures s.Run(es).transcript[i] ==
      s.transcript[i].(content := Fold(rid, s.transcript[i].content, Attended(s, i, es)))
    decreases |es|
  {
    if es != [] {
      var e, next := es[0], s.Step(es[0]);
      ConsistentStep(s, e);
      OnlyTheBubbleChanges(s, e, i);
      BubbleMoves(s, e);
      BubbleIsTheFold(next, i, rid, es[1..]);
      if e.Line? && s.streamIndex == i {
        assert Attended(s, i, es) == [e.m] + Attended(next, i, es[1..]);
        assert Attended(s, i, es)[1..] == Attended(next, i, es[1..]);
      } else {
        assert Attended(s, i, es) == Attended(next, i, es[1..]);
      }
    }
  }

  // ---------- the bubble over whole runs ----------

  /** The event sends a chat request. */
  predicate Opens(s: State, e: Event) {
    match e
    case Submit(text, _) => !s.busy && !JsText.IsBlank(text) && s.sessionId != ""
    case Line(SessionCreated(_, _, _, _), _, _) => s.pending != ""
    case _ => false
  }

  /** Sending a chat request appends an empty assistant entry, and that is the bubble of the new request. */
  lemma OpeningABubble(s: State, e: Event)
    requires Opens(s, e)
    ensures
      var t := s.Step(e);
      && |s.transcript| <= t.streamIndex == |t.transcript| - 1
      && t.rid == e.ids.a && BelongsTo(t, t.streamIndex, e.ids.a)
      && t.transcript == s.transcript + (if e.Submit? then [Entry("user", e.text)] else []) + [Entry("assistant", "")]
  {
  }

  lemma {:induction false} RunAppend(s: State, a: seq<Event>, b: seq<Event>)
    ensures s.Run(a + b) == s.Run(a).Run(b)
    decreases |a|
  {
    if a == [] {
      assert a + b == b;
    } else {
      assert (a + b)[1..] == a[1..] + b;
      RunAppend(s.Step(a[0]), a[1..], b);
    }
  }

  /**
   Over every run: the entry opened for a chat request shows the fold, from nothing, of the messages
   handled while it was the bubble, as long as no later event clears the transcript.
   */
  lemma BubbleOfARun(before: seq<Event>, e: Event, after: seq<Event>)
    requires forall x :: x in before + [e] + after ==> Sound(x)
    requires Opens(FRESH.Run(before), e) && NeverClears(FRESH.Run(before).Step(e), after)
    ensures
      var t := FRESH.Run(before).Step(e);
      var i := t.streamIndex;
      && 0 <= i < |FRESH.Run(before + [e] + after).transcript|
      && FRESH.Run(before + [e] + after).transcript[i] == Entry("assistant", Fold(e.ids.a, "", Attended(t, i, after)))
  {
    var s := FRESH.Run(before);
    AlwaysConsistent(FRESH, before);
    ConsistentStep(s, e);
    OpeningABubble(s, e);
    RunSnoc(FRESH, before, e);
    RunAppend(FRESH, before + [e], after);
    BubbleIsTheFold(s.Step(e), s.Step(e).streamIndex, e.ids.a, after);
  }

  // ---------- the bubble and the daemon's stream ----------

  /** The messages that answer `rid`. */
  function Answering(rid: string, ms: seq<P.DaemonMessage>): seq<P.DaemonMessage>
    decreases |ms|
  {
    if ms == [] then []
    else (if ms[0].Answers() == Some(rid) then [ms[0]] else []) + Answering(rid, ms[1..])
  }

  lemma {:induction false} OnlyAnswersFold(rid: string, shown: string, ms: seq<P.DaemonMessage>)
    ensures Fold(rid, shown, ms) == Fold(rid, shown, Answering(rid, ms))
    decreases |ms|
  {
    if ms != [] {
      var m, rest := ms[0], Answering(rid, ms[1..]);
      OnlyAnswersFold(rid, Fold1(rid, shown, m), ms[1..]);
      if m.Answers() == Some(rid) {
        assert ([m] + rest)[1..] == rest;
      } else {
        assert [] + rest == rest;
      }
    }
  }

  /** The text of the last draft. */
  function LastDraft(ms: seq<P.DaemonMessage>): string
    decreases |ms|
  {
    if ms == [] then "" else if Last(ms).Draft? then Last(ms).content else LastDraft(Front(ms))
  }

  /** The text of the completion that the messages end in, if they do. */
  function FinalText(ms: seq<P.DaemonMessage>): string {
    if ms != [] && Last(ms).ChatComplete? then Last(ms).content else ""
  }

  lemma {:induction false} FoldSnoc(rid: string, shown: string, ms: seq<P.DaemonMessage>, m: P.DaemonMessage)
    ensures Fold(rid, shown, ms + [m]) == Fold1(rid, Fold(rid, shown, ms), m)
    decreases |ms|
  {
    if ms == [] {
      assert ms + [m] == [m] && [m][1..] == [];
    } else {
      assert (ms + [m])[1..] == ms[1..] + [m];
      FoldSnoc(rid, Fold1(rid, shown, ms[0]), ms[1..], m);
    }
  }

  lemma {:induction false} DraftsFold(rid: string, ms: seq<P.DaemonMessage>)
    requires forall m :: m in ms ==> m.Draft? && m.requestId == rid
    ensures Fold(rid, "", ms) == LastDraft(ms)
    decreases |ms|
  {
    if ms != [] {
      assert Last(ms) in ms && forall m :: m in Front(ms) ==> m in ms;
      assert ms == Front(ms) + [Last(ms)];
      DraftsFold(rid, Front(ms));
      FoldSnoc(rid, "", Front(ms), Last(ms));
    }
  }

  /** What a turn of the daemon shows: its last draft, or, if that is empty, its final text. */
  lemma StreamFolds(rid: string, ms: seq<P.DaemonMessage>)
    requires Turns.Stream(rid, ms)
    ensures Fold(rid, "", ms) == if LastDraft(ms) != "" then LastDraft(ms) else FinalText(ms)
  {
    if ms != [] {
      var front, last := Front(ms), Last(ms);
      assert ms == front + [last] && last in ms;
      forall m | m in front
        ensures m.Draft? && m.requestId == rid
      {
        var i :| 0 <= i < |front| && front[i] == m;
        assert ms[i] == m && m in ms;
      }
      DraftsFold(rid, front);
      FoldSnoc(rid, "", front, last);
    }
  }

  /**
   Over every run in which the bubble's own answers are a beginning of a turn's output: the entry
   shows the last draft it was sent, or, if there was none or it was empty, the final text.
   */
  lemma BubbleOfATurn(before: seq<Event>, e: Event, after: seq<Event>)
    requires forall x :: x in before + [e] + after ==> Sound(x)
    requires Opens(FRESH.Run(before), e) && NeverClears(FRESH.Run(before).Step(e), after)
    requires
      var t := FRESH.Run(before).Step(e);
      Turns.Stream(e.ids.a, Answering(e.ids.a, Attended(t, t.streamIndex, after)))
    ensures
      var t := FRESH.Run(before).Step(e);
      var ms := Answering(e.ids.a, Attended(t, t.streamIndex, after));
      && 0 <= t.streamIndex < |FRESH.Run(before + [e] + after).transcript|
      && FRESH.Run(before + [e] + after).transcript[t.streamIndex] ==
         Entry("assistant", if LastDraft(ms) != "" then LastDraft(ms) else FinalText(ms))
  {
    var t := FRESH.Run(before).Step(e);
    var attended := Attended(t, t.streamIndex, after);
    BubbleOfARun(before, e, after);
    OnlyAnswersFold(e.ids.a, "", attended);
    StreamFolds(e.ids.a, Answering(e.ids.a, attended));
  }

  // ---------- the pick among the sessions ----------

  /** Session `k` is the first of those last active the latest; a session without a time counts as 0. */
  predicate IsMostRecent(list: seq<P.SessionInfo>, time: P.SessionInfo -> real, k: nat) {
    && k < |list|
    && (forall j :: 0 <= j < |list| ==> time(list[j]) <= time(list[k]))
    && (forall j :: 0 <= j < k ==> time(list[j]) < time(list[k]))
  }

  /** `_mostRecent`, given how the times of last activity read as numbers. */
  method MostRecent(list: seq<P.SessionInfo>, time: P.SessionInfo -> real) returns (best: nat)
    requires list != []
    ensures IsMostRecent(list, time, best)
  {
    best := 0;
    var i := 1;
    while i < |list|
      invariant 1 <= i <= |list| && best < i
      invariant forall j :: 0 <= j < i ==> time(list[j]) <= time(list[best])
      invariant forall j :: 0 <= j < best ==> time(list[j]) < time(list[best])
    {
      if time(list[i]) > time(list[best]) {
        best := i;
      }
      i := i + 1;
    }
  }

  // ---------- the service object ----------

  /** The singleton itself: every function of the source, updating its properties in place. */
  class HermesService {
    var running: bool
    var connected: bool
    var busy: bool
    var sessionId: string
    var sessions: seq<P.SessionInfo>
    var adoptOnList: bool
    var messages: seq<Entry>
    var streamIndex: int
    var pendingMessage: string
    var currentRequestId: string
    var written: seq<P.ClientMessage>

    function View(): State
      reads this
    {
      State(running, connected, busy, sessionId, sessions, adoptOnList, messages, streamIndex,
            pendingMessage, currentRequestId, written)
    }

    constructor ()
      ensures View() == FRESH
    {
      running, connected, busy, sessionId, sessions, adoptOnList := false, false, false, "", [], false;
      messages, streamIndex, pendingMessage, currentRequestId, written := [], -1, "", "", [];
    }

    method Send(m: P.ClientMessage)
      modifies this`written
      ensures View() == old(View()).Emit(m)
    {
      if running {
        written := written + [m];
      }
    }

    method StartChat(text: string, id: string)
      modifies this
      ensures View() == old(View()).StartChat(text, id)
    {
      currentRequestId := id;
      messages := messages + [Entry("assistant", "")];
      streamIndex := |messages| - 1;
      Send(P.Chat(currentRequestId, Some(sessionId), text));
    }

    method SendMessage(text: string, ids: Ids)
      modifies this
      ensures View() == old(View()).Submit(text, ids)
    {
      if busy || JsText.IsBlank(text) {
        return;
      }
      messages := messages + [Entry("user", text)];
      busy := true;
      if sessionId != "" {
        StartChat(text, ids.a);
      } else {
        pendingMessage := text;
        currentRequestId := ids.a;
        Send(P.SessionCreate(currentRequestId, None));
      }
    }

    method CancelRequest()
      modifies this
      ensures View() == old(View()).Step(PressCancel)
    {
      if currentRequestId != "" {
        Send(P.Cancel(currentRequestId));
      }
    }

    method StartConversation(ids: Ids)
      modifies this
      ensures View() == old(View()).NewConversation(ids)
    {
      sessionId := "";
      currentRequestId := "";
      busy := false;
      streamIndex := -1;
      messages := [];
      Send(P.SessionCreate(ids.a, None));
      Send(P.SessionList(ids.b));
    }

    method ResumeSession(id: string, ids: Ids)
      modifies this
      ensures View() == old(View()).Resume(id, ids)
    {
      if id == "" || id == sessionId {
        return;
      }
      sessionId := id;
      busy := false;
      streamIndex := -1;
      messages := [];
      Send(P.SessionMessages(ids.a, id));
    }

    /** `setProperty` on the streaming entry; out of range it does nothing. */
    method SetContent(content: string)
      modifies this`messages
      ensures View() == old(View()).SetBubble(content)
    {
      if 0 <= streamIndex < |messages| {
        messages := messages[streamIndex := messages[streamIndex].(content := content)];
      }
    }

    method HandleComplete(content: string, ids: Ids)
      modifies this
      ensures View() == old(View()).Complete(content, ids)
    {
      if streamIndex >= 0 {
        if |messages| <= streamIndex {
          return; // `get` answers undefined, and reading its content throws
        }
        if messages[streamIndex].content == "" && content != "" {
          SetContent(content);
        }
      }
      busy := false;
      streamIndex := -1;
      currentRequestId := "";
      Send(P.SessionList(ids.a));
    }

    method HandleDelta(content: string)
      modifies this`messages
      ensures View() == old(View()).Extend(content)
    {
      if 0 <= streamIndex < |messages| {
        SetContent(messages[streamIndex].content + content);
      }
    }

    method HandleCreated(id: string, ids: Ids)
      modifies this
      ensures View() == old(View()).Created(id, ids)
    {
      sessionId := id;
      if pendingMessage != "" {
        var pending := pendingMessage;
        pendingMessage := "";
        StartChat(pending, ids.a);
      }
    }

    method HandleReset(id: string)
      modifies this
      ensures View() == old(View()).Reset(id)
    {
      if id != "" {
        sessionId := id;
      }
      messages := messages + [Entry("assistant", "_Session refreshed._")];
    }

    method HandleSessions(data: seq<P.SessionInfo>, ids: Ids, time: P.SessionInfo -> real) returns (newest: nat)
      modifies this
      ensures old(adoptOnList) && old(sessionId) == "" && data != [] ==> IsMostRecent(data, time, newest)
      ensures View() == old(View()).Listed(data, ids, newest)
    {
      newest := 0;
      sessions := data;
      if adoptOnList {
        adoptOnList := false;
        if sessionId == "" && data != [] {
          newest := MostRecent(data, time);
          ResumeSession(data[newest].id, ids);
        }
      }
    }

    method ReplayHistory(history: seq<P.ChatMessage>)
      modifies this`messages
      ensures View() == old(View()).Replay(history)
    {
      messages := [];
      var i := 0;
      while i < |history|
        invariant i <= |history| && |messages| == i
        invariant forall j :: 0 <= j < i ==> messages[j] == Entry(history[j].role, history[j].content)
      {
        messages := messages + [Entry(history[i].role, history[i].content)];
        i := i + 1;
      }
      assert messages == old(View()).Replay(history).transcript;
    }

    method HandleError(text: string)
      modifies this
      ensures View() == old(View()).Fail(text)
    {
      messages := messages + [Entry("error", if text != "" then text else "error")];
      busy := false;
      streamIndex := -1;
      currentRequestId := "";
    }

    method HandleLine(m: P.DaemonMessage, ids: Ids, time: P.SessionInfo -> real) returns (newest: nat)
      modifies this
      ensures old(adoptOnList) && old(sessionId) == "" && m.Sessions? && m.sessions != [] ==>
                IsMostRecent(m.sessions, time, newest)
      ensures View() == old(View()).Handle(m, ids, newest)
    {
      newest := 0;
      match m
      case Delta(id, content) => if id == currentRequestId { HandleDelta(content); }
      case Draft(id, content) => if id == currentRequestId { SetContent(content); }
      case ChatComplete(id, content) => if id == currentRequestId { HandleComplete(content, ids); }
      case SessionCreated(_, id, _, _) => HandleCreated(id, ids);
      case SessionReset(_, _, id) => HandleReset(id);
      case Sessions(_, data) => newest := HandleSessions(data, ids, time);
      case Messages(_, id, history) => if id == sessionId { ReplayHistory(history); }
      case Status(hermes, _, _) => connected := hermes == P.CONNECTED;
      case Error(id, text) =>
        if id == None || id == Some("") || id == Some(currentRequestId) { HandleError(text); }
      case _ =>
    }

    method OnRunning(ids: Ids)
      modifies this
      ensures View() == old(View()).Start(ids)
    {
      running := true;
      Send(P.StatusQuery(ids.a));
      Send(P.ModelList(ids.b));
      adoptOnList := sessionId == "";
      Send(P.SessionList(ids.c));
    }

    method OnExited()
      modifies this
      ensures View() == old(View()).Step(Exited)
    {
      running := false;
      connected := false;
      busy := false;
      currentRequestId := "";
      streamIndex := -1;
    }
  }
}
