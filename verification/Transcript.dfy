/** What the panel's transcript holds over whole runs, and what becomes of every message typed into it. */
module Transcript {
  import opened Common
  import opened Panel

  // ---------- entries stay ----------

  /** As long as nothing clears the transcript, an entry that is not the bubble is never touched again. */
  lemma {:induction false} EntryStays(s: State, j: nat, es: seq<Event>)
    requires Consistent(s) && j < |s.transcript| && s.streamIndex != j
    requires NeverClears(s, es) && forall e :: e in es ==> Sound(e)
    ensures j < |s.Run(es).transcript| && s.Run(es).transcript[j] == s.transcript[j]
    decreases |es|
  {
    if es != [] {
      ConsistentStep(s, es[0]);
      OnlyTheBubbleChanges(s, es[0], j);
      BubbleMoves(s, es[0]);
      EntryStays(s.Step(es[0]), j, es[1..]);
    }
  }

  /** The same after a run from the start. */
  lemma EntryOfARun(before: seq<Event>, e: Event, after: seq<Event>, j: nat)
    requires forall x :: x in before + [e] + after ==> Sound(x)
    requires NeverClears(FRESH.Run(before).Step(e), after)
    requires j < |FRESH.Run(before).Step(e).transcript| && FRESH.Run(before).Step(e).streamIndex != j
    ensures
      var shown := FRESH.Run(before + [e] + after).transcript;
      j < |shown| && shown[j] == FRESH.Run(before).Step(e).transcript[j]
  {
    AlwaysConsistent(FRESH, before);
    ConsistentStep(FRESH.Run(before), e);
    RunSnoc(FRESH, before, e);
    RunAppend(FRESH, before + [e], after);
    EntryStays(FRESH.Run(before).Step(e), j, after);
  }

  // ---------- history ----------

  /** The entry shows the message. */
  predicate Shows(e: Entry, m: P.ChatMessage) {
    e.role == m.role && e.content == m.content
  }

  lemma HistoryStep(s: State, rid: string, id: string, history: seq<P.ChatMessage>, ids: Ids, newest: nat)
    requires s.sessionId == id
    ensures
      var t := s.Step(Line(P.Messages(rid, id, history), ids, newest));
      && t.streamIndex == s.streamIndex && t.rid == s.rid
      && |t.transcript| == |history|
      && forall i :: 0 <= i < |history| ==> Shows(t.transcript[i], history[i])
  {
  }

  /**
   A history reply for the current session: the transcript becomes that history, message by message;
   and as long as nothing clears it, it goes on to begin with it, but for an entry that a
   running answer streams into.
   */
  lemma HistoryIsShown(before: seq<Event>, rid: string, id: string, history: seq<P.ChatMessage>,
                       ids: Ids, newest: nat, after: seq<Event>)
    requires FRESH.Run(before).sessionId == id
    requires
      var e := Line(P.Messages(rid, id, history), ids, newest);
      && (forall x :: x in before + [e] + after ==> Sound(x))
      && NeverClears(FRESH.Run(before).Step(e), after)
    ensures
      var e := Line(P.Messages(rid, id, history), ids, newest);
      var bubble := FRESH.Run(before).streamIndex;
      var shown := FRESH.Run(before + [e] + after).transcript;
      && |history| <= |shown|
      && (forall i :: 0 <= i < |history| && i != bubble ==> Shows(shown[i], history[i]))
      && (after == [] ==> |shown| == |history| && forall i :: 0 <= i < |history| ==> Shows(shown[i], history[i]))
  {
    var e := Line(P.Messages(rid, id, history), ids, newest);
    HistoryStep(FRESH.Run(before), rid, id, history, ids, newest);
    forall i | 0 <= i < |history| && i != FRESH.Run(before).streamIndex
      ensures i < |FRESH.Run(before + [e] + after).transcript|
      ensures Shows(FRESH.Run(before + [e] + after).transcript[i], history[i])
    {
      EntryOfARun(before, e, after, i);
    }
    AlwaysConsistent(FRESH, before);
    ConsistentStep(FRESH.Run(before), e);
    RunSnoc(FRESH, before, e);
    RunAppend(FRESH, before + [e], after);
    TranscriptGrows(FRESH.Run(before).Step(e), after);
    assert after == [] ==> before + [e] + after == before + [e];
  }

  lemma {:induction false} TranscriptGrows(s: State, es: seq<Event>)
    requires NeverClears(s, es)
    ensures |s.transcript| <= |s.Run(es).transcript|
    decreases |es|
  {
    if es != [] {
      if s.transcript != [] {
        OnlyTheBubbleChanges(s, es[0], |s.transcript| - 1);
      }
      TranscriptGrows(s.Step(es[0]), es[1..]);
    }
  }

  // ---------- what an event appends ----------

  /** A message is taken only by an idle panel, and only if there is something in it. */
  predicate Takes(s: State, e: Event) {
    e.Submit? && !s.busy && !JsText.IsBlank(e.text)
  }

  /** The error is about no request in particular, or about the current one. */
  predicate Fails(s: State, e: Event) {
    e.Line? && e.m.Error? && (e.m.correlation == None || e.m.correlation == Some("") || e.m.correlation == Some(s.rid))
  }

  /** The entry that the event leaves in the transcript for good, if any. */
  function Leaves(s: State, e: Event): Option<Entry> {
    if Takes(s, e) then Some(Entry("user", e.text))
    else if Fails(s, e) then Some(Entry("error", if e.m.message != "" then e.m.message else "error"))
    else if e.Line? && e.m.SessionReset? then Some(Entry("assistant", "_Session refreshed._"))
    else None
  }

  lemma TakenStep(s: State, e: Event)
    requires Takes(s, e)
    ensures
      var t, j := s.Step(e), |s.transcript|;
      && j < |t.transcript| && t.transcript[j] == Entry("user", e.text)
      && (t.streamIndex == s.streamIndex || t.streamIndex > j)
  {
  }

  lemma ToldStep(s: State, e: Event)
    requires !e.Submit? && Leaves(s, e).Some?
    ensures
      var t, j := s.Step(e), |s.transcript|;
      && j < |t.transcript| && t.transcript[j] == Leaves(s, e).value
      && (t.streamIndex == s.streamIndex || t.streamIndex == -1)
      && (e.m.Error? ==> IsIdle(t))
  {
  }

  lemma LeavesStep(s: State, e: Event)
    requires Leaves(s, e).Some?
    ensures
      var t, j := s.Step(e), |s.transcript|;
      && j < |t.transcript| && t.transcript[j] == Leaves(s, e).value
      && (s.streamIndex < j ==> t.streamIndex != j) && (e.Line? && e.m.Error? ==> IsIdle(t))
  {
    if e.Submit? {
      TakenStep(s, e);
    } else {
      ToldStep(s, e);
    }
  }

  /**
   A message that is taken, an error that concerns the panel, and the notice of a new session: each
   appends its entry, and that stays as it is until the transcript is cleared.
   */
  lemma AppendedIsShown(before: seq<Event>, e: Event, after: seq<Event>)
    requires forall x :: x in before + [e] + after ==> Sound(x)
    requires Leaves(FRESH.Run(before), e).Some? && InRange(FRESH.Run(before))
    requires NeverClears(FRESH.Run(before).Step(e), after)
    ensures
      var j, shown := |FRESH.Run(before).transcript|, FRESH.Run(before + [e] + after).transcript;
      j < |shown| && shown[j] == Leaves(FRESH.Run(before), e).value
  {
    LeavesStep(FRESH.Run(before), e);
    EntryOfARun(before, e, after, |FRESH.Run(before).transcript|);
  }

  // ---------- the connection ----------

  /** The relay process was started, and has not exited since. */
  predicate IsUp(es: seq<Event>) {
    es != [] && (Last(es).Started? || (!Last(es).Exited? && IsUp(Front(es))))
  }

  /** The last status since the last exit says that Hermes is connected. */
  predicate SaysConnected(es: seq<Event>) {
    es != [] &&
    match Last(es)
    case Exited => false
    case Line(Status(hermes, _, _), _, _) => hermes == "connected"
    case _ => SaysConnected(Front(es))
  }

  /** The last list of sessions. */
  function LastList(es: seq<Event>): seq<P.SessionInfo> {
    if es == [] then []
    else match Last(es)
      case Line(Sessions(_, data), _, _) => data
      case _ => LastList(Front(es))
  }

  lemma RunningHandled(s: State, m: P.DaemonMessage, ids: Ids, newest: nat)
    ensures s.Handle(m, ids, newest).running == s.running
  {
    match m
    case Sessions(_, data) => assert s.Listed(data, ids, newest).running == s.running;
    case SessionCreated(_, id, _, _) => assert s.Created(id, ids).running == s.running;
    case ChatComplete(_, content) => assert s.Complete(content, ids).running == s.running;
    case _ =>
  }

  lemma StatusHandled(s: State, m: P.DaemonMessage, ids: Ids, newest: nat)
    ensures s.Handle(m, ids, newest).connected == if m.Status? then m.hermes == P.CONNECTED else s.connected
  {
  }

  lemma ListHandled(s: State, m: P.DaemonMessage, ids: Ids, newest: nat)
    ensures s.Handle(m, ids, newest).sessions == if m.Sessions? then m.sessions else s.sessions
  {
  }

  lemma FlagsStep(s: State, e: Event)
    ensures
      var t := s.Step(e);
      && t.running == (e.Started? || (!e.Exited? && s.running))
      && t.connected == (!e.Exited? && if e.Line? && e.m.Status? then e.m.hermes == P.CONNECTED else s.connected)
      && t.sessions == if e.Line? && e.m.Sessions? then e.m.sessions else s.sessions
  {
    if e.Line? {
      RunningHandled(s, e.m, e.ids, e.newest);
      StatusHandled(s, e.m, e.ids, e.newest);
      ListHandled(s, e.m, e.ids, e.newest);
    }
  }

  /** What the panel believes about the relay process, Hermes and the sessions is what it was told last. */
  lemma {:induction false} FlagsAreToldLast(es: seq<Event>)
    ensures FRESH.Run(es).running <==> IsUp(es)
    ensures FRESH.Run(es).connected <==> SaysConnected(es)
    ensures FRESH.Run(es).sessions == LastList(es)
  {
    if es != [] {
      FlagsAreToldLast(Front(es));
      FlagsStep(FRESH.Run(Front(es)), Last(es));
      assert es == Front(es) + [Last(es)];
      RunSnoc(FRESH, Front(es), Last(es));
    }
  }

  // ---------- every message once ----------

  /** The texts of the messages that were taken, in order. */
  function Taken(s: State, es: seq<Event>): seq<string>
    decreases |es|
  {
    if es == [] then []
    else (if Takes(s, es[0]) then [es[0].text] else []) + Taken(s.Step(es[0]), es[1..])
  }

  /** The texts with which chats were begun, in order. */
  function Begun(s: State, es: seq<Event>): seq<string>
    decreases |es|
  {
    if es == [] then []
    else BegunBy(s, es[0]) + Begun(s.Step(es[0]), es[1..])
  }

  function BegunBy(s: State, e: Event): seq<string> {
    if !Opens(s, e) then [] else if e.Submit? then [e.text] else [s.pending]
  }

  /** The message that waits for a session. */
  function Waits(s: State): seq<string> {
    if s.pending == "" then [] else [s.pending]
  }

  /** A message is taken that has to wait, while another one waits already. */
  predicate Displaces(s: State, e: Event) {
    Takes(s, e) && s.sessionId == "" && s.pending != ""
  }

  /** How often that happens. */
  function Displaced(s: State, es: seq<Event>): nat
    decreases |es|
  {
    if es == [] then 0 else (if Displaces(s, es[0]) then 1 else 0) + Displaced(s.Step(es[0]), es[1..])
  }

  lemma PendingHandled(s: State, m: P.DaemonMessage, ids: Ids, newest: nat)
    ensures s.Handle(m, ids, newest).pending == if m.SessionCreated? then "" else s.pending
  {
  }

  lemma PendingStep(s: State, e: Event)
    ensures s.Step(e).pending ==
            if Takes(s, e) && s.sessionId == "" then e.text
            else if e.Line? && e.m.SessionCreated? then ""
            else s.pending
  {
    if e.Line? {
      PendingHandled(s, e.m, e.ids, e.newest);
    }
  }

  lemma SubmissionStep(s: State, e: Event)
    ensures
      var taken := if Takes(s, e) then [e.text] else [];
      var lost := if Displaces(s, e) then [s.pending] else [];
      multiset(Waits(s)) + multiset(taken) == multiset(BegunBy(s, e)) + multiset(Waits(s.Step(e))) + multiset(lost)
  {
    PendingStep(s, e);
    assert Takes(s, e) ==> e.text != "";
  }

  lemma Balance<T>(waits: multiset<T>, first: multiset<T>, begun: multiset<T>, mid: multiset<T>, now: multiset<T>,
                   taken: multiset<T>, later: multiset<T>, end: multiset<T>, more: multiset<T>)
    requires waits + first == begun + mid + now && mid + taken == later + end + more
    ensures waits + (first + taken) == (begun + later) + end + (now + more)
  {
    forall x: T
      ensures (waits + (first + taken))[x] == ((begun + later) + end + (now + more))[x]
    {
      assert (waits + first)[x] == (begun + mid + now)[x] && (mid + taken)[x] == (later + end + more)[x];
    }
  }

  /**
   Every message that is taken is begun as a chat exactly once, or still waits for its session, or
   was displaced by a later one that has to wait too.
   */
  lemma {:induction false} EveryMessageOnce(s: State, es: seq<Event>) returns (lost: seq<string>)
    ensures |lost| == Displaced(s, es)
    ensures multiset(Waits(s)) + multiset(Taken(s, es)) ==
            multiset(Begun(s, es)) + multiset(Waits(s.Run(es))) + multiset(lost)
    decreases |es|
  {
    if es == [] {
      lost := [];
      assert s.Run(es) == s;
    } else {
      var e, next := es[0], s.Step(es[0]);
      var now, first := if Displaces(s, e) then [s.pending] else [], if Takes(s, e) then [e.text] else [];
      SubmissionStep(s, e);
      var more := EveryMessageOnce(next, es[1..]);
      lost := now + more;
      assert Taken(s, es) == first + Taken(next, es[1..]) && Begun(s, es) == BegunBy(s, e) + Begun(next, es[1..]);
      Balance(multiset(Waits(s)), multiset(first), multiset(BegunBy(s, e)), multiset(Waits(next)), multiset(now),
              multiset(Taken(next, es[1..])), multiset(Begun(next, es[1..])), multiset(Waits(s.Run(es))),
              multiset(more));
    }
  }

  /** So from the start nothing is lost, and nothing is sent twice, if and only if nothing is displaced. */
  lemma NothingIsLost(es: seq<Event>)
    ensures multiset(Taken(FRESH, es)) == multiset(Begun(FRESH, es)) + multiset(Waits(FRESH.Run(es)))
            <==> Displaced(FRESH, es) == 0
  {
    var lost := EveryMessageOnce(FRESH, es);
    var taken, kept := multiset(Taken(FRESH, es)), multiset(Begun(FRESH, es)) + multiset(Waits(FRESH.Run(es)));
    assert multiset(Waits(FRESH)) + taken == taken;
    assert |taken| == |kept| + |lost|;
  }

  /** A message waits for its session, the user starts over, and sends another one. */
  const STARTED_OVER: seq<Event> := [
    Started(SOME_IDS), Submit("h", SOME_IDS), NewConversation(SOME_IDS), Submit("k", SOME_IDS)
  ]

  lemma DisplacedBy(s: State, e: Event, es: seq<Event>)
    ensures Displaced(s, [e] + es) == (if Displaces(s, e) then 1 else 0) + Displaced(s.Step(e), es)
  {
    assert ([e] + es)[1..] == es;
  }

  /** The first message is never sent, and nothing says so. */
  lemma MessageLostByStartingOver()
    ensures forall e :: e in STARTED_OVER ==> Sound(e)
    ensures Displaced(FRESH, STARTED_OVER) == 1
  {
    var es := STARTED_OVER;
    assert !JsText.IsBlank("h") && !JsText.IsBlank("k") by {
      assert !JsText.IsSpace("h"[0]) && !JsText.IsSpace("k"[0]);
    }
    var a := FRESH.Step(es[0]);
    var b := a.Step(es[1]);
    var c := b.Step(es[2]);
    assert es == [es[0]] + ([es[1]] + ([es[2]] + ([es[3]] + [])));
    DisplacedBy(FRESH, es[0], [es[1]] + ([es[2]] + ([es[3]] + [])));
    DisplacedBy(a, es[1], [es[2]] + ([es[3]] + []));
    DisplacedBy(b, es[2], [es[3]] + []);
    DisplacedBy(c, es[3], []);
  }

  // ---------- what is written to the daemon ----------

  /** The texts of the chat requests among the messages. */
  function ChatTexts(ms: seq<P.ClientMessage>): seq<string> {
    if ms == [] then []
    else ChatTexts(Front(ms)) + if Last(ms).Chat? then [Last(ms).message] else []
  }

  lemma {:induction false} ChatTextsAppend(a: seq<P.ClientMessage>, b: seq<P.ClientMessage>)
    ensures ChatTexts(a + b) == ChatTexts(a) + ChatTexts(b)
  {
    if b == [] {
      assert a + b == a;
    } else {
      assert Front(a + b) == a + Front(b);
      ChatTextsAppend(a, Front(b));
    }
  }

  /** What there is more in `late` than in `early`. */
  function More<T(==)>(early: seq<T>, late: seq<T>): (r: seq<T>)
    ensures early <= late ==> late == early + r
  {
    if early <= late then late[|early|..] else []
  }

  /** What an event writes to the daemon. */
  function WrittenBy(s: State, e: Event): seq<P.ClientMessage> {
    More(s.out, s.Step(e).out)
  }

  lemma OutHandled(s: State, m: P.DaemonMessage, ids: Ids, newest: nat)
    ensures s.out <= s.Handle(m, ids, newest).out
  {
    match m
    case Sessions(_, data) => assert s.out <= s.Listed(data, ids, newest).out;
    case SessionCreated(_, id, _, _) => assert s.out <= s.Created(id, ids).out;
    case ChatComplete(_, content) => assert s.out <= s.Complete(content, ids).out;
    case _ =>
  }

  lemma OutKept(s: State, e: Event)
    ensures s.out <= s.Step(e).out
  {
    if e.Line? {
      OutHandled(s, e.m, e.ids, e.newest);
    }
  }

  lemma OutGrows(s: State, e: Event)
    ensures s.Step(e).out == s.out + WrittenBy(s, e)
  {
    OutKept(s, e);
  }

  /** A chat that is begun is written at once, with its new id, the session and its text, and alone. */
  lemma ChatIsWritten(s: State, e: Event)
    requires Opens(s, e) && s.running
    ensures BegunBy(s, e) != [] && s.Step(e).sessionId == (if e.Line? then e.m.sessionId else s.sessionId)
    ensures WrittenBy(s, e) == [P.Chat(e.ids.a, Some(s.Step(e).sessionId), BegunBy(s, e)[0])]
  {
  }

  lemma NoChatHandled(s: State, m: P.DaemonMessage, ids: Ids, newest: nat)
    requires !Opens(s, Line(m, ids, newest))
    ensures forall x :: x in WrittenBy(s, Line(m, ids, newest)) ==> !x.Chat?
  {
  }

  lemma NoOtherChat(s: State, e: Event)
    requires !Opens(s, e)
    ensures forall x :: x in WrittenBy(s, e) ==> !x.Chat?
  {
    if e.Line? {
      NoChatHandled(s, e.m, e.ids, e.newest);
    }
  }

  lemma {:induction false} NoTexts(ms: seq<P.ClientMessage>)
    requires forall x :: x in ms ==> !x.Chat?
    ensures ChatTexts(ms) == []
  {
    if ms != [] {
      assert Last(ms) in ms && forall x :: x in Front(ms) ==> x in ms;
      NoTexts(Front(ms));
    }
  }

  lemma ChatsStep(s: State, e: Event)
    requires Opens(s, e) ==> s.running
    ensures ChatTexts(s.Step(e).out) == ChatTexts(s.out) + BegunBy(s, e)
  {
    OutGrows(s, e);
    ChatTextsAppend(s.out, WrittenBy(s, e));
    if Opens(s, e) {
      ChatIsWritten(s, e);
      assert Front(WrittenBy(s, e)) == [] && BegunBy(s, e) == [BegunBy(s, e)[0]];
    } else {
      NoOtherChat(s, e);
      NoTexts(WrittenBy(s, e));
    }
  }

  /** Every chat is begun while the relay process runs. */
  predicate BegunWhileUp(s: State, es: seq<Event>)
    decreases |es|
  {
    es == [] || ((Opens(s, es[0]) ==> s.running) && BegunWhileUp(s.Step(es[0]), es[1..]))
  }

  /** The chat requests written are those begun, each once and in order, and no others. */
  lemma {:induction false} ChatsAreWritten(s: State, es: seq<Event>)
    requires BegunWhileUp(s, es)
    ensures ChatTexts(s.Run(es).out) == ChatTexts(s.out) + Begun(s, es)
    decreases |es|
  {
    if es == [] {
      assert ChatTexts(s.out) + [] == ChatTexts(s.out);
    } else {
      ChatsStep(s, es[0]);
      ChatsAreWritten(s.Step(es[0]), es[1..]);
      Associate(ChatTexts(s.out), BegunBy(s, es[0]), Begun(s.Step(es[0]), es[1..]));
    }
  }
}
