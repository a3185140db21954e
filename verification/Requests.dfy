/** Which session and which request the panel is at, and what it asks of the daemon. */
module Requests {
  import opened Common
  import opened Panel
  import opened Transcript

  // ---------- the session ----------

  /** The current session, and whether the first list of sessions may change it. */
  datatype Told = Told(session: string, adopt: bool)

  function TellBy(now: Told, e: Event): Told {
    match e
    case NewConversation(_) => now.(session := "")
    case Resume(id, _) => if id == "" then now else now.(session := id)
    case Line(SessionCreated(_, id, _, _), _, _) => now.(session := id)
    case Line(SessionReset(_, _, id), _, _) => if id == "" then now else now.(session := id)
    case Line(Sessions(_, data), _, newest) =>
      Told(if now.adopt && now.session == "" && data != [] then data[newest % |data|].id else now.session, false)
    case Started(_) => now.(adopt := now.session == "")
    case _ => now
  }

  /** What the events say about the session. */
  function Tell(es: seq<Event>): Told {
    if es == [] then Told("", false) else TellBy(Tell(Front(es)), Last(es))
  }

  lemma SessionHandled(s: State, m: P.DaemonMessage, ids: Ids, newest: nat)
    ensures s.Handle(m, ids, newest).sessionId ==
            TellBy(Told(s.sessionId, s.adoptOnList), Line(m, ids, newest)).session
  {
    match m
    case SessionCreated(_, id, _, _) => assert s.Created(id, ids).sessionId == id;
    case ChatComplete(_, content) => assert s.Complete(content, ids).sessionId == s.sessionId;
    case _ =>
  }

  lemma AdoptHandled(s: State, m: P.DaemonMessage, ids: Ids, newest: nat)
    ensures s.Handle(m, ids, newest).adoptOnList ==
            TellBy(Told(s.sessionId, s.adoptOnList), Line(m, ids, newest)).adopt
  {
    match m
    case Sessions(_, data) => assert s.Listed(data, ids, newest).adoptOnList == false;
    case SessionCreated(_, id, _, _) => assert s.Created(id, ids).adoptOnList == s.adoptOnList;
    case ChatComplete(_, content) => assert s.Complete(content, ids).adoptOnList == s.adoptOnList;
    case _ =>
  }

  lemma SessionStep(s: State, e: Event)
    ensures Told(s.Step(e).sessionId, s.Step(e).adoptOnList) == TellBy(Told(s.sessionId, s.adoptOnList), e)
  {
    if e.Line? {
      SessionHandled(s, e.m, e.ids, e.newest);
      AdoptHandled(s, e.m, e.ids, e.newest);
    }
  }

  /** After every run the panel is at the session that it was told last. */
  lemma {:induction false} SessionIsToldLast(es: seq<Event>)
    ensures Told(FRESH.Run(es).sessionId, FRESH.Run(es).adoptOnList) == Tell(es)
  {
    if es != [] {
      SessionIsToldLast(Front(es));
      SessionStep(FRESH.Run(Front(es)), Last(es));
      assert es == Front(es) + [Last(es)];
      RunSnoc(FRESH, Front(es), Last(es));
    }
  }

  // ---------- busy and idle ----------

  /** The panel changes over to an existing session: by hand, or when it adopts the most recent one. */
  predicate Switches(s: State, e: Event) {
    match e
    case Resume(id, _) => id != "" && id != s.sessionId
    case Line(Sessions(_, data), _, newest) =>
      s.adoptOnList && s.sessionId == "" && data != [] && data[newest % |data|].id != ""
    case _ => false
  }

  /** The current request is completed, and the completion is not lost. */
  predicate Completes(s: State, e: Event) {
    e.Line? && e.m.ChatComplete? && e.m.requestId == s.rid && InRange(s)
  }

  /** What makes a busy panel idle. */
  predicate Frees(s: State, e: Event) {
    e.NewConversation? || Switches(s, e) || Completes(s, e) || Fails(s, e) || e.Exited?
  }

  lemma BusyHandled(s: State, m: P.DaemonMessage, ids: Ids, newest: nat)
    requires Consistent(s)
    ensures s.Handle(m, ids, newest).busy <==> s.busy && !Frees(s, Line(m, ids, newest))
  {
    match m
    case Sessions(_, data) =>
      assert s.Listed(data, ids, newest).busy <==> s.busy && !Switches(s, Line(m, ids, newest));
    case SessionCreated(_, id, _, _) => assert s.Created(id, ids).busy == s.busy;
    case _ =>
  }

  /** A panel is busy exactly from a message it takes to what frees it. */
  lemma BusyStep(s: State, e: Event)
    requires Consistent(s)
    ensures s.Step(e).busy <==> Takes(s, e) || (s.busy && !Frees(s, e))
  {
    if e.Line? {
      BusyHandled(s, e.m, e.ids, e.newest);
    }
  }

  // ---------- what is written ----------

  /** What the panel asks of the daemon on an event. */
  function Asks(s: State, e: Event): seq<P.ClientMessage> {
    match e
    case Submit(text, ids) =>
      if !Takes(s, e) then []
      else if s.sessionId == "" then [P.SessionCreate(ids.a, None)]
      else [P.Chat(ids.a, Some(s.sessionId), text)]
    case PressCancel => if s.rid == "" then [] else [P.Cancel(s.rid)]
    case NewConversation(ids) => [P.SessionCreate(ids.a, None), P.SessionList(ids.b)]
    case Resume(id, ids) => if Switches(s, e) then [P.SessionMessages(ids.a, id)] else []
    case Line(SessionCreated(_, id, _, _), ids, _) =>
      if s.pending == "" then [] else [P.Chat(ids.a, Some(id), s.pending)]
    case Line(Sessions(_, data), ids, newest) =>
      if Switches(s, e) then [P.SessionMessages(ids.a, data[newest % |data|].id)] else []
    case Line(ChatComplete(_, _), ids, _) => if Completes(s, e) then [P.SessionList(ids.a)] else []
    case Started(ids) => [P.StatusQuery(ids.a), P.ModelList(ids.b), P.SessionList(ids.c)]
    case _ => []
  }

  lemma AsksHandled(s: State, m: P.DaemonMessage, ids: Ids, newest: nat)
    requires Consistent(s)
    ensures s.Handle(m, ids, newest).out == s.out + if s.running then Asks(s, Line(m, ids, newest)) else []
  {
    assert s.out + [] == s.out;
    match m
    case Sessions(_, data) =>
      var t := s.(sessions := data, adoptOnList := false);
      assert Switches(s, Line(m, ids, newest)) ==>
             s.Listed(data, ids, newest) == t.Resume(data[newest % |data|].id, ids);
    case _ =>
  }

  /** Every event writes exactly what it asks for; while the relay process is down that is lost. */
  lemma AsksStep(s: State, e: Event)
    requires Consistent(s)
    ensures s.Step(e).out == s.out + if s.running || e.Started? then Asks(s, e) else []
  {
    assert s.out + [] == s.out;
    if e.Line? {
      AsksHandled(s, e.m, e.ids, e.newest);
    }
  }

  /** All that was asked while the relay process ran. */
  function Asked(s: State, es: seq<Event>): seq<P.ClientMessage>
    decreases |es|
  {
    if es == [] then []
    else (if s.running || es[0].Started? then Asks(s, es[0]) else []) + Asked(s.Step(es[0]), es[1..])
  }

  lemma {:induction false} OutIsAsked(s: State, es: seq<Event>)
    requires Consistent(s) && forall e :: e in es ==> Sound(e)
    ensures s.Run(es).out == s.out + Asked(s, es)
    decreases |es|
  {
    if es == [] {
      assert s.out + [] == s.out;
    } else {
      var first := if s.running || es[0].Started? then Asks(s, es[0]) else [];
      ConsistentStep(s, es[0]);
      AsksStep(s, es[0]);
      OutIsAsked(s.Step(es[0]), es[1..]);
      Associate(s.out, first, Asked(s.Step(es[0]), es[1..]));
    }
  }

  // ---------- resuming a session ----------

  /** Changing over asks for the session's history, and when that arrives it is what the transcript shows. */
  lemma ResumedIsShown(before: seq<Event>, id: string, ids: Ids, between: seq<Event>,
                       q: string, history: seq<P.ChatMessage>, ids2: Ids, newest: nat)
    requires forall e :: e in before + [Resume(id, ids)] + between ==> Sound(e)
    requires ids2.a != "" && id != "" && FRESH.Run(before).sessionId != id && FRESH.Run(before).running
    requires Tell(before + [Resume(id, ids)] + between).session == id
    ensures
      var s := FRESH.Run(before);
      var resumed := FRESH.Run(before + [Resume(id, ids)]);
      && resumed.out == s.out + [P.SessionMessages(ids.a, id)] && resumed.transcript == [] && !resumed.busy
    ensures
      var es := before + [Resume(id, ids)] + between;
      var shown := FRESH.Run(es + [Line(P.Messages(q, id, history), ids2, newest)]).transcript;
      |shown| == |history| && forall i :: 0 <= i < |history| ==> Shows(shown[i], history[i])
  {
    var s, es := FRESH.Run(before), before + [Resume(id, ids)] + between;
    AlwaysConsistent(FRESH, before);
    AsksStep(s, Resume(id, ids));
    RunSnoc(FRESH, before, Resume(id, ids));
    SessionIsToldLast(es);
    RunSnoc(FRESH, es, Line(P.Messages(q, id, history), ids2, newest));
    HistoryStep(FRESH.Run(es), q, id, history, ids2, newest);
  }
}
