/** The panel at the end of a daemon connection: from the adapter's frames to the text of a bubble. */
module Conversation {
  import opened Common
  import B = Turns
  import C = Connection
  import D = Daemon
  import opened Panel
  import opened Bridge

  /** The lines that the relay process hands to the panel until it exits. */
  function Relayed(es: seq<Event>): seq<P.DaemonMessage>
    decreases |es|
  {
    if es == [] || es[0].Exited? then []
    else (if es[0].Line? then [es[0].m] else []) + Relayed(es[1..])
  }

  lemma {:induction false} AnsweringAppend(rid: string, a: seq<P.DaemonMessage>, b: seq<P.DaemonMessage>)
    ensures Answering(rid, a + b) == Answering(rid, a) + Answering(rid, b)
    decreases |a|
  {
    if a == [] {
      assert a + b == b;
    } else {
      var mine := if a[0].Answers() == Some(rid) then [a[0]] else [];
      assert (a + b)[1..] == a[1..] + b;
      AnsweringAppend(rid, a[1..], b);
      Associate(mine, Answering(rid, a[1..]), Answering(rid, b));
    }
  }

  lemma AnsweringOne(rid: string, m: P.DaemonMessage)
    ensures Answering(rid, [m]) == if m.Answers() == Some(rid) then [m] else []
  {
    assert [m][1..] == [];
  }

  // ---------- parts of a stream ----------

  lemma StreamParts(rid: string, a: seq<P.DaemonMessage>, b: seq<P.DaemonMessage>)
    requires B.Stream(rid, a + b)
    ensures B.Stream(rid, a) && B.Stream(rid, b)
    ensures b != [] ==> forall m :: m in a ==> m.Draft?
  {
    forall m | m in a
      ensures m in a + b && (b != [] ==> m.Draft?)
    {
      var i :| 0 <= i < |a| && a[i] == m;
      assert (a + b)[i] == m;
    }
    assert forall m :: m in b ==> m in a + b;
    assert forall i :: 0 <= i < |a| - 1 ==> a[i] == (a + b)[i];
    assert forall i :: 0 <= i < |b| - 1 ==> b[i] == (a + b)[|a| + i];
  }

  lemma DraftsThenAStream(rid: string, a: seq<P.DaemonMessage>, b: seq<P.DaemonMessage>)
    requires B.Stream(rid, a) && B.Stream(rid, b) && (b != [] ==> forall m :: m in a ==> m.Draft?)
    ensures B.Stream(rid, a + b)
  {
    if b == [] {
      assert a + b == a;
    } else {
      assert forall i :: 0 <= i < |a| ==> (a + b)[i] == a[i] && a[i] in a;
      assert forall i :: 0 <= i < |b| ==> (a + b)[|a| + i] == b[i];
    }
  }

  // ---------- what a bubble attends to ----------

  /** An entry that is not the bubble is never the bubble again. */
  lemma {:induction false} NeverAgain(s: State, i: nat, es: seq<Event>)
    requires Consistent(s) && i < |s.transcript| && s.streamIndex != i
    requires NeverClears(s, es) && forall e :: e in es ==> Sound(e)
    ensures Attended(s, i, es) == []
    decreases |es|
  {
    if es != [] {
      ConsistentStep(s, es[0]);
      OnlyTheBubbleChanges(s, es[0], i);
      BubbleMoves(s, es[0]);
      NeverAgain(s.Step(es[0]), i, es[1..]);
    }
  }

  /** What a bubble attends to among the answers of one request is a stream if all that was relayed is. */
  lemma {:induction false} AttendedIsAStream(s: State, i: nat, rid: string, es: seq<Event>)
    requires Consistent(s) && i < |s.transcript|
    requires NeverClears(s, es) && forall e :: e in es ==> Sound(e)
    requires B.Stream(rid, Answering(rid, Relayed(es)))
    ensures B.Stream(rid, Answering(rid, Attended(s, i, es)))
    ensures forall m :: m in Answering(rid, Attended(s, i, es)) ==> m in Answering(rid, Relayed(es))
    decreases |es|
  {
    if es != [] {
      var e, next := es[0], s.Step(es[0]);
      ConsistentStep(s, e);
      OnlyTheBubbleChanges(s, e, i);
      if e.Exited? {
        NeverAgain(next, i, es[1..]);
      } else {
        var line := if e.Line? then [e.m] else [];
        var seen := if e.Line? && s.streamIndex == i then [e.m] else [];
        var mine, rest := Answering(rid, line), Answering(rid, Relayed(es[1..]));
        AnsweringAppend(rid, line, Relayed(es[1..]));
        AnsweringAppend(rid, seen, Attended(next, i, es[1..]));
        StreamParts(rid, mine, rest);
        AttendedIsAStream(next, i, rid, es[1..]);
        var attended := Answering(rid, Attended(next, i, es[1..]));
        assert attended != [] ==> attended[0] in rest;
        DraftsThenAStream(rid, mine, attended);
      }
    }
  }

  // ---------- what the daemon answers ----------

  /** The lines of a connection that answer the chat's request are those of the chat's own task. */
  lemma OnlyTheChatAnswers(run: D.Run, t: nat, line: C.Line)
    requires D.Valid(run) && D.HasOwnId(run, t)
    requires line in C.Wire(D.ClientRun(run, D.After(run).home[t]))
    ensures C.MessageOf(line).Answers() == Some(D.After(run).bridge.turns[t].rid) <==>
            line.Direct? && line.item.from == Some(t)
  {
    var c := D.After(run).home[t];
    D.OnTheWire(run, c, line);
    D.ChatsAreTasks(run, t);
    match line
    case Direct(item) => D.EveryReplyIsAddressed(run, c, item);
    case Event(_, m) => D.BroadcastsAreUnaddressed(run, c, m);
  }

  lemma AnsweringSnoc(rid: string, wire: seq<C.Line>, line: C.Line)
    ensures
      var m := C.MessageOf(line);
      Answering(rid, C.MessagesOf(wire + [line])) ==
      Answering(rid, C.MessagesOf(wire)) + if m.Answers() == Some(rid) then [m] else []
  {
    assert C.MessagesOf(wire + [line]) == C.MessagesOf(wire) + [C.MessageOf(line)];
    AnsweringAppend(rid, C.MessagesOf(wire), [C.MessageOf(line)]);
    AnsweringOne(rid, C.MessageOf(line));
  }

  lemma {:induction false} AnsweringOnTheWire(wire: seq<C.Line>, t: nat, rid: string)
    requires forall line :: line in wire ==>
      (C.MessageOf(line).Answers() == Some(rid) <==> line.Direct? && line.item.from == Some(t))
    ensures Answering(rid, C.MessagesOf(wire)) == C.ForTask(C.Directs(wire), t)
  {
    if wire != [] {
      var front, line := Front(wire), Last(wire);
      assert wire == front + [line] && line in wire;
      AnsweringOnTheWire(front, t, rid);
      C.ForTaskSnoc(front, line, t);
      AnsweringSnoc(rid, front, line);
    }
  }

  /** What answers the chat's request on its connection is a beginning of what the turn emitted. */
  lemma AnswersAreEmissions(run: D.Run, t: nat)
    requires D.Valid(run) && D.HasOwnId(run, t)
    ensures
      var s := D.After(run);
      Answering(s.bridge.turns[t].rid, C.MessagesOf(C.Wire(D.ClientRun(run, s.home[t])))) <=
      B.Emitted(D.BridgeRun(run), t)
  {
    var s := D.After(run);
    var conn, rid := D.ClientRun(run, s.home[t]), s.bridge.turns[t].rid;
    forall line | line in C.Wire(conn)
      ensures C.MessageOf(line).Answers() == Some(rid) <==> line.Direct? && line.item.from == Some(t)
    {
      OnlyTheChatAnswers(run, t, line);
    }
    AnsweringOnTheWire(C.Wire(conn), t, rid);
    D.ProjectsToEachConnection(run, s.home[t]);
    C.EachTaskStaysInOrder(conn, t);
    D.RepliesAreEmissions(run, t);
  }

  lemma {:induction false} RelayedDrafts(rid: string, fs: seq<Frame>, m: P.DaemonMessage)
    requires m in B.Relay(rid, fs) && m.Draft?
    ensures exists f :: f in fs && f.Draft? && f.text == m.content
  {
    var rest := B.Relay(rid, fs[1..]);
    if fs[0].Draft? && m == P.Draft(rid, fs[0].text) {
      assert fs[0] in fs;
    } else {
      assert !fs[0].Send? && m in rest;
      RelayedDrafts(rid, fs[1..], m);
    }
  }

  /** Every draft that a turn emitted was sent by the adapter, on a route of that turn. */
  lemma DraftsAreFrames(run: B.Run, t: nat, m: P.DaemonMessage)
    requires B.Valid(run) && t in B.After(run).turns && m in B.Emitted(run, t) && m.Draft?
    ensures exists f :: f in B.AccountOf(run, t).heard && f.Draft? && f.text == m.content
  {
    var u, acc := B.After(run).turns[t], B.AccountOf(run, t);
    B.RoutingRefinement(run, t);
    B.AccountCounts(run, t);
    var seen := acc.heard[..acc.taken];
    assert m in acc.emitted + B.Pending(u);
    RelayedDrafts(u.rid, seen, m);
    var f :| f in seen && f.Draft? && f.text == m.content;
    assert f in acc.heard;
  }

  // ---------- end to end ----------

  lemma {:induction false} LastDraftIsADraft(ms: seq<P.DaemonMessage>)
    requires LastDraft(ms) != ""
    ensures exists m :: m in ms && m.Draft? && m.content == LastDraft(ms)
  {
    if Last(ms).Draft? {
      assert Last(ms) in ms;
    } else {
      LastDraftIsADraft(Front(ms));
      var m :| m in Front(ms) && m.Draft? && m.content == LastDraft(ms);
      assert m in ms;
    }
  }

  /** The answers in a stretch of the lines are a stretch of the answers in all of them. */
  lemma StretchOfAnswers(rid: string, lines: seq<P.DaemonMessage>, start: nat, stretch: seq<P.DaemonMessage>)
      returns (early: seq<P.DaemonMessage>, late: seq<P.DaemonMessage>)
    requires start <= |lines| && stretch <= lines[start..]
    ensures Answering(rid, lines) == early + Answering(rid, stretch) + late
  {
    var behind := lines[start + |stretch|..];
    assert lines == lines[..start] + stretch + behind;
    AnsweringAppend(rid, lines[..start] + stretch, behind);
    AnsweringAppend(rid, lines[..start], stretch);
    early, late := Answering(rid, lines[..start]), Answering(rid, behind);
  }

  lemma StretchIsAStream(rid: string, early: seq<P.DaemonMessage>, part: seq<P.DaemonMessage>,
                         late: seq<P.DaemonMessage>)
    requires B.Stream(rid, early + part + late)
    ensures B.Stream(rid, part)
    ensures forall m :: m in part ==> m in early + part + late
  {
    StreamParts(rid, early + part, late);
    StreamParts(rid, early, part);
  }

  /** So they are part of a stream that the answers in all of them begin. */
  lemma RelayedIsAStream(rid: string, lines: seq<P.DaemonMessage>, start: nat, stretch: seq<P.DaemonMessage>,
                         emitted: seq<P.DaemonMessage>)
    requires start <= |lines| && stretch <= lines[start..]
    requires B.Stream(rid, emitted) && Answering(rid, lines) <= emitted
    ensures B.Stream(rid, Answering(rid, stretch))
    ensures forall m :: m in Answering(rid, stretch) ==> m in Answering(rid, lines)
  {
    var all := Answering(rid, lines);
    var early, late := StretchOfAnswers(rid, lines, start, stretch);
    var behind := emitted[|all|..];
    assert emitted == all + behind;
    StreamParts(rid, all, behind);
    StretchIsAStream(rid, early, Answering(rid, stretch), late);
  }

  lemma EmittedIsAStream(run: D.Run, t: nat)
    requires D.Valid(run) && t in D.After(run).bridge.turns
    ensures B.Stream(D.After(run).bridge.turns[t].rid, B.Emitted(D.BridgeRun(run), t))
    ensures forall m :: m in B.Emitted(D.BridgeRun(run), t) && m.ChatComplete? ==>
      var heard := B.AccountOf(D.BridgeRun(run), t).heard;
      B.HasSend(heard) && m.content == B.FirstSend(heard)
  {
    D.ProjectsToTheBridge(run);
    B.OneShot(D.BridgeRun(run), t);
    B.AccountCounts(D.BridgeRun(run), t);
  }

  /**
   A chat request that the panel sends and the daemon serves through the adapter. Over every run of the
   panel in which the lines relayed after the request are any stretch of its connection, and in every
   run of the daemon: the entry opened for the request shows the last draft it attended to, or, if
   that is empty or there is none, the final text; every draft was sent by the adapter on the
   chat's route, and the final text is the first one that was.
   */
  lemma BubbleOfAChat(run: D.Run, t: nat, before: seq<Event>, e: Event, after: seq<Event>, start: nat)
    requires D.Valid(run) && D.HasOwnId(run, t)
    requires forall x :: x in before + [e] + after ==> Sound(x)
    requires Opens(FRESH.Run(before), e) && NeverClears(FRESH.Run(before).Step(e), after)
    requires e.ids.a == D.After(run).bridge.turns[t].rid
    requires
      var lines := C.MessagesOf(C.Wire(D.ClientRun(run, D.After(run).home[t])));
      start <= |lines| && Relayed(after) <= lines[start..]
    ensures
      var asked := FRESH.Run(before).Step(e);
      var shown := FRESH.Run(before + [e] + after).transcript;
      var ms := Answering(e.ids.a, Attended(asked, asked.streamIndex, after));
      var heard := B.AccountOf(D.BridgeRun(run), t).heard;
      && 0 <= asked.streamIndex < |shown|
      && shown[asked.streamIndex] ==
         Entry("assistant", if LastDraft(ms) != "" then LastDraft(ms) else FinalText(ms))
      && (LastDraft(ms) != "" ==> exists f :: f in heard && f.Draft? && f.text == LastDraft(ms))
      && (ms != [] && Last(ms).ChatComplete? ==> B.HasSend(heard) && FinalText(ms) == B.FirstSend(heard))
  {
    var asked := FRESH.Run(before).Step(e);
    var ms := Answering(e.ids.a, Attended(asked, asked.streamIndex, after));
    AlwaysConsistent(FRESH, before);
    ConsistentStep(FRESH.Run(before), e);
    OpeningABubble(FRESH.Run(before), e);
    EmittedIsAStream(run, t);
    AnswersAreEmissions(run, t);
    RelayedIsAStream(e.ids.a, C.MessagesOf(C.Wire(D.ClientRun(run, D.After(run).home[t]))), start, Relayed(after),
                     B.Emitted(D.BridgeRun(run), t));
    AttendedIsAStream(asked, asked.streamIndex, e.ids.a, after);
    BubbleOfATurn(before, e, after);
    if LastDraft(ms) != "" {
      LastDraftIsADraft(ms);
      var m :| m in ms && m.Draft? && m.content == LastDraft(ms);
      D.ProjectsToTheBridge(run);
      DraftsAreFrames(D.BridgeRun(run), t, m);
    }
    if ms != [] && Last(ms).ChatComplete? {
      assert Last(ms) in ms;
    }
  }
}
