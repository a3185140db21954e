/**
 The whole daemon: the bridge and its turns composed with every client connection.

 A chat request is one task of its connection and, under the same number, one turn of the bridge:
 `Reply` hands the turn's message to that connection's queue, `Cancel` reaches the turn through
 `in_flight`, and the task returns when the turn is done.
 */
module Daemon {
  import opened Common
  import P = Protocol
  import B = Turns
  import C = Connection
  import Bridge
  import Ctl

  /** `home` says which connection a chat belongs to, `asked` which request it was. */
  datatype State = State(
    bridge: B.State, conns: map<nat, C.State>, home: map<nat, nat>, asked: map<nat, P.ClientMessage>)
  {
    /** Task `k` of connection `c` is a chat. */
    predicate IsChat(c: nat, k: nat) {
      k in home && home[k] == c
    }
  }

  datatype Label =
    | Accept(c: nat)
    | StartChat(c: nat, t: nat, request: P.ClientMessage)
    | Reply(t: nat, m: P.DaemonMessage)
    | Cancel(c: nat, rid: string, hit: Option<nat>)
    | Broadcast(m: P.DaemonMessage)
    | Bridge(b: B.Label)
    | Client(c: nat, l: C.Label)

  type Run = seq<Label>

  /** Toasts and unaddressed status changes are all the daemon ever broadcasts. */
  predicate Broadcastable(m: P.DaemonMessage) {
    m.Toast? || (m.Status? && m.correlation == None)
  }

  /** The chat id and the text that a chat request goes to the adapter with; without a session the id is made up. */
  predicate Serves(request: P.ClientMessage, chat: string, text: string) {
    request.Chat? && text == request.message && (request.session.Some? ==> chat == request.session.value)
  }

  predicate Enabled(s: State, l: Label) {
    match l
    case Accept(c) => c !in s.conns
    case StartChat(c, t, request) =>
      && request.Chat? && c in s.conns && t !in s.home && t !in s.bridge.turns
      && C.Enabled(s.conns[c], C.Dispatched(request, t))
    case Reply(t, m) =>
      t in s.home && s.home[t] in s.conns && B.Enabled(s.bridge, B.Deliver(t, m))
      && C.Enabled(s.conns[s.home[t]], C.Send(C.Item(Some(t), m)))
    case Cancel(c, rid, hit) =>
      c in s.conns && C.Enabled(s.conns[c], C.Cancel(rid))
      && var inFlight := s.conns[c].inFlight;
         hit == if rid in inFlight && s.IsChat(c, inFlight[rid]) then Some(inFlight[rid]) else None
    case Broadcast(m) => Broadcastable(m)
    case Bridge(b) =>
      B.Enabled(s.bridge, b) &&
      (match b
       case Open(t, rid, chat, text) =>
         t in s.home && s.home[t] in s.conns && s.conns[s.home[t]].IsRunning(t)
         && s.conns[s.home[t]].tasks[t].rid == Some(rid) && t in s.asked && Serves(s.asked[t], chat, text)
       case Fire(t) => t in s.home && s.home[t] in s.conns && s.conns[s.home[t]].stopped
       case Deliver(_, _) => false
       case _ => true)
    case Client(c, l) =>
      c in s.conns && C.Enabled(s.conns[c], l) &&
      (match l
       case Cancel(_) => false
       case Broadcast(_) => false
       case Spawn(k, _) => k !in s.home
       case Send(Item(None, m)) => m.Error? && m.correlation == None
       case Send(Item(Some(k), m)) =>
         !s.IsChat(c, k) && s.conns[c].tasks[k].rid.Some? && m.Answers() == s.conns[c].tasks[k].rid
       case Return(k) => s.IsChat(c, k) ==> s.bridge.At(k, B.Done)
       case _ => true)
  }

  /** The bridge step inside a daemon step. */
  function BridgeStep(l: Label): seq<B.Label> {
    match l
    case Reply(t, m) => [B.Deliver(t, m)]
    case Cancel(_, _, Some(t)) => [B.Fire(t)]
    case Bridge(b) => [b]
    case _ => []
  }

  /** The step of connection `c` inside a daemon step; `home` says whose chat replies. */
  function ClientStep(l: Label, c: nat, home: map<nat, nat>): seq<C.Label> {
    match l
    case StartChat(d, t, request) => if d == c then [C.Dispatched(request, t)] else []
    case Reply(t, m) => if t in home && home[t] == c then [C.Send(C.Item(Some(t), m))] else []
    case Cancel(d, rid, _) => if d == c then [C.Cancel(rid)] else []
    case Broadcast(m) => [C.Broadcast(m)]
    case Client(d, cl) => if d == c then [cl] else []
    case _ => []
  }

  function Apply(s: State, l: Label): State
    requires Enabled(s, l)
  {
    var b := BridgeStep(l);
    var home := if l.StartChat? then s.home[l.t := l.c] else s.home;
    var conns := map c | c in s.conns ::
      var cl := ClientStep(l, c, s.home);
      if cl == [] then s.conns[c] else C.Apply(s.conns[c], cl[0]);
    State(if b == [] then s.bridge else B.Apply(s.bridge, b[0]),
          if l.Accept? then conns[l.c := C.ACCEPTED] else conns,
          home,
          if l.StartChat? then s.asked[l.t := l.request] else s.asked)
  }

  function Exec(run: Run): Option<State> {
    if run == [] then Some(State(B.State(Bridge.EMPTY, map[], {}), map[], map[], map[]))
    else match Exec(Front(run))
      case None => None
      case Some(s) => if Enabled(s, Last(run)) then Some(Apply(s, Last(run))) else None
  }

  predicate Valid(run: Run) {
    Exec(run).Some?
  }

  function After(run: Run): State
    requires Valid(run)
  {
    Exec(run).value
  }

  // ---------- projections ----------

  function BridgeRun(run: Run): B.Run {
    if run == [] then [] else BridgeRun(Front(run)) + BridgeStep(Last(run))
  }

  /** The connection that each chat belongs to. */
  function Homes(run: Run): map<nat, nat> {
    if run == [] then map[]
    else
      var l := Last(run);
      if l.StartChat? then Homes(Front(run))[l.t := l.c] else Homes(Front(run))
  }

  function ClientRun(run: Run, c: nat): C.Run {
    if run == [] || Last(run) == Accept(c) then []
    else if Accept(c) !in Front(run) then []
    else ClientRun(Front(run), c) + ClientStep(Last(run), c, Homes(Front(run)))
  }

  lemma {:induction false} HomesAreKnown(run: Run)
    requires Valid(run)
    ensures After(run).home == Homes(run)
    ensures forall c :: c in After(run).conns <==> Accept(c) in run
  {
    if run != [] {
      HomesAreKnown(Front(run));
      assert run == Front(run) + [Last(run)];
    }
  }

  lemma BridgeMoves(s: State, l: Label)
    requires Enabled(s, l)
    ensures
      var b := BridgeStep(l);
      if b == [] then Apply(s, l).bridge == s.bridge
      else B.Enabled(s.bridge, b[0]) && Apply(s, l).bridge == B.Apply(s.bridge, b[0])
  {
  }

  /** Seen from the bridge, a run of the daemon is a run of the bridge. */
  lemma {:induction false} ProjectsToTheBridge(run: Run)
    requires Valid(run)
    ensures B.Valid(BridgeRun(run)) && B.After(BridgeRun(run)) == After(run).bridge
  {
    if run != [] {
      ProjectsToTheBridge(Front(run));
      BridgeMoves(After(Front(run)), Last(run));
      var front, b := BridgeRun(Front(run)), BridgeStep(Last(run));
      if b == [] {
        assert BridgeRun(run) == front;
      } else {
        assert b == [b[0]];
        B.Extend(front, b[0]);
      }
    }
  }

  lemma ConnectionMoves(s: State, l: Label, c: nat)
    requires Enabled(s, l) && c in Apply(s, l).conns
    ensures
      if l == Accept(c) then Apply(s, l).conns[c] == C.ACCEPTED
      else
        c in s.conns &&
        var cl := ClientStep(l, c, s.home);
        if cl == [] then Apply(s, l).conns[c] == s.conns[c]
        else C.Enabled(s.conns[c], cl[0]) && Apply(s, l).conns[c] == C.Apply(s.conns[c], cl[0])
  {
  }

  /** Seen from one connection, a run of the daemon is a run of that connection. */
  lemma {:induction false} ProjectsToEachConnection(run: Run, c: nat)
    requires Valid(run) && c in After(run).conns
    ensures C.Valid(ClientRun(run, c)) && C.After(ClientRun(run, c)) == After(run).conns[c]
  {
    var s, l := After(Front(run)), Last(run);
    ConnectionMoves(s, l, c);
    if l != Accept(c) {
      ProjectsToEachConnection(Front(run), c);
      ClientUnroll(run, c);
      var front, cl := ClientRun(Front(run), c), ClientStep(l, c, s.home);
      if cl == [] {
        assert ClientRun(run, c) == front;
      } else {
        assert cl == [cl[0]];
        C.Extend(front, cl[0]);
      }
    }
  }

  // ---------- chats and their tasks ----------

  /** Turn `t` is a running task of its home connection until it is done, under the same request id. */
  predicate ChatFits(s: State, t: nat) {
    && (t in s.bridge.turns ==> t in s.home)
    && (t in s.home ==>
          s.home[t] in s.conns && t in s.conns[s.home[t]].tasks &&
          var task := s.conns[s.home[t]].tasks[t];
          && (t in s.bridge.turns ==> task.rid == Some(s.bridge.turns[t].rid))
          && (!task.stage.Running? ==> s.bridge.At(t, B.Done)))
  }

  lemma TurnStep(s: B.State, l: B.Label, t: nat)
    requires B.Enabled(s, l)
    ensures t in B.Apply(s, l).turns <==> t in s.turns || (l.Open? && l.t == t)
    ensures t in s.turns ==> B.Apply(s, l).turns[t].rid == s.turns[t].rid
    ensures l.Open? && l.t == t ==> B.Apply(s, l).turns[t].rid == l.rid
    ensures s.At(t, B.Done) ==> B.Apply(s, l).At(t, B.Done)
  {
  }

  lemma ChatStep(s: State, l: Label, t: nat)
    requires Enabled(s, l) && ChatFits(s, t)
    ensures ChatFits(Apply(s, l), t)
  {
    var b := BridgeStep(l);
    if b != [] {
      TurnStep(s.bridge, b[0], t);
    }
    if t in s.home {
      var cl := ClientStep(l, s.home[t], s.home);
      if cl != [] {
        C.TaskStep(s.conns[s.home[t]], cl[0], t);
      }
    }
  }

  lemma {:induction false} ChatsAreTasks(run: Run, t: nat)
    requires Valid(run)
    ensures ChatFits(After(run), t)
  {
    if run != [] {
      ChatsAreTasks(Front(run), t);
      ChatStep(After(Front(run)), Last(run), t);
    }
  }

  /** What a step makes turn `t` emit. */
  function EmittedBy(l: Label, t: nat): seq<P.DaemonMessage> {
    var b := BridgeStep(l);
    if b != [] && b[0].Deliver? && b[0].t == t then [b[0].message] else []
  }

  lemma {:induction false} BridgeUnroll(run: Run, t: nat)
    requires run != []
    ensures B.Emitted(BridgeRun(run), t) == B.Emitted(BridgeRun(Front(run)), t) + EmittedBy(Last(run), t)
  {
    var b, front := BridgeStep(Last(run)), BridgeRun(Front(run));
    if b == [] {
      assert BridgeRun(run) == front;
    } else {
      assert b == [b[0]] && BridgeRun(run) == front + [b[0]];
      assert Front(BridgeRun(run)) == front;
    }
  }

  lemma {:induction false} ClientUnroll(run: Run, c: nat)
    requires Valid(run) && c in After(run).conns && run != [] && Last(run) != Accept(c)
    ensures c in After(Front(run)).conns
    ensures ClientRun(run, c) == ClientRun(Front(run), c) + ClientStep(Last(run), c, After(Front(run)).home)
  {
    HomesAreKnown(Front(run));
  }

  /** What task `t` hands to its connection in at most one step of it. */
  function Handed(step: C.Run, t: nat): seq<P.DaemonMessage> {
    if step == [] then [] else C.ForTask(C.SentBy(Last(step)), t)
  }

  lemma OneItem(item: C.Item, t: nat)
    ensures C.ForTask([item], t) == if item.from == Some(t) then [item.message] else []
  {
    assert Front([item]) == [];
  }

  lemma ReplyStep(s: State, l: Label, t: nat)
    requires Enabled(s, l) && t in s.home
    ensures Handed(ClientStep(l, s.home[t], s.home), t) == EmittedBy(l, t)
  {
    match l
    case Reply(u, m) => OneItem(C.Item(Some(u), m), t);
    case Client(_, Send(item)) => OneItem(item, t);
    case _ =>
  }

  lemma NewChatStep(s: State, l: Label, t: nat)
    requires Enabled(s, l) && t !in s.home && t in Apply(s, l).home
    ensures l.StartChat? && l.t == t && Apply(s, l).home[t] == l.c && l.c in s.conns && t !in s.conns[l.c].tasks
  {
  }

  lemma HomeStays(s: State, l: Label, t: nat)
    requires Enabled(s, l) && t in s.home && s.home[t] in s.conns
    ensures t in Apply(s, l).home && Apply(s, l).home[t] == s.home[t] && l != Accept(s.home[t])
    ensures s.home[t] in Apply(s, l).conns
  {
  }

  lemma {:induction false} TaskSendsMore(front: C.Run, step: C.Run, t: nat)
    requires |step| <= 1
    ensures C.ForTask(C.Sent(front + step), t) == C.ForTask(C.Sent(front), t) + Handed(step, t)
  {
    if step == [] {
      assert front + step == front;
    } else {
      assert Front(front + step) == front && Last(front + step) == Last(step);
      C.ForTaskAppend(C.Sent(front), C.SentBy(Last(step)), t);
    }
  }

  lemma {:induction false} NewChat(run: Run, t: nat)
    requires Valid(run) && run != [] && t !in After(Front(run)).home && t in After(run).home
    ensures C.ForTask(C.Sent(ClientRun(run, After(run).home[t])), t) == []
  {
    var s, l := After(Front(run)), Last(run);
    NewChatStep(s, l, t);
    ClientUnroll(run, l.c);
    var front, step := ClientRun(Front(run), l.c), ClientStep(l, l.c, s.home);
    ProjectsToEachConnection(Front(run), l.c);
    C.SendersAreTasks(front, t);
    TaskSendsMore(front, step, t);
  }

  lemma {:induction false} OldChat(run: Run, t: nat)
    requires Valid(run) && run != [] && t in After(Front(run)).home
    requires After(Front(run)).home[t] in After(Front(run)).conns
    ensures t in After(run).home && After(run).home[t] == After(Front(run)).home[t]
    ensures
      var c := After(run).home[t];
      C.ForTask(C.Sent(ClientRun(run, c)), t) ==
      C.ForTask(C.Sent(ClientRun(Front(run), c)), t) + EmittedBy(Last(run), t)
  {
    var s, l := After(Front(run)), Last(run);
    var c := s.home[t];
    HomeStays(s, l, t);
    ClientUnroll(run, c);
    ReplyStep(s, l, t);
    TaskSendsMore(ClientRun(Front(run), c), ClientStep(l, c, s.home), t);
  }

  /** What a chat's task queued on its connection is what the turn emitted. */
  lemma {:induction false} RepliesAreEmissions(run: Run, t: nat)
    requires Valid(run)
    ensures
      var emitted := B.Emitted(BridgeRun(run), t);
      if t in After(run).home then C.ForTask(C.Sent(ClientRun(run, After(run).home[t])), t) == emitted
      else emitted == []
  {
    if t !in After(run).home {
      ChatsAreTasks(run, t);
      ProjectsToTheBridge(run);
      B.EveryTurnAgrees(BridgeRun(run), t);
      B.AccountCounts(BridgeRun(run), t);
    } else if t in After(Front(run)).home {
      ChatsAreTasks(Front(run), t);
      RepliesAreEmissions(Front(run), t);
      OldChat(run, t);
      BridgeUnroll(run, t);
    } else {
      RepliesAreEmissions(Front(run), t);
      NewChat(run, t);
      BridgeUnroll(run, t);
      NewChatEmitsNothing(After(Front(run)), Last(run), t);
    }
  }

  lemma NewChatEmitsNothing(s: State, l: Label, t: nat)
    requires Enabled(s, l) && t !in s.home && t in Apply(s, l).home
    ensures EmittedBy(l, t) == []
  {
  }

  // ---------- end to end ----------

  /** The sender of an item, and whether the message is addressed to that sender's request. */
  predicate Addressed(s: State, c: nat, item: C.Item)
    requires c in s.conns
  {
    match item.from
    case None => item.message.Error? && item.message.correlation == None
    case Some(k) =>
      && k in s.conns[c].tasks
      && (s.IsChat(c, k) ||
          (s.conns[c].tasks[k].rid.Some? && item.message.Answers() == s.conns[c].tasks[k].rid))
  }

  lemma AddressedStep(s: State, l: Label, c: nat, item: C.Item)
    requires Enabled(s, l) && c in s.conns && l != Accept(c)
    ensures c in Apply(s, l).conns
    ensures Addressed(s, c, item) ==> Addressed(Apply(s, l), c, item)
    ensures ClientStep(l, c, s.home) == [C.Send(item)] ==> Addressed(Apply(s, l), c, item)
  {
    var cl := ClientStep(l, c, s.home);
    if cl != [] && item.from.Some? {
      C.TaskStep(s.conns[c], cl[0], item.from.value);
    }
  }

  lemma {:induction false} ItemsAreAddressed(run: Run, c: nat, item: C.Item)
    requires Valid(run) && c in After(run).conns && item in C.Sent(ClientRun(run, c))
    ensures Addressed(After(run), c, item)
  {
    if Last(run) != Accept(c) {
      var s, l := After(Front(run)), Last(run);
      ClientUnroll(run, c);
      AddressedStep(s, l, c, item);
      var front, step := ClientRun(Front(run), c), ClientStep(l, c, s.home);
      C.OneMoreStep(front, step);
      if item in C.Sent(front) {
        ItemsAreAddressed(Front(run), c, item);
      } else {
        SentInStep(step, item);
      }
    }
  }

  lemma SentInStep(step: C.Run, item: C.Item)
    requires |step| <= 1 && item in C.Sent(step)
    ensures step == [C.Send(item)]
  {
    assert Front(step) == [];
    assert step == [step[0]];
  }

  /** Every message on a connection answers the request of the task that sent it. */
  lemma {:induction false} EveryReplyIsAddressed(run: Run, c: nat, item: C.Item)
    requires Valid(run) && c in After(run).conns && item in C.Sent(ClientRun(run, c))
    ensures item.from.None? ==> item.message.Answers() == None
    ensures item.from.Some? ==>
      && item.from.value in After(run).conns[c].tasks && After(run).conns[c].tasks[item.from.value].rid.Some?
      && item.message.Answers() == After(run).conns[c].tasks[item.from.value].rid
  {
    ItemsAreAddressed(run, c, item);
    var s := After(run);
    if item.from.Some? && s.IsChat(c, item.from.value) {
      var t := item.from.value;
      RepliesAreEmissions(run, t);
      C.InForTask(C.Sent(ClientRun(run, c)), item, t);
      ChatsAreTasks(run, t);
      ProjectsToTheBridge(run);
      B.EveryTurnAgrees(BridgeRun(run), t);
      B.AccountCounts(BridgeRun(run), t);
      B.OneShot(BridgeRun(run), t);
    }
  }

  lemma {:induction false} BroadcastsAreUnaddressed(run: Run, c: nat, m: P.DaemonMessage)
    requires Valid(run) && c in After(run).conns && m in C.Broadcasts(ClientRun(run, c))
    ensures Broadcastable(m)
  {
    if Last(run) != Accept(c) {
      var s, l := After(Front(run)), Last(run);
      ClientUnroll(run, c);
      var front, step := ClientRun(Front(run), c), ClientStep(l, c, s.home);
      C.OneMoreStep(front, step);
      if m in C.Broadcasts(front) {
        BroadcastsAreUnaddressed(Front(run), c, m);
      } else {
        assert Front(step) == [];
        BroadcastStep(s, l, c, m);
      }
    }
  }

  lemma BroadcastStep(s: State, l: Label, c: nat, m: P.DaemonMessage)
    requires Enabled(s, l) && ClientStep(l, c, s.home) != [] && ClientStep(l, c, s.home)[0] == C.Broadcast(m)
    ensures Broadcastable(m)
  {
  }

  /** The only lines on the wire that a client waiting for `rid` reacts to come from task `t`. */
  lemma {:induction false} RelevantLines(wire: seq<C.Line>, t: nat, rid: string)
    requires forall line :: line in wire ==>
      (line.Direct? && line.item.from == Some(t)) || !Ctl.Relevant(rid, C.MessageOf(line))
    ensures Ctl.Filter(rid, C.MessagesOf(wire)) == Ctl.Filter(rid, C.ForTask(C.Directs(wire), t))
  {
    if wire != [] {
      var front, line := Front(wire), Last(wire);
      var m := C.MessageOf(line);
      var mine := if line.Direct? && line.item.from == Some(t) then [m] else [];
      assert line in wire && forall x :: x in front ==> x in wire;
      RelevantLines(front, t, rid);
      assert wire == front + [line];
      assert C.MessagesOf(wire) == C.MessagesOf(front) + [m];
      C.ForTaskSnoc(front, line, t);
      Ctl.FilterAppend(rid, C.MessagesOf(front), [m]);
      Ctl.FilterAppend(rid, C.ForTask(C.Directs(front), t), mine);
      Ctl.FilterOne(rid, m);
    }
  }

  /** Chat `t` is the only request of its connection with its id. */
  predicate HasOwnId(run: Run, t: nat)
    requires Valid(run)
  {
    var s := After(run);
    t in s.bridge.turns && t in s.home && s.home[t] in s.conns &&
    var tasks := s.conns[s.home[t]].tasks;
    forall k :: k in tasks && tasks[k].rid == Some(s.bridge.turns[t].rid) ==> k == t
  }

  /** Moreover that client sends no malformed line. */
  predicate Sole(run: Run, t: nat)
    requires Valid(run)
  {
    && HasOwnId(run, t)
    && forall item :: item in C.Sent(ClientRun(run, After(run).home[t])) ==> item.from != None
  }

  lemma {:induction false} OnlyTheChatIsRelevant(run: Run, t: nat, line: C.Line)
    requires Valid(run) && Sole(run, t)
    requires line in C.Wire(ClientRun(run, After(run).home[t]))
    ensures (line.Direct? && line.item.from == Some(t)) ||
            !Ctl.Relevant(After(run).bridge.turns[t].rid, C.MessageOf(line))
  {
    var c := After(run).home[t];
    OnTheWire(run, c, line);
    match line
    case Direct(item) => EveryReplyIsAddressed(run, c, item);
    case Event(_, m) => BroadcastsAreUnaddressed(run, c, m);
  }

  lemma {:induction false} OnTheWire(run: Run, c: nat, line: C.Line)
    requires Valid(run) && c in After(run).conns && line in C.Wire(ClientRun(run, c))
    ensures line.Direct? ==> line.item in C.Sent(ClientRun(run, c))
    ensures line.Event? ==> line.event in C.Broadcasts(ClientRun(run, c))
  {
    ProjectsToEachConnection(run, c);
    C.WireLines(ClientRun(run, c), line);
  }

  /**
   `hermes-dms-ctl chat`, reading what the daemon wrote to its connection, prints exactly the first
   final text that the adapter sent for this chat while its route was installed, plus a newline, or
   prints nothing at all; and once the daemon's writer has finished, the command has its verdict.
   */
  lemma {:induction false} OneShotEndToEnd(run: Run, t: nat)
    requires Valid(run) && Sole(run, t)
    ensures
      var s := After(run);
      var c := s.home[t];
      var heard := B.AccountOf(BridgeRun(run), t).heard;
      var o := Ctl.RunChat(s.bridge.turns[t].rid, C.MessagesOf(C.Wire(ClientRun(run, c))));
      && (o.verdict.Succeeded? ==> B.HasSend(heard) && o.printed == B.FirstSend(heard) + "\n")
      && (!o.verdict.Succeeded? ==> o.printed == "")
      && (s.conns[c].writer.Finished? ==> !o.verdict.Waiting?)
  {
    var s := After(run);
    var c, rid := s.home[t], s.bridge.turns[t].rid;
    var conn, acc := ClientRun(run, c), B.AccountOf(BridgeRun(run), t);
    var mine := C.ForTask(C.Directs(C.Wire(conn)), t);
    forall line | line in C.Wire(conn)
      ensures (line.Direct? && line.item.from == Some(t)) || !Ctl.Relevant(rid, C.MessageOf(line))
    {
      OnlyTheChatIsRelevant(run, t, line);
    }
    RelevantLines(C.Wire(conn), t, rid);
    Ctl.RunChatSeesOnlyTheRelevant(rid, C.MessagesOf(C.Wire(conn)));
    Ctl.RunChatSeesOnlyTheRelevant(rid, mine);
    ProjectsToEachConnection(run, c);
    ProjectsToTheBridge(run);
    C.EachTaskStaysInOrder(conn, t);
    RepliesAreEmissions(run, t);
    B.AccountCounts(BridgeRun(run), t);
    B.OneShot(BridgeRun(run), t);
    PrefixOfAOneShot(s.bridge.turns[t], acc, mine);
    Ctl.RunChatOnAStream(rid, mine);
    if s.conns[c].writer.Finished? {
      C.ConnectionStream(conn);
      C.StreamFits(conn);
      ChatsAreTasks(run, t);
    }
  }

  /** A prefix of a turn's output is a stream, and its completion, if any, carries the first final text. */
  lemma PrefixOfAOneShot(u: B.Turn, acc: B.Account, mine: seq<P.DaemonMessage>)
    requires B.IsOneShot(u, acc) && mine <= acc.emitted
    ensures B.Stream(u.rid, mine)
    ensures Ctl.OutcomeOf(mine).verdict.Succeeded? ==>
      B.HasSend(acc.heard) && Ctl.OutcomeOf(mine).printed == B.FirstSend(acc.heard) + "\n"
    ensures !Ctl.OutcomeOf(mine).verdict.Succeeded? ==> Ctl.OutcomeOf(mine).printed == ""
    ensures mine == acc.emitted && u.phase.Done? ==> !Ctl.OutcomeOf(mine).verdict.Waiting?
  {
    assert forall i :: 0 <= i < |mine| ==> mine[i] == acc.emitted[i];
    if mine != [] {
      assert Last(mine) in acc.emitted;
    }
  }

  /** No delta of the chat's request is ever on its connection's wire. */
  lemma {:induction false} NoDeltas(run: Run, t: nat, m: P.DaemonMessage)
    requires Valid(run) && Sole(run, t) && m in C.MessagesOf(C.Wire(ClientRun(run, After(run).home[t])))
    ensures !(m.Delta? && m.requestId == After(run).bridge.turns[t].rid)
  {
    var c := After(run).home[t];
    var conn := ClientRun(run, c);
    var i :| 0 <= i < |C.Wire(conn)| && C.MessagesOf(C.Wire(conn))[i] == m;
    var line := C.Wire(conn)[i];
    OnlyTheChatIsRelevant(run, t, line);
    if line.Direct? && line.item.from == Some(t) {
      OnTheWire(run, c, line);
      C.InForTask(C.Sent(conn), line.item, t);
      RepliesAreEmissions(run, t);
      ProjectsToTheBridge(run);
      B.AccountCounts(BridgeRun(run), t);
      B.OneShot(BridgeRun(run), t);
    }
  }
}
