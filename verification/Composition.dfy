/** What the daemon can do next, told from the labels of its run alone. */
module Composition {
  import opened Common
  import opened Registry
  import opened Daemon
  import Delivery
  import opened Asking

  /** Chat `t` belongs to connection `c`. */
  predicate Belongs(run: Run, t: nat, c: nat) {
    t in Homes(run) && Homes(run)[t] == c
  }

  /** The latest use of the id on the connection is the chat's own. */
  ghost predicate LeadsTo(run: Run, c: nat, rid: string, t: nat) {
    Belongs(run, t, c) && LatestIsInsertBy(C.InFlightEvents(ClientRun(run, c)), rid, t)
  }

  /** A client asked for the chat, with this text, and with this chat id unless it left that open. */
  predicate AskedFor(run: Run, t: nat, chat: string, text: string) {
    exists l :: l in run && l.StartChat? && l.t == t && l.request.Chat? && l.request.message == text
      && (l.request.session.Some? ==> l.request.session.value == chat)
  }

  predicate TurnIsOver(bridge: B.Run, t: nat) {
    var acc := B.AccountOf(bridge, t);
    && R.OpeningOf(bridge, t).Some? && R.HasClosed(bridge, t)
    && acc.taken <= |acc.heard| && acc.emitted == R.Owed(bridge, t)
  }

  ghost predicate BridgeTold(run: Run, b: B.Label) {
    match b
    case Open(t, rid, chat, text) =>
      && R.Told(BridgeRun(run), b) && t in Homes(run)
      && (var conn := ClientRun(run, Homes(run)[t]);
          Delivery.Handles(conn, t) && Delivery.SpawnOf(conn, t) == Some(Some(rid)))
      && AskedFor(run, t, chat, text)
    case Fire(t) => t in Homes(run) && C.Shutdown in ClientRun(run, Homes(run)[t])
    case Deliver(_, _) => false
    case _ => R.Told(BridgeRun(run), b)
  }

  /** What the rest of the daemon demands of a connection's own step. */
  predicate OwnTold(run: Run, c: nat, l: C.Label) {
    match l
    case Cancel(_) => false
    case Broadcast(_) => false
    case Spawn(k, _) => k !in Homes(run)
    case Send(Item(None, m)) => m.Error? && m.correlation == None
    case Send(Item(Some(k), m)) =>
      !Belongs(run, k, c) && m.Answers().Some? && Delivery.SpawnOf(ClientRun(run, c), k) == Some(m.Answers())
    case Return(k) => Belongs(run, k, c) ==> TurnIsOver(BridgeRun(run), k)
    case _ => true
  }

  ghost predicate ClientTold(run: Run, c: nat, l: C.Label) {
    Accept(c) in run && Delivery.Told(ClientRun(run, c), l) && OwnTold(run, c, l)
  }

  /** Whether `l` can come next, told from the labels alone. */
  ghost predicate Told(run: Run, l: Label) {
    match l
    case Accept(c) => l !in run
    case StartChat(c, t, request) =>
      && request.Chat? && Accept(c) in run && t !in Homes(run) && R.OpeningOf(BridgeRun(run), t) == None
      && Delivery.Told(ClientRun(run, c), C.Spawn(t, Some(request.requestId)))
    case Reply(t, m) =>
      && t in Homes(run) && R.Told(BridgeRun(run), B.Deliver(t, m))
      && Delivery.Told(ClientRun(run, Homes(run)[t]), C.Send(C.Item(Some(t), m)))
    case Cancel(c, rid, hit) =>
      && Accept(c) in run && Delivery.Told(ClientRun(run, c), C.Cancel(rid))
      && if hit.Some? then LeadsTo(run, c, rid, hit.value) else forall t :: !LeadsTo(run, c, rid, t)
    case Broadcast(m) => m.Toast? || (m.Status? && m.correlation == None)
    case Bridge(b) => BridgeTold(run, b)
    case Client(c, cl) => ClientTold(run, c, cl)
  }

  // ---------- the parts ----------

  lemma PartIsTold(run: C.Run, l: C.Label)
    requires C.Valid(run)
    ensures C.Enabled(C.After(run), l) <==> Delivery.Told(run, l)
  {
    Delivery.EveryStepIsTold(run, l);
    assert Front(run + [l]) == run && Last(run + [l]) == l;
  }

  lemma BridgePartIsTold(run: B.Run, l: B.Label)
    requires B.Valid(run)
    ensures B.Enabled(B.After(run), l) <==> R.Told(run, l)
  {
    R.EveryStepIsTold(run, l);
    assert Front(run + [l]) == run && Last(run + [l]) == l;
  }

  lemma HomeIsThere(run: Run, t: nat)
    requires Valid(run) && t in After(run).home
    ensures Homes(run) == After(run).home && After(run).home[t] in After(run).conns && Accept(After(run).home[t]) in run
  {
    HomesAreKnown(run);
    ChatsAreTasks(run, t);
  }

  /** Connection `c` as its labels tell it. */
  lemma ConnectionIsTold(run: Run, s: State, c: nat, l: C.Label)
    requires Exec(run) == Some(s) && c in s.conns
    ensures C.Enabled(s.conns[c], l) <==> Delivery.Told(ClientRun(run, c), l)
    ensures s.conns[c].stopped <==> C.Shutdown in ClientRun(run, c)
  {
    ProjectsToEachConnection(run, c);
    PartIsTold(ClientRun(run, c), l);
    Delivery.FlagsAreTold(ClientRun(run, c));
  }

  lemma TaskIsTold(run: Run, s: State, c: nat, k: nat)
    requires Exec(run) == Some(s) && c in s.conns
    ensures s.conns[c].IsRunning(k) <==> Delivery.Handles(ClientRun(run, c), k)
    ensures Delivery.SpawnOf(ClientRun(run, c), k) ==
            if k in s.conns[c].tasks then Some(s.conns[c].tasks[k].rid) else None
  {
    ProjectsToEachConnection(run, c);
    Delivery.TasksAreTold(ClientRun(run, c), k);
  }

  lemma BridgeIsTold(run: Run, s: State, b: B.Label)
    requires Exec(run) == Some(s)
    ensures B.Enabled(s.bridge, b) <==> R.Told(BridgeRun(run), b)
  {
    ProjectsToTheBridge(run);
    BridgePartIsTold(BridgeRun(run), b);
  }

  lemma {:induction false} AskedOnce(run: Run, l: Label)
    requires Valid(run) && l in run && l.StartChat?
    ensures l.t in After(run).home && l.t in After(run).asked && After(run).asked[l.t] == l.request
  {
    var front, last := Front(run), Last(run);
    assert run == front + [last];
    if l in front {
      AskedOnce(front, l);
    }
  }

  lemma ServedIsAskedFor(run: Run, s: State, t: nat, chat: string, text: string)
    requires Exec(run) == Some(s)
    ensures AskedFor(run, t, chat, text) <==> t in s.asked && Serves(s.asked[t], chat, text)
  {
    if t in s.asked && Serves(s.asked[t], chat, text) {
      AskedIsAsked(run, t);
    }
    if AskedFor(run, t, chat, text) {
      var l :| l in run && l.StartChat? && l.t == t && l.request.Chat? && l.request.message == text
        && (l.request.session.Some? ==> l.request.session.value == chat);
      AskedOnce(run, l);
    }
  }

  // ---------- step by step ----------

  lemma StartIsTold(run: Run, s: State, c: nat, t: nat, request: P.ClientMessage)
    requires Exec(run) == Some(s)
    ensures Enabled(s, StartChat(c, t, request)) <==> Told(run, StartChat(c, t, request))
  {
    HomesAreKnown(run);
    ProjectsToTheBridge(run);
    R.TurnIsKnown(BridgeRun(run), t);
    if c in s.conns && request.Chat? {
      ConnectionIsTold(run, s, c, C.Spawn(t, Some(request.requestId)));
    }
  }

  lemma ReplyGuard(s: State, t: nat, m: P.DaemonMessage)
    ensures Enabled(s, Reply(t, m)) <==>
            && t in s.home && s.home[t] in s.conns && B.Enabled(s.bridge, B.Deliver(t, m))
            && C.Enabled(s.conns[s.home[t]], C.Send(C.Item(Some(t), m)))
  {
  }

  lemma ReplyIsTold(run: Run, s: State, t: nat, m: P.DaemonMessage)
    requires Exec(run) == Some(s)
    ensures Enabled(s, Reply(t, m)) <==> Told(run, Reply(t, m))
  {
    ReplyGuard(s, t, m);
    HomesAreKnown(run);
    BridgeIsTold(run, s, B.Deliver(t, m));
    if t in s.home {
      HomeIsThere(run, t);
      ConnectionIsTold(run, s, s.home[t], C.Send(C.Item(Some(t), m)));
    }
  }

  lemma LeadIsTold(run: Run, s: State, c: nat, rid: string, t: nat)
    requires Exec(run) == Some(s) && c in s.conns
    ensures LeadsTo(run, c, rid, t) <==> rid in s.conns[c].inFlight && s.conns[c].inFlight[rid] == t && s.IsChat(c, t)
  {
    HomesAreKnown(run);
    ProjectsToEachConnection(run, c);
    C.InFlightIsTheTable(ClientRun(run, c));
    HeldUntilKeyReused(C.InFlightEvents(ClientRun(run, c)), rid, t);
  }

  lemma CancelIsTold(run: Run, s: State, c: nat, rid: string, hit: Option<nat>)
    requires Exec(run) == Some(s)
    ensures Enabled(s, Cancel(c, rid, hit)) <==> Told(run, Cancel(c, rid, hit))
  {
    HomesAreKnown(run);
    if c in s.conns {
      ConnectionIsTold(run, s, c, C.Cancel(rid));
      forall t: nat
        ensures LeadsTo(run, c, rid, t) <==>
                rid in s.conns[c].inFlight && s.conns[c].inFlight[rid] == t && s.IsChat(c, t)
      {
        LeadIsTold(run, s, c, rid, t);
      }
    }
  }

  lemma OpenGuard(s: State, t: nat, rid: string, chat: string, text: string)
    ensures Enabled(s, Bridge(B.Open(t, rid, chat, text))) <==>
            && B.Enabled(s.bridge, B.Open(t, rid, chat, text))
            && t in s.home && s.home[t] in s.conns && s.conns[s.home[t]].IsRunning(t)
            && s.conns[s.home[t]].tasks[t].rid == Some(rid) && t in s.asked && Serves(s.asked[t], chat, text)
  {
  }

  lemma OpenerIsTold(run: Run, s: State, t: nat, rid: string)
    requires Exec(run) == Some(s)
    ensures t in s.home ==> s.home[t] in s.conns
    ensures t in Homes(run) &&
            (var conn := ClientRun(run, Homes(run)[t]);
             Delivery.Handles(conn, t) && Delivery.SpawnOf(conn, t) == Some(Some(rid))) <==>
            t in s.home && s.conns[s.home[t]].IsRunning(t) && s.conns[s.home[t]].tasks[t].rid == Some(rid)
  {
    HomesAreKnown(run);
    if t in s.home {
      HomeIsThere(run, t);
      TaskIsTold(run, s, s.home[t], t);
    }
  }

  lemma OpenIsTold(run: Run, s: State, t: nat, rid: string, chat: string, text: string)
    requires Exec(run) == Some(s)
    ensures Enabled(s, Bridge(B.Open(t, rid, chat, text))) <==> BridgeTold(run, B.Open(t, rid, chat, text))
  {
    OpenGuard(s, t, rid, chat, text);
    OpenerIsTold(run, s, t, rid);
    BridgeIsTold(run, s, B.Open(t, rid, chat, text));
    ServedIsAskedFor(run, s, t, chat, text);
  }

  lemma FireIsTold(run: Run, s: State, t: nat)
    requires Exec(run) == Some(s)
    ensures Enabled(s, Bridge(B.Fire(t))) <==> BridgeTold(run, B.Fire(t))
  {
    HomesAreKnown(run);
    if t in s.home {
      HomeIsThere(run, t);
      ConnectionIsTold(run, s, s.home[t], C.Shutdown);
    }
  }

  lemma OtherIsTold(run: Run, s: State, b: B.Label)
    requires Exec(run) == Some(s) && !b.Open? && !b.Fire?
    ensures Enabled(s, Bridge(b)) <==> BridgeTold(run, b)
  {
    BridgeIsTold(run, s, b);
  }

  lemma BridgeStepIsTold(run: Run, s: State, b: B.Label)
    requires Exec(run) == Some(s)
    ensures Enabled(s, Bridge(b)) <==> BridgeTold(run, b)
  {
    match b
    case Open(t, rid, chat, text) => OpenIsTold(run, s, t, rid, chat, text);
    case Fire(t) => FireIsTold(run, s, t);
    case _ => OtherIsTold(run, s, b);
  }

  /** The same, told from the state. */
  predicate OwnGuard(s: State, c: nat, l: C.Label) {
    match l
    case Cancel(_) => false
    case Broadcast(_) => false
    case Spawn(k, _) => k !in s.home
    case Send(Item(None, m)) => m.Error? && m.correlation == None
    case Send(Item(Some(k), m)) =>
      !s.IsChat(c, k) && m.Answers().Some? && c in s.conns
      && k in s.conns[c].tasks && s.conns[c].tasks[k].rid == m.Answers()
    case Return(k) => s.IsChat(c, k) ==> s.bridge.At(k, B.Done)
    case _ => true
  }

  lemma ClientGuard(s: State, c: nat, l: C.Label)
    requires c in s.conns
    ensures Enabled(s, Client(c, l)) <==> C.Enabled(s.conns[c], l) && OwnGuard(s, c, l)
  {
  }

  lemma SenderIsTold(run: Run, s: State, c: nat, k: nat, m: P.DaemonMessage)
    requires Exec(run) == Some(s) && c in s.conns && Homes(run) == s.home
    ensures OwnGuard(s, c, C.Send(C.Item(Some(k), m))) <==> OwnTold(run, c, C.Send(C.Item(Some(k), m)))
  {
    TaskIsTold(run, s, c, k);
  }

  lemma ReturnIsTold(run: Run, s: State, c: nat, k: nat)
    requires Exec(run) == Some(s) && c in s.conns && Homes(run) == s.home
    ensures OwnGuard(s, c, C.Return(k)) <==> OwnTold(run, c, C.Return(k))
  {
    ProjectsToTheBridge(run);
    R.DoneIsTold(BridgeRun(run), k);
  }

  lemma OwnGuardIsTold(run: Run, s: State, c: nat, l: C.Label)
    requires Exec(run) == Some(s) && c in s.conns && Homes(run) == s.home
    ensures OwnGuard(s, c, l) <==> OwnTold(run, c, l)
  {
    match l
    case Send(Item(Some(k), m)) => SenderIsTold(run, s, c, k, m);
    case Return(k) => ReturnIsTold(run, s, c, k);
    case _ =>
  }

  lemma ClientStepIsTold(run: Run, s: State, c: nat, l: C.Label)
    requires Exec(run) == Some(s)
    ensures Enabled(s, Client(c, l)) <==> ClientTold(run, c, l)
  {
    HomesAreKnown(run);
    if c in s.conns {
      ClientGuard(s, c, l);
      OwnGuardIsTold(run, s, c, l);
      ConnectionIsTold(run, s, c, l);
    }
  }

  lemma AcceptIsTold(run: Run, s: State, c: nat)
    requires Exec(run) == Some(s)
    ensures Enabled(s, Accept(c)) <==> Told(run, Accept(c))
  {
    HomesAreKnown(run);
  }

  lemma StepIsTold(run: Run, s: State, l: Label)
    requires Exec(run) == Some(s)
    ensures Enabled(s, l) <==> Told(run, l)
  {
    match l
    case Accept(c) => AcceptIsTold(run, s, c);
    case StartChat(c, t, request) => StartIsTold(run, s, c, t, request);
    case Reply(t, m) => ReplyIsTold(run, s, t, m);
    case Cancel(c, rid, hit) => CancelIsTold(run, s, c, rid, hit);
    case Broadcast(_) =>
    case Bridge(b) => BridgeStepIsTold(run, s, b);
    case Client(c, cl) => ClientStepIsTold(run, s, c, cl);
  }

  lemma ExtendedIfEnabled(run: Run, s: State, l: Label)
    requires Exec(run) == Some(s)
    ensures Valid(run + [l]) <==> Enabled(s, l)
  {
    assert Front(run + [l]) == run && Last(run + [l]) == l;
  }

  /**
   Which step of the daemon can come next is told from the labels alone: the runs of the whole model
   are exactly those in which every step is told by the ones before it.
   */
  lemma EveryStepIsTold(run: Run, l: Label)
    requires Valid(run)
    ensures Valid(run + [l]) <==> Told(run, l)
  {
    ExtendedIfEnabled(run, After(run), l);
    StepIsTold(run, After(run), l);
  }
}
