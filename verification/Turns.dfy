/**
 Every interleaving of chat turns, adapter sockets and adapter frames over one hub.

 A run is the sequence of its atomic steps: one critical section, one channel operation or one
 `await` that completes. The reference functions (`Heard`, `Emitted`, ...) read the labels of a run.
 */
module Turns {
  import opened Common
  import opened Bridge
  import opened Registry
  import P = Protocol

  /** Where a `chat_via_bridge` call stands. */
  datatype Phase =
    | Opened                                        // route open, inbound frame not yet pushed
    | Refused                                       // push refused, route not yet closed
    | Reporting                                     // route closed, the offline error not yet sent
    | Waiting                                       // in the select
    | Replying(reply: P.DaemonMessage, last: bool)  // awaiting `conn.send`
    | Closing                                       // left the loop, route not yet closed
    | Done

  datatype Turn = Turn(rid: string, chat: string, text: string, phase: Phase) {
    /** Between `open_chat` and `close_chat`. */
    predicate Routed() {
      !phase.Reporting? && !phase.Done?
    }

    /** The adapter accepted the inbound frame. */
    predicate Accepted() {
      phase.Waiting? || phase.Replying? || phase.Closing?
    }

    function Inbound(): Inbound {
      Bridge.Inbound(chat, text, rid)
    }
  }

  datatype State = State(hub: Hub, turns: map<nat, Turn>, fired: set<nat>) {
    predicate At(t: nat, phase: Phase) {
      t in turns && turns[t].phase == phase
    }

    function To(t: nat, phase: Phase): State
      requires t in turns
    {
      this.(turns := turns[t := turns[t].(phase := phase)])
    }
  }

  datatype Label =
    | Connect(a: nat)
    | Disconnect(a: nat)
    | WriterGone(a: nat)
    | Transmit(a: nat, sent: Inbound)
    | Dispatch(a: nat, reply: Frame)
    | Open(t: nat, rid: string, chat: string, text: string)
    | Push(t: nat, accepted: bool, frame: Inbound)
    | Fire(t: nat)
    | Take(t: nat)
    | TakeEnd(t: nat)
    | TakeCancel(t: nat)
    | Deliver(t: nat, message: P.DaemonMessage)
    | Close(t: nat, chat: string)

  type Run = seq<Label>

  const OFFLINE := "desktop platform offline"
  const DISCONNECTED := "desktop platform disconnected"
  const CANCELLED := "cancelled"

  function Failure(rid: string, text: string): P.DaemonMessage {
    P.Error(Some(rid), text)
  }

  /** What the select arm does with a frame. */
  function React(rid: string, f: Frame): Phase {
    match f
    case Draft(_, text) => Replying(P.Draft(rid, text), false)
    case Send(_, text) => Replying(P.ChatComplete(rid, text), true)
    case Typing(_) => Waiting
  }

  predicate Enabled(s: State, l: Label) {
    match l
    case Connect(a) => a !in s.hub.sockets
    case Disconnect(a) => a in s.hub.sockets && s.hub.sockets[a].reading
    case WriterGone(a) => a in s.hub.sockets && s.hub.sockets[a].writing
    case Transmit(a, m) =>
      a in s.hub.sockets && s.hub.sockets[a].writing &&
      s.hub.sockets[a].queue != [] && s.hub.sockets[a].queue[0] == m
    case Dispatch(a, _) => a in s.hub.sockets && s.hub.sockets[a].reading
    case Open(t, _, _, _) => t !in s.turns && t !in s.hub.inboxes
    case Push(t, ok, m) => s.At(t, Opened) && m == s.turns[t].Inbound() && (ok <==> s.hub.Accepts())
    case Fire(_) => true
    case Take(t) => s.At(t, Waiting) && s.hub.Inbox(t) != []
    case TakeEnd(t) =>
      s.At(t, Waiting) && s.hub.Inbox(t) == [] && t !in s.hub.routes.Values
    case TakeCancel(t) => s.At(t, Waiting) && t in s.fired
    case Deliver(t, m) =>
      t in s.turns && Pending(s.turns[t]) == [m] && !s.turns[t].phase.Refused?
    case Close(t, chat) =>
      t in s.turns && s.turns[t].chat == chat && (s.turns[t].phase.Refused? || s.turns[t].phase.Closing?)
  }

  function Apply(s: State, l: Label): State
    requires Enabled(s, l)
  {
    match l
    case Connect(a) => s.(hub := s.hub.SetAdapter(a))
    case Disconnect(a) => s.(hub := s.hub.ClearAdapter(a))
    case WriterGone(a) => s.(hub := s.hub.WriterGone(a))
    case Transmit(a, _) => s.(hub := s.hub.Transmit(a))
    case Dispatch(_, f) => s.(hub := s.hub.Dispatch(f))
    case Open(t, rid, chat, text) =>
      s.(hub := s.hub.OpenChat(chat, t), turns := s.turns[t := Turn(rid, chat, text, Opened)])
    case Push(t, ok, m) =>
      s.(hub := s.hub.SendInbound(m)).To(t, if ok then Waiting else Refused)
    case Fire(t) => s.(fired := s.fired + {t})
    case Take(t) => s.(hub := s.hub.Receive(t)).To(t, React(s.turns[t].rid, s.hub.Inbox(t)[0]))
    case TakeEnd(t) => s.To(t, Replying(Failure(s.turns[t].rid, DISCONNECTED), true))
    case TakeCancel(t) => s.To(t, Replying(Failure(s.turns[t].rid, CANCELLED), true))
    case Deliver(t, _) =>
      s.To(t, match s.turns[t].phase
              case Replying(_, last) => if last then Closing else Waiting
              case _ => Done)
    case Close(t, chat) =>
      s.(hub := s.hub.CloseChat(chat)).To(t, if s.turns[t].phase.Refused? then Reporting else Done)
  }

  /** The state after a run, if every step of it was possible. */
  function Exec(run: Run): Option<State> {
    if run == [] then Some(State(EMPTY, map[], {}))
    else match Exec(Front(run))
      case None => None
      case Some(s) => if Enabled(s, Last(run)) then Some(Apply(s, Last(run))) else None
  }

  predicate Valid(run: Run) {
    Exec(run).Some?
  }

  function After(run: Run): State
    requires Valid(run)
  {
    Exec(run).value
  }

  lemma {:induction false} Extend(run: Run, l: Label)
    requires Valid(run) && Enabled(After(run), l)
    ensures Valid(run + [l]) && After(run + [l]) == Apply(After(run), l)
  {
    assert Front(run + [l]) == run;
  }

  // ---------- reading a run ----------

  /** The use a step makes of the route map. */
  function RouteUse(l: Label): seq<Event<string, nat>> {
    match l
    case Open(t, _, chat, _) => [Insert(chat, t)]
    case Close(t, chat) => [Remove(chat, t)]
    case _ => []
  }

  /** The uses of the route map, in order. */
  function RouteEvents(run: Run): seq<Event<string, nat>> {
    if run == [] then [] else RouteEvents(Front(run)) + RouteUse(Last(run))
  }

  /** What the labels of a run say about one turn. */
  datatype Account = Account(
    heard: seq<Frame>,             // dispatched for its chat id while its route was installed
    taken: nat,                    // how many of those it has received
    emitted: seq<P.DaemonMessage>, // handed to its client's connection
    faults: seq<string>)           // why it failed

  const BLANK := Account([], 0, [], [])

  /** One more step, given the routes installed when it is made. */
  function Observe(acc: Account, l: Label, t: nat, routes: map<string, nat>): Account {
    match l
    case Dispatch(_, f) =>
      if f.chat in routes && routes[f.chat] == t then acc.(heard := acc.heard + [f]) else acc
    case Take(u) => if u == t then acc.(taken := acc.taken + 1) else acc
    case Deliver(u, m) => if u == t then acc.(emitted := acc.emitted + [m]) else acc
    case Push(u, ok, _) => if u == t && !ok then acc.(faults := acc.faults + [OFFLINE]) else acc
    case TakeEnd(u) => if u == t then acc.(faults := acc.faults + [DISCONNECTED]) else acc
    case TakeCancel(u) => if u == t then acc.(faults := acc.faults + [CANCELLED]) else acc
    case _ => acc
  }

  function AccountOf(run: Run, t: nat): Account {
    if run == [] then BLANK
    else Observe(AccountOf(Front(run), t), Last(run), t, Table(RouteEvents(Front(run))))
  }

  /** The messages turn `t` has handed to its client's connection. */
  function Emitted(run: Run, t: nat): seq<P.DaemonMessage> {
    if run == [] then []
    else Emitted(Front(run), t) + if Last(run).Deliver? && Last(run).t == t then [Last(run).message] else []
  }

  /** How many frames turn `t` has received. */
  function Receives(run: Run, t: nat): nat {
    if run == [] then 0 else Receives(Front(run), t) + if Last(run) == Take(t) then 1 else 0
  }

  lemma ObserveCounts(acc: Account, l: Label, t: nat, routes: map<string, nat>)
    ensures Observe(acc, l, t, routes).emitted == acc.emitted + if l.Deliver? && l.t == t then [l.message] else []
    ensures Observe(acc, l, t, routes).taken == acc.taken + if l == Take(t) then 1 else 0
  {
  }

  lemma {:induction false} AccountCounts(run: Run, t: nat)
    ensures AccountOf(run, t).emitted == Emitted(run, t)
    ensures AccountOf(run, t).taken == Receives(run, t)
  {
    if run != [] {
      AccountCounts(Front(run), t);
      ObserveCounts(AccountOf(Front(run), t), Last(run), t, Table(RouteEvents(Front(run))));
    }
  }

  lemma {:induction false} ReceivesAppend(run: Run, ext: Run, t: nat)
    ensures Receives(run + ext, t) == Receives(run, t) + Receives(ext, t)
  {
    if ext == [] {
      assert run + ext == run;
    } else {
      assert Front(run + ext) == run + Front(ext) && Last(run + ext) == Last(ext);
      ReceivesAppend(run, Front(ext), t);
    }
  }

  /** The message the turn is about to hand over. */
  function Pending(u: Turn): seq<P.DaemonMessage> {
    match u.phase
    case Replying(m, _) => [m]
    case Refused => [Failure(u.rid, OFFLINE)]
    case Reporting => [Failure(u.rid, OFFLINE)]
    case _ => []
  }

  // ---------- what a client should see ----------

  /** Every draft up to the first final text, then that text. */
  function Relay(rid: string, fs: seq<Frame>): seq<P.DaemonMessage> {
    if fs == [] then []
    else match fs[0]
      case Draft(_, text) => [P.Draft(rid, text)] + Relay(rid, fs[1..])
      case Send(_, text) => [P.ChatComplete(rid, text)]
      case Typing(_) => Relay(rid, fs[1..])
  }

  /** The frames relayed, then the first failure, if any. */
  function Expected(rid: string, fs: seq<Frame>, faults: seq<string>): seq<P.DaemonMessage> {
    Relay(rid, fs) + if faults == [] then [] else [Failure(rid, faults[0])]
  }

  predicate HasSend(fs: seq<Frame>) {
    exists i :: 0 <= i < |fs| && fs[i].Send?
  }

  lemma {:induction false} RelaySnoc(rid: string, fs: seq<Frame>, f: Frame)
    requires !HasSend(fs)
    ensures Relay(rid, fs + [f]) == Relay(rid, fs) + Pending(Turn(rid, "", "", React(rid, f)))
  {
    if fs == [] {
      assert [f][1..] == [];
    } else {
      assert !HasSend(fs[1..]);
      assert !fs[0].Send?;
      RelaySnoc(rid, fs[1..], f);
      assert (fs + [f])[1..] == fs[1..] + [f];
    }
  }

  // ---------- the route map ----------

  /** The turns between opening and closing their route, with their chat ids. */
  function Routed(s: State): map<nat, string> {
    map t | t in s.turns && s.turns[t].Routed() :: s.turns[t].chat
  }

  /** The routes are what their uses leave behind, and their live owners are the open turns. */
  ghost predicate RoutesFit(s: State, events: seq<Event<string, nat>>) {
    s.hub.routes == Table(events) && Proper(events) && Live(events) == Routed(s)
  }

  lemma QuietSteps(s: State, l: Label)
    requires Enabled(s, l) && RouteUse(l) == []
    ensures Apply(s, l).hub.routes == s.hub.routes && Routed(Apply(s, l)) == Routed(s)
  {
  }

  lemma RoutingSteps(s: State, l: Label)
    requires Enabled(s, l) && RouteUse(l) != []
    ensures
      if l.Open? then
        && l.t !in Routed(s) && Routed(Apply(s, l)) == Routed(s)[l.t := l.chat]
        && Apply(s, l).hub.routes == s.hub.routes[l.chat := l.t]
      else
        && l.Close? && l.t in Routed(s) && Routed(s)[l.t] == l.chat
        && Routed(Apply(s, l)) == Routed(s) - {l.t} && Apply(s, l).hub.routes == s.hub.routes - {l.chat}
  {
  }

  lemma RoutesStep(s: State, l: Label, events: seq<Event<string, nat>>)
    requires Enabled(s, l) && RoutesFit(s, events)
    ensures RoutesFit(Apply(s, l), events + RouteUse(l))
  {
    if RouteUse(l) == [] {
      QuietSteps(s, l);
      assert events + [] == events;
    } else {
      RoutingSteps(s, l);
      assert Front(events + RouteUse(l)) == events;
    }
  }

  lemma {:induction false} RoutesAreTheTable(run: Run)
    requires Valid(run)
    ensures RoutesFit(After(run), RouteEvents(run))
  {
    if run != [] {
      RoutesAreTheTable(Front(run));
      RoutesStep(After(Front(run)), Last(run), RouteEvents(Front(run)));
    }
  }

  // ---------- routing refinement ----------

  /** The turn has not met its final frame or failure yet. */
  predicate Undecided(phase: Phase) {
    phase.Opened? || phase.Waiting? || (phase.Replying? && !phase.last)
  }

  /** A turn's phase and output fit what the labels say about it. */
  predicate Fits(u: Turn, acc: Account) {
    acc.taken <= |acc.heard| &&
    var seen := acc.heard[..acc.taken];
    && (forall f :: f in acc.heard ==> f.chat == u.chat)
    && acc.emitted + Pending(u) == Expected(u.rid, seen, acc.faults)
    && (Undecided(u.phase) <==> !HasSend(seen) && acc.faults == [])
    && (acc.faults != [] ==> !HasSend(seen) && |acc.faults| == 1)
    && (seen != [] ==> !HasSend(Front(seen)))
  }

  /** The state agrees with what the labels say about turn `t`. */
  predicate Agrees(s: State, t: nat, acc: Account) {
    if t !in s.turns then t !in s.hub.inboxes && t !in s.hub.routes.Values && acc == BLANK
    else
      && Fits(s.turns[t], acc)
      && t in s.hub.inboxes && s.hub.Inbox(t) == acc.heard[acc.taken..]
      && (forall chat :: chat in s.hub.routes && s.hub.routes[chat] == t ==> chat == s.turns[t].chat)
  }

  /** The turn that makes the step. */
  function Mover(l: Label): Option<nat> {
    match l
    case Open(t, _, _, _) => Some(t)
    case Push(t, _, _) => Some(t)
    case Take(t) => Some(t)
    case TakeEnd(t) => Some(t)
    case TakeCancel(t) => Some(t)
    case Deliver(t, _) => Some(t)
    case Close(t, _) => Some(t)
    case _ => None
  }

  lemma OthersKeepAgreement(s: State, l: Label, t: nat, acc: Account)
    requires Enabled(s, l) && Mover(l) != Some(t) && Agrees(s, t, acc)
    ensures Agrees(Apply(s, l), t, Observe(acc, l, t, s.hub.routes))
  {
    if l.Dispatch? && t in s.turns {
      assert (acc.heard + [l.reply])[..acc.taken] == acc.heard[..acc.taken];
    }
  }

  lemma TakeKeepsAgreement(s: State, t: nat, acc: Account)
    requires Enabled(s, Take(t)) && Agrees(s, t, acc)
    ensures Agrees(Apply(s, Take(t)), t, acc.(taken := acc.taken + 1))
  {
    RelaySnoc(s.turns[t].rid, acc.heard[..acc.taken], acc.heard[acc.taken]);
    assert acc.heard[..acc.taken + 1] == acc.heard[..acc.taken] + [acc.heard[acc.taken]];
    assert acc.emitted + [] == acc.emitted;
  }

  lemma OwnStepKeepsAgreement(s: State, l: Label, t: nat, acc: Account)
    requires Enabled(s, l) && Mover(l) == Some(t) && !l.Take? && Agrees(s, t, acc)
    ensures Agrees(Apply(s, l), t, Observe(acc, l, t, s.hub.routes))
  {
    assert acc.emitted + [] == acc.emitted;
    if l.Deliver? {
      assert acc.emitted + [l.message] + [] == acc.emitted + [l.message];
    }
  }

  lemma {:induction false} EveryTurnAgrees(run: Run, t: nat)
    requires Valid(run)
    ensures Agrees(After(run), t, AccountOf(run, t))
  {
    if run != [] {
      var s, l := After(Front(run)), Last(run);
      EveryTurnAgrees(Front(run), t);
      RoutesAreTheTable(Front(run));
      if Mover(l) != Some(t) {
        OthersKeepAgreement(s, l, t, AccountOf(Front(run), t));
      } else if l.Take? {
        TakeKeepsAgreement(s, t, AccountOf(Front(run), t));
      } else {
        OwnStepKeepsAgreement(s, l, t, AccountOf(Front(run), t));
      }
    }
  }

  /**
   The routing theorem: what a turn has emitted and is about to emit is exactly the relay of a
   prefix of the frames dispatched for its own chat id while its route was installed, followed
   by its failure if it had one; the rest of those frames is what its channel still holds.
   */
  lemma {:induction false} RoutingRefinement(run: Run, t: nat)
    requires Valid(run) && t in After(run).turns
    ensures
      var u, acc := After(run).turns[t], AccountOf(run, t);
      && acc.taken <= |acc.heard|
      && After(run).hub.Inbox(t) == acc.heard[acc.taken..]
      && (forall f :: f in acc.heard ==> f.chat == u.chat)
      && acc.emitted + Pending(u) == Expected(u.rid, acc.heard[..acc.taken], acc.faults)
  {
    EveryTurnAgrees(run, t);
  }

  // ---------- one terminal per turn ----------

  /** Drafts of one request, then at most one terminal message of it. */
  predicate Stream(rid: string, ms: seq<P.DaemonMessage>) {
    && (forall m :: m in ms ==> m.Answers() == Some(rid) && (m.Draft? || m.Terminal()))
    && (forall i :: 0 <= i < |ms| - 1 ==> ms[i].Draft?)
  }

  /** The text of the first final frame. */
  function FirstSend(fs: seq<Frame>): string
    requires HasSend(fs)
  {
    if fs[0].Send? then fs[0].text
    else
      assert HasSend(fs[1..]) by {
        var i :| 0 <= i < |fs| && fs[i].Send?;
        assert fs[1..][i - 1].Send?;
      }
      FirstSend(fs[1..])
  }

  lemma {:induction false} RelayIsAStream(rid: string, fs: seq<Frame>)
    ensures Stream(rid, Relay(rid, fs))
    ensures HasSend(fs) ==> Relay(rid, fs) != [] && Last(Relay(rid, fs)) == P.ChatComplete(rid, FirstSend(fs))
    ensures !HasSend(fs) ==> forall m :: m in Relay(rid, fs) ==> m.Draft?
  {
    if fs != [] && !fs[0].Send? {
      RelayIsAStream(rid, fs[1..]);
      assert HasSend(fs[1..]) ==> HasSend(fs) by {
        if HasSend(fs[1..]) {
          var i :| 0 <= i < |fs| - 1 && fs[1..][i].Send?;
          assert fs[i + 1].Send?;
        }
      }
      assert HasSend(fs) ==> HasSend(fs[1..]) by {
        if HasSend(fs) {
          var i :| 0 <= i < |fs| && fs[i].Send?;
          assert fs[1..][i - 1].Send?;
        }
      }
    }
  }

  /**
   Drafts and then at most one terminal, never anything after it; a turn that has left its loop
   has emitted its terminal, and the terminal is a completion only when a final frame was
   received, carrying the text of the first one.
   */
  predicate IsOneShot(u: Turn, acc: Account) {
    && Stream(u.rid, acc.emitted)
    && (u.phase.Done? || u.phase.Closing? ==> acc.emitted != [] && Last(acc.emitted).Terminal())
    && (!u.phase.Done? && !u.phase.Closing? ==> forall m :: m in acc.emitted ==> m.Draft?)
    && forall m :: m in acc.emitted && m.ChatComplete? ==>
         HasSend(acc.heard) && m.content == FirstSend(acc.heard)
  }

  lemma {:induction false} FirstSendOfPrefix(fs: seq<Frame>, n: nat)
    requires n <= |fs| && HasSend(fs[..n])
    ensures HasSend(fs) && FirstSend(fs) == FirstSend(fs[..n])
  {
    var i :| 0 <= i < n && fs[..n][i].Send?;
    assert fs[i].Send?;
    if !fs[0].Send? {
      assert fs[..n][1..] == fs[1..][..n - 1];
      assert fs[1..][..n - 1][i - 1].Send?;
      FirstSendOfPrefix(fs[1..], n - 1);
    }
  }

  lemma ExpectedIsAStream(rid: string, seen: seq<Frame>, faults: seq<string>)
    requires faults != [] ==> !HasSend(seen)
    ensures
      var all := Expected(rid, seen, faults);
      && Stream(rid, all)
      && (if HasSend(seen) || faults != [] then all != [] && Last(all).Terminal()
          else forall m :: m in all ==> m.Draft?)
      && forall m :: m in all && m.ChatComplete? ==> HasSend(seen) && m.content == FirstSend(seen)
  {
    RelayIsAStream(rid, seen);
    var relayed, all := Relay(rid, seen), Expected(rid, seen, faults);
    if faults == [] {
      assert all == relayed;
    } else {
      var failure := Failure(rid, faults[0]);
      assert all == relayed + [failure];
      assert forall m :: m in all ==> m in relayed || m == failure;
    }
  }

  lemma WithoutThePending(rid: string, emitted: seq<P.DaemonMessage>, pending: seq<P.DaemonMessage>)
    requires Stream(rid, emitted + pending) && |pending| <= 1
    ensures Stream(rid, emitted)
    ensures pending != [] ==> forall m :: m in emitted ==> m.Draft?
  {
    var all := emitted + pending;
    forall m | m in emitted
      ensures m in all && (pending != [] ==> m.Draft?)
    {
      var i :| 0 <= i < |emitted| && emitted[i] == m;
      assert all[i] == m;
    }
    assert forall i :: 0 <= i < |emitted| ==> emitted[i] == all[i];
  }

  lemma CompletionsCarryTheFinalText(
    rid: string, heard: seq<Frame>, taken: nat, faults: seq<string>, m: P.DaemonMessage)
    requires taken <= |heard| && (faults != [] ==> !HasSend(heard[..taken]))
    requires m in Expected(rid, heard[..taken], faults) && m.ChatComplete?
    ensures HasSend(heard) && m.content == FirstSend(heard)
  {
    ExpectedIsAStream(rid, heard[..taken], faults);
    FirstSendOfPrefix(heard, taken);
  }

  lemma FittingTurnsAreOneShot(u: Turn, acc: Account)
    requires Fits(u, acc)
    ensures IsOneShot(u, acc)
  {
    var all := Expected(u.rid, acc.heard[..acc.taken], acc.faults);
    ExpectedIsAStream(u.rid, acc.heard[..acc.taken], acc.faults);
    WithoutThePending(u.rid, acc.emitted, Pending(u));
    if Pending(u) == [] {
      assert acc.emitted == all;
      forall m | m in all && m.ChatComplete?
        ensures HasSend(acc.heard) && m.content == FirstSend(acc.heard)
      {
        CompletionsCarryTheFinalText(u.rid, acc.heard, acc.taken, acc.faults, m);
      }
    }
  }

  lemma {:induction false} OneShot(run: Run, t: nat)
    requires Valid(run) && t in After(run).turns
    ensures IsOneShot(After(run).turns[t], AccountOf(run, t))
  {
    EveryTurnAgrees(run, t);
    FittingTurnsAreOneShot(After(run).turns[t], AccountOf(run, t));
  }

  // ---------- routes ----------

  /** Whatever the chat ids, a route belongs to a turn that opened it and has not closed yet. */
  lemma {:induction false} RouteOwnership(run: Run)
    requires Valid(run)
    ensures
      var s := After(run);
      forall chat :: chat in s.hub.routes ==>
        var t := s.hub.routes[chat];
        t in s.turns && s.turns[t].Routed() && s.turns[t].chat == chat
  {
    RoutesAreTheTable(run);
    EntriesBelongToLiveOwners(RouteEvents(run));
  }

  /** With distinct live chat ids, the routes are exactly the turns between opening and closing. */
  lemma {:induction false} RoutesAreTheOpenTurns(run: Run)
    requires Valid(run) && Distinct(RouteEvents(run))
    ensures
      var s := After(run);
      && s.hub.routes.Keys == Routed(s).Values
      && forall t :: t in s.turns && s.turns[t].Routed() ==>
           s.turns[t].chat in s.hub.routes && s.hub.routes[s.turns[t].chat] == t
  {
    RoutesAreTheTable(run);
    ExactWhenDistinct(RouteEvents(run));
    assert forall t :: t in After(run).turns && After(run).turns[t].Routed() ==> t in Routed(After(run));
  }

  /**
   A waiting turn with nothing queued sees the end of its stream exactly when some other turn
   has opened or closed the same chat id since: adapter connections play no part in it.
   */
  lemma {:induction false} EndOfStreamMeansChatIdReused(run: Run, t: nat)
    requires Valid(run) && After(run).At(t, Waiting)
    ensures
      Enabled(After(run), TakeEnd(t)) <==>
      After(run).hub.Inbox(t) == [] &&
      !LatestIsInsertBy(RouteEvents(run), After(run).turns[t].chat, t)
  {
    var s := After(run);
    EveryTurnAgrees(run, t);
    RoutesAreTheTable(run);
    HeldUntilKeyReused(RouteEvents(run), s.turns[t].chat, t);
    RouteOfTurn(s, t, AccountOf(run, t));
  }

  lemma RouteOfTurn(s: State, t: nat, acc: Account)
    requires t in s.turns && Agrees(s, t, acc)
    ensures t in s.hub.routes.Values <==> s.turns[t].chat in s.hub.routes && s.hub.routes[s.turns[t].chat] == t
  {
    if t in s.hub.routes.Values {
      var chat :| chat in s.hub.routes && s.hub.routes[chat] == t;
    }
  }

  lemma {:induction false} NoEndOfStream(run: Run, t: nat)
    requires Valid(run) && Distinct(RouteEvents(run))
    ensures !Enabled(After(run), TakeEnd(t))
  {
    RoutesAreTheOpenTurns(run);
  }

  /** With distinct live chat ids no turn is ever told that the platform disconnected. */
  lemma {:induction false} NoTurnSeesADisconnect(run: Run, t: nat)
    requires Valid(run) && Distinct(RouteEvents(run))
    ensures DISCONNECTED !in AccountOf(run, t).faults
  {
    if run != [] {
      DistinctBefore(run);
      NoTurnSeesADisconnect(Front(run), t);
      NoEndOfStream(Front(run), t);
    }
  }

  lemma {:induction false} DistinctBefore(run: Run)
    requires run != [] && Distinct(RouteEvents(run))
    ensures Distinct(RouteEvents(Front(run)))
  {
    if RouteUse(Last(run)) == [] {
      assert RouteEvents(run) == RouteEvents(Front(run));
    } else {
      assert Front(RouteEvents(run)) == RouteEvents(Front(run));
    }
  }

  /** A second turn on a waiting turn's chat id cuts it off, with the adapter as connected as before. */
  lemma {:induction false} ReusingAChatIdCutsOffTheEarlierTurn(run: Run, t: nat, u: nat, rid: string, text: string)
    requires Valid(run) && After(run).At(t, Waiting) && After(run).hub.Inbox(t) == []
    requires u !in After(run).turns && u !in After(run).hub.inboxes
    ensures
      var later := run + [Open(u, rid, After(run).turns[t].chat, text)];
      && Valid(later) && Enabled(After(later), TakeEnd(t))
      && After(later).hub.Accepts() == After(run).hub.Accepts()
  {
    EveryTurnAgrees(run, t);
    Extend(run, Open(u, rid, After(run).turns[t].chat, text));
  }

  // ---------- adapters come and go ----------

  predicate AdapterOnly(l: Label) {
    l.Connect? || l.Disconnect? || l.WriterGone? || l.Transmit?
  }

  /** No sequence of adapter connects, replacements and departures reaches a turn or a route. */
  lemma {:induction false} AdaptersDoNotReachTurns(run: Run, ext: Run)
    requires Valid(run + ext) && forall l :: l in ext ==> AdapterOnly(l)
    ensures Valid(run)
    ensures
      var s, late := After(run), After(run + ext);
      late.turns == s.turns && late.hub.routes == s.hub.routes && late.hub.inboxes == s.hub.inboxes
  {
    if ext == [] {
      assert run + ext == run;
    } else {
      assert Front(run + ext) == run + Front(ext) && Last(run + ext) == Last(ext);
      AdaptersDoNotReachTurns(run, Front(ext));
      assert AdapterOnly(Last(ext));
    }
  }

  /** A final frame arriving on whatever adapter connection is up still reaches the waiting turn. */
  lemma {:induction false} LaterAdapterStillReachesTheTurn(run: Run, t: nat, a: nat, text: string)
    requires Valid(run) && Distinct(RouteEvents(run)) && After(run).At(t, Waiting)
    requires a in After(run).hub.sockets && After(run).hub.sockets[a].reading
    ensures
      var f := Send(After(run).turns[t].chat, text);
      && Valid(run + [Dispatch(a, f)])
      && After(run + [Dispatch(a, f)]).hub.Inbox(t) == After(run).hub.Inbox(t) + [f]
  {
    var f := Send(After(run).turns[t].chat, text);
    EveryTurnAgrees(run, t);
    RoutesAreTheOpenTurns(run);
    Extend(run, Dispatch(a, f));
  }

  // ---------- a queued final frame bounds the turn ----------

  lemma StepGrows(s: State, l: Label, t: nat, acc: Account)
    requires Enabled(s, l)
    ensures acc.heard <= Observe(acc, l, t, s.hub.routes).heard
    ensures acc.taken <= Observe(acc, l, t, s.hub.routes).taken
    ensures t in s.turns ==> t in Apply(s, l).turns
  {
  }

  lemma {:induction false} TurnsStay(run: Run, ext: Run, t: nat)
    requires Valid(run + ext)
    ensures Valid(run)
    ensures t in After(run).turns ==> t in After(run + ext).turns
  {
    if ext == [] {
      assert run + ext == run;
    } else {
      var front := run + Front(ext);
      assert Front(run + ext) == front;
      TurnsStay(run, Front(ext), t);
      StepGrows(After(front), Last(ext), t, BLANK);
    }
  }

  lemma {:induction false} AccountsGrow(run: Run, ext: Run, t: nat)
    requires Valid(run + ext)
    ensures AccountOf(run, t).heard <= AccountOf(run + ext, t).heard
    ensures AccountOf(run, t).taken <= AccountOf(run + ext, t).taken
  {
    if ext == [] {
      assert run + ext == run;
    } else {
      var front := run + Front(ext);
      assert Front(run + ext) == front;
      AccountsGrow(run, Front(ext), t);
      RoutesAreTheTable(front);
      StepGrows(After(front), Last(ext), t, AccountOf(front, t));
    }
  }

  /** A final frame that a fitting turn has heard at `at` is the last frame it can have received. */
  lemma NothingTakenAfterTheFinalFrame(u: Turn, acc: Account, at: nat)
    requires Fits(u, acc) && at < |acc.heard| && acc.heard[at].Send?
    ensures acc.taken <= at + 1
    ensures acc.taken == at + 1 ==> !Undecided(u.phase)
  {
    var seen := acc.heard[..acc.taken];
    forall i | 0 <= i < acc.taken - 1
      ensures !acc.heard[i].Send?
    {
      assert Front(seen)[i] == acc.heard[i];
    }
    assert acc.taken == at + 1 ==> seen[at].Send?;
  }

  /**
   A turn whose queue held the final frame `f` at position `p`, after `n` more receives: at most
   `p + 1` of them happened, `f` has moved exactly `n` places forward, and if it was taken the turn
   has met its end.
   */
  predicate Approaches(u: Turn, inbox: seq<Frame>, f: Frame, p: nat, n: int) {
    && 0 <= n <= p + 1
    && (n <= p ==> p - n < |inbox| && inbox[p - n] == f)
    && (n == p + 1 ==> !Undecided(u.phase))
  }

  lemma SendStaysPut(v: Turn, inbox: seq<Frame>, acc: Account, acc2: Account, p: nat)
    requires acc.taken <= acc2.taken && acc.heard <= acc2.heard
    requires acc.taken + p < |acc.heard| && acc.heard[acc.taken + p].Send?
    requires Fits(v, acc2) && inbox == acc2.heard[acc2.taken..]
    ensures Approaches(v, inbox, acc.heard[acc.taken + p], p, acc2.taken - acc.taken)
  {
    assert acc2.heard[acc.taken + p] == acc.heard[acc.taken + p];
    NothingTakenAfterTheFinalFrame(v, acc2, acc.taken + p);
  }

  lemma {:induction false} TakenMeanwhile(run: Run, ext: Run, t: nat)
    ensures AccountOf(run + ext, t).taken - AccountOf(run, t).taken == Receives(ext, t)
  {
    AccountCounts(run, t);
    AccountCounts(run + ext, t);
    ReceivesAppend(run, ext, t);
  }

  /** The turn's accounts before and after `ext`. */
  lemma {:induction false} Meanwhile(run: Run, s: State, ext: Run, late: State, t: nat)
    returns (acc: Account, acc2: Account)
    requires Exec(run) == Some(s) && Exec(run + ext) == Some(late) && t in s.turns
    ensures t in late.turns && Agrees(s, t, acc) && Agrees(late, t, acc2)
    ensures acc.heard <= acc2.heard && acc.taken <= acc2.taken && acc2.taken - acc.taken == Receives(ext, t)
  {
    acc, acc2 := AccountOf(run, t), AccountOf(run + ext, t);
    TurnsStay(run, ext, t);
    AccountsGrow(run, ext, t);
    EveryTurnAgrees(run, t);
    EveryTurnAgrees(run + ext, t);
    TakenMeanwhile(run, ext, t);
  }

  lemma SendApproaches(s: State, late: State, t: nat, acc: Account, acc2: Account, p: nat)
    requires t in s.turns && t in late.turns && Agrees(s, t, acc) && Agrees(late, t, acc2)
    requires acc.heard <= acc2.heard && acc.taken <= acc2.taken
    requires p < |s.hub.Inbox(t)| && s.hub.Inbox(t)[p].Send?
    ensures Approaches(late.turns[t], late.hub.Inbox(t), s.hub.Inbox(t)[p], p, acc2.taken - acc.taken)
  {
    assert s.hub.Inbox(t)[p] == acc.heard[acc.taken + p];
    SendStaysPut(late.turns[t], late.hub.Inbox(t), acc, acc2, p);
  }

  /** Whatever else happens in `ext`, each receive brings a queued final frame one place nearer. */
  lemma {:induction false} QueuedSendEndsTheTurn(run: Run, s: State, ext: Run, late: State, t: nat, p: nat)
    requires Exec(run) == Some(s) && Exec(run + ext) == Some(late) && t in s.turns
    requires p < |s.hub.Inbox(t)| && s.hub.Inbox(t)[p].Send?
    ensures t in late.turns
    ensures Approaches(late.turns[t], late.hub.Inbox(t), s.hub.Inbox(t)[p], p, Receives(ext, t))
  {
    var acc, acc2 := Meanwhile(run, s, ext, late, t);
    SendApproaches(s, late, t, acc, acc2, p);
  }

  // ---------- inbound frames ----------

  /** The socket that connected last and whose slot no departing socket has emptied since. */
  function Slot(run: Run): Option<nat> {
    if run == [] then None
    else match Last(run)
      case Connect(a) => Some(a)
      case Disconnect(_) => None
      case _ => Slot(Front(run))
  }

  /** What a step accepts for adapter `a`. */
  function AcceptedBy(l: Label, slot: Option<nat>, a: nat): seq<Inbound> {
    if l.Push? && l.accepted && slot == Some(a) then [l.frame] else []
  }

  /** What a step makes the write task of `a` send out. */
  function TransmittedBy(l: Label, a: nat): seq<Inbound> {
    if l.Transmit? && l.a == a then [l.sent] else []
  }

  /** The frames accepted while `a` was in the slot, in order of acceptance. */
  function Accepted(run: Run, a: nat): seq<Inbound> {
    if run == [] then []
    else Accepted(Front(run), a) + AcceptedBy(Last(run), Slot(Front(run)), a)
  }

  /** What the write task of `a` has sent out. */
  function Transmitted(run: Run, a: nat): seq<Inbound> {
    if run == [] then []
    else Transmitted(Front(run), a) + TransmittedBy(Last(run), a)
  }

  /** The frames of turn `t` that were accepted, by whichever adapter. */
  function Pushed(run: Run, t: nat): seq<Inbound> {
    if run == [] then []
    else
      var l := Last(run);
      Pushed(Front(run), t) + if l.Push? && l.accepted && l.t == t then [l.frame] else []
  }

  /** Slot, queue and transmissions of `a` fit what was accepted for it. */
  predicate SocketFits(h: Hub, a: nat, slot: Option<nat>, accepted: seq<Inbound>, transmitted: seq<Inbound>) {
    && slot == h.adapter
    && if a in h.sockets then transmitted + h.sockets[a].queue == accepted
       else accepted == [] && transmitted == [] && slot != Some(a)
  }

  lemma SocketMoves(s: State, l: Label, a: nat)
    requires Enabled(s, l)
    ensures Apply(s, l).hub.adapter ==
            match l case Connect(b) => Some(b) case Disconnect(_) => None case _ => s.hub.adapter
    ensures a in Apply(s, l).hub.sockets <==> a in s.hub.sockets || l == Connect(a)
    ensures l == Connect(a) ==> Apply(s, l).hub.sockets[a].queue == [] && a !in s.hub.sockets
    ensures a in s.hub.sockets ==>
      TransmittedBy(l, a) + Apply(s, l).hub.sockets[a].queue ==
      s.hub.sockets[a].queue + AcceptedBy(l, s.hub.adapter, a)
  {
  }

  lemma SocketStep(s: State, l: Label, a: nat, accepted: seq<Inbound>, transmitted: seq<Inbound>)
    requires Enabled(s, l) && SocketFits(s.hub, a, s.hub.adapter, accepted, transmitted)
    ensures SocketFits(Apply(s, l).hub, a, Apply(s, l).hub.adapter,
                       accepted + AcceptedBy(l, s.hub.adapter, a), transmitted + TransmittedBy(l, a))
  {
    SocketMoves(s, l, a);
    if a in s.hub.sockets {
      Associate(transmitted, TransmittedBy(l, a), Apply(s, l).hub.sockets[a].queue);
      Associate(transmitted, s.hub.sockets[a].queue, AcceptedBy(l, s.hub.adapter, a));
    }
  }

  /**
   What an adapter connection has sent and still holds is, in order, exactly what was accepted
   while that connection was in the slot; replacing it or losing it changes nothing in that.
   */
  lemma {:induction false} InboundConservation(run: Run, a: nat)
    requires Valid(run)
    ensures SocketFits(After(run).hub, a, Slot(run), Accepted(run, a), Transmitted(run, a))
  {
    if run != [] {
      InboundConservation(Front(run), a);
      SocketStep(After(Front(run)), Last(run), a, Accepted(Front(run), a), Transmitted(Front(run), a));
    }
  }

  predicate PushFits(s: State, t: nat, pushed: seq<Inbound>) {
    if t !in s.turns then pushed == []
    else if s.turns[t].phase.Done? then pushed == [] || pushed == [s.turns[t].Inbound()]
    else pushed == if s.turns[t].Accepted() then [s.turns[t].Inbound()] else []
  }

  lemma PushStep(s: State, l: Label, t: nat, pushed: seq<Inbound>)
    requires Enabled(s, l) && PushFits(s, t, pushed)
    ensures PushFits(Apply(s, l), t, pushed + (if l.Push? && l.accepted && l.t == t then [l.frame] else []))
  {
    assert pushed + [] == pushed;
  }

  /** A turn pushes at most one frame, its own, and waits only if that frame was accepted. */
  lemma {:induction false} EachTurnPushesOnce(run: Run, t: nat)
    requires Valid(run)
    ensures PushFits(After(run), t, Pushed(run, t))
  {
    if run != [] {
      EachTurnPushesOnce(Front(run), t);
      PushStep(After(Front(run)), Last(run), t, Pushed(Front(run), t));
    }
  }
}
