/**
 One client connection of the IPC server: the reader that dispatches requests, the handler tasks
 it spawns, the bounded outbound queue, and the writer that merges the queue with broadcasts.

 A task is known by a number, which also names its cancellation token.
 */
module Connection {
  import opened Common
  import opened Registry
  import P = Protocol

  const CONN_QUEUE: nat := 128
  const BROADCAST_CAP: nat := 256

  datatype Stage =
    | Running  // the handler holds a `Conn`
    | Returned // the handler is done, its `in_flight` entry not yet removed
    | Cleaned

  datatype Task = Task(rid: Option<string>, stage: Stage)

  datatype WriterState = Writing | Failed | Finished

  /** A queued message and the task that sent it; the reader itself sends as `None`. */
  datatype Item = Item(from: Option<nat>, message: P.DaemonMessage)

  /** A line put on the wire: a direct message, or the broadcast with that number since accept. */
  datatype Line = Direct(item: Item) | Event(at: nat, event: P.DaemonMessage)

  datatype State = State(
    queue: seq<Item>, writer: WriterState,
    reading: bool, subscribed: bool, stopped: bool,
    tasks: map<nat, Task>, inFlight: map<string, nat>, cancelled: set<nat>,
    log: seq<P.DaemonMessage>, cursor: nat)
  {
    predicate IsRunning(k: nat) {
      k in tasks && tasks[k].stage.Running?
    }

    /** Some `Conn` handle still exists. */
    predicate HasSenders() {
      reading || exists k :: k in tasks && tasks[k].stage.Running?
    }

    predicate Lagging() {
      |log| - cursor > BROADCAST_CAP
    }
  }

  const ACCEPTED := State([], Writing, true, false, false, map[], map[], {}, [], 0)

  datatype Label =
    | Subscribe
    | Cancel(rid: string)
    | Spawn(k: nat, id: Option<string>)
    | ReaderDone
    | Shutdown
    | Send(item: Item)
    | Return(k: nat)
    | Cleanup(k: nat, id: Option<string>)
    | Write(item: Item)
    | WriteFails
    | WriterDone
    | Broadcast(event: P.DaemonMessage)
    | Hear(at: nat, event: P.DaemonMessage)
    | Ignore
    | Skip

  type Run = seq<Label>

  predicate Enabled(s: State, l: Label) {
    match l
    case Subscribe => s.reading
    case Cancel(_) => s.reading
    case Spawn(k, _) => s.reading && k !in s.tasks
    case ReaderDone => s.reading
    case Shutdown => true
    case Send(Item(from, _)) =>
      (if from.Some? then s.IsRunning(from.value) else s.reading)
      && (s.writer.Writing? ==> |s.queue| < CONN_QUEUE)
    case Return(k) => s.IsRunning(k)
    case Cleanup(k, id) => k in s.tasks && s.tasks[k] == Task(id, Returned)
    case Write(item) => s.writer.Writing? && s.queue != [] && s.queue[0] == item
    case WriteFails => s.writer.Writing?
    case WriterDone => s.writer.Writing? && s.queue == [] && !s.HasSenders()
    case Broadcast(_) => true
    case Hear(at, m) =>
      s.writer.Writing? && !s.Lagging() && s.subscribed && at == s.cursor < |s.log| && s.log[at] == m
    case Ignore => s.writer.Writing? && !s.Lagging() && !s.subscribed && s.cursor < |s.log|
    case Skip => s.writer.Writing? && s.Lagging()
  }

  function Apply(s: State, l: Label): State
    requires Enabled(s, l)
  {
    match l
    case Subscribe => s.(subscribed := true)
    case Cancel(rid) => if rid in s.inFlight then s.(cancelled := s.cancelled + {s.inFlight[rid]}) else s
    case Spawn(k, id) =>
      s.(tasks := s.tasks[k := Task(id, Running)],
         inFlight := if id.Some? then s.inFlight[id.value := k] else s.inFlight)
    case ReaderDone => s.(reading := false)
    case Shutdown => s.(stopped := true)
    case Send(item) => if s.writer.Writing? then s.(queue := s.queue + [item]) else s
    case Return(k) => s.(tasks := s.tasks[k := s.tasks[k].(stage := Returned)])
    case Cleanup(k, id) =>
      s.(tasks := s.tasks[k := Task(id, Cleaned)],
         inFlight := if id.Some? then s.inFlight - {id.value} else s.inFlight)
    case Write(_) => s.(queue := s.queue[1..])
    case WriteFails => s.(writer := Failed, queue := [])
    case WriterDone => s.(writer := Finished)
    case Broadcast(m) => s.(log := s.log + [m])
    case Hear(_, _) => s.(cursor := s.cursor + 1)
    case Ignore => s.(cursor := s.cursor + 1)
    case Skip => s.(cursor := |s.log| - BROADCAST_CAP)
  }

  function Exec(run: Run): Option<State> {
    if run == [] then Some(ACCEPTED)
    else match Exec(Front(run))
      case None => None
      case Some(s) => if Enabled(s, Last(run)) then Some(Apply(s, Last(run))) else None
  }

  predicate Valid(run: Run) {
    Exec(run).Some?
  }

  function After(run: Run): State
    requires Valid(run)
  {
    Exec(run).value
  }

  lemma {:induction false} Extend(run: Run, l: Label)
    requires Valid(run) && Enabled(After(run), l)
    ensures Valid(run + [l]) && After(run + [l]) == Apply(After(run), l)
  {
    assert Front(run + [l]) == run;
  }

  // ---------- the outbound stream ----------

  /** Everything `Conn::send` was given, in the order the sends went through. */
  function Sent(run: Run): seq<Item> {
    if run == [] then []
    else Sent(Front(run)) + SentBy(Last(run))
  }

  /** Everything put on the wire. */
  function Wire(run: Run): seq<Line> {
    if run == [] then []
    else Wire(Front(run)) + LineOf(Last(run))
  }

  function LineOf(l: Label): seq<Line> {
    match l
    case Write(item) => [Direct(item)]
    case Hear(at, m) => [Event(at, m)]
    case _ => []
  }

  /** Everything broadcast since the connection was accepted. */
  function Broadcasts(run: Run): seq<P.DaemonMessage> {
    if run == [] then []
    else Broadcasts(Front(run)) + match Last(run) case Broadcast(m) => [m] case _ => []
  }

  function Directs(lines: seq<Line>): seq<Item> {
    if lines == [] then []
    else Directs(Front(lines)) + if Last(lines).Direct? then [Last(lines).item] else []
  }

  lemma DirectsSnoc(lines: seq<Line>, more: seq<Line>)
    requires |more| <= 1
    ensures Directs(lines + more) == Directs(lines) + Directs(more)
  {
    if more == [] {
      assert lines + more == lines;
    } else {
      assert Front(lines + more) == lines && Front(more) == [];
    }
  }

  /** Broadcasts below `cursor`, each at most once, in the order they were sent. */
  predicate InOrder(lines: seq<Line>, log: seq<P.DaemonMessage>, cursor: nat) {
    && (forall i :: 0 <= i < |lines| && lines[i].Event? ==>
          lines[i].at < cursor <= |log| && lines[i].event == log[lines[i].at])
    && (forall i, j :: 0 <= i < j < |lines| && lines[i].Event? && lines[j].Event? ==> lines[i].at < lines[j].at)
  }

  /** What the state says about the direct messages. */
  predicate QueueFits(s: State, sent: seq<Item>, directs: seq<Item>) {
    && |s.queue| <= CONN_QUEUE
    && (if s.writer.Failed? then directs <= sent else directs + s.queue == sent)
    && (s.writer.Finished? ==> s.queue == [] && !s.HasSenders())
  }

  /** What the state says about the broadcasts. */
  predicate BroadcastsFit(s: State, wire: seq<Line>) {
    && s.cursor <= |s.log|
    && InOrder(wire, s.log, s.cursor)
    && (!s.subscribed ==> forall line :: line in wire ==> line.Direct?)
  }

  /** The message a step hands to `Conn::send`. */
  function SentBy(l: Label): seq<Item> {
    match l
    case Send(item) => [item]
    case _ => []
  }

  /** The direct message a step puts on the wire. */
  function WrittenBy(l: Label): seq<Item> {
    match l
    case Write(item) => [item]
    case _ => []
  }

  lemma QueueStep(s: State, l: Label, sent: seq<Item>, directs: seq<Item>)
    requires Enabled(s, l) && QueueFits(s, sent, directs)
    ensures QueueFits(Apply(s, l), sent + SentBy(l), directs + WrittenBy(l))
  {
    assert sent + [] == sent && directs + [] == directs;
    match l
    case Write(item) =>
      assert s.queue == [item] + s.queue[1..];
      assert directs + [item] + s.queue[1..] == directs + s.queue;
    case Send(item) =>
      assert directs + (s.queue + [item]) == directs + s.queue + [item];
    case WriteFails =>
    case WriterDone =>
    case _ =>
      assert Apply(s, l).queue == s.queue && Apply(s, l).writer == s.writer;
  }

  lemma DirectsOfLine(l: Label)
    ensures Directs(LineOf(l)) == WrittenBy(l)
  {
    if LineOf(l) != [] {
      assert Front(LineOf(l)) == [];
    }
  }

  lemma BroadcastStep(s: State, l: Label, wire: seq<Line>)
    requires Enabled(s, l) && BroadcastsFit(s, wire)
    ensures BroadcastsFit(Apply(s, l), wire + LineOf(l))
  {
  }

  lemma {:induction false} StreamFits(run: Run)
    requires Valid(run)
    ensures QueueFits(After(run), Sent(run), Directs(Wire(run)))
    ensures BroadcastsFit(After(run), Wire(run)) && After(run).log == Broadcasts(run)
  {
    if run != [] {
      var s, l := After(Front(run)), Last(run);
      StreamFits(Front(run));
      DirectsSnoc(Wire(Front(run)), LineOf(l));
      DirectsOfLine(l);
      QueueStep(s, l, Sent(Front(run)), Directs(Wire(Front(run))));
      BroadcastStep(s, l, Wire(Front(run)));
    }
  }

  /**
   The direct lines on the wire are a prefix of what was queued, and all of it once the writer
   has finished; the broadcasts among them are an in-order, at-most-once selection of those sent
   since accept, none before `Subscribe` was read; and the queue is never over its capacity.
   */
  lemma {:induction false} ConnectionStream(run: Run)
    requires Valid(run)
    ensures Directs(Wire(run)) <= Sent(run)
    ensures After(run).writer.Finished? ==> Directs(Wire(run)) == Sent(run)
    ensures After(run).writer.Writing? ==> Directs(Wire(run)) + After(run).queue == Sent(run)
    ensures InOrder(Wire(run), Broadcasts(run), |Broadcasts(run)|)
    ensures Subscribe !in run ==> forall line :: line in Wire(run) ==> line.Direct?
    ensures |After(run).queue| <= CONN_QUEUE
  {
    StreamFits(run);
    SubscribedMeansSubscribe(run);
  }

  lemma SubscribedStep(s: State, l: Label)
    requires Enabled(s, l)
    ensures Apply(s, l).subscribed <==> s.subscribed || l == Subscribe
  {
  }

  lemma {:induction false} SubscribedMeansSubscribe(run: Run)
    requires Valid(run)
    ensures After(run).subscribed <==> Subscribe in run
  {
    if run != [] {
      SubscribedMeansSubscribe(Front(run));
      SubscribedStep(After(Front(run)), Last(run));
      assert run == Front(run) + [Last(run)];
    }
  }

  /** With nobody left to send and no failed write, the writer finishes after exactly the queued lines. */
  lemma {:induction false} WriterDrains(run: Run) returns (rest: Run)
    requires Valid(run) && After(run).writer.Writing? && !After(run).HasSenders()
    ensures |rest| == |After(run).queue| + 1
    ensures Valid(run + rest) && After(run + rest).writer.Finished?
    ensures Sent(run + rest) == Sent(run) && Directs(Wire(run + rest)) == Sent(run)
    decreases |After(run).queue|
  {
    var s := After(run);
    var l := if s.queue == [] then WriterDone else Write(s.queue[0]);
    assert Front(run + [l]) == run;
    if s.queue == [] {
      rest := [l];
    } else {
      rest := WriterDrains(run + [l]);
      assert run + [l] + rest == run + ([l] + rest);
      rest := [l] + rest;
    }
    ConnectionStream(run + rest);
  }

  /** The direct lines that a run writes. */
  function Writes(run: Run): seq<Item> {
    if run == [] then [] else Writes(Front(run)) + WrittenBy(Last(run))
  }

  lemma SenderlessStep(s: State, l: Label)
    requires Enabled(s, l) && !s.HasSenders()
    ensures !Apply(s, l).HasSenders() && SentBy(l) == []
    ensures l != WriteFails ==> s.queue == WrittenBy(l) + Apply(s, l).queue
  {
  }

  /**
   Once nobody is left to send, every continuation without a failed write puts out the queue from its
   front, line by line, and nothing else of its own: what it has written and what it still holds are
   the queue there was.
   */
  lemma {:induction false} EveryDrainWritesTheQueue(run: Run, ext: Run)
    requires Valid(run) && Valid(run + ext) && !After(run).HasSenders() && WriteFails !in ext
    ensures !After(run + ext).HasSenders() && Sent(run + ext) == Sent(run)
    ensures Writes(ext) + After(run + ext).queue == After(run).queue
  {
    if ext == [] {
      assert run + ext == run && [] + After(run).queue == After(run).queue;
    } else {
      var front, l := run + Front(ext), Last(ext);
      assert Front(run + ext) == front && Last(run + ext) == l && l in ext;
      assert forall x :: x in Front(ext) ==> x in ext;
      EveryDrainWritesTheQueue(run, Front(ext));
      SenderlessStep(After(front), l);
      Associate(Writes(Front(ext)), WrittenBy(l), After(run + ext).queue);
      assert Sent(front) + [] == Sent(front);
    }
  }

  /** What one task has sent, among the items. */
  function ForTask(items: seq<Item>, k: nat): seq<P.DaemonMessage> {
    if items == [] then []
    else ForTask(Front(items), k) + if Last(items).from == Some(k) then [Last(items).message] else []
  }

  lemma {:induction false} ForTaskAppend(a: seq<Item>, b: seq<Item>, k: nat)
    ensures ForTask(a + b, k) == ForTask(a, k) + ForTask(b, k)
  {
    if b == [] {
      assert a + b == a;
    } else {
      assert Front(a + b) == a + Front(b);
      ForTaskAppend(a, Front(b), k);
    }
  }

  lemma {:induction false} InForTask(items: seq<Item>, item: Item, k: nat)
    requires item in items && item.from == Some(k)
    ensures item.message in ForTask(items, k)
  {
    if item != Last(items) {
      assert item in Front(items);
      InForTask(Front(items), item, k);
    }
  }

  lemma ForTaskSnoc(lines: seq<Line>, line: Line, k: nat)
    ensures ForTask(Directs(lines + [line]), k) ==
            ForTask(Directs(lines), k) +
              if line.Direct? && line.item.from == Some(k) then [line.item.message] else []
  {
    assert Front(lines + [line]) == lines;
    var directs := Directs(lines);
    if line.Direct? {
      assert Front(directs + [line.item]) == directs;
    } else {
      assert directs + [] == directs;
    }
  }

  lemma {:induction false} InDirects(lines: seq<Line>, item: Item)
    requires Direct(item) in lines
    ensures item in Directs(lines)
  {
    if Last(lines) != Direct(item) {
      assert Direct(item) in Front(lines);
      InDirects(Front(lines), item);
    }
  }

  lemma {:induction false} WireLines(run: Run, line: Line)
    requires Valid(run) && line in Wire(run)
    ensures
      match line
      case Direct(item) => item in Sent(run)
      case Event(_, m) => m in Broadcasts(run)
  {
    ConnectionStream(run);
    if line.Direct? {
      InDirects(Wire(run), line.item);
    }
  }

  function MessageOf(line: Line): P.DaemonMessage {
    match line
    case Direct(item) => item.message
    case Event(_, m) => m
  }

  /** What a client that parses every line reads. */
  function MessagesOf(wire: seq<Line>): seq<P.DaemonMessage> {
    seq(|wire|, i requires 0 <= i < |wire| => MessageOf(wire[i]))
  }

  /** `Sent` and `Broadcasts` of a run with at most one more step. */
  lemma {:induction false} OneMoreStep(run: Run, more: Run)
    requires |more| <= 1
    ensures Sent(run + more) == Sent(run) + Sent(more)
    ensures Broadcasts(run + more) == Broadcasts(run) + Broadcasts(more)
  {
    if more == [] {
      assert run + more == run;
    } else {
      assert Front(run + more) == run && Front(more) == [];
    }
  }

  /** Each request's messages reach the wire in the order the request sent them. */
  lemma {:induction false} EachTaskStaysInOrder(run: Run, k: nat)
    requires Valid(run)
    ensures ForTask(Directs(Wire(run)), k) <= ForTask(Sent(run), k)
  {
    ConnectionStream(run);
    var directs, sent := Directs(Wire(run)), Sent(run);
    assert sent == directs + sent[|directs|..];
    ForTaskAppend(directs, sent[|directs|..], k);
  }

  lemma TaskStep(s: State, l: Label, k: nat)
    requires Enabled(s, l)
    ensures k in Apply(s, l).tasks <==> k in s.tasks || (l.Spawn? && l.k == k)
    ensures k in s.tasks ==> Apply(s, l).tasks[k].rid == s.tasks[k].rid
    ensures l.Spawn? && l.k == k ==> Apply(s, l).tasks[k] == Task(l.id, Running)
    ensures s.IsRunning(k) && !Apply(s, l).IsRunning(k) ==> l == Return(k)
    ensures k in s.tasks && !s.IsRunning(k) ==> !Apply(s, l).IsRunning(k)
  {
  }

  lemma SenderStep(s: State, l: Label, k: nat)
    requires Enabled(s, l) && !s.IsRunning(k)
    ensures ForTask(SentBy(l), k) == []
  {
    if l.Send? {
      assert Front([l.item]) == [];
    }
  }

  lemma {:induction false} SendersAreTasks(run: Run, k: nat)
    requires Valid(run) && k !in After(run).tasks
    ensures ForTask(Sent(run), k) == []
  {
    if run != [] {
      var s, l := After(Front(run)), Last(run);
      TaskStep(s, l, k);
      SendersAreTasks(Front(run), k);
      SenderStep(s, l, k);
      ForTaskAppend(Sent(Front(run)), SentBy(l), k);
    }
  }

  // ---------- cancellation ----------

  /** The use a step makes of `in_flight`. */
  function InFlightUse(l: Label): seq<Registry.Event<string, nat>> {
    match l
    case Spawn(k, Some(id)) => [Insert(id, k)]
    case Cleanup(k, Some(id)) => [Remove(id, k)]
    case _ => []
  }

  function InFlightEvents(run: Run): seq<Registry.Event<string, nat>> {
    if run == [] then [] else InFlightEvents(Front(run)) + InFlightUse(Last(run))
  }

  /** The requests with an id that are not cleaned up yet. */
  function Unfinished(s: State): map<nat, string> {
    map k | k in s.tasks && s.tasks[k].rid.Some? && !s.tasks[k].stage.Cleaned? :: s.tasks[k].rid.value
  }

  /** `in_flight` is what its uses leave behind, and its live owners are the unfinished requests. */
  ghost predicate InFlightFits(s: State, events: seq<Registry.Event<string, nat>>) {
    s.inFlight == Table(events) && Proper(events) && Live(events) == Unfinished(s)
  }

  lemma QuietSteps(s: State, l: Label)
    requires Enabled(s, l) && InFlightUse(l) == []
    ensures Apply(s, l).inFlight == s.inFlight && Unfinished(Apply(s, l)) == Unfinished(s)
  {
    match l
    case Spawn(k, _) => assert k !in Unfinished(Apply(s, l));
    case Return(k) => assert Unfinished(Apply(s, l)).Keys == Unfinished(s).Keys;
    case Cleanup(k, _) => assert k !in Unfinished(s);
    case _ => assert Apply(s, l).tasks == s.tasks;
  }

  lemma TokenSteps(s: State, l: Label)
    requires Enabled(s, l) && InFlightUse(l) != []
    ensures
      if l.Spawn? then
        && l.k !in Unfinished(s) && l.id.Some? && Unfinished(Apply(s, l)) == Unfinished(s)[l.k := l.id.value]
        && Apply(s, l).inFlight == s.inFlight[l.id.value := l.k]
      else
        && l.Cleanup? && l.id.Some? && l.k in Unfinished(s) && Unfinished(s)[l.k] == l.id.value
        && Unfinished(Apply(s, l)) == Unfinished(s) - {l.k} && Apply(s, l).inFlight == s.inFlight - {l.id.value}
  {
  }

  lemma InFlightStep(s: State, l: Label, events: seq<Registry.Event<string, nat>>)
    requires Enabled(s, l) && InFlightFits(s, events)
    ensures InFlightFits(Apply(s, l), events + InFlightUse(l))
  {
    if InFlightUse(l) == [] {
      QuietSteps(s, l);
      assert events + [] == events;
    } else {
      TokenSteps(s, l);
      assert Front(events + InFlightUse(l)) == events;
    }
  }

  lemma {:induction false} InFlightIsTheTable(run: Run)
    requires Valid(run)
    ensures InFlightFits(After(run), InFlightEvents(run))
  {
    if run != [] {
      InFlightIsTheTable(Front(run));
      InFlightStep(After(Front(run)), Last(run), InFlightEvents(Front(run)));
    }
  }

  /** Whatever the ids, a token in `in_flight` belongs to a request with that id that is not cleaned up. */
  lemma {:induction false} TokensBelongToUnfinishedRequests(run: Run)
    requires Valid(run)
    ensures
      var s := After(run);
      forall rid :: rid in s.inFlight ==>
        s.inFlight[rid] in Unfinished(s) && Unfinished(s)[s.inFlight[rid]] == rid
    ensures Unfinished(After(run)) == map[] ==> After(run).inFlight == map[]
  {
    InFlightIsTheTable(run);
    EntriesBelongToLiveOwners(InFlightEvents(run));
  }

  /** With distinct live ids the map is exactly the unfinished requests, each with its own token. */
  lemma {:induction false} InFlightIsExact(run: Run)
    requires Valid(run) && Distinct(InFlightEvents(run))
    ensures
      var s := After(run);
      && s.inFlight.Keys == Unfinished(s).Values
      && forall k :: k in Unfinished(s) ==> Unfinished(s)[k] in s.inFlight && s.inFlight[Unfinished(s)[k]] == k
  {
    InFlightIsTheTable(run);
    ExactWhenDistinct(InFlightEvents(run));
  }

  /** With distinct live ids, `Cancel` cancels the unfinished request of that id and no other. */
  lemma {:induction false} CancelHitsExactlyItsRequest(run: Run, rid: string)
    requires Valid(run) && Enabled(After(run), Cancel(rid)) && Distinct(InFlightEvents(run))
    ensures
      var s := After(run);
      Apply(s, Cancel(rid)).cancelled == s.cancelled + set k | k in Unfinished(s) && Unfinished(s)[k] == rid
  {
    InFlightIsTheTable(run);
    TokensBelongToUnfinishedRequests(run);
    ExactWhenDistinct(InFlightEvents(run));
  }

  /** In every case `Cancel` reaches a request exactly if its id has not been used again since. */
  lemma {:induction false} CancelReaches(run: Run, rid: string, k: nat)
    requires Valid(run) && Enabled(After(run), Cancel(rid)) && k !in After(run).cancelled
    ensures
      k in Apply(After(run), Cancel(rid)).cancelled <==> LatestIsInsertBy(InFlightEvents(run), rid, k)
  {
    InFlightIsTheTable(run);
    HeldUntilKeyReused(InFlightEvents(run), rid, k);
  }

  // ---------- the connection object ----------

  /** What the reader loop does with a parsed request; `k` numbers the task it may spawn. */
  function Dispatched(msg: P.ClientMessage, k: nat): Label {
    match msg
    case Subscribe(_) => Subscribe
    case Cancel(rid) => Cancel(rid)
    case _ => Spawn(k, msg.RequestId())
  }

  /**
   What reading a request comes to, with distinct live ids: `Subscribe` turns the broadcasts on, `Cancel`
   cancels the unfinished request of its id and no other, and anything else is a new task, unfinished
   under the request's own id.
   */
  lemma RequestIsRead(run: Run, msg: P.ClientMessage, k: nat)
    requires Valid(run) && After(run).reading && k !in After(run).tasks && Distinct(InFlightEvents(run))
    ensures Enabled(After(run), Dispatched(msg, k))
    ensures
      var s, t := After(run), Apply(After(run), Dispatched(msg, k));
      && (msg.Subscribe? ==> t == s.(subscribed := true))
      && (msg.Cancel? ==>
            t == s.(cancelled := s.cancelled + set j | j in Unfinished(s) && Unfinished(s)[j] == msg.requestId))
      && (!msg.Subscribe? && !msg.Cancel? ==>
            && t.IsRunning(k) && t.tasks[k].rid == msg.RequestId() && t.cancelled == s.cancelled
            && (msg.RequestId().Some? ==> Unfinished(t) == Unfinished(s)[k := msg.RequestId().value])
            && (msg.RequestId().None? ==> Unfinished(t) == Unfinished(s)))
  {
    if msg.Cancel? {
      CancelHitsExactlyItsRequest(run, msg.requestId);
    } else if !msg.Subscribe? {
      var l := Dispatched(msg, k);
      if InFlightUse(l) == [] {
        QuietSteps(After(run), l);
      } else {
        TokenSteps(After(run), l);
      }
    }
  }

  /** The state the reader, the writer and the handler tasks share; each method is one of their steps. */
  class ClientConnection {
    var queue: seq<Item>
    var writer: WriterState
    var reading: bool
    var subscribed: bool
    var stopped: bool
    var tasks: map<nat, Task>
    var inFlight: map<string, nat>
    var cancelled: set<nat>
    var log: seq<P.DaemonMessage>
    var cursor: nat

    function View(): State
      reads this
    {
      State(queue, writer, reading, subscribed, stopped, tasks, inFlight, cancelled, log, cursor)
    }

    constructor ()
      ensures View() == ACCEPTED
    {
      queue, writer, reading, subscribed, stopped := [], Writing, true, false, false;
      tasks, inFlight, cancelled, log, cursor := map[], map[], {}, [], 0;
    }

    /** One request of the reader loop. */
    method Read(msg: P.ClientMessage, k: nat)
      requires reading && k !in tasks
      modifies this
      ensures View() == Apply(old(View()), Dispatched(msg, k))
    {
      match msg
      case Subscribe(_) =>
        subscribed := true;
      case Cancel(rid) =>
        if rid in inFlight {
          cancelled := cancelled + {inFlight[rid]};
        }
      case _ =>
        var id := msg.RequestId();
        if id.Some? {
          inFlight := inFlight[id.value := k];
        }
        tasks := tasks[k := Task(id, Running)];
    }

    /** `Conn::send`, once there is room: dropped when the writer is gone. */
    method Enqueue(item: Item)
      requires Enabled(View(), Send(item))
      modifies this`queue
      ensures View() == Apply(old(View()), Send(item))
    {
      if writer.Writing? {
        queue := queue + [item];
      }
    }

    /** The handler of `k` has returned; then its entry is removed, whoever holds it by now. */
    method Finish(k: nat)
      requires View().IsRunning(k)
      modifies this`tasks, this`inFlight
      ensures
        var returned := Apply(old(View()), Return(k));
        var cleanup := Cleanup(k, old(tasks)[k].rid);
        Enabled(returned, cleanup) && View() == Apply(returned, cleanup)
    {
      var id := tasks[k].rid;
      tasks := tasks[k := Task(id, Returned)];
      if id.Some? {
        inFlight := inFlight - {id.value};
      }
      tasks := tasks[k := Task(id, Cleaned)];
    }

    /** One turn of the writer's select: the arm that fired, and whether its write went through. */
    method WriterTurn(direct: bool, ok: bool) returns (l: Label)
      requires writer.Writing?
      requires if direct then queue != [] || !View().HasSenders() else cursor < |log|
      modifies this`queue, this`writer, this`cursor
      ensures Enabled(old(View()), l) && View() == Apply(old(View()), l)
      ensures direct && old(queue) == [] ==> l == WriterDone
      ensures direct && old(queue) != [] ==> l == if ok then Write(old(queue)[0]) else WriteFails
      ensures !direct && old(View()).Lagging() ==> l == Skip
      ensures !direct && !old(View()).Lagging() ==>
        l == if !subscribed then Ignore else if ok then Hear(old(cursor), log[old(cursor)]) else WriteFails
    {
      if direct {
        if queue == [] {
          l := WriterDone;
          writer := Finished;
        } else if ok {
          l := Write(queue[0]);
          queue := queue[1..];
        } else {
          l := WriteFails;
          writer, queue := Failed, [];
        }
      } else if |log| - cursor > BROADCAST_CAP {
        l := Skip;
        cursor := |log| - BROADCAST_CAP;
      } else if !subscribed {
        l := Ignore;
        cursor := cursor + 1;
      } else if ok {
        l := Hear(cursor, log[cursor]);
        cursor := cursor + 1;
      } else {
        l := WriteFails;
        writer, queue := Failed, [];
      }
    }
  }
}
