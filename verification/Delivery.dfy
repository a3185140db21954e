/** What a connection can do next, told from its labels alone, and which broadcasts reach its client. */
module Delivery {
  import opened Common
  import opened Connection

  /** The number of the next broadcast to read: one more for each one read, unless a lag skips some. */
  function Next(run: Run): int {
    if run == [] then 0
    else match Last(run)
      case Hear(_, _) => Next(Front(run)) + 1
      case Ignore => Next(Front(run)) + 1
      case Skip => |Broadcasts(Front(run))| - BROADCAST_CAP
      case _ => Next(Front(run))
  }

  /** The id that task `k` was spawned with. */
  function SpawnOf(run: Run, k: nat): Option<Option<string>> {
    if run == [] then None
    else match Last(run)
      case Spawn(j, id) => if j == k then Some(id) else SpawnOf(Front(run), k)
      case _ => SpawnOf(Front(run), k)
  }

  /** Task `k` was spawned and its handler has not returned. */
  predicate Handles(run: Run, k: nat) {
    SpawnOf(run, k).Some? && Return(k) !in run
  }

  predicate HasCleaned(run: Run, k: nat) {
    exists l :: l in run && l.Cleanup? && l.k == k
  }

  /** The writer has neither failed nor finished. */
  predicate Writes(run: Run) {
    WriteFails !in run && WriterDone !in run
  }

  predicate Lags(run: Run) {
    |Broadcasts(run)| - Next(run) > BROADCAST_CAP
  }

  // ---------- the state, told from the labels ----------

  lemma FlagsStep(s: State, l: Label)
    requires Enabled(s, l)
    ensures Apply(s, l).reading <==> s.reading && l != ReaderDone
    ensures Apply(s, l).stopped <==> s.stopped || l == Shutdown
    ensures Apply(s, l).subscribed <==> s.subscribed || l == Subscribe
    ensures Apply(s, l).writer.Writing? <==> s.writer.Writing? && l != WriteFails && l != WriterDone
  {
  }

  lemma CursorStep(s: State, l: Label)
    requires Enabled(s, l)
    ensures Apply(s, l).cursor ==
      match l
      case Hear(_, _) => s.cursor + 1
      case Ignore => s.cursor + 1
      case Skip => |s.log| - BROADCAST_CAP
      case _ => s.cursor
    ensures Apply(s, l).log == s.log + match l case Broadcast(m) => [m] case _ => []
  {
  }

  lemma {:induction false} FlagsAreTold(run: Run)
    requires Valid(run)
    ensures After(run).reading <==> ReaderDone !in run
    ensures After(run).stopped <==> Shutdown in run
    ensures After(run).subscribed <==> Subscribe in run
    ensures After(run).writer.Writing? <==> Writes(run)
    ensures After(run).cursor == Next(run) && After(run).log == Broadcasts(run)
  {
    if run != [] {
      var s, l := After(Front(run)), Last(run);
      FlagsAreTold(Front(run));
      FlagsStep(s, l);
      CursorStep(s, l);
      assert run == Front(run) + [l];
    }
  }

  /** Where task `k` stands, given how it was spawned and whether it has returned and was cleaned up. */
  predicate Stands(s: State, k: nat, id: Option<Option<string>>, returned: bool, cleaned: bool) {
    if k !in s.tasks then id == None && !returned && !cleaned
    else
      && id == Some(s.tasks[k].rid)
      && (s.tasks[k].stage.Running? <==> !returned)
      && (s.tasks[k].stage.Cleaned? <==> cleaned)
  }

  lemma StandsStep(s: State, l: Label, k: nat, id: Option<Option<string>>, returned: bool, cleaned: bool)
    requires Enabled(s, l) && Stands(s, k, id, returned, cleaned)
    ensures Stands(Apply(s, l), k, if l.Spawn? && l.k == k then Some(l.id) else id,
                   returned || l == Return(k), cleaned || (l.Cleanup? && l.k == k))
  {
  }

  lemma {:induction false} TasksAreTold(run: Run, k: nat)
    requires Valid(run)
    ensures Stands(After(run), k, SpawnOf(run, k), Return(k) in run, HasCleaned(run, k))
  {
    if run != [] {
      var front, l := Front(run), Last(run);
      TasksAreTold(front, k);
      StandsStep(After(front), l, k, SpawnOf(front, k), Return(k) in front, HasCleaned(front, k));
      assert run == front + [l] && l in run;
      assert HasCleaned(run, k) <==> HasCleaned(front, k) || (l.Cleanup? && l.k == k);
    }
  }

  // ---------- what can come next ----------

  /** Whether `l` can come next, told from the labels alone. */
  ghost predicate Told(run: Run, l: Label) {
    match l
    case Subscribe => ReaderDone !in run
    case Cancel(_) => ReaderDone !in run
    case Spawn(k, _) => ReaderDone !in run && SpawnOf(run, k) == None
    case ReaderDone => ReaderDone !in run
    case Shutdown => true
    case Send(Item(from, _)) =>
      && (if from.Some? then Handles(run, from.value) else ReaderDone !in run)
      && (Writes(run) ==> |Sent(run)| - |Directs(Wire(run))| < CONN_QUEUE)
    case Return(k) => Handles(run, k)
    case Cleanup(k, id) => SpawnOf(run, k) == Some(id) && Return(k) in run && !HasCleaned(run, k)
    case Write(item) => Writes(run) && Directs(Wire(run)) + [item] <= Sent(run)
    case WriteFails => Writes(run)
    case WriterDone =>
      Writes(run) && Directs(Wire(run)) == Sent(run) && ReaderDone in run && forall k :: !Handles(run, k)
    case Broadcast(_) => true
    case Hear(at, m) =>
      && Writes(run) && !Lags(run) && Subscribe in run
      && at == Next(run) < |Broadcasts(run)| && Broadcasts(run)[at] == m
    case Ignore => Writes(run) && !Lags(run) && Subscribe !in run && Next(run) < |Broadcasts(run)|
    case Skip => Writes(run) && Lags(run)
  }

  lemma SendersAreTold(run: Run)
    requires Valid(run)
    ensures After(run).HasSenders() <==> ReaderDone !in run || exists k :: Handles(run, k)
  {
    FlagsAreTold(run);
    forall k: nat
      ensures Handles(run, k) <==> After(run).IsRunning(k)
    {
      TasksAreTold(run, k);
    }
    var s := After(run);
    if s.HasSenders() && !s.reading {
      var k :| k in s.tasks && s.tasks[k].stage.Running?;
      assert Handles(run, k);
    }
  }

  lemma WriterStepsAreTold(run: Run, l: Label)
    requires Valid(run) && (l.Write? || l.WriterDone? || l.Send?)
    ensures Enabled(After(run), l) <==> Told(run, l)
  {
    FlagsAreTold(run);
    ConnectionStream(run);
    SendersAreTold(run);
    if l.Send? && l.item.from.Some? {
      TasksAreTold(run, l.item.from.value);
    }
    if After(run).writer.Writing? && !l.Send? {
      NextOf(Directs(Wire(run)), After(run).queue, if l.Write? then l.item else Item(None, P.Error(None, "")));
    }
  }

  /**
   Which step of a connection can come next is told from the labels alone: the runs of the model are
   exactly those in which every step is told by the ones before it.
   */
  lemma EveryStepIsTold(run: Run, l: Label)
    requires Valid(run)
    ensures Valid(run + [l]) <==> Told(run, l)
  {
    assert Front(run + [l]) == run && Last(run + [l]) == l;
    FlagsAreTold(run);
    match l
    case Spawn(k, _) => TasksAreTold(run, k);
    case Return(k) => TasksAreTold(run, k);
    case Cleanup(k, _) => TasksAreTold(run, k);
    case Send(_) => WriterStepsAreTold(run, l);
    case Write(_) => WriterStepsAreTold(run, l);
    case WriterDone => WriterStepsAreTold(run, l);
    case _ =>
  }

  // ---------- which broadcasts reach the client ----------

  /** The broadcasts on the wire. */
  function Heard(wire: seq<Line>): seq<P.DaemonMessage> {
    if wire == [] then []
    else Heard(Front(wire)) + if Last(wire).Event? then [Last(wire).event] else []
  }

  /** How many broadcasts the writer has put on the wire. */
  function Hears(run: Run): nat {
    if run == [] then 0 else Hears(Front(run)) + if Last(run).Hear? then 1 else 0
  }

  lemma HeardSnoc(wire: seq<Line>, more: seq<Line>)
    requires |more| <= 1
    ensures Heard(wire + more) == Heard(wire) + if more != [] && more[0].Event? then [more[0].event] else []
  {
    if more == [] {
      assert wire + more == wire;
    } else {
      assert Front(wire + more) == wire;
    }
  }

  /** The client had subscribed before anything was broadcast. */
  predicate SubscribedFirst(run: Run) {
    forall p :: 0 <= p < |run| && run[p].Broadcast? ==> Subscribe in run[..p]
  }

  lemma {:induction false} NothingBroadcastBefore(run: Run)
    requires SubscribedFirst(run) && Subscribe !in run
    ensures Broadcasts(run) == []
  {
    if run != [] {
      assert run == Front(run) + [Last(run)];
      FirstBefore(run);
      NothingBroadcastBefore(Front(run));
      assert run[|run| - 1] == Last(run) && run[..|run| - 1] == Front(run);
    }
  }

  lemma FirstBefore(run: Run)
    requires run != [] && SubscribedFirst(run)
    ensures SubscribedFirst(Front(run))
  {
    var front := Front(run);
    forall p | 0 <= p < |front| && front[p].Broadcast?
      ensures Subscribe in front[..p]
    {
      assert run[p].Broadcast? && front[..p] == run[..p];
    }
  }

  lemma HearingStep(s: State, l: Label, heard: seq<P.DaemonMessage>)
    requires Enabled(s, l) && l != Skip && s.cursor <= |s.log| && heard == s.log[..s.cursor]
    requires !s.subscribed ==> s.log == []
    ensures Apply(s, l).cursor == s.cursor + (if l.Hear? then 1 else 0) <= |Apply(s, l).log|
    ensures heard + (if l.Hear? then [l.event] else []) == Apply(s, l).log[..Apply(s, l).cursor]
  {
  }

  lemma {:induction false} HeardIsAPrefix(run: Run)
    requires Valid(run) && SubscribedFirst(run) && Skip !in run
    ensures Hears(run) == Next(run) <= |Broadcasts(run)| && Heard(Wire(run)) == Broadcasts(run)[..Hears(run)]
  {
    if run != [] {
      var front, l := Front(run), Last(run);
      assert run == front + [l] && l in run;
      FirstBefore(run);
      HeardIsAPrefix(front);
      FlagsAreTold(front);
      FlagsAreTold(run);
      if Subscribe !in front {
        NothingBroadcastBefore(front);
      }
      HeardSnoc(Wire(front), LineOf(l));
      HearingStep(After(front), l, Heard(Wire(front)));
    }
  }

  /**
   A client that had subscribed before anything was broadcast and was never skipped has heard every
   broadcast up to the last one it heard; and while its writer works and does not lag, the next one can
   be heard at once.
   */
  lemma SubscriberHearsEverything(run: Run)
    requires Valid(run) && SubscribedFirst(run) && Skip !in run
    ensures Hears(run) <= |Broadcasts(run)| && Heard(Wire(run)) == Broadcasts(run)[..Hears(run)]
    ensures Writes(run) && !Lags(run) && Hears(run) < |Broadcasts(run)| ==>
              Valid(run + [Hear(Hears(run), Broadcasts(run)[Hears(run)])])
  {
    HeardIsAPrefix(run);
    if Hears(run) < |Broadcasts(run)| {
      if Subscribe !in run {
        NothingBroadcastBefore(run);
      }
      EveryStepIsTold(run, Hear(Hears(run), Broadcasts(run)[Hears(run)]));
    }
  }

  /** Step `p` is what became of broadcast `j`: it was put on the wire, read too early, or lost to a lag. */
  predicate Fate(run: Run, p: nat, j: nat)
    requires p < |run| && j < |Broadcasts(run)|
  {
    match run[p]
    case Hear(at, m) => at == j && m == Broadcasts(run)[j]
    case Ignore => Next(run[..p]) == j && Subscribe !in run[..p]
    case Skip => Next(run[..p]) <= j < |Broadcasts(run[..p])| - BROADCAST_CAP
    case _ => false
  }

  lemma FateStays(run: Run, p: nat, j: nat)
    requires run != [] && p < |run| - 1 && j < |Broadcasts(Front(run))| && Fate(Front(run), p, j)
    ensures j < |Broadcasts(run)| && Fate(run, p, j)
  {
    assert Front(run)[..p] == run[..p];
  }

  /** Whenever it subscribes and however it lags: every broadcast below the next one to read has a fate. */
  lemma {:induction false} EveryBroadcastHasItsFate(run: Run, j: nat)
    requires Valid(run) && j < Next(run)
    ensures j < |Broadcasts(run)| && exists p :: 0 <= p < |run| && Fate(run, p, j)
  {
    FlagsAreTold(run);
    StreamFits(run);
    var front, l := Front(run), Last(run);
    FlagsAreTold(front);
    if j < Next(front) {
      EveryBroadcastHasItsFate(front, j);
      var p :| 0 <= p < |front| && Fate(front, p, j);
      FateStays(run, p, j);
    } else {
      assert run[..|run| - 1] == front;
      assert Fate(run, |run| - 1, j);
    }
  }
}
