/** When a step of a turn is possible, told from the labels of the run alone. */
module Readiness {
  import opened Common
  import opened Registry
  import opened Turns

  // ---------- cancellation ----------

  lemma FiredStep(s: State, l: Label, t: nat)
    requires Enabled(s, l)
    ensures t in Apply(s, l).fired <==> t in s.fired || l == Fire(t)
  {
  }

  lemma {:induction false} FiredIsFire(run: Run, t: nat)
    requires Valid(run)
    ensures t in After(run).fired <==> Fire(t) in run
  {
    if run != [] {
      FiredIsFire(Front(run), t);
      FiredStep(After(Front(run)), Last(run), t);
      assert run == Front(run) + [Last(run)];
    }
  }

  /** A turn fails as cancelled only if its token was cancelled before. */
  lemma {:induction false} CancelledMeansFired(run: Run, t: nat)
    requires Valid(run) && CANCELLED in AccountOf(run, t).faults
    ensures Fire(t) in run
  {
    if run != [] {
      assert run == Front(run) + [Last(run)];
      if CANCELLED in AccountOf(Front(run), t).faults {
        CancelledMeansFired(Front(run), t);
      } else {
        FaultTexts(AccountOf(Front(run), t), Last(run), t, Table(RouteEvents(Front(run))));
        FiredIsFire(Front(run), t);
      }
    }
  }

  lemma FaultsDiffer()
    ensures OFFLINE != CANCELLED && CANCELLED != DISCONNECTED && DISCONNECTED != OFFLINE
  {
    assert |OFFLINE| != |CANCELLED| && |CANCELLED| != |DISCONNECTED| && |DISCONNECTED| != |OFFLINE|;
  }

  lemma FaultTexts(acc: Account, l: Label, t: nat, routes: map<string, nat>)
    requires CANCELLED !in acc.faults && CANCELLED in Observe(acc, l, t, routes).faults
    ensures l == TakeCancel(t)
  {
    FaultsDiffer();
  }

  // ---------- the adapter ----------

  lemma SocketChanges(s: State, l: Label, a: nat)
    requires Enabled(s, l)
    ensures
      var before, after := s.hub.sockets, Apply(s, l).hub.sockets;
      && (a in after <==> a in before || l == Connect(a))
      && (l == Connect(a) ==> a !in before && after[a].writing && after[a].reading)
      && (a in before ==>
            && (after[a].writing <==> before[a].writing && l != WriterGone(a))
            && (after[a].reading <==> before[a].reading && l != Disconnect(a)))
  {
  }

  lemma NoSocketBefore(s: State, l: Label, a: nat)
    requires Enabled(s, l) && a !in s.hub.sockets
    ensures l != WriterGone(a) && l != Disconnect(a)
  {
  }

  /** A socket exists once it has connected, and each half of it runs until it is said to be gone. */
  lemma {:induction false} SocketsAreConnections(run: Run, a: nat)
    requires Valid(run)
    ensures a in After(run).hub.sockets <==> Connect(a) in run
    ensures a !in After(run).hub.sockets ==> WriterGone(a) !in run && Disconnect(a) !in run
    ensures a in After(run).hub.sockets ==>
      && (After(run).hub.sockets[a].writing <==> WriterGone(a) !in run)
      && (After(run).hub.sockets[a].reading <==> Disconnect(a) !in run)
  {
    if run != [] {
      var s, l := After(Front(run)), Last(run);
      SocketsAreConnections(Front(run), a);
      SocketChanges(s, l, a);
      if a !in s.hub.sockets {
        NoSocketBefore(s, l, a);
      }
      assert run == Front(run) + [l];
    }
  }

  /** The bridge answers that it took a frame exactly if the adapter in its slot still has a writer. */
  lemma {:induction false} PushAnswersForTheAdapter(run: Run, t: nat, ok: bool, frame: Bridge.Inbound)
    requires Valid(run) && run != [] && Last(run) == Push(t, ok, frame)
    ensures ok <==> Slot(Front(run)).Some? && WriterGone(Slot(Front(run)).value) !in Front(run)
  {
    AdapterIsSlot(Front(run));
    if Slot(Front(run)).Some? {
      SocketsAreConnections(Front(run), Slot(Front(run)).value);
      InboundConservation(Front(run), Slot(Front(run)).value);
    }
  }

  lemma {:induction false} AdapterIsSlot(run: Run)
    requires Valid(run)
    ensures After(run).hub.adapter == Slot(run)
  {
    InboundConservation(run, 0);
  }

  // ---------- what a turn can do next ----------

  /** Turn `t` as it was opened. */
  function OpeningOf(run: Run, t: nat): Option<Turn> {
    if run == [] then None
    else match Last(run)
      case Open(u, rid, chat, text) =>
        if u == t then Some(Turn(rid, chat, text, Opened)) else OpeningOf(Front(run), t)
      case _ => OpeningOf(Front(run), t)
  }

  predicate HasPushed(run: Run, t: nat) {
    exists l :: l in run && l.Push? && l.t == t
  }

  predicate HasClosed(run: Run, t: nat) {
    exists l :: l in run && l.Close? && l.t == t
  }

  lemma HasMore(run: Run, t: nat)
    requires run != []
    ensures HasPushed(run, t) <==> HasPushed(Front(run), t) || (Last(run).Push? && Last(run).t == t)
    ensures HasClosed(run, t) <==> HasClosed(Front(run), t) || (Last(run).Close? && Last(run).t == t)
  {
    assert run == Front(run) + [Last(run)];
    assert Last(run) in run;
    assert forall l :: l in Front(run) ==> l in run;
  }

  /** The turn's phase, as far as what it has emitted does not tell it. */
  predicate Placed(phase: Phase, acc: Account, pushed: bool, closed: bool) {
    && (phase.Opened? <==> !pushed)
    && (phase.Refused? <==> acc.faults == [OFFLINE] && !closed)
    && (phase.Reporting? || phase.Done? <==> closed)
    && (phase.Reporting? ==> acc.faults == [OFFLINE])
    && (acc.faults == [OFFLINE] ==> pushed)
  }

  /** What is known of a turn that was opened by `o`. */
  predicate Known(s: State, t: nat, o: Option<Turn>, acc: Account, pushed: bool, closed: bool) {
    if t !in s.turns then o == None && !pushed && !closed
    else
      var u := s.turns[t];
      o == Some(u.(phase := Opened)) && Placed(u.phase, acc, pushed, closed)
  }

  lemma OthersKeepKnown(s: State, l: Label, t: nat, o: Option<Turn>, acc: Account, pushed: bool, closed: bool)
    requires Enabled(s, l) && Mover(l) != Some(t) && Known(s, t, o, acc, pushed, closed)
    ensures Known(Apply(s, l), t, o, Observe(acc, l, t, s.hub.routes), pushed, closed)
  {
  }

  lemma OwnStepKeepsKnown(s: State, l: Label, t: nat, o: Option<Turn>, acc: Account, pushed: bool, closed: bool)
    requires Enabled(s, l) && Mover(l) == Some(t) && Agrees(s, t, acc) && Known(s, t, o, acc, pushed, closed)
    ensures Known(Apply(s, l), t, if l.Open? then Some(Turn(l.rid, l.chat, l.text, Opened)) else o,
                  Observe(acc, l, t, s.hub.routes), pushed || l.Push?, closed || l.Close?)
  {
    FaultsDiffer();
    assert [OFFLINE][0] == OFFLINE && [DISCONNECTED][0] == DISCONNECTED && [CANCELLED][0] == CANCELLED;
    assert acc.faults == [] ==> forall x :: acc.faults + [x] == [x];
  }

  lemma {:induction false} TurnIsKnown(run: Run, t: nat)
    requires Valid(run)
    ensures Known(After(run), t, OpeningOf(run, t), AccountOf(run, t), HasPushed(run, t), HasClosed(run, t))
  {
    if run != [] {
      var front := Front(run);
      TurnIsKnown(front, t);
      EveryTurnAgrees(front, t);
      RoutesAreTheTable(front);
      HasMore(run, t);
      var o, pushed, closed := OpeningOf(front, t), HasPushed(front, t), HasClosed(front, t);
      if Mover(Last(run)) == Some(t) {
        OwnStepKeepsKnown(After(front), Last(run), t, o, AccountOf(front, t), pushed, closed);
      } else {
        OthersKeepKnown(After(front), Last(run), t, o, AccountOf(front, t), pushed, closed);
      }
    }
  }

  /** The turn was accepted by the adapter, has answered all it received, and nothing has ended it. */
  predicate Awaits(run: Run, t: nat) {
    var acc := AccountOf(run, t);
    && OpeningOf(run, t).Some? && HasPushed(run, t) && acc.faults == []
    && acc.taken <= |acc.heard| && !HasSend(acc.heard[..acc.taken])
    && acc.emitted == Relay(OpeningOf(run, t).value.rid, acc.heard[..acc.taken])
  }

  /** The adapter in the slot has a writer. */
  predicate AdapterReads(run: Run) {
    Slot(run).Some? && WriterGone(Slot(run).value) !in run
  }

  /** What turn `t` should have emitted by now. */
  function Owed(run: Run, t: nat): seq<P.DaemonMessage>
    requires OpeningOf(run, t).Some? && AccountOf(run, t).taken <= |AccountOf(run, t).heard|
  {
    var acc := AccountOf(run, t);
    Expected(OpeningOf(run, t).value.rid, acc.heard[..acc.taken], acc.faults)
  }

  /** Whether `l` can come next, told from the labels alone. */
  ghost predicate Told(run: Run, l: Label) {
    match l
    case Connect(a) => l !in run
    case Disconnect(a) => Connect(a) in run && l !in run
    case WriterGone(a) => Connect(a) in run && l !in run
    case Transmit(a, m) =>
      Connect(a) in run && WriterGone(a) !in run && Transmitted(run, a) + [m] <= Accepted(run, a)
    case Dispatch(a, _) => Connect(a) in run && Disconnect(a) !in run
    case Open(t, _, _, _) => OpeningOf(run, t) == None
    case Push(t, ok, m) =>
      && OpeningOf(run, t).Some? && !HasPushed(run, t)
      && (var o := OpeningOf(run, t).value; m == Bridge.Inbound(o.chat, o.text, o.rid))
      && (ok <==> AdapterReads(run))
    case Fire(_) => true
    case Take(t) => Awaits(run, t) && AccountOf(run, t).taken < |AccountOf(run, t).heard|
    case TakeEnd(t) =>
      Awaits(run, t) && AccountOf(run, t).taken == |AccountOf(run, t).heard|
      && !LatestIsInsertBy(RouteEvents(run), OpeningOf(run, t).value.chat, t)
    case TakeCancel(t) => Awaits(run, t) && Fire(t) in run
    case Deliver(t, m) =>
      var acc := AccountOf(run, t);
      && OpeningOf(run, t).Some? && acc.taken <= |acc.heard|
      && acc.emitted + [m] == Owed(run, t)
      && (acc.faults == [OFFLINE] ==> HasClosed(run, t))
    case Close(t, chat) =>
      var acc := AccountOf(run, t);
      && OpeningOf(run, t).Some? && OpeningOf(run, t).value.chat == chat && !HasClosed(run, t)
      && acc.taken <= |acc.heard|
      && (acc.faults == [OFFLINE] ||
          (acc.emitted == Owed(run, t) && (acc.faults != [] || HasSend(acc.heard[..acc.taken]))))
  }

  lemma PendingIsWhatIsMissing(u: Turn, acc: Account, m: P.DaemonMessage)
    requires Fits(u, acc)
    ensures
      var owed := Expected(u.rid, acc.heard[..acc.taken], acc.faults);
      && (acc.emitted + [m] == owed <==> Pending(u) == [m])
      && (acc.emitted == owed <==> Pending(u) == [])
  {
    var owed := Expected(u.rid, acc.heard[..acc.taken], acc.faults);
    var n := |acc.emitted|;
    assert owed[n..] == Pending(u);
    assert acc.emitted + [m] == owed ==> owed[n..] == [m];
    assert acc.emitted + [] == acc.emitted;
  }

  /** The phases of a known turn, told from its account. */
  lemma PhaseIsTold(u: Turn, acc: Account, pushed: bool, closed: bool, m: P.DaemonMessage)
    requires Fits(u, acc) && Placed(u.phase, acc, pushed, closed)
    ensures
      var seen := acc.heard[..acc.taken];
      var owed := Expected(u.rid, seen, acc.faults);
      && (u.phase.Waiting? <==> pushed && acc.faults == [] && !HasSend(seen) && acc.emitted == Relay(u.rid, seen))
      && (Pending(u) == [m] && !u.phase.Refused? <==>
            acc.emitted + [m] == owed && (acc.faults == [OFFLINE] ==> closed))
      && (u.phase.Refused? || u.phase.Closing? <==>
            !closed && (acc.faults == [OFFLINE] || (acc.emitted == owed && (acc.faults != [] || HasSend(seen)))))
  {
    PendingIsWhatIsMissing(u, acc, m);
    var seen := acc.heard[..acc.taken];
    assert acc.faults == [] ==> Expected(u.rid, seen, acc.faults) == Relay(u.rid, seen);
  }

  lemma TurnStepsAreTold(run: Run, l: Label, t: nat)
    requires Valid(run) && Mover(l) == Some(t) && !l.Push? && !l.Open?
    ensures Enabled(After(run), l) <==> Told(run, l)
  {
    var s := After(run);
    TurnIsKnown(run, t);
    EveryTurnAgrees(run, t);
    if t in s.turns {
      PhaseIsTold(s.turns[t], AccountOf(run, t), HasPushed(run, t), HasClosed(run, t),
                  if l.Deliver? then l.message else Failure("", ""));
      if s.At(t, Waiting) {
        EndOfStreamMeansChatIdReused(run, t);
        FiredIsFire(run, t);
      }
    }
  }

  lemma TransmitIsTold(run: Run, a: nat, m: Bridge.Inbound)
    requires Valid(run)
    ensures Enabled(After(run), Transmit(a, m)) <==> Told(run, Transmit(a, m))
  {
    SocketsAreConnections(run, a);
    InboundConservation(run, a);
    if a in After(run).hub.sockets {
      var sent, queue := Transmitted(run, a), After(run).hub.sockets[a].queue;
      NextOf(sent, queue, m);
    }
  }

  lemma AdapterStepsAreTold(run: Run, l: Label)
    requires Valid(run) && (l.Connect? || l.Disconnect? || l.WriterGone? || l.Dispatch? || l.Fire?)
    ensures Enabled(After(run), l) <==> Told(run, l)
  {
    if !l.Fire? {
      SocketsAreConnections(run, l.a);
    }
  }

  /**
   Which step can come next is told from the labels alone: the runs of the model are exactly those in
   which every step is told by the ones before it.
   */
  lemma EveryStepIsTold(run: Run, l: Label)
    requires Valid(run)
    ensures Valid(run + [l]) <==> Told(run, l)
  {
    assert Front(run + [l]) == run && Last(run + [l]) == l;
    match l
    case Open(t, _, _, _) =>
      TurnIsKnown(run, t);
      EveryTurnAgrees(run, t);
    case Push(t, ok, m) =>
      TurnIsKnown(run, t);
      AdapterIsSlot(run);
      if Slot(run).Some? {
        SocketsAreConnections(run, Slot(run).value);
        InboundConservation(run, Slot(run).value);
      }
    case Take(t) => TurnStepsAreTold(run, l, t);
    case TakeEnd(t) => TurnStepsAreTold(run, l, t);
    case TakeCancel(t) => TurnStepsAreTold(run, l, t);
    case Deliver(t, _) => TurnStepsAreTold(run, l, t);
    case Close(t, _) => TurnStepsAreTold(run, l, t);
    case Transmit(a, m) => TransmitIsTold(run, a, m);
    case _ => AdapterStepsAreTold(run, l);
  }

  /** The turn is done: it has closed its route and emitted all it should. */
  lemma DoneIsTold(run: Run, t: nat)
    requires Valid(run)
    ensures After(run).At(t, Done) <==>
      && OpeningOf(run, t).Some? && HasClosed(run, t)
      && AccountOf(run, t).taken <= |AccountOf(run, t).heard| && AccountOf(run, t).emitted == Owed(run, t)
  {
    TurnIsKnown(run, t);
    EveryTurnAgrees(run, t);
    if t in After(run).turns {
      PendingIsWhatIsMissing(After(run).turns[t], AccountOf(run, t), Failure("", ""));
    }
  }

  // ---------- how a turn ends ----------

  /** The adapter did not take the turn's frame. */
  predicate IsRefused(run: Run, t: nat) {
    exists l :: l in run && l.Push? && l.t == t && !l.accepted
  }

  lemma FaultsStep(acc: Account, l: Label, t: nat, routes: map<string, nat>)
    ensures
      var faults := Observe(acc, l, t, routes).faults;
      && (OFFLINE in faults <==> OFFLINE in acc.faults || (l.Push? && l.t == t && !l.accepted))
      && (DISCONNECTED in faults <==> DISCONNECTED in acc.faults || l == TakeEnd(t))
      && (CANCELLED in faults <==> CANCELLED in acc.faults || l == TakeCancel(t))
  {
    FaultsDiffer();
  }

  lemma {:induction false} FaultsAreTold(run: Run, t: nat)
    ensures OFFLINE in AccountOf(run, t).faults <==> IsRefused(run, t)
    ensures DISCONNECTED in AccountOf(run, t).faults <==> TakeEnd(t) in run
    ensures CANCELLED in AccountOf(run, t).faults <==> TakeCancel(t) in run
  {
    if run != [] {
      var front, l := Front(run), Last(run);
      assert run == front + [l] && l in run;
      FaultsAreTold(front, t);
      FaultsStep(AccountOf(front, t), l, t, Table(RouteEvents(front)));
      assert IsRefused(run, t) <==> IsRefused(front, t) || (l.Push? && l.t == t && !l.accepted);
    }
  }

  /** What a turn says last, and why. */
  function LastWord(run: Run, t: nat, rid: string, heard: seq<Bridge.Frame>): P.DaemonMessage {
    if IsRefused(run, t) then P.Error(Some(rid), "desktop platform offline")
    else if TakeEnd(t) in run then P.Error(Some(rid), "desktop platform disconnected")
    else if TakeCancel(t) in run then P.Error(Some(rid), "cancelled")
    else P.ChatComplete(rid, if HasSend(heard) then FirstSend(heard) else "")
  }

  lemma KnownFaults(s: State, t: nat, o: Option<Turn>, acc: Account, pushed: bool, closed: bool)
    requires Agrees(s, t, acc) && Known(s, t, o, acc, pushed, closed) && s.At(t, Done)
    ensures acc.emitted == Expected(s.turns[t].rid, acc.heard[..acc.taken], acc.faults)
    ensures acc.faults == [] ==> HasSend(acc.heard[..acc.taken])
    ensures |acc.faults| <= 1
  {
    assert acc.emitted + [] == acc.emitted;
  }

  lemma {:induction false} OnlyTheseFaults(run: Run, t: nat, fault: string)
    requires fault in AccountOf(run, t).faults
    ensures fault == OFFLINE || fault == DISCONNECTED || fault == CANCELLED
  {
    if fault in AccountOf(Front(run), t).faults {
      OnlyTheseFaults(Front(run), t, fault);
    }
  }

  /**
   A turn that is done has said last why: that the platform is offline if the adapter did not take its
   frame, that it is disconnected if its stream ended, that it was cancelled if it was, and otherwise
   the first final text that it heard.
   */
  lemma DoneSaysWhy(run: Run, t: nat)
    requires Valid(run) && After(run).At(t, Done)
    ensures
      var emitted := Emitted(run, t);
      emitted != [] && Last(emitted) == LastWord(run, t, After(run).turns[t].rid, AccountOf(run, t).heard)
  {
    var s, acc := After(run), AccountOf(run, t);
    AccountCounts(run, t);
    EveryTurnAgrees(run, t);
    var rid, seen := s.turns[t].rid, acc.heard[..acc.taken];
    TurnIsKnown(run, t);
    KnownFaults(s, t, OpeningOf(run, t), acc, HasPushed(run, t), HasClosed(run, t));
    FaultsAreTold(run, t);
    FaultsDiffer();
    if acc.faults == [] {
      RelayIsAStream(rid, seen);
      FirstSendOfPrefix(acc.heard, acc.taken);
      assert Expected(rid, seen, acc.faults) == Relay(rid, seen);
    } else {
      OnlyTheseFaults(run, t, acc.faults[0]);
      assert acc.faults == [acc.faults[0]];
      assert Last(Expected(rid, seen, acc.faults)) == Failure(rid, acc.faults[0]);
    }
  }

  /** A waiting turn whose token was cancelled can answer so at once, and then it closes and is done. */
  lemma FiredTurnCanEnd(run: Run, s: State, t: nat) returns (late: State)
    requires Exec(run) == Some(s) && s.At(t, Waiting) && Fire(t) in run
    ensures
      var u := s.turns[t];
      var answer, close := Deliver(t, P.Error(Some(u.rid), "cancelled")), Close(t, u.chat);
      Exec(run + [TakeCancel(t)] + [answer] + [close]) == Some(late) && late.At(t, Done)
  {
    var u := s.turns[t];
    var answer, close := Deliver(t, Failure(u.rid, CANCELLED)), Close(t, u.chat);
    var taken := run + [TakeCancel(t)];
    FiredIsFire(run, t);
    Extend(run, TakeCancel(t));
    Extend(taken, answer);
    Extend(taken + [answer], close);
    late := After(taken + [answer] + [close]);
  }
}
