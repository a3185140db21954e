/** From a client's `Cancel` to the answer of its chat. */
module Cancelling {
  import opened Common
  import opened Registry
  import opened Daemon
  import R = Readiness
  import Delivery

  /**
   Step `p` cancels chat `t`: a `Cancel` read on its connection while `in_flight` led from the id to
   it, or the fall of its token with its connection's shutdown.
   */
  ghost predicate Cancels(run: Run, p: nat, t: nat)
    requires p < |run|
  {
    var before := run[..p];
    t in Homes(before) &&
    var conn := ClientRun(before, Homes(before)[t]);
    match run[p]
    case Cancel(c, rid, _) => c == Homes(before)[t] && LatestIsInsertBy(C.InFlightEvents(conn), rid, t)
    case Bridge(b) => b == B.Fire(t) && C.Shutdown in conn
    case _ => false
  }

  /** The same, told from the state before the step. */
  predicate StateCancels(s: State, l: Label, t: nat) {
    t in s.home && s.home[t] in s.conns &&
    var conn := s.conns[s.home[t]];
    match l
    case Cancel(c, rid, _) => c == s.home[t] && rid in conn.inFlight && conn.inFlight[rid] == t
    case Bridge(b) => b == B.Fire(t) && conn.stopped
    case _ => false
  }

  lemma FiringState(s: State, l: Label, t: nat)
    requires Enabled(s, l) && ChatFits(s, t)
    ensures B.Fire(t) in BridgeStep(l) <==> StateCancels(s, l, t)
  {
  }

  lemma FiringStep(run: Run, l: Label, t: nat)
    requires Valid(run) && Enabled(After(run), l)
    ensures B.Fire(t) in BridgeStep(l) <==> Cancels(run + [l], |run|, t)
  {
    var s := After(run);
    ChatsAreTasks(run, t);
    FiringState(s, l, t);
    assert (run + [l])[..|run|] == run;
    HomesAreKnown(run);
    if t in s.home {
      ConnectionSays(run, s, l, s.home[t], t);
    }
  }

  /** What a connection's labels say about its map and its shutdown. */
  lemma ConnectionSays(run: Run, s: State, l: Label, c: nat, t: nat)
    requires Exec(run) == Some(s) && c in s.conns
    ensures s.conns[c].stopped <==> C.Shutdown in ClientRun(run, c)
    ensures l.Cancel? ==>
      (l.rid in s.conns[c].inFlight && s.conns[c].inFlight[l.rid] == t <==>
       LatestIsInsertBy(C.InFlightEvents(ClientRun(run, c)), l.rid, t))
  {
    ProjectsToEachConnection(run, c);
    Delivery.FlagsAreTold(ClientRun(run, c));
    C.InFlightIsTheTable(ClientRun(run, c));
    if l.Cancel? {
      HeldUntilKeyReused(C.InFlightEvents(ClientRun(run, c)), l.rid, t);
    }
  }

  lemma CancelsBefore(run: Run, p: nat, t: nat)
    requires p < |run| - 1
    ensures Cancels(run, p, t) <==> Cancels(Front(run), p, t)
  {
    assert Front(run)[..p] == run[..p];
  }

  /** A chat's token is cancelled exactly if some step of the run cancels that chat. */
  lemma {:induction false} FireIsCancelOrShutdown(run: Run, t: nat)
    requires Valid(run)
    ensures B.Fire(t) in BridgeRun(run) <==> exists p :: 0 <= p < |run| && Cancels(run, p, t)
  {
    if run != [] {
      var front, l := Front(run), Last(run);
      assert run == front + [l];
      FireIsCancelOrShutdown(front, t);
      FiringStep(front, l, t);
      forall p | 0 <= p < |front|
        ensures Cancels(run, p, t) <==> Cancels(front, p, t)
      {
        CancelsBefore(run, p, t);
      }
      assert Cancels(run, |front|, t) <==> B.Fire(t) in BridgeStep(l);
    }
  }

  /** So a chat answers "cancelled" only if its own client, or its connection's shutdown, cancelled it. */
  lemma CancelledMeansAsked(run: Run, t: nat)
    requires Valid(run) && B.CANCELLED in B.AccountOf(BridgeRun(run), t).faults
    ensures exists p :: 0 <= p < |run| && Cancels(run, p, t)
  {
    ProjectsToTheBridge(run);
    R.CancelledMeansFired(BridgeRun(run), t);
    FireIsCancelOrShutdown(run, t);
  }

  lemma Extend(run: Run, l: Label)
    requires Valid(run) && Enabled(After(run), l)
    ensures Exec(run + [l]) == Some(Apply(After(run), l))
  {
    assert Front(run + [l]) == run;
  }

  /** `in_flight` leads from the id to a waiting chat: cancelling the id lets the chat answer so. */
  lemma CancelThenTake(s: State, t: nat, c: nat, rid: string)
    requires s.bridge.At(t, B.Waiting) && s.IsChat(c, t) && c in s.conns && s.conns[c].reading
    requires rid in s.conns[c].inFlight && s.conns[c].inFlight[rid] == t
    ensures Enabled(s, Cancel(c, rid, Some(t)))
    ensures
      var mid := Apply(s, Cancel(c, rid, Some(t)));
      && Enabled(mid, Bridge(B.TakeCancel(t)))
      && Apply(mid, Bridge(B.TakeCancel(t))).bridge ==
         B.Apply(s.bridge, B.Fire(t)).To(t, B.Replying(B.Failure(s.bridge.turns[t].rid, B.CANCELLED), true))
  {
  }

  /** The chat's request is unfinished, so with distinct live ids its id leads to it. */
  lemma ItsIdLeadsToTheChat(run: Run, t: nat, c: nat)
    requires Valid(run) && After(run).bridge.At(t, B.Waiting)
    requires After(run).IsChat(c, t) && c in After(run).conns
    requires Distinct(C.InFlightEvents(ClientRun(run, c)))
    ensures
      var rid, inFlight := After(run).bridge.turns[t].rid, After(run).conns[c].inFlight;
      rid in inFlight && inFlight[rid] == t
  {
    var s := After(run);
    ChatsAreTasks(run, t);
    ProjectsToEachConnection(run, c);
    C.InFlightIsExact(ClientRun(run, c));
    assert t in C.Unfinished(s.conns[c]);
  }

  /** With distinct live ids, cancelling the id of a waiting chat reaches that chat, which can answer so at once. */
  lemma CancelReachesTheChat(run: Run, s: State, t: nat, c: nat) returns (late: State)
    requires Exec(run) == Some(s) && s.bridge.At(t, B.Waiting) && s.IsChat(c, t)
    requires c in s.conns && s.conns[c].reading && Distinct(C.InFlightEvents(ClientRun(run, c)))
    ensures
      var u := s.bridge.turns[t];
      && Exec(run + [Cancel(c, u.rid, Some(t))] + [Bridge(B.TakeCancel(t))]) == Some(late)
      && late.bridge.At(t, B.Replying(P.Error(Some(u.rid), "cancelled"), true))
  {
    var rid := s.bridge.turns[t].rid;
    var cancel, take := Cancel(c, rid, Some(t)), Bridge(B.TakeCancel(t));
    ItsIdLeadsToTheChat(run, t, c);
    CancelThenTake(s, t, c, rid);
    Extend(run, cancel);
    Extend(run + [cancel], take);
    late := Apply(Apply(s, cancel), take);
  }
}
