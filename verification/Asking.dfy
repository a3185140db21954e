/** From the chat request of a client to the frame that the adapter reads. */
module Asking {
  import opened Common
  import opened Daemon
  import R = Readiness

  /** Some client asked for chat `t` with this request. */
  predicate Asked(run: Run, t: nat, request: P.ClientMessage) {
    exists l :: l in run && l.StartChat? && l.t == t && l.request == request
  }

  lemma {:induction false} AskedIsAsked(run: Run, t: nat)
    requires Valid(run) && t in After(run).asked
    ensures Asked(run, t, After(run).asked[t])
  {
    var front, l := Front(run), Last(run);
    assert run == front + [l] && l in run && forall x :: x in front ==> x in run;
    if !(l.StartChat? && l.t == t) {
      AskedIsAsked(front, t);
      var x :| x in front && x.StartChat? && x.t == t && x.request == After(front).asked[t];
      assert x in run;
    }
  }

  /** The turn was opened for the request that was asked. */
  predicate OpenedFor(s: State, t: nat, o: Option<B.Turn>) {
    o.Some? ==>
      && t in s.home && t in s.asked && Serves(s.asked[t], o.value.chat, o.value.text)
      && o.value.rid == s.asked[t].requestId
  }

  /** A chat's request is the one its task runs for. */
  predicate Fits(s: State, t: nat) {
    t in s.home ==>
      && t in s.asked && s.asked[t].Chat?
      && (s.home[t] in s.conns && t in s.conns[s.home[t]].tasks ==>
            s.conns[s.home[t]].tasks[t].rid == Some(s.asked[t].requestId))
  }

  function OpenedBy(l: Label, t: nat, o: Option<B.Turn>): Option<B.Turn> {
    if l.Bridge? && l.b.Open? && l.b.t == t then Some(B.Turn(l.b.rid, l.b.chat, l.b.text, B.Opened)) else o
  }

  lemma OpeningStep(run: Run, t: nat)
    requires run != []
    ensures R.OpeningOf(BridgeRun(run), t) == OpenedBy(Last(run), t, R.OpeningOf(BridgeRun(Front(run)), t))
  {
    var front, b := BridgeRun(Front(run)), BridgeStep(Last(run));
    if b == [] {
      assert BridgeRun(run) == front;
    } else {
      assert b == [b[0]] && Front(BridgeRun(run)) == front && Last(BridgeRun(run)) == b[0];
    }
  }

  lemma FitsStep(s: State, l: Label, t: nat)
    requires Enabled(s, l) && Fits(s, t) && ChatFits(s, t)
    ensures Fits(Apply(s, l), t)
  {
    if t in s.home {
      var cl := ClientStep(l, s.home[t], s.home);
      if cl != [] {
        C.TaskStep(s.conns[s.home[t]], cl[0], t);
      }
    }
  }

  lemma {:induction false} ChatsFit(run: Run, t: nat)
    requires Valid(run)
    ensures Fits(After(run), t)
  {
    if run != [] {
      ChatsFit(Front(run), t);
      ChatsAreTasks(Front(run), t);
      FitsStep(After(Front(run)), Last(run), t);
    }
  }

  lemma OpenedStep(s: State, l: Label, t: nat, o: Option<B.Turn>)
    requires Enabled(s, l) && Fits(s, t) && OpenedFor(s, t, o)
    ensures OpenedFor(Apply(s, l), t, OpenedBy(l, t, o))
  {
  }

  lemma {:induction false} TurnsAreOpenedFor(run: Run, t: nat)
    requires Valid(run)
    ensures OpenedFor(After(run), t, R.OpeningOf(BridgeRun(run), t))
  {
    if run != [] {
      TurnsAreOpenedFor(Front(run), t);
      ChatsFit(Front(run), t);
      OpeningStep(run, t);
      OpenedStep(After(Front(run)), Last(run), t, R.OpeningOf(BridgeRun(Front(run)), t));
    }
  }

  // ---------- frames ----------

  /** The frame carries the text and the id of a request that some client made, to the session it named. */
  predicate Carries(run: Run, frame: Bridge.Inbound) {
    exists l :: l in run && l.StartChat? && Serves(l.request, frame.chat, frame.text)
      && frame.messageId == l.request.requestId
  }

  lemma {:induction false} PushedIsOpened(run: B.Run, t: nat, ok: bool, frame: Bridge.Inbound)
    requires B.Valid(run) && B.Push(t, ok, frame) in run
    ensures R.OpeningOf(run, t).Some?
    ensures var o := R.OpeningOf(run, t).value; frame == Bridge.Inbound(o.chat, o.text, o.rid)
  {
    var front := Front(run);
    assert run == front + [Last(run)];
    R.TurnIsKnown(front, t);
    if Last(run) == B.Push(t, ok, frame) {
      R.EveryStepIsTold(front, Last(run));
    } else {
      PushedIsOpened(front, t, ok, frame);
    }
  }

  lemma {:induction false} AcceptedIsPushed(run: B.Run, a: nat, frame: Bridge.Inbound)
    requires frame in B.Accepted(run, a)
    ensures exists t :: B.Push(t, true, frame) in run
  {
    var front, l := Front(run), Last(run);
    assert run == front + [l];
    if frame in B.Accepted(front, a) {
      AcceptedIsPushed(front, a, frame);
      var t :| B.Push(t, true, frame) in front;
      assert B.Push(t, true, frame) in run;
    } else {
      assert l == B.Push(l.t, true, frame);
    }
  }

  /** Whatever frame an adapter was sent, some client asked for it: with this text, id and session. */
  lemma FramesAreAsked(run: Run, a: nat, frame: Bridge.Inbound)
    requires Valid(run) && frame in B.Transmitted(BridgeRun(run), a)
    ensures Carries(run, frame)
  {
    var bridge := BridgeRun(run);
    ProjectsToTheBridge(run);
    B.InboundConservation(bridge, a);
    assert B.Transmitted(bridge, a) <= B.Accepted(bridge, a);
    AcceptedIsPushed(bridge, a, frame);
    var t :| B.Push(t, true, frame) in bridge;
    PushedIsOpened(bridge, t, true, frame);
    TurnsAreOpenedFor(run, t);
    AskedIsAsked(run, t);
  }
}
