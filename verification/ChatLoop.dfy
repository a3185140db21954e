/** `chat_via_bridge` as the one task that runs it sees it: a push, then a select loop. */
module ChatLoop {
  import opened Common
  import opened Bridge
  import P = Protocol
  import T = Turns

  /** What one select of the loop resolves to. */
  datatype Outcome = Got(frame: Frame) | Ended | CancelSeen

  /** The frames among the outcomes. */
  function Frames(os: seq<Outcome>): seq<Frame> {
    if os == [] then [] else Frames(Front(os)) + if Last(os).Got? then [Last(os).frame] else []
  }

  function FaultOf(o: Outcome): seq<string> {
    match o
    case Got(_) => []
    case Ended => [T.DISCONNECTED]
    case CancelSeen => [T.CANCELLED]
  }

  /** The failures among the outcomes. */
  function Faults(os: seq<Outcome>): seq<string> {
    if os == [] then []
    else Faults(Front(os)) + FaultOf(Last(os))
  }

  lemma OneMore(os: seq<Outcome>, o: Outcome)
    ensures Frames(os + [o]) == if o.Got? then Frames(os) + [o.frame] else Frames(os)
    ensures Faults(os) == [] ==> Faults(os + [o]) == FaultOf(o)
  {
    assert Front(os + [o]) == os;
  }

  /** The loop goes on after this outcome. */
  predicate Continues(o: Outcome) {
    o.Got? && !o.frame.Send?
  }

  /** What one outcome makes the loop send. */
  function Answer(rid: string, o: Outcome): seq<P.DaemonMessage> {
    match o
    case Got(Draft(_, text)) => [P.Draft(rid, text)]
    case Got(Send(_, text)) => [P.ChatComplete(rid, text)]
    case Got(Typing(_)) => []
    case Ended => [T.Failure(rid, T.DISCONNECTED)]
    case CancelSeen => [T.Failure(rid, T.CANCELLED)]
  }

  function Answers(rid: string, os: seq<Outcome>): seq<P.DaemonMessage> {
    if os == [] then [] else Answers(rid, Front(os)) + Answer(rid, Last(os))
  }

  /** `chat_via_bridge` over the outcomes of its selects. */
  method ChatViaBridge(rid: string, accepted: bool, outcomes: seq<Outcome>)
    returns (sent: seq<P.DaemonMessage>, used: nat)
    ensures used <= |outcomes|
    ensures !accepted ==> used == 0 && sent == [T.Failure(rid, T.OFFLINE)]
    ensures accepted ==> sent == Answers(rid, outcomes[..used])
    ensures forall i :: 0 <= i < used - 1 ==> Continues(outcomes[i])
    ensures accepted && used < |outcomes| ==> used > 0 && !Continues(outcomes[used - 1])
  {
    sent, used := [], 0;
    if !accepted {
      return [T.Failure(rid, T.OFFLINE)], 0;
    }
    while used < |outcomes|
      invariant used <= |outcomes|
      invariant forall i :: 0 <= i < used ==> Continues(outcomes[i])
      invariant sent == Answers(rid, outcomes[..used])
    {
      assert Front(outcomes[..used + 1]) == outcomes[..used];
      var o := outcomes[used];
      used := used + 1;
      match o {
      case CancelSeen =>
        sent := sent + [T.Failure(rid, T.CANCELLED)];
        return;
      case Ended =>
        sent := sent + [T.Failure(rid, T.DISCONNECTED)];
        return;
      case Got(Draft(_, text)) =>
        sent := sent + [P.Draft(rid, text)];
      case Got(Send(_, text)) =>
        sent := sent + [P.ChatComplete(rid, text)];
        return;
      case Got(Typing(_)) =>
      }
    }
  }

  lemma {:induction false} NothingFinalWhileItContinues(os: seq<Outcome>)
    requires forall o :: o in os ==> Continues(o)
    ensures !T.HasSend(Frames(os)) && Faults(os) == []
  {
    if os != [] {
      assert os == Front(os) + [Last(os)] && Last(os) in os;
      NothingFinalWhileItContinues(Front(os));
      OneMore(Front(os), Last(os));
    }
  }

  lemma OneMoreAnswer(rid: string, fs: seq<Frame>, o: Outcome)
    requires !T.HasSend(fs)
    ensures T.Relay(rid, fs) + Answer(rid, o) ==
            T.Expected(rid, if o.Got? then fs + [o.frame] else fs, FaultOf(o))
  {
    if o.Got? {
      T.RelaySnoc(rid, fs, o.frame);
    }
  }

  /**
   The loop answers as the interleaved turns do: the relay of the frames it received, then its
   failure, if that is how it ended.
   */
  lemma {:induction false} TheLoopAnswersAsTheTurnsDo(rid: string, os: seq<Outcome>)
    requires forall i :: 0 <= i < |os| - 1 ==> Continues(os[i])
    ensures Answers(rid, os) == T.Expected(rid, Frames(os), Faults(os))
  {
    if os != [] {
      var front, o := Front(os), Last(os);
      assert os == front + [o];
      TheLoopAnswersAsTheTurnsDo(rid, front);
      NothingFinalWhileItContinues(front);
      OneMore(front, o);
      OneMoreAnswer(rid, Frames(front), o);
      assert T.Expected(rid, Frames(front), []) == T.Relay(rid, Frames(front));
    }
  }
}
