/** The loop that probes Hermes and broadcasts a status on every change. */
module Health {
  import opened Common
  import P = Protocol
  import D = Daemon

  function StatusOf(up: bool): P.DaemonMessage {
    P.Status(if up then P.CONNECTED else P.DISCONNECTED, P.READY, None)
  }

  /** The flag after these probes; the daemon starts out disconnected. */
  function Flag(probes: seq<bool>): bool {
    probes != [] && Last(probes)
  }

  /** The broadcasts of the loop. */
  function Statuses(probes: seq<bool>): seq<P.DaemonMessage> {
    if probes == [] then []
    else
      var up := Last(probes);
      Statuses(Front(probes)) + if up != Flag(Front(probes)) then [StatusOf(up)] else []
  }

  /** How often a probe differs from the flag before it. */
  function Changes(probes: seq<bool>): nat {
    |set i | 0 <= i < |probes| && probes[i] != Flag(probes[..i])|
  }

  /** What a subscriber that hears every status believes. */
  function Replay(events: seq<P.DaemonMessage>): bool {
    events != [] && Last(events).Status? && Last(events).hermes == P.CONNECTED
  }

  /** `health_loop` over a sequence of probe results. */
  method HealthLoop(probes: seq<bool>) returns (up: bool, events: seq<P.DaemonMessage>)
    ensures up == Flag(probes) && events == Statuses(probes)
  {
    up, events := false, [];
    var n := 0;
    while n < |probes|
      invariant n <= |probes|
      invariant up == Flag(probes[..n]) && events == Statuses(probes[..n])
    {
      var was := up;
      up := probes[n];
      assert Front(probes[..n + 1]) == probes[..n];
      if up != was {
        events := events + [P.Status(if up then P.CONNECTED else P.DISCONNECTED, P.READY, None)];
      }
      n := n + 1;
    }
    assert probes[..n] == probes;
  }

  lemma {:induction false} ChangesSnoc(probes: seq<bool>)
    requires probes != []
    ensures Changes(probes) == Changes(Front(probes)) + if Last(probes) != Flag(Front(probes)) then 1 else 0
  {
    var front := Front(probes);
    assert forall i :: 0 <= i <= |front| ==> probes[..i] == front[..i];
    var all := set i | 0 <= i < |probes| && probes[i] != Flag(probes[..i]);
    var earlier := set i | 0 <= i < |front| && front[i] != Flag(front[..i]);
    assert front[..|front|] == front;
    assert all == if Last(probes) != Flag(front) then earlier + {|front|} else earlier;
  }

  /**
   For every probe sequence: one status per change, alternating and starting with "connected", and
   whoever replays them knows the stored flag.
   */
  lemma {:induction false} StatusesTellTheFlag(probes: seq<bool>)
    ensures |Statuses(probes)| == Changes(probes)
    ensures forall i :: 0 <= i < |Statuses(probes)| ==> Statuses(probes)[i] == StatusOf(i % 2 == 0)
    ensures Flag(probes) <==> |Statuses(probes)| % 2 == 1
    ensures Replay(Statuses(probes)) == Flag(probes)
  {
    if probes != [] {
      StatusesTellTheFlag(Front(probes));
      ChangesSnoc(probes);
    }
    StatusesDiffer();
  }

  lemma StatusesDiffer()
    ensures StatusOf(true).hermes == P.CONNECTED != StatusOf(false).hermes
  {
    assert |P.CONNECTED| != |P.DISCONNECTED|;
  }

  /** Every status of the loop can be broadcast: it says that the daemon is ready, and answers no request. */
  lemma {:induction false} StatusesAreBroadcastable(probes: seq<bool>)
    ensures forall m :: m in Statuses(probes) ==>
      && D.Broadcastable(m) && m.Status? && m.daemon == "ready" && m.correlation == None
      && (m.hermes == "connected" || m.hermes == "disconnected")
  {
    if probes != [] {
      StatusesAreBroadcastable(Front(probes));
    }
  }
}
