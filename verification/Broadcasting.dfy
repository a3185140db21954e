/** From the daemon's broadcasts to what a subscribed client hears and believes. */
module Broadcasting {
  import opened Common
  import opened Daemon
  import Delivery
  import Health

  /** What the daemon has broadcast since it accepted connection `c`. */
  function Since(run: Run, c: nat): seq<P.DaemonMessage> {
    if run == [] || Last(run) == Accept(c) then []
    else Since(Front(run), c) + if Last(run).Broadcast? && Accept(c) in Front(run) then [Last(run).m] else []
  }

  lemma NoOtherSource(s: State, l: Label)
    requires Enabled(s, l)
    ensures l.Client? ==> !l.l.Broadcast?
  {
  }

  lemma OneBroadcast(l: Label, c: nat, home: map<nat, nat>)
    requires l.Client? ==> !l.l.Broadcast?
    ensures |ClientStep(l, c, home)| <= 1
    ensures C.Broadcasts(ClientStep(l, c, home)) == if l.Broadcast? then [l.m] else []
  {
    var step := ClientStep(l, c, home);
    if step != [] {
      assert Front(step) == [];
    }
  }

  lemma OneMore(conn: C.Run, l: Label, c: nat, home: map<nat, nat>)
    requires l.Client? ==> !l.l.Broadcast?
    ensures C.Broadcasts(conn + ClientStep(l, c, home)) ==
            C.Broadcasts(conn) + if l.Broadcast? then [l.m] else []
  {
    OneBroadcast(l, c, home);
    C.OneMoreStep(conn, ClientStep(l, c, home));
  }

  /** Every broadcast is put to every connection that was accepted before it. */
  lemma {:induction false} EveryConnectionIsTold(run: Run, c: nat)
    requires Valid(run) && c in After(run).conns
    ensures C.Broadcasts(ClientRun(run, c)) == Since(run, c)
  {
    if Last(run) != Accept(c) {
      var s, l := After(Front(run)), Last(run);
      ClientUnroll(run, c);
      NoOtherSource(s, l);
      OneMore(ClientRun(Front(run), c), l, c, s.home);
      HomesAreKnown(Front(run));
      EveryConnectionIsTold(Front(run), c);
    }
  }

  /**
   A client that subscribed before anything was broadcast, and never lagged, has heard the daemon's
   broadcasts since its connection was accepted, in order, up to the last one it heard.
   */
  lemma SubscriberHearsTheDaemon(run: Run, c: nat)
    requires Valid(run) && c in After(run).conns
    requires Delivery.SubscribedFirst(ClientRun(run, c)) && C.Skip !in ClientRun(run, c)
    ensures
      var conn := ClientRun(run, c);
      Delivery.Hears(conn) <= |Since(run, c)| && Delivery.Heard(C.Wire(conn)) == Since(run, c)[..Delivery.Hears(conn)]
  {
    ProjectsToEachConnection(run, c);
    EveryConnectionIsTold(run, c);
    Delivery.SubscriberHearsEverything(ClientRun(run, c));
  }

  /** Statuses of the loop, cut off anywhere, are the statuses of a loop that has made fewer probes. */
  lemma {:induction false} FewerProbes(probes: seq<bool>, n: nat) returns (k: nat)
    requires n <= |Health.Statuses(probes)|
    ensures k <= |probes| && Health.Statuses(probes[..k]) == Health.Statuses(probes)[..n]
  {
    if n == |Health.Statuses(probes)| {
      k := |probes|;
      assert probes[..k] == probes;
    } else {
      k := FewerProbes(Front(probes), n);
      assert probes[..k] == Front(probes)[..k];
    }
  }

  /**
   If the daemon broadcasts nothing but the statuses of its health loop, such a client believes
   what the loop found at some probe: the one behind the last status it heard.
   */
  lemma SubscriberKnowsTheFlag(run: Run, c: nat, probes: seq<bool>) returns (k: nat)
    requires Valid(run) && c in After(run).conns && Since(run, c) == Health.Statuses(probes)
    requires Delivery.SubscribedFirst(ClientRun(run, c)) && C.Skip !in ClientRun(run, c)
    ensures k <= |probes| && Health.Replay(Delivery.Heard(C.Wire(ClientRun(run, c)))) == Health.Flag(probes[..k])
    ensures Delivery.Hears(ClientRun(run, c)) == |Since(run, c)| ==>
              Health.Replay(Delivery.Heard(C.Wire(ClientRun(run, c)))) == Health.Flag(probes)
  {
    SubscriberHearsTheDaemon(run, c);
    k := FewerProbes(probes, Delivery.Hears(ClientRun(run, c)));
    Health.StatusesTellTheFlag(probes[..k]);
    Health.StatusesTellTheFlag(probes);
  }
}
