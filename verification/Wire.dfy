/** The one-shot command again, reading characters instead of messages. */
module Wire {
  import opened Common
  import opened Lines
  import B = Turns
  import C = Connection
  import D = Daemon
  import Ctl

  function Pieces(ms: seq<P.DaemonMessage>): (r: seq<Piece<P.DaemonMessage>>)
    ensures |r| == |ms| && forall i :: 0 <= i < |ms| ==> r[i] == Message(ms[i])
  {
    seq(|ms|, i requires 0 <= i < |ms| => Message(ms[i]))
  }

  /** What the writer task puts on the socket for these messages. */
  function Text(ms: seq<P.DaemonMessage>): string {
    Written(Pieces(ms), DaemonLine)
  }

  /** What a client reads that stops at the first line it cannot decode. */
  function Received(entries: seq<Option<P.DaemonMessage>>): seq<P.DaemonMessage> {
    if entries == [] || entries[0].None? then [] else [entries[0].value] + Received(entries[1..])
  }

  predicate AllFit(ms: seq<P.DaemonMessage>) {
    forall i :: 0 <= i < |ms| ==> Codec.Fits(ms[i])
  }

  lemma {:induction false} FoundMessages(ms: seq<P.DaemonMessage>)
    ensures |Found(Pieces(ms))| == |ms| && forall i :: 0 <= i < |ms| ==> Found(Pieces(ms))[i] == Some(ms[i])
  {
    if ms != [] {
      assert Pieces(ms)[1..] == Pieces(ms[1..]);
      FoundMessages(ms[1..]);
    }
  }

  lemma {:induction false} ReceivesPrefix(entries: seq<Option<P.DaemonMessage>>, n: nat, ms: seq<P.DaemonMessage>)
    requires n <= |entries| && n <= |ms| && forall i :: 0 <= i < n ==> entries[i] == Some(ms[i])
    requires n == |entries| || (n + 1 == |entries| && entries[n].None?)
    ensures Received(entries) == ms[..n]
  {
    if n > 0 {
      ReceivesPrefix(entries[1..], n - 1, ms[1..]);
      assert ms[..n] == [ms[0]] + ms[1..][..n - 1];
    }
  }

  /** However much of the text arrives, the client reads a prefix of the messages; from all of it, all of them. */
  lemma ReceivedIsPrefix(ms: seq<P.DaemonMessage>, cut: string)
    requires AllFit(ms) && cut <= Text(ms)
    ensures Received(Decoded(cut, ReadDaemonLine)) <= ms
    ensures cut == Text(ms) ==> Received(Decoded(cut, ReadDaemonLine)) == ms
  {
    var entries, all := Decoded(cut, ReadDaemonLine), Found(Pieces(ms));
    FoundMessages(ms);
    DaemonStreamBrokenOff(Pieces(ms), cut);
    if cut == Text(ms) {
      DaemonStreamRoundTrip(Pieces(ms));
    }
    var n := if entries <= all then |entries| else |entries| - 1;
    assert entries <= all ==> forall i :: 0 <= i < n ==> entries[i] == all[i];
    assert !(entries <= all) ==> forall i :: 0 <= i < n ==> entries[i] == Front(entries)[i] == all[i];
    ReceivesPrefix(entries, n, ms);
    assert ms[..|ms|] == ms;
  }

  /** Reading on does not change a verdict. */
  lemma {:induction false} VerdictStands(rid: string, early: seq<P.DaemonMessage>, late: seq<P.DaemonMessage>)
    requires early <= late && !Ctl.RunChat(rid, early).verdict.Waiting?
    ensures Ctl.RunChat(rid, early) == Ctl.RunChat(rid, late)
  {
    assert late[0] == early[0] && early[1..] <= late[1..];
    if !Ctl.Relevant(rid, early[0]) || early[0].Delta? {
      VerdictStands(rid, early[1..], late[1..]);
    }
  }

  /** On any beginning of messages without deltas, success is the success on all of them, and nothing else prints. */
  lemma EarlyOutcome(rid: string, read: seq<P.DaemonMessage>, ms: seq<P.DaemonMessage>)
    requires read <= ms && forall m :: m in ms ==> !(m.Delta? && m.requestId == rid)
    ensures
      var o := Ctl.RunChat(rid, read);
      if o.verdict.Succeeded? then o == Ctl.RunChat(rid, ms) else o.printed == ""
  {
    if Ctl.RunChat(rid, read).verdict.Succeeded? {
      VerdictStands(rid, read, ms);
    } else {
      forall m | m in read
        ensures m in ms
      {
        var i :| 0 <= i < |read| && read[i] == m;
        assert ms[i] == m;
      }
      Ctl.OnlySuccessPrints(rid, read);
    }
  }

  /**
   `hermes-dms-ctl chat` on whatever part of the daemon's output reaches it: if it succeeds, it has
   printed the first final text that the adapter sent for the chat, and a newline; if it does not, it
   has printed nothing; and on all the output of a finished writer it has its verdict.
   */
  lemma OneShotOverText(run: D.Run, t: nat, cut: string)
    requires D.Valid(run) && D.Sole(run, t)
    requires AllFit(C.MessagesOf(C.Wire(D.ClientRun(run, D.After(run).home[t]))))
    requires cut <= Text(C.MessagesOf(C.Wire(D.ClientRun(run, D.After(run).home[t]))))
    ensures
      var s := D.After(run);
      var ms := C.MessagesOf(C.Wire(D.ClientRun(run, s.home[t])));
      var heard := B.AccountOf(D.BridgeRun(run), t).heard;
      var o := Ctl.RunChat(s.bridge.turns[t].rid, Received(Decoded(cut, ReadDaemonLine)));
      && (o.verdict.Succeeded? ==> B.HasSend(heard) && o.printed == B.FirstSend(heard) + "\n")
      && (!o.verdict.Succeeded? ==> o.printed == "")
      && (s.conns[s.home[t]].writer.Finished? && cut == Text(ms) ==> !o.verdict.Waiting?)
  {
    var rid, ms := D.After(run).bridge.turns[t].rid, C.MessagesOf(C.Wire(D.ClientRun(run, D.After(run).home[t])));
    ReceivedIsPrefix(ms, cut);
    D.OneShotEndToEnd(run, t);
    forall m | m in ms
      ensures !(m.Delta? && m.requestId == rid)
    {
      D.NoDeltas(run, t, m);
    }
    EarlyOutcome(rid, Received(Decoded(cut, ReadDaemonLine)), ms);
  }
}
