/** `hermes-dms-ctl chat`: the consumer of one request's answers. */
module Ctl {
  import opened Common
  import P = Protocol
  import Turns

  /** `Waiting`: the messages read so far have not ended the command. */
  datatype Verdict = Waiting | Succeeded | FailedWith(message: string)

  datatype Outcome = Outcome(printed: string, verdict: Verdict)

  /** The messages the command reacts to. */
  predicate Relevant(rid: string, m: P.DaemonMessage) {
    match m
    case Delta(id, _) => id == rid
    case ChatComplete(id, _) => id == rid
    case Error(id, _) => id == None || id == Some(rid)
    case _ => false
  }

  /** Print deltas; stop at the first completion or error. */
  function RunChat(rid: string, ms: seq<P.DaemonMessage>): Outcome {
    if ms == [] then Outcome("", Waiting)
    else if !Relevant(rid, ms[0]) then RunChat(rid, ms[1..])
    else match ms[0]
      case Delta(_, text) =>
        var rest := RunChat(rid, ms[1..]);
        rest.(printed := text + rest.printed)
      case ChatComplete(_, text) => Outcome(text + "\n", Succeeded)
      case Error(_, text) => Outcome("", FailedWith(text))
      case _ => Outcome("", Waiting)
  }

  function Filter(rid: string, ms: seq<P.DaemonMessage>): seq<P.DaemonMessage> {
    if ms == [] then []
    else (if Relevant(rid, ms[0]) then [ms[0]] else []) + Filter(rid, ms[1..])
  }

  /** The command's loop; `closed` says that the stream ends after these messages. */
  method RunChatLoop(rid: string, ms: seq<P.DaemonMessage>, closed: bool) returns (stdout: string, verdict: Verdict)
    ensures
      var o := RunChat(rid, ms);
      && stdout == o.printed
      && verdict == if o.verdict.Waiting? && closed
                    then FailedWith("daemon closed the connection before completing") else o.verdict
  {
    stdout := "";
    var i := 0;
    while i < |ms|
      invariant i <= |ms|
      invariant RunChat(rid, ms) == RunChat(rid, ms[i..]).(printed := stdout + RunChat(rid, ms[i..]).printed)
    {
      assert ms[i..][0] == ms[i] && ms[i..][1..] == ms[i + 1..];
      match ms[i] {
      case Delta(id, content) =>
        if id == rid {
          var rest := RunChat(rid, ms[i + 1..]).printed;
          assert stdout + (content + rest) == (stdout + content) + rest;
          stdout := stdout + content;
        }
      case ChatComplete(id, content) =>
        if id == rid {
          if content != "" {
            stdout := stdout + content;
          }
          stdout := stdout + "\n";
          return stdout, Succeeded;
        }
      case Error(id, message) =>
        if id == None || id == Some(rid) {
          return stdout, FailedWith(message);
        }
      case _ =>
      }
      i := i + 1;
    }
    verdict := if closed then FailedWith("daemon closed the connection before completing") else Waiting;
  }

  /** Only the relevant messages matter. */
  lemma {:induction false} RunChatSeesOnlyTheRelevant(rid: string, ms: seq<P.DaemonMessage>)
    ensures RunChat(rid, ms) == RunChat(rid, Filter(rid, ms))
  {
    if ms != [] {
      RunChatSeesOnlyTheRelevant(rid, ms[1..]);
      if Relevant(rid, ms[0]) {
        assert Filter(rid, ms)[1..] == Filter(rid, ms[1..]);
      } else {
        assert Filter(rid, ms) == Filter(rid, ms[1..]);
      }
    }
  }

  lemma FilterOne(rid: string, m: P.DaemonMessage)
    ensures Filter(rid, [m]) == if Relevant(rid, m) then [m] else []
  {
    assert [m][1..] == [];
  }

  lemma {:induction false} FilterAppend(rid: string, a: seq<P.DaemonMessage>, b: seq<P.DaemonMessage>)
    ensures Filter(rid, a + b) == Filter(rid, a) + Filter(rid, b)
  {
    if a == [] {
      assert a + b == b;
    } else {
      var mine := if Relevant(rid, a[0]) then [a[0]] else [];
      assert (a + b)[1..] == a[1..] + b;
      FilterAppend(rid, a[1..], b);
      Associate(mine, Filter(rid, a[1..]), Filter(rid, b));
    }
  }

  /** A stream of drafts that ends in at most one terminal prints the completion, or nothing at all. */
  function OutcomeOf(ms: seq<P.DaemonMessage>): Outcome {
    if ms == [] then Outcome("", Waiting)
    else match Last(ms)
      case ChatComplete(_, text) => Outcome(text + "\n", Succeeded)
      case Error(_, text) => Outcome("", FailedWith(text))
      case _ => Outcome("", Waiting)
  }

  lemma {:induction false} RunChatOnAStream(rid: string, ms: seq<P.DaemonMessage>)
    requires Turns.Stream(rid, ms)
    ensures RunChat(rid, ms) == OutcomeOf(ms)
  {
    if ms != [] {
      assert ms[0] in ms;
      if ms[1..] != [] {
        assert Last(ms[1..]) == Last(ms);
      }
      RunChatOnAStream(rid, ms[1..]);
    }
  }

  /** Without deltas of its request the command prints only when it succeeds. */
  lemma {:induction false} OnlySuccessPrints(rid: string, ms: seq<P.DaemonMessage>)
    requires forall m :: m in ms ==> !(m.Delta? && m.requestId == rid)
    ensures !RunChat(rid, ms).verdict.Succeeded? ==> RunChat(rid, ms).printed == ""
  {
    if ms != [] {
      assert ms[0] in ms;
      OnlySuccessPrints(rid, ms[1..]);
    }
  }

  /** The message ends the command. */
  predicate Ends(rid: string, m: P.DaemonMessage) {
    (m.ChatComplete? && m.requestId == rid) || (m.Error? && (m.correlation == None || m.correlation == Some(rid)))
  }

  /** The first message that ends the command, or the number of all. */
  predicate IsEnd(rid: string, ms: seq<P.DaemonMessage>, n: nat) {
    n <= |ms| && (forall i :: 0 <= i < n ==> !Ends(rid, ms[i])) && (n < |ms| ==> Ends(rid, ms[n]))
  }

  /** The text of the request's deltas, put together. */
  function DeltaText(rid: string, ms: seq<P.DaemonMessage>): string {
    if ms == [] then ""
    else (if ms[0].Delta? && ms[0].requestId == rid then ms[0].content else "") + DeltaText(rid, ms[1..])
  }

  lemma NoMoreText(text: string)
    ensures "" + text == text && text + "" == text
  {
  }

  /**
   What the command prints: every delta of its request up to the message that ends it, then, if that
   is a completion, its text and a newline; and its verdict is what that message says.
   */
  lemma {:induction false} PrintsUpToTheEnd(rid: string, ms: seq<P.DaemonMessage>, n: nat)
    requires IsEnd(rid, ms, n)
    ensures
      var o := RunChat(rid, ms);
      if n == |ms| then o == Outcome(DeltaText(rid, ms), Waiting)
      else if ms[n].ChatComplete? then o == Outcome(DeltaText(rid, ms[..n]) + (ms[n].content + "\n"), Succeeded)
      else ms[n].Error? && o == Outcome(DeltaText(rid, ms[..n]), FailedWith(ms[n].message))
  {
    if n > 0 {
      assert forall i :: 0 <= i < n - 1 ==> ms[1..][i] == ms[i + 1];
      PrintsUpToTheEnd(rid, ms[1..], n - 1);
      assert ms[..n][1..] == ms[1..][..n - 1] && !Ends(rid, ms[0]);
      var text := if ms[0].Delta? && ms[0].requestId == rid then ms[0].content else "";
      var rest := RunChat(rid, ms[1..]).printed;
      assert RunChat(rid, ms) == RunChat(rid, ms[1..]).(printed := text + rest) by { NoMoreText(rest); }
      if n < |ms| && ms[n].ChatComplete? {
        Associate(text, DeltaText(rid, ms[1..][..n - 1]), ms[n].content + "\n");
      }
    } else if ms != [] {
      assert ms[..0] == [];
      NoMoreText(RunChat(rid, ms).printed);
    }
  }
}
