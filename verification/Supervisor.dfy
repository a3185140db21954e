/** The desktop adapter's side of the bridge: one socket, kept alive by a supervisor with backoff. */
module Supervisor {
  import opened Common

  /** What the supervisor does; a dial records the `_closing` flag at the moment it starts. */
  datatype Act =
    | Pump
    | Dial(ok: bool, closing: bool)
    | Sleep(seconds: nat)
    | MarkConnected
    | MarkDisconnected

  /** How an `await` came back: the result of a dial, and `_closing` as the supervisor finds it then. */
  datatype Await = Await(ok: bool, closing: bool)

  function Pow2(k: nat): nat {
    if k == 0 then 1 else 2 * Pow2(k - 1)
  }

  /** The delay after the `k`-th consecutive failed dial, counted from 0. */
  function Delay(k: nat): nat {
    Min(5 * Pow2(k), 60)
  }

  /** How many dials have failed since the last successful one, or since the start. */
  function Failures(acts: seq<Act>): nat {
    if acts == [] then 0
    else if !Last(acts).Dial? then Failures(Front(acts))
    else if Last(acts).ok then 0
    else Failures(Front(acts)) + 1
  }

  predicate EndsInFailedDial(acts: seq<Act>) {
    acts != [] && Last(acts).Dial? && !Last(acts).ok
  }

  /** How many awaits the acts make. */
  function Awaits(acts: seq<Act>): nat {
    if acts == [] then 0
    else Awaits(Front(acts)) + if Last(acts).Pump? || Last(acts).Dial? || Last(acts).Sleep? then 1 else 0
  }

  /** How the supervisor's awaits come back, from a given start; it is cancelled in the await after the last. */
  datatype Course = Course(ws: bool, closing: bool, awaits: seq<Await>) {
    /** `_closing` once `n` awaits are over. */
    predicate Closing(n: nat)
      requires n <= |awaits|
    {
      if n == 0 then closing else awaits[n - 1].closing
    }

    /** `act` comes next after `before`, whose awaits are over. */
    predicate Due(before: seq<Act>, act: Act) {
      var n := Awaits(before);
      n <= |awaits| &&
      match act
      case Pump => !Closing(n) && (if before == [] then ws else Last(before).MarkConnected?)
      case MarkDisconnected => !Closing(n) && before != [] && Last(before).Pump?
      case Dial(ok, now) =>
        && !Closing(n) && !now && n < |awaits| && ok == awaits[n].ok
        && (if before == [] then !ws else Last(before).MarkDisconnected? || Last(before).Sleep?)
      case MarkConnected => before != [] && Last(before).Dial? && Last(before).ok
      case Sleep(seconds) => EndsInFailedDial(before) && seconds == Delay(Failures(before) - 1)
    }

    predicate DueAt(acts: seq<Act>, p: nat)
      requires p < |acts|
    {
      Due(acts[..p], acts[p])
    }

    predicate Trace(acts: seq<Act>) {
      forall p :: 0 <= p < |acts| ==> DueAt(acts, p)
    }

    /** No act can follow. */
    ghost predicate Over(acts: seq<Act>) {
      forall act :: !Trace(acts + [act])
    }

    /** The trace is over, with this value of `_closing` at the end. */
    ghost predicate Ended(acts: seq<Act>, now: bool) {
      Trace(acts) && Over(acts) && now == Closing(Min(Awaits(acts), |awaits|))
    }

    /** `n` awaits are over, the socket is up or not, and what was begun is marked. */
    ghost predicate Reached(acts: seq<Act>, n: nat, up: bool, backoff: nat) {
      && Trace(acts) && Awaits(acts) == n <= |awaits| && backoff == Delay(Failures(acts))
      && if acts == [] then up == ws else if up then Last(acts).MarkConnected?
         else Last(acts).MarkDisconnected? || Last(acts).Sleep?
    }

    /** The pump runs, or has just returned as the `n`-th await. */
    ghost predicate Pumping(acts: seq<Act>, n: nat, backoff: nat) {
      && Trace(acts) && Awaits(acts) == n <= |awaits| + 1 && backoff == Delay(Failures(acts))
      && acts != [] && Last(acts).Pump?
    }
  }

  class DesktopAdapter {
    var ws: bool
    var closing: bool
    var supervised: bool // a supervisor task exists and has not been cancelled

    constructor ()
      ensures !ws && !closing && !supervised
    {
      ws, closing, supervised := false, false, false;
    }

    method Dial(ok: bool)
      modifies this`ws
      ensures ws == ok
    {
      ws := ok;
    }

    /** The first dial; a failed one leaves the retrying to the supervisor. */
    method Connect(ok: bool) returns (acts: seq<Act>)
      modifies this
      ensures !closing && ws == ok && supervised
      ensures acts == [Act.Dial(ok, false)] + if ok then [MarkConnected] else []
    {
      closing := false;
      acts := [Act.Dial(ok, closing)];
      Dial(ok);
      if ok {
        acts := acts + [MarkConnected];
      }
      supervised := true;
    }

    /** The supervisor is cancelled before the socket is closed. */
    method Disconnect()
      modifies this
      ensures closing && !ws && !supervised
    {
      closing := true;
      supervised := false;
      ws := false;
    }

    /** A dial, and the mark that follows it or the delay, in which the supervisor may be cancelled. */
    method Redial(ghost course: Course, before: seq<Act>, script: seq<Await>, from: nat, delay: nat)
        returns (acts: seq<Act>, i: nat, backoff: nat, cancelled: bool)
      requires !closing && course.awaits == script && from < |script|
      requires course.Reached(before, from, false, delay) && !course.Closing(from)
      modifies this`ws, this`closing
      ensures from < i <= |script| && closing == course.Closing(i)
      ensures if cancelled then course.Ended(acts, closing) else course.Reached(acts, i, ws, backoff)
    {
      var ok, dial := script[from].ok, Act.Dial(script[from].ok, closing);
      Dial(ok);
      closing := script[from].closing;
      i := from + 1;
      if ok {
        acts, backoff, cancelled := before + [dial] + [MarkConnected], 5, false;
        Connects(course, before, from, delay, acts);
      } else {
        acts, backoff, cancelled := before + [dial] + [Sleep(delay)], Min(delay * 2, 60), i == |script|;
        Fails(course, before, from, delay, acts);
        if !cancelled {
          closing := script[i].closing;
          i := i + 1;
        }
      }
    }

    /**
     The supervisor's loop. Its acts are the one trace of this course that is over (`OneTrace`): it ends
     only when closing is set or the awaits are used up (`TraceEnds`).
     */
    method Supervise(script: seq<Await>) returns (acts: seq<Act>)
      modifies this`ws, this`closing
      ensures Course(old(ws), old(closing), script).Ended(acts, closing)
    {
      ghost var course := Course(ws, closing, script);
      acts := [];
      var backoff: nat := 5;
      var i := 0;
      while !closing
        invariant course.Reached(acts, i, ws, backoff) && closing == course.Closing(i)
        decreases |script| - i
      {
        ghost var before := acts;
        if ws {
          acts := acts + [Pump];
          Pumps(course, before, i, backoff, acts);
          if i == |script| { return; }
          closing := script[i].closing;
          i := i + 1;
          ws := false;
          before := acts;
          if !closing {
            acts := acts + [MarkDisconnected];
          }
          Drops(course, before, i, backoff, acts);
        }
        if closing {
          return;
        }
        Stays(course, acts, i, ws, backoff);
        if i == |script| { return; }
        var cancelled;
        acts, i, backoff, cancelled := Redial(course, acts, script, i, backoff);
        if cancelled { return; }
      }
      Stays(course, acts, i, ws, backoff);
    }
  }

  lemma Append(course: Course, acts: seq<Act>, act: Act)
    requires course.Trace(acts) && course.Due(acts, act)
    ensures course.Trace(acts + [act])
    ensures Front(acts + [act]) == acts && Last(acts + [act]) == act
    ensures Awaits(acts + [act]) == Awaits(acts) + if act.Pump? || act.Dial? || act.Sleep? then 1 else 0
    ensures Failures(acts + [act]) ==
            if !act.Dial? then Failures(acts) else if act.ok then 0 else Failures(acts) + 1
  {
    var all := acts + [act];
    assert Front(all) == acts;
    forall p | 0 <= p < |all|
      ensures course.DueAt(all, p)
    {
      assert all[..p] == acts[..p];
      if p < |acts| {
        assert course.DueAt(acts, p);
      } else {
        assert acts[..p] == acts;
      }
    }
  }

  /** Nothing is due while an await is pending or, once all are over, closing is set. */
  lemma NothingDue(course: Course, acts: seq<Act>)
    requires acts != [] ==> !Last(acts).Dial?
    requires
      || |course.awaits| < Awaits(acts)
      || course.Closing(Awaits(acts))
      || (Awaits(acts) == |course.awaits| &&
          if acts == [] then !course.ws else Last(acts).MarkDisconnected? || Last(acts).Sleep?)
    ensures course.Over(acts)
  {
    forall act
      ensures !course.Trace(acts + [act])
    {
      var all := acts + [act];
      assert all[..|acts|] == acts;
      assert !course.DueAt(all, |acts|);
    }
  }

  /** The socket is up: the pump runs until the socket drops. */
  lemma Pumps(course: Course, acts: seq<Act>, n: nat, backoff: nat, pumped: seq<Act>)
    requires course.Reached(acts, n, true, backoff) && !course.Closing(n) && pumped == acts + [Pump]
    ensures course.Pumping(pumped, n + 1, backoff)
    ensures n == |course.awaits| ==> course.Ended(pumped, false)
  {
    Append(course, acts, Pump);
    if n == |course.awaits| {
      NothingDue(course, pumped);
    }
  }

  /** The pump has returned: unless closing is set, the loss of the socket is marked. */
  lemma Drops(course: Course, acts: seq<Act>, n: nat, backoff: nat, after: seq<Act>)
    requires course.Pumping(acts, n, backoff) && n <= |course.awaits|
    requires after == if course.Closing(n) then acts else acts + [MarkDisconnected]
    ensures if course.Closing(n) then course.Ended(after, true) else course.Reached(after, n, false, backoff)
  {
    if course.Closing(n) {
      NothingDue(course, acts);
    } else {
      Append(course, acts, MarkDisconnected);
    }
  }

  /** Closing is set, or the next await is a dial that never returns. */
  lemma Stays(course: Course, acts: seq<Act>, n: nat, up: bool, backoff: nat)
    requires course.Reached(acts, n, up, backoff)
    ensures course.Closing(n) || (n == |course.awaits| && !up) ==> course.Ended(acts, course.Closing(n))
  {
    if course.Closing(n) || (n == |course.awaits| && !up) {
      NothingDue(course, acts);
    }
  }

  /** The socket is down and the next dial succeeds. */
  lemma Connects(course: Course, acts: seq<Act>, n: nat, backoff: nat, all: seq<Act>)
    requires course.Reached(acts, n, false, backoff) && n < |course.awaits| && !course.Closing(n)
    requires course.awaits[n].ok && all == acts + [Act.Dial(true, false)] + [MarkConnected]
    ensures course.Reached(all, n + 1, true, 5)
  {
    Append(course, acts, Act.Dial(true, false));
    Append(course, acts + [Act.Dial(true, false)], MarkConnected);
  }

  /** The socket is down and the next dial fails; the next backoff is twice as long, up to the cap. */
  lemma Fails(course: Course, acts: seq<Act>, n: nat, backoff: nat, all: seq<Act>)
    requires course.Reached(acts, n, false, backoff) && n < |course.awaits| && !course.Closing(n)
    requires !course.awaits[n].ok && all == acts + [Act.Dial(false, false)] + [Sleep(backoff)]
    ensures n + 1 == |course.awaits| ==> course.Ended(all, course.Closing(n + 1))
    ensures n + 1 < |course.awaits| ==> course.Reached(all, n + 2, false, Min(backoff * 2, 60))
  {
    var dialed := acts + [Act.Dial(false, false)];
    Append(course, acts, Act.Dial(false, false));
    Append(course, dialed, Sleep(backoff));
    if n + 1 == |course.awaits| {
      NothingDue(course, all);
    }
  }

  /** At most one act is due. */
  lemma OneDue(course: Course, before: seq<Act>, a: Act, b: Act)
    requires course.Due(before, a) && course.Due(before, b)
    ensures a == b
  {
  }

  lemma {:induction false} TracesAgree(course: Course, a: seq<Act>, b: seq<Act>, n: nat)
    requires course.Trace(a) && course.Trace(b) && n <= |a| && n <= |b|
    ensures a[..n] == b[..n]
  {
    if n > 0 {
      TracesAgree(course, a, b, n - 1);
      assert course.DueAt(a, n - 1) && course.DueAt(b, n - 1);
      OneDue(course, a[..n - 1], a[n - 1], b[n - 1]);
    }
  }

  lemma NotOver(course: Course, acts: seq<Act>, n: nat)
    requires course.Trace(acts) && n < |acts|
    ensures !course.Over(acts[..n])
  {
    var front := acts[..n];
    assert course.DueAt(acts, n);
    TraceFront(course, acts, n);
    Append(course, front, acts[n]);
  }

  lemma TraceFront(course: Course, acts: seq<Act>, n: nat)
    requires course.Trace(acts) && n <= |acts|
    ensures course.Trace(acts[..n])
  {
    forall p | 0 <= p < n
      ensures course.DueAt(acts[..n], p)
    {
      assert course.DueAt(acts, p) && acts[..n][..p] == acts[..p];
    }
  }

  /** A course has at most one trace that is over, and every trace is a beginning of it. */
  lemma OneTrace(course: Course, a: seq<Act>, b: seq<Act>)
    requires course.Trace(a) && course.Trace(b) && course.Over(b)
    ensures a <= b
    ensures course.Over(a) ==> a == b
  {
    if |b| < |a| {
      NotOver(course, a, |b|);
    }
    if |a| < |b| {
      NotOver(course, b, |a|);
    }
    TracesAgree(course, a, b, Min(|a|, |b|));
    assert a[..|a|] == a && b[..|b|] == b;
  }

  /** A trace is over only when closing is set or every await of the course is used up. */
  lemma TraceEnds(course: Course, acts: seq<Act>)
    requires course.Trace(acts) && course.Over(acts)
    ensures !EndsInFailedDial(acts)
    ensures |course.awaits| <= Awaits(acts) || course.Closing(Awaits(acts))
  {
    if acts != [] && Last(acts).Dial? {
      DialIsMarked(course, acts);
    }
    if Awaits(acts) < |course.awaits| && !course.Closing(Awaits(acts)) {
      SomethingIsDue(course, acts);
    }
  }

  lemma DialIsMarked(course: Course, acts: seq<Act>)
    requires course.Trace(acts) && acts != [] && Last(acts).Dial?
    ensures !course.Over(acts)
  {
    assert course.DueAt(acts, |acts| - 1) && acts[..|acts| - 1] == Front(acts);
    var next := if Last(acts).ok then MarkConnected else Sleep(Delay(Failures(acts) - 1));
    Append(course, acts, next);
  }

  lemma SomethingIsDue(course: Course, acts: seq<Act>)
    requires course.Trace(acts) && Awaits(acts) < |course.awaits| && !course.Closing(Awaits(acts))
    requires acts != [] ==> !Last(acts).Dial?
    ensures !course.Over(acts)
  {
    var dial := Act.Dial(course.awaits[Awaits(acts)].ok, false);
    var next :=
      if acts == [] then if course.ws then Pump else dial
      else match Last(acts)
        case Pump => MarkDisconnected
        case MarkConnected => Pump
        case _ => dial;
    Append(course, acts, next);
  }

  function Total(n: nat): nat {
    if n == 0 then 0 else Total(n - 1) + Delay(n - 1)
  }

  lemma {:induction false} Pow2Grows(k: nat)
    ensures 1 <= Pow2(k) && (4 <= k ==> 16 <= Pow2(k))
  {
    if k > 0 {
      Pow2Grows(k - 1);
      if k == 4 {
        assert Pow2(1) == 2 && Pow2(2) == 4 && Pow2(3) == 8;
      }
    }
  }

  /** Every delay is between 5 and 60 seconds, and `n` failures in a row wait this long in total. */
  lemma {:induction false} TotalDelay(n: nat)
    ensures 5 <= Delay(n) <= 60
    ensures Total(n) <= 60 * n
    ensures Total(n) == if n <= 4 then 5 * (Pow2(n) - 1) else 75 + 60 * (n - 4)
  {
    Pow2Grows(n);
    if n > 0 {
      TotalDelay(n - 1);
      Pow2Grows(n - 1);
      assert Pow2(1) == 2 && Pow2(2) == 4 && Pow2(3) == 8 && Pow2(4) == 16;
    }
  }

  /** How long the supervisor has slept since the last successful dial, or since the start. */
  function Waited(acts: seq<Act>): nat {
    if acts == [] then 0
    else match Last(acts)
      case Sleep(seconds) => Waited(Front(acts)) + seconds
      case Dial(ok, _) => if ok then 0 else Waited(Front(acts))
      case _ => Waited(Front(acts))
  }

  lemma {:induction false} WaitsAddUp(course: Course, acts: seq<Act>)
    requires course.Trace(acts)
    ensures Waited(acts) ==
            if EndsInFailedDial(acts) then Total(Failures(acts) - 1) else Total(Failures(acts))
    ensures EndsInFailedDial(acts) ==> 0 < Failures(acts)
  {
    if acts != [] {
      var front := Front(acts);
      assert course.DueAt(acts, |front|) && acts[..|front|] == front;
      TraceFront(course, acts, |front|);
      WaitsAddUp(course, front);
    }
  }

  /** Over every course, `n` failed dials in a row have cost exactly `Total(n)` seconds of sleep when it is over. */
  lemma FailuresWait(course: Course, acts: seq<Act>)
    requires course.Trace(acts) && course.Over(acts)
    ensures Waited(acts) == Total(Failures(acts)) <= 60 * Failures(acts)
  {
    TraceEnds(course, acts);
    WaitsAddUp(course, acts);
    TotalDelay(Failures(acts));
  }

  // ---------- dials and marks ----------

  /** A dial starts only while closing is unset, and comes out as its await did. */
  lemma DialsFollowTheCourse(course: Course, acts: seq<Act>, p: nat)
    requires course.Trace(acts) && p < |acts| && acts[p].Dial?
    ensures
      var n := Awaits(acts[..p]);
      n < |course.awaits| && !course.Closing(n) && acts[p].ok == course.awaits[n].ok && !acts[p].closing
  {
    assert course.DueAt(acts, p);
  }

  /** Whether the socket is up: a dial sets it, and the pump runs until it is down. */
  predicate IsUp(acts: seq<Act>, ws: bool) {
    if acts == [] then ws
    else match Last(acts)
      case Dial(ok, _) => ok
      case Pump => false
      case _ => IsUp(Front(acts), ws)
  }

  /** What the marks say. */
  predicate IsMarkedUp(acts: seq<Act>, ws: bool) {
    if acts == [] then ws
    else match Last(acts)
      case MarkConnected => true
      case MarkDisconnected => false
      case _ => IsMarkedUp(Front(acts), ws)
  }

  /** The marks tell whether the socket is up, but right behind a successful dial or a pump. */
  lemma {:induction false} MarksTellTheSocket(course: Course, acts: seq<Act>)
    requires course.Trace(acts)
    ensures IsMarkedUp(acts, course.ws) != IsUp(acts, course.ws) ==>
              acts != [] && (Last(acts).Pump? || (Last(acts).Dial? && Last(acts).ok))
    ensures acts != [] && Last(acts).Pump? ==> IsUp(Front(acts), course.ws) && IsMarkedUp(acts, course.ws)
    ensures acts != [] && Last(acts).Dial? ==> !IsUp(Front(acts), course.ws) && !IsMarkedUp(acts, course.ws)
    ensures acts != [] && Last(acts).MarkConnected? ==> IsUp(acts, course.ws)
    ensures acts != [] && (Last(acts).MarkDisconnected? || Last(acts).Sleep?) ==> !IsUp(acts, course.ws)
  {
    if acts != [] {
      var front := Front(acts);
      assert course.DueAt(acts, |front|) && acts[..|front|] == front;
      TraceFront(course, acts, |front|);
      MarksTellTheSocket(course, front);
    }
  }
}
