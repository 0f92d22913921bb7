/**
 * What the supervision loop promises about the events it sends and the runs it
 * starts, stated over the reference definitions of module `Supervision`.
 */
module SupervisionProperties {
  import opened Wrappers
  import opened ServerStatuses
  import opened ServerGenerators
  import opened EventLoop
  import opened Supervision

  /** `n` runs that each finish asking for a restart. */
  function Restarts(n: nat): seq<ContinueRunning> {
    if n == 0 then [] else [Continue] + Restarts(n - 1)
  }

  /** The events of `n` restarted runs: `Running`, then the restart notice, `n` times. */
  function Cycles(n: nat): seq<UserEvent> {
    if n == 0 then [] else [Status(Running), Status(Stopped(RESTART_MESSAGE))] + Cycles(n - 1)
  }

  /** How many events of `events` announce a running server. */
  function RunningCount(events: seq<UserEvent>): nat {
    if events == [] then 0
    else RunningCount(events[..|events| - 1]) + (if events[|events| - 1] == Status(Running) then 1 else 0)
  }

  /**
   * The exact trace: `n` restarts and then a terminal outcome `t` produce `n`
   * cycles of `Running` and the restart notice, then `Running` and the report of
   * `t`; the generator is invoked `n + 1` times, whatever the later runs would do.
   */
  lemma {:induction false} RestartCycles(n: nat, t: ContinueRunning, rest: seq<ContinueRunning>)
    requires !t.Continue?
    ensures Emitted(Restarts(n) + [t] + rest) == Cycles(n) + [Status(Running), Report(t)]
    ensures |Emitted(Restarts(n) + [t] + rest)| == 2 * n + 2
    ensures EndOf(Restarts(n) + [t] + rest) == if t.Exit? then Exited else Errored(t.message)
    ensures Invocations(Restarts(n) + [t] + rest, None) == n + 1
  {
    var u := Restarts(n) + [t] + rest;
    if n == 0 {
      assert u == [t] + rest;
    } else {
      assert u == [Continue] + (Restarts(n - 1) + [t] + rest);
      assert u[1..] == Restarts(n - 1) + [t] + rest;
      RestartCycles(n - 1, t, rest);
    }
  }

  /** `n` restarts followed by a run that never finishes: `n + 1` invocations, the last announced as `Running`. */
  lemma {:induction false} RestartsThenPending(n: nat)
    ensures Emitted(Restarts(n)) == Cycles(n) + [Status(Running)]
    ensures |Emitted(Restarts(n))| == 2 * n + 1
    ensures EndOf(Restarts(n)) == Awaiting
    ensures Invocations(Restarts(n), None) == n + 1
  {
    if n > 0 {
      assert Restarts(n)[1..] == Restarts(n - 1);
      RestartsThenPending(n - 1);
    }
  }

  /**
   * `Running` is sent exactly at the even positions, every odd position but the
   * last carries the restart notice, and the trace has odd length exactly when
   * the last run never finishes.
   */
  lemma {:induction false} EmittedAlternates(upcoming: seq<ContinueRunning>)
    ensures var e := Emitted(upcoming);
      && |e| > 0
      && (forall i | 0 <= i < |e| :: e[i] == Status(Running) <==> i % 2 == 0)
      && (forall i | 0 <= i < |e| - 1 && i % 2 == 1 :: e[i] == Status(Stopped(RESTART_MESSAGE)))
      && (|e| % 2 == 1 <==> EndOf(upcoming) == Awaiting)
  {
    if upcoming != [] && upcoming[0].Continue? {
      var tail := Emitted(upcoming[1..]);
      EmittedAlternates(upcoming[1..]);
      var e := Emitted(upcoming);
      assert e == [Status(Running), Status(Stopped(RESTART_MESSAGE))] + tail;
      forall i | 2 <= i < |e|
        ensures e[i] == tail[i - 2]
      {
      }
    }
  }

  /**
   * What the event loop receives starts with `Running`, and every other event
   * it receives directly follows a `Running`: no outcome is reported for a run
   * that was not announced.
   */
  lemma ReportsFollowRunning(upcoming: seq<ContinueRunning>, room: Option<nat>)
    ensures var d := Delivered(Emitted(upcoming), room);
      && (|d| > 0 ==> d[0] == Status(Running))
      && (forall i | 0 < i < |d| && d[i] != Status(Running) :: d[i - 1] == Status(Running))
  {
    EmittedAlternates(upcoming);
  }

  /** `ServerExit` is sent exactly when a run exits, an error report exactly when a run fails with that message. */
  lemma {:induction false} TerminalReport(upcoming: seq<ContinueRunning>)
    ensures ServerExit in Emitted(upcoming) <==> EndOf(upcoming) == Exited
    ensures forall m :: Status(Error(m)) in Emitted(upcoming) <==> EndOf(upcoming) == Errored(m)
  {
    if upcoming != [] && upcoming[0].Continue? {
      TerminalReport(upcoming[1..]);
      assert Emitted(upcoming) == [Status(Running), Status(Stopped(RESTART_MESSAGE))] + Emitted(upcoming[1..]);
    }
  }

  /** The event loop never receives both `ServerExit` and an error report. */
  lemma ExitAndErrorExclusive(upcoming: seq<ContinueRunning>, room: Option<nat>, m: string)
    ensures var d := Delivered(Emitted(upcoming), room);
      !(ServerExit in d && Status(Error(m)) in d)
  {
    TerminalReport(upcoming);
    var e := Emitted(upcoming);
    var d := Delivered(e, room);
    assert d == e[..|d|];
    if ServerExit in d {
      assert ServerExit in e;
    }
    if Status(Error(m)) in d {
      assert Status(Error(m)) in e;
    }
  }

  /**
   * Once a run has finished with `Exit` or `ExitWithError` the generator is not
   * invoked again: whatever later runs would do changes neither the trace nor the
   * count, and no more than `k + 1` runs are started if run `k` is terminal.
   */
  lemma {:induction false} NeverInvokedAfterTerminal(upcoming: seq<ContinueRunning>, k: nat, rest: seq<ContinueRunning>)
    requires k < |upcoming| && !upcoming[k].Continue?
    ensures Emitted(upcoming + rest) == Emitted(upcoming)
    ensures EndOf(upcoming + rest) == EndOf(upcoming)
    ensures |Emitted(upcoming)| <= 2 * k + 2
  {
    var u := upcoming + rest;
    assert u[0] == upcoming[0];
    if upcoming[0].Continue? {
      assert u[1..] == upcoming[1..] + rest;
      NeverInvokedAfterTerminal(upcoming[1..], k - 1, rest);
    }
  }

  /** The invocation count of a loop with a terminal run `k`, for any room the event loop has. */
  lemma InvocationsAfterTerminal(upcoming: seq<ContinueRunning>, k: nat, rest: seq<ContinueRunning>, room: Option<nat>)
    requires k < |upcoming| && !upcoming[k].Continue?
    ensures Invocations(upcoming + rest, room) == Invocations(upcoming, room) <= k + 1
    ensures LoopResult(upcoming + rest, room) == LoopResult(upcoming, room)
  {
    NeverInvokedAfterTerminal(upcoming, k, rest);
  }

  /** Counting `Running` over a prefix of an alternating trace. */
  lemma {:induction false} RunningInPrefix(events: seq<UserEvent>, len: nat)
    requires len <= |events|
    requires forall i | 0 <= i < |events| :: events[i] == Status(Running) <==> i % 2 == 0
    ensures RunningCount(events[..len]) == (len + 1) / 2
  {
    if len > 0 {
      assert events[..len][..len - 1] == events[..len - 1];
      RunningInPrefix(events, len - 1);
    }
  }

  /** Every invocation is announced: the count equals the `Running` events the loop tries to send. */
  lemma InvocationsAnnounced(upcoming: seq<ContinueRunning>, room: Option<nat>)
    ensures Invocations(upcoming, room) == RunningCount(Attempted(Emitted(upcoming), room))
  {
    var e := Emitted(upcoming);
    EmittedAlternates(upcoming);
    var a := Attempted(e, room);
    assert a == e[..|a|];
    RunningInPrefix(e, |a|);
  }

  /**
   * A failed send ends the loop: the event loop has received a proper prefix of
   * the trace, the failed event is the last one attempted, and no more runs are
   * started than with an event loop that stays open.
   */
  lemma SendFailureStopsLoop(upcoming: seq<ContinueRunning>, room: Option<nat>)
    ensures var e := Emitted(upcoming);
      var d := Delivered(e, room);
      && d == e[..|d|]
      && (LoopResult(upcoming, room) == SendFailed <==> |d| < |e|)
      && (LoopResult(upcoming, room) == SendFailed ==> Attempted(e, room) == d + [e[|d|]])
      && (LoopResult(upcoming, room) != SendFailed ==> Attempted(e, room) == e)
      && Invocations(upcoming, room) <= Invocations(upcoming, None)
  {
    var e := Emitted(upcoming);
    var d := Delivered(e, room);
    if |d| < |e| {
      assert Attempted(e, room) == e[..|d| + 1] == d + [e[|d|]];
    }
  }

  /** A first run that exits: one invocation, and `Running` then `ServerExit` (ui_tests/restart.rs). */
  lemma FirstRunExits(rest: seq<ContinueRunning>)
    ensures Emitted([Exit] + rest) == [Status(Running), ServerExit]
    ensures Invocations([Exit] + rest, None) == 1
    ensures LoopResult([Exit] + rest, None) == Exited
  {
    RestartCycles(0, Exit, rest);
    assert Restarts(0) + [Exit] + rest == [Exit] + rest;
  }
}
