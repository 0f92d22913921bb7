/**
 * The supervision loop the wrapper spawns once the event loop is running
 * (src/tray_wrapper.rs:86-114): invoke the generator, report `Running`, await the
 * run, then restart, exit or report the error. The spawned task is modelled as
 * running to its end in one go.
 */
module Supervision {
  import opened Wrappers
  import opened ServerStatuses
  import opened ServerGenerators
  import opened EventLoop

  const RESTART_MESSAGE: string := "Server Exited, will start again"

  /** How the loop ends: after `Exit`, after `ExitWithError`, on a failed send, or awaiting a run that never finishes. */
  datatype LoopEnd = Exited | Errored(message: string) | SendFailed | Awaiting

  /** The event that reports how a run finished. */
  function Report(outcome: ContinueRunning): UserEvent {
    match outcome
    case Continue => Status(Stopped(RESTART_MESSAGE))
    case Exit => ServerExit
    case ExitWithError(m) => Status(Error(m))
  }

  /** The events of one pass of the loop: `Running`, then the report of the run, if it finishes. */
  function PassEvents(upcoming: seq<ContinueRunning>): seq<UserEvent> {
    if upcoming == [] then [Status(Running)] else [Status(Running), Report(upcoming[0])]
  }

  /** The events the loop sends, for runs finishing with `upcoming`, to an event loop that never closes. */
  function Emitted(upcoming: seq<ContinueRunning>): seq<UserEvent> {
    if upcoming != [] && upcoming[0].Continue? then PassEvents(upcoming) + Emitted(upcoming[1..])
    else PassEvents(upcoming)
  }

  /** How the loop ends when every send succeeds. */
  function EndOf(upcoming: seq<ContinueRunning>): LoopEnd {
    if upcoming == [] then Awaiting
    else match upcoming[0]
      case Continue => EndOf(upcoming[1..])
      case Exit => Exited
      case ExitWithError(m) => Errored(m)
  }

  /** The events an event loop with `room` places left receives out of `events`. */
  function Delivered(events: seq<UserEvent>, room: Option<nat>): seq<UserEvent> {
    match room
    case Some(r) => if r < |events| then events[..r] else events
    case None => events
  }

  /** The events whose sending is attempted: the delivered ones and the one whose send fails. */
  function Attempted(events: seq<UserEvent>, room: Option<nat>): seq<UserEvent> {
    match room
    case Some(r) => if r < |events| then events[..r + 1] else events
    case None => events
  }

  /** The number of generator invocations: each pass of the loop attempts two sends, and invokes first. */
  function Invocations(upcoming: seq<ContinueRunning>, room: Option<nat>): nat {
    (|Attempted(Emitted(upcoming), room)| + 1) / 2
  }

  function LoopResult(upcoming: seq<ContinueRunning>, room: Option<nat>): LoopEnd {
    if Delivered(Emitted(upcoming), room) == Emitted(upcoming) then EndOf(upcoming) else SendFailed
  }

  /** How one pass ends: `None` when the loop goes round again. */
  function PassResult(upcoming: seq<ContinueRunning>, room: Option<nat>): Option<LoopEnd> {
    if Delivered(PassEvents(upcoming), room) != PassEvents(upcoming) then Some(SendFailed)
    else if upcoming == [] then Some(Awaiting)
    else match upcoming[0]
      case Continue => None
      case Exit => Some(Exited)
      case ExitWithError(m) => Some(Errored(m))
  }

  /** The loop of src/tray_wrapper.rs:88-113. */
  method Supervise(generator: ServerGenerator, proxy: EventLoopProxy) returns (end: LoopEnd)
    modifies generator, proxy
    ensures proxy.queue == old(proxy.queue) + Delivered(Emitted(old(generator.Upcoming())), old(proxy.Room()))
    ensures generator.calls == old(generator.calls) + Invocations(old(generator.Upcoming()), old(proxy.Room()))
    ensures end == LoopResult(old(generator.Upcoming()), old(proxy.Room()))
  {
    ghost var events := Emitted(generator.Upcoming());
    ghost var room := proxy.Room();
    ghost var queue0 := proxy.queue;
    ghost var calls0 := generator.calls;
    ghost var end0 := EndOf(generator.Upcoming());
    ghost var sent: nat := 0;
    ghost var passes: nat := 0;
    while true
      invariant sent <= |events| && sent == 2 * passes
      invariant events[sent..] == Emitted(generator.Upcoming())
      invariant EndOf(generator.Upcoming()) == end0
      invariant proxy.queue == queue0 + events[..sent]
      invariant generator.calls == calls0 + passes
      invariant room.Some? ==> sent <= room.value
      invariant proxy.Room() == Shrink(room, sent)
      decreases |generator.Upcoming()|
    {
      ghost var upcoming := generator.Upcoming();
      NextPass(events, sent, upcoming);
      PassEnds(upcoming, Shrink(room, sent));
      var stop := SuperviseOnce(generator, proxy);
      if stop.Some? {
        LastPass(events, sent, passes, PassEvents(upcoming), room, queue0);
        assert proxy.queue == queue0 + events[..sent] + Delivered(PassEvents(upcoming), Shrink(room, sent));
        return stop.value;
      }
      ContinuePass(events, sent, room, queue0);
      assert proxy.queue == queue0 + events[..sent] + events[sent..sent + 2];
      sent, passes := sent + 2, passes + 1;
    }
  }

  /** One pass of the loop body; a failed send (`expect`) ends the loop. */
  method SuperviseOnce(generator: ServerGenerator, proxy: EventLoopProxy) returns (stop: Option<LoopEnd>)
    modifies generator, proxy
    ensures generator.calls == old(generator.calls) + 1
    ensures generator.Upcoming() == if old(generator.Upcoming()) == [] then [] else old(generator.Upcoming())[1..]
    ensures proxy.queue == old(proxy.queue) + Delivered(PassEvents(old(generator.Upcoming())), old(proxy.Room()))
    ensures proxy.Room() == Shrink(old(proxy.Room()), |Delivered(PassEvents(old(generator.Upcoming())), old(proxy.Room()))|)
    ensures stop == PassResult(old(generator.Upcoming()), old(proxy.Room()))
  {
    var run := generator.Invoke();
    var ok := proxy.SendEvent(Status(Running));
    if !ok {
      return Some(SendFailed);
    }
    match run {
      case NeverCompletes =>
        return Some(Awaiting);
      case Completes(Continue) =>
        ok := proxy.SendEvent(Status(Stopped(RESTART_MESSAGE)));
        if !ok {
          return Some(SendFailed);
        }
        return None;
      case Completes(Exit) =>
        ok := proxy.SendEvent(ServerExit);
        if !ok {
          return Some(SendFailed);
        }
        return Some(Exited);
      case Completes(ExitWithError(e)) =>
        ok := proxy.SendEvent(Status(Error(e)));
        if !ok {
          return Some(SendFailed);
        }
        return Some(Errored(e));
    }
  }

  /** Where the next pass stands in `events` when the next run is `upcoming`. */
  lemma NextPass(events: seq<UserEvent>, sent: nat, upcoming: seq<ContinueRunning>)
    requires sent <= |events| && events[sent..] == Emitted(upcoming)
    ensures sent + |PassEvents(upcoming)| <= |events|
    ensures events[sent..sent + |PassEvents(upcoming)|] == PassEvents(upcoming)
    ensures upcoming != [] && upcoming[0].Continue? ==> events[sent + 2..] == Emitted(upcoming[1..])
    ensures !(upcoming != [] && upcoming[0].Continue?) ==> sent + |PassEvents(upcoming)| == |events|
  {
    var p := PassEvents(upcoming);
    assert events[sent..][..|p|] == p;
    assert events[sent..sent + |p|] == events[sent..][..|p|];
    if upcoming != [] && upcoming[0].Continue? {
      assert events[sent + 2..] == events[sent..][2..];
    }
  }

  /** How a pass ends, in terms of how the whole loop ends. */
  lemma PassEnds(upcoming: seq<ContinueRunning>, room: Option<nat>)
    ensures PassResult(upcoming, room).None? ==>
              && upcoming != [] && upcoming[0].Continue?
              && Delivered(PassEvents(upcoming), room) == PassEvents(upcoming)
    ensures PassResult(upcoming, room).Some? ==>
              && PassResult(upcoming, room).value ==
                   (if Delivered(PassEvents(upcoming), room) == PassEvents(upcoming) then EndOf(upcoming) else SendFailed)
              && (Delivered(PassEvents(upcoming), room) == PassEvents(upcoming) ==> !(upcoming != [] && upcoming[0].Continue?))
  {
  }

  /** After a pass that went round again, two more events have been delivered. */
  lemma ContinuePass(events: seq<UserEvent>, sent: nat, room: Option<nat>, queue0: seq<UserEvent>)
    requires sent + 2 <= |events|
    requires Delivered(events[sent..sent + 2], Shrink(room, sent)) == events[sent..sent + 2]
    requires room.Some? ==> sent <= room.value
    ensures room.Some? ==> sent + 2 <= room.value
    ensures queue0 + events[..sent] + events[sent..sent + 2] == queue0 + events[..sent + 2]
    ensures Shrink(Shrink(room, sent), 2) == Shrink(room, sent + 2)
  {
    assert events[..sent + 2] == events[..sent] + events[sent..sent + 2];
  }

  /** What the whole loop delivered and attempted, given how its last pass, `pass`, went. */
  lemma LastPass(events: seq<UserEvent>, sent: nat, passes: nat, pass: seq<UserEvent>, room: Option<nat>, queue0: seq<UserEvent>)
    requires sent == 2 * passes
    requires 1 <= |pass| <= 2 && sent + |pass| <= |events|
    requires events[sent..sent + |pass|] == pass
    requires room.Some? ==> sent <= room.value
    requires Delivered(pass, Shrink(room, sent)) == pass ==> sent + |pass| == |events|
    ensures queue0 + events[..sent] + Delivered(pass, Shrink(room, sent)) == queue0 + Delivered(events, room)
    ensures Delivered(events, room) == events <==> Delivered(pass, Shrink(room, sent)) == pass
    ensures |Attempted(events, room)| == sent + |Attempted(pass, Shrink(room, sent))|
    ensures (|Attempted(events, room)| + 1) / 2 == passes + 1
  {
    assert events[..sent + |pass|] == events[..sent] + pass;
    if room.Some? && room.value - sent < |pass| {
      var r := room.value - sent;
      assert events[..sent + r] == events[..sent] + pass[..r];
    }
    assert events[..sent] + Delivered(pass, Shrink(room, sent)) == Delivered(events, room);
  }
}
