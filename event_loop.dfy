/**
 * The user events, in the four-variant form of src/user_event.rs that
 * `quit_matches` takes (src/menu_state.rs:7,57), and the handle that posts them
 * (winit's `EventLoopProxy`, as src/tray_wrapper.rs uses it).
 */
module EventLoop {
  import opened Wrappers
  import opened ServerStatuses

  /** The identifier the tray library gives a menu item. */
  type MenuId = string

  /** A menu event carries only the id of the item that was clicked. */
  datatype UserEvent =
    | Menu(id: MenuId)
    | TrayIcon
    | Status(status: ServerStatus)
    | ServerExit

  /** Why the event loop woke up; `Init` is delivered when the loop starts running. */
  datatype StartCause = Init | Poll | WaitCancelled | ResumeTimeReached

  /** The places left in `room` after `k` more events. */
  function Shrink(room: Option<nat>, k: nat): Option<nat> {
    match room
    case None => None
    case Some(r) => Some(if k <= r then r - k else 0)
  }

  /**
   * A handle that posts events to the event loop. The loop receives events in
   * the order they are sent; once it has received `lifetime` events in all it is
   * closed and every further send fails (`lifetime == None`: it never closes
   * while a sender is running).
   */
  class EventLoopProxy {
    var queue: seq<UserEvent>
    const lifetime: Option<nat>

    constructor (lifetime: Option<nat>)
      ensures queue == [] && this.lifetime == lifetime
    {
      queue := [];
      this.lifetime := lifetime;
    }

    /** How many more events the loop accepts; `None` when it never closes. */
    function Room(): Option<nat>
      reads this
    {
      match lifetime
      case None => None
      case Some(n) => Some(if |queue| <= n then n - |queue| else 0)
    }

    /** The event loop is still running, so the next send succeeds. */
    predicate IsOpen()
      reads this
    {
      lifetime.None? || |queue| < lifetime.value
    }

    method SendEvent(event: UserEvent) returns (ok: bool)
      modifies this
      ensures ok == old(IsOpen()) && ok == (old(Room()) != Some(0))
      ensures queue == if ok then old(queue) + [event] else old(queue)
      ensures Room() == if ok then Shrink(old(Room()), 1) else old(Room())
    {
      ok := IsOpen();
      if ok {
        queue := queue + [event];
      }
    }
  }
}
