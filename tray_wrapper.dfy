/**
 * The wrapper's handle and its reactions to the event loop (src/tray_wrapper.rs):
 * on `Init` it builds the tray, shows the start-up status and starts the
 * supervision loop with the generator it takes out of its once-only slot; a
 * `ServerExit` event or a click on the quit item shuts the runtime down and asks
 * the event loop to exit.
 */
module TrayWrappers {
  import opened Wrappers
  import opened ServerStatuses
  import opened ServerGenerators
  import opened EventLoop
  import opened TakeOnceCell
  import opened Menus
  import opened Supervision
  import SupervisionProperties

  /** The async runtime the supervision loop is spawned on; only whether the wrapper still holds it matters. */
  datatype Runtime = Runtime

  class TrayWrapper {
    var menuState: Option<MenuState>
    var runtime: Option<Runtime>
    const eventLoopProxy: EventLoopProxy
    const serverGenerator: TakeOnce<ServerGenerator>
    /** The generator handed to the constructor. */
    ghost const generator: ServerGenerator

    /** Whether the event loop has been asked to exit. */
    var exitRequested: bool
    /** How many times the runtime has been shut down. */
    var shutdowns: nat
    /** Whether a handler has panicked, which ends the process. */
    var panicked: bool
    /** How the supervision loop ended, once it has been started. */
    var supervision: Option<LoopEnd>

    function MenuRepr(): set<object>
      reads this
    {
      if menuState.Some? then menuState.value.Repr() else {}
    }

    ghost predicate Valid()
      reads this, serverGenerator, MenuRepr()
    {
      && (menuState.Some? ==> menuState.value.Valid())
      && shutdowns == (if runtime.Some? then 0 else 1)
      && (serverGenerator.slot.Some? ==> serverGenerator.slot.value == generator)
      && (supervision.Some? ==> serverGenerator.slot.None? && menuState.Some?)
      && (serverGenerator.slot.None? ==> supervision.Some? || panicked)
    }

    /** Would `event` shut the wrapper down: a server exit, or a click on the quit item once the menu exists. */
    predicate ShutsDown(event: UserEvent)
      reads this
    {
      event.ServerExit? || (menuState.Some? && menuState.value.QuitMatches(event))
    }

    /** `TrayWrapper::new`: the generator waits in its slot, the runtime is up, and there is no menu yet. */
    constructor (eventLoopProxy: EventLoopProxy, serverGen: ServerGenerator)
      ensures Valid() && fresh(serverGenerator)
      ensures this.eventLoopProxy == eventLoopProxy && generator == serverGen
      ensures serverGenerator.slot == Some(serverGen)
      ensures menuState == None && runtime == Some(Runtime) && supervision == None
      ensures !exitRequested && !panicked && shutdowns == 0
    {
      menuState := None;
      runtime := Some(Runtime);
      this.eventLoopProxy := eventLoopProxy;
      serverGenerator := new TakeOnce.NewWith(serverGen);
      generator := serverGen;
      exitRequested := false;
      shutdowns := 0;
      panicked := false;
      supervision := None;
    }

    /**
     * `new_events`. Only `Init` does anything: a failure to build the menu asks
     * the loop to exit; otherwise the new menu shows the start-up status, and then
     * either the runtime is gone (exit), the generator was already taken (panic),
     * or the supervision loop runs with the generator moved out of its slot.
     */
    method OnNewEvents(cause: StartCause, platform: TrayPlatform)
      requires Valid() && !panicked
      requires platform.statusId != platform.quitId
      modifies this, serverGenerator, generator, eventLoopProxy
      ensures Valid()
      ensures runtime == old(runtime) && shutdowns == old(shutdowns)
      ensures cause != Init ==> unchanged(this, serverGenerator, generator, eventLoopProxy)
      ensures cause == Init && platform.failure.Some? ==>
                && exitRequested && menuState == old(menuState) && supervision == old(supervision) && !panicked
                && unchanged(serverGenerator, generator, eventLoopProxy)
      ensures cause == Init && platform.failure.None? ==>
                && menuState.Some? && fresh(menuState.value.Repr())
                && menuState.value.statusItem.id == platform.statusId
                && menuState.value.quitItem.id == platform.quitId
                && menuState.value.View() == TrayView(Some("?"), "In startup", true)
      ensures cause == Init && platform.failure.None? && old(runtime).None? ==>
                && exitRequested && supervision == old(supervision) && !panicked
                && unchanged(serverGenerator, generator, eventLoopProxy)
      ensures cause == Init && platform.failure.None? && old(runtime).Some? && old(serverGenerator.slot).None? ==>
                && panicked && exitRequested == old(exitRequested) && supervision == old(supervision)
                && serverGenerator.slot == None && unchanged(generator, eventLoopProxy)
      ensures cause == Init && platform.failure.None? && old(runtime).Some? && old(serverGenerator.slot).Some? ==>
                && !panicked && exitRequested == old(exitRequested) && serverGenerator.slot == None
                && supervision == Some(LoopResult(old(generator.Upcoming()), old(eventLoopProxy.Room())))
                && eventLoopProxy.queue ==
                     old(eventLoopProxy.queue) + Delivered(Emitted(old(generator.Upcoming())), old(eventLoopProxy.Room()))
                && generator.calls == old(generator.calls) + Invocations(old(generator.Upcoming()), old(eventLoopProxy.Room()))
    {
      if cause != Init {
        return;
      }
      var built := MenuState.New(platform);
      if built.Failure? {
        exitRequested := true;
        return;
      }
      var ms := built.value;
      ms.UpdateTrayIcon(StartUp);
      menuState := Some(ms);
      if runtime.None? {
        exitRequested := true;
        return;
      }
      var sg := serverGenerator.Take();
      if sg.None? {
        panicked := true;
        return;
      }
      var end := Supervise(sg.value, eventLoopProxy);
      supervision := Some(end);
    }

    /** Takes the runtime out, if it is still there, and shuts it down. */
    method ShutdownRuntime()
      requires Valid()
      modifies this
      ensures Valid() && runtime == None
      ensures shutdowns == (if old(runtime).Some? then old(shutdowns) + 1 else old(shutdowns))
      ensures menuState == old(menuState) && supervision == old(supervision)
      ensures exitRequested == old(exitRequested) && panicked == old(panicked)
    {
      if runtime.Some? {
        runtime := None;
        shutdowns := shutdowns + 1;
      }
    }

    /**
     * `user_event`: a server exit or a click on the quit item shuts the runtime
     * down, at most once over the wrapper's life, and asks the loop to exit; every
     * other event, status reports included, leaves the wrapper as it is.
     */
    method OnUserEvent(event: UserEvent)
      requires Valid() && !panicked
      modifies this
      ensures Valid() && shutdowns <= 1
      ensures menuState == old(menuState) && supervision == old(supervision) && panicked == old(panicked)
      ensures runtime == if old(ShutsDown(event)) then None else old(runtime)
      ensures shutdowns == if old(ShutsDown(event)) && old(runtime).Some? then old(shutdowns) + 1 else old(shutdowns)
      ensures exitRequested == (old(exitRequested) || old(ShutsDown(event)))
      ensures !old(ShutsDown(event)) ==> unchanged(this)
      ensures event.Status? || event.TrayIcon? ==> unchanged(this)
      ensures event.Menu? && (old(menuState).None? || event.id != old(menuState).value.quitItem.id) ==> unchanged(this)
    {
      if event.ServerExit? {
        ShutdownRuntime();
        exitRequested := true;
      }
      if menuState.Some? && menuState.value.QuitMatches(event) {
        ShutdownRuntime();
        exitRequested := true;
      }
    }

    /**
     * `user_event` as evidently intended: a status report from the
     * supervision loop is also shown in the tray, everything else is handled as
     * by `OnUserEvent`.
     */
    method OnUserEventShowingStatus(event: UserEvent)
      requires Valid() && !panicked
      modifies this, MenuRepr()
      ensures Valid() && shutdowns <= 1
      ensures menuState == old(menuState) && supervision == old(supervision) && panicked == old(panicked)
      ensures runtime == if old(ShutsDown(event)) then None else old(runtime)
      ensures shutdowns == if old(ShutsDown(event)) && old(runtime).Some? then old(shutdowns) + 1 else old(shutdowns)
      ensures exitRequested == (old(exitRequested) || old(ShutsDown(event)))
      ensures event.Status? && menuState.Some? ==>
                menuState.value.View() == TrayView(DisplayOf(event.status).title, DisplayOf(event.status).text, true)
      ensures !event.Status? ==> unchanged(MenuRepr())
    {
      if event.Status? && menuState.Some? {
        menuState.value.UpdateTrayIcon(event.status);
      }
      OnUserEvent(event);
    }
  }

  /**
   * The restart test of ui_tests/restart.rs as a scenario, with `user_event` as
   * written: a server whose first run exits is invoked once, the event loop
   * receives `Running` and `ServerExit`; handling them leaves the tray at the
   * start-up status and exits with the runtime shut down once.
   */
  method FirstRunExitScenario(rest: seq<ContinueRunning>)
    returns (calls: nat, received: seq<UserEvent>, shown: TrayView, exited: bool, shutdowns: nat)
    ensures calls == 1
    ensures received == [Status(Running), ServerExit]
    ensures shown == TrayView(Some("?"), "In startup", true)
    ensures exited && shutdowns == 1
  {
    var gen := new ServerGenerator([Exit] + rest);
    var proxy := new EventLoopProxy(None);
    var wrapper := new TrayWrapper(proxy, gen);
    SupervisionProperties.FirstRunExits(rest);
    wrapper.OnNewEvents(Init, TrayPlatform(None, "status", "quit"));
    calls, received := gen.calls, proxy.queue;
    var menu := wrapper.menuState.value;
    wrapper.OnUserEvent(received[0]);
    wrapper.OnUserEvent(received[1]);
    shown := menu.View();
    exited, shutdowns := wrapper.exitRequested, wrapper.shutdowns;
  }

  /**
   * `user_event` as written drops status reports: after the loop has announced
   * `Running`, the tray still shows the start-up status.
   */
  method StatusIgnoredScenario() returns (received: seq<UserEvent>, shown: TrayView)
    ensures received == [Status(Running)]
    ensures shown == TrayView(Some("?"), "In startup", true)
    ensures shown != TrayView(DisplayOf(Running).title, DisplayOf(Running).text, true)
  {
    var gen := new ServerGenerator([]);
    var proxy := new EventLoopProxy(None);
    var wrapper := new TrayWrapper(proxy, gen);
    wrapper.OnNewEvents(Init, TrayPlatform(None, "status", "quit"));
    received := proxy.queue;
    assert received == [Status(Running)];
    var menu := wrapper.menuState.value;
    wrapper.OnUserEvent(received[0]);
    shown := menu.View();
  }

  /**
   * A run that fails ends supervision with an error report, but `user_event`
   * does not act on it: the tray stays up at the start-up status, the runtime
   * is kept, and no exit is requested.
   */
  method ErrorKeepsTrayScenario() returns (received: seq<UserEvent>, shown: TrayView, exited: bool, runtimeKept: bool)
    ensures received == [Status(Running), Status(Error("disk full"))]
    ensures shown == TrayView(Some("?"), "In startup", true)
    ensures !exited && runtimeKept
  {
    var gen := new ServerGenerator([ExitWithError("disk full")]);
    var proxy := new EventLoopProxy(None);
    var wrapper := new TrayWrapper(proxy, gen);
    SupervisionProperties.RestartCycles(0, ExitWithError("disk full"), []);
    assert SupervisionProperties.Restarts(0) + [ExitWithError("disk full")] + [] == [ExitWithError("disk full")];
    wrapper.OnNewEvents(Init, TrayPlatform(None, "status", "quit"));
    received := proxy.queue;
    var menu := wrapper.menuState.value;
    wrapper.OnUserEvent(received[0]);
    wrapper.OnUserEvent(received[1]);
    shown := menu.View();
    exited, runtimeKept := wrapper.exitRequested, wrapper.runtime.Some?;
  }
}
