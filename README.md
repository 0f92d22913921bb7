# tray-wrapper in Dafny

A model of the core of `tray-wrapper`, a Rust library that supervises a long-running
server from a desktop tray icon. The library:

- repeatedly invokes a server generator;
- announces each run as `Running`;
- acts on how the run finishes: `Continue` restarts it, `Exit` ends supervision with a
  `ServerExit` notice, and `ExitWithError` ends it with an `Error` report;
- posts every report to the UI event loop through an event-loop proxy;
- on the UI side, builds the tray menu when the event loop starts, and shuts the
  runtime down when the server exits or the user clicks "Quit".

Modules:

- `Wrappers`: the `Option` and `Result` types the other modules use; no source file
  corresponds to it.
- `ServerStatuses`: the four statuses (src/server_status.rs).
- `ServerGenerators`: the continuation signal, and the generator as an object that
  counts its invocations (src/server_generator.rs).
- `EventLoop`: the user events (src/user_event.rs), and winit's event-loop proxy as
  an append-only queue to an event loop that may close.
- `TakeOnceCell`: the once-only slot that holds the generator, as the external
  `take_once` crate provides it.
- `Menus`: the tray and its menu (src/menu_state.rs).
- `Supervision`, `SupervisionProperties` and `TrayWrappers` all model
  src/tray_wrapper.rs:
  - `Supervision`: the supervision loop, proved against reference functions on the
    sequence of run outcomes.
  - `SupervisionProperties`: what the loop promises about traces and invocation
    counts.
  - `TrayWrappers`: the controller, meaning the wrapper's handle and its two event
    handlers.

The generator is described by a finite sequence of the outcomes of its runs, in
order. Every run past the end of that sequence never finishes.

The event loop is described by how many events it will receive in all before it
closes. `None` means it stays open. Each send after that point fails, and the loop
then stops, as the source's `expect` makes it do.

Where the source disagrees with itself, the model follows the code that runs:

- `ServerStatus::Running` is declared with a `String` payload (src/server_status.rs:6).
  Every use builds or matches it without one (src/tray_wrapper.rs:90,
  src/menu_state.rs:40). The model's `Running` has no payload.
- `quit_matches` matches a `UserEvent::MenuEvent` variant that no `UserEvent`
  declares. The model reads it as the `Menu` variant, which carries the clicked item's
  id.
- There are two user-event enums, and the source mixes them, so it does not type-check
  at this point:
  - the event loop and the handler use the three-variant enum of src/event_loop.rs
    (src/tray_wrapper.rs:2,51,127; src/event_loop.rs:12-13);
  - `quit_matches` takes the four-variant enum of src/user_event.rs
    (src/menu_state.rs:7,57), which adds tray-icon events;
  - src/tray_wrapper.rs:136 passes the one to the function that takes the other.

  The model uses the four-variant enum. Its extra `TrayIcon` event changes nothing:
  `OnUserEvent` leaves the wrapper unchanged on it.
- Status reports reach the event loop, but `user_event` never shows them; see
  Findings.

## Model

| member | source | states |
|---|---|---|
| ServerGenerators.ServerGenerator.constructor | src/server_generator.rs:6-14 | a generator has made no invocations yet and will produce runs finishing with the given outcomes, in order |
| ServerGenerators.ServerGenerator.Invoke | src/tray_wrapper.rs:89-92 | each call counts one invocation and yields the next run's outcome; once the outcomes are used up, the run never finishes |
| EventLoop.EventLoopProxy.constructor | src/tray_wrapper.rs:85 | a fresh proxy has delivered nothing |
| EventLoop.EventLoopProxy.SendEvent | src/tray_wrapper.rs:90-91 | a send succeeds exactly while the event loop still accepts events; on success the event is appended to what the loop received, in order; on failure nothing is delivered |
| TakeOnceCell.TakeOnce.NewWith | src/tray_wrapper.rs:37 | the slot starts out holding the generator |
| TakeOnceCell.TakeOnce.Take | src/tray_wrapper.rs:81-84 | taking yields what the slot held and leaves it empty, so a second take yields nothing |
| Menus.MenuItem.constructor | src/menu_state.rs:20-21 | an item has the given text, enabled flag and id |
| Menus.MenuState.constructor | src/menu_state.rs:20-24 | the menu is the disabled "Starting Up" item followed by the enabled "Quit" item, with no title and no menu attached yet |
| Menus.MenuState.New | src/menu_state.rs:17-32 | a tray-library failure is returned as that error; otherwise a fresh, well-formed menu state holding the library's item ids, which are distinct |
| Menus.MenuState.UpdateTrayIcon | src/menu_state.rs:34-55 | the title and status text become the ones for the status: "?"/"In startup", none/"Running", "X"/message, "E"/message; the menu is attached; the quit item and the layout are untouched |
| Menus.MenuState.QuitMatches | src/menu_state.rs:57-65 | true if and only if the event is a menu click on the quit item's id |
| Menus.DisplayRoundTrip | src/menu_state.rs:35-52 | the status can be read back from the title and text the tray shows for it |
| Menus.DisplayInjective | src/menu_state.rs:35-52 | two statuses are shown alike exactly when they are equal |
| Menus.TitleIdentifiesKind | src/menu_state.rs:35-52 | two statuses get the same title exactly when they are of the same kind; a stop or error message is shown verbatim |
| Supervision.Supervise | src/tray_wrapper.rs:86-114 | the event loop receives the reference trace for the generator's outcomes, cut off where the loop closes; the generator is invoked the reference number of times; the loop ends exited, errored, on a failed send, or awaiting a run that never finishes, as the reference says |
| Supervision.SuperviseOnce | src/tray_wrapper.rs:89-112 | one pass invokes once, sends `Running` and then the report of the run, and says whether the loop goes round again |
| SupervisionProperties.RestartCycles | src/tray_wrapper.rs:88-111 | N restarts and then an exit or error produce exactly N cycles of `Running` and the restart notice, then `Running` and the terminal report, in N+1 invocations |
| SupervisionProperties.RestartsThenPending | src/tray_wrapper.rs:88-98 | N restarts and then a run that never finishes produce N cycles and a last `Running`, in N+1 invocations |
| SupervisionProperties.EmittedAlternates | src/tray_wrapper.rs:88-111 | `Running` is sent exactly at the even positions; every odd position but the last is the restart notice; the trace has odd length exactly when the loop is left awaiting |
| SupervisionProperties.ReportsFollowRunning | src/tray_wrapper.rs:89-92 | whatever the event loop receives begins with `Running`, and every other event directly follows a `Running` |
| SupervisionProperties.TerminalReport | src/tray_wrapper.rs:100-111 | `ServerExit` is sent if and only if a run exits; an error report with a message is sent if and only if a run fails with that message |
| SupervisionProperties.ExitAndErrorExclusive | src/tray_wrapper.rs:100-111 | the event loop never receives both `ServerExit` and an error report |
| SupervisionProperties.NeverInvokedAfterTerminal | src/tray_wrapper.rs:100-111 | after an exit or error, later runs change neither the trace nor how the loop ends; a terminal run at position k bounds the trace at 2k+2 events |
| SupervisionProperties.InvocationsAfterTerminal | src/tray_wrapper.rs:100-111 | with a terminal run at position k, the generator is invoked at most k+1 times, whatever follows it and however long the event loop stays open |
| SupervisionProperties.InvocationsAnnounced | src/tray_wrapper.rs:89-91 | the number of invocations equals the number of `Running` events the loop tries to send |
| SupervisionProperties.SendFailureStopsLoop | src/tray_wrapper.rs:90-110 | the loop ends on a failed send exactly when the event loop received a proper prefix of the trace; the failed event is the last one attempted; a closing event loop never causes more invocations |
| SupervisionProperties.FirstRunExits | ui_tests/restart.rs:13-28 | a first run that exits gives one invocation and the trace `Running`, `ServerExit` |
| TrayWrappers.TrayWrapper.constructor | src/tray_wrapper.rs:27-47 | the generator waits in its slot, the runtime is up, there is no menu and nothing has happened yet |
| TrayWrappers.TrayWrapper.OnNewEvents | src/tray_wrapper.rs:62-115 | only `Init` acts. A menu failure asks the loop to exit and leaves the slot full. Otherwise a fresh menu shows the start-up status, and then: without a runtime, exit; with an empty slot, a panic; else the slot is emptied and supervision runs as `Supervise` states |
| TrayWrappers.TrayWrapper.ShutdownRuntime | src/tray_wrapper.rs:129-131 | the runtime is taken out and counted as shut down only if it was still there |
| TrayWrappers.TrayWrapper.OnUserEvent | src/tray_wrapper.rs:127-143 | a server exit, or a click on the quit item once the menu exists, drops the runtime and requests exit; the runtime is shut down at most once in the wrapper's life; status, tray-icon and other menu events change nothing |
| TrayWrappers.TrayWrapper.OnUserEventShowingStatus | src/tray_wrapper.rs:127-143 | corrected handler: as `OnUserEvent`, and a status event is also shown in the tray with its title and text |
| TrayWrappers.FirstRunExitScenario | ui_tests/restart.rs:13-28 | the restart test with `user_event` as written: one invocation; `Running` then `ServerExit` received; the tray still at "?"/"In startup"; exit requested and the runtime shut down once |
| TrayWrappers.StatusIgnoredScenario | src/tray_wrapper.rs:127-143 | as written, after `Init` and a `Running` report, the tray still shows "?" and "In startup" |
| TrayWrappers.ErrorKeepsTrayScenario | src/tray_wrapper.rs:127-143 | a first run that fails with "disk full" delivers `Running` and the error report; handling them as written leaves the tray at "?"/"In startup", keeps the runtime and requests no exit |

## Left out

- Icon decoding, `Icon::from_rgba` and the construction errors of `TrayWrapper::new` (`IconLoad`, `BadIcon`, `RunTime`) are not modelled. Decoding is image I/O, and the constructor is modelled on its success path.
- The tokio runtime is reduced to whether the wrapper holds it. `shutdown_timeout` and its 10-second bound are reduced to a shutdown counter.
- `rt.spawn` and the concurrency between the supervision task and the event loop are not modelled. The task runs to its end when it is spawned. The proxy's lifetime stands for the point at which the event loop closes, so the interleaving of sends with handler calls is not modelled.
- A panic (the failed `take` on a second `Init`, or `expect` on a failed send) is modelled as a flag or as the loop ending with `SendFailed`. Process abort and unwinding are not modelled.
- The macOS run-loop wake-up (src/tray_wrapper.rs:117-124) is platform I/O and is not modelled.
- The `resumed` and `window_event` handlers do nothing and are not modelled.
- `setup_event_loop`, `create_tray_wrapper` and the library root are platform glue and are not modelled. The `From` conversions into the error types are not modelled either.
- Tray-icon and menu drawing by the platform are not modelled. The tray is modelled by its title, status text and whether its menu is attached.
- A run that never finishes is modelled as the loop awaiting forever.
- A server whose runs all finish with `Continue` restarts forever, because the source has no retry limit (src/tray_wrapper.rs:88-98). The model represents such a server only by its finite prefixes: `Supervise` terminates on a finite outcome sequence, and `RestartsThenPending` covers N restarts for every N.
- Menus.MenuState.New: requires the tray library to give the two items distinct ids. The library generates a unique id for every menu item; the model does not state that guarantee itself.
- The axum example server shipped with the repository is not part of this model.

## Findings

| source | as written | input that shows it | evidently intended | confidence | as-written member | corrected member |
|---|---|---|---|---|---|---|
| src/tray_wrapper.rs:127-143 | `user_event` ignores `ServerStatus` events, so `update_tray_icon` runs only once, with `StartUp`, and its `Running`, `Stopped` and `Error` branches are never reached | `Init`, then the supervision loop's `Running` report | each status report is shown in the tray; otherwise the loop's reports and three of the four display branches would serve no purpose | high, not executed | TrayWrappers.StatusIgnoredScenario | TrayWrappers.TrayWrapper.OnUserEventShowingStatus |
