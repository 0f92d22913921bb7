/** The tray icon and its menu (src/menu_state.rs). */
module Menus {
  import opened Wrappers
  import opened ServerStatuses
  import opened EventLoop

  datatype MenuStateError = MenuError | TrayError

  /**
   * What the tray library answers while the menu state is built: the error it
   * fails with, if any, and the ids it gives the two menu items. The library
   * generates a distinct id for every item it creates.
   */
  datatype TrayPlatform = TrayPlatform(failure: Option<MenuStateError>, statusId: MenuId, quitId: MenuId)

  /** A menu item: its id and enabled flag are fixed, its text can be changed. */
  class MenuItem {
    const id: MenuId
    var text: string
    const enabled: bool

    /** `id` is the id the library generates for the item; it is not an argument of `MenuItem::new`, whose third argument is an accelerator. */
    constructor (text: string, enabled: bool, id: MenuId)
      ensures this.text == text && this.enabled == enabled && this.id == id
    {
      this.id := id;
      this.text := text;
      this.enabled := enabled;
    }
  }

  /** What the user sees: the tray title, the status item's text, and whether the menu is attached. */
  datatype TrayView = TrayView(title: Option<string>, statusText: string, menuAttached: bool)

  /** The title and status text a status is shown with. */
  datatype Display = Display(title: Option<string>, text: string)

  function DisplayOf(status: ServerStatus): Display {
    match status
    case StartUp => Display(Some("?"), "In startup")
    case Running => Display(None, "Running")
    case Stopped(s) => Display(Some("X"), s)
    case Error(e) => Display(Some("E"), e)
  }

  /** Reads the status back from what the tray shows, if it is one that `DisplayOf` produces. */
  function StatusOfDisplay(d: Display): Option<ServerStatus> {
    match d.title
    case None => if d.text == "Running" then Some(Running) else None
    case Some(t) =>
      if t == "?" then (if d.text == "In startup" then Some(StartUp) else None)
      else if t == "X" then Some(Stopped(d.text))
      else if t == "E" then Some(Error(d.text))
      else None
  }

  /** Two statuses are of the same kind when they use the same constructor. */
  predicate SameKind(s: ServerStatus, t: ServerStatus) {
    && (s.StartUp? <==> t.StartUp?)
    && (s.Running? <==> t.Running?)
    && (s.Stopped? <==> t.Stopped?)
    && (s.Error? <==> t.Error?)
  }

  /** The tray shows every status distinguishably: the status can be read back from the display. */
  lemma DisplayRoundTrip(status: ServerStatus)
    ensures StatusOfDisplay(DisplayOf(status)) == Some(status)
  {
  }

  /** Two statuses are shown alike exactly when they are equal. */
  lemma DisplayInjective(s: ServerStatus, t: ServerStatus)
    ensures DisplayOf(s) == DisplayOf(t) <==> s == t
  {
    DisplayRoundTrip(s);
    DisplayRoundTrip(t);
  }

  /** The title alone tells the kind of status; a message shows up verbatim as the status text. */
  lemma TitleIdentifiesKind(s: ServerStatus, t: ServerStatus)
    ensures DisplayOf(s).title == DisplayOf(t).title <==> SameKind(s, t)
    ensures (s.Stopped? || s.Error?) ==> DisplayOf(s).text == s.message
  {
  }

  class MenuState {
    var title: Option<string>
    var menuAttached: bool
    var trayMenu: seq<MenuItem>
    const statusItem: MenuItem
    const quitItem: MenuItem

    function Repr(): set<object> {
      {this, statusItem, quitItem}
    }

    /** The menu holds the disabled status item followed by the enabled "Quit" item. */
    ghost predicate Valid()
      reads this, statusItem, quitItem
    {
      && statusItem != quitItem
      && statusItem.id != quitItem.id
      && trayMenu == [statusItem, quitItem]
      && !statusItem.enabled
      && quitItem.enabled
      && quitItem.text == "Quit"
    }

    function View(): TrayView
      reads this, statusItem
    {
      TrayView(title, statusItem.text, menuAttached)
    }

    /** Builds the tray and its menu, the status item first and the quit item second. */
    constructor (statusId: MenuId, quitId: MenuId)
      requires statusId != quitId
      ensures Valid() && fresh(statusItem) && fresh(quitItem)
      ensures statusItem.id == statusId && quitItem.id == quitId
      ensures statusItem.text == "Starting Up" && View() == TrayView(None, "Starting Up", false)
    {
      statusItem := new MenuItem("Starting Up", false, statusId);
      quitItem := new MenuItem("Quit", true, quitId);
      title := None;
      menuAttached := false;
      trayMenu := [];
      new;
      trayMenu := trayMenu + [statusItem];
      trayMenu := trayMenu + [quitItem];
    }

    /** `MenuState::new`: fails with the tray library's error, or yields a fresh menu state. */
    static method New(platform: TrayPlatform) returns (r: Result<MenuState, MenuStateError>)
      requires platform.statusId != platform.quitId
      ensures platform.failure.Some? ==> r == Failure(platform.failure.value)
      ensures platform.failure.None? ==>
                && r.Success? && fresh(r.value.Repr()) && r.value.Valid()
                && r.value.statusItem.id == platform.statusId
                && r.value.quitItem.id == platform.quitId
                && r.value.View() == TrayView(None, "Starting Up", false)
    {
      if platform.failure.Some? {
        return Failure(platform.failure.value);
      }
      var ms := new MenuState(platform.statusId, platform.quitId);
      return Success(ms);
    }

    /** Shows `status` in the tray and (re)attaches the menu. */
    method UpdateTrayIcon(status: ServerStatus)
      requires Valid()
      modifies this, statusItem
      ensures Valid() && unchanged(quitItem)
      ensures View() == TrayView(DisplayOf(status).title, DisplayOf(status).text, true)
    {
      match status {
        case StartUp =>
          title := Some("?");
          statusItem.text := "In startup";
        case Running =>
          title := None;
          statusItem.text := "Running";
        case Stopped(s) =>
          title := Some("X");
          statusItem.text := s;
        case Error(e) =>
          title := Some("E");
          statusItem.text := e;
      }
      menuAttached := true;
    }

    /** True exactly for a click on the quit item. */
    function QuitMatches(event: UserEvent): (matches: bool)
      ensures matches <==> event == Menu(quitItem.id)
    {
      match event
      case Menu(id) => id == quitItem.id
      case _ => false
    }
  }
}
