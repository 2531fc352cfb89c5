/**
 * The event loop's decisions: how each display-server event changes the
 * window state and which requests go back to the server. Replies the server
 * would give (atoms, window properties, screen size) arrive in a Display value;
 * requests are returned as a list instead of being written to a connection.
 */
module Wm {
  import opened XTypes
  import opened State
  import opened Layout
  import Keys
  import Volume

  const BORDER_WIDTH: u32 := 2
  const BORDER_FOCUSED: u32 := 0x88CCFF
  const BORDER_NORMAL: u32 := 0x333333
  /** The timestamp CurrentTime. */
  const CURRENT_TIME: u32 := 0
  /** GetProperty is asked for at most this many 32-bit values. */
  const PROPERTY_LONG_LENGTH: nat := 32

  /** A ClientMessage event as sent to a client. */
  datatype ClientMessage = ClientMessage(format: u8, window: Window, messageType: Atom, data: seq<u32>)

  /** The requests the engine sends to the server. */
  datatype Request =
    | Configure(geometry: Geometry)
    | SetBorderWidth(window: Window, width: u32)
    | SetBorderColour(window: Window, colour: u32)
    /** ChangeWindowAttributes with a border colour and the FocusChange event mask. */
    | SelectFocusEvents(window: Window, colour: u32)
    | MapWindow(window: Window)
    | SetInputFocus(window: Window)
    | Raise(window: Window)
    | SendEvent(window: Window, message: ClientMessage)
    | KillClient(window: Window)

  /**
   * What the server would answer: the root screen's size, the master width
   * (screen width times the master ratio, truncated), the interned atoms
   * (None where interning failed) and the ATOM-typed window properties.
   */
  datatype Display = Display(
    screenWidth: u16,
    screenHeight: u16,
    scaledMasterWidth: int,
    netWmState: Atom,
    netWmStateFullscreen: Atom,
    wmProtocols: Option<Atom>,
    wmDeleteWindow: Option<Atom>,
    properties: map<(Window, Atom), seq<u32>>)

  datatype Event =
    | MapRequest(window: Window)
    | DestroyNotify(window: Window)
    | KeyPress(detail: Keycode)
    | FocusIn(window: Window)
    | OtherEvent

  /**
   * The values of the keycode patterns that `handle_key` matches on; they are
   * parameters because the source names them without defining them.
   */
  datatype KeyTable = KeyTable(
    terminal: Keycode, fileManager: Keycode, browser: Keycode, launcher: Keycode,
    close: Keycode, focusNext: Keycode, focusPrev: Keycode)

  datatype KeyCommand =
    | LaunchTerminal | LaunchFileManager | LaunchBrowser | LaunchLauncher
    | CloseFocused | FocusNextWindow | FocusPrevWindow
    | AdjustVolume(action: Volume.VolumeAction)
    | Unbound

  /** The keycodes of the seven keycode arms of `handle_key`, in match order. */
  function ArmKeycodes(keys: KeyTable): seq<Keycode> {
    [keys.terminal, keys.fileManager, keys.browser, keys.launcher, keys.close, keys.focusNext, keys.focusPrev]
  }

  /**
   * The first arm of `handle_key` whose pattern or guard accepts the keycode:
   * the keycode arms in order, then the volume-up, volume-down and mute guards.
   */
  function ResolveKey(keys: KeyTable, multimedia: Keys.MultimediaKeycodes, keycode: Keycode): (c: KeyCommand)
    ensures keycode == keys.terminal ==> c == LaunchTerminal
    ensures keycode != keys.terminal && keycode == keys.fileManager ==> c == LaunchFileManager
    ensures keycode !in [keys.terminal, keys.fileManager] && keycode == keys.browser ==> c == LaunchBrowser
    ensures keycode !in [keys.terminal, keys.fileManager, keys.browser] && keycode == keys.launcher ==> c == LaunchLauncher
    ensures keycode !in [keys.terminal, keys.fileManager, keys.browser, keys.launcher] && keycode == keys.close ==> c == CloseFocused
    ensures keycode !in [keys.terminal, keys.fileManager, keys.browser, keys.launcher, keys.close] && keycode == keys.focusNext ==> c == FocusNextWindow
    ensures keycode !in [keys.terminal, keys.fileManager, keys.browser, keys.launcher, keys.close, keys.focusNext] && keycode == keys.focusPrev ==> c == FocusPrevWindow
    ensures keycode !in ArmKeycodes(keys) && keycode in multimedia.volumeUp ==> c == AdjustVolume(Volume.Up)
    ensures keycode !in ArmKeycodes(keys) && keycode !in multimedia.volumeUp && keycode in multimedia.volumeDown ==>
      c == AdjustVolume(Volume.Down)
    ensures (keycode !in ArmKeycodes(keys) && keycode !in multimedia.volumeUp && keycode !in multimedia.volumeDown
             && keycode in multimedia.volumeMute) ==> c == AdjustVolume(Volume.ToggleMute)
    ensures c.Unbound? <==> keycode !in ArmKeycodes(keys) && keycode !in Keys.MultimediaKeys(multimedia)
  {
    if keycode == keys.terminal then LaunchTerminal
    else if keycode == keys.fileManager then LaunchFileManager
    else if keycode == keys.browser then LaunchBrowser
    else if keycode == keys.launcher then LaunchLauncher
    else if keycode == keys.close then CloseFocused
    else if keycode == keys.focusNext then FocusNextWindow
    else if keycode == keys.focusPrev then FocusPrevWindow
    else if keycode in multimedia.volumeUp then AdjustVolume(Volume.Up)
    else if keycode in multimedia.volumeDown then AdjustVolume(Volume.Down)
    else if keycode in multimedia.volumeMute then AdjustVolume(Volume.ToggleMute)
    else Unbound
  }

  /** The first 32 values of a property: all that a GetProperty of length 32 returns. */
  function FirstLongs(values: seq<u32>): (r: seq<u32>)
    ensures |r| == if |values| <= PROPERTY_LONG_LENGTH then |values| else PROPERTY_LONG_LENGTH
    ensures r == values[..|r|]
  {
    if |values| <= PROPERTY_LONG_LENGTH then values else values[..PROPERTY_LONG_LENGTH]
  }

  /** The values a GetProperty of type ATOM returns; None when the property cannot be read. */
  function AtomProperty(d: Display, w: Window, property: Atom): Option<seq<u32>> {
    if (w, property) in d.properties then Some(FirstLongs(d.properties[(w, property)])) else None
  }

  /**
   * `is_fullscreen`: the window's `_NET_WM_STATE` can be read and one of its
   * first 32 entries is `_NET_WM_STATE_FULLSCREEN`.
   */
  predicate IsFullscreen(d: Display, w: Window)
    ensures IsFullscreen(d, w) <==>
      && (w, d.netWmState) in d.properties
      && exists i :: 0 <= i < |d.properties[(w, d.netWmState)]| && i < PROPERTY_LONG_LENGTH
                     && d.properties[(w, d.netWmState)][i] == d.netWmStateFullscreen
  {
    match AtomProperty(d, w, d.netWmState)
    case Some(atoms) => d.netWmStateFullscreen as u32 in atoms
    case None => false
  }

  /** The whole screen, with no border. */
  function FullscreenGeometry(d: Display, w: Window): Geometry {
    Geometry(w, 0, 0, d.screenWidth as nat, d.screenHeight as nat, 0)
  }

  /** A FULLSCREEN state listed only after the 32nd entry is not seen: the window is tiled. */
  lemma FullscreenBeyondFirst32IsTiled(d: Display, w: Window)
    requires (w, d.netWmState) in d.properties
    requires var p := d.properties[(w, d.netWmState)];
      |p| > PROPERTY_LONG_LENGTH && d.netWmStateFullscreen !in p[..PROPERTY_LONG_LENGTH]
    ensures !IsFullscreen(d, w)
  {
  }

  /** Both atoms resolved and the window's WM_PROTOCOLS lists WM_DELETE_WINDOW. */
  predicate SupportsDelete(d: Display, w: Window) {
    && d.wmProtocols.Some?
    && d.wmDeleteWindow.Some?
    && match AtomProperty(d, w, d.wmProtocols.value)
       case Some(values) => d.wmDeleteWindow.value in values
       case None => false
  }

  /**
   * The close decision: the WM_DELETE_WINDOW message when both atoms resolved
   * and the window's first 32 protocols list the delete atom, KillClient otherwise.
   */
  function CloseRequest(d: Display, w: Window): (r: Request)
    ensures r.SendEvent? <==>
      && d.wmProtocols.Some? && d.wmDeleteWindow.Some?
      && (w, d.wmProtocols.value) in d.properties
      && d.wmDeleteWindow.value in FirstLongs(d.properties[(w, d.wmProtocols.value)])
    ensures r.SendEvent? ==>
      r == SendEvent(w, ClientMessage(32, w, d.wmProtocols.value, [d.wmDeleteWindow.value, CURRENT_TIME, 0, 0, 0]))
    ensures !r.SendEvent? ==> r == KillClient(w)
  {
    if SupportsDelete(d, w) then
      SendEvent(w, ClientMessage(32, w, d.wmProtocols.value, [d.wmDeleteWindow.value, CURRENT_TIME, 0, 0, 0]))
    else KillClient(w)
  }

  /** `close_window`: exactly one request, the close decision, and never both outcomes. */
  method CloseWindow(d: Display, window: Window) returns (requests: seq<Request>)
    ensures requests == [CloseRequest(d, window)]
  {
    requests := [];
    var supportsDelete := false;
    if d.wmProtocols.Some? && d.wmDeleteWindow.Some? {
      var wmProtocols, wmDelete := d.wmProtocols.value, d.wmDeleteWindow.value;
      var supported := false;
      var property := AtomProperty(d, window, wmProtocols);
      if property.Some? {
        supported := wmDelete in property.value;
      }
      if supported {
        var message := ClientMessage(32, window, wmProtocols, [wmDelete, CURRENT_TIME, 0, 0, 0]);
        requests := requests + [SendEvent(window, message)];
      }
      supportsDelete := supported;
    }
    if !supportsDelete {
      requests := requests + [KillClient(window)];
    }
  }

  /** A WM_DELETE_WINDOW listed only after the 32nd protocol is not seen: the client is killed. */
  lemma DeleteBeyondFirst32IsKilled(d: Display, w: Window)
    requires d.wmProtocols.Some? && d.wmDeleteWindow.Some?
    requires (w, d.wmProtocols.value) in d.properties
    requires var p := d.properties[(w, d.wmProtocols.value)];
      |p| > PROPERTY_LONG_LENGTH && d.wmDeleteWindow.value !in p[..PROPERTY_LONG_LENGTH]
    ensures CloseRequest(d, w) == KillClient(w)
  {
  }

  /**
   * The requests of `focus`: one border colour per managed window, the focused
   * colour exactly at index `focused`, then input focus and raise for the
   * focused window when that index exists.
   */
  function FocusRequests(windows: seq<Window>, focused: nat): (r: seq<Request>)
    ensures |r| == |windows| + (if focused < |windows| then 2 else 0)
    ensures forall i :: 0 <= i < |windows| ==> r[i].SetBorderColour? && r[i].window == windows[i]
    ensures forall i :: 0 <= i < |windows| ==>
      (r[i].colour == BORDER_FOCUSED <==> i == focused) && (r[i].colour == BORDER_FOCUSED || r[i].colour == BORDER_NORMAL)
    ensures focused < |windows| ==> r[|windows|..] == [SetInputFocus(windows[focused]), Raise(windows[focused])]
  {
    var borders := seq(|windows|, i requires 0 <= i < |windows| =>
      SetBorderColour(windows[i], if i == focused then BORDER_FOCUSED else BORDER_NORMAL));
    borders + (if focused < |windows| then [SetInputFocus(windows[focused]), Raise(windows[focused])] else [])
  }

  /** `focus`: colour every border in one pass, then focus and raise the focused window. */
  method Focus(windows: seq<Window>, focused: nat) returns (requests: seq<Request>)
    ensures requests == FocusRequests(windows, focused)
  {
    requests := [];
    for i := 0 to |windows|
      invariant |requests| == i
      invariant forall j :: 0 <= j < i ==>
        requests[j] == SetBorderColour(windows[j], if j == focused then BORDER_FOCUSED else BORDER_NORMAL)
    {
      var colour := if i == focused then BORDER_FOCUSED else BORDER_NORMAL;
      requests := requests + [SetBorderColour(windows[i], colour)];
    }
    if focused < |windows| {
      var w := windows[focused];
      requests := requests + [SetInputFocus(w), Raise(w)];
    }
  }

  /**
   * `retile`: the tiling of the managed windows with BORDER_WIDTH, as Configure
   * requests: none at all, or one per window in list order.
   */
  function RetileRequests(d: Display, windows: seq<Window>): (r: seq<Request>)
    ensures r == [] || |r| == |windows|
    ensures forall i :: 0 <= i < |r| ==>
      r[i].Configure? && r[i].geometry.window == windows[i] && r[i].geometry.border == BORDER_WIDTH
    ensures r == [] <==> Tile(d.screenWidth, d.screenHeight, windows, d.scaledMasterWidth, BORDER_WIDTH) == []
    ensures var g := Tile(d.screenWidth, d.screenHeight, windows, d.scaledMasterWidth, BORDER_WIDTH);
      |r| == |g| && forall i :: 0 <= i < |r| ==> r[i].geometry == g[i]
  {
    var g := Tile(d.screenWidth, d.screenHeight, windows, d.scaledMasterWidth, BORDER_WIDTH);
    seq(|g|, i requires 0 <= i < |g| => Configure(g[i]))
  }

  /** The state after one event, as the event loop computes it. */
  function Step(v: StateValue, d: Display, keys: KeyTable, multimedia: Keys.MultimediaKeycodes, e: Event): (r: StateValue)
    ensures FocusInRange(v.windows, v.focused) ==> FocusInRange(r.windows, r.focused)
    ensures forall x :: x in r.windows ==> x in v.windows || (e.MapRequest? && x == e.window)
    ensures e.DestroyNotify? ==> e.window !in r.windows
  {
    match e
    case MapRequest(w) =>
      if IsFullscreen(d, w) then v else StateValue(v.windows + [w], |v.windows|)
    case DestroyNotify(w) =>
      StateValue(Without(v.windows, w), 0)
    case KeyPress(keycode) =>
      (match ResolveKey(keys, multimedia, keycode)
       case FocusNextWindow => StateValue(v.windows, NextFocus(v.focused, |v.windows|))
       case FocusPrevWindow => StateValue(v.windows, PrevFocus(v.focused, |v.windows|))
       case _ => v)
    case FocusIn(w) =>
      (match IndexOf(v.windows, w)
       case Some(i) => StateValue(v.windows, i)
       case None => v)
    case OtherEvent => v
  }

  /**
   * One turn of the event loop: the event, and what the server answers while
   * it is handled (window properties can change between turns).
   */
  datatype Turn = Turn(display: Display, event: Event)

  /** The state after a run of turns, starting from `WmState::new`. */
  function Replay(keys: KeyTable, multimedia: Keys.MultimediaKeycodes, turns: seq<Turn>): (r: StateValue)
    ensures FocusInRange(r.windows, r.focused)
  {
    if turns == [] then StateValue([], 0)
    else
      var last := turns[|turns| - 1];
      Step(Replay(keys, multimedia, turns[..|turns| - 1]), last.display, keys, multimedia, last.event)
  }

  /**
   * Every managed window arrived in a MapRequest that was not fullscreen when
   * it was handled, and no DestroyNotify for it has come since.
   */
  lemma {:induction false} ManagedWindowsWereMapped(keys: KeyTable, multimedia: Keys.MultimediaKeycodes,
                                                    turns: seq<Turn>, w: Window)
    requires w in Replay(keys, multimedia, turns).windows
    ensures exists i :: (0 <= i < |turns| && turns[i].event == MapRequest(w) && !IsFullscreen(turns[i].display, w)
      && forall j :: i < j < |turns| ==> turns[j].event != DestroyNotify(w))
  {
    var n := |turns| - 1;
    var prefix := turns[..n];
    var before := Replay(keys, multimedia, prefix);
    if !(turns[n].event == MapRequest(w) && !IsFullscreen(turns[n].display, w)) {
      assert w in before.windows;
      ManagedWindowsWereMapped(keys, multimedia, prefix, w);
      var i :| 0 <= i < |prefix| && prefix[i].event == MapRequest(w) && !IsFullscreen(prefix[i].display, w)
        && forall j :: i < j < |prefix| ==> prefix[j].event != DestroyNotify(w);
      assert turns[i] == prefix[i];
      forall j | i < j < |turns| ensures turns[j].event != DestroyNotify(w) {
        if j < n { assert turns[j] == prefix[j]; }
      }
    }
  }

  /**
   * `handle_key`: focus navigation rotates the focus and re-colours the borders,
   * close acts on the focused window when there is one; no other arm changes
   * the state or sends a request to the server.
   */
  method HandleKey(state: WmState, d: Display, keys: KeyTable, multimedia: Keys.MultimediaKeycodes, keycode: Keycode)
    returns (requests: seq<Request>)
    modifies state
    ensures state.windows == old(state.windows)
    ensures var command := ResolveKey(keys, multimedia, keycode);
      && (command.FocusNextWindow? ==>
            state.focused == NextFocus(old(state.focused), |state.windows|)
            && requests == FocusRequests(state.windows, state.focused))
      && (command.FocusPrevWindow? ==>
            state.focused == PrevFocus(old(state.focused), |state.windows|)
            && requests == FocusRequests(state.windows, state.focused))
      && (command.CloseFocused? ==>
            state.focused == old(state.focused)
            && requests == (if state.focused < |state.windows| then [CloseRequest(d, state.windows[state.focused])] else []))
      && (!command.FocusNextWindow? && !command.FocusPrevWindow? && !command.CloseFocused? ==>
            state.focused == old(state.focused) && requests == [])
  {
    requests := [];
    match ResolveKey(keys, multimedia, keycode) {
      case CloseFocused =>
        if state.focused < |state.windows| {
          requests := CloseWindow(d, state.windows[state.focused]);
        }
      case FocusNextWindow =>
        state.FocusNext();
        requests := Focus(state.windows, state.focused);
      case FocusPrevWindow =>
        state.FocusPrev();
        requests := Focus(state.windows, state.focused);
      case _ =>
    }
  }

  /**
   * The MapRequest arm of `run`: a fullscreen window is configured to the whole
   * screen and mapped without being managed; any other window is appended,
   * focused, mapped and the screen retiled.
   */
  method HandleMapRequest(state: WmState, d: Display, w: Window) returns (requests: seq<Request>)
    modifies state
    ensures IsFullscreen(d, w) ==>
      && state.Value() == old(state.Value())
      && requests == [Configure(FullscreenGeometry(d, w)), MapWindow(w)]
    ensures !IsFullscreen(d, w) ==>
      && state.windows == old(state.windows) + [w]
      && state.focused == |state.windows| - 1
      && requests == [SelectFocusEvents(w, BORDER_NORMAL), SetBorderWidth(w, BORDER_WIDTH), MapWindow(w)]
                     + FocusRequests(state.windows, state.focused) + RetileRequests(d, state.windows)
  {
    if IsFullscreen(d, w) {
      requests := [Configure(FullscreenGeometry(d, w)), MapWindow(w)];
      return;
    }
    requests := [SelectFocusEvents(w, BORDER_NORMAL), SetBorderWidth(w, BORDER_WIDTH)];
    state.windows := state.windows + [w];
    state.focused := |state.windows| - 1;
    requests := requests + [MapWindow(w)];
    var focusRequests := Focus(state.windows, state.focused);
    requests := requests + focusRequests + RetileRequests(d, state.windows);
  }

  /** The DestroyNotify arm of `run`: forget the window, focus the first one and retile. */
  method HandleDestroyNotify(state: WmState, d: Display, w: Window) returns (requests: seq<Request>)
    modifies state
    ensures state.windows == Without(old(state.windows), w)
    ensures state.focused == 0
    ensures requests == FocusRequests(state.windows, 0) + RetileRequests(d, state.windows)
  {
    state.windows := Without(state.windows, w);
    state.focused := 0;
    var focusRequests := Focus(state.windows, state.focused);
    requests := focusRequests + RetileRequests(d, state.windows);
  }

  /**
   * The FocusIn arm of `run`: a managed window that is not already focused
   * takes the focus and the borders are re-coloured; otherwise nothing happens.
   */
  method HandleFocusIn(state: WmState, w: Window) returns (requests: seq<Request>)
    modifies state
    ensures state.windows == old(state.windows)
    ensures match IndexOf(old(state.windows), w)
      case Some(i) =>
        state.focused == i && requests == (if i == old(state.focused) then [] else FocusRequests(state.windows, i))
      case None => state.focused == old(state.focused) && requests == []
  {
    requests := [];
    var index := IndexOf(state.windows, w);
    if index.Some? && state.focused != index.value {
      state.focused := index.value;
      requests := Focus(state.windows, state.focused);
    }
  }

  /** One turn of the event loop in `run`. */
  method HandleEvent(state: WmState, d: Display, keys: KeyTable, multimedia: Keys.MultimediaKeycodes, e: Event)
    returns (requests: seq<Request>)
    modifies state
    ensures state.Value() == Step(old(state.Value()), d, keys, multimedia, e)
    ensures e.MapRequest? && IsFullscreen(d, e.window) ==>
      && state.Value() == old(state.Value())
      && requests == [Configure(FullscreenGeometry(d, e.window)), MapWindow(e.window)]
    ensures e.MapRequest? && !IsFullscreen(d, e.window) ==>
      && state.windows == old(state.windows) + [e.window]
      && state.focused == |state.windows| - 1
      && requests == [SelectFocusEvents(e.window, BORDER_NORMAL), SetBorderWidth(e.window, BORDER_WIDTH), MapWindow(e.window)]
                     + FocusRequests(state.windows, state.focused) + RetileRequests(d, state.windows)
    ensures e.DestroyNotify? ==>
      && state.windows == Without(old(state.windows), e.window)
      && state.focused == 0
      && requests == FocusRequests(state.windows, 0) + RetileRequests(d, state.windows)
    ensures e.FocusIn? ==>
      && state.windows == old(state.windows)
      && (match IndexOf(old(state.windows), e.window)
          case Some(i) =>
            state.focused == i && requests == (if i == old(state.focused) then [] else FocusRequests(state.windows, i))
          case None => state.focused == old(state.focused) && requests == [])
    ensures e.KeyPress? ==>
      && state.windows == old(state.windows)
      && var command := ResolveKey(keys, multimedia, e.detail);
      && (command.FocusNextWindow? ==>
            state.focused == NextFocus(old(state.focused), |state.windows|)
            && requests == FocusRequests(state.windows, state.focused))
      && (command.FocusPrevWindow? ==>
            state.focused == PrevFocus(old(state.focused), |state.windows|)
            && requests == FocusRequests(state.windows, state.focused))
      && (command.CloseFocused? ==>
            state.focused == old(state.focused)
            && requests == (if state.focused < |state.windows| then [CloseRequest(d, state.windows[state.focused])] else []))
      && (!command.FocusNextWindow? && !command.FocusPrevWindow? && !command.CloseFocused? ==>
            state.focused == old(state.focused) && requests == [])
    ensures e.OtherEvent? ==> state.Value() == old(state.Value()) && requests == []
  {
    match e {
      case MapRequest(w) =>
        requests := HandleMapRequest(state, d, w);
      case DestroyNotify(w) =>
        requests := HandleDestroyNotify(state, d, w);
      case KeyPress(keycode) =>
        requests := HandleKey(state, d, keys, multimedia, keycode);
      case FocusIn(w) =>
        requests := HandleFocusIn(state, w);
      case OtherEvent =>
        requests := [];
    }
  }

  /**
   * The event loop over the turns the server delivers, from an empty state:
   * the final state is the replay of the turns, and its focus is in range.
   */
  method Run(keys: KeyTable, multimedia: Keys.MultimediaKeycodes, turns: seq<Turn>)
    returns (windows: seq<Window>, focused: nat)
    ensures StateValue(windows, focused) == Replay(keys, multimedia, turns)
    ensures FocusInRange(windows, focused)
  {
    var state := new WmState();
    for i := 0 to |turns|
      invariant state.Value() == Replay(keys, multimedia, turns[..i])
    {
      var requests := HandleEvent(state, turns[i].display, keys, multimedia, turns[i].event);
      assert turns[..i + 1][..i] == turns[..i];
    }
    assert turns[..|turns|] == turns;
    windows, focused := state.windows, state.focused;
  }
}
