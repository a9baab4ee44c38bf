// The WinForms game window: the mouse-to-touch translation, the cursor
// hide/show bookkeeping, the border-style setters and the switches into and
// out of full screen.

module WinFormsWindow {
  import opened Wrappers
  import opened Numerics

  // ---------------------------------------------------------------------
  // Touch events derived from the left mouse button
  // ---------------------------------------------------------------------

  datatype TouchState = Pressed | Moved | Released

  /** A touch event: id 0, flagged as coming from the mouse. */
  datatype TouchEvent = TouchEvent(id: int, state: TouchState, x: int, y: int, isMouse: bool)

  /** The touch state an active, in-client mouse sample reports for the left-button edge, if any. */
  function TouchEdge(wasPressed: bool, isPressed: bool): Option<TouchState> {
    if isPressed then
      if !wasPressed then Some(Pressed) else Some(Moved)
    else if wasPressed then Some(Released)
    else None
  }

  /** `Rectangle.Contains` for the client rectangle, whose origin is (0, 0). */
  predicate WithinClient(x: int, y: int, width: int, height: int) {
    0 <= x < width && 0 <= y < height
  }

  /**
   * The touch events one mouse sample adds. When the platform is inactive or
   * the cursor is outside the client area, a held button releases the touch
   * at the cursor clamped into the client area and nothing else happens;
   * otherwise the left-button edge is reported at the cursor.
   */
  function TouchEventsFor(isActive: bool, wasPressed: bool, isPressed: bool, x: int, y: int, width: int, height: int)
    : seq<TouchEvent>
  {
    if !isActive || !WithinClient(x, y, width, height) then
      if isPressed then [TouchEvent(0, Released, Clamp(x, 0, width - 1), Clamp(y, 0, height - 1), true)]
      else []
    else
      match TouchEdge(wasPressed, isPressed)
      case Some(state) => [TouchEvent(0, state, x, y, true)]
      case None => []
  }

  /** The four left-button edges of an active, in-client sample, and the release-only path outside it. */
  lemma TouchEdges(isActive: bool, wasPressed: bool, isPressed: bool, x: int, y: int, width: int, height: int)
    ensures var events := TouchEventsFor(isActive, wasPressed, isPressed, x, y, width, height);
      && |events| <= 1
      && (forall e :: e in events ==> e.id == 0 && e.isMouse)
      && (isActive && WithinClient(x, y, width, height) ==>
            && (!wasPressed && isPressed ==> events == [TouchEvent(0, Pressed, x, y, true)])
            && (wasPressed && isPressed ==> events == [TouchEvent(0, Moved, x, y, true)])
            && (wasPressed && !isPressed ==> events == [TouchEvent(0, Released, x, y, true)])
            && (!wasPressed && !isPressed ==> events == []))
      && (!(isActive && WithinClient(x, y, width, height)) ==>
            && (isPressed <==> |events| == 1)
            && (forall e :: e in events ==>
                  && e.state == Released
                  && (0 < width && 0 < height ==> WithinClient(e.x, e.y, width, height))))
  {
  }

  /** A mouse sample: cursor position in client coordinates and whether the left button is down. */
  datatype Sample = Sample(x: int, y: int, leftPressed: bool)

  /** The touch states a run of active, in-client samples reports, starting from button state `wasPressed`. */
  function TouchTrace(wasPressed: bool, samples: seq<Sample>): seq<TouchState>
    decreases |samples|
  {
    if samples == [] then []
    else
      var s := samples[0];
      var here := match TouchEdge(wasPressed, s.leftPressed) case Some(t) => [t] case None => [];
      here + TouchTrace(s.leftPressed, samples[1..])
  }

  /**
   * A well-formed gesture stream: a touch is pressed only when none is down,
   * moved or released only while one is down.
   */
  predicate Gestures(states: seq<TouchState>, down: bool)
    decreases |states|
  {
    if states == [] then true
    else match states[0]
      case Pressed => !down && Gestures(states[1..], true)
      case Moved => down && Gestures(states[1..], true)
      case Released => down && Gestures(states[1..], false)
  }

  /** The edges reported by successive samples always form well-formed gestures. */
  lemma {:induction false} TraceIsGestures(wasPressed: bool, samples: seq<Sample>)
    ensures Gestures(TouchTrace(wasPressed, samples), wasPressed)
    decreases |samples|
  {
    if samples != [] {
      var s := samples[0];
      TraceIsGestures(s.leftPressed, samples[1..]);
      var rest := TouchTrace(s.leftPressed, samples[1..]);
      match TouchEdge(wasPressed, s.leftPressed)
      case Some(t) =>
        assert TouchTrace(wasPressed, samples) == [t] + rest;
        assert ([t] + rest)[1..] == rest;
      case None =>
        assert TouchTrace(wasPressed, samples) == rest;
    }
  }

  // System.Windows.Forms.MouseButtons flags.
  const LEFT_BUTTON: nat := 0x10_0000
  const RIGHT_BUTTON: nat := 0x20_0000
  const MIDDLE_BUTTON: nat := 0x40_0000
  const X_BUTTON_1: nat := 0x80_0000
  const X_BUTTON_2: nat := 0x100_0000

  /** `(buttons & flag) == flag` for a single-bit flag. */
  predicate ButtonDown(buttons: nat, flag: nat)
    requires flag > 0
  {
    (buttons / flag) % 2 == 1
  }

  // ---------------------------------------------------------------------
  // Border style and the full-screen decision
  // ---------------------------------------------------------------------

  datatype BorderStyle = NoBorder | FixedSingle | Sizable
  datatype WindowState = Normal | Minimized | Maximized
  datatype Point = Point(x: int, y: int)

  /** The border a window shows: none when borderless, else sizable exactly when resizable. */
  function BorderStyleFor(isBorderless: bool, isResizable: bool): (style: BorderStyle)
    ensures style == NoBorder <==> isBorderless
    ensures style == Sizable <==> !isBorderless && isResizable
    ensures style == FixedSingle <==> !isBorderless && !isResizable
  {
    if isBorderless then NoBorder
    else if isResizable then Sizable
    else FixedSingle
  }

  /** The presentation parameters the window reacts to. */
  datatype Presentation = Presentation(isFullScreen: bool, hardwareModeSwitch: bool, backBufferWidth: int, backBufferHeight: int)

  /** Which branch OnPresentationChanged takes. */
  datatype Change = ResizeTargets | Minimize | Enter | Exit | Keep

  function ChangeFor(pp: Presentation, isFullScreen: bool, hardwareModeSwitch: bool, isActive: bool): Change {
    if pp.isFullScreen && pp.hardwareModeSwitch && isFullScreen && hardwareModeSwitch then
      if isActive then ResizeTargets else Minimize
    else if pp.isFullScreen && (!isFullScreen || pp.hardwareModeSwitch != hardwareModeSwitch) then Enter
    else if !pp.isFullScreen && isFullScreen then Exit
    else Keep
  }

  /** The (IsFullScreen, HardwareModeSwitch) pair after a branch has run. */
  function ModeAfter(change: Change, pp: Presentation, isFullScreen: bool, hardwareModeSwitch: bool): (bool, bool) {
    match change
    case Enter => (true, pp.hardwareModeSwitch)
    case Exit | Minimize => (false, hardwareModeSwitch)
    case ResizeTargets | Keep => (isFullScreen, hardwareModeSwitch)
  }

  /**
   * Except when an inactive window leaves exclusive full screen by
   * minimising, the window ends in the requested mode: full screen exactly
   * when asked, and with the requested mode switch when full screen. It
   * minimises only from exclusive full screen while exclusive full screen is
   * asked for again.
   */
  lemma PresentationReachesRequest(pp: Presentation, isFullScreen: bool, hardwareModeSwitch: bool, isActive: bool)
    ensures var change := ChangeFor(pp, isFullScreen, hardwareModeSwitch, isActive);
      var after := ModeAfter(change, pp, isFullScreen, hardwareModeSwitch);
      && (change != Minimize ==> after.0 == pp.isFullScreen && (after.0 ==> after.1 == pp.hardwareModeSwitch))
      && (change == Minimize <==> pp.isFullScreen && pp.hardwareModeSwitch && isFullScreen && hardwareModeSwitch && !isActive)
      && (change in {Enter, Exit, Minimize} <==> after != (isFullScreen, hardwareModeSwitch))
  {
  }


  /** Native calls and events the window makes, in order. */
  datatype Effect =
    | SetHardwareFullscreen
    | ClearHardwareFullscreen
    | ResizeTargetsCalled
    | RedrawDesktop
    | FormShown
    | ClientSizeChanged

  /** What EnterFullScreen calls: the device switch, and for borderless full screen the form is shown. */
  function EnterEffects(hardwareModeSwitch: bool): seq<Effect> {
    if hardwareModeSwitch then [SetHardwareFullscreen] else [SetHardwareFullscreen, FormShown]
  }

  /** What ExitFullScreen and MinimizeFullScreen call: the device switch, and a desktop redraw after borderless full screen. */
  function LeaveEffects(hardwareModeSwitch: bool): seq<Effect> {
    if hardwareModeSwitch then [ClearHardwareFullscreen] else [ClearHardwareFullscreen, RedrawDesktop]
  }

  /** What OnPresentationChanged calls and raises for the branch `change`. */
  function PresentationEffects(change: Change, pp: Presentation, hardwareModeSwitch: bool): seq<Effect> {
    match change
    case ResizeTargets => [ResizeTargetsCalled]
    case Minimize => LeaveEffects(hardwareModeSwitch)
    case Enter => EnterEffects(pp.hardwareModeSwitch) + [ClientSizeChanged]
    case Exit => LeaveEffects(hardwareModeSwitch) + [ClientSizeChanged]
    case Keep => []
  }

  /**
   * ClientSizeChanged is raised exactly when the window entered full screen
   * or left it through ExitFullScreen (leaving by minimising raises nothing),
   * once, as the last thing OnPresentationChanged does; the device
   * is told to leave full screen exactly on exit and minimise.
   */
  lemma ClientSizeChangedOnSwitch(pp: Presentation, isFullScreen: bool, hardwareModeSwitch: bool, isActive: bool)
    ensures var change := ChangeFor(pp, isFullScreen, hardwareModeSwitch, isActive);
      var effects := PresentationEffects(change, pp, hardwareModeSwitch);
      && (ClientSizeChanged in effects <==> change in {Enter, Exit})
      && (ClientSizeChanged in effects ==> effects[|effects| - 1] == ClientSizeChanged && ClientSizeChanged !in effects[..|effects| - 1])
      && (ClearHardwareFullscreen in effects <==> change in {Exit, Minimize})
      && (SetHardwareFullscreen in effects <==> change == Enter)
      && (effects == [] <==> change == Keep)
  {
  }

  /** The parts of the WinForms form the window sets. */
  datatype Form = Form(
    maximizeBox: bool,
    borderStyle: BorderStyle,
    windowState: WindowState,
    location: Point,
    clientWidth: int,
    clientHeight: int)

  /** The form after leaving full screen: bordered by resizability, in form state `state`, at `location`. */
  function LeftForm(f: Form, state: WindowState, location: Point, isResizable: bool): Form {
    f.(borderStyle := BorderStyleFor(false, isResizable), windowState := state, location := location)
  }

  /** The form after entering borderless full screen: no border, maximised, where it was. */
  function EnteredForm(f: Form): Form {
    f.(borderStyle := NoBorder, windowState := Maximized)
  }

  /** ChangeClientSize: the client area takes the back buffer's size. */
  function Resized(f: Form, pp: Presentation): Form {
    f.(clientWidth := pp.backBufferWidth, clientHeight := pp.backBufferHeight)
  }

  /** The mouse state the window samples: cursor position and the five buttons. */
  datatype Mouse = Mouse(x: int, y: int, left: bool, middle: bool, right: bool, xButton1: bool, xButton2: bool)

  // ---------------------------------------------------------------------
  // The window
  // ---------------------------------------------------------------------

  class GameWindow {
    var isResizable: bool
    var isBorderless: bool
    var isMouseHidden: bool
    var isMouseInBounds: bool
    var switchingFullScreen: bool
    var isFullScreen: bool
    var hardwareModeSwitch: bool
    /** The platform's IsActive. */
    var isActive: bool

    var form: Form
    var lastFormState: WindowState
    var locationBeforeFullScreen: Point

    /** The system cursor's display counter: Cursor.Hide decrements it, Cursor.Show increments it. */
    var cursorCounter: int

    var mouse: Mouse
    /** The touch panel's event queue. */
    var touchEvents: seq<TouchEvent>

    var effects: seq<Effect>

    /**
     * The border always matches the two flags, the maximise box follows
     * resizability, the cursor is hidden exactly once while the window says
     * so, and no full-screen switch is in progress between calls.
     */
    predicate Valid()
      reads this
    {
      && form.borderStyle == BorderStyleFor(isBorderless, isResizable)
      && form.maximizeBox == isResizable
      && cursorCounter == (if isMouseHidden then -1 else 0)
      && !switchingFullScreen
    }

    /** A new window: fixed-size border, no maximise box, at the given (scaled) default client size. */
    constructor(width: int, height: int, location: Point)
      ensures Valid()
      ensures !isResizable && !isBorderless && !isMouseHidden && !isFullScreen && !isActive
      ensures form == Form(false, FixedSingle, Normal, location, width, height)
      ensures touchEvents == [] && effects == []
    {
      isResizable := false;
      isBorderless := false;
      isMouseHidden := false;
      isMouseInBounds := false;
      switchingFullScreen := false;
      isFullScreen := false;
      hardwareModeSwitch := false;
      isActive := false;
      form := Form(false, FixedSingle, Normal, location, width, height);
      lastFormState := Normal;
      locationBeforeFullScreen := location;
      cursorCounter := 0;
      mouse := Mouse(0, 0, false, false, false, false, false);
      touchEvents := [];
      effects := [];
    }

    /** The AllowUserResizing setter: nothing happens for an unchanged value. */
    method SetAllowUserResizing(value: bool)
      requires Valid()
      modifies this`isResizable, this`form
      ensures Valid()
      ensures isResizable == value
      ensures value == old(isResizable) ==> form == old(form)
      ensures form == old(form).(maximizeBox := form.maximizeBox, borderStyle := form.borderStyle)
    {
      if isResizable != value {
        isResizable := value;
        form := form.(maximizeBox := isResizable);
      } else {
        return;
      }
      if isBorderless {
        return;
      }
      form := form.(borderStyle := if isResizable then Sizable else FixedSingle);
    }

    /** The IsBorderless setter: nothing happens for an unchanged value. */
    method SetBorderless(value: bool)
      requires form.borderStyle == BorderStyleFor(isBorderless, isResizable)
      modifies this`isBorderless, this`form
      ensures isBorderless == value
      ensures form == old(form).(borderStyle := BorderStyleFor(value, isResizable))
    {
      if isBorderless != value {
        isBorderless := value;
      } else {
        return;
      }
      if isBorderless {
        form := form.(borderStyle := NoBorder);
      } else {
        form := form.(borderStyle := if isResizable then Sizable else FixedSingle);
      }
    }

    /** The cursor enters the client area: hide it if it should be invisible and is not hidden yet. */
    method OnMouseEnter(isMouseVisible: bool)
      requires Valid()
      modifies this`isMouseInBounds, this`isMouseHidden, this`cursorCounter
      ensures Valid()
      ensures isMouseInBounds
      ensures isMouseHidden == (old(isMouseHidden) || !isMouseVisible)
    {
      isMouseInBounds := true;
      if !isMouseVisible && !isMouseHidden {
        isMouseHidden := true;
        cursorCounter := cursorCounter - 1;
      }
    }

    /** The cursor leaves the client area: show it again if this window hid it. */
    method OnMouseLeave()
      requires Valid()
      modifies this`isMouseInBounds, this`isMouseHidden, this`cursorCounter
      ensures Valid()
      ensures !isMouseInBounds && !isMouseHidden
    {
      isMouseInBounds := false;
      if isMouseHidden {
        isMouseHidden := false;
        cursorCounter := cursorCounter + 1;
      }
    }

    /** The platform's IsMouseVisible changed. */
    method MouseVisibleToggled(isMouseVisible: bool)
      requires Valid()
      modifies this`isMouseHidden, this`cursorCounter
      ensures Valid()
      ensures isMouseVisible ==> !isMouseHidden
      ensures !isMouseVisible && isMouseInBounds ==> isMouseHidden
      ensures !isMouseVisible && !isMouseInBounds ==> isMouseHidden == old(isMouseHidden)
    {
      if isMouseVisible {
        if isMouseHidden {
          cursorCounter := cursorCounter + 1;
          isMouseHidden := false;
        }
      } else if !isMouseHidden && isMouseInBounds {
        cursorCounter := cursorCounter - 1;
        isMouseHidden := true;
      }
    }

    /**
     * UpdateMouseState: sample the cursor (already mapped to client
     * coordinates) and the button flags, and queue the touch events the left
     * button implies. Nothing happens before the form is visible.
     */
    method UpdateMouseState(formVisible: bool, x: int, y: int, buttons: nat)
      modifies this`mouse, this`touchEvents
      ensures !formVisible ==> mouse == old(mouse) && touchEvents == old(touchEvents)
      ensures formVisible ==>
        && mouse == Mouse(x, y, ButtonDown(buttons, LEFT_BUTTON), ButtonDown(buttons, MIDDLE_BUTTON),
                          ButtonDown(buttons, RIGHT_BUTTON), ButtonDown(buttons, X_BUTTON_1), ButtonDown(buttons, X_BUTTON_2))
        && touchEvents == old(touchEvents)
             + TouchEventsFor(isActive, old(mouse).left, mouse.left, x, y, form.clientWidth, form.clientHeight)
    {
      if !formVisible {
        return;
      }
      var withinClient := 0 <= x < form.clientWidth && 0 <= y < form.clientHeight;
      var previousState := mouse.left;
      mouse := Mouse(x, y, ButtonDown(buttons, LEFT_BUTTON), ButtonDown(buttons, MIDDLE_BUTTON),
                     ButtonDown(buttons, RIGHT_BUTTON), ButtonDown(buttons, X_BUTTON_1), ButtonDown(buttons, X_BUTTON_2));

      if !isActive || !withinClient {
        if mouse.left {
          var touchX := Clamp(mouse.x, 0, form.clientWidth - 1);
          var touchY := Clamp(mouse.y, 0, form.clientHeight - 1);
          touchEvents := touchEvents + [TouchEvent(0, Released, touchX, touchY, true)];
        }
        return;
      }

      var touchState: Option<TouchState> := None;
      if mouse.left {
        if !previousState {
          touchState := Some(Pressed);
        } else {
          touchState := Some(Moved);
        }
      } else if previousState {
        touchState := Some(Released);
      }
      if touchState.Some? {
        touchEvents := touchEvents + [TouchEvent(0, touchState.value, mouse.x, mouse.y, true)];
      }
    }

    method OnActivated()
      modifies this`isActive
      ensures isActive
    {
      isActive := true;
    }

    /**
     * Deactivation drops a minimised exclusive full-screen window out of full
     * screen, back at the location it had before full screen; otherwise only
     * the platform's IsActive changes.
     */
    method OnDeactivate(deviceHardwareModeSwitch: bool)
      requires Valid()
      modifies this`switchingFullScreen, this`isActive, this`effects, this`isBorderless, this`form
      modifies this`lastFormState, this`isFullScreen
      ensures Valid()
      ensures !isActive
      ensures old(isFullScreen) && deviceHardwareModeSwitch && old(form.windowState) == Minimized ==>
        && LeftFullScreen(Minimized)
        && form == LeftForm(old(form), Minimized, old(locationBeforeFullScreen), isResizable)
        && effects == old(effects) + LeaveEffects(hardwareModeSwitch)
      ensures !(old(isFullScreen) && deviceHardwareModeSwitch && old(form.windowState) == Minimized) ==>
        && isFullScreen == old(isFullScreen) && isBorderless == old(isBorderless) && form == old(form)
        && lastFormState == old(lastFormState) && effects == old(effects)
    {
      if isFullScreen && deviceHardwareModeSwitch {
        if form.windowState == Minimized {
          MinimizeFullScreen();
        }
      }
      isActive := false;
    }

    /**
     * OnPresentationChanged: the branch ChangeFor picks runs, the client size
     * follows the back buffer, and ClientSizeChanged is raised exactly when
     * full screen was entered, or left through ExitFullScreen; leaving by
     * minimising raises nothing. Each branch leaves the form, the
     * border flag, the remembered form state and the remembered location as
     * the helper it calls does.
     */
    method OnPresentationChanged(pp: Presentation)
      requires Valid()
      modifies this`switchingFullScreen, this`locationBeforeFullScreen, this`effects, this`isBorderless, this`form
      modifies this`lastFormState, this`isFullScreen, this`hardwareModeSwitch
      ensures Valid()
      ensures var change := ChangeFor(pp, old(isFullScreen), old(hardwareModeSwitch), isActive);
        && (isFullScreen, hardwareModeSwitch) == ModeAfter(change, pp, old(isFullScreen), old(hardwareModeSwitch))
        && form.clientWidth == pp.backBufferWidth && form.clientHeight == pp.backBufferHeight
        && effects == old(effects) + PresentationEffects(change, pp, old(hardwareModeSwitch))
      ensures var change := ChangeFor(pp, old(isFullScreen), old(hardwareModeSwitch), isActive);
        change in {ResizeTargets, Keep} ==>
          && isBorderless == old(isBorderless) && lastFormState == old(lastFormState)
          && locationBeforeFullScreen == old(locationBeforeFullScreen)
          && form == Resized(old(form), pp)
      ensures var change := ChangeFor(pp, old(isFullScreen), old(hardwareModeSwitch), isActive);
        change in {Minimize, Exit} ==>
          var state := if change == Minimize then Minimized else Normal;
          && !isBorderless && lastFormState == state
          && locationBeforeFullScreen == old(locationBeforeFullScreen)
          && form == Resized(LeftForm(old(form), state, old(locationBeforeFullScreen), isResizable), pp)
      ensures var change := ChangeFor(pp, old(isFullScreen), old(hardwareModeSwitch), isActive);
        change == Enter ==>
          && locationBeforeFullScreen == (if old(isFullScreen) then old(locationBeforeFullScreen) else old(form.location))
          && (pp.hardwareModeSwitch ==>
                isBorderless == old(isBorderless) && lastFormState == old(lastFormState) && form == Resized(old(form), pp))
          && (!pp.hardwareModeSwitch ==>
                isBorderless && lastFormState == Maximized && form == Resized(EnteredForm(old(form)), pp))
    {
      ghost var change := ChangeFor(pp, isFullScreen, hardwareModeSwitch, isActive);
      var raiseClientSizeChanged := false;
      if pp.isFullScreen && pp.hardwareModeSwitch && isFullScreen && hardwareModeSwitch {
        if isActive {
          assert change == ResizeTargets;
          effects := effects + [ResizeTargetsCalled];
        } else {
          assert change == Minimize;
          MinimizeFullScreen();
        }
      } else if pp.isFullScreen && (!isFullScreen || pp.hardwareModeSwitch != hardwareModeSwitch) {
        assert change == Enter;
        EnterFullScreen(pp);
        raiseClientSizeChanged := true;
      } else if !pp.isFullScreen && isFullScreen {
        assert change == Exit;
        ExitFullScreen();
        raiseClientSizeChanged := true;
      } else {
        assert change == Keep;
      }

      form := form.(clientWidth := pp.backBufferWidth, clientHeight := pp.backBufferHeight);

      if raiseClientSizeChanged {
        effects := effects + [ClientSizeChanged];
      }
    }

    /**
     * EnterFullScreen: remember the windowed location (only when coming from
     * a window), and for borderless full screen show the form borderless and
     * maximised.
     */
    method EnterFullScreen(pp: Presentation)
      requires Valid()
      modifies this`switchingFullScreen, this`locationBeforeFullScreen, this`effects, this`isBorderless, this`form
      modifies this`lastFormState, this`isFullScreen, this`hardwareModeSwitch
      ensures Valid()
      ensures isFullScreen && hardwareModeSwitch == pp.hardwareModeSwitch
      ensures locationBeforeFullScreen == if old(isFullScreen) then old(locationBeforeFullScreen) else old(form.location)
      ensures effects == old(effects) + EnterEffects(pp.hardwareModeSwitch)
      ensures !pp.hardwareModeSwitch ==> isBorderless && lastFormState == Maximized && form == EnteredForm(old(form))
      ensures pp.hardwareModeSwitch ==>
        isBorderless == old(isBorderless) && lastFormState == old(lastFormState) && form == old(form)
    {
      switchingFullScreen := true;
      if !isFullScreen {
        locationBeforeFullScreen := form.location;
      }
      if pp.hardwareModeSwitch {
        effects := effects + [SetHardwareFullscreen];
      } else {
        effects := effects + [SetHardwareFullscreen, FormShown];
        SetBorderless(true);
        form, lastFormState := form.(windowState := Maximized), Maximized;
      }
      isFullScreen, hardwareModeSwitch, switchingFullScreen := true, pp.hardwareModeSwitch, false;
    }

    /** ExitFullScreen: back to a bordered, normal window at the remembered location. */
    method ExitFullScreen()
      requires Valid()
      modifies this`switchingFullScreen, this`effects, this`isBorderless, this`form
      modifies this`lastFormState, this`isFullScreen
      ensures Valid()
      ensures LeftFullScreen(Normal)
      ensures form == LeftForm(old(form), Normal, old(locationBeforeFullScreen), isResizable)
      ensures effects == old(effects) + LeaveEffects(hardwareModeSwitch)
    {
      switchingFullScreen := true;
      effects := effects + [ClearHardwareFullscreen];
      SetBorderless(false);
      form, lastFormState := form.(windowState := Normal, location := locationBeforeFullScreen), Normal;
      isFullScreen := false;
      if !hardwareModeSwitch {
        effects := effects + [RedrawDesktop];
      }
      switchingFullScreen := false;
    }

    /** MinimizeFullScreen: as ExitFullScreen, but the form ends minimised. */
    method MinimizeFullScreen()
      requires Valid()
      modifies this`switchingFullScreen, this`effects, this`isBorderless, this`form
      modifies this`lastFormState, this`isFullScreen
      ensures Valid()
      ensures LeftFullScreen(Minimized)
      ensures form == LeftForm(old(form), Minimized, old(locationBeforeFullScreen), isResizable)
      ensures effects == old(effects) + LeaveEffects(hardwareModeSwitch)
    {
      switchingFullScreen := true;
      effects := effects + [ClearHardwareFullscreen];
      SetBorderless(false);
      form, lastFormState := form.(windowState := Minimized, location := locationBeforeFullScreen), Minimized;
      isFullScreen := false;
      if !hardwareModeSwitch {
        effects := effects + [RedrawDesktop];
      }
      switchingFullScreen := false;
    }

    /**
     * The state after leaving full screen into form state `state`: windowed,
     * bordered, at the remembered location, which the switch leaves as it was.
     */
    predicate LeftFullScreen(state: WindowState)
      reads this
    {
      && !isFullScreen && !isBorderless
      && form.windowState == state && lastFormState == state
      && form.location == locationBeforeFullScreen
    }
  }
}
