/**
 * WinFormsGameForm: decoding the Win32 messages the game form handles.
 *
 * WParam and LParam are pointer-sized (64-bit) signed integers. Their bit
 * fields are read from the 64-bit two's-complement pattern; `ToInt32()` on
 * a pointer-sized value outside the 32-bit range throws OverflowException.
 * The window-procedure switch is a function from the message and the
 * window's flags to the reaction it causes.
 */
module WinFormsMessages {
  import opened Wrappers
  import opened Numerics

  predicate IsInt64(x: int) { -0x8000_0000_0000_0000 <= x < 0x8000_0000_0000_0000 }

  /** The 64-bit two's-complement pattern of a pointer-sized value, as an unsigned number. */
  function Unsigned64(x: int): nat {
    x % 0x1_0000_0000_0000_0000
  }

  /** IntPtr.ToInt32() in a 64-bit process: a checked conversion. */
  function CheckedInt32(x: int): (r: Result<int, Exception>)
    ensures r.Success? <==> IsInt32(x)
    ensures r.Success? ==> r.value == x
    ensures r.Failure? ==> r.error == OverflowException
  {
    if IsInt32(x) then Success(x) else Failure(OverflowException)
  }

  /** Two 16-bit values that agree modulo 2^16 are equal. */
  lemma Int16Unique(a: int, b: int)
    requires IsInt16(a) && IsInt16(b) && (a - b) % 0x1_0000 == 0
    ensures a == b
  {
  }

  // ---------------------------------------------------------------------
  // Pointer messages
  // ---------------------------------------------------------------------

  datatype Point = Point(x: int, y: int)

  /**
   * GetPointerId: `(short)msg.WParam` goes through IntPtr's explicit
   * conversion to `int`, which is checked, and then truncates to 16 bits.
   */
  function GetPointerId(wParam: int): (id: Result<int, Exception>)
    ensures id.Failure? <==> !IsInt32(wParam)
    ensures id.Failure? ==> id.error == OverflowException
    ensures id.Success? ==> IsInt16(id.value) && (id.value - wParam) % 0x1_0000 == 0
  {
    var v :- CheckedInt32(wParam);
    Success(ToInt16(v))
  }

  /**
   * A pointer id in the low word of WParam comes back when the high word is
   * a 16-bit signed value; any other high word (one with bit 15 set, read
   * as unsigned) takes WParam out of the 32-bit range and throws.
   */
  lemma PointerIdRoundTrip(id: int, high: int)
    requires IsInt16(id)
    ensures GetPointerId(high * 0x1_0000 + id % 0x1_0000)
      == if IsInt16(high) then Success(id) else Failure(OverflowException)
  {
    var w := high * 0x1_0000 + id % 0x1_0000;
    if !IsInt16(high) {
      if high >= 0x8000 {
        assert w >= 0x8000 * 0x1_0000;
      } else {
        assert high * 0x1_0000 <= -0x8001 * 0x1_0000;
      }
      return;
    }
    assert IsInt32(w);
    var r := GetPointerId(w).value;
    assert (r - w) % 0x1_0000 == 0;
    assert (w - id) % 0x1_0000 == 0 by {
      assert w - id == high * 0x1_0000 + (id % 0x1_0000 - id);
      assert id % 0x1_0000 - id == -(id / 0x1_0000) * 0x1_0000;
    }
    assert (r - id) % 0x1_0000 == 0 by {
      assert r - id == (r - w) + (w - id);
    }
    Int16Unique(r, id);
  }

  /**
   * GetPointerLocation: X is the low word of LParam and Y the high word,
   * each sign-extended; `>> 16` on an `int` is an arithmetic shift.
   */
  function GetPointerLocation(lParam: int): (r: Result<Point, Exception>)
    ensures r.Failure? <==> !IsInt32(lParam)
    ensures r.Success? ==> IsInt16(r.value.x) && IsInt16(r.value.y)
  {
    var lowword :- CheckedInt32(lParam);
    Success(Point(ToInt16(lowword), ToInt16(lowword / 0x1_0000)))
  }

  /** The LParam of a pointer message at (x, y): y in the high word, x in the low word. */
  function PointerLParam(x: int, y: int): int
    requires IsInt16(x) && IsInt16(y)
  {
    y * 0x1_0000 + x % 0x1_0000
  }

  lemma PointerLocationRoundTrip(x: int, y: int)
    requires IsInt16(x) && IsInt16(y)
    ensures GetPointerLocation(PointerLParam(x, y)) == Success(Point(x, y))
  {
    var l := PointerLParam(x, y);
    assert IsInt32(l);
    assert l / 0x1_0000 == y;
    PointerIdRoundTrip(x, y);
    assert ToInt16(l) == x;
    assert ToInt16(l / 0x1_0000) == y;
  }

  // ---------------------------------------------------------------------
  // Keystroke messages
  // ---------------------------------------------------------------------

  /** Bit 24 of LParam (`LParam & 0x01000000`): the key is an extended key. */
  function Extended(lParam: int): bool {
    (Unsigned64(lParam) / 0x100_0000) % 2 == 1
  }

  /** Bits 16-23 of LParam (`(LParam & 0x00ff0000) >> 16`): the scan code. */
  function ScanCode(lParam: int): (scancode: int)
    ensures 0 <= scancode < 0x100
  {
    (Unsigned64(lParam) / 0x1_0000) % 0x100
  }

  /**
   * The LParam Windows sends with a keystroke: repeat count in bits 0-15,
   * scan code in 16-23, extended flag in 24, context code in 29, previous
   * key state in 30 and transition state in 31.
   */
  function KeystrokeLParam(repeat: int, scancode: int, extended: bool, context: bool, previous: bool, transition: bool): int
    requires 0 <= repeat < 0x1_0000 && 0 <= scancode < 0x100
  {
    repeat + scancode * 0x1_0000 + KeystrokeFlags(extended, context, previous, transition) * 0x100_0000
  }

  /** Bits 24-31 of a keystroke's LParam. */
  function KeystrokeFlags(extended: bool, context: bool, previous: bool, transition: bool): (flags: int)
    ensures 0 <= flags < 0x100 && (flags % 2 == 1 <==> extended)
  {
    (if extended then 1 else 0) + (if context then 0x20 else 0)
    + (if previous then 0x40 else 0) + (if transition then 0x80 else 0)
  }

  /** Decoding a keystroke's LParam gives back its extended flag and scan code. */
  lemma KeystrokeRoundTrip(repeat: int, scancode: int, extended: bool, context: bool, previous: bool, transition: bool)
    requires 0 <= repeat < 0x1_0000 && 0 <= scancode < 0x100
    ensures Extended(KeystrokeLParam(repeat, scancode, extended, context, previous, transition)) == extended
    ensures ScanCode(KeystrokeLParam(repeat, scancode, extended, context, previous, transition)) == scancode
  {
    var flags := KeystrokeFlags(extended, context, previous, transition);
    var l := KeystrokeLParam(repeat, scancode, extended, context, previous, transition);
    SplitAt(l, 0x1_0000_0000_0000_0000, l, 0);
    var above16 := scancode + flags * 0x100;
    SplitAt(l, 0x1_0000, repeat, above16);
    SplitAt(above16, 0x100, scancode, flags);
    SplitAt(l, 0x100_0000, repeat + scancode * 0x1_0000, flags);
  }

  // The System.Windows.Forms.Keys codes the translation looks at.
  const SHIFT_KEY: int := 0x10
  const CONTROL_KEY: int := 0x11
  const MENU: int := 0x12
  const ALT: int := 0x4_0000

  // The sided Input.Keys codes it produces (the Windows virtual-key codes).
  const LEFT_SHIFT: int := 0xA0
  const RIGHT_SHIFT: int := 0xA1
  const LEFT_CONTROL: int := 0xA2
  const RIGHT_CONTROL: int := 0xA3
  const LEFT_ALT: int := 0xA4
  const RIGHT_ALT: int := 0xA5

  /** The right shift key's scan code. */
  const RIGHT_SHIFT_SCANCODE: int := 0x36

  /**
   * KeyCodeTranslate: the generic Control, Shift and Alt codes become their
   * left or right key; every other code passes through. `scancode & 0x1FF`
   * on a `long` is the non-negative remainder modulo 0x200.
   */
  function KeyCodeTranslate(keyCode: int, extended: bool, scancode: int): (key: int)
    ensures keyCode !in {CONTROL_KEY, SHIFT_KEY, MENU, ALT} ==> key == keyCode
    ensures keyCode == CONTROL_KEY ==> key == if extended then RIGHT_CONTROL else LEFT_CONTROL
    ensures keyCode == SHIFT_KEY ==> key == if scancode % 0x200 == RIGHT_SHIFT_SCANCODE then RIGHT_SHIFT else LEFT_SHIFT
    ensures keyCode in {MENU, ALT} ==> key == if extended then RIGHT_ALT else LEFT_ALT
  {
    if keyCode == CONTROL_KEY then
      if extended then RIGHT_CONTROL else LEFT_CONTROL
    else if keyCode == SHIFT_KEY then
      if scancode % 0x200 == RIGHT_SHIFT_SCANCODE then RIGHT_SHIFT else LEFT_SHIFT
    else if keyCode == MENU || keyCode == ALT then
      if extended then RIGHT_ALT else LEFT_ALT
    else keyCode
  }

  /**
   * The translation is sided: it never yields a generic Control, Shift or
   * Alt code, so translating its result again changes nothing; every other
   * code passes through unchanged.
   */
  lemma TranslationIsSided(keyCode: int, extended: bool, scancode: int, extended': bool, scancode': int)
    ensures var key := KeyCodeTranslate(keyCode, extended, scancode);
      && key !in {CONTROL_KEY, SHIFT_KEY, MENU, ALT}
      && KeyCodeTranslate(key, extended', scancode') == key
      && (keyCode !in {CONTROL_KEY, SHIFT_KEY, MENU, ALT} <==> key == keyCode)
  {
  }

  const WM_KEYDOWN: int := 0x0100
  const WM_KEYUP: int := 0x0101
  const WM_SYSKEYDOWN: int := 0x0104
  const WM_SYSKEYUP: int := 0x0105

  datatype KeyEvent = KeyDown(key: int) | KeyUp(key: int) | NoKeyEvent

  /**
   * HandleKeyMessage: the key is the translated WParam (converted to the
   * 32-bit enum); KEYDOWN and SYSKEYDOWN raise a key-down event and KEYUP
   * and SYSKEYUP a key-up event, for keys `isKey` accepts.
   */
  function HandleKeyMessage(msg: int, wParam: int, lParam: int, isKey: int -> bool): (e: KeyEvent)
    ensures e.KeyDown? ==> msg in {WM_KEYDOWN, WM_SYSKEYDOWN}
    ensures e.KeyUp? ==> msg in {WM_KEYUP, WM_SYSKEYUP}
    ensures !e.NoKeyEvent? ==> isKey(e.key) && e.key !in {CONTROL_KEY, SHIFT_KEY, MENU, ALT}
  {
    var key := KeyCodeTranslate(ToInt32(wParam), Extended(lParam), ScanCode(lParam));
    if !isKey(key) then NoKeyEvent
    else if msg == WM_KEYDOWN || msg == WM_SYSKEYDOWN then KeyDown(key)
    else if msg == WM_KEYUP || msg == WM_SYSKEYUP then KeyUp(key)
    else NoKeyEvent
  }

  /**
   * The keystroke of Control or Alt is reported as the right-hand key when
   * it is extended and as the left-hand key otherwise.
   */
  lemma ExtendedModifiers(msg: int, repeat: int, scancode: int, extended: bool, context: bool, previous: bool,
                          transition: bool, isKey: int -> bool)
    requires msg in {WM_KEYDOWN, WM_SYSKEYDOWN} && 0 <= repeat < 0x1_0000 && 0 <= scancode < 0x100
    requires isKey(RIGHT_CONTROL) && isKey(LEFT_CONTROL) && isKey(RIGHT_ALT) && isKey(LEFT_ALT)
    ensures HandleKeyMessage(msg, CONTROL_KEY, KeystrokeLParam(repeat, scancode, extended, context, previous, transition), isKey)
      == KeyDown(if extended then RIGHT_CONTROL else LEFT_CONTROL)
    ensures HandleKeyMessage(msg, MENU, KeystrokeLParam(repeat, scancode, extended, context, previous, transition), isKey)
      == KeyDown(if extended then RIGHT_ALT else LEFT_ALT)
  {
    KeystrokeDown(msg, CONTROL_KEY, repeat, scancode, extended, context, previous, transition, isKey);
    KeystrokeDown(msg, MENU, repeat, scancode, extended, context, previous, transition, isKey);
  }

  /** The keystroke of Shift is reported as RightShift for scan code 0x36 and as LeftShift otherwise. */
  lemma ShiftBySide(msg: int, repeat: int, scancode: int, extended: bool, context: bool, previous: bool,
                    transition: bool, isKey: int -> bool)
    requires msg in {WM_KEYDOWN, WM_SYSKEYDOWN} && 0 <= repeat < 0x1_0000 && 0 <= scancode < 0x100
    requires isKey(RIGHT_SHIFT) && isKey(LEFT_SHIFT)
    ensures HandleKeyMessage(msg, SHIFT_KEY, KeystrokeLParam(repeat, scancode, extended, context, previous, transition), isKey)
      == KeyDown(if scancode == 0x36 then RIGHT_SHIFT else LEFT_SHIFT)
  {
    KeystrokeDown(msg, SHIFT_KEY, repeat, scancode, extended, context, previous, transition, isKey);
  }

  /** A key-down keystroke message reports the translation of its own WParam, extended flag and scan code. */
  lemma KeystrokeDown(msg: int, keyCode: int, repeat: int, scancode: int, extended: bool, context: bool, previous: bool,
                      transition: bool, isKey: int -> bool)
    requires msg in {WM_KEYDOWN, WM_SYSKEYDOWN} && 0 <= repeat < 0x1_0000 && 0 <= scancode < 0x100 && IsInt32(keyCode)
    requires isKey(KeyCodeTranslate(keyCode, extended, scancode))
    ensures HandleKeyMessage(msg, keyCode, KeystrokeLParam(repeat, scancode, extended, context, previous, transition), isKey)
      == KeyDown(KeyCodeTranslate(keyCode, extended, scancode))
  {
    KeystrokeRoundTrip(repeat, scancode, extended, context, previous, transition);
  }

  // ---------------------------------------------------------------------
  // The horizontal wheel
  // ---------------------------------------------------------------------

  /** The signed wheel delta: `(short)(((ulong)WParam >> 16) & 0xffff)`, bits 16-31 of WParam. */
  function HorizontalWheelDelta(wParam: int): (delta: int)
    ensures IsInt16(delta)
  {
    ToInt16((Unsigned64(wParam) / 0x1_0000) % 0x1_0000)
  }

  /** The WParam of a wheel message: the delta in the high word, the key flags in the low word. */
  function WheelWParam(keys: int, delta: int): int
    requires 0 <= keys < 0x1_0000 && IsInt16(delta)
  {
    (delta % 0x1_0000) * 0x1_0000 + keys
  }

  lemma WheelRoundTrip(keys: int, delta: int)
    requires 0 <= keys < 0x1_0000 && IsInt16(delta)
    ensures HorizontalWheelDelta(WheelWParam(keys, delta)) == delta
  {
    var w := WheelWParam(keys, delta);
    var d := delta % 0x1_0000;
    SplitAt(w, 0x1_0000_0000_0000_0000, w, 0);
    SplitAt(w, 0x1_0000, keys, d);
    SplitAt(d, 0x1_0000, d, 0);
    var r := HorizontalWheelDelta(w);
    assert r == ToInt16(d);
    assert (r - delta) % 0x1_0000 == 0 by {
      assert (r - d) % 0x1_0000 == 0;
      assert d - delta == -(delta / 0x1_0000) * 0x1_0000;
    }
    Int16Unique(r, delta);
  }

  // ---------------------------------------------------------------------
  // The window procedure
  // ---------------------------------------------------------------------

  const WM_MOUSEHWHEEL: int := 0x020E
  const WM_TABLET_QUERYSYSTEMGESTURESTATUS: int := 0x02C0 + 12
  const WM_ENTERSIZEMOVE: int := 0x0231
  const WM_EXITSIZEMOVE: int := 0x0232
  const WM_DROPFILES: int := 0x0233
  const WM_SYSCOMMAND: int := 0x0112
  const WM_DPICHANGED: int := 0x02E0

  const SC_CLOSE: int := 0xF060
  const SC_KEYMENU: int := 0xF100
  const VK_LWIN: int := 0x5B
  const VK_RWIN: int := 0x5C

  /** The tablet gestures switched off: press-and-hold, pen feedback, touch UI, touch switch, flicks, smooth scrolling. */
  const TABLET_FLAG_BITS: bv32 :=
    0x0000_0001 | 0x0000_0008 | 0x0000_0010 | 0x0000_0100 | 0x0000_0200
    | 0x0000_8000 | 0x0001_0000 | 0x0008_0000 | 0x0010_0000
  const TABLET_FLAGS: int := TABLET_FLAG_BITS as int

  datatype Message = Message(msg: int, wParam: int, lParam: int)

  /** What the window procedure reads of the game window. */
  datatype Window = Window(
    isFullScreen: bool,
    hardwareModeSwitch: bool,
    hasForm: bool,
    allowAltF4: bool,
    gameViewFocused: bool,
    hasWheelHandler: bool)

  /**
   * What a message causes: the value stored in `m.Result` (if any), a key
   * event, whether the form is minimized, a horizontal-wheel event, and a
   * new value of IsResizing.
   */
  datatype Reaction = Reaction(
    result: Option<int>,
    keyEvent: KeyEvent,
    minimize: bool,
    wheelDelta: Option<int>,
    resizing: Option<bool>,
    forwarded: bool)

  /** Nothing set and not yet passed on to the base form's procedure. */
  const NoReaction := Reaction(None, NoKeyEvent, false, None, None, false)

  /** An exception thrown part-way through a message, with what the message had already caused. */
  datatype Thrown = Thrown(raised: Reaction, error: Exception)

  /** IntPtr.ToInt32() reached after `raised` has already happened: it throws past it. */
  function ToInt32After(raised: Reaction, x: int): (r: Result<int, Thrown>)
    ensures r.Success? <==> IsInt32(x)
    ensures r.Success? ==> r.value == x
    ensures r.Failure? ==> r.error == Thrown(raised, OverflowException)
  {
    match CheckedInt32(x)
    case Success(v) => Success(v)
    case Failure(e) => Failure(Thrown(raised, e))
  }

  /** WM_SYSCOMMAND: Alt+F4's close is swallowed when not allowed, and SC_KEYMENU always. */
  function SysCommand(m: Message, w: Window): Result<Reaction, Thrown> {
    var wParam :- ToInt32After(NoReaction, m.wParam);
    var closeSwallowed :-
      if !w.allowAltF4 && wParam == SC_CLOSE then
        var lParam :- ToInt32After(NoReaction, m.lParam);
        Success(lParam == 0 && w.gameViewFocused)
      else Success(false);
    if closeSwallowed || wParam == SC_KEYMENU then Success(NoReaction.(result := Some(0)))
    else Success(NoReaction)
  }

  /**
   * The static WndProc (the DirectX build, which handles key messages).
   * Repositioning on WM_DPICHANGED and the dropped-file list of
   * WM_DROPFILES come from native calls and are left out.
   */
  function WndProc(m: Message, w: Window, isKey: int -> bool): (r: Result<Reaction, Thrown>)
    ensures r.Failure? ==> r.error.error == OverflowException && m.msg in {WM_KEYDOWN, WM_SYSCOMMAND}
    ensures r.Success? ==> !r.value.forwarded
    ensures Raised(r).minimize ==> m.msg == WM_KEYDOWN
  {
    if m.msg == WM_DPICHANGED then Success(NoReaction.(result := Some(0)))
    else if m.msg == WM_TABLET_QUERYSYSTEMGESTURESTATUS then Success(NoReaction.(result := Some(TABLET_FLAGS)))
    else if m.msg == WM_KEYDOWN then
      var raised := NoReaction.(keyEvent := HandleKeyMessage(m.msg, m.wParam, m.lParam, isKey));
      var code :- ToInt32After(raised, m.wParam);
      var minimize := (code == VK_LWIN || code == VK_RWIN) && w.isFullScreen && w.hardwareModeSwitch && w.hasForm;
      Success(raised.(minimize := minimize))
    else if m.msg in {WM_SYSKEYDOWN, WM_KEYUP, WM_SYSKEYUP} then
      Success(NoReaction.(keyEvent := HandleKeyMessage(m.msg, m.wParam, m.lParam, isKey)))
    else if m.msg == WM_DROPFILES then Success(NoReaction.(result := Some(0)))
    else if m.msg == WM_SYSCOMMAND then SysCommand(m, w)
    else if m.msg == WM_MOUSEHWHEEL then
      Success(NoReaction.(wheelDelta := if w.hasWheelHandler then Some(HorizontalWheelDelta(m.wParam)) else None))
    else if m.msg == WM_ENTERSIZEMOVE then Success(NoReaction.(resizing := Some(true)))
    else if m.msg == WM_EXITSIZEMOVE then Success(NoReaction.(resizing := Some(false)))
    else Success(NoReaction)
  }

  /**
   * The form's WndProc override: the static handler, then the base form's
   * procedure for every message the handler did not throw on. A `return`
   * inside the handler leaves only the handler; a throw skips the base
   * procedure.
   */
  function FormWndProc(m: Message, w: Window, isKey: int -> bool): (r: Result<Reaction, Thrown>)
    ensures r.Success? <==> WndProc(m, w, isKey).Success?
    ensures r.Success? ==> r.value.forwarded
    ensures r.Failure? ==> r.error.error == OverflowException
  {
    var r :- WndProc(m, w, isKey);
    Success(r.(forwarded := true))
  }

  /**
   * SC_KEYMENU: the static handler sets the result to 0, whatever the window
   * and the LParam, and the override then passes the message on to the base
   * form's procedure with that result.
   */
  lemma KeyMenuSwallowed(lParam: int, w: Window, isKey: int -> bool)
    ensures WndProc(Message(WM_SYSCOMMAND, SC_KEYMENU, lParam), w, isKey) == Success(NoReaction.(result := Some(0)))
    ensures FormWndProc(Message(WM_SYSCOMMAND, SC_KEYMENU, lParam), w, isKey)
      == Success(NoReaction.(result := Some(0), forwarded := true))
  {
  }

  /**
   * Alt+F4's close command, for an LParam in the 32-bit range, is swallowed
   * exactly when Alt+F4 is not allowed, LParam is 0 and the game view has
   * focus.
   */
  lemma CloseSwallowed(lParam: int, w: Window, isKey: int -> bool)
    requires IsInt32(lParam)
    ensures WndProc(Message(WM_SYSCOMMAND, SC_CLOSE, lParam), w, isKey).Success?
    ensures WndProc(Message(WM_SYSCOMMAND, SC_CLOSE, lParam), w, isKey).value.result == Some(0)
      <==> !w.allowAltF4 && lParam == 0 && w.gameViewFocused
  {
  }

  /**
   * An LParam outside the 32-bit range throws on the close command exactly
   * when Alt+F4 is not allowed, since only then is it converted; nothing has
   * happened by then.
   */
  lemma CloseLParamChecked(lParam: int, w: Window, isKey: int -> bool)
    requires !IsInt32(lParam)
    ensures WndProc(Message(WM_SYSCOMMAND, SC_CLOSE, lParam), w, isKey).Failure? <==> !w.allowAltF4
    ensures WndProc(Message(WM_SYSCOMMAND, SC_CLOSE, lParam), w, isKey).Failure? ==>
      WndProc(Message(WM_SYSCOMMAND, SC_CLOSE, lParam), w, isKey).error == Thrown(NoReaction, OverflowException)
    ensures WndProc(Message(WM_SYSCOMMAND, SC_CLOSE, lParam), w, isKey).Success? ==>
      WndProc(Message(WM_SYSCOMMAND, SC_CLOSE, lParam), w, isKey).value == NoReaction
  {
  }

  /** A horizontal-wheel message reports the delta it carries to a registered handler, and nothing without one. */
  lemma WheelReported(keys: int, delta: int, lParam: int, w: Window, isKey: int -> bool)
    requires 0 <= keys < 0x1_0000 && IsInt16(delta)
    ensures WndProc(Message(WM_MOUSEHWHEEL, WheelWParam(keys, delta), lParam), w, isKey)
      == Success(NoReaction.(wheelDelta := if w.hasWheelHandler then Some(delta) else None))
  {
    WheelRoundTrip(keys, delta);
  }

  /** What a message had caused when the window procedure returned or threw. */
  function Raised(r: Result<Reaction, Thrown>): Reaction {
    match r
    case Success(reaction) => reaction
    case Failure(thrown) => thrown.raised
  }

  /**
   * Key-down messages raise key-down events and key-up messages key-up
   * events, for accepted keys only. Only WM_KEYDOWN converts WParam to 32
   * bits, and it does so after the event is raised: an out-of-range WParam
   * throws with the event already raised.
   */
  lemma KeyMessagesDispatch(m: Message, w: Window, isKey: int -> bool)
    requires m.msg in {WM_KEYDOWN, WM_SYSKEYDOWN, WM_KEYUP, WM_SYSKEYUP}
    ensures WndProc(m, w, isKey).Success? <==> m.msg != WM_KEYDOWN || IsInt32(m.wParam)
    ensures WndProc(m, w, isKey).Failure? ==> WndProc(m, w, isKey).error.error == OverflowException
    ensures IsInt32(m.wParam) ==>
      var key := KeyCodeTranslate(m.wParam, Extended(m.lParam), ScanCode(m.lParam));
      Raised(WndProc(m, w, isKey)).keyEvent ==
        if !isKey(key) then NoKeyEvent
        else if m.msg in {WM_KEYDOWN, WM_SYSKEYDOWN} then KeyDown(key)
        else KeyUp(key)
    ensures Raised(WndProc(m, w, isKey)).keyEvent == HandleKeyMessage(m.msg, m.wParam, m.lParam, isKey)
  {
  }

  /**
   * Only a Left or Right Windows key-down on a full-screen, hardware-switched
   * window with a form minimises it; no other message does, whatever it carries.
   */
  lemma OnlyWindowsKeyMinimizes(m: Message, w: Window, isKey: int -> bool)
    ensures Raised(WndProc(m, w, isKey)).minimize <==>
      && m.msg == WM_KEYDOWN && (m.wParam == VK_LWIN || m.wParam == VK_RWIN)
      && w.isFullScreen && w.hardwareModeSwitch && w.hasForm
  {
  }
}
