/**
 * The window procedure and the main loop of Win32Application.cpp.
 *
 * The procedure keeps the sample's pause, minimised, maximised and resizing
 * flags and forwards input to the sample. Every call it makes into the sample
 * that does more than set one of those flags (`OnResize`, the timer, the mouse
 * and key handlers, `OnUpdate`, `OnRender`, `OnDestroy`) is recorded, in
 * order, as a `SampleCall`, so the properties below can say how many of each
 * a message causes.
 *
 * The message queue is an input: a sequence of `PumpEvent`s, each one either
 * a message `PeekMessage` removed from the queue or an empty queue.
 */
module Win32App {
  import opened Wrappers
  import opened Arith

  // ---------------------------------------------------------------------------
  // Message and parameter values (winuser.h)
  // ---------------------------------------------------------------------------

  const WmCreate: nat := 0x0001
  const WmDestroy: nat := 0x0002
  const WmSize: nat := 0x0005
  const WmPaint: nat := 0x000F
  const WmQuit: nat := 0x0012
  const WmGetMinMaxInfo: nat := 0x0024
  const WmKeyDown: nat := 0x0100
  const WmKeyUp: nat := 0x0101
  const WmMenuChar: nat := 0x0120
  const WmLButtonDown: nat := 0x0201
  const WmLButtonUp: nat := 0x0202
  const WmRButtonDown: nat := 0x0204
  const WmRButtonUp: nat := 0x0205
  const WmMButtonDown: nat := 0x0207
  const WmMButtonUp: nat := 0x0208
  const WmEnterSizeMove: nat := 0x0231
  const WmExitSizeMove: nat := 0x0232

  /** The `wParam` of `WM_SIZE`. */
  const SizeRestored: nat := 0
  const SizeMinimized: nat := 1
  const SizeMaximized: nat := 2

  /** `WA_INACTIVE`, the value the `WM_CREATE` case compares the low word of `wParam` with. */
  const WaInactive: nat := 0

  /** `MAKELRESULT(0, MNC_CLOSE)`: close the menu without a beep. */
  const MenuCharClose: int := 0x1_0000

  /** The smallest tracking size written for `WM_GETMINMAXINFO`. */
  const MinTrackSize: int := 200

  // ---------------------------------------------------------------------------
  // Words packed into WPARAM and LPARAM
  // ---------------------------------------------------------------------------

  /** A `WPARAM` or `LPARAM`: 64 bits, read as an unsigned number. */
  type Param = x: nat | x < 0x1_0000_0000_0000_0000

  /** `LOWORD`. */
  function LoWord(l: Param): (w: nat)
    ensures w < 0x1_0000
  {
    l % 0x1_0000
  }

  /** `HIWORD`. */
  function HiWord(l: Param): (w: nat)
    ensures w < 0x1_0000
  {
    (l / 0x1_0000) % 0x1_0000
  }

  /** `LODWORD`. */
  function LoDword(w: Param): (d: nat)
    ensures d < 0x1_0000_0000
  {
    w % 0x1_0000_0000
  }

  /** A 16-bit word read as a `short`, two's complement. */
  function SignedWord(w: nat): (v: int)
    requires w < 0x1_0000
    ensures -0x8000 <= v < 0x8000
    ensures v >= 0 <==> w < 0x8000
    ensures v == w || v == w - 0x1_0000
  {
    if w < 0x8000 then w else w - 0x1_0000
  }

  /** `GET_X_LPARAM` and `GET_Y_LPARAM`: the signed client coordinates. */
  function PointX(l: Param): int { SignedWord(LoWord(l)) }
  function PointY(l: Param): int { SignedWord(HiWord(l)) }

  /** The `lParam` a mouse message carries for the client point (x, y). */
  function PointParam(x: int, y: int): Param
    requires -0x8000 <= x < 0x8000 && -0x8000 <= y < 0x8000
  {
    ((y + 0x1_0000) % 0x1_0000) * 0x1_0000 + (x + 0x1_0000) % 0x1_0000
  }

  /** The two words of a packed parameter come back out of it. */
  lemma WordsOfPacked(lo: nat, hi: nat)
    requires lo < 0x1_0000 && hi < 0x1_0000
    ensures hi * 0x1_0000 + lo < 0x1_0000_0000
    ensures LoWord(hi * 0x1_0000 + lo) == lo
    ensures HiWord(hi * 0x1_0000 + lo) == hi
  {
    var p := hi * 0x1_0000 + lo;
    assert p / 0x1_0000 == hi && p % 0x1_0000 == lo by {
      DivModUnique(p, 0x1_0000, hi, lo);
    }
  }

  /**
   * Every on-screen point a mouse message can carry is read back unchanged by
   * the coordinate macros, negative coordinates included.
   */
  lemma PointRoundTrip(x: int, y: int)
    requires -0x8000 <= x < 0x8000 && -0x8000 <= y < 0x8000
    ensures PointX(PointParam(x, y)) == x && PointY(PointParam(x, y)) == y
  {
    var lo, hi := (x + 0x1_0000) % 0x1_0000, (y + 0x1_0000) % 0x1_0000;
    assert lo == if x < 0 then x + 0x1_0000 else x;
    assert hi == if y < 0 then y + 0x1_0000 else y;
    WordsOfPacked(lo, hi);
  }

  /** `static_cast<UINT8>(wParam)`, the key code handed to the key handlers. */
  function KeyCode(w: Param): (k: nat)
    ensures k < 0x100
  {
    w % 0x100
  }

  /**
   * `static_cast<char>(msg.wParam)`, the process exit code: the low byte read
   * as a signed `char`.
   */
  function ExitCode(w: Param): (code: int)
    ensures -0x80 <= code < 0x80
    ensures code == KeyCode(w) || code == KeyCode(w) - 0x100
    ensures code >= 0 <==> KeyCode(w) < 0x80
  {
    var b := KeyCode(w);
    if b < 0x80 then b else b - 0x100
  }

  // ---------------------------------------------------------------------------
  // The state the window procedure works on
  // ---------------------------------------------------------------------------

  /** A call from the window procedure or the main loop into the sample. */
  datatype SampleCall =
    | Resize
    | StartTimer
    | StopTimer
    | TickTimer
    | FrameStats
    | MouseDown(buttons: Param, x: int, y: int)
    | MouseUp(buttons: Param, x: int, y: int)
    | KeyDown(key: nat)
    | KeyUp(key: nat)
    | Update
    | Render
    | Destroy

  /**
   * What the window procedure can see and change: whether the sample pointer
   * has been stored in the window (`GWLP_USERDATA`), the window size the
   * sample keeps, whether it has a device, its four window flags, the mouse
   * capture, whether `PostQuitMessage` has been called, and the calls made
   * into the sample so far.
   */
  datatype WindowState = WindowState(
    attached: bool,
    width: nat,
    height: nat,
    hasDevice: bool,
    paused: bool,
    minimized: bool,
    maximized: bool,
    resizing: bool,
    captured: bool,
    quitPosted: bool,
    calls: seq<SampleCall>)

  /** What `WindowProc` returns: a value of its own or `DefWindowProc`'s. */
  datatype LResult = Returned(value: int) | DefaultProcedure

  /**
   * The new state, the returned value, and the minimum tracking size written
   * into the `MINMAXINFO` that `lParam` points at, if any.
   */
  datatype Handled = Handled(state: WindowState, result: LResult, minTrack: Option<(int, int)>)

  /** The messages whose case uses the sample pointer without testing it first. */
  predicate UsesSample(message: nat) {
    message == WmCreate || message == WmSize || message == WmEnterSizeMove
    || message == WmExitSizeMove || message == WmGetMinMaxInfo
    || message == WmLButtonDown || message == WmMButtonDown || message == WmRButtonDown
    || message == WmLButtonUp || message == WmMButtonUp || message == WmRButtonUp
  }

  /** The part of `WM_SIZE` that runs once the sample has a device. */
  function SizeFlags(s: WindowState, wParam: Param): WindowState {
    if !s.hasDevice then s
    else if wParam == SizeMinimized then
      s.(paused := true, minimized := true, maximized := false)
    else if wParam == SizeMaximized then
      s.(paused := false, minimized := false, maximized := true, calls := s.calls + [Resize])
    else if wParam == SizeRestored then
      if s.minimized then
        s.(paused := false, minimized := false, calls := s.calls + [Resize])
      else if s.maximized then
        s.(paused := false, maximized := false, calls := s.calls + [Resize])
      else if s.resizing then
        s
      else
        s.(calls := s.calls + [Resize])
    else s
  }

  /** The window procedure, as a function of the state before the message. */
  function Handle(s: WindowState, message: nat, wParam: Param, lParam: Param): Handled
    requires UsesSample(message) ==> s.attached
  {
    if message == WmCreate then
      var inactive := LoDword(wParam) == WaInactive;
      Handled(s.(attached := true, paused := inactive,
                 calls := s.calls + [if inactive then StopTimer else StartTimer]),
              Returned(0), None)
    else if message == WmSize then
      Handled(SizeFlags(s.(width := LoWord(lParam), height := HiWord(lParam)), wParam), Returned(0), None)
    else if message == WmEnterSizeMove then
      Handled(s.(paused := true, resizing := true, calls := s.calls + [StopTimer]), Returned(0), None)
    else if message == WmExitSizeMove then
      Handled(s.(paused := false, resizing := false, calls := s.calls + [StartTimer]), Returned(0), None)
    else if message == WmMenuChar then
      Handled(s, Returned(MenuCharClose), None)
    else if message == WmGetMinMaxInfo || message == WmLButtonDown
         || message == WmMButtonDown || message == WmRButtonDown then
      // WM_GETMINMAXINFO has no return of its own and runs on into the button-down case.
      Handled(s.(captured := true, calls := s.calls + [MouseDown(wParam, PointX(lParam), PointY(lParam))]),
              Returned(0),
              if message == WmGetMinMaxInfo then Some((MinTrackSize, MinTrackSize)) else None)
    else if message == WmLButtonUp || message == WmMButtonUp || message == WmRButtonUp then
      Handled(s.(captured := false, calls := s.calls + [MouseUp(wParam, PointX(lParam), PointY(lParam))]),
              Returned(0), None)
    else if message == WmKeyDown then
      Handled(if s.attached then s.(calls := s.calls + [KeyDown(KeyCode(wParam))]) else s, Returned(0), None)
    else if message == WmKeyUp then
      Handled(if s.attached then s.(calls := s.calls + [KeyUp(KeyCode(wParam))]) else s, Returned(0), None)
    else if message == WmPaint then
      Handled(if s.attached then s.(calls := s.calls + [Update, Render]) else s, Returned(0), None)
    else if message == WmDestroy then
      Handled(s.(quitPosted := true), Returned(0), None)
    else
      Handled(s, DefaultProcedure, None)
  }

  /** No window is ever both minimised and maximised. */
  predicate MinMaxExclusive(s: WindowState) {
    !(s.minimized && s.maximized)
  }

  /** The number of `OnResize` calls in a call record. */
  function ResizeCount(calls: seq<SampleCall>): nat {
    if calls == [] then 0
    else ResizeCount(calls[..|calls| - 1]) + (if calls[|calls| - 1] == Resize then 1 else 0)
  }

  // ---------------------------------------------------------------------------
  // What each message does
  // ---------------------------------------------------------------------------

  /**
   * `WM_SIZE` always stores the low word of `lParam` as the width and the
   * high word as the height; without a device it does nothing else.
   */
  lemma SizeStoresDimensions(s: WindowState, wParam: Param, lParam: Param)
    requires s.attached
    ensures Handle(s, WmSize, wParam, lParam).state.width == LoWord(lParam)
    ensures Handle(s, WmSize, wParam, lParam).state.height == HiWord(lParam)
    ensures Handle(s, WmSize, wParam, lParam).result == Returned(0)
    ensures !s.hasDevice ==>
      Handle(s, WmSize, wParam, lParam).state == s.(width := LoWord(lParam), height := HiWord(lParam))
  {
  }

  /** Minimising pauses, sets minimised, clears maximised and does not resize. */
  lemma SizeMinimizedPauses(s: WindowState, lParam: Param)
    requires s.attached && s.hasDevice
    ensures var t := Handle(s, WmSize, SizeMinimized, lParam).state;
      t.paused && t.minimized && !t.maximized && t.resizing == s.resizing && t.calls == s.calls
  {
  }

  /** Maximising unpauses, sets maximised, clears minimised and resizes once. */
  lemma SizeMaximizedResizesOnce(s: WindowState, lParam: Param)
    requires s.attached && s.hasDevice
    ensures var t := Handle(s, WmSize, SizeMaximized, lParam).state;
      !t.paused && !t.minimized && t.maximized && t.resizing == s.resizing
      && t.calls == s.calls + [Resize]
  {
  }

  /**
   * A restore looks at the minimised flag, then the maximised flag, then the
   * resizing flag: each of the first two is cleared with a resize and an
   * unpause; during a drag nothing changes; otherwise it resizes once.
   */
  lemma SizeRestoredCases(s: WindowState, lParam: Param)
    requires s.attached && s.hasDevice
    ensures var t := Handle(s, WmSize, SizeRestored, lParam).state;
      && (s.minimized ==> !t.paused && !t.minimized && t.maximized == s.maximized && t.calls == s.calls + [Resize])
      && (!s.minimized && s.maximized ==> !t.paused && !t.maximized && t.calls == s.calls + [Resize])
      && (!s.minimized && !s.maximized && s.resizing ==>
            t == s.(width := LoWord(lParam), height := HiWord(lParam)))
      && (!s.minimized && !s.maximized && !s.resizing ==>
            t == s.(width := LoWord(lParam), height := HiWord(lParam), calls := s.calls + [Resize]))
  {
  }

  /**
   * Grabbing the frame pauses, marks a drag and stops the timer; letting go
   * undoes all three, and does not resize.
   */
  lemma SizeMoveBrackets(s: WindowState)
    requires s.attached
    ensures var t := Handle(s, WmEnterSizeMove, 0, 0).state;
      t == s.(paused := true, resizing := true, calls := s.calls + [StopTimer])
    ensures var t := Handle(s, WmExitSizeMove, 0, 0).state;
      t == s.(paused := false, resizing := false, calls := s.calls + [StartTimer])
  {
  }

  /**
   * `WM_GETMINMAXINFO` writes the 200 by 200 minimum and then does everything a
   * button press does: it calls `OnMouseDown` and captures the mouse.
   */
  lemma MinMaxInfoFallsThrough(s: WindowState, wParam: Param, lParam: Param)
    requires s.attached
    ensures Handle(s, WmGetMinMaxInfo, wParam, lParam).state == Handle(s, WmLButtonDown, wParam, lParam).state
    ensures Handle(s, WmGetMinMaxInfo, wParam, lParam).minTrack == Some((200, 200))
    ensures Handle(s, WmGetMinMaxInfo, wParam, lParam).state.calls
      == s.calls + [MouseDown(wParam, PointX(lParam), PointY(lParam))]
  {
  }

  /** No message leaves the window both minimised and maximised. */
  lemma {:induction false} HandleKeepsMinMaxExclusive(s: WindowState, message: nat, wParam: Param, lParam: Param)
    requires UsesSample(message) ==> s.attached
    requires MinMaxExclusive(s)
    ensures MinMaxExclusive(Handle(s, message, wParam, lParam).state)
  {
  }

  // ---------------------------------------------------------------------------
  // The window procedure on the sample object
  // ---------------------------------------------------------------------------

  /**
   * The sample as the window procedure and the main loop see it. The flags
   * are the ones the `DXSample` setters and getters named in
   * Win32Application.cpp work on.
   */
  class WindowedSample {
    var attached: bool
    var width: nat
    var height: nat
    var hasDevice: bool
    var paused: bool
    var minimized: bool
    var maximized: bool
    var resizing: bool
    var captured: bool
    var quitPosted: bool
    var calls: seq<SampleCall>

    function State(): WindowState
      reads this
    {
      WindowState(attached, width, height, hasDevice, paused, minimized, maximized,
                  resizing, captured, quitPosted, calls)
    }

    /** `Win32Application::WindowProc`. */
    method WindowProc(message: nat, wParam: Param, lParam: Param) returns (result: LResult, minTrack: Option<(int, int)>)
      requires UsesSample(message) ==> attached
      modifies this
      ensures State() == Handle(old(State()), message, wParam, lParam).state
      ensures result == Handle(old(State()), message, wParam, lParam).result
      ensures minTrack == Handle(old(State()), message, wParam, lParam).minTrack
    {
      minTrack := None;
      result := Returned(0);
      if message == WmCreate {
        attached := true;
        if LoDword(wParam) == WaInactive {
          paused := true;
          calls := calls + [StopTimer];
        } else {
          paused := false;
          calls := calls + [StartTimer];
        }
      } else if message == WmSize {
        width := LoWord(lParam);
        height := HiWord(lParam);
        if hasDevice {
          if wParam == SizeMinimized {
            paused, minimized, maximized := true, true, false;
          } else if wParam == SizeMaximized {
            paused, minimized, maximized := false, false, true;
            calls := calls + [Resize];
          } else if wParam == SizeRestored {
            if minimized {
              paused, minimized := false, false;
              calls := calls + [Resize];
            } else if maximized {
              paused, maximized := false, false;
              calls := calls + [Resize];
            } else if resizing {
              // the buffers are left alone while the frame is being dragged
            } else {
              calls := calls + [Resize];
            }
          }
        }
      } else if message == WmEnterSizeMove {
        paused, resizing := true, true;
        calls := calls + [StopTimer];
      } else if message == WmExitSizeMove {
        paused, resizing := false, false;
        calls := calls + [StartTimer];
      } else if message == WmMenuChar {
        result := Returned(MenuCharClose);
      } else if message == WmGetMinMaxInfo || message == WmLButtonDown
             || message == WmMButtonDown || message == WmRButtonDown {
        if message == WmGetMinMaxInfo {
          minTrack := Some((MinTrackSize, MinTrackSize));
        }
        calls := calls + [MouseDown(wParam, PointX(lParam), PointY(lParam))];
        captured := true;
      } else if message == WmLButtonUp || message == WmMButtonUp || message == WmRButtonUp {
        calls := calls + [MouseUp(wParam, PointX(lParam), PointY(lParam))];
        captured := false;
      } else if message == WmKeyDown {
        if attached {
          calls := calls + [KeyDown(KeyCode(wParam))];
        }
      } else if message == WmKeyUp {
        if attached {
          calls := calls + [KeyUp(KeyCode(wParam))];
        }
      } else if message == WmPaint {
        if attached {
          calls := calls + [Update, Render];
        }
      } else if message == WmDestroy {
        quitPosted := true;
      } else {
        result := DefaultProcedure;
      }
    }

    /**
     * The main loop of `Run`: take messages until `WM_QUIT`, dispatching each
     * to the window procedure; when the queue is empty, tick the timer and,
     * unless paused, compute the frame statistics. After `WM_QUIT` the sample
     * is destroyed and the exit code is the message's `wParam` as a `char`.
     * `None` means the events ran out with the loop still going.
     */
    method Run(events: seq<PumpEvent>) returns (exitCode: Option<int>)
      requires attached
      modifies this
      ensures State() == RunFrom(old(State()), events).state
      ensures exitCode == RunFrom(old(State()), events).exitCode
    {
      var i := 0;
      var quit := false;
      exitCode := None;
      while !quit && i < |events|
        invariant 0 <= i <= |events|
        invariant attached
        invariant !quit ==> exitCode == None
        invariant !quit ==> RunFrom(old(State()), events) == RunFrom(State(), events[i..])
        invariant quit ==> State() == RunFrom(old(State()), events).state
        invariant quit ==> exitCode == RunFrom(old(State()), events).exitCode
        decreases |events| - i, !quit
      {
        ghost var before := State();
        assert events[i..][0] == events[i] && events[i..][1..] == events[i + 1..];
        match events[i] {
          case Posted(message, wParam, lParam) =>
            if message == WmQuit {
              calls := calls + [Destroy];
              exitCode := Some(ExitCode(wParam));
              quit := true;
              assert RunFrom(before, events[i..]) == RunOutcome(State(), exitCode);
            } else {
              HandleKeepsAttached(before, message, wParam, lParam);
              var _, _ := WindowProc(message, wParam, lParam);
              assert RunFrom(before, events[i..]) == RunFrom(State(), events[i + 1..]);
              i := i + 1;
            }
          case Idle =>
            calls := calls + [TickTimer];
            if !paused {
              calls := calls + [FrameStats];
            }
            assert State() == IdleStep(before);
            i := i + 1;
        }
      }
      assert !quit ==> events[i..] == [];
    }
  }

  // ---------------------------------------------------------------------------
  // The main loop
  // ---------------------------------------------------------------------------

  /** One result of `PeekMessage`: a message taken from the queue, or an empty queue. */
  datatype PumpEvent = Posted(message: nat, wParam: Param, lParam: Param) | Idle

  /** The sample's state and the exit code once the loop has seen a list of events. */
  datatype RunOutcome = RunOutcome(state: WindowState, exitCode: Option<int>)

  /** An empty queue: the timer always ticks, the frame statistics only when not paused. */
  function IdleStep(s: WindowState): WindowState {
    s.(calls := s.calls + [TickTimer] + (if s.paused then [] else [FrameStats]))
  }

  /** The main loop, as a function of the state it starts from. */
  function RunFrom(s: WindowState, events: seq<PumpEvent>): RunOutcome
    requires s.attached
    decreases |events|
  {
    if events == [] then RunOutcome(s, None)
    else match events[0] {
      case Idle => RunFrom(IdleStep(s), events[1..])
      case Posted(message, wParam, lParam) =>
        if message == WmQuit then RunOutcome(s.(calls := s.calls + [Destroy]), Some(ExitCode(wParam)))
        else RunFrom(Handle(s, message, wParam, lParam).state, events[1..])
    }
  }

  predicate IsQuit(e: PumpEvent) {
    e.Posted? && e.message == WmQuit
  }

  /** Once attached, the sample pointer stays attached. */
  lemma HandleKeepsAttached(s: WindowState, message: nat, wParam: Param, lParam: Param)
    requires s.attached
    ensures Handle(s, message, wParam, lParam).state.attached
  {
    if message == WmCreate {
    } else if message == WmSize {
      SizeFlagsKeepsAttached(s.(width := LoWord(lParam), height := HiWord(lParam)), wParam);
    } else if message == WmEnterSizeMove || message == WmExitSizeMove || message == WmMenuChar {
    } else if message == WmGetMinMaxInfo || message == WmLButtonDown
         || message == WmMButtonDown || message == WmRButtonDown {
    } else {
    }
  }

  /** The window procedure never destroys the sample; only the main loop does. */
  lemma HandleNeverDestroys(s: WindowState, message: nat, wParam: Param, lParam: Param)
    requires UsesSample(message) ==> s.attached
    requires Destroy !in s.calls
    ensures Destroy !in Handle(s, message, wParam, lParam).state.calls
  {
    if message == WmSize {
      SizeFlagsKeepsAttached(s.(width := LoWord(lParam), height := HiWord(lParam)), wParam);
    } else if message == WmPaint {
      assert s.attached ==> Handle(s, message, wParam, lParam).state.calls == s.calls + [Update, Render];
    }
  }

  lemma SizeFlagsKeepsAttached(s: WindowState, wParam: Param)
    ensures SizeFlags(s, wParam).attached == s.attached
    ensures Destroy !in s.calls ==> Destroy !in SizeFlags(s, wParam).calls
  {
  }

  /**
   * Nothing after the first `WM_QUIT` is looked at; the loop then calls
   * `OnDestroy` once on the state the earlier messages left, and returns
   * that message's exit code.
   */
  lemma {:induction false} RunStopsAtQuit(s: WindowState, before: seq<PumpEvent>, quit: PumpEvent, after: seq<PumpEvent>)
    requires s.attached && IsQuit(quit)
    requires forall k :: 0 <= k < |before| ==> !IsQuit(before[k])
    ensures RunFrom(s, before + [quit] + after) == RunFrom(s, before + [quit])
    ensures RunFrom(s, before + [quit]).exitCode == Some(ExitCode(quit.wParam))
    ensures var r := RunFrom(s, before).state;
      RunFrom(s, before + [quit]).state == r.(calls := r.calls + [Destroy])
    decreases |before|
  {
    if before == [] {
      assert before + [quit] + after == [quit] + after;
      assert before + [quit] == [quit];
    } else {
      var e := before[0];
      assert (before + [quit] + after)[1..] == before[1..] + [quit] + after;
      assert (before + [quit])[1..] == before[1..] + [quit];
      assert (before + [quit])[0] == e && (before + [quit] + after)[0] == e;
      var t := if e.Idle? then IdleStep(s) else Handle(s, e.message, e.wParam, e.lParam).state;
      if e.Posted? {
        HandleKeepsAttached(s, e.message, e.wParam, e.lParam);
      }
      RunStopsAtQuit(t, before[1..], quit, after);
    }
  }

  /** Without a `WM_QUIT` the loop never finishes and `OnDestroy` is not called. */
  lemma {:induction false} RunWithoutQuitKeepsGoing(s: WindowState, events: seq<PumpEvent>)
    requires s.attached
    requires forall k :: 0 <= k < |events| ==> !IsQuit(events[k])
    requires Destroy !in s.calls
    ensures RunFrom(s, events).exitCode == None
    ensures Destroy !in RunFrom(s, events).state.calls
    decreases |events|
  {
    if events != [] {
      var e := events[0];
      if e.Posted? {
        HandleKeepsAttached(s, e.message, e.wParam, e.lParam);
        HandleNeverDestroys(s, e.message, e.wParam, e.lParam);
        RunWithoutQuitKeepsGoing(Handle(s, e.message, e.wParam, e.lParam).state, events[1..]);
      } else {
        RunWithoutQuitKeepsGoing(IdleStep(s), events[1..]);
      }
    }
  }

  /** The main loop never leaves the window both minimised and maximised. */
  lemma {:induction false} RunKeepsMinMaxExclusive(s: WindowState, events: seq<PumpEvent>)
    requires s.attached && MinMaxExclusive(s)
    ensures MinMaxExclusive(RunFrom(s, events).state)
    decreases |events|
  {
    if events != [] {
      var e := events[0];
      if e.Posted? && e.message != WmQuit {
        HandleKeepsAttached(s, e.message, e.wParam, e.lParam);
        HandleKeepsMinMaxExclusive(s, e.message, e.wParam, e.lParam);
        RunKeepsMinMaxExclusive(Handle(s, e.message, e.wParam, e.lParam).state, events[1..]);
      } else if e.Idle? {
        RunKeepsMinMaxExclusive(IdleStep(s), events[1..]);
      }
    }
  }

  /** A stream of `SIZE_RESTORED` messages, one per `lParam`, as a drag produces. */
  function RestoredStream(lParams: seq<Param>): (events: seq<PumpEvent>)
    ensures |events| == |lParams|
    ensures forall k :: 0 <= k < |lParams| ==> events[k] == Posted(WmSize, SizeRestored, lParams[k])
  {
    if lParams == [] then [] else [Posted(WmSize, SizeRestored, lParams[0])] + RestoredStream(lParams[1..])
  }

  /**
   * While the frame is being dragged, `SIZE_RESTORED` messages only record the
   * size: no flag changes and nothing is resized.
   */
  lemma {:induction false} RestoredWhileDragging(s: WindowState, lParams: seq<Param>, rest: seq<PumpEvent>)
    requires s.attached && s.resizing && !s.minimized && !s.maximized
    ensures lParams == [] ==> RunFrom(s, RestoredStream(lParams) + rest) == RunFrom(s, rest)
    ensures lParams != [] ==>
      var last := lParams[|lParams| - 1];
      RunFrom(s, RestoredStream(lParams) + rest)
        == RunFrom(s.(width := LoWord(last), height := HiWord(last)), rest)
    decreases |lParams|
  {
    if lParams == [] {
      assert RestoredStream(lParams) + rest == rest;
    } else {
      var l := lParams[0];
      var t := s.(width := LoWord(l), height := HiWord(l));
      assert Handle(s, WmSize, SizeRestored, l).state == t;
      var events := RestoredStream(lParams) + rest;
      assert events[0] == Posted(WmSize, SizeRestored, l);
      assert events[1..] == RestoredStream(lParams[1..]) + rest;
      RestoredWhileDragging(t, lParams[1..], rest);
      if |lParams| > 1 {
        var last := lParams[|lParams| - 1];
        assert lParams[1..][|lParams| - 2] == last;
        assert t.(width := LoWord(last), height := HiWord(last))
          == s.(width := LoWord(last), height := HiWord(last));
      }
    }
  }

  /**
   * A whole drag of the frame (grab, any number of size messages, release)
   * ends unpaused and not resizing, with the timer stopped and started again,
   * but without a single `OnResize`: the buffers keep their old size after
   * the window has changed its own.
   */
  lemma DragNeverResizes(s: WindowState, lParams: seq<Param>)
    requires s.attached && !s.minimized && !s.maximized
    ensures var r := RunFrom(s, [Posted(WmEnterSizeMove, 0, 0)] + RestoredStream(lParams) + [Posted(WmExitSizeMove, 0, 0)]);
      && r.exitCode == None
      && !r.state.paused && !r.state.resizing
      && r.state.calls == s.calls + [StopTimer, StartTimer]
      && ResizeCount(r.state.calls) == ResizeCount(s.calls)
  {
    var enter := Posted(WmEnterSizeMove, 0, 0);
    var exit := Posted(WmExitSizeMove, 0, 0);
    var events := [enter] + RestoredStream(lParams) + [exit];
    var t := Handle(s, WmEnterSizeMove, 0, 0).state;
    assert t == s.(paused := true, resizing := true, calls := s.calls + [StopTimer]);
    assert events[0] == enter && events[1..] == RestoredStream(lParams) + [exit];
    RestoredWhileDragging(t, lParams, [exit]);
    var u := if lParams == [] then t
      else t.(width := LoWord(lParams[|lParams| - 1]), height := HiWord(lParams[|lParams| - 1]));
    assert RunFrom(s, events) == RunFrom(u, [exit]);
    assert [exit][1..] == [];
    var r := RunFrom(s, events);
    assert r.state == u.(paused := false, resizing := false, calls := u.calls + [StartTimer]);
    assert r.state.calls == s.calls + [StopTimer] + [StartTimer];
    ResizeCountAppend(s.calls, [StopTimer, StartTimer]);
  }

  /** Calls that are not `OnResize` leave the count alone. */
  lemma {:induction false} ResizeCountAppend(a: seq<SampleCall>, b: seq<SampleCall>)
    requires Resize !in b
    ensures ResizeCount(a + b) == ResizeCount(a)
    decreases |b|
  {
    if b == [] {
      assert a + b == a;
    } else {
      var b' := b[..|b| - 1];
      assert (a + b)[..|a + b| - 1] == a + b';
      ResizeCountAppend(a, b');
    }
  }

  /**
   * An empty queue always ticks the timer; the frame statistics are computed
   * exactly when the sample is not paused.
   */
  lemma IdleTicks(s: WindowState)
    requires s.attached
    ensures RunFrom(s, [Idle]).state.calls
      == s.calls + (if s.paused then [TickTimer] else [TickTimer, FrameStats])
    ensures RunFrom(s, [Idle]).exitCode == None
  {
    assert [Idle][1..] == [];
  }
}
