/** The status LEDs: a heartbeat LED that the tick handler and the main-loop
    task blink together through a flag handshake, and a USB LED that shows a
    setting and can be "winked" dark for a moment. Ticks are 16-bit
    millisecond counts, compared by wrap-around subtraction. Both LEDs are
    active-low: the LED is lit when its PORT bit is clear. */
module StatusLeds {

  /** A uint16_t tick count. */
  type Tick = x: int | 0 <= x < 0x1_0000

  const HeartbeatHalfPeriodMs: int := 500
  const WinkDurationMs: int := 60
  const WinkRecoveryMs: int := 40

  /** currentTick - earlier in 16-bit unsigned arithmetic (uint16_t operands
      promote to the AVR's 16-bit unsigned int). */
  function Elapsed(now: Tick, earlier: Tick): (d: int)
    ensures 0 <= d < 0x1_0000
    ensures now >= earlier ==> d == now - earlier
    ensures now < earlier ==> d == now - earlier + 0x1_0000
  {
    if now >= earlier then now - earlier else now - earlier + 0x1_0000
  }

  /** Elapsed is subtraction modulo 2^16. */
  lemma ElapsedIsModular(now: Tick, earlier: Tick)
    ensures Elapsed(now, earlier) == (now - earlier) % 0x1_0000
  {
  }

  /** Every variable of the module: the three ticks, the volatile flags the
      tick handler owns, the flags the task and API own, and the four LED
      port and direction bits. */
  datatype LedState = LedState(
    currentTick: Tick,
    lastHbtChangeTick: Tick,
    winkStartTick: Tick,
    winking: bool,
    winkCooldown: bool,
    hbt: bool,
    usbLedSetting: bool,
    hbtAck: bool,
    startWink: bool,
    hbtPortBit: bool,
    usbPortBit: bool,
    hbtDdrBit: bool,
    usbDdrBit: bool)

  /** Active-low: an LED is lit when its port bit is clear. */
  predicate UsbLedLit(s: LedState) { !s.usbPortBit }
  predicate HbtLedLit(s: LedState) { !s.hbtPortBit }

  /** The wink of the USB LED: idle, dark, or recovering. */
  datatype WinkPhase = Idle | Dark | Cooldown

  function Phase(s: LedState): WinkPhase {
    if !s.winking then Idle else if !s.winkCooldown then Dark else Cooldown
  }

  /** What the module keeps true between calls: the cooldown flag is only
      ever set during a wink, and outside the dark part of a wink the USB
      LED shows the stored setting. */
  ghost predicate Inv(s: LedState) {
    (s.winkCooldown ==> s.winking) &&
    (Phase(s) != Dark ==> UsbLedLit(s) == s.usbLedSetting)
  }

  /** statusleds__init: both LEDs off and their pins outputs, every flag and
      lastHbtChangeTick cleared. */
  function InitStep(s: LedState): (r: LedState)
    ensures Inv(r) && Phase(r) == Idle
    ensures !UsbLedLit(r) && !HbtLedLit(r) && r.hbtDdrBit && r.usbDdrBit
    ensures !r.hbt && !r.hbtAck && !r.startWink && !r.usbLedSetting && r.lastHbtChangeTick == 0
  {
    s.(hbtPortBit := true, usbPortBit := true, hbtDdrBit := true, usbDdrBit := true,
       lastHbtChangeTick := 0, winking := false, winkCooldown := false, hbt := false,
       usbLedSetting := false, hbtAck := false, startWink := false)
  }

  /** statusleds__setHbtLed: lights (on != 0) or darkens the heartbeat LED
      directly, with no flag touched. */
  function SetHbtLedStep(s: LedState, on: int): (r: LedState)
    ensures HbtLedLit(r) == (on != 0)
    ensures r.(hbtPortBit := s.hbtPortBit) == s
  {
    s.(hbtPortBit := on == 0)
  }

  /** statusleds__setUsbLed: stores !!on as the level a wink restores and
      drives the LED to it at once. */
  function SetUsbLedStep(s: LedState, on: int): (r: LedState)
    ensures r.usbLedSetting == (on != 0) && UsbLedLit(r) == (on != 0)
    ensures r.(usbLedSetting := s.usbLedSetting, usbPortBit := s.usbPortBit) == s
  {
    s.(usbLedSetting := on != 0, usbPortBit := on == 0)
  }

  /** statusleds__winkUsbLed: only raises the request flag. */
  function WinkStep(s: LedState): (r: LedState)
    ensures r.startWink && r.(startWink := s.startWink) == s
  {
    s.(startWink := true)
  }

  /** The heartbeat half of statusleds__onMsTick: only hbt and
      lastHbtChangeTick change. */
  function HeartbeatTick(s: LedState): (r: LedState)
    ensures r.(hbt := s.hbt, lastHbtChangeTick := s.lastHbtChangeTick) == s
  {
    if s.hbtAck then s.(hbt := false)
    else if Elapsed(s.currentTick, s.lastHbtChangeTick) >= HeartbeatHalfPeriodMs then
      s.(hbt := true, lastHbtChangeTick := s.currentTick)
    else s
  }

  /** The wink half of statusleds__onMsTick: at most one phase step, which
      keeps the invariant; the heartbeat variables do not change. */
  function WinkTick(s: LedState): (r: LedState)
    ensures Inv(s) ==> Inv(r)
    ensures r.hbt == s.hbt && r.hbtAck == s.hbtAck && r.hbtPortBit == s.hbtPortBit
    ensures r.lastHbtChangeTick == s.lastHbtChangeTick && r.currentTick == s.currentTick
  {
    if s.winkCooldown then
      if Elapsed(s.currentTick, s.winkStartTick) >= WinkDurationMs + WinkRecoveryMs then
        s.(winking := false, winkCooldown := false)
      else s
    else if s.winking then
      if Elapsed(s.currentTick, s.winkStartTick) >= WinkDurationMs then
        s.(usbPortBit := !s.usbLedSetting, winkCooldown := true)
      else s
    else if s.startWink then
      s.(winkStartTick := s.currentTick, usbPortBit := true, winking := true)
    else s
  }

  /** statusleds__onMsTick(&counter): latch the tick, then the heartbeat
      half, then the wink half. */
  function TickStep(s: LedState, counter: Tick): (r: LedState)
    ensures Inv(s) ==> Inv(r)
    ensures r.currentTick == counter
  {
    var h := HeartbeatTick(s.(currentTick := counter));
    assert Inv(s) ==> Inv(h);
    WinkTick(h)
  }

  /** statusleds__task: the heartbeat handshake, then the wink handshake. */
  function TaskStep(s: LedState): (r: LedState)
    ensures Inv(s) ==> Inv(r)
  {
    var h :=
      if s.hbtAck then (if !s.hbt then s.(hbtAck := false) else s)
      else if s.hbt then s.(hbtPortBit := !s.hbtPortBit, hbtAck := true)
      else s;
    if h.startWink && h.winking then h.(startWink := false) else h
  }

  /** The invariant survives the API calls too. */
  lemma ApiKeepsInv(s: LedState, on: int)
    requires Inv(s)
    ensures Inv(SetUsbLedStep(s, on)) && Inv(WinkStep(s)) && Inv(SetHbtLedStep(s, on))
  {
  }

  /** The heartbeat half of a tick: with hbtAck set it clears hbt; without
      it, hbt is raised and the change tick moved to now exactly when at
      least 500 ms (mod 2^16) have passed, and nothing changes otherwise. */
  lemma TickHeartbeat(s: LedState, counter: Tick)
    ensures s.hbtAck ==> !TickStep(s, counter).hbt &&
                         TickStep(s, counter).lastHbtChangeTick == s.lastHbtChangeTick
    ensures !s.hbtAck && Elapsed(counter, s.lastHbtChangeTick) >= HeartbeatHalfPeriodMs ==>
              TickStep(s, counter).hbt && TickStep(s, counter).lastHbtChangeTick == counter
    ensures !s.hbtAck && Elapsed(counter, s.lastHbtChangeTick) < HeartbeatHalfPeriodMs ==>
              TickStep(s, counter).hbt == s.hbt &&
              TickStep(s, counter).lastHbtChangeTick == s.lastHbtChangeTick
    ensures TickStep(s, counter).hbtAck == s.hbtAck && TickStep(s, counter).hbtPortBit == s.hbtPortBit
  {
  }

  /** The wink half of a tick moves the phase at most one step forward:
      Idle to Dark when a wink is requested (recording the start tick and
      darkening the LED), Dark to Cooldown after 60 ms (restoring the LED
      to the setting), Cooldown to Idle 100 ms after the start. */
  lemma TickWinkPhase(s: LedState, counter: Tick)
    requires Inv(s)
    ensures var r := TickStep(s, counter);
            match Phase(s)
            case Idle =>
              (s.startWink ==> Phase(r) == Dark && r.winkStartTick == counter && !UsbLedLit(r)) &&
              (!s.startWink ==> Phase(r) == Idle && r.usbPortBit == s.usbPortBit)
            case Dark =>
              if Elapsed(counter, s.winkStartTick) >= WinkDurationMs
              then Phase(r) == Cooldown && UsbLedLit(r) == s.usbLedSetting
              else Phase(r) == Dark && r.usbPortBit == s.usbPortBit
            case Cooldown =>
              Phase(r) == (if Elapsed(counter, s.winkStartTick) >= WinkDurationMs + WinkRecoveryMs
                           then Idle else Cooldown) &&
              r.usbPortBit == s.usbPortBit
  {
  }

  /** The task toggles the heartbeat LED when the tick handler has raised
      hbt and the task has not yet acknowledged it; a second task run
      before the next tick does not toggle it again. */
  lemma TaskTogglesOnce(s: LedState)
    requires !s.hbtAck && s.hbt
    ensures TaskStep(s).hbtAck && HbtLedLit(TaskStep(s)) == !HbtLedLit(s)
    ensures TaskStep(TaskStep(s)).hbtPortBit == TaskStep(s).hbtPortBit
  {
  }

  /** The task clears hbtAck only once the tick handler has cleared hbt,
      and it clears startWink only once the wink has started. */
  lemma TaskHandshake(s: LedState)
    ensures s.hbtAck && !TaskStep(s).hbtAck ==> !s.hbt
    ensures s.startWink && !TaskStep(s).startWink ==> s.winking
    ensures TaskStep(s).hbt == s.hbt && TaskStep(s).winking == s.winking
  {
  }

  /** A request pending while the LED is idle is not lost: whatever number
      of task runs come in between, the next tick starts the wink. */
  lemma {:induction false} WinkNotDropped(s: LedState, tasks: nat, counter: Tick)
    requires Inv(s) && s.startWink && Phase(s) == Idle
    ensures Phase(TickStep(TasksStep(s, tasks), counter)) == Dark
    ensures TickStep(TasksStep(s, tasks), counter).winkStartTick == counter
  {
    TasksKeepWinkRequest(s, tasks);
    TickWinkPhase(TasksStep(s, tasks), counter);
  }

  /** A request made while a wink is running is merged into that wink: the
      next task run clears it without changing the phase, and when the
      running wink ends the LED goes idle with no request left, so the
      tick after that starts no second wink. */
  lemma WinkRequestMerged(s: LedState, end: Tick, next: Tick)
    requires Inv(s) && s.startWink && s.winking
    ensures !TaskStep(s).startWink && Phase(TaskStep(s)) == Phase(s)
    ensures TaskStep(s).winkStartTick == s.winkStartTick
    ensures Phase(s) == Cooldown && Elapsed(end, s.winkStartTick) >= WinkDurationMs + WinkRecoveryMs ==>
              var e := TickStep(TaskStep(s), end);
              Phase(e) == Idle && !e.startWink && Phase(TickStep(e, next)) == Idle
  {
    var t := TaskStep(s);
    assert t == s.(startWink := false) || t == s.(startWink := false, hbtAck := false) ||
           t == s.(startWink := false, hbtPortBit := !s.hbtPortBit, hbtAck := true);
    if Phase(s) == Cooldown && Elapsed(end, s.winkStartTick) >= WinkDurationMs + WinkRecoveryMs {
      var e := TickStep(t, end);
      CooldownEnds(t, end);
      TickWinkPhase(e, next);
    }
  }

  /** A tick at least 100 ms after the start of a wink in cooldown ends it. */
  lemma CooldownEnds(t: LedState, end: Tick)
    requires Inv(t) && Phase(t) == Cooldown && !t.startWink
    requires Elapsed(end, t.winkStartTick) >= WinkDurationMs + WinkRecoveryMs
    ensures Inv(TickStep(t, end)) && Phase(TickStep(t, end)) == Idle && !TickStep(t, end).startWink
  {
    var h := HeartbeatTick(t.(currentTick := end));
    assert h.winkCooldown && h.winkStartTick == t.winkStartTick && h.currentTick == end && !h.startWink;
  }

  /** `tasks` runs of statusleds__task with no tick in between. */
  function TasksStep(s: LedState, tasks: nat): LedState
    decreases tasks
  {
    if tasks == 0 then s else TasksStep(TaskStep(s), tasks - 1)
  }

  lemma {:induction false} TasksKeepWinkRequest(s: LedState, tasks: nat)
    requires Inv(s) && s.startWink && Phase(s) == Idle
    ensures Inv(TasksStep(s, tasks)) && TasksStep(s, tasks).startWink && Phase(TasksStep(s, tasks)) == Idle
    decreases tasks
  {
    if tasks > 0 {
      TasksKeepWinkRequest(TaskStep(s), tasks - 1);
    }
  }

  /** The module's variables, updated in place by the handlers. */
  class StatusLedDriver {
    var currentTick: Tick
    var lastHbtChangeTick: Tick
    var winkStartTick: Tick
    var winking: bool
    var winkCooldown: bool
    var hbt: bool
    var usbLedSetting: bool
    var hbtAck: bool
    var startWink: bool
    var hbtPortBit: bool
    var usbPortBit: bool
    var hbtDdrBit: bool
    var usbDdrBit: bool

    function State(): LedState
      reads this
    {
      LedState(currentTick, lastHbtChangeTick, winkStartTick, winking, winkCooldown, hbt,
               usbLedSetting, hbtAck, startWink, hbtPortBit, usbPortBit, hbtDdrBit, usbDdrBit)
    }

    /** Power-on contents: the static variables are zero. */
    constructor ()
      ensures State() == LedState(0, 0, 0, false, false, false, false, false, false,
                                  false, false, false, false)
    {
      currentTick, lastHbtChangeTick, winkStartTick := 0, 0, 0;
      winking, winkCooldown, hbt := false, false, false;
      usbLedSetting, hbtAck, startWink := false, false, false;
      hbtPortBit, usbPortBit, hbtDdrBit, usbDdrBit := false, false, false, false;
    }

    /** setHbtLed: clear the port bit to light the LED, set it to darken. */
    method SetHbtPin(on: int)
      modifies this
      ensures State() == old(State()).(hbtPortBit := on == 0)
    {
      if on != 0 {
        hbtPortBit := false;
      } else {
        hbtPortBit := true;
      }
    }

    /** setUsbLed: the same for the USB LED. */
    method SetUsbPin(on: int)
      modifies this
      ensures State() == old(State()).(usbPortBit := on == 0)
    {
      if on != 0 {
        usbPortBit := false;
      } else {
        usbPortBit := true;
      }
    }

    method Init()
      modifies this
      ensures State() == InitStep(old(State()))
    {
      SetHbtPin(0);
      SetUsbPin(0);
      hbtDdrBit := true;
      usbDdrBit := true;
      lastHbtChangeTick := 0;
      winking := false;
      winkCooldown := false;
      hbt := false;
      usbLedSetting := false;
      hbtAck := false;
      startWink := false;
    }

    method SetHbtLed(on: int)
      modifies this
      ensures State() == SetHbtLedStep(old(State()), on)
    {
      SetHbtPin(on);
    }

    method SetUsbLed(on: int)
      modifies this
      ensures State() == SetUsbLedStep(old(State()), on)
    {
      usbLedSetting := on != 0;
      SetUsbPin(on);
    }

    method WinkUsbLed()
      modifies this
      ensures State() == WinkStep(old(State()))
    {
      startWink := true;
    }

    /** statusleds__onMsTick: msCounter is the value behind the pointer. */
    method OnMsTick(msCounter: Tick)
      modifies this
      ensures State() == TickStep(old(State()), msCounter)
    {
      currentTick := msCounter;
      HeartbeatOnTick();
      WinkOnTick();
    }

    /** The heartbeat half of statusleds__onMsTick. */
    method HeartbeatOnTick()
      modifies this
      ensures State() == HeartbeatTick(old(State()))
    {
      if hbtAck {
        hbt := false;
      } else if Elapsed(currentTick, lastHbtChangeTick) >= HeartbeatHalfPeriodMs {
        hbt := true;
        lastHbtChangeTick := currentTick;
      }
    }

    /** The wink half of statusleds__onMsTick. */
    method WinkOnTick()
      modifies this
      ensures State() == WinkTick(old(State()))
    {
      if winkCooldown {
        if Elapsed(currentTick, winkStartTick) >= WinkDurationMs + WinkRecoveryMs {
          winking := false;
          winkCooldown := false;
        }
      } else if winking {
        if Elapsed(currentTick, winkStartTick) >= WinkDurationMs {
          SetUsbPin(if usbLedSetting then 1 else 0);
          winkCooldown := true;
        }
      } else if startWink {
        winkStartTick := currentTick;
        SetUsbPin(0);
        winking := true;
      }
    }

    method Task()
      modifies this
      ensures State() == TaskStep(old(State()))
    {
      if hbtAck {
        if !hbt {
          hbtAck := false;
        }
      } else if hbt {
        hbtPortBit := !hbtPortBit;
        hbtAck := true;
      }
      if startWink {
        if winking {
          startWink := false;
        }
      }
    }
  }
}
