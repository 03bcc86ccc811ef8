/**
 * The RX72N parallel data capture (PDC) driver: the open flag, the
 * capture window registers with their hardware limits, the sync-signal
 * polarities, the six interrupt enables, the status flags, the reset
 * request with its single pending completion hook, and the two interrupt
 * handlers (frame end and error).
 *
 * Registers and the driver's statics are fields of `Driver`. What the
 * hardware does on its own (PRST releasing, FEMPF rising, error flags
 * appearing) reaches the model as parameters: a sequence of the values a
 * polling loop reads, or the value of a register at the call. A user
 * callback is named by an identifier; an interrupt handler returns the
 * call it makes (`Delivery`), and the owner of the driver runs it.
 */
module PdcDriver {
  import opened Common

  // Event identifiers and error bits of the callback argument.
  const EVT_ID_DATAREADY: nat := 0
  const EVT_ID_FRAMEEND: nat := 1
  const EVT_ID_ERROR: nat := 2
  const EVT_ID_TRANSFER_TIMEOUT: nat := 3

  const ERROR_OVERRUN: nat := 1
  const ERROR_UNDERRUN: nat := 2
  const ERROR_VPARAM: nat := 4
  const ERROR_HPARAM: nat := 8

  /** How long wait_reset_done polls PRST, in milliseconds. */
  const WAIT_TIMEOUT_MILLIS: nat := 50
  /** After how many milliseconds the update step gives up on a pending reset. */
  const UPDATE_RESET_TIMEOUT_MILLIS: nat := 500
  /** How many times the frame-end handler re-reads FEMPF before giving up. */
  const FIFO_WAIT_LIMIT: nat := 300
  /** Highest interrupt priority level of the MCU (BSP_MCU_IPL_MAX on the RX72N). */
  const IPL_MAX: nat := 15

  // Capture window limits of the VCR/HCR registers.
  const VST_UPPER_LIMIT: nat := 0x0FFE
  const HST_UPPER_LIMIT: nat := 0x0FFB
  const VSZ_LOWER_LIMIT: nat := 0x0001
  const VSZ_UPPER_LIMIT: nat := 0x0FFF
  const HSZ_LOWER_LIMIT: nat := 0x0004
  const HSZ_UPPER_LIMIT: nat := 0x0FFF
  const VSTVSZ_MIX_UPPER_LIMIT: nat := 0x0FFF
  const HSTHSZ_MIX_UPPER_LIMIT: nat := 0x0FFF

  /** pdc_interrupt_setting_t: the six interrupt enables of PCCR0. */
  datatype IntSetting = IntSetting(dfie: bool, feie: bool, ovie: bool, udrie: bool, verie: bool, herie: bool)

  /** pdc_position_t */
  datatype Position = Position(vst: nat, hst: nat)

  /** pdc_capture_size_t */
  datatype CaptureSize = CaptureSize(vsz: nat, hsz: nat)

  /** pdc_callback_functions_t: each entry names a user callback or is NULL. */
  datatype Callbacks = Callbacks(dataReady: Option<nat>, frameEnd: Option<nat>, error: Option<nat>)

  /** pdc_config_t */
  datatype Config = Config(
    prioPcdfi: nat, prioPcefi: nat, prioPceri: nat,
    ints: IntSetting, hsyncHigh: bool, vsyncHigh: bool,
    pos: Position, size: CaptureSize, callbacks: Callbacks)

  /** pdc_event_arg_t */
  datatype EventArg = EventArg(eventId: nat, errors: nat)

  /** One call of a user callback made by an interrupt handler. */
  datatype Delivery = Delivery(callback: nat, arg: EventArg)

  /** pdc_stat_t: a copy of the PCSR flags. */
  datatype Stat = Stat(frameBusy: bool, fifoEmpty: bool, frameEnd: bool, overrun: bool,
                       underrun: bool, verf: bool, herf: bool)

  /** The only completion hook a reset request carries: the one capture_start installs. */
  datatype ResetHook = BeforeCapture

  /** One pass of wait_reset_done's loop: PRST and the tick it read. */
  datatype ResetSample = ResetSample(prst: bool, tick: Tick)

  /** One pass of the frame-end handler's loop: FEMPF and UDRF as it read them. */
  datatype FifoSample = FifoSample(fempf: bool, udrf: bool)

  /** Every interrupt enable set to `b`. */
  function AllInts(b: bool): (r: IntSetting)
    ensures r.dfie == b && r.feie == b && r.ovie == b && r.udrie == b && r.verie == b && r.herie == b
  {
    IntSetting(b, b, b, b, b, b)
  }

  /**
   * is_valid_capture_range: the window fits the horizontal and vertical
   * counters. A valid window fits the 12-bit register fields, is never
   * empty, and leaves room for itself after its start.
   */
  predicate IsValidCaptureRange(hst: nat, vst: nat, hsz: nat, vsz: nat): (r: bool)
    ensures r ==> hst < 0x1000 && vst < 0x1000 && hsz < 0x1000 && vsz < 0x1000
    ensures r ==> hsz >= 4 && vsz >= 1 && hst <= 0x0FFF - 4 && vst <= 0x0FFF - 1
  {
    hst <= HST_UPPER_LIMIT && vst <= VST_UPPER_LIMIT
    && HSZ_LOWER_LIMIT <= hsz <= HSZ_UPPER_LIMIT
    && VSZ_LOWER_LIMIT <= vsz <= VSZ_UPPER_LIMIT
    && hst + hsz <= HSTHSZ_MIX_UPPER_LIMIT
    && vst + vsz <= VSTVSZ_MIX_UPPER_LIMIT
  }

  /** The priority check of setup_interrupts. */
  predicate PrioritiesValid(c: Config)
  {
    !(c.prioPcdfi > IPL_MAX || c.prioPcefi > IPL_MAX || c.prioPceri > IPL_MAX)
  }

  /** rx_driver_pdc_open's return value, step by step. */
  function OpenResult(isOpen: bool, cfg: Option<Config>, lockAcquired: bool, pcfeiWritten: bool, pceriWritten: bool): (r: int)
    ensures r == 0 <==> isOpen || (cfg.Some? && lockAcquired && pcfeiWritten && pceriWritten && PrioritiesValid(cfg.value)
                                   && IsValidCaptureRange(cfg.value.pos.hst, cfg.value.pos.vst, cfg.value.size.hsz, cfg.value.size.vsz))
    ensures r in {0, EINVAL, EBUSY, EFAULT}
    ensures !isOpen && cfg.None? ==> r == EINVAL
    ensures !isOpen && cfg.Some? && !lockAcquired ==> r == EBUSY
    ensures !isOpen && cfg.Some? && lockAcquired && !(pcfeiWritten && pceriWritten) ==> r == EFAULT
    ensures !isOpen && cfg.Some? && lockAcquired && pcfeiWritten && pceriWritten && r != 0 ==> r == EINVAL
  {
    if isOpen then 0
    else if cfg.None? then EINVAL
    else if !lockAcquired then EBUSY
    else if !pcfeiWritten || !pceriWritten then EFAULT
    else if !PrioritiesValid(cfg.value) then EINVAL
    else if !IsValidCaptureRange(cfg.value.pos.hst, cfg.value.pos.vst, cfg.value.size.hsz, cfg.value.size.vsz) then EINVAL
    else 0
  }

  /** wait_reset_done leaves its loop once PRST reads released or more than 50 ms have passed. */
  predicate ResetWaitStops(s: ResetSample, start: Tick)
  {
    !s.prst || Elapsed(s.tick, start) > WAIT_TIMEOUT_MILLIS
  }

  /** The first pass at or after `k` at which wait_reset_done's loop stops. */
  function FirstResetStop(samples: seq<ResetSample>, start: Tick, k: nat): (r: nat)
    requires k < |samples| && ResetWaitStops(samples[|samples| - 1], start)
    ensures k <= r < |samples| && ResetWaitStops(samples[r], start)
    decreases |samples| - k
  {
    if ResetWaitStops(samples[k], start) then k else FirstResetStop(samples, start, k + 1)
  }

  /** Before the stopping pass PRST read set and at most 50 ms had passed. */
  lemma {:induction false} FirstResetStopIsFirst(samples: seq<ResetSample>, start: Tick, k: nat, j: nat)
    requires k < |samples| && ResetWaitStops(samples[|samples| - 1], start)
    requires k <= j < FirstResetStop(samples, start, k)
    ensures samples[j].prst && Elapsed(samples[j].tick, start) <= WAIT_TIMEOUT_MILLIS
    decreases j - k
  {
    if j > k {
      FirstResetStopIsFirst(samples, start, k + 1, j);
    }
  }

  /** PRST as wait_reset_done leaves it. */
  function PrstAfterWait(samples: seq<ResetSample>, start: Tick): bool
    requires |samples| > 0 && ResetWaitStops(samples[|samples| - 1], start)
  {
    samples[FirstResetStop(samples, start, 0)].prst
  }

  /** A still-set PRST at the end of wait_reset_done means the 50 ms ran out. */
  lemma ResetWaitTimedOut(samples: seq<ResetSample>, start: Tick)
    requires |samples| > 0 && ResetWaitStops(samples[|samples| - 1], start)
    ensures PrstAfterWait(samples, start) ==> Elapsed(samples[FirstResetStop(samples, start, 0)].tick, start) > WAIT_TIMEOUT_MILLIS
  {
  }

  /** The PDC_ERROR_* mask process_errors builds from the four error flags. */
  function ErrorMask(ovr: bool, udr: bool, ver: bool, her: bool): (r: nat)
    ensures r < 16
  {
    (if ovr then ERROR_OVERRUN else 0) + (if udr then ERROR_UNDERRUN else 0)
    + (if ver then ERROR_VPARAM else 0) + (if her then ERROR_HPARAM else 0)
  }

  /** Whether single-bit `bit` is set in `mask` (`(mask & bit) != 0`). */
  predicate HasBit(mask: nat, bit: nat)
    requires bit in {1, 2, 4, 8}
  {
    (mask / bit) % 2 == 1
  }

  /** The mask holds exactly the bits of the flags that were set. */
  lemma ErrorMaskExact(ovr: bool, udr: bool, ver: bool, her: bool)
    ensures HasBit(ErrorMask(ovr, udr, ver, her), ERROR_OVERRUN) == ovr
    ensures HasBit(ErrorMask(ovr, udr, ver, her), ERROR_UNDERRUN) == udr
    ensures HasBit(ErrorMask(ovr, udr, ver, her), ERROR_VPARAM) == ver
    ensures HasBit(ErrorMask(ovr, udr, ver, her), ERROR_HPARAM) == her
    ensures ErrorMask(ovr, udr, ver, her) == 0 <==> !(ovr || udr || ver || her)
  {
    var m := ErrorMask(ovr, udr, ver, her);
    var a, b, c, d := if ovr then 1 else 0, if udr then 1 else 0, if ver then 1 else 0, if her then 1 else 0;
    assert m == a + 2 * b + 4 * c + 8 * d;
    assert m / 2 == b + 2 * c + 4 * d;
    assert m / 4 == c + 2 * d;
    assert m / 8 == d;
  }

  /** The frame-end callback's call for `eventId`, if a frame-end callback is registered. */
  function FrameEndDelivery(cbs: Callbacks, eventId: nat): (r: Option<Delivery>)
    ensures r.Some? <==> cbs.frameEnd.Some?
    ensures r.Some? ==> r.value.callback == cbs.frameEnd.value && r.value.arg == EventArg(eventId, 0)
  {
    if cbs.frameEnd.Some? then Some(Delivery(cbs.frameEnd.value, EventArg(eventId, 0))) else None
  }

  /** The error callback's call with `mask`, if an error callback is registered. */
  function ErrorDelivery(cbs: Callbacks, mask: nat): (r: Option<Delivery>)
    ensures r.Some? <==> cbs.error.Some?
    ensures r.Some? ==> r.value.callback == cbs.error.value && r.value.arg == EventArg(EVT_ID_ERROR, mask)
  {
    if cbs.error.Some? then Some(Delivery(cbs.error.value, EventArg(EVT_ID_ERROR, mask))) else None
  }

  /** The frame-end handler stops polling when the FIFO is empty, on underrun, or after 300 re-reads. */
  predicate FifoWaitStops(samples: seq<FifoSample>, k: nat)
    requires k < |samples|
  {
    samples[k].fempf || samples[k].udrf || k >= FIFO_WAIT_LIMIT
  }

  /** The pass at or after `k` at which the frame-end handler's polling ends. */
  function FifoWaitEnd(samples: seq<FifoSample>, k: nat): (r: nat)
    requires k <= FIFO_WAIT_LIMIT < |samples|
    ensures k <= r <= FIFO_WAIT_LIMIT && FifoWaitStops(samples, r)
    decreases FIFO_WAIT_LIMIT - k
  {
    if FifoWaitStops(samples, k) then k else FifoWaitEnd(samples, k + 1)
  }

  /** Before the last pass the FIFO was neither empty nor underrun. */
  lemma {:induction false} FifoWaitEndIsFirst(samples: seq<FifoSample>, k: nat, j: nat)
    requires k <= FIFO_WAIT_LIMIT < |samples|
    requires k <= j < FifoWaitEnd(samples, k)
    ensures !samples[j].fempf && !samples[j].udrf
    decreases j - k
  {
    if j > k {
      FifoWaitEndIsFirst(samples, k + 1, j);
    }
  }

  class Driver {
    /** s_is_opened */
    var isOpen: bool
    /** This driver holds the BSP hardware lock of the PDC. */
    var locked: bool
    /** PCCR1.PCE: capture enabled. */
    var pce: bool
    /** PCCR0.PRST: reset in progress. */
    var prst: bool
    // PCSR flags.
    var fbsy: bool
    var fempf: bool
    var fef: bool
    var ovrf: bool
    var udrf: bool
    var verf: bool
    var herf: bool
    /** PCCR0's DFIE, FEIE, OVIE, UDRIE, VERIE and HERIE. */
    var ints: IntSetting
    /** PCCR0.HPS and PCCR0.VPS: true for active-high. */
    var hps: bool
    var vps: bool
    /** VCR.VST and HCR.HST */
    var pos: Position
    /** VCR.VSZ and HCR.HSZ */
    var size: CaptureSize
    /** PCCR0.PCKOE and PCCR0.PCKE: clock output and input enabled. */
    var pckoe: bool
    var pcke: bool
    /** s_callback_functions */
    var callbacks: Callbacks
    /** s_reset_start_tick */
    var resetStartTick: Tick
    /** s_reset_done_callback */
    var resetCallback: Option<ResetHook>

    /** rx_driver_pdc_is_receiving */
    predicate IsReceiving(): (r: bool)
      reads this
      ensures r ==> isOpen && pce
      ensures isOpen ==> (r <==> pce)
    {
      isOpen && pce
    }

    /** rx_driver_pdc_is_resetting */
    predicate IsResetting(): (r: bool)
      reads this
      ensures r ==> isOpen && prst
      ensures isOpen ==> (r <==> prst)
    {
      isOpen && prst
    }

    /** The driver before open: registers at their reset values, no callbacks, nothing pending. */
    constructor ()
      ensures !isOpen && !locked && !IsReceiving() && !IsResetting()
      ensures callbacks == Callbacks(None, None, None) && resetCallback == None
    {
      isOpen := false;
      locked := false;
      pce := false;
      prst := false;
      fbsy := false;
      fempf := true;
      fef := false;
      ovrf := false;
      udrf := false;
      verf := false;
      herf := false;
      ints := AllInts(false);
      hps := false;
      vps := false;
      pos := Position(0, 0);
      size := CaptureSize(0, 0);
      pckoe := false;
      pcke := false;
      callbacks := Callbacks(None, None, None);
      resetStartTick := 0;
      resetCallback := None;
    }

    /**
     * rx_driver_pdc_open. The outcomes of the BSP hardware lock and of the
     * two interrupt-handler registrations are parameters, and so are the
     * tick at which the reset is requested and the PRST/tick values
     * wait_reset_done reads. Only a call that passes every step opens the
     * driver; the configuration reaches the registers only then.
     */
    method Open(cfg: Option<Config>, lockAcquired: bool, pcfeiWritten: bool, pceriWritten: bool,
                now: Tick, samples: seq<ResetSample>) returns (r: int)
      requires |samples| > 0 && ResetWaitStops(samples[|samples| - 1], now)
      modifies this`isOpen, this`locked, this`callbacks, this`pce, this`ints, this`pckoe, this`pcke,
               this`resetStartTick, this`resetCallback, this`prst, this`pos, this`size, this`hps, this`vps
      ensures r == OpenResult(old(isOpen), cfg, lockAcquired, pcfeiWritten, pceriWritten)
      ensures isOpen <==> old(isOpen) || r == 0
      ensures old(isOpen) || cfg.None? || !lockAcquired ==> unchanged(this)
      ensures !old(isOpen) && r == 0 ==>
        && locked && callbacks == cfg.value.callbacks && !pce && ints == cfg.value.ints && pckoe && pcke
        && resetStartTick == now && resetCallback == None && prst == PrstAfterWait(samples, now)
        && pos == cfg.value.pos && size == cfg.value.size && hps == cfg.value.hsyncHigh && vps == cfg.value.vsyncHigh
      ensures !old(isOpen) && r != 0 ==>
        && pckoe == old(pckoe) && pcke == old(pcke) && resetStartTick == old(resetStartTick)
        && resetCallback == old(resetCallback) && prst == old(prst)
        && pos == old(pos) && size == old(size) && hps == old(hps) && vps == old(vps)
      ensures r == EFAULT ==> locked && callbacks == old(callbacks) && pce == old(pce) && ints == old(ints)
      ensures r == EINVAL && cfg.Some? ==>
        && !locked && callbacks == cfg.value.callbacks
        && pce == (old(pce) && !PrioritiesValid(cfg.value))
        && ints == (if PrioritiesValid(cfg.value) then cfg.value.ints else old(ints))
    {
      if isOpen {
        return 0;
      }
      if cfg.None? {
        return EINVAL;
      }
      if !lockAcquired {
        return EBUSY;
      }
      locked := true;
      if !pcfeiWritten {
        return EFAULT;
      }
      if !pceriWritten {
        return EFAULT;
      }
      callbacks := cfg.value.callbacks;
      r := SetupInterrupts(cfg.value);
      if r != 0 {
        locked := false;
        return r;
      }
      r := SetupPdc(cfg.value, now, samples);
      if r != 0 {
        locked := false;
        return r;
      }
      isOpen := true;
    }

    /** setup_interrupts, as far as the PDC's own registers go: priorities checked, capture off, enables written. */
    method SetupInterrupts(c: Config) returns (r: int)
      modifies this`pce, this`ints
      ensures r == (if PrioritiesValid(c) then 0 else EINVAL)
      ensures pce == (old(pce) && r != 0) && ints == (if r == 0 then c.ints else old(ints))
    {
      if c.prioPcdfi > IPL_MAX || c.prioPcefi > IPL_MAX || c.prioPceri > IPL_MAX {
        return EINVAL;
      }
      pce := false;
      ints := c.ints;
      r := 0;
    }

    /**
     * setup_pdc: range checked, capture off, clocks on, reset requested
     * without a hook and waited for, then the window and the polarities
     * written.
     */
    method SetupPdc(c: Config, now: Tick, samples: seq<ResetSample>) returns (r: int)
      requires |samples| > 0 && ResetWaitStops(samples[|samples| - 1], now)
      modifies this`pce, this`pckoe, this`pcke, this`resetStartTick, this`resetCallback, this`prst,
               this`pos, this`size, this`hps, this`vps
      ensures r == (if IsValidCaptureRange(c.pos.hst, c.pos.vst, c.size.hsz, c.size.vsz) then 0 else EINVAL)
      ensures r != 0 ==> unchanged(this)
      ensures r == 0 ==>
        && !pce && pckoe && pcke && resetStartTick == now && resetCallback == None
        && prst == PrstAfterWait(samples, now)
        && pos == c.pos && size == c.size && hps == c.hsyncHigh && vps == c.vsyncHigh
    {
      if !IsValidCaptureRange(c.pos.hst, c.pos.vst, c.size.hsz, c.size.vsz) {
        return EINVAL;
      }
      pce := false;
      pckoe := true;
      pcke := true;
      RequestReset(now, None);
      var _ := WaitResetDone(samples);
      pos := Position(c.pos.vst, pos.hst);
      pos := Position(pos.vst, c.pos.hst);
      size := CaptureSize(c.size.vsz, size.hsz);
      size := CaptureSize(size.vsz, c.size.hsz);
      vps := c.vsyncHigh;
      hps := c.hsyncHigh;
      r := 0;
    }

    /**
     * rx_driver_pdc_close: capture, interrupts and clocks off, lock
     * released; nothing to do when not open.
     */
    method Close() returns (r: int)
      modifies this`isOpen, this`locked, this`pce, this`ints, this`pckoe, this`pcke
      ensures r == 0 && !isOpen
      ensures !old(isOpen) ==> unchanged(this)
      ensures old(isOpen) ==> !locked && !pce && ints == AllInts(false) && !pckoe && !pcke
    {
      if !isOpen {
        return 0;
      }
      pce := false;
      ints := AllInts(false);
      pckoe := false;
      pcke := false;
      locked := false;
      isOpen := false;
      r := 0;
    }

    /**
     * rx_driver_pdc_update at tick `now`: a pending hook runs, and is
     * dropped, once PRST reads released or 500 ms have passed since the
     * request; it turns capture on only if the reset completed.
     */
    method Update(now: Tick)
      modifies this`resetCallback, this`pce
      ensures var fires := old(resetCallback).Some?
                           && (!prst || Elapsed(now, resetStartTick) >= UPDATE_RESET_TIMEOUT_MILLIS);
        && resetCallback == (if fires then None else old(resetCallback))
        && pce == (old(pce) || (fires && !prst))
    {
      if resetCallback.Some? {
        var isResetDone := !prst;
        if isResetDone || Elapsed(now, resetStartTick) >= UPDATE_RESET_TIMEOUT_MILLIS {
          OnResetDoneBeforeCapture(isResetDone);
          resetCallback := None;
        }
      }
    }

    /** rx_driver_pdc_set_interrupt_setting: the enables may only change while capture is off. */
    method SetInterruptSetting(setting: Option<IntSetting>) returns (r: int)
      modifies this`ints
      ensures r == (if setting.None? then EINVAL else if pce then EBUSY else 0)
      ensures ints == if r == 0 then setting.value else old(ints)
      ensures r == 0 ==> GetInterruptSetting(true) == (0, setting)
    {
      if setting.None? {
        return EINVAL;
      }
      if pce {
        return EBUSY;
      }
      ints := setting.value;
      r := 0;
    }

    /** rx_driver_pdc_get_interrupt_setting; `hasDest` is false for a NULL destination. */
    function GetInterruptSetting(hasDest: bool): (r: (int, Option<IntSetting>))
      reads this
      ensures r.0 in {0, EINVAL} && (r.0 == 0 <==> hasDest) && (r.0 == 0 <==> r.1.Some?)
      ensures r.1.Some? ==> r.1.value == ints
    {
      if !hasDest then (EINVAL, None) else (0, Some(ints))
    }

    /** rx_driver_pdc_set_receive_enable */
    method SetReceiveEnable(enabled: bool) returns (r: int)
      modifies this`pce
      ensures r == 0 && pce == enabled
    {
      pce := enabled;
      r := 0;
    }

    /** rx_driver_pdc_reset: capture off and a reset requested, dropping any pending hook. */
    method Reset(now: Tick) returns (r: int)
      modifies this`pce, this`resetStartTick, this`resetCallback, this`prst
      ensures r == 0 && !pce && resetStartTick == now && resetCallback == None && prst
    {
      pce := false;
      RequestReset(now, None);
      r := 0;
    }

    /** rx_driver_pdc_set_signal_polarity */
    method SetSignalPolarity(hsyncHigh: bool, vsyncHigh: bool) returns (r: int)
      modifies this`hps, this`vps
      ensures r == (if !isOpen then ENOTSUP else if IsReceiving() then EBUSY else 0)
      ensures r != 0 ==> unchanged(this)
      ensures r == 0 ==> hps == hsyncHigh && vps == vsyncHigh
      ensures r == 0 ==> GetSignalPolarity() == (0, hsyncHigh, vsyncHigh)
    {
      if !isOpen {
        return ENOTSUP;
      }
      if IsReceiving() {
        return EBUSY;
      }
      hps := hsyncHigh;
      vps := vsyncHigh;
      r := 0;
    }

    /** rx_driver_pdc_get_signal_polarity */
    function GetSignalPolarity(): (r: (int, bool, bool))
      reads this
      ensures r.0 in {0, ENOTSUP} && (r.0 == 0 <==> isOpen)
      ensures r.0 == 0 ==> r.1 == hps && r.2 == vps
    {
      if !isOpen then (ENOTSUP, false, false) else (0, hps, vps)
    }

    /**
     * rx_driver_pdc_set_position_size: a missing position or size keeps
     * the current register values; the range is checked before the busy
     * test; no register is written on any error.
     */
    method SetPositionSize(newPos: Option<Position>, newSize: Option<CaptureSize>) returns (r: int)
      modifies this`pos, this`size
      ensures var p := if newPos.Some? then newPos.value else old(pos);
              var s := if newSize.Some? then newSize.value else old(size);
        && r == (if !isOpen then ENOTSUP
                 else if !IsValidCaptureRange(p.hst, p.vst, s.hsz, s.vsz) then EINVAL
                 else if IsReceiving() then EBUSY else 0)
        && (r != 0 ==> unchanged(this))
        && (r == 0 ==> pos == p && size == s && GetPositionSize() == (0, p, s))
    {
      if !isOpen {
        return ENOTSUP;
      }
      var hst := if newPos.Some? then newPos.value.hst else pos.hst;
      var vst := if newPos.Some? then newPos.value.vst else pos.vst;
      var hsz := if newSize.Some? then newSize.value.hsz else size.hsz;
      var vsz := if newSize.Some? then newSize.value.vsz else size.vsz;
      if !IsValidCaptureRange(hst, vst, hsz, vsz) {
        return EINVAL;
      }
      if IsReceiving() {
        return EBUSY;
      }
      pos := Position(vst, hst);
      size := CaptureSize(vsz, hsz);
      r := 0;
    }

    /** rx_driver_pdc_get_position_size */
    function GetPositionSize(): (r: (int, Position, CaptureSize))
      reads this
      ensures r.0 in {0, ENOTSUP} && (r.0 == 0 <==> isOpen)
      ensures r.0 == 0 ==> r.1 == pos && r.2 == size
    {
      if !isOpen then (ENOTSUP, Position(0, 0), CaptureSize(0, 0)) else (0, pos, size)
    }

    /**
     * rx_driver_pdc_capture_start: capture off, the interrupt enables left
     * as they were, and a reset requested whose completion turns capture on.
     */
    method CaptureStart(now: Tick) returns (r: int)
      modifies this`pce, this`ints, this`resetStartTick, this`resetCallback, this`prst
      ensures r == 0 && !pce && ints == old(ints)
      ensures resetStartTick == now && resetCallback == Some(BeforeCapture) && prst
    {
      pce := false;
      var saved := ints;
      ints := AllInts(false);
      ints := saved;
      RequestReset(now, Some(BeforeCapture));
      r := 0;
    }

    /** on_reset_done_before_capture: a completed reset turns capture on. */
    method OnResetDoneBeforeCapture(isResetDone: bool)
      modifies this`pce
      ensures pce == (old(pce) || isResetDone)
    {
      if isResetDone {
        pce := true;
      }
    }

    /** request_reset: records the tick and the hook, replacing any older hook, and sets PRST. */
    method RequestReset(now: Tick, hook: Option<ResetHook>)
      modifies this`resetStartTick, this`resetCallback, this`prst
      ensures resetStartTick == now && resetCallback == hook && prst
    {
      resetStartTick := now;
      resetCallback := hook;
      prst := true;
    }

    /**
     * wait_reset_done: polls PRST for at most about 50 ms from the request,
     * then runs and drops the pending hook with the outcome.
     */
    method WaitResetDone(samples: seq<ResetSample>) returns (done: bool)
      requires |samples| > 0 && ResetWaitStops(samples[|samples| - 1], resetStartTick)
      modifies this`prst, this`resetCallback, this`pce
      ensures done == !PrstAfterWait(samples, resetStartTick) && prst == !done
      ensures resetCallback == None && pce == (old(pce) || (old(resetCallback).Some? && done))
    {
      var k := 0;
      while !ResetWaitStops(samples[k], resetStartTick)
        invariant 0 <= k < |samples|
        invariant FirstResetStop(samples, resetStartTick, k) == FirstResetStop(samples, resetStartTick, 0)
        invariant pce == old(pce) && resetCallback == old(resetCallback)
        decreases |samples| - k
      {
        k := k + 1;
      }
      prst := samples[k].prst;
      var isWaitDone := !prst;
      if resetCallback.Some? {
        OnResetDoneBeforeCapture(isWaitDone);
        resetCallback := None;
      }
      done := isWaitDone;
    }

    /**
     * on_pcfei_detected. `samples[k]` is what the k-th pass of the wait
     * loop reads from FEMPF and UDRF. The handler stops at the first pass
     * that finds the FIFO empty, an underrun, or the 300-pass bound, and
     * makes at most one callback: the error report on underrun, otherwise
     * the frame-end callback with FRAMEEND or TRANSFER_TIMEOUT. The
     * timeout path leaves capture enabled.
     */
    method OnPcfeiDetected(samples: seq<FifoSample>) returns (d: Option<Delivery>)
      requires |samples| > FIFO_WAIT_LIMIT
      modifies this`fempf, this`udrf, this`fef, this`pce, this`ovrf, this`verf, this`herf
      ensures var s := samples[FifoWaitEnd(samples, 0)];
        && fempf == s.fempf && !fef
        && (s.fempf ==>
              d == FrameEndDelivery(callbacks, EVT_ID_FRAMEEND) && !pce && udrf == s.udrf
              && ovrf == old(ovrf) && verf == old(verf) && herf == old(herf))
        && (!s.fempf && s.udrf ==>
              d == ErrorDelivery(callbacks, ErrorMask(old(ovrf), true, old(verf), old(herf)))
              && !pce && !ovrf && !udrf && !verf && !herf)
        && (!s.fempf && !s.udrf ==>
              FifoWaitEnd(samples, 0) == FIFO_WAIT_LIMIT
              && d == FrameEndDelivery(callbacks, EVT_ID_TRANSFER_TIMEOUT) && pce == old(pce) && !udrf
              && ovrf == old(ovrf) && verf == old(verf) && herf == old(herf))
    {
      var waitCount := 0;
      while !samples[waitCount].fempf && !samples[waitCount].udrf && waitCount < FIFO_WAIT_LIMIT
        invariant waitCount <= FIFO_WAIT_LIMIT
        invariant FifoWaitEnd(samples, waitCount) == FifoWaitEnd(samples, 0)
        invariant unchanged(this)
        decreases FIFO_WAIT_LIMIT - waitCount
      {
        waitCount := waitCount + 1;
      }
      fempf := samples[waitCount].fempf;
      udrf := samples[waitCount].udrf;
      if !fempf && udrf {
        fef := false;
        d := ProcessErrors();
        return;
      }
      if !fempf {
        fef := false;
        d := FrameEndDelivery(callbacks, EVT_ID_TRANSFER_TIMEOUT);
        return;
      }
      pce := false;
      fef := false;
      d := FrameEndDelivery(callbacks, EVT_ID_FRAMEEND);
    }

    /** on_pceri_detected */
    method OnPceriDetected() returns (d: Option<Delivery>)
      modifies this`pce, this`ovrf, this`udrf, this`verf, this`herf
      ensures d == ErrorDelivery(callbacks, ErrorMask(old(ovrf), old(udrf), old(verf), old(herf)))
      ensures !pce && !ovrf && !udrf && !verf && !herf
    {
      d := ProcessErrors();
    }

    /**
     * process_errors: capture off, each set error flag cleared and its
     * bit added to the mask, then the error callback with that mask.
     */
    method ProcessErrors() returns (d: Option<Delivery>)
      modifies this`pce, this`ovrf, this`udrf, this`verf, this`herf
      ensures d == ErrorDelivery(callbacks, ErrorMask(old(ovrf), old(udrf), old(verf), old(herf)))
      ensures !pce && !ovrf && !udrf && !verf && !herf
    {
      var errors := 0;
      pce := false;
      if ovrf {
        ovrf := false;
        errors := errors + ERROR_OVERRUN;
      }
      if udrf {
        udrf := false;
        errors := errors + ERROR_UNDERRUN;
      }
      if verf {
        errors := errors + ERROR_VPARAM;
        verf := false;
      }
      if herf {
        errors := errors + ERROR_HPARAM;
        herf := false;
      }
      d := ErrorDelivery(callbacks, errors);
    }

    /** rx_driver_pdc_clear_status: clears the flags selected in `sel`, and no other. */
    method ClearStatus(sel: Option<Stat>) returns (r: int)
      modifies this`fef, this`ovrf, this`udrf, this`verf, this`herf
      ensures r == (if !isOpen then ENOTSUP else if sel.None? then EINVAL else 0)
      ensures r != 0 ==> unchanged(this)
      ensures r == 0 ==>
        && fef == (old(fef) && !sel.value.frameEnd) && ovrf == (old(ovrf) && !sel.value.overrun)
        && udrf == (old(udrf) && !sel.value.underrun) && verf == (old(verf) && !sel.value.verf)
        && herf == (old(herf) && !sel.value.herf)
    {
      if !isOpen {
        return ENOTSUP;
      }
      if sel.None? {
        return EINVAL;
      }
      if sel.value.frameEnd {
        fef := false;
      }
      if sel.value.overrun {
        ovrf := false;
      }
      if sel.value.underrun {
        udrf := false;
      }
      if sel.value.verf {
        verf := false;
      }
      if sel.value.herf {
        herf := false;
      }
      r := 0;
    }

    /** rx_driver_pdc_get_status; `hasDest` is false for a NULL destination. */
    function GetStatus(hasDest: bool): (r: (int, Option<Stat>))
      reads this
      ensures r.0 == 0 <==> isOpen && hasDest
      ensures r.0 == 0 ==> r.1 == Some(Stat(fbsy, fempf, fef, ovrf, udrf, verf, herf))
    {
      if !isOpen then (ENOTSUP, None)
      else if !hasDest then (EINVAL, None)
      else (0, Some(Stat(fbsy, fempf, fef, ovrf, udrf, verf, herf)))
    }
  }
}
