/**
 * The frame-capture controller on top of the PDC driver and DMA channel 3:
 * the plan that spreads a frame over two RAM regions, the chaining of
 * the regions as each DMA transfer ends, the progress count, the
 * pixel-unit capture range, start and stop, and the frame-end and error
 * handlers that report a status to the user's completion callback.
 *
 * The controller's statics are fields of `Controller`, which owns the
 * driver and the channel. A call of the user's callback is recorded in
 * `reports`. Interrupts are methods that run to completion one at a time.
 */
module Pdc {
  import opened Common
  import opened PdcDriver
  import opened Dmac3

  // The two RAM blocks the frame may occupy.
  const RAM1_START_ADDR: nat := 0x0000_0000
  const RAM1_END_ADDR: nat := 0x0007_FFFF
  const RAM1_SIZE: nat := RAM1_END_ADDR + 1 - RAM1_START_ADDR
  const RAM2_START_ADDR: nat := 0x0080_0000
  const RAM2_END_ADDR: nat := 0x0087_FFFF
  const RAM2_SIZE: nat := RAM2_END_ADDR + 1 - RAM2_START_ADDR
  const DMA_AREA_COUNT: nat := 2
  /** Region 0 is the upper half of RAM1, region 1 all of RAM2. */
  const RAM_USEAREA1_SIZE: nat := RAM1_SIZE / 2
  const RAM_USEAREA2_SIZE: nat := RAM2_SIZE
  const REGION0_ADDR: nat := RAM1_END_ADDR + 1 - RAM_USEAREA1_SIZE
  const REGION1_ADDR: nat := RAM2_END_ADDR + 1 - RAM_USEAREA2_SIZE
  /** The largest frame the two regions hold. */
  const FRAME_CAPACITY: nat := RAM_USEAREA1_SIZE + RAM_USEAREA2_SIZE

  const PDC_INTERRUPT_PRIORITY: nat := 2
  /** The PDC raises a DMA request every 32 bytes ... */
  const TRANSFER_REQ_UNIT: nat := 32
  /** ... read 4 bytes at a time from PCDR. */
  const TRANSFER_DATA_SIZE: nat := 4

  // Identifiers of the controller's own callbacks.
  const ON_FRAME_END: nat := 1
  const ON_ERROR: nat := 2
  const ON_DMA_REQUEST_END: nat := 3

  /** struct dma_param: one region of the frame buffer. */
  datatype DmaParam = DmaParam(addr: nat, unit: nat, blockSize: nat, blockCount: nat)

  /** struct pdc_status */
  datatype PdcStatus = PdcStatus(
    isReceiving: bool, isResetting: bool, isDataReceiving: bool, isFifoEmpty: bool, isFrameEnd: bool,
    hasOverrun: bool, hasUnderrun: bool, hasVlineErr: bool, hasHsizeErr: bool,
    receivedLen: nat, totalLen: nat)

  /** One call of the user's completion callback. */
  datatype Report = Report(callback: nat, status: PdcStatus)

  /** s_dma_param with the given block counts: 32-byte blocks of 4-byte units at the fixed region addresses. */
  function Table(count0: nat, count1: nat): (r: seq<DmaParam>)
    ensures |r| == DMA_AREA_COUNT
  {
    [DmaParam(REGION0_ADDR, TRANSFER_DATA_SIZE, TRANSFER_REQ_UNIT / TRANSFER_DATA_SIZE, count0),
     DmaParam(REGION1_ADDR, TRANSFER_DATA_SIZE, TRANSFER_REQ_UNIT / TRANSFER_DATA_SIZE, count1)]
  }

  /** calc_dma_area_total_size */
  function AreaTotal(p: DmaParam): (r: nat)
    ensures r == 0 <==> p.unit == 0 || p.blockSize == 0 || p.blockCount == 0
    ensures p.unit == TRANSFER_DATA_SIZE && p.blockSize == TRANSFER_REQ_UNIT / TRANSFER_DATA_SIZE ==> r == TRANSFER_REQ_UNIT * p.blockCount
  {
    p.unit * p.blockSize * p.blockCount
  }

  /** The totals of the first `n` regions added up. */
  function SumTotals(params: seq<DmaParam>, n: nat): nat
    requires n <= |params|
  {
    if n == 0 then 0 else SumTotals(params, n - 1) + AreaTotal(params[n - 1])
  }

  /** The table update_transfer_size writes for a frame of `total` bytes. */
  function PlanTable(total: nat): (r: seq<DmaParam>)
    ensures |r| == DMA_AREA_COUNT
  {
    if total <= RAM_USEAREA1_SIZE then Table(total / TRANSFER_REQ_UNIT, 0)
    else Table(RAM_USEAREA1_SIZE / TRANSFER_REQ_UNIT, (total - RAM_USEAREA1_SIZE) / TRANSFER_REQ_UNIT)
  }

  /**
   * The plan covers an accepted frame in whole 32-byte blocks: it holds
   * the frame's length rounded down to a multiple of 32, exactly the frame
   * when that is a multiple of 32, and each region stays inside its RAM.
   */
  lemma PlanCoversFrame(total: nat)
    requires 1 <= total <= FRAME_CAPACITY
    ensures SumTotals(PlanTable(total), 2) == total - total % TRANSFER_REQ_UNIT
    ensures total % TRANSFER_REQ_UNIT == 0 ==> SumTotals(PlanTable(total), 2) == total
    ensures AreaTotal(PlanTable(total)[0]) <= RAM_USEAREA1_SIZE && AreaTotal(PlanTable(total)[1]) <= RAM_USEAREA2_SIZE
    ensures IsU16(PlanTable(total)[0].blockCount) && IsU16(PlanTable(total)[1].blockCount)
  {
    var t := PlanTable(total);
    assert SumTotals(t, 1) == AreaTotal(t[0]);
    assert SumTotals(t, 2) == AreaTotal(t[0]) + AreaTotal(t[1]);
    if total <= RAM_USEAREA1_SIZE {
      assert AreaTotal(t[0]) == 32 * (total / 32);
    } else {
      var rest := total - RAM_USEAREA1_SIZE;
      assert AreaTotal(t[1]) == 32 * (rest / 32);
      assert rest % 32 == total % 32;
    }
  }

  /** The default frame, 640 x 480 pixels of 2 bytes, fills region 0 and 11008 blocks of region 1. */
  lemma DefaultFramePlan()
    ensures PlanTable(640 * 480 * 2) == Table(8192, 11008)
    ensures SumTotals(PlanTable(640 * 480 * 2), 2) == 614400
  {
    PlanCoversFrame(614400);
  }

  /**
   * calc_received_length: the regions before `area` are complete; while a
   * region is active, what it has taken so far is its total less what the
   * channel has left, counted only when the remainder does not exceed it.
   */
  function ReceivedLength(params: seq<DmaParam>, area: nat, left: nat): (r: nat)
    requires |params| == DMA_AREA_COUNT && area <= DMA_AREA_COUNT
    ensures area == DMA_AREA_COUNT ==> r == SumTotals(params, DMA_AREA_COUNT)
    ensures area < DMA_AREA_COUNT && left >= AreaTotal(params[area]) ==> r == SumTotals(params, area)
    ensures area < DMA_AREA_COUNT && left == 0 ==> r == SumTotals(params, area + 1)
  {
    SumTotals(params, area)
    + (if area < DMA_AREA_COUNT && left <= AreaTotal(params[area]) then AreaTotal(params[area]) - left else 0)
  }

  /** Progress never exceeds the whole table, and never falls below the completed regions. */
  lemma ReceivedLengthBounded(params: seq<DmaParam>, area: nat, left: nat)
    requires |params| == DMA_AREA_COUNT && area <= DMA_AREA_COUNT
    ensures SumTotals(params, area) <= ReceivedLength(params, area, left) <= SumTotals(params, DMA_AREA_COUNT)
  {
    assert SumTotals(params, 2) == SumTotals(params, 1) + AreaTotal(params[1]);
    assert SumTotals(params, 1) == AreaTotal(params[0]);
  }

  /** With the plan of an accepted frame of whole blocks, progress never exceeds the frame. */
  lemma ReceivedWithinFrame(total: nat, area: nat, left: nat)
    requires 1 <= total <= FRAME_CAPACITY && total % TRANSFER_REQ_UNIT == 0 && area <= DMA_AREA_COUNT
    ensures ReceivedLength(PlanTable(total), area, left) <= total
  {
    PlanCoversFrame(total);
    ReceivedLengthBounded(PlanTable(total), area, left);
  }

  /**
   * The channel after setup_dmac_request programs region `p` and starts
   * it. A channel still enabled refuses the Setup with EBUSY, which the
   * caller ignores, so it is restarted with its old programming.
   */
  function Requested(s: Regs, p: DmaParam): (r: Regs)
    ensures r.dte && r.ien
    ensures !s.dte ==> r.callback == Some(ON_DMA_REQUEST_END) && r.dmdar == p.addr && r.dmcrb == p.blockCount
    ensures s.dte ==> r == Started(s)
  {
    if s.dte then Started(s)
    else Started(SetUp(s, p.addr, p.unit, p.blockSize, p.blockCount, Some(ON_DMA_REQUEST_END)))
  }

  /** Right after an idle channel is given a region, it has that region's whole total left. */
  lemma RequestedLeftSize(s: Regs, p: DmaParam)
    requires !s.dte && p.unit == TRANSFER_DATA_SIZE && p.blockSize == TRANSFER_REQ_UNIT / TRANSFER_DATA_SIZE && p.blockCount > 0
    ensures var r := Requested(s, p); LeftSizeOf(r.sz, r.dmcra, r.dmcrb) == AreaTotal(p)
  {
    LeftSizeAfterSetup(p.unit, p.blockSize, p.blockCount);
  }

  /** convert_pdc_event_to_error */
  function ConvertPdcEventToError(event: int, errors: nat): (r: int)
    ensures r == 0 <==> event != EVT_ID_ERROR && event != EVT_ID_TRANSFER_TIMEOUT
    ensures event == EVT_ID_TRANSFER_TIMEOUT ==> r == ETIMEDOUT
    ensures event == EVT_ID_ERROR ==> r in {EOVERFLOW, ENODATA, EINVAL, EIO}
    ensures event == EVT_ID_ERROR ==>
      (r == EIO <==> !HasBit(errors, ERROR_OVERRUN) && !HasBit(errors, ERROR_UNDERRUN)
                     && !HasBit(errors, ERROR_HPARAM) && !HasBit(errors, ERROR_VPARAM))
  {
    if event == EVT_ID_ERROR then
      if HasBit(errors, ERROR_OVERRUN) then EOVERFLOW
      else if HasBit(errors, ERROR_UNDERRUN) then ENODATA
      else if HasBit(errors, ERROR_HPARAM) || HasBit(errors, ERROR_VPARAM) then EINVAL
      else EIO
    else if event == EVT_ID_TRANSFER_TIMEOUT then ETIMEDOUT
    else 0
  }

  /**
   * An error report built by the driver's error handler maps to the errno
   * of its most serious flag: overrun, then underrun, then a parameter
   * error; EIO only when no flag was set.
   */
  lemma ErrorReportErrno(ovr: bool, udr: bool, ver: bool, her: bool)
    ensures ConvertPdcEventToError(EVT_ID_ERROR, ErrorMask(ovr, udr, ver, her))
      == if ovr then EOVERFLOW else if udr then ENODATA else if ver || her then EINVAL else EIO
  {
    ErrorMaskExact(ovr, udr, ver, her);
  }

  /** on_error's status: each error bit of the report sets the matching flag; nothing else changes. */
  function WithErrorBits(st: PdcStatus, errors: nat): (r: PdcStatus)
    ensures HasBit(errors, ERROR_OVERRUN) ==> r.hasOverrun
    ensures HasBit(errors, ERROR_UNDERRUN) ==> r.hasUnderrun
    ensures HasBit(errors, ERROR_HPARAM) ==> r.hasHsizeErr
    ensures HasBit(errors, ERROR_VPARAM) ==> r.hasVlineErr
    ensures (st.hasOverrun ==> r.hasOverrun) && (st.hasUnderrun ==> r.hasUnderrun)
            && (st.hasHsizeErr ==> r.hasHsizeErr) && (st.hasVlineErr ==> r.hasVlineErr)
    ensures (r.hasOverrun ==> st.hasOverrun || HasBit(errors, ERROR_OVERRUN))
            && (r.hasUnderrun ==> st.hasUnderrun || HasBit(errors, ERROR_UNDERRUN))
            && (r.hasHsizeErr ==> st.hasHsizeErr || HasBit(errors, ERROR_HPARAM))
            && (r.hasVlineErr ==> st.hasVlineErr || HasBit(errors, ERROR_VPARAM))
    ensures r.isReceiving == st.isReceiving && r.isResetting == st.isResetting
            && r.isDataReceiving == st.isDataReceiving && r.isFifoEmpty == st.isFifoEmpty
            && r.isFrameEnd == st.isFrameEnd && r.receivedLen == st.receivedLen && r.totalLen == st.totalLen
  {
    st.(hasOverrun := st.hasOverrun || HasBit(errors, ERROR_OVERRUN),
        hasUnderrun := st.hasUnderrun || HasBit(errors, ERROR_UNDERRUN),
        hasHsizeErr := st.hasHsizeErr || HasBit(errors, ERROR_HPARAM),
        hasVlineErr := st.hasVlineErr || HasBit(errors, ERROR_VPARAM))
  }

  /** A frame of at most 0xFFFF pixels per line, 0xFFF lines and 3 bytes per pixel fits in 32 bits. */
  lemma FrameBytesFit(xsize: nat, ysize: nat, b: nat)
    requires xsize <= U16_MAX && ysize <= 0xFFF && b <= 3
    ensures xsize * ysize * b <= U32_MAX && TruncU32(xsize * ysize * b) == xsize * ysize * b
    ensures xsize * b * ysize == xsize * ysize * b
  {
    assert xsize * ysize <= U16_MAX * ysize <= U16_MAX * 0xFFF;
    assert (xsize * ysize) * b <= (U16_MAX * 0xFFF) * 3;
  }

  /** The configuration pdc_init opens the driver with. */
  function InitConfig(): (c: Config)
    ensures PrioritiesValid(c)
    ensures IsValidCaptureRange(c.pos.hst, c.pos.vst, c.size.hsz, c.size.vsz)
    ensures c.callbacks == Callbacks(None, Some(ON_FRAME_END), Some(ON_ERROR)) && c.ints == AllInts(false)
  {
    Config(PDC_INTERRUPT_PRIORITY, PDC_INTERRUPT_PRIORITY, PDC_INTERRUPT_PRIORITY,
           AllInts(false), true, false, Position(10, 612), CaptureSize(480, 640 * 2),
           Callbacks(None, Some(ON_FRAME_END), Some(ON_ERROR)))
  }

  /** pdc_set_capture_range's checks as written, with the byte values cut to 16 bits. */
  predicate AcceptsAsWritten(xst: nat, xsize: nat, yst: nat, ysize: nat, bpp: nat)
  {
    bpp in {1, 2, 3} && (xsize * bpp * ysize) % TRANSFER_REQ_UNIT == 0
    && IsValidCaptureRange(TruncU16(xst * bpp), yst, TruncU16(xsize * bpp), ysize)
  }

  /** The same checks on the byte values themselves. */
  predicate Accepts(xst: nat, xsize: nat, yst: nat, ysize: nat, bpp: nat)
  {
    bpp in {1, 2, 3} && (xsize * bpp * ysize) % TRANSFER_REQ_UNIT == 0
    && IsValidCaptureRange(xst * bpp, yst, xsize * bpp, ysize)
  }

  /**
   * As written, a width whose byte count passes 0xFFFF wraps into range:
   * 0x5557 pixels of 3 bytes become 5 bytes, the call succeeds, and the
   * width read back is 1 pixel.
   */
  lemma CaptureRangeWrapAsWritten()
    ensures AcceptsAsWritten(0, 0x5557, 0, 32, 3)
    ensures TruncU16(0x5557 * 3) == 5 && TruncU16(0x5557 * 3) / 3 == 1
    ensures !Accepts(0, 0x5557, 0, 32, 3)
  {
    assert 0x5557 * 3 == 0x1_0005;
    assert (0x5557 * 3 * 32) % 32 == 0;
  }

  /** Every range the corrected checks accept round-trips through the pixel/byte conversion. */
  lemma AcceptedRangeRoundTrips(xst: nat, xsize: nat, yst: nat, ysize: nat, bpp: nat)
    requires Accepts(xst, xsize, yst, ysize, bpp)
    ensures (xst * bpp) / bpp == xst && (xsize * bpp) / bpp == xsize
    ensures TruncU16(xst * bpp) == xst * bpp && TruncU16(xsize * bpp) == xsize * bpp
    ensures AcceptsAsWritten(xst, xsize, yst, ysize, bpp)
  {
  }

  /** pdc_reset stops polling once no reset is reported or the timeout has passed. */
  predicate ResetPollStops(s: ResetSample, isOpen: bool, begin: Tick, timeoutMs: nat)
  {
    !(isOpen && s.prst) || Elapsed(s.tick, begin) >= timeoutMs
  }

  /** The first pass at or after `k` at which pdc_reset's loop stops. */
  function FirstPollStop(samples: seq<ResetSample>, isOpen: bool, begin: Tick, timeoutMs: nat, k: nat): (r: nat)
    requires k < |samples| && ResetPollStops(samples[|samples| - 1], isOpen, begin, timeoutMs)
    ensures k <= r < |samples| && ResetPollStops(samples[r], isOpen, begin, timeoutMs)
    decreases |samples| - k
  {
    if ResetPollStops(samples[k], isOpen, begin, timeoutMs) then k
    else FirstPollStop(samples, isOpen, begin, timeoutMs, k + 1)
  }

  class Controller {
    const drv: Driver
    const dma: Channel
    /** s_bpp: bytes per pixel. */
    var bpp: nat
    /** s_dma_param */
    var dmaParam: seq<DmaParam>
    /** s_dma_area: the region being filled; 2 once both are done. */
    var dmaArea: nat
    /** s_data_size: bytes in a frame. */
    var dataSize: nat
    /** s_end_callback */
    var endCallback: Option<nat>
    /** s_pdc_config */
    var config: Config
    /** The calls of the user's completion callback, oldest first. */
    var reports: seq<Report>

    predicate Valid()
      reads this
    {
      |dmaParam| == DMA_AREA_COUNT && dmaParam == Table(dmaParam[0].blockCount, dmaParam[1].blockCount)
      && dmaArea <= DMA_AREA_COUNT && bpp in {1, 2, 3}
    }

    /** struct pdc_status as pdc_get_status fills it, with `received` as received_len. */
    function Snapshot(received: nat): PdcStatus
      reads this, drv
    {
      PdcStatus(drv.pce, drv.prst, drv.fbsy, drv.fempf, drv.fef, drv.ovrf, drv.udrf, drv.verf, drv.herf,
                received, dataSize)
    }

    /**
     * pdc_init, after the startup code has created the driver and the DMA
     * channel: 2 bytes per pixel, the driver opened with the default
     * 640 x 480 window, and the default frame planned with region 0
     * programmed. The outcomes of the BSP calls inside open are parameters.
     */
    constructor (lockAcquired: bool, pcfeiWritten: bool, pceriWritten: bool, now: Tick, samples: seq<ResetSample>)
      requires |samples| > 0 && ResetWaitStops(samples[|samples| - 1], now)
      ensures Valid() && bpp == 2 && config == InitConfig() && endCallback == None && reports == []
      ensures drv.isOpen <==> lockAcquired && pcfeiWritten && pceriWritten
      ensures dataSize == 640 * 480 * 2 && dmaParam == Table(8192, 11008) && dmaArea == 0
      ensures dma.IsTransferring() && dma.callback == Some(ON_DMA_REQUEST_END) && dma.dmdar == REGION0_ADDR
    {
      drv := new Driver();
      dma := new Channel();
      bpp := 2;
      dmaParam := Table(1, 1);
      dmaArea := 0;
      dataSize := 0;
      endCallback := None;
      config := InitConfig();
      reports := [];
      new;
      var _ := drv.Open(Some(config), lockAcquired, pcfeiWritten, pceriWritten, now, samples);
      dmaArea := 0;
      DefaultFramePlan();
      var _ := UpdateTransferSize(640, 480, 2);
    }

    /**
     * update_transfer_size: a frame of 0 bytes or more than both regions
     * hold is refused before anything is written; otherwise the table is
     * rewritten, progress restarts at region 0 and region 0 is programmed.
     */
    method UpdateTransferSize(hsize: nat, vsize: nat, bpw: nat) returns (ok: bool)
      requires Valid()
      modifies this`dmaParam, this`dmaArea, this`dataSize, dma
      ensures Valid()
      ensures var total := TruncU32(hsize * vsize * bpw);
        if total < 1 || total > FRAME_CAPACITY then
          !ok && dmaParam == old(dmaParam) && dmaArea == old(dmaArea) && dataSize == old(dataSize) && unchanged(dma)
        else
          dmaParam == PlanTable(total) && dmaArea == 0 && dataSize == total
          && ok == (total >= TRANSFER_REQ_UNIT)
          && (ok ==> dma.State() == Requested(old(dma.State()), dmaParam[0]))
          && (!ok ==> unchanged(dma))
    {
      var total := TruncU32(hsize * vsize * bpw);
      if total < 1 || total > FRAME_CAPACITY {
        return false;
      }
      if total <= RAM_USEAREA1_SIZE {
        dmaParam := Table(total / TRANSFER_REQ_UNIT, 0);
      } else {
        dmaParam := Table(RAM_USEAREA1_SIZE / TRANSFER_REQ_UNIT, (total - RAM_USEAREA1_SIZE) / TRANSFER_REQ_UNIT);
      }
      dmaArea := 0;
      dataSize := total;
      ok := SetupDmacRequest(dmaArea);
    }

    /**
     * setup_dmac_request: refuses a region past the table or one with no
     * blocks; otherwise hands the region to the channel, ignoring Setup's
     * result, and starts it.
     */
    method SetupDmacRequest(area: nat) returns (ok: bool)
      requires Valid()
      modifies dma
      ensures ok == (area < DMA_AREA_COUNT && dmaParam[area].blockCount != 0)
      ensures ok ==> dma.State() == Requested(old(dma.State()), dmaParam[area])
      ensures !ok ==> unchanged(dma)
      ensures dma.sourceIsPdc == old(dma.sourceIsPdc)
    {
      if area >= DMA_AREA_COUNT {
        return false;
      }
      var p := dmaParam[area];
      if p.blockCount == 0 {
        return false;
      }
      var _ := dma.Setup(p.addr, p.unit, p.blockSize, p.blockCount, Some(ON_DMA_REQUEST_END));
      dma.Start();
      ok := true;
    }

    /**
     * on_dma_request_end: moves on to the next region while one is left
     * and programs it; s_dma_area never passes 2.
     */
    method OnDmaRequestEnd(status: int)
      requires Valid()
      modifies this`dmaArea, dma
      ensures Valid()
      ensures dmaArea == if old(dmaArea) < DMA_AREA_COUNT then old(dmaArea) + 1 else old(dmaArea)
      ensures if old(dmaArea) < DMA_AREA_COUNT && dmaArea < DMA_AREA_COUNT && dmaParam[dmaArea].blockCount != 0
              then dma.State() == Requested(old(dma.State()), dmaParam[dmaArea])
              else unchanged(dma)
    {
      if dmaArea < DMA_AREA_COUNT {
        dmaArea := dmaArea + 1;
        var _ := SetupDmacRequest(dmaArea);
      }
    }

    /**
     * calc_received_length, reading the channel's remaining count once.
     * s_dma_area is read twice in the C, which is the same value when the
     * function runs without interruption.
     */
    method CalcReceivedLength() returns (receivedLen: nat)
      requires Valid()
      ensures receivedLen == ReceivedLength(dmaParam, dmaArea, dma.LeftSize())
      ensures receivedLen <= SumTotals(dmaParam, DMA_AREA_COUNT)
    {
      receivedLen := 0;
      var area := dmaArea;
      var i := 0;
      while i < area
        invariant 0 <= i <= area && receivedLen == SumTotals(dmaParam, i)
      {
        receivedLen := receivedLen + AreaTotal(dmaParam[i]);
        i := i + 1;
      }
      if dmaArea < DMA_AREA_COUNT {
        var areaTotal := AreaTotal(dmaParam[area]);
        var leftSize := dma.LeftSize();
        if leftSize <= areaTotal {
          receivedLen := receivedLen + (areaTotal - leftSize);
        }
      }
      ReceivedLengthBounded(dmaParam, dmaArea, dma.LeftSize());
    }

    /** pdc_get_status; `hasDest` is false for a NULL destination. */
    method GetStatus(hasDest: bool) returns (ok: bool, st: Option<PdcStatus>)
      requires Valid()
      ensures ok == hasDest
      ensures ok ==> st == Some(Snapshot(ReceivedLength(dmaParam, dmaArea, dma.LeftSize())))
      ensures ok ==> st.value.receivedLen <= SumTotals(dmaParam, DMA_AREA_COUNT) && st.value.totalLen == dataSize
    {
      if !hasDest {
        return false, None;
      }
      var received := CalcReceivedLength();
      st := Some(Snapshot(received));
      ok := true;
    }

    /** set_transfer_irqs_enable: all six enables set to `enabled` in the stored configuration and in the driver. */
    method SetTransferIrqsEnable(enabled: bool) returns (ok: bool)
      modifies this`config, drv`ints
      ensures config == old(config).(ints := AllInts(enabled))
      ensures ok == !drv.pce
      ensures drv.ints == if ok then AllInts(enabled) else old(drv.ints)
    {
      config := config.(ints := AllInts(enabled));
      var r := drv.SetInterruptSetting(Some(config.ints));
      ok := r == 0;
    }

    /**
     * pdc_set_capture_range as written: the byte position and width are
     * stored in 16-bit fields and may wrap. The transfer plan's result is
     * ignored, so a frame larger than both regions keeps the old plan.
     */
    method SetCaptureRangeAsWritten(xst: nat, xsize: nat, yst: nat, ysize: nat, b: nat) returns (ok: bool)
      requires Valid() && IsU16(xst) && IsU16(xsize) && IsU16(yst) && IsU16(ysize) && IsU8(b)
      modifies this`bpp, this`dmaParam, this`dmaArea, this`dataSize, drv`pos, drv`size, dma
      ensures Valid()
      ensures ok == (AcceptsAsWritten(xst, xsize, yst, ysize, b) && drv.isOpen && !drv.IsReceiving())
      ensures !ok ==> bpp == old(bpp) && dmaParam == old(dmaParam) && dmaArea == old(dmaArea)
                      && dataSize == old(dataSize) && drv.pos == old(drv.pos) && drv.size == old(drv.size)
      ensures ok ==> bpp == b && GetCaptureRange() == (true, TruncU16(xst * b) / b, TruncU16(xsize * b) / b, yst, ysize, b)
      ensures ok ==> var total := xsize * ysize * b;
        if 1 <= total <= FRAME_CAPACITY then dataSize == total && dmaParam == PlanTable(total) && dmaArea == 0
        else dataSize == old(dataSize) && dmaParam == old(dmaParam)
    {
      if b != 1 && b != 2 && b != 3 {
        return false;
      }
      var total := xsize * b * ysize;
      if total % TRANSFER_REQ_UNIT != 0 {
        return false;
      }
      ok := ApplyCaptureRange(TruncU16(xst * b), yst, TruncU16(xsize * b), xsize, ysize, b);
    }

    /**
     * pdc_set_capture_range with the byte position and width checked
     * against the 16-bit fields before they are stored: a successful call
     * is read back unchanged by pdc_get_capture_range.
     */
    method SetCaptureRange(xst: nat, xsize: nat, yst: nat, ysize: nat, b: nat) returns (ok: bool)
      requires Valid() && IsU16(xst) && IsU16(xsize) && IsU16(yst) && IsU16(ysize) && IsU8(b)
      modifies this`bpp, this`dmaParam, this`dmaArea, this`dataSize, drv`pos, drv`size, dma
      ensures Valid()
      ensures ok == (Accepts(xst, xsize, yst, ysize, b) && drv.isOpen && !drv.IsReceiving())
      ensures !ok ==> bpp == old(bpp) && dmaParam == old(dmaParam) && dmaArea == old(dmaArea)
                      && dataSize == old(dataSize) && drv.pos == old(drv.pos) && drv.size == old(drv.size)
      ensures ok ==> bpp == b && GetCaptureRange() == (true, xst, xsize, yst, ysize, b)
      ensures ok ==> var total := xsize * ysize * b;
        if 1 <= total <= FRAME_CAPACITY then dataSize == total && dmaParam == PlanTable(total) && dmaArea == 0
        else dataSize == old(dataSize) && dmaParam == old(dmaParam)
    {
      if b != 1 && b != 2 && b != 3 {
        return false;
      }
      var total := xsize * b * ysize;
      if total % TRANSFER_REQ_UNIT != 0 {
        return false;
      }
      if xst * b > U16_MAX || xsize * b > U16_MAX {
        return false;
      }
      ok := ApplyCaptureRange(xst * b, yst, xsize * b, xsize, ysize, b);
      if ok {
        AcceptedRangeRoundTrips(xst, xsize, yst, ysize, b);
      }
    }

    /** The common tail of both setters: the driver's window, then the transfer plan, then s_bpp. */
    method ApplyCaptureRange(hst: nat, yst: nat, hsz: nat, xsize: nat, ysize: nat, b: nat) returns (ok: bool)
      requires Valid() && b in {1, 2, 3} && IsU16(xsize)
      modifies this`bpp, this`dmaParam, this`dmaArea, this`dataSize, drv`pos, drv`size, dma
      ensures Valid()
      ensures ok == (drv.isOpen && IsValidCaptureRange(hst, yst, hsz, ysize) && !drv.IsReceiving())
      ensures !ok ==> bpp == old(bpp) && dmaParam == old(dmaParam) && dmaArea == old(dmaArea)
                      && dataSize == old(dataSize) && drv.pos == old(drv.pos) && drv.size == old(drv.size)
      ensures ok ==> bpp == b && drv.pos == Position(yst, hst) && drv.size == CaptureSize(ysize, hsz)
      ensures ok ==> var total := xsize * ysize * b;
        if 1 <= total <= FRAME_CAPACITY then dataSize == total && dmaParam == PlanTable(total) && dmaArea == 0
        else dataSize == old(dataSize) && dmaParam == old(dmaParam)
    {
      var r := drv.SetPositionSize(Some(Position(yst, hst)), Some(CaptureSize(ysize, hsz)));
      if r != 0 {
        return false;
      }
      FrameBytesFit(xsize, ysize, b);
      var _ := UpdateTransferSize(xsize, ysize, b);
      bpp := b;
      ok := true;
    }

    /** pdc_get_capture_range: the driver's byte values divided back into pixels. */
    function GetCaptureRange(): (r: (bool, nat, nat, nat, nat, nat))
      requires Valid()
      reads this, drv
      ensures r.0 <==> drv.isOpen
      ensures !r.0 ==> r == (false, 0, 0, 0, 0, 0)
      ensures r.0 ==> r.5 == bpp && r.3 == drv.pos.vst && r.4 == drv.size.vsz
      ensures r.0 ==> r.1 <= drv.pos.hst && r.2 <= drv.size.hsz
    {
      var t := drv.GetPositionSize();
      if t.0 != 0 then (false, 0, 0, 0, 0, 0)
      else (true, t.1.hst / bpp, t.2.hsz / bpp, t.1.vst, t.2.vsz, bpp)
    }

    /**
     * pdc_start_capture at tick `now`. Refused while capturing, or when
     * region 0 has no blocks. The callback is stored only when every step
     * succeeds. When enabling the interrupts fails the channel is left
     * running, as written. The driver's capture_start always succeeds, so
     * the C's branch that stops the channel after it cannot run and is
     * left out.
     */
    method StartCapture(callback: Option<nat>, now: Tick) returns (ok: bool)
      requires Valid()
      modifies this`dmaArea, this`endCallback, this`config, drv, dma
      ensures Valid()
      ensures ok == (!old(drv.IsReceiving()) && dmaParam[0].blockCount != 0 && !old(drv.pce))
      ensures endCallback == if ok then callback else old(endCallback)
      ensures old(drv.IsReceiving()) ==> unchanged(drv) && unchanged(dma) && dmaArea == old(dmaArea) && config == old(config)
      ensures !old(drv.IsReceiving()) ==> dmaArea == 0
      ensures !old(drv.IsReceiving()) && dmaParam[0].blockCount != 0 ==> dma.State() == Requested(old(dma.State()), dmaParam[0])
      ensures !old(drv.IsReceiving()) && dmaParam[0].blockCount == 0 ==> unchanged(dma)
      ensures ok ==> drv.ints == AllInts(true) && !drv.pce && drv.prst && drv.resetCallback == Some(BeforeCapture)
                     && drv.resetStartTick == now && drv.isOpen == old(drv.isOpen)
    {
      if drv.IsReceiving() {
        return false;
      }
      dmaArea := 0;
      ok := SetupDmacRequest(dmaArea);
      if !ok {
        return false;
      }
      ok := SetTransferIrqsEnable(true);
      if !ok {
        return false;
      }
      dma.Start();
      var r := drv.CaptureStart(now);
      ok := r == 0;
      endCallback := callback;
    }

    /**
     * pdc_stop_capture: acts only while the driver reports a reset in
     * progress, not while capturing, as written; then the channel, capture
     * and the transfer interrupts are all turned off.
     */
    method StopCapture() returns (ok: bool)
      requires Valid()
      modifies this`config, drv, dma
      ensures ok
      ensures !old(drv.IsResetting()) ==> unchanged(drv) && unchanged(dma) && config == old(config)
      ensures old(drv.IsResetting()) ==>
        && !dma.IsTransferring() && !drv.pce && drv.ints == AllInts(false) && config.ints == AllInts(false)
        && drv.isOpen == old(drv.isOpen) && drv.prst == old(drv.prst) && drv.resetCallback == old(drv.resetCallback)
    {
      ok := true;
      if drv.IsResetting() {
        dma.Stop();
        var r := drv.SetReceiveEnable(false);
        if r != 0 {
          ok := false;
        }
        var irqs := SetTransferIrqsEnable(false);
        if !irqs {
          ok := false;
        }
      }
    }

    /**
     * on_frame_end. The C first tries to drain the FIFO, but that loop is
     * entered only when FEMPF reads 1 and runs only while it reads 0, so it
     * never runs and is left out. Capture, the channel and the transfer
     * interrupts are turned off before the status is read, so the channel
     * is never transferring at that point and received_len always becomes
     * total_len. A transfer timeout is reported the same way as a frame end.
     */
    method OnFrameEnd(arg: EventArg)
      requires Valid()
      modifies this`config, this`reports, drv`pce, drv`ints, dma
      ensures Valid() && !drv.pce && !dma.IsTransferring()
      ensures drv.ints == AllInts(false) && config.ints == AllInts(false)
      ensures reports == old(reports) + if endCallback.Some?
        then [Report(endCallback.value, Snapshot(dataSize).(isFrameEnd := true))] else []
    {
      var _ := drv.SetReceiveEnable(false);
      dma.Stop();
      var _ := SetTransferIrqsEnable(false);
      if endCallback.Some? {
        var _, st := GetStatus(true);
        var status := st.value.(isFrameEnd := true);
        if !dma.IsTransferring() {
          status := status.(receivedLen := status.totalLen);
        }
        reports := reports + [Report(endCallback.value, status)];
      }
    }

    /**
     * on_error: the channel and the transfer interrupts off, then the
     * status reported with every error bit of `arg` added.
     */
    method OnError(arg: EventArg)
      requires Valid()
      modifies this`config, this`reports, drv`ints, dma
      ensures Valid() && !dma.IsTransferring() && config.ints == AllInts(false)
      ensures drv.ints == if old(drv.pce) then old(drv.ints) else AllInts(false)
      ensures reports == old(reports) + if endCallback.Some?
        then [Report(endCallback.value, WithErrorBits(Snapshot(ReceivedLength(dmaParam, dmaArea, dma.LeftSize())), arg.errors))]
        else []
    {
      dma.Stop();
      var _ := SetTransferIrqsEnable(false);
      if endCallback.Some? {
        var _, st := GetStatus(true);
        reports := reports + [Report(endCallback.value, WithErrorBits(st.value, arg.errors))];
      }
    }

    /** Runs the controller callback a driver interrupt handler asked for. */
    method Deliver(d: Option<Delivery>)
      requires Valid()
      modifies this`config, this`reports, drv`pce, drv`ints, dma
      ensures Valid()
      ensures |old(reports)| <= |reports| <= |old(reports)| + 1 && reports[..|old(reports)|] == old(reports)
      ensures d.Some? && d.value.callback == ON_FRAME_END ==>
        reports == old(reports) + if endCallback.Some? then [Report(endCallback.value, Snapshot(dataSize).(isFrameEnd := true))] else []
      ensures d.Some? && d.value.callback == ON_ERROR ==>
        reports == old(reports) + if endCallback.Some? then [Report(endCallback.value, WithErrorBits(Snapshot(ReceivedLength(dmaParam, dmaArea, dma.LeftSize())), d.value.arg.errors))] else []
      ensures d.None? || d.value.callback !in {ON_FRAME_END, ON_ERROR} ==> reports == old(reports) && unchanged(drv) && unchanged(dma)
    {
      if d.Some? && d.value.callback == ON_FRAME_END {
        OnFrameEnd(d.value.arg);
      } else if d.Some? && d.value.callback == ON_ERROR {
        OnError(d.value.arg);
      }
    }

    /** The PCFEI interrupt: the driver's frame-end handler, then at most one report. */
    method FrameEndInterrupt(samples: seq<FifoSample>)
      requires Valid() && |samples| > FIFO_WAIT_LIMIT
      modifies this`config, this`reports, drv, dma
      ensures Valid()
      ensures |old(reports)| <= |reports| <= |old(reports)| + 1 && reports[..|old(reports)|] == old(reports)
    {
      var d := drv.OnPcfeiDetected(samples);
      Deliver(d);
    }

    /** The PCERI interrupt: the driver's error handler, then at most one report. */
    method ErrorInterrupt()
      requires Valid()
      modifies this`config, this`reports, drv, dma
      ensures Valid()
      ensures |old(reports)| <= |reports| <= |old(reports)| + 1 && reports[..|old(reports)|] == old(reports)
    {
      var d := drv.OnPceriDetected();
      Deliver(d);
    }

    /** The DMAC3 interrupt: the channel's handler, then the region chaining it asks for. */
    method DmaInterrupt()
      requires Valid()
      modifies this`dmaArea, dma
      ensures Valid() && old(dmaArea) <= dmaArea <= old(dmaArea) + 1
      ensures !old(dma.dtif) || old(dma.callback) != Some(ON_DMA_REQUEST_END) ==> dmaArea == old(dmaArea) && dma.State() == old(dma.State()).(dtif := false)
      ensures old(dma.dtif) && old(dma.callback) == Some(ON_DMA_REQUEST_END) ==>
        dmaArea == (if old(dmaArea) < DMA_AREA_COUNT then old(dmaArea) + 1 else old(dmaArea))
        && if old(dmaArea) < DMA_AREA_COUNT && dmaArea < DMA_AREA_COUNT && dmaParam[dmaArea].blockCount != 0
           then dma.State() == Requested(old(dma.State()).(dtif := false), dmaParam[dmaArea])
           else dma.State() == old(dma.State()).(dtif := false)
    {
      var call := dma.Interrupt();
      if call == Some(ON_DMA_REQUEST_END) {
        OnDmaRequestEnd(0);
      }
    }

    /**
     * pdc_reset: requests a reset, then polls until the driver no longer
     * reports one or `timeoutMs` has passed since `begin`. `samples[k]` is
     * the PRST value and tick the k-th pass reads. A pending hook of
     * capture_start is dropped by the reset request.
     */
    method Reset(timeoutMs: nat, now: Tick, begin: Tick, samples: seq<ResetSample>) returns (ok: bool)
      requires IsU16(timeoutMs)
      requires |samples| > 0 && ResetPollStops(samples[|samples| - 1], drv.isOpen, begin, timeoutMs)
      modifies drv`pce, drv`resetStartTick, drv`resetCallback, drv`prst
      ensures var s := samples[FirstPollStop(samples, drv.isOpen, begin, timeoutMs, 0)];
        && ok == !(drv.isOpen && s.prst) && drv.prst == s.prst
        && (!ok ==> Elapsed(s.tick, begin) >= timeoutMs)
      ensures !drv.pce && drv.resetCallback == None && drv.resetStartTick == now
      ensures !drv.isOpen ==> ok
    {
      var _ := drv.Reset(now);
      var k := 0;
      // The hardware's PRST as each pass reads it.
      drv.prst := samples[0].prst;
      while drv.IsResetting() && Elapsed(samples[k].tick, begin) < timeoutMs
        invariant 0 <= k < |samples| && drv.prst == samples[k].prst
        invariant FirstPollStop(samples, drv.isOpen, begin, timeoutMs, k) == FirstPollStop(samples, drv.isOpen, begin, timeoutMs, 0)
        invariant !drv.pce && drv.resetCallback == None && drv.resetStartTick == now
        decreases |samples| - k
      {
        k := k + 1;
        drv.prst := samples[k].prst;
      }
      ok := !drv.IsResetting();
    }
  }
}
