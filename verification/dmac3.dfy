/**
 * DMA channel 3 as the capture path uses it: block transfers from the PDC
 * data register into RAM, one region per Setup, with a completion
 * interrupt that calls the callback stored by Setup.
 *
 * The channel's registers are fields. The hardware's own progress (the
 * counters falling, the transfer ending) is an explicit environment step.
 * A callback is named by an identifier; the interrupt handler returns the
 * one it calls, and the owner of the channel runs it.
 */
module Dmac3 {
  import opened Common

  /** Largest block size the channel accepts. */
  const BLOCK_SIZE_MAX: nat := 1024
  /** Block-size half of DMCRA as programmed by Create (block size 1 in both halves). */
  const CREATE_DMCRA: nat := 0x0001_0001
  const CREATE_DMCRB: nat := 1
  /** DMTMD.SZ after Create: 32-bit transfers. */
  const CREATE_SZ: nat := 2

  /** The channel's registers and the stored callback. */
  datatype Regs = Regs(
    dte: bool, ien: bool, ir: bool, dtif: bool,
    sz: nat, dmdar: nat, dmcra: nat, dmcrb: nat,
    callback: Option<nat>)

  /** The data-size code Setup writes for a transfer unit (`unit >> 1`). */
  function SizeCode(unit: nat): (r: nat)
    ensures unit in {1, 2, 4} ==> r <= 2
  {
    unit / 2
  }

  /** The transfer unit Get_LeftSize reads back from a size code (`SZ << 1`, 0 read as 1). */
  function UnitOf(sz: nat): (r: nat)
    ensures r >= 1
  {
    if sz * 2 == 0 then 1 else sz * 2
  }

  /** Decoding the size code gives back every unit Setup accepts. */
  lemma SizeCodeRoundTrip(unit: nat)
    requires unit in {1, 2, 4}
    ensures UnitOf(SizeCode(unit)) == unit
  {
  }

  /** The argument check of Setup. */
  predicate SetupArgsValid(unit: nat, blockSize: nat, blockCount: nat)
  {
    !((unit != 1 && unit != 2 && unit != 4) || blockSize == 0 || blockSize > BLOCK_SIZE_MAX || blockCount == 0)
  }

  /** Setup's return value: EBUSY while enabled, then EINVAL for bad arguments, else 0. */
  function SetupResult(dte: bool, unit: nat, blockSize: nat, blockCount: nat): (r: int)
    ensures r == 0 <==> !dte && SetupArgsValid(unit, blockSize, blockCount)
    ensures dte ==> r == EBUSY
    ensures !dte && !SetupArgsValid(unit, blockSize, blockCount) ==> r == EINVAL
  {
    if dte then EBUSY
    else if !SetupArgsValid(unit, blockSize, blockCount) then EINVAL
    else 0
  }

  /** DMCRA as Setup writes it: the block size in the reload half and in the counting half. */
  function BlockSizeWord(blockSize: nat): nat
  {
    blockSize * 0x1_0000 + blockSize
  }

  /** Get_LeftSize: unit times the 10-bit block counter (DMCRAL) times the block count. */
  function LeftSizeOf(sz: nat, dmcra: nat, dmcrb: nat): (r: nat)
  {
    UnitOf(sz) * (dmcra % 0x400) * dmcrb
  }

  /**
   * Right after a successful Setup the channel has unit * blockSize *
   * blockCount bytes left, except that a block of 1024 reads as 0 through
   * the 10-bit mask.
   */
  lemma LeftSizeAfterSetup(unit: nat, blockSize: nat, blockCount: nat)
    requires SetupArgsValid(unit, blockSize, blockCount)
    ensures LeftSizeOf(SizeCode(unit), BlockSizeWord(blockSize), blockCount)
      == if blockSize < BLOCK_SIZE_MAX then unit * blockSize * blockCount else 0
  {
    SizeCodeRoundTrip(unit);
    assert blockSize * 0x1_0000 == (blockSize * 64) * 0x400;
    assert BlockSizeWord(blockSize) % 0x400 == blockSize % 0x400;
    if blockSize < BLOCK_SIZE_MAX {
      assert blockSize % 0x400 == blockSize;
    } else {
      assert blockSize % 0x400 == 0;
    }
  }

  /** The registers after a successful Setup. */
  function SetUp(s: Regs, addr: nat, unit: nat, blockSize: nat, blockCount: nat, cb: Option<nat>): (r: Regs)
    ensures r.dte == s.dte && r.ien == s.ien && r.ir == s.ir && r.dtif == s.dtif
    ensures r.callback == cb && r.dmdar == addr && r.dmcrb == blockCount
    ensures unit in {1, 2, 4} ==> UnitOf(r.sz) == unit
  {
    s.(dmdar := addr, sz := SizeCode(unit), dmcra := BlockSizeWord(blockSize), dmcrb := blockCount, callback := cb)
  }

  /** The registers after Start. */
  function Started(s: Regs): (r: Regs)
    ensures r.dte && r.ien && !r.ir
    ensures r.(dte := s.dte, ien := s.ien, ir := s.ir) == s
  {
    s.(ir := false, ien := true, dte := true)
  }

  /** The registers after Stop. */
  function Stopped(s: Regs): (r: Regs)
    ensures !r.dte && !r.ien && !r.ir
    ensures r.(dte := s.dte, ien := s.ien, ir := s.ir) == s
  {
    s.(ir := false, ien := false, dte := false)
  }

  /** Stop is idempotent, and after it Setup's outcome depends on its arguments alone; after Start, Setup is refused. */
  lemma StartStopEffects(s: Regs, t: Regs, unit: nat, blockSize: nat, blockCount: nat)
    ensures Stopped(Stopped(s)) == Stopped(s)
    ensures SetupResult(Stopped(s).dte, unit, blockSize, blockCount) == SetupResult(Stopped(t).dte, unit, blockSize, blockCount)
    ensures SetupResult(Started(s).dte, unit, blockSize, blockCount) == EBUSY
  {
  }

  class Channel {
    var dte: bool
    var ien: bool
    var ir: bool
    var dtif: bool
    var sz: nat
    var dmdar: nat
    var dmcra: nat
    var dmcrb: nat
    /** s_dma_done_callback */
    var callback: Option<nat>
    /** DMSAR points at the PDC's receive data register. */
    var sourceIsPdc: bool

    function State(): Regs
      reads this
    {
      Regs(dte, ien, ir, dtif, sz, dmdar, dmcra, dmcrb, callback)
    }

    /** R_Config_DMAC3_IsTransferring */
    function IsTransferring(): (r: bool)
      reads this
      ensures r <==> State().dte
    {
      dte
    }

    /** R_Config_DMAC3_Get_LeftSize */
    function LeftSize(): (r: nat)
      reads this
      ensures r == LeftSizeOf(State().sz, State().dmcra, State().dmcrb)
    {
      var unit := if sz * 2 == 0 then 1 else sz * 2;
      unit * (dmcra % 0x400) * dmcrb
    }

    /**
     * R_Config_DMAC3_Create followed by Create_UserInit: the channel is
     * disabled, programmed for one 32-bit block of size 1, reads from the
     * PDC and has no callback.
     */
    constructor ()
      ensures !IsTransferring() && !ien
      ensures sz == CREATE_SZ && UnitOf(sz) == 4
      ensures dmcra == CREATE_DMCRA && dmcrb == CREATE_DMCRB && dmdar == 0
      ensures callback == None && sourceIsPdc && !dtif && !ir
    {
      ien := false;
      dte := false;
      sz := CREATE_SZ;
      dmdar := 0;
      dmcra := CREATE_DMCRA;
      dmcrb := CREATE_DMCRB;
      ir := false;
      dtif := false;
      callback := None;
      sourceIsPdc := true;
    }

    /** R_Config_DMAC3_Create_UserInit */
    method CreateUserInit()
      modifies this
      ensures callback == None && sourceIsPdc
      ensures State() == old(State()).(callback := None)
    {
      callback := None;
      sourceIsPdc := true;
    }

    /** R_Config_DMAC3_Setup: nothing is written unless the channel is disabled and the arguments are valid. */
    method Setup(addr: nat, unit: nat, blockSize: nat, blockCount: nat, cb: Option<nat>) returns (r: int)
      modifies this
      ensures r == SetupResult(old(dte), unit, blockSize, blockCount)
      ensures State() == if r == 0 then SetUp(old(State()), addr, unit, blockSize, blockCount, cb) else old(State())
      ensures sourceIsPdc == old(sourceIsPdc)
    {
      if dte {
        return EBUSY;
      }
      if (unit != 1 && unit != 2 && unit != 4) || blockSize == 0 || blockSize > BLOCK_SIZE_MAX || blockCount == 0 {
        return EINVAL;
      }
      dmdar := addr;
      sz := unit / 2;
      dmcra := blockSize * 0x1_0000 + blockSize;
      dmcrb := blockCount;
      callback := cb;
      r := 0;
    }

    /** R_Config_DMAC3_Start: clears the pending request, enables the interrupt and the transfer. */
    method Start()
      modifies this
      ensures State() == Started(old(State())) && IsTransferring()
      ensures sourceIsPdc == old(sourceIsPdc)
    {
      ir := false;
      ien := true;
      dte := true;
    }

    /** R_Config_DMAC3_Stop: clears the pending request and disables the interrupt and the transfer. */
    method Stop()
      modifies this
      ensures State() == Stopped(old(State())) && !IsTransferring()
      ensures sourceIsPdc == old(sourceIsPdc)
    {
      ir := false;
      ien := false;
      dte := false;
    }

    /**
     * r_Config_DMAC3_dmac3i_interrupt: when the transfer-end flag is set it
     * is cleared and the stored callback, if any, is returned to be called
     * with status 0.
     */
    method Interrupt() returns (call: Option<nat>)
      modifies this
      ensures call == if old(dtif) then old(callback) else None
      ensures State() == old(State()).(dtif := false)
      ensures sourceIsPdc == old(sourceIsPdc)
    {
      call := None;
      if dtif {
        dtif := false;
        if callback.Some? {
          call := callback;
        }
      }
    }

    /** Environment step: the hardware finishes the programmed transfer, disabling itself and raising the end flag. */
    method HardwareTransferEnd()
      modifies this
      ensures State() == old(State()).(dte := false, dtif := true, dmcrb := 0)
      ensures LeftSize() == 0 && sourceIsPdc == old(sourceIsPdc)
    {
      dte := false;
      dtif := true;
      dmcrb := 0;
    }
  }
}
