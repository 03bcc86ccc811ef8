/**
 * The USB-CDC serial bridge: received USB packets are moved into a receive
 * byte queue that the console reads, and bytes the console writes are
 * queued and sent to the host in packets of at most 64 bytes. The queues
 * exist only between the CONFIGURED and DETACH events of the USB stack.
 *
 * The USB stack is not part of this model: the event it reports is a
 * parameter, whether a read or write request it was given was accepted is
 * a parameter, and the requests the bridge makes are recorded in
 * `usbCalls`. A byte queue is a bounded sequence (None while closed).
 */
module UsbCdc {
  import opened Common

  /** Size of the USB packet buffers. */
  const PACKET_SIZE: nat := 64
  /** The queue sizes as named in the source. */
  const RX_QUEUE_SIZE: nat := 256
  const TX_QUEUE_SIZE: nat := 512
  /** The receive queue's storage is declared with TX_QUEUE_SIZE bytes and the send queue's with RX_QUEUE_SIZE. */
  const RX_QUEUE_CAPACITY: nat := TX_QUEUE_SIZE
  const TX_QUEUE_CAPACITY: nat := RX_QUEUE_SIZE
  /** Size of the driver's line-coding structure (usb_pcdc_linecoding_t). */
  const LINE_CODING_SIZE: nat := 8

  /** Class request codes (bRequest in the high byte of the setup word), section 6.3 of the USB CDC PSTN Subclass 1.2 specification. */
  const SET_LINE_CODING: nat := 0x2000
  const GET_LINE_CODING: nat := 0x2100
  const SET_CONTROL_LINE_STATE: nat := 0x2200

  /** The transfer class the stack reports with a completion event. */
  datatype CtrlType = Pcdc | Request | OtherType

  /** The setup packet of a class request: the request word, wValue and wLength. */
  datatype Setup = Setup(requestType: nat, value: nat, length: nat)

  /**
   * An event from the USB stack. A completed read carries the bytes the
   * stack stored in the packet buffer before reporting it.
   */
  datatype Event =
    | Configured
    | WriteComplete(wtype: CtrlType)
    | ReadComplete(rtype: CtrlType, data: seq<byte>)
    | ClassRequest(setup: Setup)
    | RequestComplete
    | Suspend
    | Detach
    | OtherEvent

  /** The buffer a class read posted to the stack stores its packet in. */
  datatype ReadTarget = ControlBuffer | ReceiveBuffer

  /**
   * What the receive buffer's first |data| bytes are once a class read of
   * `data` completes: the packet when the read was posted into the receive
   * buffer, otherwise what the buffer held before.
   */
  function ReceivedBytes(target: ReadTarget, before: seq<byte>, data: seq<byte>): (r: seq<byte>)
    requires |data| <= |before|
    ensures |r| == |data|
    ensures r == data || r == before[..|data|]
    ensures target == ReceiveBuffer ==> r == data
  {
    if target == ReceiveBuffer then data else before[..|data|]
  }

  /** A packet completed by the control-buffer read is not what the receive buffer yields, whenever the two differ. */
  lemma ControlReadYieldsStaleBytes(before: seq<byte>, data: seq<byte>)
    requires |data| <= |before| && before[..|data|] != data
    ensures ReceivedBytes(ControlBuffer, before, data) != data
  {
  }

  /** A request made of the USB stack. */
  datatype UsbCall =
    | ReadControl(len: nat)
    | ReadPacket(len: nat)
    | WritePacket(packet: seq<byte>)
    | ReadLineCoding(len: nat)
    | WriteLineCoding(len: nat)
    | Ack

  /** The serial settings reported to the host (usb_pcdc_linecoding_t). */
  datatype LineCoding = LineCoding(rate: nat, charFormat: nat, parityType: nat, dataBits: nat)

  /** The request code of a setup word: its high byte (`type & USB_BREQUEST`). */
  function RequestCode(requestType: nat): (r: nat)
    requires IsU16(requestType)
    ensures r % 0x100 == 0 && r <= requestType < r + 0x100
  {
    requestType / 0x100 * 0x100
  }

  /** Length of a line-coding transfer: the host's wLength, at most the structure's size. */
  function LineCodingLength(setupLength: nat): (r: nat)
    ensures r <= LINE_CODING_SIZE && r <= setupLength
    ensures r == setupLength || r == LINE_CODING_SIZE
  {
    if setupLength < LINE_CODING_SIZE then setupLength else LINE_CODING_SIZE
  }

  /** The control-line word with DTR (bit 0) and RTS (bit 1) cleared. */
  function ClearDtrRts(word: nat): (r: nat)
    ensures r % 4 == 0 && r / 4 == word / 4
  {
    word / 4 * 4
  }

  class Cdc {
    /** s_rx_queue and s_tx_queue: the queued bytes, oldest first; None while the queue is closed. */
    var rxQueue: Option<seq<byte>>
    var txQueue: Option<seq<byte>>
    /** s_is_rx_requirled: a packet read has been requested and not yet completed. */
    var rxRequested: bool
    /** The buffer of the last class read the stack was given: s_ctrl_buf after CONFIGURED, s_rx_buf after request_receive_if_idle. */
    var readTarget: ReadTarget
    /** s_is_tx_transferring: a packet write is in flight. */
    var txTransferring: bool
    /** s_rx_buf and s_rx_length: the received packet and how many of its bytes are still to be queued. */
    const rxBuf: array<byte>
    var rxLength: nat
    /** s_tx_buf: the packet being sent. */
    const txBuf: array<byte>
    /** s_cdc_line_state: the wValue of the last SetControlLineState request. */
    var lineState: nat
    var lineCoding: LineCoding
    /** Every request made of the USB stack, in order. */
    var usbCalls: seq<UsbCall>

    predicate Valid()
      reads this, rxBuf
    {
      rxBuf.Length == PACKET_SIZE && txBuf.Length == PACKET_SIZE && rxBuf != txBuf
      && rxLength <= PACKET_SIZE && IsU16(lineState)
      && (rxQueue.Some? <==> txQueue.Some?)
      && (rxQueue.Some? ==> |rxQueue.value| <= RX_QUEUE_CAPACITY)
      && (txQueue.Some? ==> |txQueue.value| <= TX_QUEUE_CAPACITY)
    }

    /** usb_cdc_get_DSR: the DTR bit of the last SetControlLineState. */
    function Dsr(): (r: bool)
      reads this
      ensures r <==> lineState % 2 == 1
    {
      lineState % 2 != 0
    }

    /** usb_cdc_get_CTS: the RTS bit of the last SetControlLineState. */
    function Cts(): (r: bool)
      reads this
      ensures r <==> lineState / 2 % 2 == 1
    {
      lineState / 2 % 2 != 0
    }

    /** usb_cdc_init: nothing in flight, no pending bytes, queues closed, 115200 8N1, DTR and RTS off. */
    constructor ()
      ensures Valid() && fresh(rxBuf) && fresh(txBuf)
      ensures rxQueue == None && txQueue == None
      ensures !rxRequested && !txTransferring && rxLength == 0
      ensures lineState == 0 && !Dsr() && !Cts()
      ensures lineCoding == LineCoding(115200, 0, 0, 8)
      ensures usbCalls == []
    {
      rxBuf := new byte[PACKET_SIZE];
      txBuf := new byte[PACKET_SIZE];
      txTransferring := false;
      rxRequested := false;
      readTarget := ReceiveBuffer;
      rxLength := 0;
      rxQueue := None;
      txQueue := None;
      lineCoding := LineCoding(115200, 0, 0, 8);
      lineState := 0;
      usbCalls := [];
    }

    /**
     * usb_cdc_read: -1 for a NULL buffer, a zero size or a closed queue,
     * 0 for an empty queue, else the oldest min(queued, bufsize) bytes are
     * removed into the buffer and their count returned.
     */
    method Read(buf: array?<byte>, bufsize: nat) returns (r: int)
      requires Valid() && IsU16(bufsize)
      requires buf != null ==> bufsize <= buf.Length && buf != rxBuf && buf != txBuf
      modifies this, buf
      ensures Valid()
      ensures buf == null || bufsize == 0 || old(rxQueue).None? ==> r == -1 && rxQueue == old(rxQueue)
      ensures buf != null && bufsize > 0 && old(rxQueue).Some? ==>
        rxQueue.Some? && r == Min(|old(rxQueue).value|, bufsize)
        && old(rxQueue).value == buf[..r] + rxQueue.value
        && buf[r..] == old(buf[r..])
      ensures buf != null && r <= 0 ==> buf[..] == old(buf[..])
      ensures txQueue == old(txQueue) && rxLength == old(rxLength) && rxRequested == old(rxRequested)
      ensures txTransferring == old(txTransferring) && lineState == old(lineState)
      ensures lineCoding == old(lineCoding) && usbCalls == old(usbCalls)
    {
      if buf == null || bufsize == 0 {
        return -1;
      }
      if rxQueue.None? {
        return -1;
      }
      var rxCount := |rxQueue.value|;
      if rxCount == 0 {
        return 0;
      }
      var ioLen := if rxCount < bufsize then rxCount else bufsize;
      ghost var q := rxQueue.value;
      r := 0;
      while r < ioLen
        invariant 0 <= r <= ioLen
        invariant rxQueue == Some(q[r..])
        invariant buf[..r] == q[..r] && buf[r..] == old(buf[r..])
        invariant txQueue == old(txQueue) && rxLength == old(rxLength) && rxRequested == old(rxRequested)
        invariant txTransferring == old(txTransferring) && lineState == old(lineState)
        invariant lineCoding == old(lineCoding) && usbCalls == old(usbCalls)
      {
        buf[r] := rxQueue.value[0];
        rxQueue := Some(rxQueue.value[1..]);
        r := r + 1;
      }
      assert q == q[..r] + q[r..];
    }

    /**
     * usb_cdc_write: -1 for NULL data or a closed queue, 0 for a zero
     * length, else the first min(free, length) bytes are appended and
     * their count returned.
     */
    method Write(data: Option<seq<byte>>, length: nat) returns (r: int)
      requires Valid() && IsU16(length)
      requires data.Some? ==> length <= |data.value|
      modifies this
      ensures Valid()
      ensures data.None? || (length > 0 && old(txQueue).None?) ==> r == -1 && txQueue == old(txQueue)
      ensures data.Some? && length == 0 ==> r == 0 && txQueue == old(txQueue)
      ensures data.Some? && length > 0 && old(txQueue).Some? ==>
        r == Min(TX_QUEUE_CAPACITY - |old(txQueue).value|, length)
        && txQueue == Some(old(txQueue).value + data.value[..r])
      ensures rxQueue == old(rxQueue) && rxLength == old(rxLength) && rxRequested == old(rxRequested)
      ensures txTransferring == old(txTransferring) && lineState == old(lineState)
      ensures lineCoding == old(lineCoding) && usbCalls == old(usbCalls)
    {
      if data.None? {
        return -1;
      }
      if length == 0 {
        return 0;
      }
      if txQueue.None? {
        return -1;
      }
      var blankCount := TX_QUEUE_CAPACITY - |txQueue.value|;
      var ioLen := if blankCount < length then blankCount else length;
      ghost var q := txQueue.value;
      r := 0;
      assert q + data.value[..0] == q;
      while r < ioLen
        invariant 0 <= r <= ioLen && ioLen <= blankCount && ioLen <= length
        invariant txQueue == Some(q + data.value[..r])
        invariant rxQueue == old(rxQueue) && rxLength == old(rxLength) && rxRequested == old(rxRequested)
        invariant txTransferring == old(txTransferring) && lineState == old(lineState)
        invariant lineCoding == old(lineCoding) && usbCalls == old(usbCalls)
      {
        assert data.value[..r + 1] == data.value[..r] + [data.value[r]];
        assert q + data.value[..r + 1] == (q + data.value[..r]) + [data.value[r]];
        txQueue := Some(txQueue.value + [data.value[r]]);
        r := r + 1;
      }
    }

    /**
     * proc_tx: when a send is not in flight and bytes are queued, the
     * oldest min(queued, 64) of them are taken into a packet and handed to
     * the stack; the send is in flight if the stack accepted it. Taken bytes
     * are not put back when it refuses.
     */
    method ProcTx(writeAccepted: bool)
      requires Valid()
      modifies this, txBuf
      ensures Valid()
      ensures old(txQueue).None? || |old(txQueue).value| == 0 || old(txTransferring) ==>
        txQueue == old(txQueue) && txTransferring == old(txTransferring) && usbCalls == old(usbCalls)
        && txBuf[..] == old(txBuf[..])
      ensures old(txQueue).Some? && |old(txQueue).value| > 0 && !old(txTransferring) ==>
        var n := Min(|old(txQueue).value|, PACKET_SIZE);
        txQueue.Some? && old(txQueue).value == txBuf[..n] + txQueue.value
        && usbCalls == old(usbCalls) + [WritePacket(txBuf[..n])]
        && txTransferring == writeAccepted
      ensures rxQueue == old(rxQueue) && rxLength == old(rxLength) && rxRequested == old(rxRequested)
      ensures lineState == old(lineState) && lineCoding == old(lineCoding) && readTarget == old(readTarget)
    {
      if txQueue.None? {
        return;
      }
      var txDataLen := |txQueue.value|;
      if txDataLen == 0 {
        return;
      }
      if txTransferring {
        return;
      }
      ghost var q := txQueue.value;
      var txCount := 0;
      while txDataLen > 0 && txCount < PACKET_SIZE
        invariant 0 <= txCount <= PACKET_SIZE && txCount <= |q|
        invariant txDataLen == |q| - txCount
        invariant txQueue == Some(q[txCount..])
        invariant txBuf[..txCount] == q[..txCount]
        invariant rxQueue == old(rxQueue) && rxLength == old(rxLength) && rxRequested == old(rxRequested)
        invariant txTransferring == old(txTransferring) && lineState == old(lineState)
        invariant lineCoding == old(lineCoding) && usbCalls == old(usbCalls) && readTarget == old(readTarget)
      {
        txBuf[txCount] := txQueue.value[0];
        txQueue := Some(txQueue.value[1..]);
        txDataLen := txDataLen - 1;
        txCount := txCount + 1;
      }
      assert q == q[..txCount] + q[txCount..];
      usbCalls := usbCalls + [WritePacket(txBuf[..txCount])];
      if writeAccepted {
        txTransferring := true;
      }
    }

    /** request_receive_if_idle: a new packet read only when none is outstanding and no received byte is pending. */
    method RequestReceiveIfIdle(readAccepted: bool)
      requires Valid()
      modifies this
      ensures Valid()
      ensures usbCalls == old(usbCalls) + (if !old(rxRequested) && old(rxLength) == 0 then [ReadPacket(PACKET_SIZE)] else [])
      ensures rxRequested == (old(rxRequested) || (old(rxLength) == 0 && readAccepted))
      ensures readTarget == if !old(rxRequested) && old(rxLength) == 0 && readAccepted then ReceiveBuffer else old(readTarget)
      ensures rxQueue == old(rxQueue) && txQueue == old(txQueue) && rxLength == old(rxLength)
      ensures txTransferring == old(txTransferring) && lineState == old(lineState) && lineCoding == old(lineCoding)
    {
      if rxRequested {
        return;
      }
      if rxLength != 0 {
        return;
      }
      usbCalls := usbCalls + [ReadPacket(PACKET_SIZE)];
      if readAccepted {
        rxRequested := true;
        readTarget := ReceiveBuffer;
      }
    }

    /** The receive queue has room for the whole pending packet. */
    predicate PacketFits()
      reads this, rxBuf
      requires Valid()
    {
      rxQueue.Some? && RX_QUEUE_CAPACITY - |rxQueue.value| >= rxLength
    }

    /**
     * proc_rx: a pending packet is queued only when all of its bytes fit,
     * otherwise it stays pending; then, with nothing pending, a new read
     * is requested if none is outstanding.
     */
    method ProcRx(readAccepted: bool)
      requires Valid()
      modifies this
      ensures Valid()
      ensures old(rxLength) > 0 && old(PacketFits()) ==>
        rxQueue == Some(old(rxQueue).value + old(rxBuf[..rxLength])) && rxLength == 0
      ensures old(rxLength) > 0 && !old(PacketFits()) ==>
        rxQueue == old(rxQueue) && rxLength == old(rxLength)
        && usbCalls == old(usbCalls) && rxRequested == old(rxRequested)
      ensures old(rxLength) == 0 || old(PacketFits()) ==>
        usbCalls == old(usbCalls) + (if !old(rxRequested) then [ReadPacket(PACKET_SIZE)] else [])
        && rxRequested == (old(rxRequested) || readAccepted)
      ensures old(rxLength) == 0 ==> rxQueue == old(rxQueue) && rxLength == 0
      ensures readTarget == if (old(rxLength) == 0 || old(PacketFits())) && !old(rxRequested) && readAccepted
                            then ReceiveBuffer else old(readTarget)
      ensures txQueue == old(txQueue) && txTransferring == old(txTransferring)
      ensures lineState == old(lineState) && lineCoding == old(lineCoding)
    {
      if rxLength == 0 {
        RequestReceiveIfIdle(readAccepted);
        return;
      }
      if rxQueue.None? {
        return;
      }
      var blankCount := RX_QUEUE_CAPACITY - |rxQueue.value|;
      if blankCount < rxLength {
        return;
      }
      ghost var q := rxQueue.value;
      ghost var pending := rxBuf[..rxLength];
      var rp := 0;
      assert q + pending[..0] == q;
      while rxLength > 0
        invariant rp + rxLength == |pending| && rxLength <= PACKET_SIZE
        invariant |q| + |pending| <= RX_QUEUE_CAPACITY
        invariant rxQueue == Some(q + pending[..rp])
        invariant pending == rxBuf[..|pending|]
        invariant txQueue == old(txQueue) && rxRequested == old(rxRequested) && usbCalls == old(usbCalls)
        invariant txTransferring == old(txTransferring) && lineState == old(lineState)
        invariant lineCoding == old(lineCoding) && readTarget == old(readTarget)
      {
        assert pending[..rp + 1] == pending[..rp] + [rxBuf[rp]];
        assert q + pending[..rp + 1] == (q + pending[..rp]) + [rxBuf[rp]];
        rxQueue := Some(rxQueue.value + [rxBuf[rp]]);
        rp := rp + 1;
        rxLength := rxLength - 1;
      }
      assert pending[..rp] == pending;
      RequestReceiveIfIdle(readAccepted);
    }

    /** proc_class_request: line-coding transfers, SetControlLineState, and an acknowledgement for anything else. */
    method ProcClassRequest(setup: Setup)
      requires Valid() && IsU16(setup.requestType) && IsU16(setup.value)
      modifies this
      ensures Valid()
      ensures var code := RequestCode(setup.requestType);
        (code == SET_LINE_CODING ==> usbCalls == old(usbCalls) + [ReadLineCoding(LineCodingLength(setup.length))])
        && (code == GET_LINE_CODING ==> usbCalls == old(usbCalls) + [WriteLineCoding(LineCodingLength(setup.length))])
        && (code == SET_CONTROL_LINE_STATE ==> lineState == setup.value && usbCalls == old(usbCalls) + [Ack])
        && (code != SET_CONTROL_LINE_STATE ==> lineState == old(lineState))
        && (code !in {SET_LINE_CODING, GET_LINE_CODING, SET_CONTROL_LINE_STATE} ==> usbCalls == old(usbCalls) + [Ack])
      ensures rxQueue == old(rxQueue) && txQueue == old(txQueue) && rxLength == old(rxLength)
      ensures rxRequested == old(rxRequested) && txTransferring == old(txTransferring) && lineCoding == old(lineCoding) && readTarget == old(readTarget)
    {
      var reqCode := RequestCode(setup.requestType);
      if reqCode == SET_LINE_CODING {
        usbCalls := usbCalls + [ReadLineCoding(LineCodingLength(setup.length))];
      } else if reqCode == GET_LINE_CODING {
        usbCalls := usbCalls + [WriteLineCoding(LineCodingLength(setup.length))];
      } else if reqCode == SET_CONTROL_LINE_STATE {
        lineState := setup.value;
        usbCalls := usbCalls + [Ack];
      } else {
        usbCalls := usbCalls + [Ack];
      }
    }

    /**
     * proc_usb_event, with the read CONFIGURED posts going into the receive
     * buffer, so that every completed class read leaves the packet it
     * carried pending. CONFIGURED clears both in-flight flags and opens the
     * queues; a completion of the CDC class clears its in-flight flag;
     * DETACH clears DTR and RTS and closes both queues.
     */
    method ProcUsbEvent(ev: Event)
      requires Valid()
      requires ev.ReadComplete? ==> |ev.data| <= PACKET_SIZE
      requires ev.ClassRequest? ==> IsU16(ev.setup.requestType) && IsU16(ev.setup.value)
      modifies this, rxBuf
      ensures Valid()
      ensures ev == Configured ==>
        !rxRequested && !txTransferring
        && rxQueue == (if old(rxQueue).None? then Some([]) else old(rxQueue))
        && txQueue == (if old(txQueue).None? then Some([]) else old(txQueue))
        && usbCalls == old(usbCalls) + [ReadPacket(PACKET_SIZE)] && readTarget == ReceiveBuffer
        && rxLength == old(rxLength)
      ensures ev == Detach ==>
        rxQueue == None && txQueue == None && !Dsr() && !Cts() && lineState / 4 == old(lineState) / 4
      ensures ev.WriteComplete? ==> txTransferring == (old(txTransferring) && ev.wtype != Pcdc)
      ensures ev.ReadComplete? && ev.rtype == Pcdc ==> rxLength == |ev.data| && rxBuf[..rxLength] == ev.data && !rxRequested
      ensures !ev.Configured? && !ev.Detach? ==> rxQueue == old(rxQueue) && txQueue == old(txQueue)
      ensures !ev.ClassRequest? ==> lineCoding == old(lineCoding)
      ensures !ev.Configured? ==> readTarget == old(readTarget)
    {
      match ev {
        case Configured =>
          txTransferring := false;
          rxRequested := false;
          OpenQueues();
          usbCalls := usbCalls + [ReadPacket(PACKET_SIZE)];
          readTarget := ReceiveBuffer;
        case WriteComplete(t) =>
          if t == Pcdc {
            txTransferring := false;
          }
        case ReadComplete(t, data) =>
          if t == Pcdc {
            forall k | 0 <= k < |data| {
              rxBuf[k] := data[k];
            }
            rxLength := |data|;
            rxRequested := false;
          }
        case ClassRequest(setup) =>
          ProcClassRequest(setup);
        case RequestComplete =>
        case Suspend =>
        case Detach =>
          lineState := ClearDtrRts(lineState);
          CloseQueues();
        case OtherEvent =>
      }
    }

    /**
     * proc_usb_event as written: the read CONFIGURED posts stores its packet
     * in s_ctrl_buf, yet its completion is handled like one into s_rx_buf,
     * which only has its length set. The other events are handled as in
     * ProcUsbEvent.
     */
    method ProcUsbEventAsWritten(ev: Event)
      requires Valid()
      requires ev.ReadComplete? ==> |ev.data| <= PACKET_SIZE
      requires ev.ClassRequest? ==> IsU16(ev.setup.requestType) && IsU16(ev.setup.value)
      modifies this, rxBuf
      ensures Valid()
      ensures ev == Configured ==>
        !rxRequested && !txTransferring && rxLength == old(rxLength)
        && rxQueue == (if old(rxQueue).None? then Some([]) else old(rxQueue))
        && txQueue == (if old(txQueue).None? then Some([]) else old(txQueue))
        && usbCalls == old(usbCalls) + [ReadControl(PACKET_SIZE)] && readTarget == ControlBuffer
        && rxBuf[..] == old(rxBuf[..])
      ensures ev.ReadComplete? && ev.rtype == Pcdc ==>
        rxLength == |ev.data| && !rxRequested && readTarget == old(readTarget)
        && rxBuf[..rxLength] == ReceivedBytes(old(readTarget), old(rxBuf[..]), ev.data)
      ensures !ev.Configured? && !ev.Detach? ==> rxQueue == old(rxQueue) && txQueue == old(txQueue)
    {
      match ev {
        case Configured =>
          txTransferring := false;
          rxRequested := false;
          OpenQueues();
          usbCalls := usbCalls + [ReadControl(PACKET_SIZE)];
          readTarget := ControlBuffer;
        case ReadComplete(t, data) =>
          if t == Pcdc && readTarget == ControlBuffer {
            rxLength := |data|;
            rxRequested := false;
          } else {
            ProcUsbEvent(ev);
          }
        case _ =>
          ProcUsbEvent(ev);
      }
    }

    /**
     * With nothing pending, CONFIGURED and the proc_rx of the same update,
     * whose read into the receive buffer the stack refuses while the
     * control read is outstanding; then that read completing with `data`
     * and the next proc_rx, as written: the receive queue gains what the
     * receive buffer held before, not the packet.
     */
    method ConfiguredThenReadAsWritten(data: seq<byte>, readAccepted: bool)
      requires Valid() && 0 < |data| <= PACKET_SIZE && rxLength == 0
      requires rxQueue.Some? && |rxQueue.value| + |data| <= RX_QUEUE_CAPACITY
      modifies this, rxBuf
      ensures Valid()
      ensures rxQueue == Some(old(rxQueue).value + old(rxBuf[..|data|])) && rxLength == 0
    {
      ProcUsbEventAsWritten(Configured);
      ProcRx(false);
      ProcUsbEventAsWritten(ReadComplete(Pcdc, data));
      ProcRx(readAccepted);
    }

    /**
     * The same sequence with the CONFIGURED read posted into the receive
     * buffer: the packet is queued whether or not the stack takes the
     * second read.
     */
    method ConfiguredThenRead(data: seq<byte>, secondReadAccepted: bool, readAccepted: bool)
      requires Valid() && 0 < |data| <= PACKET_SIZE && rxLength == 0
      requires rxQueue.Some? && |rxQueue.value| + |data| <= RX_QUEUE_CAPACITY
      modifies this, rxBuf
      ensures Valid()
      ensures rxQueue == Some(old(rxQueue).value + data) && rxLength == 0
    {
      ProcUsbEvent(Configured);
      ProcRx(secondReadAccepted);
      ProcUsbEvent(ReadComplete(Pcdc, data));
      ProcRx(readAccepted);
    }

    /** open_queues: each closed queue is opened empty; an open one keeps its bytes. */
    method OpenQueues()
      requires Valid()
      modifies this
      ensures Valid()
      ensures rxQueue == (if old(rxQueue).None? then Some([]) else old(rxQueue))
      ensures txQueue == (if old(txQueue).None? then Some([]) else old(txQueue))
      ensures rxRequested == old(rxRequested) && txTransferring == old(txTransferring) && rxLength == old(rxLength) && readTarget == old(readTarget)
      ensures lineState == old(lineState) && lineCoding == old(lineCoding) && usbCalls == old(usbCalls)
    {
      if rxQueue.None? {
        rxQueue := Some([]);
      }
      if txQueue.None? {
        txQueue := Some([]);
      }
    }

    /** close_queues: both queues are closed and their bytes dropped. */
    method CloseQueues()
      requires Valid()
      modifies this
      ensures Valid()
      ensures rxQueue == None && txQueue == None
      ensures rxRequested == old(rxRequested) && txTransferring == old(txTransferring) && rxLength == old(rxLength) && readTarget == old(readTarget)
      ensures lineState == old(lineState) && lineCoding == old(lineCoding) && usbCalls == old(usbCalls)
    {
      rxQueue := None;
      txQueue := None;
    }

    /** usb_cdc_update: the stack's event, if any, then the send side, then the receive side. */
    method Update(ev: Option<Event>, writeAccepted: bool, readAccepted: bool)
      requires Valid()
      requires ev.Some? && ev.value.ReadComplete? ==> |ev.value.data| <= PACKET_SIZE
      requires ev.Some? && ev.value.ClassRequest? ==> IsU16(ev.value.setup.requestType) && IsU16(ev.value.setup.value)
      modifies this, rxBuf, txBuf
      ensures Valid()
      ensures ev == Some(Detach) ==> rxQueue == None && txQueue == None && !Dsr() && !Cts()
      ensures ev == Some(Configured) ==> rxQueue.Some? && txQueue.Some?
      ensures ev.None? || !(ev.value.Configured? || ev.value.Detach?) ==> (rxQueue.Some? <==> old(rxQueue).Some?)
      ensures (ev.None? || ev == Some(WriteComplete(Pcdc))) && old(txQueue).Some? && |old(txQueue).value| > 0
              && (ev.Some? || !old(txTransferring)) ==>
        var n := Min(|old(txQueue).value|, PACKET_SIZE);
        txQueue.Some? && old(txQueue).value == txBuf[..n] + txQueue.value && txTransferring == writeAccepted
      ensures ev.None? && old(rxLength) > 0 && old(PacketFits()) ==>
        rxQueue == Some(old(rxQueue).value + old(rxBuf[..rxLength])) && rxLength == 0
      ensures ev.None? && old(rxLength) > 0 && !old(PacketFits()) ==> rxQueue == old(rxQueue) && rxLength == old(rxLength)
      ensures ev.Some? && ev.value.ReadComplete? && ev.value.rtype == Pcdc && 0 < |ev.value.data|
              && old(rxQueue).Some? && |old(rxQueue).value| + |ev.value.data| <= RX_QUEUE_CAPACITY ==>
        rxQueue == Some(old(rxQueue).value + ev.value.data) && rxLength == 0
    {
      if ev.Some? {
        ProcUsbEvent(ev.value);
      }
      ProcTx(writeAccepted);
      ProcRx(readAccepted);
    }

    /**
     * usb_cdc_update as written, with proc_usb_event's CONFIGURED read going
     * into the control buffer: which buffer a completed class read leaves
     * in the receive buffer depends on whether the stack took the read
     * into s_rx_buf that proc_rx posts right after CONFIGURED.
     */
    method UpdateAsWritten(ev: Option<Event>, writeAccepted: bool, readAccepted: bool)
      requires Valid()
      requires ev.Some? && ev.value.ReadComplete? ==> |ev.value.data| <= PACKET_SIZE
      requires ev.Some? && ev.value.ClassRequest? ==> IsU16(ev.value.setup.requestType) && IsU16(ev.value.setup.value)
      modifies this, rxBuf, txBuf
      ensures Valid()
      ensures ev == Some(Configured) ==> rxQueue.Some? && txQueue.Some?
      ensures ev == Some(Configured) && !readAccepted ==> readTarget == ControlBuffer
      ensures ev == Some(Configured) && readAccepted && old(rxLength) == 0 ==> readTarget == ReceiveBuffer
      ensures ev.Some? && ev.value.ReadComplete? && ev.value.rtype == Pcdc && 0 < |ev.value.data|
              && old(rxQueue).Some? && |old(rxQueue).value| + |ev.value.data| <= RX_QUEUE_CAPACITY ==>
        rxQueue == Some(old(rxQueue).value + ReceivedBytes(old(readTarget), old(rxBuf[..]), ev.value.data)) && rxLength == 0
      ensures ev.None? || !(ev.value.Configured? || ev.value.Detach?) ==> (rxQueue.Some? <==> old(rxQueue).Some?)
    {
      if ev.Some? {
        ProcUsbEventAsWritten(ev.value);
      }
      ProcTx(writeAccepted);
      ProcRx(readAccepted);
    }
  }
}
