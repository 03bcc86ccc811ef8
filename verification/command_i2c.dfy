/**
 * The console's `i2c` command: `i2c bit-rate [rate#]` sets or reports the bus
 * speed, `i2c slave_addr# [send tx0# ...] [recv rx_len#]` runs one master
 * transaction. An argument vector is the sequence of argument strings,
 * av[0] being the command name itself.
 */
module CommandI2c {
  import opened Common
  import opened CStdlib
  import opened Utils

  /** Capacity of the static transmit and receive buffers (I2C_MAX_IOLEN). */
  const MAX_IOLEN: nat := 16
  /** Every transaction the command issues waits at most this long. */
  const TIMEOUT_MS: nat := 1000

  // ---------------------------------------------------------------- routing

  /** Which handler cmd_i2c hands the arguments to. */
  datatype Route = PrintHelp | SetOrGetRate | DoTransaction

  /** cmd_i2c: "bit-rate" (compared case-sensitively) as first argument selects the rate handler. */
  function RouteOf(av: seq<seq<char>>): (r: Route)
    ensures r == PrintHelp <==> |av| < 2
    ensures r == SetOrGetRate ==> av[1] == "bit-rate"
    ensures r == DoTransaction ==> av[1] != "bit-rate"
  {
    if |av| >= 2 && av[1] == "bit-rate" then SetOrGetRate
    else if |av| >= 2 then DoTransaction
    else PrintHelp
  }

  // --------------------------------------------------------------- bit rate

  /** What `i2c bit-rate` does. */
  datatype RateAction =
    | ReportRate               // no rate given: print the current one
    | InvalidRate              // unknown suffix, or negative
    | RateOutOfRange           // the scaled rate does not fit int32_t: undefined behaviour in C
    | SetRate(rate: nat)       // i2c_set_bitrate(rate)

  /** The multiplier a unit suffix selects: M/m for Mbps, K/k for kbps. */
  function SuffixScale(c: char): (r: Option<nat>)
    ensures r.Some? <==> c in {'M', 'm', 'K', 'k'}
    ensures r.Some? ==> r.value == (if c in {'M', 'm'} then 1_000_000 else 1_000)
  {
    if c == 'M' || c == 'm' then Some(1_000_000)
    else if c == 'K' || c == 'k' then Some(1_000)
    else None
  }

  /** cmd_i2c_bit_rate: with no rate argument the current rate is reported, otherwise the argument is parsed. */
  function BitRate(av: seq<seq<char>>): (r: RateAction)
    ensures |av| < 3 <==> r == ReportRate
  {
    if |av| < 3 then ReportRate else RateOf(av[2])
  }

  /**
   * A rate argument: strtol with base 0; the first character after the
   * number, if any, must be a unit suffix (what follows the suffix is
   * ignored); the scaled value must not be negative.
   */
  function RateOf(s: seq<char>): (r: RateAction)
    ensures r != ReportRate
    ensures r.SetRate? ==> r.rate <= LONG_MAX
  {
    var c := StrToL(s);
    var scaled: Option<int> :=
      if c.end == |s| then Some(c.value)
      else match SuffixScale(s[c.end])
        case None => None
        case Some(k) => Some(c.value * k);
    match scaled
    case None => InvalidRate
    case Some(v) =>
      if v < LONG_MIN || LONG_MAX < v then RateOutOfRange
      else if v < 0 then InvalidRate
      else SetRate(v)
  }

  /** A plain numeral sets that rate. */
  lemma RatePlain(n: nat)
    requires n <= LONG_MAX
    ensures RateOf(Decimal(n)) == SetRate(n)
  {
    DecimalStrToL(n);
  }

  /** A numeral with a unit suffix sets the scaled rate, or is out of range past int32_t. */
  lemma RateScaled(n: nat, c: char)
    requires n <= LONG_MAX && c in {'M', 'm', 'K', 'k'}
    ensures var v := n * SuffixScale(c).value;
            RateOf(Decimal(n) + [c]) == if v <= LONG_MAX then SetRate(v) else RateOutOfRange
  {
    var d := Decimal(n);
    var s := d + [c];
    SignedDecimalStrToL("", n, [c]);
    assert "" + d + [c] == s;
    assert s[|d|] == c;
  }

  /** Any other character after the number makes the rate invalid, whatever the number. */
  lemma RateBadSuffix(n: nat, c: char)
    requires n <= LONG_MAX
    requires DigitValue(c) >= 10 && c != 'x' && c != 'X' && c !in {'M', 'm', 'K', 'k'}
    ensures RateOf(Decimal(n) + [c]) == InvalidRate
  {
    var d := Decimal(n);
    SignedDecimalStrToL("", n, [c]);
    assert "" + d + [c] == d + [c];
    assert (d + [c])[|d|] == c;
  }

  /** A negative rate is refused. */
  lemma RateNegative(n: nat)
    requires 0 < n <= LONG_MAX
    ensures RateOf("-" + Decimal(n)) == InvalidRate
  {
    SignedDecimalStrToL("-", n, []);
    assert "-" + Decimal(n) + [] == "-" + Decimal(n);
  }

  /** A suffix with no number before it converts nothing, so it reads as a rate of 0. */
  lemma RateBareSuffix(c: char)
    requires c in {'M', 'm', 'K', 'k'}
    ensures RateOf([c]) == SetRate(0)
  {
    LetterHasNoSubject([c]);
  }

  // ------------------------------------------------------------ transaction

  /** Why cmd_i2c_process refused the arguments, or the transfer it decided on. */
  datatype Request =
    | InvalidSlave                 // not a u8, or not a 7-bit address
    | NoRxCount                    // "recv" is the last argument
    | InvalidRxCount               // the count is not a u8, or exceeds the buffer
    | Unconsumed                   // arguments are left over: the usage is printed
    | Transfer(slave: nat, txLen: nat, rxLen: nat)

  /** An argument as parse_u8 reads it: its byte, or None when it is not a number of at most 0xFF. */
  function U8Of(s: seq<char>): (r: Option<byte>)
    ensures r.Some? <==> ParseU8(s).Some?
    ensures r.Some? ==> r.value as nat == ParseU8(s).value
  {
    match ParseU8(s)
    case None => None
    case Some(d) => Some(d as byte)
  }

  /** Every argument as parse_u8 reads it. */
  function Lex(av: seq<seq<char>>): (r: seq<Option<byte>>)
    ensures |r| == |av|
  {
    if av == [] then [] else [U8Of(av[0])] + Lex(av[1..])
  }

  /** The k-th lexed argument is the k-th argument as parse_u8 reads it. */
  lemma {:induction false} LexAt(av: seq<seq<char>>, k: nat)
    requires k < |av|
    ensures Lex(av)[k] == U8Of(av[k])
    decreases k
  {
    if k > 0 {
      LexAt(av[1..], k - 1);
    }
  }

  /** The bytes of the numbers from index i on, stopping at the first non-number or after `room` bytes. */
  function SendRun(args: seq<Option<byte>>, i: nat, room: nat): (r: seq<byte>)
    requires i <= |args|
    ensures |r| <= room && i + |r| <= |args|
    decreases room
  {
    if room == 0 || i == |args| then []
    else match args[i]
      case None => []
      case Some(d) => [d] + SendRun(args, i + 1, room - 1)
  }

  /** Whether the arguments after the slave address start with "send", in any letter case. */
  predicate HasSend(av: seq<seq<char>>) {
    |av| > 2 && CaseEqual(av[2], "send")
  }

  /** The bytes to transmit: the run of u8 arguments after "send", at most MAX_IOLEN of them. */
  function TxBytes(av: seq<seq<char>>): (r: seq<byte>)
    ensures |r| <= MAX_IOLEN
    ensures !HasSend(av) ==> r == []
  {
    if HasSend(av) then SendRun(Lex(av), 3, MAX_IOLEN) else []
  }

  /** Where parsing goes on after the send part. */
  function AfterSend(av: seq<seq<char>>): (i: nat)
    ensures 2 <= i && (i <= |av| || |av| < 2)
  {
    if HasSend(av) then 3 + |TxBytes(av)| else 2
  }

  /**
   * cmd_i2c_process's grammar: a u8 slave address below 0x80, then an
   * optional "send" with its bytes, then an optional "recv" with a u8 count
   * of at most MAX_IOLEN, and nothing else.
   */
  function RequestOf(av: seq<seq<char>>): (r: Request)
    requires |av| >= 2
    ensures r.Transfer? ==> ParseU8(av[1]) == Some(r.slave) && r.slave < 0x80
    ensures r.Transfer? ==> r.txLen == |TxBytes(av)| && r.rxLen <= MAX_IOLEN
  {
    match ParseU8(av[1])
    case None => InvalidSlave
    case Some(slave) =>
      if slave >= 0x80 then InvalidSlave
      else RecvPart(av, slave, AfterSend(av), |TxBytes(av)|)
  }

  /** The rest of the grammar from index i on, after the send part: an optional "recv" with its count, then the end. */
  function RecvPart(av: seq<seq<char>>, slave: nat, i: nat, txLen: nat): (r: Request)
    requires i <= |av|
    ensures r.Transfer? ==> r.slave == slave && r.txLen == txLen && r.rxLen <= MAX_IOLEN
    ensures r != InvalidSlave
  {
    if i < |av| && CaseEqual(av[i], "recv") then
      if i + 1 >= |av| then NoRxCount
      else match ParseU8(av[i + 1])
        case None => InvalidRxCount
        case Some(n) =>
          if n > MAX_IOLEN then InvalidRxCount
          else if i + 2 != |av| then Unconsumed
          else Transfer(slave, txLen, n)
    else if i != |av| then Unconsumed
    else Transfer(slave, txLen, 0)
  }

  /**
   * cmd_i2c_process's parsing: decides the request and leaves the bytes to
   * send at the start of the static transmit buffer, past which the buffer
   * keeps its old contents.
   */
  method ParseRequest(av: seq<seq<char>>, txBuf: array<byte>) returns (r: Request)
    requires |av| >= 2 && txBuf.Length == MAX_IOLEN
    modifies txBuf
    ensures r == RequestOf(av)
    ensures txBuf[..] == if r == InvalidSlave then old(txBuf[..])
                         else TxBytes(av) + old(txBuf[..])[|TxBytes(av)|..]
  {
    var slave := ParseU8(av[1]);
    if slave.None? || slave.value >= 0x80 {
      return InvalidSlave;
    }
    var i := 2;
    var txLen := 0;
    if i < |av| && CaseEqual(av[i], "send") {
      txLen := CollectSend(av, txBuf);
      i := 3 + txLen;
    }
    r := ParseRecv(av, slave.value, i, txLen);
  }

  /** The receive part and the check that every argument was used. */
  method ParseRecv(av: seq<seq<char>>, slave: nat, i: nat, txLen: nat) returns (r: Request)
    requires i <= |av|
    ensures r == RecvPart(av, slave, i, txLen)
  {
    var j := i;
    var rxLen := 0;
    if j < |av| && CaseEqual(av[j], "recv") {
      j := j + 1;
      if j >= |av| {
        return NoRxCount;
      }
      var n := ParseU8(av[j]);
      if n.None? || n.value > MAX_IOLEN {
        return InvalidRxCount;
      }
      rxLen := n.value;
      j := j + 1;
    }
    if j != |av| {
      return Unconsumed;
    }
    return Transfer(slave, txLen, rxLen);
  }

  /**
   * The loop after "send": stores the byte of each u8 argument, stopping at
   * the first argument that is not one or once the buffer is full (the
   * source's two breaks are folded into the loop condition).
   */
  method CollectSend(av: seq<seq<char>>, txBuf: array<byte>) returns (txLen: nat)
    requires HasSend(av) && txBuf.Length == MAX_IOLEN
    modifies txBuf
    ensures txLen == |TxBytes(av)|
    ensures txBuf[..] == TxBytes(av) + old(txBuf[..])[txLen..]
  {
    var i := 3;
    txLen := 0;
    ghost var before := txBuf[..];
    ghost var sent: seq<byte> := [];
    ghost var args := Lex(av);
    while i < |av| && txLen < MAX_IOLEN && ParseU8(av[i]).Some?
      invariant 3 <= i <= |av| && txLen == |sent| <= MAX_IOLEN && i == txLen + 3
      invariant txBuf[..] == sent + before[txLen..]
      invariant TxBytes(av) == sent + SendRun(args, i, MAX_IOLEN - txLen)
    {
      var b := ParseU8(av[i]).value as byte;
      LexAt(av, i);
      SendRunStep(args, i, MAX_IOLEN - txLen, sent);
      SeqUpdateAt(sent, before[txLen..], b);
      txBuf[txLen] := b;
      sent := sent + [b];
      txLen := txLen + 1;
      i := i + 1;
    }
    if i < |av| && txLen < MAX_IOLEN {
      LexAt(av, i);
    }
    SendRunStop(args, i, MAX_IOLEN - txLen, sent);
  }

  /** One more u8 argument moves one byte from the run still to read to the bytes already stored. */
  lemma SendRunStep(args: seq<Option<byte>>, i: nat, room: nat, sent: seq<byte>)
    requires i < |args| && room > 0 && args[i].Some?
    ensures sent + SendRun(args, i, room) == (sent + [args[i].value]) + SendRun(args, i + 1, room - 1)
  {
  }

  /** At the end of the arguments, with the buffer full, or at a non-number, the run is over. */
  lemma SendRunStop(args: seq<Option<byte>>, i: nat, room: nat, sent: seq<byte>)
    requires i <= |args| && (i == |args| || room == 0 || args[i].None?)
    ensures sent + SendRun(args, i, room) == sent
  {
  }

  /** Overwriting the first element after a prefix. */
  lemma SeqUpdateAt<T>(prefix: seq<T>, rest: seq<T>, b: T)
    requires |rest| > 0
    ensures (prefix + rest)[|prefix| := b] == (prefix + [b]) + rest[1..]
  {
  }

  /** The call cmd_i2c_process makes for an accepted request. */
  datatype Transaction =
    | NoTransaction
    | SendSync(slave: nat, tx: seq<byte>, timeoutMs: nat)
    | ReceiveSync(slave: nat, rxLen: nat, timeoutMs: nat)
    | SendAndReceiveSync(slave: nat, tx: seq<byte>, rxLen: nat, timeoutMs: nat)

  /** Bytes to send and a count to receive select the combined transfer; neither, no transfer at all. */
  function Dispatch(slave: nat, tx: seq<byte>, rxLen: nat): (r: Transaction)
    ensures r.NoTransaction? <==> tx == [] && rxLen == 0
    ensures r.SendSync? ==> r.tx == tx && rxLen == 0
    ensures r.ReceiveSync? ==> r.rxLen == rxLen && tx == []
    ensures r.SendAndReceiveSync? ==> r.tx == tx && r.rxLen == rxLen && tx != [] && rxLen > 0
    ensures !r.NoTransaction? ==> r.slave == slave && r.timeoutMs == TIMEOUT_MS
  {
    if tx != [] && rxLen > 0 then SendAndReceiveSync(slave, tx, rxLen, TIMEOUT_MS)
    else if tx != [] then SendSync(slave, tx, TIMEOUT_MS)
    else if rxLen > 0 then ReceiveSync(slave, rxLen, TIMEOUT_MS)
    else NoTransaction
  }

  // ------------------------------------------------------------- properties

  /** The argument strings a user types for a byte sequence: one decimal numeral each. */
  function Numerals(bs: seq<byte>): (r: seq<seq<char>>)
    ensures |r| == |bs|
  {
    if bs == [] then [] else [Decimal(bs[0] as nat)] + Numerals(bs[1..])
  }

  /** The send part of a command line: present only when there are bytes to send. */
  function SendWords(tx: seq<byte>): seq<seq<char>> {
    if tx == [] then [] else ["send"] + Numerals(tx)
  }

  /** The receive part of a command line: present only when there is something to receive. */
  function RecvWords(rxLen: nat): seq<seq<char>> {
    if rxLen == 0 then [] else ["recv", Decimal(rxLen)]
  }

  /** The command line that asks for a transfer. */
  function Command(slave: nat, tx: seq<byte>, rxLen: nat): seq<seq<char>> {
    ["i2c", Decimal(slave)] + SendWords(tx) + RecvWords(rxLen)
  }

  /** A decimal numeral parses back as a u8 exactly when it is one. */
  lemma NumeralU8(n: nat)
    ensures ParseU8(Decimal(n)) == if n <= U8_MAX then Some(n) else None
  {
    ParseUnsignedDecimal(n, U8_MAX);
  }

  /** A word starting with a letter is never a number. */
  lemma WordNotU8(s: seq<char>)
    requires |s| > 0 && 'a' <= ToLower(s[0]) <= 'z'
    ensures ParseU8(s) == None
  {
    LetterHasNoSubject(s);
  }

  /** SendRun collects the bytes of a run of numbers that ends the arguments, fills the room, or meets a non-number. */
  lemma {:induction false} SendRunParsed(args: seq<Option<byte>>, i: nat, bs: seq<byte>, room: nat, e: nat)
    requires e == i + |bs| <= |args| && |bs| <= room
    requires forall k :: 0 <= k < |bs| ==> args[i + k] == Some(bs[k])
    requires e == |args| || |bs| == room || args[e].None?
    ensures SendRun(args, i, room) == bs
    decreases |bs|
  {
    if bs != [] {
      var rest := bs[1..];
      assert args[i + 0] == Some(bs[0]);
      forall k | 0 <= k < |rest| ensures args[i + 1 + k] == Some(rest[k]) {
        assert args[i + (k + 1)] == Some(bs[k + 1]);
      }
      SendRunParsed(args, i + 1, rest, room - 1, e);
      SendRunStep(args, i, room, []);
      assert [bs[0]] + rest == bs;
    } else {
      SendRunStop(args, i, room, []);
    }
  }

  /** Numerals of bytes read as those bytes. */
  lemma NumeralsParse(av: seq<seq<char>>, i: nat, bs: seq<byte>)
    requires i + |bs| <= |av| && av[i..i + |bs|] == Numerals(bs)
    ensures forall k :: 0 <= k < |bs| ==> Lex(av)[i + k] == Some(bs[k])
  {
    forall k | 0 <= k < |bs| ensures Lex(av)[i + k] == Some(bs[k]) {
      NumeralsAt(bs, k);
      assert av[i + k] == av[i..i + |bs|][k] == Decimal(bs[k] as nat);
      NumeralU8(bs[k] as nat);
      LexAt(av, i + k);
    }
  }

  /** The k-th numeral is the numeral of the k-th byte. */
  lemma {:induction false} NumeralsAt(bs: seq<byte>, k: nat)
    requires k < |bs|
    ensures Numerals(bs)[k] == Decimal(bs[k] as nat)
    decreases k
  {
    if k > 0 {
      NumeralsAt(bs[1..], k - 1);
    }
  }

  /** The send part of a command line reads back as its bytes, and parsing goes on right after it. */
  lemma SendPartRoundTrip(slave: nat, tx: seq<byte>, rxLen: nat)
    requires |tx| <= MAX_IOLEN
    ensures TxBytes(Command(slave, tx, rxLen)) == tx
    ensures AfterSend(Command(slave, tx, rxLen)) == 2 + |SendWords(tx)|
  {
    var av := Command(slave, tx, rxLen);
    var head := ["i2c", Decimal(slave)];
    if tx != [] {
      assert av[2] == "send";
      assert HasSend(av);
      assert av[3..3 + |tx|] == Numerals(tx);
      NumeralsParse(av, 3, tx);
      if rxLen > 0 && |tx| < MAX_IOLEN {
        assert av[3 + |tx|] == "recv";
        WordNotU8("recv");
        LexAt(av, 3 + |tx|);
      }
      SendRunParsed(Lex(av), 3, tx, MAX_IOLEN, 3 + |tx|);
    } else if rxLen > 0 {
      assert av[2] == "recv";
      assert !CaseEqual("recv", "send") by {
        assert ToLower("recv"[0]) != ToLower("send"[0]);
      }
    }
  }

  /** The receive part of a command line, then the end of the arguments, completes the transfer. */
  lemma RecvPartRoundTrip(av: seq<seq<char>>, slave: nat, i: nat, txLen: nat, rxLen: nat)
    requires rxLen <= MAX_IOLEN && i + |RecvWords(rxLen)| == |av| && av[i..] == RecvWords(rxLen)
    ensures RecvPart(av, slave, i, txLen) == Transfer(slave, txLen, rxLen)
  {
    if rxLen > 0 {
      assert av[i] == "recv" && av[i + 1] == Decimal(rxLen);
      NumeralU8(rxLen);
    }
  }

  /**
   * The grammar reads back the command line written for any valid transfer:
   * the slave address, the bytes to send and the receive count all survive.
   */
  lemma CommandRoundTrip(slave: nat, tx: seq<byte>, rxLen: nat)
    requires slave < 0x80 && |tx| <= MAX_IOLEN && rxLen <= MAX_IOLEN
    ensures RequestOf(Command(slave, tx, rxLen)) == Transfer(slave, |tx|, rxLen)
    ensures TxBytes(Command(slave, tx, rxLen)) == tx
  {
    var av := Command(slave, tx, rxLen);
    var i := 2 + |SendWords(tx)|;
    NumeralU8(slave);
    assert av[1] == Decimal(slave);
    SendPartRoundTrip(slave, tx, rxLen);
    assert av[i..] == RecvWords(rxLen);
    RecvPartRoundTrip(av, slave, i, |tx|, rxLen);
  }

  /** Seventeen bytes after "send" are one too many: the seventeenth is left over. */
  lemma SeventeenBytesRejected(av: seq<seq<char>>)
    requires |av| >= 3 + MAX_IOLEN + 1 && HasSend(av)
    requires forall k :: 3 <= k < 3 + MAX_IOLEN + 1 ==> ParseU8(av[k]).Some?
    ensures RequestOf(av) in {InvalidSlave, Unconsumed}
  {
    var args := Lex(av);
    forall k | 3 <= k < 3 + MAX_IOLEN ensures args[k].Some? {
      LexAt(av, k);
    }
    FullRun(args, 3, MAX_IOLEN);
    var i := 3 + MAX_IOLEN;
    if CaseEqual(av[i], "recv") {
      WordNotU8(av[i]);
    }
  }

  /** A run of at least `room` u8 arguments fills the room. */
  lemma {:induction false} FullRun(args: seq<Option<byte>>, i: nat, room: nat)
    requires i + room <= |args|
    requires forall k :: i <= k < i + room ==> args[k].Some?
    ensures |SendRun(args, i, room)| == room
    decreases room
  {
    if room > 0 {
      FullRun(args, i + 1, room - 1);
    }
  }

  /** "recv" must come after "send": a receive part followed by anything is not a transfer. */
  lemma RecvBeforeSend(av: seq<seq<char>>)
    requires |av| > 4 && CaseEqual(av[2], "recv")
    ensures !RequestOf(av).Transfer?
  {
    assert !HasSend(av) by {
      assert ToLower(av[2][0]) == 'r';
    }
  }

  /** "recv" with nothing after it is refused for the missing count. */
  lemma RecvWithoutCount(av: seq<seq<char>>)
    requires |av| >= 2 && AfterSend(av) == |av| - 1 && CaseEqual(av[|av| - 1], "recv")
    requires ParseU8(av[1]).Some? && ParseU8(av[1]).value < 0x80
    ensures RequestOf(av) == NoRxCount
  {
  }

  /** The rate keyword is matched case-sensitively: in capitals it is taken as a slave address, which it is not. */
  lemma RateKeywordCaseSensitive()
    ensures RouteOf(["i2c", "BIT-RATE"]) == DoTransaction
    ensures RequestOf(["i2c", "BIT-RATE"]) == InvalidSlave
  {
    assert "BIT-RATE" != "bit-rate" by {
      assert "BIT-RATE"[0] != "bit-rate"[0];
    }
    WordNotU8("BIT-RATE");
  }
}
