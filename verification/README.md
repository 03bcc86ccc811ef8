# rx72n_pdc_sample in Dafny

This project models the core of the rx72n_pdc_sample firmware for the Renesas RX72N. The firmware captures camera frames through the parallel data capture unit (PDC) into RAM by DMA channel 3. It is driven from a serial console carried over USB-CDC, and it reaches devices on an I2C bus. The model covers:

- the **PDC driver** (`rx_driver_pdc.c`): the open sequence, the capture window and its hardware limits, the sync polarities, the interrupt enables, the status flags, and the reset request with its one pending completion hook. It also covers the frame-end and error interrupt handlers. The whole driver is the class `PdcDriver.Driver`.
- the **DMA channel 3 configuration** (`Config_DMAC3.c`, `Config_DMAC3_user.c`): the channel's registers, Setup's checks, Start, Stop, the remaining-size read-back and the completion interrupt. It is the class `Dmac3.Channel`.
- the **capture controller** (`pdc.c`): the two-region transfer plan for a frame, chaining the DMA requests region after region, and the received-length computation. It also covers starting, stopping and resetting a capture, the capture range in pixels, and the status reported to the frame-end callback. It is the class `Pdc.Controller`, which owns a driver and a channel.
- the **console**: the line editor that collects received bytes into command lines (`command_io.c`, class `CommandIo.LineEditor`) and the in-place tokenizer `make_argv`. It also covers the number parsers (`utils.c`, over a model of `strtol`/`strtoul` in `CStdlib`) and the `i2c` command's grammar (`command_i2c.c`).
- the **I2C wrapper** (`i2c.c`): argument checks, the control block handed to the SCI simple-I2C driver, errno mapping, the polling wait, and completion callbacks. It is the class `I2c.Master`.
- the **USB-CDC bridge** (`usb_cdc.c`): the receive and send byte queues, packet transfer to and from the USB stack, class requests and the DTR/RTS line state. It is the class `UsbCdc.Cdc`.

What happens outside the firmware reaches the model as parameters:

- **Register values the hardware changes on its own.** PRST releasing, FEMPF rising, DMA completion and I2C device states arrive as the sequence of values a polling loop reads, or as an explicit environment step such as `Dmac3.Channel.HardwareTransferEnd`.
- **Results of library calls.** The BSP lock, interrupt registration, the SCI I2C driver and the USB stack's acceptance of a request are parameters. Calls into those libraries are recorded in sequences (`libCalls`, `usbCalls`).
- **The millisecond tick.** It is a parameter, and it wraps at 2^32 (`Common.Elapsed`).
- **Callbacks.** A user callback is named by an identifier. An interrupt handler returns the call it would make, and the owner runs it.

Error numbers are those of newlib, the C library of the GCC toolchain for RX.

## Model

| member | source | states |
|---|---|---|
| Common.TruncU16 | src/pdc.c:241-243 | Storing an int in a uint16_t gives a value of at most 0xFFFF, equal to the input when it already fits |
| Common.TruncU32 | src/pdc.c:456 | Storing an int in a uint32_t gives a value of at most 0xFFFFFFFF, equal to the input when it already fits |
| Common.Elapsed | src/i2c.c:368 | The unsigned 32-bit difference of two ticks: the plain difference when no wrap occurred, otherwise 2^32 − start + now |
| Common.Min | src/usb_cdc.c:806-838 | The smaller of two values: no larger than either, and equal to one of them |
| CStdlib.DigitValue | src/utils.c:61 | A character's digit value in strtoul's alphabet is at most 36 (36 means "not a digit") |
| CStdlib.SkipSpaces | src/utils.c:61 | The leading white space strtoul skips: everything skipped is white space, and it stops at the first non-space |
| CStdlib.DigitRunEnd | src/utils.c:61 | The longest run of digits of the base: every character in it is a digit, and the one after it is not |
| CStdlib.ScanSubject | src/utils.c:61 | strtoul's subject sequence: base 8, 10 or 16, and a non-empty maximal digit run inside the string |
| CStdlib.StrToUl | src/utils.c:61 | strtoul: the value is in 0..ULONG_MAX; without a subject sequence it is 0 with the end pointer at the start; otherwise the end pointer is at the end of the digit run |
| CStdlib.StrToL | src/utils.c:24 | strtol: the value is in LONG_MIN..LONG_MAX; the same end pointer as StrToUl; a subject sequence gives the signed, saturated magnitude |
| CStdlib.Decimal | src/utils.c:57-72 | The decimal numeral of a number is never empty |
| CStdlib.DecimalDigits | src/utils.c:57-72 | A decimal numeral consists of decimal digits, denotes its number, and starts with '0' only for 0 |
| CStdlib.ZeroSubject | src/utils.c:61 | "0" is a one-digit octal subject sequence of value 0 |
| CStdlib.DecimalSubject | src/utils.c:61 | A decimal numeral is one unsigned subject sequence that spans the whole string and denotes its number |
| CStdlib.DecimalStrToUl | src/utils.c:61 | strtoul reads back the numeral of any unsigned long, consuming all of it |
| CStdlib.DecimalStrToL | src/utils.c:24 | strtol reads back the numeral of any non-negative long, consuming all of it |
| CStdlib.NumeralAt | src/utils.c:61 | A numeral inside a longer string: its digit run ends where the numeral ends, and its value is the number |
| CStdlib.ScanNumeral | src/command_i2c.c:65 | A numeral after at most a sign is the subject sequence: octal for 0, decimal otherwise, with the sign kept |
| CStdlib.ScanOctalZero | src/command_i2c.c:65 | A lone 0 not followed by x, after at most a sign, is a one-digit octal subject sequence |
| CStdlib.ScanDecimalRun | src/command_i2c.c:65 | A digit run not starting with 0, after at most a sign, is a decimal subject sequence |
| CStdlib.SignedDecimalStrToL | src/command_i2c.c:65 | strtol of a sign, a numeral and a non-digit tail gives the signed number and stops before the tail |
| Utils.ParseBoolean | src/utils.c:19-49 | parse_boolean: a whole-string integer is accepted and is true exactly when non-zero; a rejected string is none of on/true/off/false in any letter case |
| Utils.ParseUnsigned | src/utils.c:57-94 | The shared check of parse_u8/parse_u16 accepts exactly a whole-string strtoul value no larger than the maximum |
| Utils.ParseU8 | src/utils.c:57-72 | parse_u8: every accepted value fits 8 bits |
| Utils.ParseU16 | src/utils.c:79-94 | parse_u16: every accepted value fits 16 bits |
| Utils.ParseU32 | src/utils.c:101-113 | parse_u32 accepts exactly the strings strtoul converts entirely, and the value fits 32 bits |
| Utils.DecimalStrToUlSaturating | src/utils.c:105 | strtoul reads the numeral of any number, saturating at ULONG_MAX |
| Utils.ParseUnsignedDecimal | src/utils.c:57-94 | parse_u8 and parse_u16 accept a decimal numeral exactly when its number is in range, and return that number |
| Utils.ParseU32Decimal | src/utils.c:101-113 | parse_u32 accepts every decimal numeral: its number, or 0xFFFFFFFF past that |
| Utils.ParseUnsignedOfConversion | src/utils.c:57-94 | For a string strtoul consumes entirely, the shared check is exactly the range test on its value |
| Utils.ParseNarrowing | src/utils.c:57-113 | parse_u8 and parse_u16 accept exactly what parse_u32 accepts within their range, and with the same value |
| Utils.LetterHasNoSubject | src/utils.c:24 | A string starting with a letter has no subject sequence, and strtol converts nothing |
| Utils.ParseBooleanWords | src/utils.c:32-43 | on/true parse as true and off/false as false, in any letter case |
| Utils.ParseBooleanDecimal | src/utils.c:24-30 | A decimal numeral parses as true exactly when it is not zero |
| Utils.ParseEmpty | src/utils.c:19-113 | The empty string is accepted as 0 (false) by every parser |
| Utils.ParseHex | src/utils.c:61 | "0x10" parses as 16 |
| Utils.ParseOctal | src/utils.c:61 | "010" parses as 8 |
| Utils.ParseBareHexPrefix | src/utils.c:61-65 | "0x" is rejected: only its "0" is converted |
| Utils.ParseNegativeWraps | src/utils.c:101-113 | "-1" is accepted by parse_u32 as 0xFFFFFFFF and rejected by parse_u8 |
| CommandIo.Strlen | src/command_io.c:210-264 | The index of the first NUL from a position, or the buffer's end: nothing before it is NUL |
| CommandIo.SkipDelims | src/command_io.c:216-220 | make_argv's delimiter skip stops at the first non-delimiter or the string's end |
| CommandIo.FindChar | src/command_io.c:227-244 | strchr for the closing quote: the index of the character, or the end when it is absent |
| CommandIo.RunEnd | src/command_io.c:246-258 | The end of a word is the string's end or a delimiter |
| CommandIo.SkipDelimsSkips | src/command_io.c:216-220 | Everything the skip passes over is a delimiter |
| CommandIo.FindCharFirst | src/command_io.c:227-244 | The quote character does not occur before the index found |
| CommandIo.RunEndRun | src/command_io.c:246-258 | A word holds no delimiter |
| CommandIo.NextToken | src/command_io.c:213-259 | One round of make_argv: the token lies after the scan position, and is cut exactly when it ends before the string's end |
| CommandIo.TokenAt | src/command_io.c:222-258 | The token opening at a position lies after it, and is cut exactly when it ends before the string's end |
| CommandIo.Mark | src/command_io.c:235-256 | Cutting a token writes one NUL at its end and changes no other byte |
| CommandIo.Cut | src/command_io.c:210-264 | Writing the cuts of the kept tokens keeps the buffer's length |
| CommandIo.MakeArgv | src/command_io.c:210-264 | make_argv keeps the first min(max_argc, number of tokens) tokens, points argv at each token's start, and leaves the buffer with exactly their NULs written |
| CommandIo.Record | src/command_io.c:213-259 | One outer-loop round keeps argv and the buffer in step with the token list, and either records the next token or finds none left |
| CommandIo.ArgAt | src/command_io.c:222-258 | The token at a position: where it starts, where the scan resumes, and its NUL written |
| CommandIo.Advance | src/command_io.c:213-259 | The token found from a position is the next token of the whole list, and the scan resumes with the rest |
| CommandIo.TokensEnd | src/command_io.c:216-225 | At the end of the string, or with only delimiters left, no token remains |
| CommandIo.SkipDelimsIn | src/command_io.c:216-220 | The delimiter loop on the buffer computes SkipDelims |
| CommandIo.FindCharIn | src/command_io.c:229 | strchr on the buffer computes FindChar |
| CommandIo.RunEndIn | src/command_io.c:246-258 | The word loop on the buffer computes RunEnd |
| CommandIo.TokensOrdered | src/command_io.c:210-264 | The tokens lie in the string in order without overlap, and only the last may lack a cut |
| CommandIo.NextTokenShape | src/command_io.c:213-259 | The next token has the shape of its kind and only delimiters precede it; with no token, only delimiters remain |
| CommandIo.TokenShapes | src/command_io.c:222-258 | Each token is a maximal word, the text up to its matching quote, or an unmatched quote with the rest of the line; only the last can be unmatched |
| CommandIo.ShapeAt | src/command_io.c:222-258 | The i-th token has the shape of its kind |
| CommandIo.UnquotedWords | src/command_io.c:246-258 | Without quotes, every token is a word starting after a delimiter or at the scan start |
| CommandIo.UnquotedCovered | src/command_io.c:210-264 | Without quotes, every non-delimiter lies in some token: the tokens are exactly the maximal words |
| CommandIo.CoveredAt | src/command_io.c:210-264 | A non-delimiter lies inside some token |
| CommandIo.CutChars | src/command_io.c:235-256 | After the cuts, each byte is a NUL where a kept token ends and the original byte elsewhere |
| CommandIo.ArgvReadBack | src/command_io.c:210-264 | Each argv string read back from the cut buffer runs exactly to its token's end and holds the token's original text; every other byte is unchanged |
| CommandIo.ReadBackOne | src/command_io.c:210-264 | One argv string reads back as its token's text |
| CommandIo.NoCutInside | src/command_io.c:210-264 | No NUL is written strictly inside a token |
| CommandIo.StrlenAt | src/command_io.c:210-264 | Strlen finds the first NUL |
| CommandIo.Step | src/command_io.c:110-145 | One received byte keeps the line within RX_BUFSIZE − 2 bytes |
| CommandIo.Feed | src/command_io.c:104-145 | The bytes of one update keep the line within its bound |
| CommandIo.FeedKeepsBytes | src/command_io.c:104-145 | Without backspaces or overflow, no byte is lost or reordered: the dispatched lines, then the line in progress, are the old line followed by the input |
| CommandIo.StepKeepsBytes | src/command_io.c:110-145 | One non-backspace byte with room to store it is neither lost nor reordered |
| CommandIo.FlattenAppend | src/command_io.c:104-155 | Concatenating the dispatched lines commutes with appending lines |
| CommandIo.DispatchedLinesTerminated | src/command_io.c:104-155 | Every line handed to the command processor ends in CR or LF, unless the buffer filled |
| CommandIo.BackspaceUndoes | src/command_io.c:114-137 | A backspace right after a stored byte that dispatched nothing restores the line |
| CommandIo.LineEditor.constructor | src/command_io.c:104-155 | The console starts with an empty line and the idle timer at the current tick |
| CommandIo.LineEditor.RunCommand | src/command_io.c:162-176 | run_command hands over the line, NUL-terminates it in the buffer and empties the line |
| CommandIo.LineEditor.Receive | src/command_io.c:110-145 | One received byte restarts the idle timer and edits the line as Step says, returning the lines it dispatches |
| CommandIo.LineEditor.Put | src/command_io.c:125-145 | A non-backspace byte edits the line as Step says |
| CommandIo.LineEditor.Append | src/command_io.c:132-137 | A byte is stored while the line has room, and dropped otherwise |
| CommandIo.LineEditor.Update | src/command_io.c:104-155 | command_io_update is Feed over the received bytes followed by the idle flush; the timer restarts only when bytes came |
| CommandIo.LineEditor.IdleCheck | src/command_io.c:147-152 | A line ending in CR is dispatched once the input has been idle for 50 ms |
| CommandI2c.RouteOf | src/command_i2c.c:34-50 | Help with no arguments; the rate handler only for the exact word "bit-rate"; the transaction otherwise |
| CommandI2c.SuffixScale | src/command_i2c.c:66-80 | M/m scales by 1000000 and K/k by 1000; no other character is a suffix |
| CommandI2c.BitRate | src/command_i2c.c:58-103 | The current rate is reported exactly when no rate argument is given |
| CommandI2c.RateOf | src/command_i2c.c:63-101 | A rate argument never reports, and a rate it sets fits a long |
| CommandI2c.RatePlain | src/command_i2c.c:63-101 | A plain numeral sets that rate |
| CommandI2c.RateScaled | src/command_i2c.c:66-80 | A numeral with a suffix sets the scaled rate, or is out of range past LONG_MAX |
| CommandI2c.RateBadSuffix | src/command_i2c.c:76-80 | Any other character after the number makes the rate invalid |
| CommandI2c.RateNegative | src/command_i2c.c:81-85 | A negative rate is refused |
| CommandI2c.RateBareSuffix | src/command_i2c.c:65-80 | A suffix with no number sets rate 0 |
| CommandI2c.U8Of | src/command_i2c.c:116-160 | An argument as parse_u8 reads it: a byte exactly when parse_u8 accepts it, with that value |
| CommandI2c.Lex | src/command_i2c.c:110-219 | Every argument is read, one result per argument |
| CommandI2c.LexAt | src/command_i2c.c:110-219 | The k-th result is the k-th argument as parse_u8 reads it |
| CommandI2c.SendRun | src/command_i2c.c:127-143 | The bytes after "send" are at most the room left, and lie within the arguments |
| CommandI2c.TxBytes | src/command_i2c.c:123-145 | At most 16 bytes are sent, and none without "send" |
| CommandI2c.AfterSend | src/command_i2c.c:123-146 | Parsing resumes after the slave address and any send part |
| CommandI2c.RequestOf | src/command_i2c.c:110-167 | An accepted transfer has a u8 slave address below 0x80, the send part's byte count and a receive count of at most 16 |
| CommandI2c.RecvPart | src/command_i2c.c:146-167 | The receive part keeps the slave and send count, bounds the receive count by 16, and never blames the slave |
| CommandI2c.ParseRequest | src/command_i2c.c:110-167 | cmd_i2c_process's parsing decides RequestOf and leaves the bytes to send at the start of the transmit buffer, the rest untouched |
| CommandI2c.ParseRecv | src/command_i2c.c:146-167 | The receive-part code computes RecvPart |
| CommandI2c.CollectSend | src/command_i2c.c:127-143 | The send loop stores exactly TxBytes in the buffer and returns their count |
| CommandI2c.SendRunStep | src/command_i2c.c:127-143 | One more u8 argument moves one byte into the stored prefix |
| CommandI2c.SendRunStop | src/command_i2c.c:127-143 | At the end, with the buffer full or at a non-number, the run stops |
| CommandI2c.Dispatch | src/command_i2c.c:169-217 | Bytes and a count give the combined transfer, bytes alone a send, a count alone a receive, neither nothing; all use slave and a 1000 ms timeout |
| CommandI2c.NumeralU8 | src/utils.c:57-72 | A decimal numeral parses as a u8 exactly when its number is at most 0xFF |
| CommandI2c.WordNotU8 | src/utils.c:57-72 | A word starting with a letter is never a number |
| CommandI2c.SendRunParsed | src/command_i2c.c:127-143 | SendRun collects the bytes of a run that ends the arguments, fills the room, or meets a non-number |
| CommandI2c.NumeralsParse | src/command_i2c.c:127-143 | The numerals of bytes read as those bytes |
| CommandI2c.SendPartRoundTrip | src/command_i2c.c:123-145 | The send part of a command line reads back as its bytes, and parsing resumes right after it |
| CommandI2c.RecvPartRoundTrip | src/command_i2c.c:146-167 | A receive part followed by the end of the arguments completes the transfer |
| CommandI2c.CommandRoundTrip | src/command_i2c.c:110-167 | The command line written for any valid transfer parses back to that slave, those bytes and that count |
| CommandI2c.SeventeenBytesRejected | src/command_i2c.c:127-167 | Seventeen numbers after "send" are not a transfer: the seventeenth is left over |
| CommandI2c.FullRun | src/command_i2c.c:127-143 | A run of at least room u8 arguments fills the room |
| CommandI2c.RecvBeforeSend | src/command_i2c.c:123-167 | "recv" followed by anything but its count is not a transfer |
| CommandI2c.RecvWithoutCount | src/command_i2c.c:146-152 | "recv" as the last argument is refused for the missing count |
| CommandI2c.RateKeywordCaseSensitive | src/command_i2c.c:36 | "BIT-RATE" is not the rate keyword; it is refused as a slave address |
| I2c.StatusErrno | src/i2c.c:289-319 | Success exactly for IDLE, FINISH or an unnamed state; NACK is EACCES; COMMUNICATION is EBUSY |
| I2c.ReturnErrno | src/i2c.c:326-357 | Success exactly for SUCCESS or an unnamed code; bad argument or channel is EINVAL; lock or bus busy is EBUSY |
| I2c.Span | src/i2c.c:410-423 | A pointer and a count designate that many cells |
| I2c.SendInfo | src/i2c.c:410-423 | A send uses a 1-byte first segment at the payload's start; the segments total the payload; the second is NULL exactly for 1 byte |
| I2c.SendSegmentsCoverPayload | src/i2c.c:410-423 | The two send segments, one after the other, are exactly the caller's payload |
| I2c.TransferInfo | src/i2c.c:473-478 | A transfer sends the payload first (NULL when empty), then receives into the buffer |
| I2c.StartResult | src/i2c.c:402-431 | Bad arguments give EINVAL; otherwise success exactly when the driver returns SUCCESS or an unnamed code |
| I2c.FirstStop | src/i2c.c:368-375 | The pass at which the wait loop leaves is a stopping pass |
| I2c.FirstStopIsFirst | src/i2c.c:368-375 | Every pass before it keeps the loop polling |
| I2c.WaitResult | src/i2c.c:376-386 | ETIMEDOUT exactly for a transaction still in progress, otherwise the state's errno |
| I2c.InProgressMeansTimedOut | src/i2c.c:364-386 | A transaction still in progress when the loop leaves means the timeout had elapsed |
| I2c.IsBusy | src/i2c.c:509-519 | Busy only when the status query succeeds, and then exactly when the BUSY bit is set |
| I2c.NackReportedAsSuccess | src/i2c.c:499-500 | An indeterminate value read as IDLE reports success where the NACK state gives EACCES |
| I2c.BoolToInt | src/i2c.c:445-448 | A C bool converts to 1 for true and 0 for false |
| I2c.ReceiveErrorCollapses | src/i2c.c:249-260 | Every start error of a receive reaches receive_sync as 1, which is none of the start's errno values |
| I2c.Master.constructor | src/i2c.c:63-81 | i2c_init: no callback, an empty control block, the not-initialised state, and the driver opened |
| I2c.Master.SendAsync | src/i2c.c:399-434 | i2c_master_send_async returns StartResult; bad arguments change nothing; otherwise it fills SendInfo, calls MasterSend, and keeps the callback only on success |
| I2c.Master.SendAndReceiveAsync | src/i2c.c:461-490 | The combined start returns StartResult; bad arguments change nothing; otherwise it fills TransferInfo, calls MasterReceive, and keeps the callback only on success |
| I2c.Master.ReceiveAsync | src/i2c.c:445-448 | A receive is the combined start with no payload, its result narrowed to bool |
| I2c.Master.WaitTransactionDone | src/i2c.c:364-387 | The wait ends in the first stopping state, returns WaitResult, and resets the driver exactly on timeout |
| I2c.Master.SendSync | src/i2c.c:228-239 | A start error is returned as is, otherwise the wait's result; no callback is left installed |
| I2c.Master.SendAndReceiveSync | src/i2c.c:272-282 | A start error is returned as is, otherwise the wait's result; no callback is left installed |
| I2c.Master.ReceiveSyncAsWritten | src/i2c.c:249-260 | As written, every start error becomes 1 |
| I2c.Master.ReceiveSync | src/i2c.c:249-260 | Corrected: a start error is returned as its errno, so a bad address is EINVAL |
| I2c.Master.OnTransactionDoneAsWritten | src/i2c.c:495-503 | As written, the callback gets the errno of an indeterminate state |
| I2c.Master.OnTransactionDone | src/i2c.c:495-503 | Corrected: the callback, if any, gets the errno of the device state at completion; nothing else changes |
| UsbCdc.RequestCode | src/usb_cdc.c:583 | The request code is the setup word's high byte |
| UsbCdc.LineCodingLength | src/usb_cdc.c:589-597 | A line-coding transfer is the host's length capped at the structure's 8 bytes |
| UsbCdc.ClearDtrRts | src/usb_cdc.c:563-567 | DETACH clears DTR and RTS and keeps the other bits |
| UsbCdc.Cdc.Dsr | src/usb_cdc.c:784-787 | DSR is the DTR bit of the last SetControlLineState |
| UsbCdc.Cdc.Cts | src/usb_cdc.c:794-797 | CTS is the RTS bit |
| UsbCdc.Cdc.constructor | src/usb_cdc.c:459-495 | usb_cdc_init: nothing in flight, nothing pending, queues closed, 115200 8N1, DTR and RTS off |
| UsbCdc.Cdc.Read | src/usb_cdc.c:806-838 | -1 for NULL, size 0 or a closed queue; otherwise the oldest min(queued, size) bytes leave the queue, in order, into the buffer |
| UsbCdc.Cdc.Write | src/usb_cdc.c:847-880 | -1 for NULL or a closed queue, 0 for length 0; otherwise the first min(free, length) bytes are appended and counted |
| UsbCdc.Cdc.ProcTx | src/usb_cdc.c:674-712 | With bytes queued and no send in flight, the oldest min(queued, 64) move into one packet handed to the stack; the send is in flight only if accepted |
| UsbCdc.Cdc.RequestReceiveIfIdle | src/usb_cdc.c:757-777 | A packet read is requested only with none outstanding and no byte pending; an accepted one targets the receive buffer |
| UsbCdc.Cdc.ProcRx | src/usb_cdc.c:719-752 | A pending packet is queued whole when it fits and stays pending otherwise; then a read is requested if idle, and only an accepted one retargets the outstanding read to the receive buffer |
| UsbCdc.Cdc.ProcClassRequest | src/usb_cdc.c:581-614 | Line-coding reads and writes of the capped length, SetControlLineState recorded and acknowledged, anything else acknowledged |
| UsbCdc.Cdc.ProcUsbEvent | src/usb_cdc.c:518-576 | Corrected: the CONFIGURED read goes into the receive buffer. CONFIGURED opens the queues and clears both flights; a CDC completion clears its flight; a read leaves exactly its packet pending; DETACH closes the queues and drops DTR/RTS |
| UsbCdc.Cdc.ProcUsbEventAsWritten | src/usb_cdc.c:522-548 | As written: CONFIGURED posts its read into the control buffer; a CDC read completion sets the pending length, but the receive buffer holds the packet only when the read targeted it |
| UsbCdc.ReceivedBytes | src/usb_cdc.c:528 | A completed read leaves either the packet or the receive buffer's earlier bytes, and the packet whenever it was read into the receive buffer |
| UsbCdc.ControlReadYieldsStaleBytes | src/usb_cdc.c:528 | A packet read into the control buffer is not what the receive buffer yields whenever its earlier bytes differ |
| UsbCdc.Cdc.ConfiguredThenReadAsWritten | src/usb_cdc.c:500-548 | With nothing pending: CONFIGURED and the same update's proc_rx, whose read into the receive buffer the stack refuses, then a read completion and proc_rx, as written, queue the receive buffer's earlier bytes instead of the packet |
| UsbCdc.Cdc.ConfiguredThenRead | src/usb_cdc.c:500-552 | Corrected: the same sequence queues exactly the packet received, whether or not the stack takes the second read |
| UsbCdc.Cdc.OpenQueues | src/usb_cdc.c:619-637 | A closed queue opens empty; an open one keeps its bytes |
| UsbCdc.Cdc.CloseQueues | src/usb_cdc.c:642-657 | Both queues are closed |
| UsbCdc.Cdc.Update | src/usb_cdc.c:500-512 | Corrected: uses ProcUsbEvent. The queues exist after CONFIGURED, not after DETACH, and no other event opens or closes them; a received packet that fits is appended to the receive queue; with no event and no send in flight, or on a CDC write completion, the oldest min(queued, 64) bytes leave the send queue; with no event a pending packet is queued whole or stays |
| UsbCdc.Cdc.UpdateAsWritten | src/usb_cdc.c:500-512 | As written: after CONFIGURED the outstanding read is the control read unless the stack took proc_rx's read; a completed read that fits appends ReceivedBytes of the read's target, which is the receive buffer's earlier bytes for the control read |
| Dmac3.SizeCode | src/smc_gen/Config_DMAC3/Config_DMAC3_user.c:125-131 | Setup's size code for a valid unit is at most 2 |
| Dmac3.UnitOf | src/smc_gen/Config_DMAC3/Config_DMAC3_user.c:138-149 | Get_LeftSize's unit is at least 1 |
| Dmac3.SizeCodeRoundTrip | src/smc_gen/Config_DMAC3/Config_DMAC3_user.c:111-149 | Reading back the size code gives every unit Setup accepts |
| Dmac3.SetupResult | src/smc_gen/Config_DMAC3/Config_DMAC3_user.c:114-123 | 0 exactly when the channel is disabled and the arguments are valid; EBUSY while enabled; EINVAL otherwise |
| Dmac3.LeftSizeAfterSetup | src/smc_gen/Config_DMAC3/Config_DMAC3_user.c:111-149 | After Setup the channel has unit × block size × count bytes left, except that a 1024-byte block reads as 0 through the 10-bit mask |
| Dmac3.SetUp | src/smc_gen/Config_DMAC3/Config_DMAC3_user.c:125-131 | Setup writes the address, count and callback, leaves the enables alone, and the unit reads back |
| Dmac3.Started | src/smc_gen/Config_DMAC3/Config_DMAC3.c:111-117 | Start enables the transfer and interrupt, clears the request, and changes nothing else |
| Dmac3.Stopped | src/smc_gen/Config_DMAC3/Config_DMAC3.c:126-132 | Stop disables both, clears the request, and changes nothing else |
| Dmac3.StartStopEffects | src/smc_gen/Config_DMAC3/Config_DMAC3.c:111-132 | Stop is idempotent; after Stop, Setup depends only on its arguments; after Start, Setup is refused |
| Dmac3.Channel.IsTransferring | src/smc_gen/Config_DMAC3/Config_DMAC3_user.c:155-158 | The channel is transferring exactly when DTE is set |
| Dmac3.Channel.LeftSize | src/smc_gen/Config_DMAC3/Config_DMAC3_user.c:138-149 | The bytes left are unit × the 10-bit block counter × the block count |
| Dmac3.Channel.constructor | src/smc_gen/Config_DMAC3/Config_DMAC3.c:55-102 | Create: disabled, 32-bit units, one block of one, source the PDC, no callback |
| Dmac3.Channel.CreateUserInit | src/smc_gen/Config_DMAC3/Config_DMAC3_user.c:58-64 | The stored callback is cleared and nothing else changes |
| Dmac3.Channel.Setup | src/smc_gen/Config_DMAC3/Config_DMAC3_user.c:111-132 | Returns SetupResult; the registers become SetUp on success and are untouched otherwise |
| Dmac3.Channel.Start | src/smc_gen/Config_DMAC3/Config_DMAC3.c:111-117 | The registers become Started |
| Dmac3.Channel.Stop | src/smc_gen/Config_DMAC3/Config_DMAC3.c:126-132 | The registers become Stopped |
| Dmac3.Channel.Interrupt | src/smc_gen/Config_DMAC3/Config_DMAC3_user.c:73-97 | When the end flag is set it is cleared and the stored callback is called; nothing else changes |
| Dmac3.Channel.HardwareTransferEnd | src/smc_gen/Config_DMAC3/Config_DMAC3_user.c:73-80 | At the end of a transfer the channel disables itself, raises the end flag, and has nothing left |
| PdcDriver.AllInts | src/rx_driver_pdc.c:366-402 | Every interrupt enable set to the same value |
| PdcDriver.IsValidCaptureRange | src/rx_driver_pdc.c:811-822 | A valid window fits the 12-bit registers, is at least 4 × 1, and leaves room for itself |
| PdcDriver.OpenResult | src/rx_driver_pdc.c:134-185 | 0 exactly when already open, or when every step passes; otherwise EINVAL without a configuration, EBUSY without the lock, EFAULT when an interrupt registration fails, and EINVAL for bad priorities or window |
| PdcDriver.FirstResetStop | src/rx_driver_pdc.c:701-716 | The pass at which wait_reset_done leaves is a stopping pass |
| PdcDriver.FirstResetStopIsFirst | src/rx_driver_pdc.c:701-716 | Before it PRST read set and at most 50 ms had passed |
| PdcDriver.ResetWaitTimedOut | src/rx_driver_pdc.c:701-716 | PRST still set at the end means more than 50 ms passed |
| PdcDriver.ErrorMask | src/rx_driver_pdc.c:648-681 | process_errors builds a 4-bit mask |
| PdcDriver.ErrorMaskExact | src/rx_driver_pdc.c:648-681 | The mask holds exactly the bits of the set error flags, and is 0 exactly when none is set |
| PdcDriver.FrameEndDelivery | src/rx_driver_pdc.c:580-633 | The frame-end callback is called with the event id and no errors exactly when registered |
| PdcDriver.ErrorDelivery | src/rx_driver_pdc.c:648-681 | The error callback is called with the mask exactly when registered |
| PdcDriver.FifoWaitEnd | src/rx_driver_pdc.c:590-600 | The frame-end handler stops polling at a stopping pass within 300 re-reads |
| PdcDriver.FifoWaitEndIsFirst | src/rx_driver_pdc.c:590-600 | Before that pass the FIFO was neither empty nor underrun |
| PdcDriver.Driver.constructor | src/rx_driver_pdc.c:98-115 | Before open: closed, unlocked, not capturing, not resetting, no callbacks, no hook |
| PdcDriver.Driver.Open | src/rx_driver_pdc.c:134-185 | Returns OpenResult; only full success opens and writes the configuration; EFAULT keeps the lock; EINVAL releases it |
| PdcDriver.Driver.IsReceiving | src/rx_driver_pdc.c:553-556 | Receiving only when open, and then exactly when PCE is set |
| PdcDriver.Driver.IsResetting | src/rx_driver_pdc.c:571-574 | Resetting only when open, and then exactly when PRST reads set |
| PdcDriver.Driver.GetInterruptSetting | src/rx_driver_pdc.c:521-535 | EINVAL without a destination, otherwise 0 and the current enables |
| PdcDriver.Driver.GetSignalPolarity | src/rx_driver_pdc.c:747-764 | ENOTSUP while closed, otherwise 0 and the HPS and VPS settings |
| PdcDriver.Driver.GetPositionSize | src/rx_driver_pdc.c:830-851 | ENOTSUP while closed, otherwise 0 and the window registers |
| PdcDriver.Driver.SetupInterrupts | src/rx_driver_pdc.c:254-307 | Bad priorities give EINVAL; otherwise capture off and the enables written |
| PdcDriver.Driver.SetupPdc | src/rx_driver_pdc.c:314-357 | An invalid window gives EINVAL and changes nothing; otherwise capture off, clocks on, a hookless reset waited for, window and polarities written |
| PdcDriver.Driver.Close | src/rx_driver_pdc.c:366-402 | Always 0 and closed; when open, capture, interrupts and clocks off and the lock released |
| PdcDriver.Driver.Update | src/rx_driver_pdc.c:407-421 | A pending hook fires and is dropped once PRST releases or 500 ms pass; capture turns on only if the reset completed |
| PdcDriver.Driver.SetInterruptSetting | src/rx_driver_pdc.c:495-515 | NULL is EINVAL, busy capture is EBUSY; otherwise the enables are written and read back |
| PdcDriver.Driver.SetReceiveEnable | src/rx_driver_pdc.c:543-547 | PCE takes the requested value |
| PdcDriver.Driver.Reset | src/rx_driver_pdc.c:561-566 | Capture off and a reset requested, dropping any pending hook |
| PdcDriver.Driver.SetSignalPolarity | src/rx_driver_pdc.c:724-739 | ENOTSUP when closed, EBUSY while capturing; otherwise the polarities are written and read back |
| PdcDriver.Driver.SetPositionSize | src/rx_driver_pdc.c:773-801 | A missing part keeps the current one; ENOTSUP, EINVAL for an invalid window, then EBUSY; on success it reads back; no register is written on error |
| PdcDriver.Driver.CaptureStart | src/rx_driver_pdc.c:856-891 | Capture off, enables kept, and a reset requested whose completion hook turns capture on |
| PdcDriver.Driver.OnResetDoneBeforeCapture | src/rx_driver_pdc.c:897-907 | A completed reset turns capture on |
| PdcDriver.Driver.RequestReset | src/rx_driver_pdc.c:687-694 | The tick and the hook are recorded, replacing an older hook, and PRST is set |
| PdcDriver.Driver.WaitResetDone | src/rx_driver_pdc.c:701-716 | Returns whether PRST released within the wait; the hook runs with that outcome and is dropped |
| PdcDriver.Driver.OnPcfeiDetected | src/rx_driver_pdc.c:580-633 | At the first empty, underrun or 300th pass: empty reports frame end with capture off; underrun reports the errors; otherwise a transfer timeout with capture left on |
| PdcDriver.Driver.OnPceriDetected | src/rx_driver_pdc.c:639-643 | The error callback gets the mask of the set flags; capture off and the flags cleared |
| PdcDriver.Driver.ProcessErrors | src/rx_driver_pdc.c:648-681 | The error callback gets the mask of the set flags; capture off and the flags cleared |
| PdcDriver.Driver.ClearStatus | src/rx_driver_pdc.c:913-949 | ENOTSUP when closed, EINVAL for NULL; otherwise exactly the selected flags are cleared |
| PdcDriver.Driver.GetStatus | src/rx_driver_pdc.c:956-976 | 0 exactly when open with a destination, and then the status flags as they are |
| Pdc.Table | src/pdc.c:75-88 | The transfer plan has one entry per RAM region |
| Pdc.PlanTable | src/pdc.c:454-484 | update_transfer_size's plan has one entry per RAM region |
| Pdc.PlanCoversFrame | src/pdc.c:454-484 | The plan's two regions transfer the frame rounded down to 32 bytes (all of it when a multiple of 32), each within its region, with 16-bit block counts |
| Pdc.DefaultFramePlan | src/pdc.c:75-88 | The initial plan is exactly the plan for a 640 × 480 × 2 frame, 614400 bytes |
| Pdc.ReceivedLengthBounded | src/pdc.c:402-424 | The received length is at least the finished regions' total and at most the plan's total |
| Pdc.AreaTotal | src/pdc.c:393-396 | A region holds nothing exactly when a factor is 0; a region of the table holds 32 bytes per block |
| Pdc.ReceivedLength | src/pdc.c:402-424 | With both regions done it is the whole table; a region with at least its total left adds nothing; a finished current region adds its whole total |
| Pdc.ReceivedWithinFrame | src/pdc.c:402-424 | For a planned frame the received length never exceeds the frame size |
| Pdc.Requested | src/pdc.c:491-508 | A request starts the channel; on an idle channel it first sets up the region with the chaining callback; on a busy one Setup's EBUSY leaves the registers |
| Pdc.RequestedLeftSize | src/pdc.c:491-508 | After a request on an idle channel, the bytes left are the region's total |
| Pdc.ConvertPdcEventToError | src/pdc.c:601-641 | Only error and timeout events are errors; timeout is ETIMEDOUT; an error is overrun, underrun, then size errors, and EIO exactly when no bit is set |
| Pdc.ErrorReportErrno | src/pdc.c:601-641 | The errno of a reported mask is EIO exactly when no error flag was set |
| Pdc.WithErrorBits | src/pdc.c:573-590 | Each error bit sets its status flag, no flag is cleared or set without its bit, and every other field is unchanged |
| Pdc.FrameBytesFit | src/pdc.c:236 | A 16-bit width times a 12-bit height times at most 3 bytes fits 32 bits |
| Pdc.InitConfig | src/pdc.c:116-140 | The initial configuration has valid priorities and window, the frame-end and error callbacks, and no interrupts enabled |
| Pdc.CaptureRangeWrapAsWritten | src/pdc.c:241-243 | Width 0x5557 at 3 bytes is accepted as 5 bytes and reads back as 1 pixel; the byte values themselves are out of range |
| Pdc.AcceptedRangeRoundTrips | src/pdc.c:225-298 | With byte values in range, pixels convert to bytes and back, the truncation changes nothing, and the as-written check agrees |
| Pdc.FirstPollStop | src/pdc.c:179-193 | The pass at which pdc_reset's loop leaves is a stopping pass |
| Pdc.Controller.constructor | src/pdc.c:108-152 | pdc_init: 2 bytes per pixel, 614400-byte plan, the driver open exactly when every open step passed, and the first region's DMA request running |
| Pdc.Controller.UpdateTransferSize | src/pdc.c:454-484 | Out of range leaves the plan unchanged; otherwise the plan is PlanTable of the frame size and the first region is requested when the frame holds a 32-byte unit |
| Pdc.Controller.SetupDmacRequest | src/pdc.c:491-508 | Only a region in range with blocks is requested, and the channel becomes Requested; otherwise it is untouched |
| Pdc.Controller.OnDmaRequestEnd | src/pdc.c:515-524 | The area moves on, and the next region with blocks is requested |
| Pdc.Controller.CalcReceivedLength | src/pdc.c:402-424 | The loop computes ReceivedLength: the finished regions plus what the channel has done of the current one |
| Pdc.Controller.GetStatus | src/pdc.c:366-386 | With a destination, the status snapshot with the received length, bounded by the plan's total, and the frame size |
| Pdc.Controller.SetTransferIrqsEnable | src/pdc.c:432-445 | The configured enables become all on or all off; the driver takes them only while capture is off |
| Pdc.Controller.SetCaptureRangeAsWritten | src/pdc.c:225-256 | As written: accepted under the 16-bit-truncated checks; the range read back is the truncated bytes divided by bpp; the plan is rebuilt for a frame that fits the regions and kept stale otherwise |
| Pdc.Controller.SetCaptureRange | src/pdc.c:225-256 | Corrected: accepted exactly when the byte values pass the checks and the driver is open and idle; the range reads back unchanged and the plan is updated when the frame fits |
| Pdc.Controller.GetCaptureRange | src/pdc.c:267-298 | Fails exactly when the driver is closed; otherwise the vertical values and bpp as stored, and horizontal values no larger than the byte values |
| Pdc.Controller.ApplyCaptureRange | src/pdc.c:241-253 | The window is written when the driver accepts it; then bpp and the plan follow |
| Pdc.Controller.StartCapture | src/pdc.c:306-335 | Refused while receiving or with an empty plan; otherwise the channel is exactly Requested for region 0, the interrupts enabled and a capture reset started; an empty region 0 leaves the channel untouched |
| Pdc.Controller.StopCapture | src/pdc.c:341-359 | Always true; only while a reset is in progress it stops the channel, capture and interrupts |
| Pdc.Controller.OnFrameEnd | src/pdc.c:530-560 | Capture, channel and interrupts off; the callback gets the status with frame end set and the full frame received |
| Pdc.Controller.OnError | src/pdc.c:565-594 | Channel and interrupts off; the callback gets the status with the event's error bits added |
| Pdc.Controller.Deliver | src/pdc.c:108-152 | A frame-end delivery appends exactly OnFrameEnd's report, an error delivery exactly OnError's, and anything else changes no report, driver or channel |
| Pdc.Controller.FrameEndInterrupt | src/rx_driver_pdc.c:580-633 | A frame-end interrupt appends at most one report and keeps the earlier ones |
| Pdc.Controller.ErrorInterrupt | src/rx_driver_pdc.c:639-643 | An error interrupt appends at most one report and keeps the earlier ones |
| Pdc.Controller.DmaInterrupt | src/smc_gen/Config_DMAC3/Config_DMAC3_user.c:73-97 | Without the end flag and the chaining callback only the flag is cleared; with them the area moves on to the next region, which is Requested when it has blocks |
| Pdc.Controller.Reset | src/pdc.c:179-193 | pdc_reset fails exactly when the driver is open and PRST still reads set when the timeout passes; capture off and the hook dropped |

## Left out

- The floating-point bit-rate functions of the I2C wrapper (src/i2c.c:87-218): floating point is out of scope; `i2c bit-rate` is modelled up to the value passed to i2c_set_bitrate.
- The SCI simple-I2C driver, the Renesas USB stack and its descriptors, the BSP lock and interrupt registration: foreign code, modelled by their results as parameters.
- The byteq library's internals: a queue is a bounded sequence of bytes.
- Pin setup, module-stop control, interrupt priorities and register details of close beyond what the driver state records; pdc_pcdfi_isr and get_monitor_stat: hardware plumbing with no logic to verify.
- DMA channel 7, the GLCDC configuration, the test-signal generator, command_test_data and command_pdc: outside the modelled core.
- The console's command table dispatch, my_charget/my_charput, printf and putchar: output and I/O plumbing; a dispatched line is returned instead.
- main and hwtick: the tick is a parameter.
- Concurrency between interrupt handlers and the main loop: each handler runs atomically.
- The memory clearing in pdc_init (src/pdc.c:110-114): it writes the RAM regions only.
- pdc_update, pdc_is_running and the polarity wrappers in src/pdc.c are one-line delegations to `PdcDriver.Driver.Update`, `PdcDriver.Driver.IsReceiving` and the polarity members.
- UsbCdc.Cdc.ProcClassRequest: the size of usb_pcdc_linecoding_t is taken to be 8 bytes; send_ACK is a single `Ack` call.
- UsbCdc.Cdc.ProcClassRequest: the line coding the host sends with SET_LINE_CODING is stored into s_cdc_line_coding by the USB stack when that control read completes (src/usb_cdc.c:586-591); the model records the read request but not the stored data, so `lineCoding` keeps its initial 115200 8N1 and GET_LINE_CODING is modelled only as the write request.
- PdcDriver.Driver.SetupInterrupts: BSP_MCU_IPL_MAX is taken to be 15, the RX72N value.
- Dmac3.Channel.Setup: the DMCRB register's width is not modelled; block counts are proved to fit 16 bits where the plan is made.
- Pdc.Controller.GetStatus: a NULL destination is modelled only through `hasDest`; the other getters always have a destination.
- Pdc.Controller.StartCapture: the rollback after rx_driver_pdc_capture_start fails is not modelled, because that call always returns 0.
- Pdc.Controller.FrameEndInterrupt, Pdc.Controller.ErrorInterrupt: they state only that at most one report is appended; the report itself is stated by `Pdc.Controller.OnFrameEnd` and `Pdc.Controller.OnError`.
- PdcDriver.Driver.WaitResetDone, Pdc.Controller.Reset, I2c.Master.WaitTransactionDone: the register read after the polling loop is taken to be the sample that stopped the loop; a change between the last test and that read is not modelled.
- Pdc.Controller.SetCaptureRange: the frame size xsize × bpp × ysize is a signed int product in the C (src/pdc.c:236) and is undefined past INT_MAX; it is computed exactly here, and such a frame is refused anyway because it exceeds the two regions.
- The 16-slot limit on console lines: command_proc gives make_argv 16 slots (src/command_io.c:185-186), so a console line keeps at most 16 tokens and later ones are dropped silently; `CommandI2c.SeventeenBytesRejected` is about an argument vector built directly, and from the console at most 13 bytes can follow "send".
- CommandI2c.RateOf: a scaled rate past INT32_MAX is undefined behaviour in C; it is the distinct outcome `RateOutOfRange`.

Behaviour reproduced as written:

- the receive queue is declared with the send queue's size and the reverse (src/usb_cdc.c:433-445);
- proc_tx drops the bytes it took when the stack refuses the write;
- `i2c bit-rate k` sets rate 0;
- parse_u32 accepts saturated values;
- rx_driver_pdc_reset drops a pending capture hook;
- pdc_stop_capture acts only while a reset is in progress (src/pdc.c:345);
- the FIFO-drain loop in on_frame_end can never run (src/pdc.c:533-542), and the received length is always set to the frame size there;
- the result of the DMA Setup is ignored;
- the interrupts are not rolled back when enabling them fails;
- the end callback is never cleared;
- s_dma_area is read twice;
- the result of update_transfer_size is ignored in pdc_set_capture_range (src/pdc.c:252), which leaves a stale plan for frames over 786432 bytes;
- the transfer-timeout path of the frame-end handler keeps capture enabled;
- an EFAULT from open keeps the hardware lock.

## Findings

| source | as written | input that shows it | evidently intended | confidence | as-written member | corrected member |
|---|---|---|---|---|---|---|
| src/pdc.c:241-243 | the window's byte start and width are computed from pixels × bpp and stored in uint16_t, so a width past 0xFFFF bytes wraps into the valid range | pdc_set_capture_range(0, 0x5557, 0, 32, 3): 0x5557 × 3 wraps to 5 bytes, the call succeeds, and pdc_get_capture_range reports width 1 | reject a range whose byte values do not fit the window registers, so the range set reads back unchanged | not executed | Pdc.Controller.SetCaptureRangeAsWritten, Pdc.CaptureRangeWrapAsWritten | Pdc.Controller.SetCaptureRange, Pdc.AcceptedRangeRoundTrips |
| src/usb_cdc.c:528 | the read posted on CONFIGURED stores its packet in s_ctrl_buf, but its completion (src/usb_cdc.c:542-548) only sets s_rx_length, so proc_rx queues that many bytes of s_rx_buf | CONFIGURED with nothing pending; the proc_rx of the same update posts a read into s_rx_buf, which the stack refuses while the control read is outstanding; then a CDC read completing with "ab": the receive queue gains the first two bytes s_rx_buf held before, not "ab" | post the first read into s_rx_buf, so every completed class read leaves its packet pending | not executed | UsbCdc.Cdc.ProcUsbEventAsWritten, UsbCdc.Cdc.UpdateAsWritten, UsbCdc.Cdc.ConfiguredThenReadAsWritten, UsbCdc.ControlReadYieldsStaleBytes | UsbCdc.Cdc.ProcUsbEvent, UsbCdc.Cdc.Update, UsbCdc.Cdc.ConfiguredThenRead |
| src/i2c.c:499-500 | on_transaction_done converts its own uninitialised variable `status` instead of the device state `st` | a slave NACKs the transfer: the callback gets the errno of an indeterminate value, which is 0 (success) whenever it reads as IDLE | pass convert_status_to_errno(st), which gives EACCES for NACK | not executed | I2c.Master.OnTransactionDoneAsWritten, I2c.NackReportedAsSuccess | I2c.Master.OnTransactionDone |
| src/i2c.c:445-448 | i2c_master_receive_async is declared bool, so i2c_master_receive_sync sees every start error as 1 | i2c_master_receive_sync(0x80, buf, 1, 1000): the start gives EINVAL, and the caller gets 1 | return the errno number as the other synchronous calls do | not executed | I2c.Master.ReceiveSyncAsWritten, I2c.ReceiveErrorCollapses | I2c.Master.ReceiveSync |
