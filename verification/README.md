# A Dafny model of the Advantech VCOM driver and daemon

A virtual COM port is a tty whose other end is a serial device server on the network. Each
port has a kernel driver and one daemon process. They share two ring buffers and a block of
port attributes; the daemon speaks the VCOM protocol with the device over a socket. The
project models three parts of it, and proves what holds of every run.

**The data path and the protocol engine** (`Ring`, `Uart`, `Proto`, `Link`, `Wire`, `Driver`,
`Daemon`). `Driver.Vcom` is the kernel side: rings in arrays, the attribute slots, and the
ioctls, each one atomic step. `Driver.Vcom.KernelRuns` is any number of steps the kernel
takes by itself; it does to the rings exactly what `Driver.AfterAll` does to plain queues. `Daemon.Port` is the daemon: the stack of states, the cached rings, the
handlers and the event loop. The kernel runs before every ioctl, every copy to or from the
shared memory and every socket call; connects, sends, receives and timers may go either way,
and the device may send any bytes. A ghost counter of failed connects, sends and receives lets
the contracts say when a connection is reset, both ways. `Link` reads the log of one
connection as the device does, by the numbers of commands, status words and flags, and the
logs of all connections of a run as its history; `Wire` gives every frame byte by byte. Neither
uses the packers and checks of the daemon, so what the daemon sends and accepts is held against
them. The main results are:

* `Port.Run`: whatever kernel and device do, the daemon rests in a state that satisfies
  `Rest`. `Port.Resting`, `Port.Accounted`, `Port.Connected` and `Port.AttributesSeen` say what
  that means: the five possible stacks, socket, stack and open flag in step, the advertised
  window in step with the state, everything that ever left the outgoing ring accounted for by
  the acknowledgements and clears of all connections so far, everything that ever entered the
  incoming ring by the payloads received in them, a device that sees only the bytes on the wire
  left with exactly the settings of the daemon's shadow copy, and no change of the attributes
  lost.
* `Port.Iterate`: what one round of the event loop may do to both rings, and what it must do:
  settings that differ and data that is due go out, and Pause is left exactly when the poll
  found the incoming ring empty.
* `Port.UpdateRx`, `Port.UpdateTx`: the two index reads of a cached ring need not be atomic.
* `Port.Recv`, `Port.RecvDesp`: exactly which frames reset a connection, what is answered, and
  what any frame does to both streams.
* `Port.CommonIoctl`: the shadow reaches the attributes in at most four of fifteen rounds.
* `Port.Open`: the exact frames a connection begins with.
* `Uart.Xmit`, `Uart.XmitLegacy`: the two transmit pumps have the same result, and three
  rounds are always enough for the older one.

The handlers call each other through the stack, so they are mutually recursive; their
`decreases` clauses rank operation and state, and every event ends. The operations the
source calls unreachable are `assert false` in `Port.Open` and `Port.Recv`.

**The JSON tokenizer and tree** (`Jsmn`, `JsText`, `JsScan`, `JsmnRuns`, `JsTree`, `JsTreeOps`).
`Jsmn.Parser` is the tokenizer as it stands, proved equal to the recursive function `Jsmn.Run`.
`JsText` is the grammar of white space, unquoted values and strings by code point, without
reference to the code; `JsScan` proves that the scanners accept exactly what it allows. A run that
ran out of tokens can be resumed without a trace, and the spans of a successful run are a
forest. The text of a tree in any layout, that is with any white space wherever section 2 of
RFC 8259 allows it, is tokenized and rebuilt as that tree; what tree2js prints is one such
layout. `JsTreeOps` prints into memory that goes on behind the buffer, as a sequence of
snprintf calls each with what the ones before it left of the length: a large enough buffer gets
exactly text and terminator, and for the others it is said what they hold and which of them are
overrun.

**The JSON string codec** (`JsString`, `JsUtf8`). Decoding inverts encoding; it accepts what
the tokenizer accepts except an escaped solidus; and `JsUtf8`, a reader written from section
4 of RFC 3629, reads decoded text back, with the meaning section 7 of RFC 8259 gives to every
escape, except for surrogates.

Where the code falls short of what one would expect, the exact condition is proved:
`JsTreeOps.Buffer` (the length that is left becomes negative and is taken as unbounded,
`JsTreeOps.SmallBufferOverrun`), `JsString.OutlenKept` and `JsString.DecodeWithin` (plain characters ignore the bound of the
buffer, `JsString.PlainTextPassesBound`), `JsString.DecodeAccepted` (an escaped solidus is an
error, `JsString.SolidusRefused`), `JsString.TerminatedUnlessCut` (a four-digit escape cut by
the end of the text swallows the terminator, `JsString.CutEscapeLosesTerminator`),
`JsUtf8.DecodedTextReads` (surrogates, `JsUtf8.SurrogateUnreadable`), `Driver.ChangeIsSignalled`
(attributes of a port that stays closed, `Driver.ClosedChangeIsSilent`). The member named last
in each pair shows it at one input.

## Model

| member | source | states |
|---|---|---|
| `Jsmn.Parser.constructor` | shared/json/jsmn.c:309-313 | a fresh parser is at position 0 with no token and no parent |
| `Jsmn.Parser.AllocToken` | shared/json/jsmn.c:6-19 | a token is appended exactly when the array has room, and nothing else changes |
| `Jsmn.Parser.ParsePrimitive` | shared/json/jsmn.c:35-79 | the primitive ends where the scanner says; position and tokens are restored on every error |
| `Jsmn.Parser.SkipEscape` | shared/json/jsmn.c:114-141 | one escape is skipped without changing where the string ends, or the string is invalid |
| `Jsmn.Parser.ParseString` | shared/json/jsmn.c:84-146 | the token spans the body between the quotes; position and tokens are restored on every error |
| `Jsmn.Parser.FindOpen` | shared/json/jsmn.c:209-228 | the last token still open, or -1 |
| `Jsmn.Parser.FindOpenContainer` | shared/json/jsmn.c:250-257 | the last container still open, or -1 |
| `Jsmn.Parser.Round` | shared/json/jsmn.c:158-291 | one turn of the loop takes the step of `Run`; on success the count grows by exactly the tokens added |
| `Jsmn.Parser.Parse` | shared/json/jsmn.c:151-303 | a call returns the result, position, parent and tokens of `Run` from where it stood, for every text and array; the count it returns, kept apart from the tokens and raised before a container is allocated, is the number of tokens |
| `JsScan.Classes` | shared/json/jsmn.c:35-62 | the tokenizer takes for white space, for the end of an unquoted value and for its beginning exactly the characters whose code points the grammar lists |
| `JsScan.PrimEndIsBare` | shared/json/jsmn.c:35-79 | an unquoted value that is scanned consists of visible ASCII characters other than separators, and ends at one or at the end of the text |
| `JsScan.BareScanned` | shared/json/jsmn.c:35-79 | any such characters are scanned up to there |
| `JsScan.StrEndIsBody` | shared/json/jsmn.c:84-146 | what is scanned up to a closing quote is a string body of the grammar: no bare quote, the eight simple escapes, four hexadecimal digits |
| `JsScan.BodyScanned` | shared/json/jsmn.c:84-146 | any string body is scanned to its closing quote, wherever it stands |
| `JsScan.AcceptedIsBody` | shared/json/jsmn.c:84-146 | the tokenizer accepts a string if and only if it is a string body of the grammar |
| `JsmnRuns.Resume` | shared/json/jsmn.c:151-303 | a run stopped for tokens and resumed with more equals one run with more; a run that did not stop is unchanged by more |
| `JsmnRuns.TokensWithinText` | shared/json/jsmn.c:151-303 | each token consumes input, so as many tokens as characters always suffice |
| `JsmnRuns.LoadTokens` | daemon/vcom_load_sslcfg.h:65-82 | the doubling loop ends, never for lack of tokens, with the first of the sizes 2, 4, 8 and so on that is enough, and with the result and tokens of one call with a large array |
| `JsmnRuns.StepKeepsInv` | shared/json/jsmn.c:151-303 | every round of the tokenizer keeps the spans a forest that accounts for each character read |
| `JsmnRuns.SpansFormForest` | shared/json/jsmn.c:151-303 | on success, with the count `Jsmn.Parser.Parse` proves equal to the number of tokens, none is open, starts increase, spans are disjoint or nested in a container, containers end at their own bracket, strings and unquoted values are those of the grammar, and every character outside a token is white space, a colon or a comma, by code point |
| `JsmnRuns.ErrorCodes` | shared/json/jsmn.c:151-303 | -3 at the end of a text with a container open, -2 for a bracket that closes nothing, -1 for an opening bracket without a token left |
| `JsTree.ReadValue` | shared/json/jsmn.c:151-303 | the tokenizer reads a value in any layout, wherever it stands, to its end and adds exactly its tokens |
| `JsTree.BuildValue` | shared/json/jstree.c:327-384 | the tokens of a value in any layout, wherever they stand, rebuild the value and take up exactly their number |
| `JsTree.ReadText` | shared/json/jstree.c:327-384 | the text of a well-formed tree, of any depth and width, whose leaves are those of the grammar, with any of the four white-space characters before, in and after it where the grammar allows some, is tokenized to its end and rebuilt as that tree, given as many tokens as it has |
| `JsTree.PrettyIsPrint` | shared/json/jstree.c:586-618 | what tree2js prints at any indentation is the text of the tree in one layout |
| `JsTree.RoundTrip` | shared/json/jstree.c:327-618 | printed at any indentation, tokenized and rebuilt, a well-formed tree of any depth and width is itself again; as many tokens as characters suffice |
| `JsTreeOps.PiecesFlat` | shared/json/jstree.c:586-618 | the strings tree2js hands to snprintf, one after the other, are the printed text |
| `JsTreeOps.InsertString` | shared/json/jstree.c:477-491 | one snprintf: nothing at length 0, text and terminator if they fit, cut and terminated if not, and all of it at a negative length; the length returned is that of the text either way |
| `JsTreeOps.InsertTree` | shared/json/jstree.c:461-475 | a missing node prints as nothing; any other as tree2js does |
| `JsTreeOps.InsertMember` | shared/json/jstree.c:506-522 | a line is indentation, key, colon, value, comma unless last, and end of line, each piece with the length the ones before it left |
| `JsTreeOps.InsertItem` | shared/json/jstree.c:553-567 | the same of an item |
| `JsTreeOps.WalkObject` | shared/json/jstree.c:493-537 | the loop prints all members in order between its braces, and returns the length of what it printed, whatever the buffer |
| `JsTreeOps.WalkArray` | shared/json/jstree.c:540-583 | the same of an array |
| `JsTreeOps.Tree2js` | shared/json/jstree.c:586-618 | memory and length afterwards are those of the pieces of the tree printed one by one |
| `JsTreeOps.EmitText` | shared/json/jstree.c:477-583 | with room for a byte, any pieces together leave at the pointer what one snprintf of the whole text would: the text cut to the length, and a terminator |
| `JsTreeOps.EmitAround` | shared/json/jstree.c:477-583 | nothing is written in front of the pointer, nor behind the place of the terminator of the whole text |
| `JsTreeOps.EmitWithin` | shared/json/jstree.c:477-583 | nothing is written behind the length given if the last piece starts no later than its end |
| `JsTreeOps.EmitBeyond` | shared/json/jstree.c:477-583 | else the terminator is written behind it, at the end of the whole text |
| `JsTreeOps.Buffer` | shared/json/jstree.c:586-618 | for every tree, memory and length: text cut to the length and terminated; memory behind the length is left alone if and only if the tree is a leaf or the length is at least that of the text less one |
| `JsTreeOps.BufferFits` | shared/json/jstree.c:586-618 | a buffer longer than the text gets exactly the text and its terminator, and nothing else changes |
| `JsTreeOps.SmallBufferOverrun` | shared/json/jstree.c:493-537 | an empty object printed into a buffer of one byte writes the third and fourth |
| `JsTreeOps.Tree2json` | shared/json/jstree.c:620-631 | without a buffer, the size that one needs; with one, the length of the text; what `Buffer` and `BufferFits` say of the memory |
| `JsTreeOps.Js2tree` | shared/json/jstree.c:327-384 | the node at a token and the number of tokens it took, those of `Build` |
| `JsTreeOps.ReadObject` | shared/json/jstree.c:351-367 | the loop links as many key and value pairs as the size says, in order |
| `JsTreeOps.ReadArray` | shared/json/jstree.c:368-381 | the loop links as many items as the size says, in order |
| `JsTreeOps.Reload` | daemon/vcom_load_sslcfg.h:65-82 | ask for the size, print into a buffer of that size, load with the doubling array, rebuild: the same tree, for every well-formed tree |
| `JsTreeOps.TextSurvives` | shared/json/jstree.c:11-174 | any text without NUL survives encoding, printing, tokenizing, rebuilding and decoding |
| `JsString.StringEncode` | shared/json/jstree.c:11-49 | the size pass returns the encoded length; the fill pass writes that text, or fails exactly when the buffer is not one larger than text and terminator; nothing beyond is touched |
| `JsString.StringDecode` | shared/json/jstree.c:64-174 | the length returned, or the error, is that of the text alone, whatever the buffer and `outlen`; the memory afterwards is that of `Fill`, which guards escapes and not plain characters |
| `JsString.FillFits` | shared/json/jstree.c:64-174 | a buffer that holds the decoded text gets exactly that text, and nothing else changes |
| `JsString.OutlenKept` | shared/json/jstree.c:72-78 | memory at or behind `outlen` is left alone, whatever it holds, if and only if `outlen` is 0 or no plain character comes to stand there; for every text, decodable or not |
| `JsString.DecodeWithin` | shared/json/jstree.c:64-174 | for text that decodes and is not cut in an escape, that is if and only if `outlen` is 0 or exceeds the result of the size pass |
| `JsString.PlainTextPassesBound` | shared/json/jstree.c:72-78 | two plain characters with a bound of one are stored with their terminator behind it |
| `JsString.DecodeInvertsEncode` | shared/json/jstree.c:11-174 | decoding what was encoded gives the text and its terminator back, for every text without NUL |
| `JsString.DecodeAccepted` | shared/json/jsmn.c:84-146 | a string the tokenizer accepts decodes exactly when it has no escaped solidus, and then fits the size pass |
| `JsString.DecodesExactly` | shared/json/jstree.c:64-174 | a text decodes without error if and only if each reverse solidus is followed by one of seven characters, by code point, or by a u and four more characters, the terminator included |
| `JsString.HexByCode` | shared/json/jstree.c:50-62 | digits of either case have their value, anything else counts as 0 |
| `JsString.SolidusRefused` | shared/json/jstree.c:64-174 | an escaped solidus is accepted by the tokenizer and refused by the decoder |
| `JsString.EncodedAccepted` | shared/json/jsmn.c:84-146 | encoded text is accepted by the tokenizer as one string |
| `JsString.CutEscapeLosesTerminator` | shared/json/jstree.c:129-166 | an input whose cut escape is not reported and swallows the terminator |
| `JsString.TerminatedUnlessCut` | shared/json/jstree.c:64-174 | decoded text is terminated exactly when the text does not end in such a cut escape |
| `JsUtf8.ReadBytes` | shared/json/jstree.c:129-166 | the bytes of any code point, by RFC 3629, read back as it, unless it is a surrogate |
| `JsUtf8.DecodePiece` | shared/json/jstree.c:64-174 | a code point as itself, a simple escape or a four-digit escape decodes to the bytes of the code point that section 7 of RFC 8259 gives it |
| `JsUtf8.DecodedTextReads` | shared/json/jstree.c:64-174 | a mixed text of code points, simple and four-digit escapes, decoded, reads as exactly the code points section 7 of RFC 8259 gives them if and only if no escape is a surrogate |
| `JsUtf8.TextAccepted` | shared/json/jsmn.c:84-146 | the tokenizer reads any such text as one string, unless a quote stands in it as itself |
| `JsUtf8.SurrogateUnreadable` | shared/json/jstree.c:129-166 | a surrogate escape whose bytes are not UTF-8 |
| `Ring.Length` | driver/advvcom.h:104-107 | the length leads from head to tail and is below the size |
| `Ring.RoomIsExact` | driver/advvcom.h:117-120 | the tail can move by `k` with the length growing by exactly `k` if and only if `k` is at most the room |
| `Ring.WindowPieces` | driver/advvcom.h:109-127 | a stretch of a ring is one piece of memory, or two split at its end |
| `Ring.CopyOut` | daemon/state_mach/vc_client_common.c:87-96 | the copy out of the memory of a ring, in one piece or two, is the stretch of the ring |
| `Ring.RingBuf.MoveHead` | driver/advvcom.h:76-87 | drops bytes off the front of the queue, or all of it when a clean is pending |
| `Ring.RingBuf.MoveTail` | driver/advvcom.h:89-95 | the bytes behind the tail join the queue in order |
| `Ring.RingBuf.Append` | driver/adv_uart.c:227-243 | a copy up to the end of the memory is a queue append |
| `Uart.Xmit` | driver/adv_uart.c:212-245 | moves exactly min(pending, room) bytes, in order, from the transmit buffer to the ring |
| `Uart.RoundDone` | driver/legacy/uart/adv_uart_xmit.h:15-55 | each round uses up one of at most three: one, and one for each memory whose end is passed |
| `Uart.XmitLegacy` | driver/legacy/uart/adv_uart_xmit.h:4-55 | within three rounds moves the same bytes as the unbounded loop |
| `Uart.RecvChars` | driver/adv_uart.c:152-210 | none is handed to a throttled tty or from a disabled ring; else exactly the first min(waiting, space) bytes, in order, within three rounds |
| `Proto.Encode` | daemon/protocol/vcom_proto.h:117-124 | every frame is twenty bytes and its extension |
| `Proto.PackOpen` | daemon/protocol/vcom_proto_cmd.h:159-187 | a valid CREATE frame that fits its buffer |
| `Proto.PackClose` | daemon/protocol/vcom_proto_cmd.h:33-59 | a valid CLOSE frame that fits its buffer |
| `Proto.PackQueueFree` | daemon/protocol/vcom_proto_cmd.h:4-31 | a valid QUEUEFREE frame that fits its buffer |
| `Proto.PackXmit` | daemon/protocol/vcom_proto_cmd.h:61-92 | a valid WRITE frame with the data as extension that fits its buffer |
| `Proto.PackIoctl` | daemon/protocol/vcom_proto_ioctl.h:94-121 | a valid IOCTL frame that fits its buffer |
| `Proto.CutFrame` | daemon/vcom_client.c:164-226 | a frame is cut off only whole, and is valid |
| `Proto.CutEncoded` | daemon/vcom_client.c:164-226 | the receive rule cuts a packed frame off whatever follows it |
| `Proto.CutAllEncoded` | daemon/vcom_client.c:164-226 | any concatenation of frames splits back into the same frames |
| `Wire.FrameBytes` | daemon/protocol/vcom_proto.h:40-47 | a frame is the letters MADA, id, command, length of the extension, two parameters and the extension, each number high byte first |
| `Wire.OpenBytes` | daemon/protocol/vcom_proto_cmd.h:159-187 | CREATE is command 0, id 1, the device id in the high half of the first parameter, the port in the second |
| `Wire.CloseBytes` | daemon/protocol/vcom_proto_cmd.h:33-59 | CLOSE is command 2 with both parameters 0 |
| `Wire.WindowBytes` | daemon/protocol/vcom_proto_cmd.h:4-31 | QUEUEFREE is command 0x0900 with the window in the second parameter |
| `Wire.WriteBytes` | daemon/protocol/vcom_proto_cmd.h:61-92 | WRITE is command 4 with the length in the first parameter and the data behind the second |
| `Wire.IoctlBytes` | daemon/protocol/vcom_proto_ioctl.h:94-121 | IOCTL is command 0x0E with the subcommand in the first parameter |
| `Wire.BaudBytes` | daemon/protocol/vcom_proto_ioctl.h:63-92 | subcommand 1 with the rate low byte first |
| `Wire.LineBytes` | daemon/protocol/vcom_proto_ioctl.h:247-277 | subcommand 3 with stop bits, parity and data bits in this order |
| `Wire.FlowBytes` | daemon/protocol/vcom_proto_ioctl.h:154-186 | subcommand 0x19 with the two words of each mode byte by byte, then 512, then four bytes never set |
| `Wire.CommandBytes` | daemon/protocol/vcom_proto_ioctl.h:123-151 | the subcommands of the modem lines, of the sign of life, of waiting for events and of the purge with its mask |
| `Wire.EventBytes` | daemon/state_mach/vc_client_sync.c:103-147 | the event mask is set to 0x38010000 and the modem status asked for |
| `Wire.OpeningBytes` | daemon/state_mach/vc_client_sync.c:206-236 | the bytes a device sees from the beginning of a connection: CREATE, RTS and DTR as the attributes say, both event frames, the window |
| `Wire.CutByBytes` | daemon/vcom_client.c:164-226 | a frame is taken off a stream if and only if twenty bytes are there, the eleventh and twelfth announce at most 4076 and as many follow; its fields are those bytes |
| `Link.InOrderGrows` | daemon/state_mach/vc_client_common.c:61-114 | bytes put in the ring later do not disturb the order of what was sent |
| `Link.AckedIsPrefix` | daemon/state_mach/vc_client_common.c:393-412 | acknowledged and outstanding data are the beginning of the outgoing stream: nothing skipped, repeated or reordered; an acknowledgement is a WRITE reply with status 0 that names the length |
| `Link.ReleasesAreAcked` | daemon/state_mach/vc_client_common.c:393-412 | the steps in which bytes were released add up to the bytes acknowledged |
| `Link.LawfulGrows` | daemon/state_mach/vc_client_common.c:61-114 | later bytes disturb none of the connections of a run |
| `Link.PastIsPrefix` | daemon/state_mach/vc_client_common.c:393-412 | in every connection of a run, acknowledged and outstanding data are the stream from where the connections before it left off |
| `Link.IdsUnique` | daemon/state_mach/vc_client_common.c:116-165 | frames after CREATE have increasing ids: two share one only across a wrap of 32 bits |
| `Link.DeviceFromBytes` | daemon/vcom_client.c:164-226 | a device that cuts the byte stream and applies the frames has the settings the log says |
| `Link.BaudArrives` | daemon/protocol/vcom_proto_ioctl.h:63-92 | the device reads the baud rate that was packed, modulo 32 bits |
| `Link.LineArrives` | daemon/protocol/vcom_proto_ioctl.h:247-277 | the device reads parity, data and stop bits each from its own byte |
| `Link.FlowArrives` | daemon/protocol/vcom_proto_ioctl.h:154-186 | the device, which reads the mode off single bits of the two words, gets XON/XOFF for mode 1, RTS/CTS for mode 2 and none for any other, whatever the word never set holds |
| `Link.ModemArrives` | daemon/protocol/vcom_proto_ioctl.h:128-146 | each of the four frames sets one line to one value |
| `Link.ModemFramesArrive` | daemon/state_mach/vc_client_common.c:116-165 | sending only the lines that differ brings the device to both, with ids in order |
| `Link.MirroredIsTold` | daemon/state_mach/vc_client_common.c:186-258 | a device that mirrors a shadow equal to attributes was told their baud rate, line control, flow control and modem lines, apart from values no open port has |
| `Link.SettingsCarryNoData` | daemon/state_mach/vc_client_common.c:186-258 | settings leave both data streams and the WRITEs sent as they were |
| `Driver.PortAtt.Flush` | driver/advvcom.h:61-74 | the other slot is written, becomes current and equals the attributes; the slot read until then is untouched |
| `Driver.PortAtt.Change` | driver/adv_uart.c:319-371 | a change is a new instant; it counts as known to the daemon only if it leaves the poll bit down |
| `Driver.ChangeIsSignalled` | driver/adv_main.c:224-237 | a change since the last flush raises the poll bit exactly unless the port was closed then and is closed now |
| `Driver.ClosedChangeIsSilent` | driver/adv_main.c:224-237 | a closed port whose attributes change after a flush with the poll bit down |
| `Driver.Vcom.PumpOut` | driver/adv_uart.c:33-58 | keeps both streams conserved, and moves min(pending, room) bytes exactly when it may |
| `Driver.Vcom.PumpIn` | driver/adv_uart.c:152-210 | the tty is handed exactly the first min(waiting, space) bytes if the ring is enabled and the tty not throttled, else none; the rest stays |
| `Driver.Vcom.Pump` | driver/adv_uart.c:33-58 | sending and receiving do to the rings what they do to queues |
| `Driver.Vcom.UserWrites` | driver/adv_uart.c:212-245 | a byte written to the tty joins the transmit buffer, if it has room |
| `Driver.Vcom.Configure` | driver/adv_uart.c:319-371 | attributes and flags change and no queue does |
| `Driver.Vcom.KernelStep` | driver/adv_uart.c:114-245 | every step of the kernel does to rings, attributes and flags exactly what the abstract step does to queues, and conserves both streams |
| `Driver.Vcom.KernelRuns` | driver/adv_main.c:256-265 | however long the kernel runs, the rings are those of the abstract kernel run on queues; it only appends to the outgoing queue, only hands on from the incoming one, and leaves what the daemon owns: outgoing head and record of removals, incoming tail, attribute slots, bytes behind the tail |
| `Driver.Vcom.SetRxHead` | driver/adv_main.c:136-141 | exactly the given number of bytes is released off the outgoing queue, or all of it cleared on a pending clean, and the step is recorded |
| `Driver.Vcom.Stage` | daemon/state_mach/vc_client_common.c:379-386 | bytes written behind the tail change no unread byte |
| `Driver.Vcom.SetTxTail` | driver/adv_main.c:128-135 | what was staged is accepted, exactly once and in order, and of all that waits the tty is handed exactly what it has space for |
| `Driver.Vcom.Clear` | driver/adv_main.c:267-281 | the outgoing ring is marked, the incoming one emptied and marked as such; its clean flag never stays set |
| `Driver.Vcom.FlushAttr` | driver/adv_main.c:147-152 | the slot the daemon is told holds the attributes of that instant, and the poll bit is down |
| `Driver.Vcom.PollBits` | driver/adv_main.c:209-226 | POLLIN is up if and only if the outgoing ring is enabled and not empty, POLLOUT if and only if the incoming one is enabled and empty and the tty not throttled |
| `Daemon.Port.constructor` | daemon/vcom_client.c:414-427 | the daemon starts at rest, without a connection |
| `Daemon.Port.Interfere` | driver/adv_main.c:80-141 | the kernel never invalidates the daemon's view of either ring, the bytes it has outstanding or the account of what left the ring |
| `Daemon.Port.Beside` | driver/adv_main.c:80-141 | the same of any given steps, after which the queues are those the abstract kernel reaches by these steps |
| `Daemon.Port.UpdateRx` | daemon/vcom.h:419-463 | read in two ioctls, the cached outgoing ring has the true head, holds all that was there before and no more than is there now |
| `Daemon.Port.SnapRx` | daemon/vcom.h:419-463 | for any kernel steps before and between the two ioctls the cached length is exactly that of the outgoing queue when the tail was read |
| `Daemon.Port.UpdateTx` | daemon/vcom.h:419-463 | read in two ioctls, the cached incoming ring has the true tail, no more room than there is and no less than there was |
| `Daemon.Port.SnapTx` | daemon/vcom.h:419-463 | for any kernel steps before and between the two ioctls the cached length is exactly that of the incoming queue when the head was read |
| `Daemon.Port.UpdateAttr` | daemon/vcom.h:438-442 | the attributes read are those of one instant |
| `Daemon.Port.ClearRings` | daemon/vcom.h:465-482 | one clear with all that was in the outgoing queue; the incoming queue is empty if asked, and so is its view, and else untouched; both views are fresh |
| `Daemon.Port.Wipe` | daemon/vcom.h:465-482 | mark and move, with the kernel running in between, are one removal of all that was queued |
| `Daemon.Port.Push` | daemon/vcom.h:163-177 | pushes, or fails on a full stack and changes nothing |
| `Daemon.Port.Pop` | daemon/vcom.h:179-192 | pops, or fails on an empty stack |
| `Daemon.Port.Excp` | daemon/vcom.h:198-224 | back to the bottom; fails exactly when there already |
| `Daemon.Port.Replace` | daemon/vcom.h:226-235 | only the top changes |
| `Daemon.Port.Transmit` | daemon/vcom.h:382-414 | the frames in the buffer join what the socket took, all of them, or the failure is counted and none does |
| `Daemon.Port.Send` | daemon/vcom.h:382-414 | a frame that carries no data is handed to the socket whole under the current id, is logged and the id moves on, or the failure is counted and log, wire and id stay |
| `Daemon.Port.SendMs` | daemon/state_mach/vc_client_common.c:237-254 | the modem frames are handed to the socket together with ids in order, and the id moves on once more, or none is |
| `Daemon.Port.Init` | daemon/state_mach/vc_client_sync.c:206-236 | every init ends at rest, and Net Down's in a clean state |
| `Daemon.Port.NetDownInit` | daemon/state_mach/vc_client_netdown.c:341-361 | no socket, no pending data, id 0 and unset shadow; the connection joins the history; no byte leaves a ring |
| `Daemon.Port.Fault` | daemon/vcom.h:198-224 | an exception is never raised at the bottom; a reset takes no byte off either ring |
| `Daemon.Port.OnlineInit` | daemon/state_mach/vc_client_netup.c:62-68 | both views are refreshed, with all that was queued and no less room than there was; the connection stays as it was |
| `Daemon.Port.IdleInit` | daemon/state_mach/vc_client_idle.c:76-103 | asks for a sign of life with one frame; reset exactly when the send fails |
| `Daemon.Port.SendLine` | daemon/state_mach/vc_client_sync.c:49-100 | one modem line of the device is set or cleared by one frame, and nothing else of it |
| `Daemon.Port.SyncMs` | daemon/state_mach/vc_client_sync.c:49-100 | both modem lines are sent, in this order, and the device has them |
| `Daemon.Port.Ask` | daemon/state_mach/vc_client_sync.c:103-171 | a subcommand that sets nothing goes out as one frame and leaves settings and window |
| `Daemon.Port.SyncEvent` | daemon/state_mach/vc_client_sync.c:103-147 | the two event frames are sent in order; settings and window stay |
| `Daemon.Port.SyncQueue` | daemon/state_mach/vc_client_sync.c:173-203 | the window told is 1024 on an empty cached ring and 0 otherwise |
| `Daemon.Port.SyncAll` | daemon/state_mach/vc_client_sync.c:214-233 | five frames in fixed order and nothing else |
| `Daemon.Port.SyncInit` | daemon/state_mach/vc_client_sync.c:206-236 | window, modem lines and shadow agree with stack and attributes; reset exactly when a send fails |
| `Daemon.Port.SyncDone` | daemon/state_mach/vc_client_sync.c:280-282 | the state below is resumed, connected, with both rings looked at again and nothing sent |
| `Daemon.Port.Open` | daemon/vcom_client.c:445-451 | called only in Net Down or just connected; a connection that comes up has sent CREATE and the five synchronizing frames with ids 1 to 5, and nothing else; only a failed connect takes anything off the outgoing ring |
| `Daemon.Port.GreetingBytes` | daemon/state_mach/vc_client_sync.c:206-236 | the bytes on the wire once a connection has come up, with device id, port, modem lines and window |
| `Daemon.Port.NetDownOpen` | daemon/state_mach/vc_client_netdown.c:285-338 | connected and synchronized exactly when nothing fails; a failed connect clears the whole outgoing ring, a successful one takes nothing off it |
| `Daemon.Port.BeginConnection` | daemon/state_mach/vc_client_netdown.c:332-337 | the first state is Net Up on an empty cached incoming ring, else Pause |
| `Daemon.Port.CommonOpen` | daemon/state_mach/vc_client_common.c:26-59 | CREATE and the synchronizing frames go out, and nothing else; reset exactly when a send fails |
| `Daemon.Port.CommonPurge` | daemon/state_mach/vc_client_common.c:424-445 | one PURGE frame unless the send fails; ids stay in order either way |
| `Daemon.Port.Close` | daemon/state_mach/vc_client_netup.c:47-53 | from any connected state: one clear with all that was queued, the incoming queue empty, the port down, and unless a send failed PURGE and CLOSE the last frames of the connection |
| `Daemon.Port.Leave` | daemon/state_mach/vc_client_common.c:424-477 | PURGE and CLOSE are the last frames of a connection unless a send fails; no byte leaves a ring |
| `Daemon.Port.CommonClose` | daemon/state_mach/vc_client_common.c:447-477 | down, whether or not CLOSE was sent, with no byte off either ring; CLOSE is the last frame unless the send fails |
| `Daemon.Port.SwitchWindow` | daemon/state_mach/vc_client_netup.c:80-117 | window and state change together, for pause and resume alike, both rings are looked at again, and the shadow stays; reset exactly when the send fails |
| `Daemon.Port.Poll` | daemon/state_mach/vc_client_idle.c:47-63 | the first silence leads to Idle and takes nothing off the ring, the second takes the connection down and clears the whole outgoing ring |
| `Daemon.Port.ReadOutgoing` | daemon/state_mach/vc_client_common.c:87-96 | the copy, wrapped or not, is the front of the queue the tty filled |
| `Daemon.Port.Gather` | daemon/state_mach/vc_client_common.c:67-96 | the payload is the front of the queue as cached, at most 1024 bytes, wrapped or not |
| `Daemon.Port.SendWrite` | daemon/state_mach/vc_client_common.c:98-113 | the payload joins the record of WRITEs and is outstanding, or the send failed and it is neither |
| `Daemon.Port.Xmit` | daemon/state_mach/vc_client_common.c:61-114 | with none outstanding, exactly the first min(length, 1024) bytes of the cached queue join the record of WRITEs and stay in the ring; reset exactly when the send fails |
| `Daemon.Port.SetBaud` | daemon/state_mach/vc_client_common.c:201-205 | shadow and device both take the new rate |
| `Daemon.Port.SetLine` | daemon/state_mach/vc_client_common.c:206-217 | shadow and device both take parity, stop and data bits |
| `Daemon.Port.SetFlow` | daemon/state_mach/vc_client_common.c:218-235 | shadow and device both take the flow-control mode, as the device reads it |
| `Daemon.Port.SetMs` | daemon/state_mach/vc_client_common.c:116-165 | the frames for exactly the lines that differ, with consecutive ids |
| `Daemon.Port.SetModem` | daemon/state_mach/vc_client_common.c:237-241 | shadow and device both take the modem lines; nothing sent still counts as done |
| `Daemon.Port.OneSetting` | daemon/state_mach/vc_client_common.c:199-241 | the first group of settings that differs is brought to device and shadow; nothing is sent exactly when all agree or only other modem bits differ |
| `Daemon.Port.CommonIoctl` | daemon/state_mach/vc_client_common.c:186-258 | a pass without send errors ends with all six line settings of the shadow equal to the attributes and the device told them, after at most four sends, at least eleven of fifteen rounds left; with one, in a reset |
| `Daemon.Port.Recv` | daemon/state_mach/vc_client_common.c:318-421 | data is accepted whole or not at all; only an acknowledged WRITE leaves the outgoing queue, and exactly that; the answers sent are those the reply calls for; the connection is reset exactly when the frame is refused or an answer cannot be sent |
| `Daemon.Port.IdleRecv` | daemon/state_mach/vc_client_idle.c:65-73 | any frame ends Idle and is handled by the state below |
| `Daemon.Port.CommonRecv` | daemon/state_mach/vc_client_common.c:318-421 | the same of Net Up and Pause |
| `Daemon.Port.CheckIoctl` | daemon/state_mach/vc_client_common.c:264-316 | refuses exactly the replies without success; three kinds are answered in Sync, which is left again, the others not at all |
| `Daemon.Port.SyncRecv` | daemon/state_mach/vc_client_sync.c:238-283 | the answer the reply calls for goes out and Sync is left; reset exactly when a send or the modem ioctl fails |
| `Daemon.Port.Reply` | daemon/state_mach/vc_client_sync.c:238-283 | subcommand 0x12 is answered with both event frames, 0x11 with the request to wait, others with nothing |
| `Daemon.Port.TakeData` | daemon/state_mach/vc_client_common.c:360-392 | a payload with status 0 and its own length in the second parameter that fits the cached ring is accepted, any other resets and is not |
| `Daemon.Port.Copy` | daemon/state_mach/vc_client_common.c:379-386 | one piece or two, with the kernel running in between, the payload stands behind the tail and no unread byte is touched |
| `Daemon.Port.Deposit` | daemon/state_mach/vc_client_common.c:379-390 | exactly the payload joins the accepted stream |
| `Daemon.Port.TakeReply` | daemon/state_mach/vc_client_common.c:393-412 | status 0 with the length of the outstanding bytes removes them, status 0x80000011 with it removes nothing, anything else resets |
| `Daemon.Port.TakeSuccess` | daemon/state_mach/vc_client_common.c:399-403 | a success releases exactly the outstanding bytes |
| `Daemon.Port.TakeBusy` | daemon/state_mach/vc_client_common.c:404-405 | a busy reply releases nothing and leaves none outstanding |
| `Daemon.Port.MoveHead` | daemon/state_mach/vc_client_common.c:399-403 | what leaves the ring is what the device acknowledged, as one step |
| `Daemon.Port.RecvDesp` | daemon/vcom_client.c:153-227 | bytes that make no frame reset the connection; a whole frame with command 0x0800, status 0, its own length and room in the true ring is always accepted, one with another status or length always resets; refused replies always reset, and both streams change by exactly what the frame says |
| `Daemon.Port.Resting` | daemon/vcom_client.c:445-451 | five stacks; socket, depth of the stack and open flag are equivalent; pending data means connected |
| `Daemon.Port.AttributesSeen` | daemon/vcom_client.c:511-513 | in every run the attributes the daemon goes by are those of one instant, the last flush, and whatever they became since is signalled, exactly unless the port is closed and was so then |
| `Daemon.Port.FollowOpen` | daemon/vcom_client.c:445-451 | open is called only in Net Down and close only when connected; without a failure, connected exactly when the tty is open; the outgoing ring is cleared exactly by a close or a failed connect, and else nothing leaves it |
| `Daemon.Port.Serve` | daemon/vcom_client.c:453-470 | from Net Up and Pause alike: all six line settings reach shadow and device, data goes out exactly when some is cached and none outstanding, and is the front of the queue, and Net Up is left for Pause exactly on a non-empty cached incoming ring; nothing leaves a ring; reset exactly when a send fails |
| `Daemon.Port.Feed` | daemon/vcom_client.c:456-470 | the same of data and window |
| `Daemon.Port.Prepare` | daemon/vcom_client.c:445-470 | the same of the whole head of the loop, opening and closing included; Idle sends nothing; in Net Up the cached incoming ring is empty and no outgoing data is left unsent |
| `Daemon.Port.Listen` | daemon/vcom_client.c:515-553 | a readable socket is read, with the effect of `RecvDesp`; silence resets exactly when it lasted too long and takes nothing off a ring; a connection that stays up keeps its settings and, Idle aside, its state |
| `Daemon.Port.SeeAttr` | daemon/vcom_client.c:511-513 | afterwards there was an instant in the round at which the daemon had nothing to be told |
| `Daemon.Port.Refresh` | daemon/vcom_client.c:555-562 | the polls of the rings lose no byte and, if readable, all that was queued is cached; Pause is left exactly on a writable poll, settings stay; reset exactly when a send fails |
| `Daemon.Port.Select` | daemon/vcom_client.c:473-509 | the poll bits are those of the queues at one instant: outgoing bytes wait, the incoming queue is empty and the tty takes bytes, and the rings are enabled |
| `Daemon.Port.Attend` | daemon/vcom_client.c:473-563 | what follows a select: the effect of a frame, of the poll bits for the state the daemon is in, and of changed attributes; Pause is left exactly on a writable poll |
| `Daemon.Port.Iterate` | daemon/vcom_client.c:431-563 | every round goes from rest to rest; at most one removal, the WRITE whose success named its length or a whole clear that ends a connection; at most one good payload accepted, and always one that fits; without a failure a first timeout leads to Idle and a second takes the connection down; a round without input leaves a connection exactly when the tty is open and the watchdog did not expire; no attribute change is missed in a round without timeout; a connection that is up was told, and its shadow has, the settings of the attributes at the start; without a failure the WRITEs of a round are exactly the front of the queue if it was due, and none else; Net Up or Pause afterwards is decided by the state, the cached incoming ring and the poll bit, which is set only after an instant at which the incoming ring was empty; a readable poll leaves all that was queued in the cache |
| `Daemon.Port.Run` | daemon/vcom_client.c:431-563 | every run, of any length and any inputs, beside any kernel and any device, stays at rest between events; its history only grows, no removal or acceptance is taken back, and a run that ends in a round without timeout saw an instant with nothing to be told of the attributes |
| `Daemon.Port.Accounted` | daemon/vcom_client.c:431-563 | of the whole run: what was put in the outgoing ring is what left it and what waits; each removal is the WRITE outstanding when a success that named its length came in, in one of the connections, or a clear; what entered the incoming ring is the payloads received, connection after connection; the WRITEs sent are those in the logs; each connection sent the stream in order from where the one before it left off |
| `Daemon.Port.Connected` | daemon/vcom_client.c:431-563 | in every connected state at rest: the stream since the connection began is what was acknowledged and what waits; the outstanding WRITE is its front; of what the device sent nothing was cleared, so the tty was handed it or it waits; ids are in order; no send failed; the frames of the log are those the socket took; the bytes on the wire, cut and read by the device, tell it the shadow's settings; the window is 1024 in Net Up and 0 in Pause |

## Left out

- TLS: a transport is a byte stream whose sends and receives succeed or fail.
- vc_connect and the list of addresses: a connect succeeds or fails.
- The serial core, termios and memory mapping; a flush of the transmit buffer by the serial core is not among the kernel's steps.
- When the kernel runs, and whether a connect, a send or a receive succeeds, is chosen freely in `Daemon.Port.Interfere`, `Daemon.Port.Transmit` and their like.
- The tty takes bytes as long as it has space, which does not grow within one call of adv_uart_recv_chars.
- Startup and shutdown of a tty are arbitrary changes of the attributes, the enabled flags and the throttle flag.
- ADVVCOM_IOCSMCTRL: the modem status it hands to the tty; that it may fail, and the daemon's answer, are modelled.
- Ring ioctls that fail: the source only prints a message.
- Monitor, logs, the sleep after an exception and the arithmetic of the receive watchdog; the watchdog may expire at any time.
- The static receive buffer of vc_recv_desp, which keeps bytes of earlier frames; a frame is a value.
- Packer errors on short buffers: the buffers of the callers are always large enough, which `Proto.Packed` states.
- initd, advps, proc_tools, inotify, scripts and keys.
- jsmn with a null token array, JSMN_STRICT and JSMN_PARENT_LINKS; text lengths and counts are unbounded integers.
- snprintf with a size above INT_MAX, which is what a negative length becomes, is taken to print without a bound; text lengths stay below INT_MAX.
- jstree_read, dump, dumptree and the freeing of trees.
- Daemon.Port.Send: does not record how much of a frame a failed send left on the wire; `Daemon.Port.Connected` states that on a connection that is up none failed.
- Daemon.Port.SendMs: the same of its two frames.
- JsTreeOps.Js2tree: nodes are values, so it does not capture that the source links them in place; the count argument, which the source lets exceed the tokens left, is the exact number of them, which makes no difference on tokens of well-formed text.
- JsTreeOps.ReadObject: the same.
- JsTreeOps.ReadArray: the same.
- JsTree.RoundTrip: the text of string nodes must be readable by the tokenizer up to its closing quote, and that of primitives must have no separator.
- Daemon.Port.Iterate: does not state liveness; whether silence, sends and timers ever change is left open.
