/**
 What one connection amounts to for the device at its other end. The log of a connection
 lists the frames the daemon sent and the frames it took in; everything the device knows,
 its line settings, the window it may fill, the data it acknowledged, is a function of it.

 The device reads commands, subcommands, status words and settings by their numbers, which are
 written out here; the daemon's packers and checks in `Proto` do not come into it.
 */
module Link {
  import opened Ring
  import opened Proto

  /** `serial` is the transaction counter of the daemon before it is cut to 32 bits. */
  datatype Event = Sent(serial: nat, f: Frame) | Got(f: Frame)

  datatype Log = Empty | Then(prev: Log, e: Event)

  datatype Option<T> = None | Some(value: T)

  // ---------------------------------------------------------------- frames by their numbers

  predicate IsCreate(f: Frame) {
    f.cmd == 0x0000
  }

  predicate IsWrite(f: Frame) {
    f.cmd == 0x0004
  }

  predicate IsIoctl(f: Frame) {
    f.cmd == 0x000E
  }

  predicate IsData(f: Frame) {
    f.cmd == 0x0800
  }

  predicate IsWindow(f: Frame) {
    f.cmd == 0x0900
  }

  /** A reply that belongs to the protocol and has no extension. */
  predicate IsReply(f: Frame, status: nat, value: nat) {
    f.pid == 0x4D414441 && f.ext == [] && f.p1 == status && f.p2 == value
  }

  /** The port was opened. */
  predicate Grants(f: Frame, port: nat) {
    IsCreate(f) && IsReply(f, 0, port)
  }

  /** `n` bytes were taken. */
  predicate Acknowledges(f: Frame, n: nat) {
    IsWrite(f) && IsReply(f, 0, n)
  }

  /** The same bytes have to come again. */
  predicate Postpones(f: Frame, n: nat) {
    IsWrite(f) && IsReply(f, 0x80000011, n)
  }

  /** Good data: a success that names the length of its extension. */
  predicate Carries(f: Frame) {
    IsData(f) && f.p1 == 0 && f.p2 == |f.ext|
  }

  // ---------------------------------------------------------------- device settings

  datatype Line = Line(pair: nat, byte_: nat, stop: nat)

  datatype Flow = NoFlow | XonXoff | RtsCts

  /** Settings the device was never told are `None`. */
  datatype Device = Device(baud: Option<nat>, line: Option<Line>, flow: Option<Flow>,
                           rts: Option<bool>, dtr: Option<bool>)

  const BLANK := Device(None, None, None, None, None)

  /**
   The flow-control mode, by the flags of the two words: CTS handshake is bit 3 of the first, the
   use of RTS the two high bits of the first byte of the second, 2 for a handshake, and XON/XOFF
   for sending and receiving the two low bits of that byte.
   */
  function FlowRead(ext: seq<byte>): Flow
    requires |ext| >= 8
  {
    if ext[0] / 8 % 2 == 1 && ext[4] / 0x40 == 2 then RtsCts
    else if ext[4] % 4 == 3 then XonXoff
    else NoFlow
  }

  /** How the device takes a frame: subcommands for baud rate, line control, flow control, RTS and DTR. */
  function Apply(d: Device, f: Frame): Device {
    if !IsIoctl(f) then d
    else if f.p1 == 0x01 && |f.ext| == 4 then d.(baud := Some(GetLe32(f.ext)))
    else if f.p1 == 0x03 && |f.ext| == 3 then d.(line := Some(Line(f.ext[1], f.ext[2], f.ext[0])))
    else if f.p1 == 0x19 && |f.ext| == 16 then d.(flow := Some(FlowRead(f.ext)))
    else if f.p1 == 0x0C then d.(rts := Some(true))
    else if f.p1 == 0x0D then d.(rts := Some(false))
    else if f.p1 == 0x09 then d.(dtr := Some(true))
    else if f.p1 == 0x0A then d.(dtr := Some(false))
    else d
  }

  function DeviceOf(log: Log): Device {
    match log
    case Empty => BLANK
    case Then(prev, Sent(_, f)) => Apply(DeviceOf(prev), f)
    case Then(prev, Got(_)) => DeviceOf(prev)
  }

  // ---------------------------------------------------------------- flow-control window

  /** The value of the last QUEUEFREE frame sent. */
  function WindowOf(log: Log): Option<nat> {
    match log
    case Empty => None
    case Then(prev, Sent(_, f)) => if IsWindow(f) then Some(f.p2) else WindowOf(prev)
    case Then(prev, Got(_)) => WindowOf(prev)
  }

  // ---------------------------------------------------------------- data

  /** The payload of a WRITE frame not yet answered. */
  function Outstanding(log: Log): seq<byte> {
    match log
    case Empty => []
    case Then(prev, Sent(_, f)) => if IsWrite(f) then f.ext else Outstanding(prev)
    case Then(prev, Got(f)) => if IsWrite(f) then [] else Outstanding(prev)
  }

  /** All payloads answered with a success that names their length, in order. */
  function Acked(log: Log): seq<byte> {
    match log
    case Empty => []
    case Then(prev, Sent(_, _)) => Acked(prev)
    case Then(prev, Got(f)) =>
      if Acknowledges(f, |Outstanding(prev)|) then Acked(prev) + Outstanding(prev) else Acked(prev)
  }

  /** All payloads of well-formed DATAREADY frames, in order. */
  function Received(log: Log): seq<byte> {
    match log
    case Empty => []
    case Then(prev, Sent(_, _)) => Received(prev)
    case Then(prev, Got(f)) =>
      if Carries(f) then Received(prev) + f.ext else Received(prev)
  }

  /**
   Every WRITE frame was sent with none outstanding, and carried at most 1024 bytes of
   `stream`, namely those right after the ones acknowledged by then.
   */
  ghost predicate InOrder(log: Log, stream: seq<byte>) {
    match log
    case Empty => true
    case Then(prev, Got(_)) => InOrder(prev, stream)
    case Then(prev, Sent(_, f)) =>
      && InOrder(prev, stream)
      && (IsWrite(f) ==>
            && Outstanding(prev) == [] && 0 < |f.ext| == f.p1 <= 1024
            && Acked(prev) + f.ext <= stream)
  }

  lemma {:induction false} InOrderGrows(log: Log, stream: seq<byte>, longer: seq<byte>)
    requires InOrder(log, stream) && stream <= longer
    ensures InOrder(log, longer)
  {
    if log.Then? {
      InOrderGrows(log.prev, stream, longer);
    }
  }

  /** The data the device acknowledged is the beginning of the stream: nothing skipped, repeated or reordered. */
  lemma {:induction false} AckedIsPrefix(log: Log, stream: seq<byte>)
    requires InOrder(log, stream)
    ensures Acked(log) <= stream
    ensures Acked(log) + Outstanding(log) <= stream
  {
    if log.Then? {
      AckedIsPrefix(log.prev, stream);
    }
  }

  // ---------------------------------------------------------------- whole runs

  /** Bytes that leave a ring, in one step: acknowledged by the device, or cleared. */
  datatype Removal = Released(bytes: seq<byte>) | Cleared(bytes: seq<byte>)

  function BytesOf(rs: seq<Removal>): seq<byte> {
    if rs == [] then [] else BytesOf(rs[..|rs| - 1]) + rs[|rs| - 1].bytes
  }

  lemma BytesOfLast(rs: seq<Removal>, r: Removal)
    ensures BytesOf(rs + [r]) == BytesOf(rs) + r.bytes
  {
    assert (rs + [r])[..|rs|] == rs;
  }

  /** What the device released, one step for each success that names the length of the outstanding WRITE. */
  function Releases(log: Log): seq<Removal> {
    match log
    case Empty => []
    case Then(prev, Sent(_, _)) => Releases(prev)
    case Then(prev, Got(f)) =>
      if Acknowledges(f, |Outstanding(prev)|) then Releases(prev) + [Released(Outstanding(prev))]
      else Releases(prev)
  }

  lemma {:induction false} ReleasesAreAcked(rs: seq<Removal>, log: Log)
    ensures BytesOf(rs + Releases(log)) == BytesOf(rs) + Acked(log)
  {
    hide BytesOf, Acknowledges, Outstanding;
    if log == Empty {
      assert rs + [] == rs;
    } else {
      ReleasesAreAcked(rs, log.prev);
      if log.e.Got? && Acknowledges(log.e.f, |Outstanding(log.prev)|) {
        OneMore(rs, Releases(log.prev), Released(Outstanding(log.prev)));
      }
    }
  }

  lemma OneMore(rs: seq<Removal>, more: seq<Removal>, r: Removal)
    ensures BytesOf(rs + (more + [r])) == BytesOf(rs + more) + r.bytes
  {
    hide BytesOf;
    assert rs + (more + [r]) == (rs + more) + [r];
    BytesOfLast(rs + more, r);
  }

  /**
   The connections of a run that are over, and the clear, if any, that ended each. `before` is
   what had left the outgoing ring, and `accepted` what had joined the incoming one, when the
   daemon started.
   */
  datatype Past =
    | Start(before: seq<Removal>, accepted: seq<byte>)
    | Ended(prev: Past, log: Log, clear: Option<seq<byte>>)

  function ClearOf(clear: Option<seq<byte>>): seq<Removal> {
    match clear
    case None => []
    case Some(bytes) => [Cleared(bytes)]
  }

  /** Everything that left the outgoing ring up to the end of the last of them. */
  function RemovalsBy(past: Past): seq<Removal> {
    match past
    case Start(before, _) => before
    case Ended(prev, log, clear) => RemovalsBy(prev) + Releases(log) + ClearOf(clear)
  }

  /** Everything that joined the incoming ring up to the end of the last of them. */
  function AcceptedBy(past: Past): seq<byte> {
    match past
    case Start(_, accepted) => accepted
    case Ended(prev, log, _) => AcceptedBy(prev) + Received(log)
  }

  /** The payloads of all WRITE frames sent, in order. */
  function Writes(log: Log): seq<seq<byte>> {
    match log
    case Empty => []
    case Then(prev, Sent(_, f)) => if IsWrite(f) then Writes(prev) + [f.ext] else Writes(prev)
    case Then(prev, Got(_)) => Writes(prev)
  }

  function WritesBy(past: Past): seq<seq<byte>> {
    match past
    case Start(_, _) => []
    case Ended(prev, log, _) => WritesBy(prev) + Writes(log)
  }

  /** Where in the outgoing stream the next connection begins. */
  function Offset(past: Past): nat {
    |BytesOf(RemovalsBy(past))|
  }

  /** Each connection sent the stream in order, from where the one before it left off. */
  ghost predicate Lawful(past: Past, stream: seq<byte>) {
    match past
    case Start(_, _) => true
    case Ended(prev, log, _) =>
      Lawful(prev, stream) && Offset(prev) <= |stream| && InOrder(log, stream[Offset(prev)..])
  }

  lemma {:induction false} LawfulGrows(past: Past, stream: seq<byte>, longer: seq<byte>)
    requires Lawful(past, stream) && stream <= longer
    ensures Lawful(past, longer)
  {
    if past.Ended? {
      LawfulGrows(past.prev, stream, longer);
      InOrderGrows(past.log, stream[Offset(past.prev)..], longer[Offset(past.prev)..]);
    }
  }

  /** One history continues another. */
  predicate Continues(past: Past, earlier: Past) {
    past == earlier || (past.Ended? && Continues(past.prev, earlier))
  }

  /** The bytes a connection had acknowledged are the stream from its offset on, whatever came later. */
  lemma {:induction false} PastIsPrefix(past: Past, stream: seq<byte>, conn: Past)
    requires Lawful(past, stream) && Continues(past, conn) && conn.Ended?
    ensures Offset(conn.prev) <= |stream|
    ensures Acked(conn.log) + Outstanding(conn.log) <= stream[Offset(conn.prev)..]
  {
    if past == conn {
      AckedIsPrefix(conn.log, stream[Offset(conn.prev)..]);
    } else {
      PastIsPrefix(past.prev, stream, conn);
    }
  }

  // ---------------------------------------------------------------- transaction ids

  /**
   Frames are well-formed and, apart from CREATE, whose id is fixed, carry the low 32 bits of
   serials that strictly increase and stay below `bound`.
   */
  predicate Ordered(log: Log, bound: nat) {
    match log
    case Empty => true
    case Then(prev, Got(_)) => Ordered(prev, bound)
    case Then(prev, Sent(s, f)) =>
      ValidFrame(f) &&
      if IsCreate(f) then Ordered(prev, bound)
      else s < bound && f.tid == s % U32 && Ordered(prev, s)
  }

  /** The frames sent after CREATE, with their serials. */
  predicate Occurs(log: Log, s: nat, f: Frame) {
    log.Then? && ((log.e == Sent(s, f) && !IsCreate(f)) || Occurs(log.prev, s, f))
  }

  lemma {:induction false} OrderedBelow(log: Log, bound: nat, s: nat, f: Frame)
    requires Ordered(log, bound) && Occurs(log, s, f)
    ensures s < bound && f.tid == s % U32
  {
    if log.e.Got? || IsCreate(log.e.f) {
      OrderedBelow(log.prev, bound, s, f);
    } else if log.e != Sent(s, f) {
      OrderedBelow(log.prev, log.e.serial, s, f);
    }
  }

  lemma OrderedWeaken(log: Log, bound: nat, larger: nat)
    requires Ordered(log, bound) && bound <= larger
    ensures Ordered(log, larger)
  {
  }

  /** Two frames of one connection share an id only when a multiple of 2^32 serials lies between them. */
  lemma {:induction false} IdsUnique(log: Log, bound: nat, s: nat, f: Frame, t: nat, g: Frame)
    requires Ordered(log, bound) && Occurs(log, s, f) && Occurs(log, t, g)
    ensures f.tid == g.tid && -U32 < s - t < U32 ==> s == t
    ensures s == t ==> f == g
  {
    OrderedBelow(log, bound, s, f);
    OrderedBelow(log, bound, t, g);
    if log.e.Got? || IsCreate(log.e.f) {
      IdsUnique(log.prev, bound, s, f, t, g);
    } else {
      var here := log.e.serial;
      if log.e == Sent(s, f) && log.e != Sent(t, g) {
        OrderedBelow(log.prev, here, t, g);
      } else if log.e != Sent(s, f) && log.e == Sent(t, g) {
        OrderedBelow(log.prev, here, s, f);
      } else if log.e != Sent(s, f) {
        IdsUnique(log.prev, here, s, f, t, g);
      }
    }
    SameLowBits(s, t);
  }

  lemma SameLowBits(s: nat, t: nat)
    ensures s % U32 == t % U32 && -U32 < s - t < U32 ==> s == t
  {
    assert s == s / U32 * U32 + s % U32;
    assert t == t / U32 * U32 + t % U32;
  }

  // ---------------------------------------------------------------- the bytes on the wire

  function SentFrames(log: Log): seq<Frame> {
    match log
    case Empty => []
    case Then(prev, Sent(_, f)) => SentFrames(prev) + [f]
    case Then(prev, Got(_)) => SentFrames(prev)
  }

  function ApplyAll(d: Device, fs: seq<Frame>): Device
    decreases |fs|
  {
    if fs == [] then d else ApplyAll(Apply(d, fs[0]), fs[1..])
  }

  lemma {:induction false} ApplyLast(d: Device, fs: seq<Frame>, f: Frame)
    ensures ApplyAll(d, fs + [f]) == Apply(ApplyAll(d, fs), f)
    decreases |fs|
  {
    if fs == [] {
      assert fs + [f] == [f];
      assert ApplyAll(Apply(d, f), []) == Apply(d, f);
    } else {
      assert (fs + [f])[1..] == fs[1..] + [f];
      ApplyLast(Apply(d, fs[0]), fs[1..], f);
    }
  }

  /**
   A device that only sees the byte stream, cuts it into frames by the length field and
   applies them one by one, ends with the settings of the log.
   */
  lemma {:induction false} DeviceFromBytes(log: Log, bound: nat)
    requires Ordered(log, bound)
    ensures AllValid(SentFrames(log))
    ensures ApplyAll(BLANK, CutAll(EncodeAll(SentFrames(log))).frames) == DeviceOf(log)
  {
    SentAllValid(log, bound);
    CutAllEncoded(SentFrames(log));
    FoldIsLog(log);
  }

  lemma {:induction false} SentAllValid(log: Log, bound: nat)
    requires Ordered(log, bound)
    ensures AllValid(SentFrames(log))
  {
    if log.Then? {
      SentAllValid(log.prev, if log.e.Sent? && !IsCreate(log.e.f) then log.e.serial else bound);
    }
  }

  lemma {:induction false} FoldIsLog(log: Log)
    ensures ApplyAll(BLANK, SentFrames(log)) == DeviceOf(log)
  {
    if log.Then? {
      FoldIsLog(log.prev);
      if log.e.Sent? {
        ApplyLast(BLANK, SentFrames(log.prev), log.e.f);
      }
    }
  }

  // ---------------------------------------------------------------- the shadow settings

  /** adv_port_info: what the tty wants, or what the daemon believes the device has. */
  datatype Info = Info(isOpen: int, baud: int, flowctl: int, byte_: int, pair: int, stop: int, ms: nat)

  const PAIR_UNDEF := 5
  const FLOW_UNDEF := 4
  const STOP_UNDEF := 3

  /** The shadow after vc_netdown_init. */
  const UNSET := Info(0, 0, FLOW_UNDEF, 0, PAIR_UNDEF, STOP_UNDEF, 0)

  /** What a flow-control mode of the attributes asks of the device; 0, 3 and the rest ask for none. */
  function FlowOf(flowctl: int): Flow {
    if flowctl == 1 then XonXoff else if flowctl == 2 then RtsCts else NoFlow
  }

  /** One bit of a word. */
  predicate Flag(n: nat, mask: nat)
    requires mask > 0
  {
    n / mask % 2 == 1
  }

  /**
   The line settings the device has are the shadow's, as far as a frame can carry them. A device
   that was told none goes with a shadow that no attributes of an open port equal.
   */
  predicate MirrorsLine(d: Device, eki: Info) {
    && (match d.baud case None => eki.baud == 0 case Some(b) => b == eki.baud % 0x1_0000_0000)
    && (match d.line
        case None => eki.pair == 5 && eki.byte_ == 0 && eki.stop == 3
        case Some(l) => l == Line(eki.pair % 256, eki.byte_ % 256, eki.stop % 256))
    && (match d.flow case None => eki.flowctl == 4 case Some(w) => w == FlowOf(eki.flowctl))
  }

  /** RTS is the bit 0x04 of the modem lines, DTR the bit 0x02. */
  predicate MirrorsModem(d: Device, ms: nat) {
    && (d.rts.Some? ==> d.rts.value == Flag(ms, 0x04))
    && (d.dtr.Some? ==> d.dtr.value == Flag(ms, 0x02))
  }

  /** The device was told all of the attributes, apart from values that no open port has. */
  predicate Told(d: Device, a: Info) {
    && (a.baud != 0 ==> d.baud == Some(a.baud % 0x1_0000_0000))
    && (a.byte_ != 0 || a.pair != 5 || a.stop != 3 ==>
          d.line == Some(Line(a.pair % 256, a.byte_ % 256, a.stop % 256)))
    && (a.flowctl != 4 ==> d.flow == Some(FlowOf(a.flowctl)))
    && d.rts == Some(Flag(a.ms, 0x04)) && d.dtr == Some(Flag(a.ms, 0x02))
  }

  lemma MirroredIsTold(d: Device, eki: Info, a: Info)
    requires MirrorsLine(d, eki) && MirrorsModem(d, eki.ms) && d.rts.Some? && d.dtr.Some?
    requires eki == a.(isOpen := eki.isOpen)
    ensures Told(d, a)
  {
    hide Flag, FlowOf;
  }

  /** The modem lines and the line settings are told apart. */
  lemma ModemApart(d: Device, eki: Info, rts: Option<bool>, dtr: Option<bool>, ms: nat)
    requires MirrorsLine(d, eki)
    ensures MirrorsLine(d.(rts := rts, dtr := dtr), eki.(ms := ms))
  {
  }

  lemma BaudMirrored(d: Device, eki: Info, baud: int)
    requires MirrorsLine(d, eki)
    ensures MirrorsLine(d.(baud := Some(baud % U32)), eki.(baud := baud))
  {
  }

  lemma LineMirrored(d: Device, eki: Info, pair: int, byte_: int, stop: int)
    requires MirrorsLine(d, eki)
    ensures MirrorsLine(d.(line := Some(Line(pair % 256, byte_ % 256, stop % 256))),
                        eki.(pair := pair, byte_ := byte_, stop := stop))
  {
  }

  lemma FlowMirrored(d: Device, eki: Info, flowctl: int)
    requires MirrorsLine(d, eki)
    ensures MirrorsLine(d.(flow := Some(FlowOf(flowctl))), eki.(flowctl := flowctl))
  {
  }

  lemma BaudArrives(d: Device, tid: nat, baud: int)
    requires tid < U32
    ensures Apply(d, PackBaud(tid, baud)) == d.(baud := Some(baud % U32))
  {
    Le32Back(baud % U32);
  }

  lemma LineArrives(d: Device, tid: nat, pair: int, byte_: int, stop: int)
    requires tid < U32
    ensures Apply(d, PackLine(tid, pair, byte_, stop)) ==
            d.(line := Some(Line(pair % 256, byte_ % 256, stop % 256)))
  {
  }

  lemma FlowArrives(d: Device, tid: nat, flowctl: int, stale: seq<byte>)
    requires tid < U32 && |stale| == 4
    ensures Apply(d, PackFlow(tid, flowctl, stale)) == d.(flow := Some(FlowOf(flowctl)))
  {
    var w := FlowWords(flowctl);
    var ext := PackFlow(tid, flowctl, stale).ext;
    assert ext[0] == Be32(w.0)[0] && ext[4] == Be32(w.1)[0];
  }

  function ModemFrame(tid: nat, rts: bool, on: bool): (f: Frame)
    requires tid < U32
    ensures Packed(f, tid, 1024) && f.cmd == CMD_IOCTL
  {
    PackIoctl(tid, if rts then (if on then SET_RTS else CLR_RTS) else (if on then SET_DTR else CLR_DTR), [])
  }

  /** The frames for the modem lines that differ, with consecutive serials from `s` on. */
  function ModemFrames(s: nat, from: nat, to: nat): seq<Frame> {
    var rts := if Flag(from, 0x04) != Flag(to, 0x04) then [ModemFrame(s % U32, true, Flag(to, 0x04))] else [];
    rts + (if Flag(from, 0x02) != Flag(to, 0x02) then [ModemFrame((s + |rts|) % U32, false, Flag(to, 0x02))] else [])
  }

  /** Frames that leave in one buffer, under consecutive serials. */
  function SentTogether(log: Log, s: nat, fs: seq<Frame>): Log
    decreases |fs|
  {
    if fs == [] then log else SentTogether(Then(log, Sent(s, fs[0])), s + 1, fs[1..])
  }

  lemma {:induction false} SentTogetherFrames(log: Log, s: nat, fs: seq<Frame>)
    ensures SentFrames(SentTogether(log, s, fs)) == SentFrames(log) + fs
    decreases |fs|
  {
    if fs != [] {
      SentTogetherFrames(Then(log, Sent(s, fs[0])), s + 1, fs[1..]);
    }
  }

  /** Leaving out the lines that agree still brings the device to both. */
  lemma ModemFramesArrive(log: Log, s: nat, from: nat, to: nat)
    requires Ordered(log, s) && MirrorsModem(DeviceOf(log), from)
    requires DeviceOf(log).rts.Some? && DeviceOf(log).dtr.Some?
    ensures var l := SentTogether(log, s, ModemFrames(s, from, to));
            && DeviceOf(l) == DeviceOf(log).(rts := Some(Flag(to, 0x04)), dtr := Some(Flag(to, 0x02)))
            && Ordered(l, s + |ModemFrames(s, from, to)|)
            && WindowOf(l) == WindowOf(log)
  {
    hide Flag;
    var fs := ModemFrames(s, from, to);
    var l := SentTogether(log, s, fs);
    if |fs| == 1 {
      SentOne(log, s, fs);
    } else if |fs| == 2 {
      SentTwo(log, s, fs);
    }
  }

  lemma SentOne(log: Log, s: nat, fs: seq<Frame>)
    requires |fs| == 1
    ensures SentTogether(log, s, fs) == Then(log, Sent(s, fs[0]))
  {
    assert SentTogether(Then(log, Sent(s, fs[0])), s + 1, fs[1..]) == Then(log, Sent(s, fs[0]));
  }

  lemma SentTwo(log: Log, s: nat, fs: seq<Frame>)
    requires |fs| == 2
    ensures SentTogether(log, s, fs) == Then(Then(log, Sent(s, fs[0])), Sent(s + 1, fs[1]))
  {
    SentOne(Then(log, Sent(s, fs[0])), s + 1, fs[1..]);
  }

  /** Settings do not touch the data. */
  lemma {:induction false} SettingsCarryNoData(log: Log, s: nat, fs: seq<Frame>, stream: seq<byte>)
    requires forall i :: 0 <= i < |fs| ==> fs[i].cmd == CMD_IOCTL
    ensures var l := SentTogether(log, s, fs);
            && Outstanding(l) == Outstanding(log) && Acked(l) == Acked(log) && Received(l) == Received(log)
            && Releases(l) == Releases(log) && Writes(l) == Writes(log)
            && (InOrder(log, stream) ==> InOrder(l, stream))
    decreases |fs|
  {
    if fs != [] {
      SettingsCarryNoData(Then(log, Sent(s, fs[0])), s + 1, fs[1..], stream);
    }
  }

  lemma ModemArrives(d: Device, tid: nat, rts: bool, on: bool)
    requires tid < U32
    ensures Apply(d, ModemFrame(tid, rts, on)) == if rts then d.(rts := Some(on)) else d.(dtr := Some(on))
  {
  }

  /** Register for modem events, then ask for the state of the lines. */
  function EventFrames(s: nat): seq<Frame> {
    [PackIoctl(s % U32, SET_WAIT_MASK, Be32(0x38010000)), PackIoctl((s + 1) % U32, GET_MODEMSTATUS, [])]
  }

  /** The frames that follow CREATE when a connection is opened. */
  function Handshake(s: nat, ms: nat, size: nat): seq<Frame>
    requires size < U32
  {
    [ModemFrame(s % U32, true, Flag(ms, 0x04)), ModemFrame((s + 1) % U32, false, Flag(ms, 0x02))] +
    EventFrames(s + 2) +
    [PackQueueFree((s + 4) % U32, size)]
  }
}
