/**
 VCOM frames: daemon/protocol/vcom_proto.h, vcom_proto_cmd.h and vcom_proto_ioctl.h. A frame
 is a twelve-byte header, two parameters and an extension whose length the header carries.
 The functions `Pack...` give the frame a packer leaves in its buffer.
 */
module Proto {
  import opened Ring

  // ---------------------------------------------------------------- numbers as bytes

  const U16 := 0x1_0000
  const U32 := 0x1_0000_0000

  function Be16(n: nat): (b: seq<byte>)
    requires n < U16
    ensures |b| == 2
  {
    [n / 0x100, n % 0x100]
  }

  function Be32(n: nat): (b: seq<byte>)
    requires n < U32
    ensures |b| == 4
  {
    Be16(n / U16) + Be16(n % U16)
  }

  function Le32(n: nat): (b: seq<byte>)
    requires n < U32
    ensures |b| == 4
  {
    [n % 0x100, n / 0x100 % 0x100, n / U16 % 0x100, n / U16 / 0x100]
  }

  function Get16(b: seq<byte>): (n: nat)
    requires |b| == 2
    ensures n < U16
  {
    b[0] as int * 0x100 + b[1] as int
  }

  function Get32(b: seq<byte>): (n: nat)
    requires |b| == 4
    ensures n < U32
  {
    Get16(b[..2]) * U16 + Get16(b[2..])
  }

  function GetLe32(b: seq<byte>): (n: nat)
    requires |b| == 4
    ensures n < U32
  {
    b[0] as int + b[1] as int * 0x100 + b[2] as int * U16 + b[3] as int * 0x100 * U16
  }

  lemma Be32Back(n: nat)
    requires n < U32
    ensures Get32(Be32(n)) == n
  {
    assert Be32(n)[..2] == Be16(n / U16) && Be32(n)[2..] == Be16(n % U16);
  }

  lemma Le32Back(n: nat)
    requires n < U32
    ensures GetLe32(Le32(n)) == n
  {
    var lo, hi := n % U16, n / U16;
    assert n == hi * U16 + lo;
    assert n % 0x100 == lo % 0x100;
    assert n / 0x100 % 0x100 == lo / 0x100;
  }

  // ---------------------------------------------------------------- frames

  datatype Frame = Frame(pid: nat, tid: nat, cmd: nat, p1: nat, p2: nat, ext: seq<byte>)

  const MAGIC := 0x4d414441
  const HDR_LEN := 20
  const RBUF_SIZE := 4096

  const CMD_CREATE := 0x0000
  const CMD_CLOSE := 0x0002
  const CMD_WRITE := 0x0004
  const CMD_IOCTL := 0x000e
  const CMD_QUEUEFREE := 0x0900
  const CMD_DATAREADY := 0x0800

  const SET_BAUD_RATE := 0x01
  const SET_LINE_CONTROL := 0x03
  const SET_DTR := 0x09
  const CLR_DTR := 0x0a
  const SET_RTS := 0x0c
  const CLR_RTS := 0x0d
  const GET_WAIT_MASK := 0x10
  const SET_WAIT_MASK := 0x11
  const WAIT_ON_MASK := 0x12
  const PURGE := 0x13
  const SET_HANDFLOW := 0x19
  const GET_MODEMSTATUS := 0x1a

  const SUCCESS := 0x00000000
  const DEVICE_BUSY := 0x80000011

  predicate ValidFrame(f: Frame) {
    f.pid < U32 && f.tid < U32 && f.cmd < U16 && f.p1 < U32 && f.p2 < U32 && |f.ext| <= RBUF_SIZE - HDR_LEN
  }

  /** The bytes of a frame on the wire. */
  function Encode(f: Frame): (b: seq<byte>)
    requires ValidFrame(f)
    ensures |b| == HDR_LEN + |f.ext|
  {
    Be32(f.pid) + Be32(f.tid) + Be16(f.cmd) + Be16(|f.ext|) + Be32(f.p1) + Be32(f.p2) + f.ext
  }

  // ---------------------------------------------------------------- cutting a byte stream into frames

  datatype Cut = Short | TooLong | Whole(f: Frame, rest: seq<byte>)

  /** The rule of vc_recv_desp: twenty bytes, then as many as the length field says. */
  function CutFrame(s: seq<byte>): (c: Cut)
    ensures c.Whole? ==> ValidFrame(c.f) && |c.rest| < |s|
  {
    if |s| < HDR_LEN then Short
    else
      var len := Get16(s[10..12]);
      if len > RBUF_SIZE - HDR_LEN then TooLong
      else if |s| < HDR_LEN + len then Short
      else
        Whole(Frame(Get32(s[0..4]), Get32(s[4..8]), Get16(s[8..10]), Get32(s[12..16]), Get32(s[16..20]),
                    s[20..20 + len]),
              s[20 + len..])
  }

  /** All the frames of a stream; `Short` when bytes are left over. */
  datatype Frames = Frames(frames: seq<Frame>, end: Cut)

  function CutAll(s: seq<byte>): Frames {
    if s == [] then Frames([], Short)
    else
      var c := CutFrame(s);
      if !c.Whole? then Frames([], c)
      else
        var more := CutAll(c.rest);
        Frames([c.f] + more.frames, more.end)
  }

  predicate AllValid(fs: seq<Frame>) {
    forall i :: 0 <= i < |fs| ==> ValidFrame(fs[i])
  }

  function EncodeAll(fs: seq<Frame>): seq<byte>
    requires AllValid(fs)
  {
    if fs == [] then [] else Encode(fs[0]) + EncodeAll(fs[1..])
  }

  lemma Fields(f: Frame, rest: seq<byte>)
    requires ValidFrame(f)
    ensures var s := Encode(f) + rest;
            && s[0..4] == Be32(f.pid) && s[4..8] == Be32(f.tid) && s[8..10] == Be16(f.cmd)
            && s[10..12] == Be16(|f.ext|) && s[12..16] == Be32(f.p1) && s[16..20] == Be32(f.p2)
            && s[20..20 + |f.ext|] == f.ext && s[20 + |f.ext|..] == rest
  {
    hide Be32, Be16;
  }

  /** One frame is cut off the front of whatever follows it. */
  lemma CutEncoded(f: Frame, rest: seq<byte>)
    requires ValidFrame(f)
    ensures CutFrame(Encode(f) + rest) == Whole(f, rest)
  {
    hide Be32, Get32, Encode;
    Fields(f, rest);
    Be32Back(f.pid);
    Be32Back(f.tid);
    Be32Back(f.p1);
    Be32Back(f.p2);
    assert Get16(Be16(f.cmd)) == f.cmd;
    assert Get16(Be16(|f.ext|)) == |f.ext|;
  }

  /** Any concatenation of frames is cut back into the same frames. */
  lemma {:induction false} CutAllEncoded(fs: seq<Frame>)
    requires AllValid(fs)
    ensures CutAll(EncodeAll(fs)) == Frames(fs, Short)
  {
    hide CutFrame, Encode;
    if fs != [] {
      CutEncoded(fs[0], EncodeAll(fs[1..]));
      CutAllEncoded(fs[1..]);
    }
  }

  // ---------------------------------------------------------------- packers

  /** What every packer keeps: a valid frame of ours that fits a buffer of `n` bytes. */
  predicate Packed(f: Frame, tid: nat, n: nat) {
    ValidFrame(f) && f.pid == MAGIC && f.tid == tid && HDR_LEN + |f.ext| <= n
  }

  function PackOpen(dev: nat, port: nat): (f: Frame)
    requires dev < U16 && port < U32
    ensures Packed(f, 1, 1024) && f.cmd == CMD_CREATE
  {
    Frame(MAGIC, 1, CMD_CREATE, dev * U16, port, [])
  }

  function PackClose(tid: nat): (f: Frame)
    requires tid < U32
    ensures Packed(f, tid, 1024) && f.cmd == CMD_CLOSE
  {
    Frame(MAGIC, tid, CMD_CLOSE, 0, 0, [])
  }

  function PackQueueFree(tid: nat, size: nat): (f: Frame)
    requires tid < U32 && size < U32
    ensures Packed(f, tid, 1024) && f.cmd == CMD_QUEUEFREE
  {
    Frame(MAGIC, tid, CMD_QUEUEFREE, 0, size, [])
  }

  function PackXmit(tid: nat, data: seq<byte>): (f: Frame)
    requires tid < U32 && |data| <= 1024
    ensures Packed(f, tid, 1024 + HDR_LEN) && f.cmd == CMD_WRITE && f.ext == data && f.p1 == |f.ext|
  {
    Frame(MAGIC, tid, CMD_WRITE, |data|, 0, data)
  }

  function PackIoctl(tid: nat, subcmd: nat, ext: seq<byte>): (f: Frame)
    requires tid < U32 && subcmd < U32 && |ext| <= 16
    ensures Packed(f, tid, 36) && f.cmd == CMD_IOCTL
  {
    Frame(MAGIC, tid, CMD_IOCTL, subcmd, 0, ext)
  }

  function PackBaud(tid: nat, baud: int): (f: Frame)
    requires tid < U32
    ensures Packed(f, tid, 1024) && f.cmd == CMD_IOCTL
  {
    PackIoctl(tid, SET_BAUD_RATE, Le32(baud % U32))
  }

  function PackLine(tid: nat, pair: int, byte_: int, stop: int): (f: Frame)
    requires tid < U32
    ensures Packed(f, tid, 1024) && f.cmd == CMD_IOCTL
  {
    PackIoctl(tid, SET_LINE_CONTROL, [stop % 256, pair % 256, byte_ % 256])
  }

  /** The two words a flow-control mode is sent as. */
  function FlowWords(flowctl: int): (w: (nat, nat))
    ensures w.0 < U32 && w.1 < U32
  {
    if flowctl == 2 then (0x09000000, 0x80000080)
    else if flowctl == 1 then (0x01000000, 0x43000080)
    else (0x01000000, 0x40000080)
  }

  /** `stale` is the fourth word, which the packer never sets. */
  function PackFlow(tid: nat, flowctl: int, stale: seq<byte>): (f: Frame)
    requires tid < U32 && |stale| == 4
    ensures Packed(f, tid, 1024) && f.cmd == CMD_IOCTL
  {
    var w := FlowWords(flowctl);
    PackIoctl(tid, SET_HANDFLOW, Be32(w.0) + Be32(w.1) + Be32(512) + stale)
  }

  // ---------------------------------------------------------------- checkers

  predicate CheckHdr(f: Frame, cmd: nat, len: nat) {
    f.pid == MAGIC && f.cmd == cmd && |f.ext| == len
  }

  predicate CheckXmit(f: Frame, datalen: nat, status: nat) {
    CheckHdr(f, CMD_WRITE, 0) && f.p1 == status && f.p2 == datalen
  }

  predicate CheckOpen(f: Frame, port: nat) {
    CheckHdr(f, CMD_CREATE, 0) && f.p1 == SUCCESS && f.p2 == port
  }

  predicate CheckRecv(f: Frame) {
    f.p1 == SUCCESS && f.p2 == |f.ext|
  }
}
