/**
 The frames of the daemon byte by byte, with every number written out: what its packers put on
 the wire, and what its receive rule takes off it.
 */
module Wire {
  import opened Ring
  import opened Proto
  import opened Link

  /** A number of two or four bytes, high byte first. */
  function Two(n: nat): (b: seq<byte>)
    requires n < 0x1_0000
    ensures |b| == 2
  {
    [n / 0x100, n % 0x100]
  }

  function Four(n: nat): (b: seq<byte>)
    requires n < 0x1_0000_0000
    ensures |b| == 4
  {
    Two(n / 0x1_0000) + Two(n % 0x1_0000)
  }

  /** A frame: four letters, id, command, length of the extension, two parameters, extension. */
  function Bytes(tid: nat, cmd: nat, p1: nat, p2: nat, ext: seq<byte>): seq<byte>
    requires tid < 0x1_0000_0000 && cmd < 0x1_0000 && p1 < 0x1_0000_0000 && p2 < 0x1_0000_0000 && |ext| <= 4076
  {
    [0x4D, 0x41, 0x44, 0x41] + Four(tid) + Two(cmd) + Two(|ext|) + Four(p1) + Four(p2) + ext
  }

  lemma WordBytes(n: nat)
    requires n < 0x1_0000_0000
    ensures Be32(n) == Four(n)
  {
  }

  lemma FrameBytes(f: Frame)
    requires ValidFrame(f) && f.pid == 0x4D414441
    ensures Encode(f) == Bytes(f.tid, f.cmd, f.p1, f.p2, f.ext)
  {
    hide Be32, Four;
    WordBytes(f.pid);
    assert Four(0x4D414441) == [0x4D, 0x41, 0x44, 0x41] by {
      WordLetters();
    }
    WordBytes(f.tid);
    WordBytes(f.p1);
    WordBytes(f.p2);
    assert Be16(f.cmd) == Two(f.cmd) && Be16(|f.ext|) == Two(|f.ext|);
  }

  lemma WordLetters()
    ensures Four(0x4D414441) == [0x4D, 0x41, 0x44, 0x41]
  {
  }

  // ---------------------------------------------------------------- what goes out

  /** CREATE: the device id in the high half of the first parameter, the port in the second; always id 1. */
  lemma OpenBytes(dev: nat, port: nat)
    requires dev < 0x1_0000 && port < 0x1_0000_0000
    ensures Encode(PackOpen(dev, port)) == Bytes(1, 0x0000, dev * 0x1_0000, port, [])
  {
    hide Bytes;
    FrameBytes(PackOpen(dev, port));
  }

  lemma CloseBytes(tid: nat)
    requires tid < 0x1_0000_0000
    ensures Encode(PackClose(tid)) == Bytes(tid, 0x0002, 0, 0, [])
  {
    hide Bytes;
    FrameBytes(PackClose(tid));
  }

  /** QUEUEFREE: the window in the second parameter. */
  lemma WindowBytes(tid: nat, size: nat)
    requires tid < 0x1_0000_0000 && size < 0x1_0000_0000
    ensures Encode(PackQueueFree(tid, size)) == Bytes(tid, 0x0900, 0, size, [])
  {
    hide Bytes;
    FrameBytes(PackQueueFree(tid, size));
  }

  /** WRITE: the length in the first parameter, the data behind both. */
  lemma WriteBytes(tid: nat, data: seq<byte>)
    requires tid < 0x1_0000_0000 && |data| <= 1024
    ensures Encode(PackXmit(tid, data)) == Bytes(tid, 0x0004, |data|, 0, data)
  {
    hide Bytes;
    FrameBytes(PackXmit(tid, data));
  }

  /** IOCTL: the subcommand in the first parameter. */
  lemma IoctlBytes(tid: nat, subcmd: nat, ext: seq<byte>)
    requires tid < 0x1_0000_0000 && subcmd < 0x1_0000_0000 && |ext| <= 16
    ensures Encode(PackIoctl(tid, subcmd, ext)) == Bytes(tid, 0x000E, subcmd, 0, ext)
  {
    hide Bytes;
    FrameBytes(PackIoctl(tid, subcmd, ext));
  }

  /** The baud rate, low byte first. */
  lemma BaudBytes(tid: nat, baud: int)
    requires tid < 0x1_0000_0000
    ensures var b := baud % 0x1_0000_0000;
            Encode(PackBaud(tid, baud)) ==
            Bytes(tid, 0x000E, 0x01, 0, [b % 0x100, b / 0x100 % 0x100, b / 0x1_0000 % 0x100, b / 0x1_0000 / 0x100])
  {
    hide Bytes, Encode;
    FrameBytes(PackBaud(tid, baud));
  }

  /** Stop bits, parity and data bits, each in its own byte. */
  lemma LineBytes(tid: nat, pair: int, byte_: int, stop: int)
    requires tid < 0x1_0000_0000
    ensures Encode(PackLine(tid, pair, byte_, stop)) ==
            Bytes(tid, 0x000E, 0x03, 0, [stop % 256, pair % 256, byte_ % 256])
  {
    hide Bytes, Encode;
    FrameBytes(PackLine(tid, pair, byte_, stop));
  }

  /** The two flow-control words: RTS/CTS for mode 2, XON/XOFF for mode 1, else none. */
  function FlowWordBytes(flowctl: int): (b: seq<byte>)
    ensures |b| == 8
  {
    if flowctl == 2 then [0x09, 0, 0, 0, 0x80, 0, 0, 0x80]
    else if flowctl == 1 then [0x01, 0, 0, 0, 0x43, 0, 0, 0x80]
    else [0x01, 0, 0, 0, 0x40, 0, 0, 0x80]
  }

  lemma FlowBytes(tid: nat, flowctl: int, stale: seq<byte>)
    requires tid < 0x1_0000_0000 && |stale| == 4
    ensures Encode(PackFlow(tid, flowctl, stale)) ==
            Bytes(tid, 0x000E, 0x19, 0, FlowWordBytes(flowctl) + [0, 0, 2, 0] + stale)
  {
    hide Bytes, Encode;
    FrameBytes(PackFlow(tid, flowctl, stale));
    var w := FlowWords(flowctl);
    assert Be32(w.0) + Be32(w.1) == FlowWordBytes(flowctl);
    assert Be32(512) == [0, 0, 2, 0];
  }

  /** The other subcommands: modem lines, events, the sign of life and the purge. */
  lemma CommandBytes(tid: nat)
    requires tid < 0x1_0000_0000
    ensures Encode(ModemFrame(tid, true, true)) == Bytes(tid, 0x000E, 0x0C, 0, [])
    ensures Encode(ModemFrame(tid, true, false)) == Bytes(tid, 0x000E, 0x0D, 0, [])
    ensures Encode(ModemFrame(tid, false, true)) == Bytes(tid, 0x000E, 0x09, 0, [])
    ensures Encode(ModemFrame(tid, false, false)) == Bytes(tid, 0x000E, 0x0A, 0, [])
    ensures Encode(PackIoctl(tid, GET_WAIT_MASK, [])) == Bytes(tid, 0x000E, 0x10, 0, [])
    ensures Encode(PackIoctl(tid, WAIT_ON_MASK, [])) == Bytes(tid, 0x000E, 0x12, 0, [])
    ensures Encode(PackIoctl(tid, PURGE, Le32(0x0000000f))) == Bytes(tid, 0x000E, 0x13, 0, [0x0F, 0, 0, 0])
  {
    hide Bytes, Encode;
    FrameBytes(ModemFrame(tid, true, true));
    FrameBytes(ModemFrame(tid, true, false));
    FrameBytes(ModemFrame(tid, false, true));
    FrameBytes(ModemFrame(tid, false, false));
    FrameBytes(PackIoctl(tid, GET_WAIT_MASK, []));
    FrameBytes(PackIoctl(tid, WAIT_ON_MASK, []));
    FrameBytes(PackIoctl(tid, PURGE, Le32(0x0000000f)));
    assert Le32(0x0000000f) == [0x0F, 0, 0, 0];
  }

  lemma EventBytes(s: nat)
    ensures |EventFrames(s)| == 2 && AllValid(EventFrames(s))
    ensures Encode(EventFrames(s)[0]) == Bytes(s % 0x1_0000_0000, 0x000E, 0x11, 0, [0x38, 0x01, 0, 0])
    ensures Encode(EventFrames(s)[1]) == Bytes((s + 1) % 0x1_0000_0000, 0x000E, 0x1A, 0, [])
  {
    hide Bytes, Encode;
    FrameBytes(EventFrames(s)[0]);
    FrameBytes(EventFrames(s)[1]);
    assert Be32(0x38010000) == [0x38, 0x01, 0, 0];
  }

  /** What a device sees of a connection that has just been opened, from its first byte on. */
  function Opening(dev: nat, port: nat, ms: nat, window: nat): seq<byte>
    requires dev < 0x1_0000 && port < 0x1_0000_0000 && window < 0x1_0000_0000
  {
    Bytes(1, 0x0000, dev * 0x1_0000, port, []) +
    (Bytes(1, 0x000E, if Flag(ms, 0x04) then 0x0C else 0x0D, 0, []) +
    (Bytes(2, 0x000E, if Flag(ms, 0x02) then 0x09 else 0x0A, 0, []) +
    (Bytes(3, 0x000E, 0x11, 0, [0x38, 0x01, 0, 0]) +
    (Bytes(4, 0x000E, 0x1A, 0, []) +
    Bytes(5, 0x0900, 0, window, [])))))
  }

  lemma OpeningBytes(dev: nat, port: nat, ms: nat, window: nat)
    requires dev < 0x1_0000 && port < 0x1_0000_0000 && window < 0x1_0000_0000
    ensures var fs := [PackOpen(dev, port)] + Handshake(1, ms, window);
            AllValid(fs) && EncodeAll(fs) == Opening(dev, port, ms, window)
  {
    hide Bytes, Encode, EncodeAll;
    OpenBytes(dev, port);
    CommandBytes(1);
    CommandBytes(2);
    EventBytes(3);
    WindowBytes(5, window);
    var fs := [PackOpen(dev, port)] + Handshake(1, ms, window);
    assert fs[3] == EventFrames(3)[0] && fs[4] == EventFrames(3)[1];
    SixFrames(fs);
  }

  lemma SixFrames(fs: seq<Frame>)
    requires |fs| == 6 && AllValid(fs)
    ensures EncodeAll(fs) ==
            Encode(fs[0]) + (Encode(fs[1]) + (Encode(fs[2]) + (Encode(fs[3]) + (Encode(fs[4]) + Encode(fs[5])))))
  {
    hide Encode;
    assert EncodeAll(fs[5..]) == Encode(fs[5]) + EncodeAll(fs[5..][1..]);
    assert EncodeAll(fs[5..][1..]) == [] && Encode(fs[5]) + [] == Encode(fs[5]);
    assert fs[4..][1..] == fs[5..] && fs[3..][1..] == fs[4..] && fs[2..][1..] == fs[3..] && fs[1..][1..] == fs[2..];
    assert EncodeAll(fs[4..]) == Encode(fs[4]) + EncodeAll(fs[5..]);
    assert EncodeAll(fs[3..]) == Encode(fs[3]) + EncodeAll(fs[4..]);
    assert EncodeAll(fs[2..]) == Encode(fs[2]) + EncodeAll(fs[3..]);
    assert EncodeAll(fs[1..]) == Encode(fs[1]) + EncodeAll(fs[2..]);
  }

  // ---------------------------------------------------------------- what comes in

  /**
   A frame is taken off the front of a stream if and only if its twenty bytes are there, the
   eleventh and twelfth announce no more than 4076, and as many follow.
   */
  lemma CutByBytes(s: seq<byte>)
    ensures var c := CutFrame(s);
            if |s| < 20 then c == Short
            else
              var len := s[10] as int * 0x100 + s[11] as int;
              && (c == TooLong <==> len > 4076)
              && (c.Whole? <==> len <= 4076 && 20 + len <= |s|)
              && (c.Whole? ==>
                    && s == Four(c.f.pid) + Four(c.f.tid) + s[8..12] + Four(c.f.p1) + Four(c.f.p2) + c.f.ext + c.rest
                    && c.f.cmd == s[8] as int * 0x100 + s[9] as int && |c.f.ext| == len)
  {
    hide Four, Get32;
    if |s| >= 20 {
      assert Get16(s[10..12]) == s[10] as int * 0x100 + s[11] as int;
      assert Get16(s[8..10]) == s[8] as int * 0x100 + s[9] as int;
      var c := CutFrame(s);
      if c.Whole? {
        WordRead(s[0..4]);
        WordRead(s[4..8]);
        WordRead(s[12..16]);
        WordRead(s[16..20]);
        Assembled(s, |c.f.ext|);
      }
    }
  }

  lemma Assembled(s: seq<byte>, len: nat)
    requires 20 + len <= |s|
    ensures s == s[0..4] + s[4..8] + s[8..12] + s[12..16] + s[16..20] + s[20..20 + len] + s[20 + len..]
  {
  }

  lemma WordRead(b: seq<byte>)
    requires |b| == 4
    ensures Four(Get32(b)) == b
  {
    HalfRead(b[..2]);
    HalfRead(b[2..]);
    hide Get16, Two;
    assert Get32(b) / 0x1_0000 == Get16(b[..2]) && Get32(b) % 0x1_0000 == Get16(b[2..]);
    assert b[..2] + b[2..] == b;
  }

  lemma HalfRead(b: seq<byte>)
    requires |b| == 2
    ensures Two(Get16(b)) == b
  {
  }
}
