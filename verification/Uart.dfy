/**
 The serial-core side of the rings: driver/adv_uart.c, and the older transmit loop of
 driver/legacy/uart/adv_uart_xmit.h. Both transmit loops are proved to append the same
 bytes to the ring, and the receive loop to take a prefix off it.
 */
module Uart {
  import opened Ring

  /** The transmit buffer of the serial core: a circular memory with a read position. */
  class Fifo {
    const buf: array<byte>
    var out: nat
    var cnt: nat

    constructor (size: nat)
      requires 0 < size
      ensures Valid() && Pending() == [] && fresh(buf) && buf.Length == size
    {
      buf := new byte[size](_ => 0);
      out, cnt := 0, 0;
    }

    ghost predicate Valid()
      reads this
    {
      out < buf.Length && cnt <= buf.Length
    }

    ghost function Pending(): (s: seq<byte>)
      requires Valid()
      reads this, buf
      ensures |s| == cnt
    {
      Window(buf[..], out, cnt)
    }

    /** kfifo_out_linear_ptr: at most `n` bytes, up to the end of the memory. */
    function Linear(n: nat): (r: nat)
      requires Valid()
      reads this
    {
      Min(n, Min(cnt, buf.Length - out))
    }

    /** Consuming `n` bytes that lie in one piece. */
    method Advance(n: nat)
      requires Valid() && n <= cnt && out + n <= buf.Length
      modifies this`out, this`cnt
      ensures Valid() && Pending() == old(Pending())[n..] && cnt == old(cnt) - n
      ensures out == Wrap(old(out) + n, buf.Length)
      ensures old(buf[out..out + n]) == old(Pending())[..n]
    {
      WindowDrop(buf[..], out, cnt, n);
      WindowPieces(buf[..], out, n);
      ModIsWrap(out + n, buf.Length);
      out, cnt := (out + n) % buf.Length, cnt - n;
    }

    /** The tty layer stores one more byte. */
    method Put(b: byte)
      requires Valid() && cnt < buf.Length
      modifies this`cnt, buf
      ensures Valid() && Pending() == old(Pending()) + [b]
    {
      var at := Wrap(out + cnt, buf.Length);
      ghost var d, n := buf[..], cnt;
      buf[at] := b;
      cnt := cnt + 1;
      forall i | 0 <= i < n + 1
        ensures Window(buf[..], out, n + 1)[i] == (Window(d, out, n) + [b])[i]
      {
        assert Window(buf[..], out, n + 1)[i] == buf[..][Wrap(out + i, buf.Length)];
        assert i < n ==> Window(d, out, n)[i] == d[Wrap(out + i, buf.Length)];
      }
    }
  }

  /** How many bytes a transmit call can move. */
  function Movable(pending: nat, room: nat): nat {
    Min(pending, room)
  }

  /** One memcpy from the transmit buffer to the ring, with the bookkeeping of both. */
  method Transfer(tx: RingBuf, fifo: Fifo, n: nat)
    requires tx.Valid() && fifo.Valid() && tx.data != fifo.buf
    requires n <= LinearRoom(tx.head, tx.tail, tx.data.Length) && n <= fifo.cnt && fifo.out + n <= fifo.buf.Length
    modifies tx`tail, tx.data, fifo`out, fifo`cnt
    ensures tx.Valid() && tx.tail == Wrap(old(tx.tail) + n, tx.data.Length)
    ensures fifo.Valid() && fifo.out == Wrap(old(fifo.out) + n, fifo.buf.Length) && fifo.cnt == old(fifo.cnt) - n
    ensures tx.Contents() == old(tx.Contents()) + old(fifo.Pending())[..n]
    ensures fifo.Pending() == old(fifo.Pending())[n..]
  {
    var piece := fifo.buf[fifo.out..fifo.out + n];
    ghost var p := fifo.Pending();
    fifo.Advance(n);
    tx.Append(piece);
    assert fifo.Pending() == p[n..];
  }

  /** Bytes moved from the front of `p0` to the end of `c0`. */
  ghost predicate Moved(c0: seq<byte>, p0: seq<byte>, c: seq<byte>, p: seq<byte>, k: nat) {
    k <= |p0| && c == c0 + p0[..k] && p == p0[k..]
  }

  lemma MovedMore(c0: seq<byte>, p0: seq<byte>, c: seq<byte>, p: seq<byte>, k: nat, n: nat)
    requires Moved(c0, p0, c, p, k) && n <= |p|
    ensures Moved(c0, p0, c + p[..n], p[n..], k + n)
  {
    assert p0[..k] + p[..n] == p0[..k + n];
  }

  /** Moving bytes between two queues neither loses nor reorders any. */
  lemma MovedConserves(before: seq<byte>, c0: seq<byte>, p0: seq<byte>, c: seq<byte>, p: seq<byte>, k: nat)
    requires Moved(c0, p0, c, p, k)
    ensures (before + c0) + p0 == (before + c) + p && c0 <= c && before + c0 <= before + c
  {
  }

  lemma MovedNone(c: seq<byte>, p: seq<byte>)
    ensures Moved(c, p, c, p, 0)
  {
  }

  /** Moving stops only when nothing is pending or nothing fits. */
  lemma MovedAll(c0: seq<byte>, p0: seq<byte>, c: seq<byte>, p: seq<byte>, k: nat, capacity: nat)
    requires Moved(c0, p0, c, p, k) && |c0| <= |c| <= capacity && (p == [] || |c| == capacity)
    ensures k == Movable(|p0|, capacity - |c0|)
  {
  }

  /** adv_uart_xmit for current kernels. */
  method Xmit(tx: RingBuf, fifo: Fifo)
    requires tx.Valid() && fifo.Valid() && tx.data != fifo.buf
    modifies tx`tail, tx.data, fifo`out, fifo`cnt
    ensures tx.Valid() && fifo.Valid()
    ensures Moved(old(tx.Contents()), old(fifo.Pending()), tx.Contents(), fifo.Pending(),
                  Movable(old(fifo.cnt), old(tx.RoomLeft())))
  {
    hide Window, Queue, Moved;
    ghost var c0, p0 := tx.Contents(), fifo.Pending();
    ghost var k := 0;
    MovedNone(c0, p0);
    if tx.RoomLeft() == 0 {
      MovedAll(c0, p0, c0, p0, 0, tx.data.Length - 1);
      return;
    }
    while fifo.cnt > 0
      invariant tx.Valid() && fifo.Valid() && Moved(c0, p0, tx.Contents(), fifo.Pending(), k)
      invariant |c0| <= |tx.Contents()|
      decreases fifo.cnt
    {
      var lsize := LinearRoom(tx.head, tx.tail, tx.data.Length);
      if lsize == 0 {
        break;
      }
      var n := fifo.Linear(lsize);
      MovedMore(c0, p0, tx.Contents(), fifo.Pending(), k, n);
      Transfer(tx, fifo, n);
      k := k + n;
    }
    MovedAll(c0, p0, tx.Contents(), fifo.Pending(), k, tx.data.Length - 1);
  }

  /** Rounds still needed: one, and one more for each memory whose end is passed. */
  function Rounds(count: nat, tail: nat, size: nat, out: nat, outSize: nat): nat {
    if count == 0 then 0
    else 1 + (if tail + count > size then 1 else 0) + (if out + count > outSize then 1 else 0)
  }

  lemma RoundsBounds(count: nat, tail: nat, size: nat, out: nat, outSize: nat)
    ensures Rounds(count, tail, size, out, outSize) <= 3
    ensures count > 0 ==> Rounds(count, tail, size, out, outSize) >= 1
  {
  }

  /** A round that goes to the nearest end uses up one of the rounds needed. */
  lemma RoundDone(count: nat, n: nat, head: nat, tail: nat, size: nat, out: nat, outSize: nat)
    requires head < size && tail < size && 0 < count <= Room(head, tail, size)
    requires out < outSize && count < outSize
    requires n == Min(Min(count, size - tail), outSize - out)
    ensures n > 0 && 1 + Rounds(count - n, Wrap(tail + n, size), size, Wrap(out + n, outSize), outSize)
                     <= Rounds(count, tail, size, out, outSize)
  {
  }

  /** How much one round copies: not past the end of either memory. */
  method PieceLength(count: nat, txLsize: nat, out: nat, outSize: nat) returns (n: nat)
    requires out < outSize && count < outSize
    ensures n == Min(Min(count, txLsize), outSize - out)
  {
    n := if count > txLsize then txLsize else count;
    ModIsWrap(out + n, outSize);
    if (out + n) % outSize < out {
      n := outSize - out;
    }
  }

  method LegacyRound(tx: RingBuf, xmit: Fifo, count: nat, txLsize: nat) returns (n: nat)
    requires tx.Valid() && xmit.Valid() && tx.data != xmit.buf && xmit.cnt < xmit.buf.Length
    requires 0 < count <= xmit.cnt && count <= tx.RoomLeft()
    requires txLsize == LinearRoom(tx.head, tx.tail, tx.data.Length)
    modifies tx`tail, tx.data, xmit`out, xmit`cnt
    ensures tx.Valid() && xmit.Valid() && n <= count
    ensures xmit.cnt == old(xmit.cnt) - n && tx.RoomLeft() == old(tx.RoomLeft()) - n
    ensures tx.Contents() == old(tx.Contents()) + old(xmit.Pending())[..n]
    ensures xmit.Pending() == old(xmit.Pending())[n..]
    ensures 1 + Rounds(count - n, tx.tail, tx.data.Length, xmit.out, xmit.buf.Length)
            <= Rounds(count, old(tx.tail), tx.data.Length, old(xmit.out), xmit.buf.Length)
  {
    hide Window, Queue, Rounds;
    n := PieceLength(count, txLsize, xmit.out, xmit.buf.Length);
    RoundDone(count, n, tx.head, tx.tail, tx.data.Length, xmit.out, xmit.buf.Length);
    Transfer(tx, xmit, n);
    assert |tx.Contents()| == |old(tx.Contents())| + n;
  }

  /** adv_uart_xmit for older kernels: at most three rounds, and three are always enough. */
  method XmitLegacy(tx: RingBuf, xmit: Fifo) returns (rounds: nat)
    requires tx.Valid() && xmit.Valid() && tx.data != xmit.buf
    requires xmit.cnt < xmit.buf.Length
    modifies tx`tail, tx.data, xmit`out, xmit`cnt
    ensures tx.Valid() && xmit.Valid() && rounds <= 3
    ensures var m := Movable(old(xmit.cnt), old(tx.RoomLeft()));
            && Moved(old(tx.Contents()), old(xmit.Pending()), tx.Contents(), xmit.Pending(), m)
            && rounds <= Rounds(m, old(tx.tail), tx.data.Length, old(xmit.out), xmit.buf.Length)
  {
    hide Window, Queue;
    ghost var c0, p0 := tx.Contents(), xmit.Pending();
    rounds := 0;
    if xmit.cnt == 0 {
      return;
    }
    if tx.RoomLeft() == 0 {
      return;
    }
    MovedNone(c0, p0);
    rounds := LegacyLoop(tx, xmit, Min(xmit.cnt, tx.RoomLeft()), c0, p0);
  }

  /** The loop, with `all` bytes to move. */
  method LegacyLoop(tx: RingBuf, xmit: Fifo, all: nat, ghost c0: seq<byte>, ghost p0: seq<byte>) returns (rounds: nat)
    requires tx.Valid() && xmit.Valid() && tx.data != xmit.buf && xmit.cnt < xmit.buf.Length
    requires all <= xmit.cnt && all <= tx.RoomLeft() && c0 == tx.Contents() && p0 == xmit.Pending()
    modifies tx`tail, tx.data, xmit`out, xmit`cnt
    ensures tx.Valid() && xmit.Valid() && rounds <= 3
    ensures Moved(c0, p0, tx.Contents(), xmit.Pending(), all)
    ensures rounds <= Rounds(all, old(tx.tail), tx.data.Length, old(xmit.out), xmit.buf.Length)
  {
    MovedNone(c0, p0);
    RoundsBounds(all, tx.tail, tx.data.Length, xmit.out, xmit.buf.Length);
    hide Window, Queue, Moved, Rounds, Min, Room, LinearRoom;
    rounds := 0;
    var count, maxRetry := all, 3;
    ghost var k: nat := 0;
    while count > 0 && maxRetry > 0
      invariant tx.Valid() && xmit.Valid() && xmit.cnt < xmit.buf.Length
      invariant 0 <= count == all - k && rounds + maxRetry == 3
      invariant count <= xmit.cnt && count <= tx.RoomLeft()
      invariant Moved(c0, p0, tx.Contents(), xmit.Pending(), k)
      invariant rounds + Rounds(count, tx.tail, tx.data.Length, xmit.out, xmit.buf.Length) <=
                Rounds(all, old(tx.tail), tx.data.Length, old(xmit.out), xmit.buf.Length)
      decreases maxRetry
    {
      ghost var c, p := tx.Contents(), xmit.Pending();
      var n := LegacyRound(tx, xmit, count, LinearRoom(tx.head, tx.tail, tx.data.Length));
      MovedMore(c0, p0, c, p, k, n);
      count := count - n;
      k := k + n;
      maxRetry := maxRetry - 1;
      rounds := rounds + 1;
    }
    RoundsBounds(count, tx.tail, tx.data.Length, xmit.out, xmit.buf.Length);
  }

  /** Reads `n` bytes that lie in one piece at the head and moves the head over them. */
  method TakeLinear(rx: RingBuf, n: nat) returns (piece: seq<byte>)
    requires rx.Valid() && !rx.clean && n <= LinearLength(rx.head, rx.tail, rx.data.Length)
    modifies rx`head, rx`clean
    ensures rx.Valid() && !rx.clean && |piece| == n && old(rx.Contents()) == piece + rx.Contents()
    ensures rx.head == Wrap(old(rx.head) + n, rx.data.Length)
  {
    ghost var c := rx.Contents();
    WindowDrop(rx.data[..], rx.head, |c|, n);
    WindowPieces(rx.data[..], rx.head, n);
    piece := rx.data[rx.head..rx.head + n];
    ModIsWrap(rx.head + n, rx.data.Length);
    rx.MoveHead(n);
    assert c == c[..n] + c[n..];
  }

  /** adv_uart_recv_chars: hands bytes from the ring to the tty, which has `space` for more. */
  method RecvChars(rx: RingBuf, throttled: bool, space: nat) returns (bytes: seq<byte>)
    requires rx.Valid() && !rx.clean
    modifies rx`head, rx`clean
    ensures rx.Valid() && !rx.clean
    ensures throttled || !rx.enabled ==> bytes == []
    ensures !throttled && rx.enabled ==> |bytes| == Min(|old(rx.Contents())|, space)
    ensures old(rx.Contents()) == bytes + rx.Contents()
  {
    bytes := [];
    if throttled || !rx.enabled {
      return;
    }
    ghost var c0 := rx.Contents();
    var count := Length(rx.head, rx.tail, rx.data.Length);
    var maxRetry := 3;
    var free := space;
    while count > 0 && maxRetry > 0
      invariant rx.Valid() && !rx.clean && count == |rx.Contents()|
      invariant c0 == bytes + rx.Contents() && 0 <= free == space - |bytes|
      invariant free > 0 && count > 0 ==> maxRetry >= if rx.head + count > rx.data.Length then 2 else 1
      decreases maxRetry
    {
      var ll := LinearLength(rx.head, rx.tail, rx.data.Length);
      var ret := Min(ll, free);      // tty_insert_flip_string
      if ret == 0 {
        break;
      }
      hide Window, Queue;
      var piece := TakeLinear(rx, ret);
      bytes := bytes + piece;
      free := free - ret;
      count := count - ret;
      maxRetry := maxRetry - 1;
    }
  }
}
