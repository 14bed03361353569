/**
 The ring buffers shared by driver and daemon, driver/advvcom.h: index arithmetic, the
 queue a ring stands for, and the moves of head and tail.
 */
module Ring {

  type byte = x: int | 0 <= x < 256

  // ---------------------------------------------------------------- index arithmetic

  function Min(a: int, b: int): int {
    if a < b then a else b
  }

  function Wrap(k: nat, n: nat): (r: nat)
    requires k < 2 * n
    ensures r < n
  {
    if k < n then k else k - n
  }

  lemma ModIsWrap(k: nat, n: nat)
    requires 0 < n && k < 2 * n
    ensures k % n == Wrap(k, n)
  {
    if k < n {
      assert k / n == 0;
    } else {
      assert k == n * 1 + (k - n);
      assert k / n == 1 by {
        assert k / n >= 1;
        assert k / n < 2;
      }
    }
  }

  /** get_rb_length and its companions, on head, tail and size. */
  function Length(head: nat, tail: nat, size: nat): (r: nat)
    requires head < size && tail < size
    ensures r < size && Wrap(head + r, size) == tail
  {
    if tail >= head then tail - head else size - head + tail
  }

  function LinearLength(head: nat, tail: nat, size: nat): (r: nat)
    requires head < size && tail < size
  {
    Min(size - head, Length(head, tail, size))
  }

  function Room(head: nat, tail: nat, size: nat): (r: nat)
    requires head < size && tail < size
    ensures r + Length(head, tail, size) == size - 1
  {
    size - Length(head, tail, size) - 1
  }

  function LinearRoom(head: nat, tail: nat, size: nat): (r: nat)
    requires head < size && tail < size
  {
    Min(size - tail, Room(head, tail, size))
  }

  /** The room is exactly how far the tail can move with the length growing by as much. */
  lemma RoomIsExact(head: nat, tail: nat, size: nat, k: nat)
    requires head < size && tail < size && k < size
    ensures k <= Room(head, tail, size) <==>
            Length(head, Wrap(tail + k, size), size) == Length(head, tail, size) + k
  {
  }

  // ---------------------------------------------------------------- the queue in a ring

  /** The `n` bytes from `head` on, around the end of the memory. */
  function Window(d: seq<byte>, head: nat, n: nat): (s: seq<byte>)
    requires head < |d| && n <= |d|
    ensures |s| == n
  {
    seq(n, i requires 0 <= i < n => d[Wrap(head + i, |d|)])
  }

  function Queue(d: seq<byte>, head: nat, tail: nat): (s: seq<byte>)
    requires head < |d| && tail < |d|
    ensures |s| == Length(head, tail, |d|)
  {
    Window(d, head, Length(head, tail, |d|))
  }

  function Splice(d: seq<byte>, at: nat, s: seq<byte>): (r: seq<byte>)
    requires at + |s| <= |d|
    ensures |r| == |d|
  {
    d[..at] + s + d[at + |s|..]
  }

  lemma WindowDrop(d: seq<byte>, head: nat, n: nat, k: nat)
    requires head < |d| && n <= |d| && k <= n
    ensures Window(d, Wrap(head + k, |d|), n - k) == Window(d, head, n)[k..]
    ensures Window(d, head, k) == Window(d, head, n)[..k]
  {
    forall i | 0 <= i < n - k
      ensures Window(d, Wrap(head + k, |d|), n - k)[i] == Window(d, head, n)[k..][i]
    {
      assert Wrap(Wrap(head + k, |d|) + i, |d|) == Wrap(head + (k + i), |d|);
    }
  }

  /** A window that ends before the end of the memory, and one that goes around it once. */
  lemma WindowPieces(d: seq<byte>, head: nat, n: nat)
    requires head < |d| && n <= |d|
    ensures Window(d, head, n) ==
            if head + n <= |d| then d[head..head + n] else d[head..] + d[..head + n - |d|]
  {
    var s := if head + n <= |d| then d[head..head + n] else d[head..] + d[..head + n - |d|];
    forall i | 0 <= i < n
      ensures Window(d, head, n)[i] == s[i]
    {
      assert Window(d, head, n)[i] == d[Wrap(head + i, |d|)];
    }
  }

  /** A stretch copied out of the memory of a ring: `llen` bytes up to its end, the others from its start. */
  method CopyOut(data: array<byte>, head: nat, llen: nat, len: nat) returns (bytes: seq<byte>)
    requires head < data.Length && len <= data.Length && llen == Min(len, data.Length - head)
    ensures bytes == Window(data[..], head, len)
  {
    hide Window;
    WindowPieces(data[..], head, len);
    assert data[..][head..head + llen] == data[head..head + llen];
    if llen == len {
      bytes := data[head..head + llen];
    } else {
      bytes := data[head..head + llen] + data[..len - llen];
      assert data[..][..len - llen] == data[..len - llen] && data[..][head..] == data[head..head + llen];
    }
  }

  /** Moving the head by `k` takes the first `k` bytes off the queue. */
  lemma QueueDrop(d: seq<byte>, head: nat, tail: nat, k: nat)
    requires head < |d| && tail < |d| && k <= Length(head, tail, |d|)
    ensures Queue(d, Wrap(head + k, |d|), tail) == Queue(d, head, tail)[k..]
  {
    WindowDrop(d, head, Length(head, tail, |d|), k);
  }

  /** The queue and the bytes staged behind its tail are one window. */
  lemma QueueThenStaged(d: seq<byte>, head: nat, tail: nat, k: nat)
    requires head < |d| && tail < |d| && k <= Room(head, tail, |d|)
    ensures Length(head, Wrap(tail + k, |d|), |d|) == Length(head, tail, |d|) + k
    ensures Queue(d, head, Wrap(tail + k, |d|)) == Queue(d, head, tail) + Window(d, tail, k)
  {
    var n, m := |d|, Length(head, tail, |d|);
    forall i | 0 <= i < m + k
      ensures Queue(d, head, Wrap(tail + k, n))[i] == (Queue(d, head, tail) + Window(d, tail, k))[i]
    {
      if i >= m {
        assert Wrap(head + i, n) == Wrap(tail + (i - m), n);
      }
    }
  }

  /**
   Writing `s` behind `j` staged bytes, in one piece and within the room, stages it too and
   leaves the queue alone.
   */
  lemma StageMore(d: seq<byte>, head: nat, tail: nat, j: nat, s: seq<byte>)
    requires head < |d| && tail < |d| && j + |s| <= Room(head, tail, |d|)
    requires Wrap(tail + j, |d|) + |s| <= |d|
    ensures var r := Splice(d, Wrap(tail + j, |d|), s);
            && Window(r, tail, j + |s|) == Window(d, tail, j) + s
            && Queue(r, head, tail) == Queue(d, head, tail)
  {
    var n, at := |d|, Wrap(tail + j, |d|);
    var r := Splice(d, at, s);
    forall i | 0 <= i < Length(head, tail, n)
      ensures Queue(r, head, tail)[i] == Queue(d, head, tail)[i]
    {
      assert r[Wrap(head + i, n)] == d[Wrap(head + i, n)];
    }
    forall i | 0 <= i < j + |s|
      ensures Window(r, tail, j + |s|)[i] == (Window(d, tail, j) + s)[i]
    {
      if i < j {
        assert r[Wrap(tail + i, n)] == d[Wrap(tail + i, n)];
      } else {
        assert Wrap(tail + i, n) == at + (i - j);
      }
    }
  }

  // ---------------------------------------------------------------- struct ring_buf

  class RingBuf {
    var head: nat
    var tail: nat
    var enabled: bool   // ADV_RING_BUF_ENABLED
    var clean: bool     // ADV_RING_BUF_CLEAN
    const data: array<byte>

    constructor (size: nat)
      requires 0 < size
      ensures Valid() && fresh(data) && data.Length == size
      ensures Contents() == [] && !enabled && !clean
    {
      head, tail, enabled, clean := 0, 0, false, false;
      data := new byte[size](_ => 0);
    }

    ghost predicate Valid()
      reads this
    {
      head < data.Length && tail < data.Length
    }

    /** The bytes waiting in the ring, oldest first. */
    ghost function Contents(): (s: seq<byte>)
      requires Valid()
      reads this, data
      ensures |s| == Length(head, tail, data.Length)
    {
      Queue(data[..], head, tail)
    }

    function RoomLeft(): (r: nat)
      requires Valid()
      reads this
      ensures r + Length(head, tail, data.Length) == data.Length - 1
    {
      Room(head, tail, data.Length)
    }

    /** move_rb_head: a pending clean empties the ring and cancels the move. */
    method MoveHead(length: nat)
      requires Valid() && (!clean ==> length <= |Contents()|)
      modifies this`head, this`clean
      ensures Valid() && !clean
      ensures head == if old(clean) then tail else Wrap(old(head) + length, data.Length)
      ensures Contents() == if old(clean) then [] else old(Contents())[length..]
    {
      if clean {
        clean := false;
        head := tail;
      } else {
        ModIsWrap(head + length, data.Length);
        QueueDrop(data[..], head, tail, length);
        head := (head + length) % data.Length;
      }
    }

    /** move_rb_tail: the bytes already written behind the tail become part of the queue. */
    method MoveTail(length: nat)
      requires Valid() && length <= RoomLeft()
      modifies this`tail
      ensures Valid() && tail == Wrap(old(tail) + length, data.Length)
      ensures Contents() == old(Contents()) + Window(data[..], old(tail), length)
    {
      ModIsWrap(tail + length, data.Length);
      QueueThenStaged(data[..], head, tail, length);
      tail := (tail + length) % data.Length;
    }

    /** memcpy into the ring memory. */
    method CopyIn(at: nat, s: seq<byte>)
      requires at + |s| <= data.Length
      modifies data
      ensures data[..] == Splice(old(data[..]), at, s)
    {
      forall i | 0 <= i < |s| {
        data[at + i] := s[i];
      }
    }

    /** Copies at most up to the end of the memory and advances the tail over it. */
    method Append(s: seq<byte>)
      requires Valid() && |s| <= LinearRoom(head, tail, data.Length)
      modifies this`tail, data
      ensures Valid() && Contents() == old(Contents()) + s
      ensures tail == Wrap(old(tail) + |s|, data.Length)
    {
      StageMore(data[..], head, tail, 0, s);
      CopyIn(tail, s);
      MoveTail(|s|);
    }
  }
}
