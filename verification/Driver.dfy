/**
 The kernel side of one port: driver/adv_main.c and the parts of driver/adv_uart.c it calls.
 Every operation runs under the lock of the ring or block it works on, so each method is
 one atomic step. `KernelRuns` is any number of steps the kernel takes on its own.

 The ghost sequences record whole streams: bytes ever put in the outgoing ring and bytes
 taken off it, bytes ever accepted into the incoming ring and bytes taken off that one.
 */
module Driver {
  import opened Ring
  import opened Uart
  import opened Link

  // ---------------------------------------------------------------- the attribute block

  /** struct adv_port_att: the current attributes and two slots shared with the daemon. */
  class PortAtt {
    var attr: Info
    const slots: array<Info>
    var usrPtr: nat
    var newbie: bool
    var throttled: bool
    ghost var flushed: Info         // the attributes at the last flush
    ghost var clock: nat            // instants, one for each change of the attributes
    ghost var quietAt: nat          // the last one at which the poll bit was down

    constructor ()
      ensures Valid() && fresh(slots) && newbie && usrPtr == 0
      ensures attr == slots[0] == Info(0, 0, 0, 0, 0, 0, 0) && !throttled
    {
      attr, usrPtr, newbie, throttled, flushed := ZERO, 0, true, false, ZERO;
      clock, quietAt := 0, 0;
      slots := new Info[2](_ => ZERO);
    }

    ghost predicate Valid()
      reads this, slots
    {
      && slots.Length == 2 && usrPtr < 2 && slots[usrPtr] == flushed
      && 0 <= attr.isOpen <= 1 && 0 <= flushed.isOpen <= 1
      && quietAt <= clock && (!Signalled(attr, slots[usrPtr]) ==> quietAt == clock)
    }

    /** flush_attr_info: publishes the attributes in the slot the daemon is not reading. */
    method Flush() returns (ptr: nat)
      requires Valid()
      modifies this`usrPtr, this`newbie, this`flushed, this`quietAt, slots
      ensures Valid() && !newbie && ptr == usrPtr && flushed == attr && quietAt == clock
      ensures !old(newbie) ==> slots[old(usrPtr)] == old(slots[usrPtr]) && usrPtr != old(usrPtr)
      ensures !Pri()
    {
      if newbie {
        newbie := false;
      } else {
        usrPtr := (usrPtr + 1) % 2;
      }
      slots[usrPtr] := attr;
      flushed, quietAt := attr, clock;
      return usrPtr;
    }

    /** The tty is opened, closed or set. */
    method Change(a: Info)
      requires Valid() && 0 <= a.isOpen <= 1
      modifies this`attr, this`clock, this`quietAt
      ensures Valid() && attr == a && clock == old(clock) + 1 && old(quietAt) <= quietAt
      ensures Pri() ==> quietAt == old(quietAt)
    {
      attr, clock := a, clock + 1;
      if !Signalled(a, slots[usrPtr]) {
        quietAt := clock;
      }
    }

    /** The POLLPRI bit of adv_proc_poll. */
    predicate Pri()
      requires slots.Length == 2 && usrPtr < 2
      reads this, slots
    {
      Signalled(attr, slots[usrPtr])
    }
  }

  /** Attributes `now` raise the poll bit over a slot that holds `seen`. */
  predicate Signalled(now: Info, seen: Info) {
    now != seen && (now.isOpen == 1 || now.isOpen != seen.isOpen)
  }

  const ZERO := Info(0, 0, 0, 0, 0, 0, 0)

  /**
   A change since the last flush is signalled until the next one, exactly unless the port is
   closed and was closed then.
   */
  lemma ChangeIsSignalled(att: PortAtt)
    requires att.Valid()
    ensures att.Pri() <==> att.attr != att.flushed && (att.attr.isOpen == 1 || att.flushed.isOpen == 1)
  {
  }

  /** A closed port whose attributes change after a flush: the daemon is not told. */
  method ClosedChangeIsSilent() returns (att: PortAtt)
    ensures fresh(att) && att.Valid() && att.attr != att.flushed && !att.Pri()
  {
    att := new PortAtt();
    var _ := att.Flush();
    att.Change(ZERO.(baud := 9600));
  }

  // ---------------------------------------------------------------- the kernel on queues

  /** What the kernel does on its own: adv_uart_start_tx, adv_uart_update_xmit, the tty takes bytes, and so on. */
  datatype Step =
    | StartTx
    | Refill
    | Receive(space: nat)
    | Write(b: byte)
    | Set(a: Info, open: bool)
    | Throttle(on: bool)
    | Enable(rxOn: bool, txOn: bool)

  /** A port without its rings: transmit buffer, outgoing and incoming queue, attributes and flags. */
  datatype Queues = Queues(fifo: seq<byte>, out: seq<byte>, inc: seq<byte>, attr: Info, throttled: bool,
                           rxOn: bool, txOn: bool)

  /** The transmit buffer is moved to the outgoing queue, which holds at most `ring` bytes. */
  function Pumped(q: Queues, ring: nat): Queues
    requires |q.out| <= ring
  {
    var n := Min(|q.fifo|, ring - |q.out|);
    q.(out := q.out + q.fifo[..n], fifo := q.fifo[n..])
  }

  function After(q: Queues, s: Step, ring: nat, buffer: nat): (r: Queues)
    requires |q.out| <= ring
    ensures |r.out| <= ring
  {
    match s
    case StartTx => Pumped(q.(rxOn := true), ring)
    case Refill => if q.attr.isOpen != 0 && q.out == [] then Pumped(q, ring) else q
    case Receive(space) => if q.throttled || !q.txOn then q else q.(inc := q.inc[Min(|q.inc|, space)..])
    case Write(b) => if |q.fifo| < buffer then q.(fifo := q.fifo + [b]) else q
    case Set(a, open) => q.(attr := a.(isOpen := if open then 1 else 0))
    case Throttle(on) => q.(throttled := on)
    case Enable(rxOn, txOn) => q.(rxOn := rxOn, txOn := txOn)
  }

  function AfterAll(q: Queues, steps: seq<Step>, ring: nat, buffer: nat): (r: Queues)
    requires |q.out| <= ring
    ensures |r.out| <= ring
  {
    if steps == [] then q else After(AfterAll(q, steps[..|steps| - 1], ring, buffer), steps[|steps| - 1], ring, buffer)
  }

  lemma AfterNone(q: Queues, ring: nat, buffer: nat)
    requires |q.out| <= ring
    ensures AfterAll(q, [], ring, buffer) == q
  {
  }

  lemma AfterLast(q: Queues, steps: seq<Step>, s: Step, ring: nat, buffer: nat)
    requires |q.out| <= ring
    ensures AfterAll(q, steps + [s], ring, buffer) == After(AfterAll(q, steps, ring, buffer), s, ring, buffer)
  {
    assert (steps + [s])[..|steps|] == steps;
  }

  // ---------------------------------------------------------------- the port

  class Vcom {
    const tx: RingBuf     // daemon to tty
    const rx: RingBuf     // tty to daemon
    const fifo: Fifo      // transmit buffer of the serial core
    const att: PortAtt

    ghost var out: seq<byte>         // the outgoing queue, contents of rx
    ghost var inc: seq<byte>         // the incoming queue, contents of tx
    ghost var staged: seq<byte>      // written by the daemon behind the tail of tx, not yet accepted

    ghost var written: seq<byte>     // ever written to the tty
    ghost var produced: seq<byte>    // ever put in rx
    ghost var removed: seq<byte>     // ever taken off rx
    ghost var removals: seq<Removal> // the same, by steps
    ghost var accepted: seq<byte>    // ever put in tx
    ghost var delivered: seq<byte>   // ever taken off tx, by the tty or cleared
    ghost var swept: nat             // how many had been taken off when tx was last cleared
    ghost var handed: seq<byte>      // handed to the tty since then

    constructor (size: nat, fifoSize: nat)
      requires 0 < size && 0 < fifoSize
      ensures Valid() && fresh(Footprint() - {this}) && !rx.clean && att.usrPtr == 0
      ensures tx.data.Length == rx.data.Length == size
      ensures out == [] && inc == [] && staged == []
    {
      tx := new RingBuf(size);
      rx := new RingBuf(size);
      fifo := new Fifo(fifoSize);
      att := new PortAtt();
      out, inc, staged := [], [], [];
      written, produced, removed, removals := [], [], [], [];
      accepted, delivered, swept, handed := [], [], 0, [];
    }

    ghost function Footprint(): set<object> {
      {this, tx, tx.data, rx, rx.data, fifo, fifo.buf, att, att.slots}
    }

    ghost predicate Shape()
      reads Footprint()
    {
      && tx != rx && tx.data != rx.data && tx.data != fifo.buf && rx.data != fifo.buf
      && tx.Valid() && rx.Valid() && fifo.Valid() && att.Valid() && !tx.clean
      && out == rx.Contents() && inc == tx.Contents()
      && |staged| <= tx.RoomLeft() && staged == Window(tx.data[..], tx.tail, |staged|)
    }

    /**
     No byte is lost or reordered: what was written is what was taken off the outgoing ring,
     what waits in it and what waits in the transmit buffer; what was accepted from the device
     is what was taken off the incoming ring and what waits in it. What was taken off since the
     incoming ring was last cleared is what the tty was handed.
     */
    ghost predicate Conserved()
      requires fifo.Valid()
      reads this, fifo, fifo.buf
    {
      && written == produced + fifo.Pending()
      && produced == removed + out
      && removed == BytesOf(removals)
      && accepted == delivered + inc
      && swept <= |delivered| && delivered[swept..] == handed
    }

    ghost predicate Valid()
      reads Footprint()
    {
      Shape() && Conserved()
    }

    ghost function View(): (q: Queues)
      requires Valid()
      reads Footprint()
      ensures |q.out| < rx.data.Length
    {
      Queues(fifo.Pending(), out, inc, att.attr, att.throttled, rx.enabled, tx.enabled)
    }

    // ---------------------------------------------------------------- steps of the kernel itself

    /** adv_uart_start_tx and adv_uart_update_xmit: pump the transmit buffer into the ring. */
    method PumpOut(start: bool)
      requires Valid()
      modifies this`produced, this`out, rx`tail, rx`enabled, rx.data, fifo`out, fifo`cnt
      ensures Valid() && old(out) <= out && old(produced) <= produced && rx.enabled == (start || old(rx.enabled))
      ensures if start || (att.attr.isOpen != 0 && old(out) == [])
              then Moved(old(out), old(fifo.Pending()), out, fifo.Pending(), Movable(old(fifo.cnt), old(rx.RoomLeft())))
              else out == old(out) && fifo.Pending() == old(fifo.Pending())
    {
      if start {
        rx.enabled := true;
      } else if att.attr.isOpen == 0 || rx.tail != rx.head {
        return;
      }
      hide Window, Queue, Moved, BytesOf, PortAtt.Valid;
      ghost var p, m := fifo.Pending(), Movable(fifo.cnt, rx.RoomLeft());
      Xmit(rx, fifo);
      MovedConserves(removed, out, p, rx.Contents(), fifo.Pending(), m);
      out := rx.Contents();
      produced := removed + out;
    }

    /** adv_uart_recv_chars: hand bytes to the tty, which has `space` for more. */
    method PumpIn(space: nat)
      requires Valid()
      modifies this`delivered, this`handed, this`inc, tx`head, tx`clean
      ensures Valid()
      ensures var n := if att.throttled || !tx.enabled then 0 else Min(|old(inc)|, space);
              && inc == old(inc)[n..]
              && handed == old(handed) + old(inc)[..n] && delivered == old(delivered) + old(inc)[..n]
    {
      hide Window, Queue, BytesOf, PortAtt.Valid;
      ghost var d := delivered;
      var bytes := RecvChars(tx, att.throttled, space);
      handed, delivered := handed + bytes, delivered + bytes;
      inc := tx.Contents();
      assert d + (bytes + inc) == (d + bytes) + inc;
      assert (d + bytes)[swept..] == d[swept..] + bytes;
    }

    /** The serial core sends, or the tty takes bytes. */
    method Pump(s: Step)
      requires Valid() && (s.StartTx? || s.Refill? || s.Receive?)
      modifies this`produced, this`delivered, this`handed, this`out, this`inc
      modifies rx`tail, rx`enabled, rx.data, tx`head, tx`clean, fifo`out, fifo`cnt
      ensures Valid() && old(out) <= out && old(produced) <= produced
      ensures |inc| <= |old(inc)| && old(delivered) <= delivered
      ensures View() == After(old(View()), s, rx.data.Length - 1, fifo.buf.Length)
    {
      hide Window, Queue, BytesOf, Conserved, PortAtt.Valid;
      if s.Receive? {
        PumpIn(s.space);
      } else {
        PumpOut(s.StartTx?);
      }
    }

    /** The user writes a byte to the tty. */
    method UserWrites(b: byte)
      requires Valid()
      modifies this`written, fifo`cnt, fifo.buf
      ensures Valid() && View() == After(old(View()), Write(b), rx.data.Length - 1, fifo.buf.Length)
    {
      hide Window, Queue, BytesOf, PortAtt.Valid;
      if fifo.cnt < fifo.buf.Length {
        fifo.Put(b);
        written := written + [b];
      }
    }

    /** Attributes and flags change. */
    method Configure(s: Step)
      requires Valid() && (s.Set? || s.Throttle? || s.Enable?)
      modifies rx`enabled, tx`enabled, att`attr, att`clock, att`quietAt, att`throttled
      ensures Valid() && old(att.clock) <= att.clock && old(att.quietAt) <= att.quietAt
      ensures View() == After(old(View()), s, rx.data.Length - 1, fifo.buf.Length)
    {
      hide Window, Queue, Conserved;
      match s {
        case Set(a, open) => att.Change(a.(isOpen := if open then 1 else 0));
        case Throttle(on) => att.throttled := on;
        case Enable(rxOn, txOn) => rx.enabled, tx.enabled := rxOn, txOn;
        case _ => assert false;
      }
    }

    /** One step of the kernel does to the rings what it does to the queues. */
    method KernelStep(s: Step)
      requires Valid()
      modifies this`written, this`produced, this`delivered, this`handed, this`out, this`inc
      modifies rx`tail, rx`enabled, rx.data, tx`head, tx`clean, tx`enabled
      modifies fifo`out, fifo`cnt, fifo.buf, att`attr, att`clock, att`quietAt, att`throttled
      ensures Valid() && old(out) <= out && old(produced) <= produced
      ensures |inc| <= |old(inc)| && old(delivered) <= delivered
      ensures old(att.clock) <= att.clock && old(att.quietAt) <= att.quietAt
      ensures View() == After(old(View()), s, rx.data.Length - 1, fifo.buf.Length)
    {
      hide Window, Queue, Shape, Conserved, After;
      if s.Write? {
        UserWrites(s.b);
      } else if s.Set? || s.Throttle? || s.Enable? {
        Configure(s);
      } else {
        Pump(s);
      }
    }

    /** Any number of kernel steps: user writes, transmit and receive pumps, attribute changes. */
    method KernelRuns(steps: seq<Step>)
      requires Valid()
      modifies Footprint()
      ensures Valid() && old(out) <= out && old(produced) <= produced
      ensures |inc| <= |old(inc)| && old(delivered) <= delivered
      ensures old(att.clock) <= att.clock && old(att.quietAt) <= att.quietAt
      ensures removed == old(removed) && removals == old(removals)
      ensures accepted == old(accepted) && swept == old(swept) && staged == old(staged)
      ensures rx.head == old(rx.head) && rx.clean == old(rx.clean) && tx.tail == old(tx.tail)
      ensures att.usrPtr == old(att.usrPtr) && att.slots[..] == old(att.slots[..])
      ensures View() == AfterAll(old(View()), steps, rx.data.Length - 1, fifo.buf.Length)
    {
      assert tx != rx;
      hide AfterAll, Window, Queue, Shape, Conserved;
      KernelLoop(steps);
    }

    method KernelLoop(steps: seq<Step>)
      requires Valid()
      modifies this`written, this`produced, this`delivered, this`handed, this`out, this`inc
      modifies rx`tail, rx`enabled, rx.data, tx`head, tx`clean, tx`enabled
      modifies fifo`out, fifo`cnt, fifo.buf, att`attr, att`clock, att`quietAt, att`throttled
      ensures Valid() && old(out) <= out && old(produced) <= produced
      ensures |inc| <= |old(inc)| && old(delivered) <= delivered
      ensures old(att.clock) <= att.clock && old(att.quietAt) <= att.quietAt
      ensures View() == AfterAll(old(View()), steps, rx.data.Length - 1, fifo.buf.Length)
    {
      hide After, AfterAll, Window, Queue, Shape, Conserved;
      ghost var q, ring, buffer := View(), rx.data.Length - 1, fifo.buf.Length;
      AfterNone(q, ring, buffer);
      var k := 0;
      assert steps[..0] == [];
      while k < |steps|
        invariant 0 <= k <= |steps| && Valid() && old(out) <= out && old(produced) <= produced
        invariant |inc| <= |old(inc)| && old(delivered) <= delivered
        invariant old(att.clock) <= att.clock && old(att.quietAt) <= att.quietAt
        invariant View() == AfterAll(q, steps[..k], ring, buffer)
      {
        AfterLast(q, steps[..k], steps[k], ring, buffer);
        assert steps[..k + 1] == steps[..k] + [steps[k]];
        KernelStep(steps[k]);
        k := k + 1;
      }
      assert steps[..k] == steps;
    }

    // ---------------------------------------------------------------- the daemon

    /** ADVVCOM_IOCSRXHEAD: the front of the queue is released, or all of it cleared. */
    method SetRxHead(length: nat)
      requires Valid() && (!rx.clean ==> length <= |out|)
      modifies this`removed, this`removals, this`out, rx`head, rx`clean
      ensures Valid() && !rx.clean
      ensures out == if old(rx.clean) then [] else old(out)[length..]
      ensures removals == old(removals) + [if old(rx.clean) then Cleared(old(out)) else Released(old(out)[..length])]
      ensures removed == old(removed) + removals[|old(removals)|].bytes
    {
      hide Window, Queue, BytesOf, PortAtt.Valid;
      ghost var c := out;
      ghost var r := if rx.clean then Cleared(c) else Released(c[..length]);
      rx.MoveHead(length);
      out := rx.Contents();
      BytesOfLast(removals, r);
      removals := removals + [r];
      removed := removed + r.bytes;
      assert c == r.bytes + out;
    }

    /** The daemon writes `s` to the shared memory, in one piece, behind what it staged before. */
    method Stage(at: nat, s: seq<byte>)
      requires Valid() && |inc| + |staged| + |s| < tx.data.Length
      requires tx.tail + |staged| < 2 * tx.data.Length && at == Wrap(tx.tail + |staged|, tx.data.Length)
      requires at + |s| <= tx.data.Length
      modifies this`staged, tx.data
      ensures Valid() && staged == old(staged) + s
    {
      StageMore(tx.data[..], tx.head, tx.tail, |staged|, s);
      hide Window, Queue, BytesOf, PortAtt.Valid;
      tx.CopyIn(at, s);
      staged := staged + s;
    }

    /** ADVVCOM_IOCSTXTAIL: what was staged is accepted, and the tty, which has `space`, is served. */
    method SetTxTail(length: nat, space: nat)
      requires Valid() && length == |staged|
      modifies this`accepted, this`delivered, this`handed, this`inc, this`staged, tx`head, tx`tail, tx`clean
      ensures Valid() && staged == [] && rx.head == old(rx.head) && rx.clean == old(rx.clean)
      ensures accepted == old(accepted) + old(staged)
      ensures var all := old(inc) + old(staged);
              var n := if att.throttled || !tx.enabled then 0 else Min(|all|, space);
              inc == all[n..] && handed == old(handed) + all[..n] && delivered == old(delivered) + all[..n]
    {
      hide Window, Queue, BytesOf, PortAtt.Valid;
      ghost var d, c := delivered, inc;
      tx.MoveTail(length);
      inc := tx.Contents();
      accepted := accepted + staged;
      assert (d + c) + staged == d + (c + staged);
      staged := [];
      PumpIn(space);
    }

    /** ADVVCOM_IOCSCLR: the outgoing ring is only marked, the incoming one is emptied at once. */
    method Clear(clrRx: bool, clrTx: bool)
      requires Valid()
      modifies this`delivered, this`handed, this`swept, this`inc, rx`clean, tx`head, tx`clean
      ensures Valid() && rx.clean == (old(rx.clean) || clrRx)
      ensures inc == if clrTx then [] else old(inc)
      ensures swept == if clrTx then |accepted| else old(swept)
    {
      hide Window, Queue, BytesOf, PortAtt.Valid;
      if clrRx {
        rx.clean := true;
      }
      if clrTx {
        Sweep();
      }
    }

    /** The incoming ring is emptied: marked and moved under one lock. */
    method Sweep()
      requires Valid()
      modifies this`delivered, this`handed, this`swept, this`inc, tx`head, tx`clean
      ensures Valid() && inc == [] && swept == |accepted|
    {
      hide Window, Queue, BytesOf, PortAtt.Valid, Fifo.Valid, Fifo.Pending;
      tx.clean := true;
      tx.MoveHead(0);
      delivered, swept, handed, inc := accepted, |accepted|, [], [];
    }

    /** ADVVCOM_IOCGATTRPTR. */
    method FlushAttr() returns (ptr: nat)
      requires Valid()
      modifies att`usrPtr, att`newbie, att`flushed, att`quietAt, att.slots
      ensures Valid() && ptr == att.usrPtr < 2 && att.slots.Length == 2
      ensures att.slots[ptr] == att.attr && 0 <= att.attr.isOpen <= 1 && !att.Pri()
      ensures att.quietAt == att.clock == old(att.clock) && old(att.quietAt) <= att.quietAt
    {
      hide Window, Queue, Conserved;
      ptr := att.Flush();
    }

    /** What the poll bits say of the queues. */
    lemma PollBits()
      requires Valid()
      ensures Readable() <==> rx.enabled && out != []
      ensures Writable() <==> tx.enabled && !att.throttled && inc == []
    {
      hide Conserved;
    }

    /** The POLLIN and POLLOUT bits of adv_proc_poll. */
    predicate Readable()
      reads rx
    {
      rx.enabled && rx.head != rx.tail
    }

    predicate Writable()
      reads tx, att
    {
      tx.enabled && tx.head == tx.tail && !att.throttled
    }

    /** The shared memory of the outgoing ring holds the queue from the head on. */
    lemma OutgoingBytes(n: nat)
      requires Valid() && n <= |out|
      ensures rx.head < rx.data.Length && n <= rx.data.Length && Window(rx.data[..], rx.head, n) == out[..n]
    {
      WindowDrop(rx.data[..], rx.head, |out|, n);
    }
  }
}
