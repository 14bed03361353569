/**
 The daemon of one port: the state stack and the cached rings of daemon/vcom.h, the handlers
 of daemon/state_mach and the event loop of daemon/vcom_client.c.

 The daemon is one thread. The kernel runs beside it, so every ioctl, every access to the
 shared memory and every socket call is preceded by `Interfere`, an arbitrary number of
 kernel steps. Whether a connect, a send or a receive succeeds, what the device sends and
 when a timer expires is left open.

 `Rest` is what holds between two events in every run, see `Iterate` and `Run`.
 */
module Daemon {
  import opened Ring
  import opened Proto
  import opened Link
  import opened Driver
  import Wire

  datatype Ops = NetDown | NetUp | Pause | Idle | Sync

  const STACK_MAX := 10
  const XMIT_LEN := 1024

  /** One of the two attribute slots. */
  type Slot = n: nat | n < 2

  predicate Online(m: Ops) {
    m == NetUp || m == Pause
  }

  /** The stacks of a connected port between two events. */
  predicate ConnectedStack(s: seq<Ops>) {
    (|s| == 2 || (|s| == 3 && s[2] == Idle)) && s[0] == NetDown && Online(s[1])
  }

  /** The window that goes with the second stack slot. */
  function WindowFor(m: Ops): (w: Option<nat>)
    ensures w.Some? && w.value <= 1024
  {
    Some(if m == NetUp then 1024 else 0)
  }

  /** The two modem lines the daemon sends, as it tests for them. */
  predicate Rts(ms: nat) {
    ms / 4 % 2 == 1
  }

  predicate Dtr(ms: nat) {
    ms / 2 % 2 == 1
  }

  lemma ModemBits(ms: nat)
    ensures Rts(ms) == Flag(ms, 0x04) && Dtr(ms) == Flag(ms, 0x02)
  {
  }

  /** The comparison at the head of the loop in main. */
  predicate SameLine(a: Info, b: Info) {
    a.baud == b.baud && a.pair == b.pair && a.stop == b.stop && a.byte_ == b.byte_ &&
    a.flowctl == b.flowctl && a.ms == b.ms
  }

  /** The shadow has all settings of the attributes. */
  predicate Agrees(eki: Info, a: Info) {
    eki == a.(isOpen := eki.isOpen)
  }

  /** What timer, socket, watchdog and a connect say in one round of the loop. */
  datatype Round = Round(timeout: bool, readable: bool, late: bool, input: seq<byte>, connect: int)

  class Port {
    const drv: Vcom
    const devid: nat
    const port: nat

    var stk: seq<Ops>        // bottom first
    var sk: int              // socket, -1 when there is none
    var attrPtr: Slot
    var xmitPending: nat
    var tid: nat
    var eki: Info            // shadow of the device settings
    var rxHead: nat          // cached outgoing ring
    var rxTail: nat
    var txHead: nat          // cached incoming ring
    var txTail: nat

    ghost var serial: nat    // tid before it is cut to 32 bits
    ghost var log: Log       // this connection
    ghost var past: Past     // the ones before it
    ghost var dropped: Option<seq<byte>>   // cleared from the outgoing ring at its end
    ghost var base: nat      // bytes off the outgoing ring when it began
    ghost var inBase: nat    // bytes accepted into the incoming ring when it began
    ghost var inSwept: nat   // bytes off the incoming ring at the last clear before it
    ghost var writes: seq<seq<byte>>   // payloads of the WRITE frames of the run
    ghost var wire: seq<Frame>         // frames the socket of this connection took
    ghost var failures: nat  // connects, sends, receives and modem ioctls that failed
    ghost var calm: nat      // how many had when this connection began

    /** The start of main: rings and attributes are set up, the stack holds Net Down alone. */
    constructor (drv: Vcom, devid: nat, port: nat)
      requires drv.Valid() && !drv.rx.clean && drv.staged == [] && devid < U16 && port < U32
      requires drv.tx.data.Length == drv.rx.data.Length == 4096
      modifies drv.att`usrPtr, drv.att`newbie, drv.att`flushed, drv.att`quietAt, drv.att.slots
      ensures Rest() && Down() && this.drv == drv
    {
      hide LedgerFor, Linked, Up, Vcom.Valid;
      var ptr := drv.FlushAttr();
      this.drv, this.devid, this.port := drv, devid, port;
      stk, sk, xmitPending, tid, eki := [NetDown], -1, 0, 0, UNSET;
      rxHead, rxTail, txHead, txTail := drv.rx.head, drv.rx.tail, drv.tx.head, drv.tx.tail;
      attrPtr := ptr;
      serial, log, inBase, inSwept, failures, calm := 0, Empty, 0, 0, 0, 0;
      past, dropped, base, writes, wire := Start(drv.removals, drv.accepted), None, |drv.removed|, [], [];
      new;
      assert this !in drv.Footprint();
      hide Vcom.Footprint;
      Begun();
      Ready();
    }

    // ---------------------------------------------------------------- invariants

    /** The driver is sound, no clear is half done and nothing is half written. */
    ghost predicate Linked()
      reads drv.Footprint()
    {
      && drv.Valid() && !drv.rx.clean && drv.staged == []
      && drv.tx.data.Length == drv.rx.data.Length == 4096
    }

    /** Driver and daemon agree on what they share. */
    ghost predicate Core()
      reads this, drv.Footprint()
    {
      && this !in drv.Footprint() && Linked() && LedgerFor(log, dropped)
      && drv.att.slots.Length == 2 && attrPtr == drv.att.usrPtr < 2
      && 0 <= Attr().isOpen <= 1
      && rxHead < 4096 && rxTail < 4096 && txHead < 4096 && txTail < 4096
      && devid < U16 && port < U32 && tid < U32
      && sk >= -1 && |stk| > 0 && stk[0] == NetDown
    }

    /**
     What left the outgoing ring in the whole run: what the devices of the earlier connections
     and of this one acknowledged, and the clears. What joined the incoming ring: the data of all
     of them. Every connection sent the stream in order.
     */
    ghost predicate LedgerFor(l: Log, clear: Option<seq<byte>>)
      reads this`past, this`base, this`writes, drv
    {
      && drv.accepted == AcceptedBy(past) + Received(l) && writes == WritesBy(past) + Writes(l)
      && drv.removals == RemovalsBy(past) + Releases(l) + ClearOf(clear)
      && base == Offset(past) <= |drv.produced|
      && Lawful(past, drv.produced) && InOrder(l, drv.produced[base..])
    }

    lemma Begun()
      requires past == Start(drv.removals, drv.accepted) && writes == [] && base == |drv.removed| && drv.Valid()
      ensures LedgerFor(Empty, None)
    {
      hide BytesOf, Vcom.Shape;
    }

    lemma Ready()
      requires drv.Valid() && !drv.rx.clean && drv.staged == [] && drv.tx.data.Length == drv.rx.data.Length == 4096
      requires rxHead == drv.rx.head && rxTail == drv.rx.tail && txHead == drv.tx.head && txTail == drv.tx.tail
      ensures Linked() && rxHead < 4096 && rxTail < 4096 && txHead < 4096 && txTail < 4096
      ensures Length(rxHead, rxTail, 4096) == |drv.out|
    {
      hide Window, Queue, Vcom.Conserved;
    }

    lemma LedgerGrows(l: Log, clear: Option<seq<byte>>, before: seq<byte>)
      requires drv.removals == RemovalsBy(past) + Releases(l) + ClearOf(clear)
      requires drv.accepted == AcceptedBy(past) + Received(l) && writes == WritesBy(past) + Writes(l)
      requires base == Offset(past) <= |before| && Lawful(past, before) && InOrder(l, before[base..])
      requires before <= drv.produced
      ensures LedgerFor(l, clear)
    {
      hide RemovalsBy, Releases, ClearOf, Offset, Lawful, InOrder, AcceptedBy, Received, WritesBy, Writes;
      LawfulGrows(past, before, drv.produced);
      InOrderGrows(l, before[base..], drv.produced[base..]);
    }

    /** The cached outgoing ring has the true head, and its bytes are the first of the true ones. */
    ghost predicate RxView()
      reads this, drv, drv.rx
    {
      && rxHead < 4096 && rxTail < 4096
      && rxHead == drv.rx.head && Length(rxHead, rxTail, 4096) <= |drv.out|
    }

    /** The cached incoming ring has the true tail, and no more room than the true one. */
    ghost predicate TxView()
      reads this, drv, drv.tx
    {
      && txHead < 4096 && txTail < 4096
      && txTail == drv.tx.tail && |drv.inc| <= Length(txHead, txTail, 4096)
    }

    ghost predicate Base()
      reads this, drv.Footprint()
    {
      Core() && RxView()
    }

    /**
     The outstanding WRITE is the front of the outgoing queue; what the device acknowledged is
     what was taken off it, and what the device sent is what was accepted into the incoming one.
     */
    ghost predicate DataOk()
      reads this, drv
    {
      DataOkFor(log, xmitPending)
    }

    ghost predicate DataOkFor(l: Log, pending: nat)
      reads this`base, this`inBase, this`inSwept, drv
    {
      && pending <= |drv.out| && Outstanding(l) == drv.out[..pending]
      && base <= |drv.removed| && drv.removed[base..] == Acked(l)
      && drv.produced == drv.removed + drv.out
      && inBase <= |drv.accepted| && drv.accepted[inBase..] == Received(l)
      && drv.swept == inSwept <= inBase
    }

    /** The log has the frames `sent`, with their ids in order. */
    ghost predicate TidsFor(sent: seq<Frame>)
      reads this`tid, this`serial, this`log
    {
      tid == serial % U32 && Ordered(log, serial) && SentFrames(log) == sent
    }

    ghost predicate Tids()
      reads this
    {
      TidsFor(wire)
    }

    ghost predicate Mirrors()
      reads this
    {
      MirrorsLine(DeviceOf(log), eki) && MirrorsModem(DeviceOf(log), eki.ms)
    }

    ghost predicate SessionFor(sent: seq<Frame>)
      reads this, drv
    {
      sk >= 0 && TidsFor(sent) && DataOk() && Mirrors() && dropped == None && failures == calm
    }

    ghost predicate Session()
      reads this, drv
    {
      SessionFor(wire)
    }

    /** No connection. */
    ghost predicate Down()
      reads this, drv
    {
      && stk == [NetDown] && sk == -1 && xmitPending == 0 && tid == 0 && eki == UNSET && log == Empty
      && dropped == None && base == |drv.removed| && wire == []
    }

    /** Connected, opened and synchronized, with the frames `sent` on the wire. */
    ghost predicate UpFor(sent: seq<Frame>)
      reads this, drv
    {
      && SessionFor(sent) && ConnectedStack(stk) && eki.isOpen == 1
      && WindowOf(log) == WindowFor(stk[1])
      && DeviceOf(log).rts.Some? && DeviceOf(log).dtr.Some?
    }

    ghost predicate Up()
      reads this, drv
    {
      UpFor(wire)
    }

    /** What holds between two events. */
    ghost predicate Rest()
      reads this, drv.Footprint()
    {
      Base() && (Down() || Up())
    }

    /** What only grows, whoever acts. */
    twostate predicate Clocks()
      reads drv, drv.att
    {
      && old(drv.att.clock) <= drv.att.clock && old(drv.att.quietAt) <= drv.att.quietAt
      && |old(drv.delivered)| <= |drv.delivered|
    }

    /** Nothing left the outgoing ring, nothing joined the incoming one, and none was cleared. */
    twostate predicate Still()
      reads drv, drv.att
    {
      && drv.removed == old(drv.removed) && drv.removals == old(drv.removals)
      && old(drv.out) <= drv.out
      && drv.accepted == old(drv.accepted) && drv.swept == old(drv.swept) && |drv.inc| <= |old(drv.inc)|
      && Clocks()
    }

    /** The outgoing ring was cleared, once, with all that was in it; the incoming one only if `sweep`. */
    twostate predicate ClearedAll(sweep: bool)
      reads drv, drv.att
    {
      && |drv.removals| == |old(drv.removals)| + 1 && old(drv.removals) <= drv.removals
      && drv.removals[|old(drv.removals)|].Cleared? && old(drv.out) <= drv.removals[|old(drv.removals)|].bytes
      && drv.removed == old(drv.removed) + drv.removals[|old(drv.removals)|].bytes
      && drv.accepted == old(drv.accepted) && (!sweep ==> drv.swept == old(drv.swept))
      && Clocks()
    }

    /** At most one connection ended. */
    twostate predicate Forward()
      reads this, drv
    {
      && (Up() ==> past == old(past))
      && (past == old(past) || (past.Ended? && past.prev == old(past)))
    }

    /** The same, and no WRITE was sent. */
    twostate predicate Onward()
      reads this, drv
    {
      Forward() && writes == old(writes)
    }

    /** The attributes published by the driver, in the slot the daemon reads. */
    function Attr(): Info
      requires drv.att.slots.Length == 2
      reads this`attrPtr, drv.att.slots
    {
      drv.att.slots[attrPtr]
    }

    // ---------------------------------------------------------------- the kernel beside the daemon

    /** The kernel takes `steps`; nothing the daemon relies on is lost. */
    method Beside(steps: seq<Step>)
      requires Core()
      modifies drv.Footprint()
      ensures Core() && Still()
      ensures old(RxView()) ==> RxView()
      ensures old(TxView()) ==> TxView()
      ensures old(DataOk()) ==> DataOk()
      ensures drv.rx.head == old(drv.rx.head) && drv.tx.tail == old(drv.tx.tail)
      ensures Attr() == old(Attr())
      ensures drv.View() == AfterAll(old(drv.View()), steps, 4095, drv.fifo.buf.Length)
    {
      hide Outstanding, Acked, Received, InOrder, Lawful, RemovalsBy, AcceptedBy, WritesBy, Releases, Offset;
      hide BytesOf, Vcom.Shape, AfterAll;
      ghost var p := drv.produced;
      assert drv.att.slots[..][attrPtr] == Attr();
      drv.KernelRuns(steps);
      assert drv.att.slots[..][attrPtr] == Attr();
      LedgerGrows(log, dropped, p);
    }

    /** The kernel takes any number of steps. */
    method Interfere()
      requires Core()
      modifies drv.Footprint()
      ensures Core() && Still()
      ensures old(RxView()) ==> RxView()
      ensures old(TxView()) ==> TxView()
      ensures old(DataOk()) ==> DataOk()
      ensures drv.rx.head == old(drv.rx.head) && drv.tx.tail == old(drv.tx.tail)
      ensures Attr() == old(Attr())
    {
      hide Core, DataOkFor, AfterAll;
      var steps: seq<Step> := *;
      Beside(steps);
    }

    // ---------------------------------------------------------------- cached rings and attributes

    /** vc_buf_update for the outgoing ring, whatever the kernel does before and between its two ioctls. */
    method UpdateRx()
      requires Core()
      modifies this`rxHead, this`rxTail, drv.Footprint()
      ensures Base() && |old(drv.out)| <= Length(rxHead, rxTail, 4096)
      ensures old(TxView()) ==> TxView()
      ensures old(DataOk()) ==> DataOk()
      ensures Still() && Attr() == old(Attr())
    {
      hide Core, DataOkFor, AfterAll;
      var before: seq<Step>, between: seq<Step> := *, *;
      SnapRx(before, between);
    }

    /** The kernel takes steps before the head is read and between the head and the tail. */
    method SnapRx(before: seq<Step>, between: seq<Step>)
      requires Core()
      modifies this`rxHead, this`rxTail, drv.Footprint()
      ensures Base() && |old(drv.out)| <= Length(rxHead, rxTail, 4096) == |drv.out|
      ensures old(TxView()) ==> TxView()
      ensures old(DataOk()) ==> DataOk()
      ensures Still() && Attr() == old(Attr())
      ensures drv.View() == Twice(old(drv.View()), before, between, drv.fifo.buf.Length)
    {
      hide DataOkFor, Core, AfterAll;
      Beside(before);
      var head := drv.rx.head;
      Beside(between);
      var tail := ReadRxTail();
      CacheRx(head, tail);
    }

    /** The kernel takes steps, and then others. */
    static function Twice(q: Queues, before: seq<Step>, between: seq<Step>, buffer: nat): Queues
      requires |q.out| <= 4095
    {
      AfterAll(AfterAll(q, before, 4095, buffer), between, 4095, buffer)
    }

    method CacheRx(head: nat, tail: nat)
      requires Core() && head < 4096 && tail < 4096
      modifies this`rxHead, this`rxTail
      ensures Core() && rxHead == head && rxTail == tail
    {
      hide LedgerFor, Linked, Vcom.Footprint;
      rxHead, rxTail := head, tail;
    }

    method ReadRxTail() returns (tail: nat)
      requires Core()
      ensures tail < 4096 && drv.rx.head < 4096 && Length(drv.rx.head, tail, 4096) == |drv.out|
    {
      tail := drv.rx.tail;
    }

    /** vc_buf_update for the incoming ring, whatever the kernel does before and between its two ioctls. */
    method UpdateTx()
      requires Core()
      modifies this`txHead, this`txTail, drv.Footprint()
      ensures Core() && TxView() && Length(txHead, txTail, 4096) <= |old(drv.inc)|
      ensures old(RxView()) ==> RxView()
      ensures old(DataOk()) ==> DataOk()
      ensures Still() && Attr() == old(Attr())
    {
      hide Core, DataOkFor, AfterAll;
      var before: seq<Step>, between: seq<Step> := *, *;
      SnapTx(before, between);
    }

    /** The length is that of the instant at which the head was read. */
    method SnapTx(before: seq<Step>, between: seq<Step>)
      requires Core()
      modifies this`txHead, this`txTail, drv.Footprint()
      ensures Core() && TxView() && Length(txHead, txTail, 4096) <= |old(drv.inc)|
      ensures old(RxView()) ==> RxView()
      ensures old(DataOk()) ==> DataOk()
      ensures Still() && Attr() == old(Attr())
      ensures drv.View() == Twice(old(drv.View()), before, between, drv.fifo.buf.Length)
      ensures Length(txHead, txTail, 4096) == |AfterAll(old(drv.View()), before, 4095, drv.fifo.buf.Length).inc|
    {
      hide DataOkFor, Core, AfterAll;
      Beside(before);
      var head := ReadTxHead();
      Beside(between);
      CacheTx(head, drv.tx.tail);
    }

    method CacheTx(head: nat, tail: nat)
      requires Core() && head < 4096 && tail < 4096
      modifies this`txHead, this`txTail
      ensures Core() && txHead == head && txTail == tail
    {
      hide LedgerFor, Linked, Vcom.Footprint;
      txHead, txTail := head, tail;
    }

    method ReadTxHead() returns (head: nat)
      requires Core()
      ensures head < 4096 && drv.tx.tail < 4096 && Length(head, drv.tx.tail, 4096) == |drv.inc|
    {
      head := drv.tx.head;
    }

    /** vc_buf_update for the attributes. */
    method UpdateAttr()
      requires Base()
      modifies this`attrPtr, drv.Footprint()
      ensures Base()
      ensures old(DataOk()) ==> DataOk()
      ensures Still()
      ensures Attr() == drv.att.attr && !drv.att.Pri()
    {
      hide DataOkFor, LedgerFor, Vcom.Valid;
      Interfere();
      attrPtr := drv.FlushAttr();
    }

    /** vc_buf_clear of the outgoing ring, and of the incoming one if asked. */
    method ClearRings(clrTx: bool)
      requires Base() && dropped == None
      modifies this`rxHead, this`rxTail, this`txHead, this`txTail, this`dropped, drv.Footprint()
      ensures Base() && ClearedAll(clrTx) && Attr() == old(Attr())
      ensures dropped == Some(drv.removals[|old(drv.removals)|].bytes)
      ensures clrTx ==> drv.inc == [] && TxView() && txHead == txTail
    {
      hide DataOkFor, LedgerFor, Linked;
      Interfere();
      MarkAndMove(clrTx);
      UpdateRx();
      if clrTx {
        UpdateTx();
      }
    }

    /** The two ioctls of a clear, the kernel in between. */
    method Wipe(clrTx: bool)
      requires Core()
      modifies drv.Footprint()
      ensures Linked() && ClearedAll(clrTx) && old(drv.produced) <= drv.produced && (clrTx ==> drv.inc == [])
      ensures drv.removals == old(drv.removals) + [Cleared(drv.removals[|old(drv.removals)|].bytes)]
      ensures drv.att.usrPtr == old(drv.att.usrPtr) && drv.att.slots[..] == old(drv.att.slots[..])
    {
      hide LedgerFor, BytesOf, Vcom.Shape, AfterAll;
      drv.Clear(true, clrTx);
      var steps: seq<Step> := *;
      drv.KernelRuns(steps);
      drv.SetRxHead(0);
    }

    /** The clear, and its place in the account. */
    method MarkAndMove(clrTx: bool)
      requires Core() && dropped == None
      modifies this`dropped, drv.Footprint()
      ensures Core() && ClearedAll(clrTx) && Attr() == old(Attr())
      ensures dropped == Some(drv.removals[|old(drv.removals)|].bytes) && (clrTx ==> drv.inc == [])
    {
      hide InOrder, Lawful, RemovalsBy, AcceptedBy, WritesBy, Releases, Offset, BytesOf, Linked;
      ghost var p := drv.produced;
      assert drv.att.slots[..][attrPtr] == Attr();
      Wipe(clrTx);
      assert drv.att.slots[..][attrPtr] == Attr();
      dropped := Some(drv.removals[|drv.removals| - 1].bytes);
      LedgerGrows(log, dropped, p);
    }

    // ---------------------------------------------------------------- the state stack

    function Current(): Ops
      requires |stk| > 0
      reads this`stk
    {
      stk[|stk| - 1]
    }

    method Push(o: Ops) returns (r: int)
      modifies this`stk
      ensures if |old(stk)| >= 10 then r == -1 && stk == old(stk) else r == 0 && stk == old(stk) + [o]
    {
      if |stk| >= STACK_MAX {
        return -1;
      }
      stk := stk + [o];
      return 0;
    }

    method Pop() returns (r: int)
      modifies this`stk
      ensures if old(stk) == [] then r == -1 && stk == [] else r == 0 && stk == old(stk)[..|old(stk)| - 1]
    {
      if stk == [] {
        return -1;
      }
      stk := stk[..|stk| - 1];
      return 0;
    }

    /** stk_excp and stk_restart: back to the bottom, refused when there already. */
    method Excp() returns (r: int)
      requires |stk| > 0
      modifies this`stk
      ensures stk == old(stk)[..1] && r == if |old(stk)| == 1 then -1 else 0
    {
      if |stk| == 1 {
        return -1;
      }
      stk := stk[..1];
      return 0;
    }

    method Replace(o: Ops)
      requires |stk| > 0
      modifies this`stk
      ensures stk == old(stk)[..|old(stk)| - 1] + [o]
    {
      stk := stk[..|stk| - 1] + [o];
    }

    // ---------------------------------------------------------------- sending

    /**
     vc_check_send: the kernel runs, and the frames in the buffer either go out or do not. Without
     frames, an ioctl whose failure the daemon acts on.
     */
    method Transmit(frames: seq<Frame>) returns (ok: bool)
      requires Core()
      modifies this`failures, this`wire, drv.Footprint()
      ensures Core()
      ensures old(RxView()) ==> RxView()
      ensures old(TxView()) ==> TxView()
      ensures old(DataOk()) ==> DataOk()
      ensures Still()
      ensures Attr() == old(Attr())
      ensures failures == old(failures) + (if ok then 0 else 1) && wire == old(wire) + if ok then frames else []
    {
      hide DataOkFor, LedgerFor, Linked;
      Interfere();
      ok := *;
      failures, wire := failures + (if ok then 0 else 1), wire + if ok then frames else [];
    }

    /**
     Sends `f`, which was packed with the current transaction id, and then moves on to the next
     id. A send that failed may have left part of `f` on the wire; the log holds whole frames.
     */
    method Send(f: Frame) returns (ok: bool)
      requires Core() && Tids() && Packed(f, tid, 1024) && f.cmd != CMD_CREATE && f.cmd != CMD_WRITE
      modifies this`tid, this`serial, this`log, this`failures, this`wire, drv.Footprint()
      ensures Core() && Tids() && serial == old(serial) + if ok then 1 else 0
      ensures log == if ok then Then(old(log), Sent(old(serial), f)) else old(log)
      ensures old(RxView()) ==> RxView()
      ensures old(TxView()) ==> TxView()
      ensures old(DataOk()) ==> DataOk()
      ensures Still()
      ensures Attr() == old(Attr())
      ensures old(failures) <= failures && (ok <==> failures == old(failures))
    {
      hide LedgerFor, Linked;
      ok := Transmit([f]);
      if ok {
        SentLedger(log, dropped, serial, f);
        log := Then(log, Sent(serial, f));
        NextId();
      }
    }

    lemma SentLedger(l: Log, clear: Option<seq<byte>>, s: nat, f: Frame)
      requires LedgerFor(l, clear) && f.cmd != CMD_WRITE
      ensures LedgerFor(Then(l, Sent(s, f)), clear)
    {
      hide RemovalsBy, AcceptedBy, WritesBy, Offset, Lawful, ClearOf;
    }

    /** tid++ on an unsigned int. */
    method NextId()
      requires tid == serial % U32
      modifies this`tid, this`serial
      ensures serial == old(serial) + 1 && tid == serial % U32
    {
      assert (serial + 1) % U32 == (serial % U32 + 1) % U32;
      tid, serial := (tid + 1) % U32, serial + 1;
    }

    // ---------------------------------------------------------------- init

    /** Higher ranks call lower ones; see the decreases clauses of the handlers. */
    static function InitRank(top: Ops): nat {
      match top
      case Sync => 6
      case Idle => 4
      case _ => 1
    }

    /** Ready to send the settings a connection begins with. */
    ghost predicate Syncing()
      reads this, drv
    {
      && Session() && |stk| == 3 && stk[0] == NetDown && Online(stk[1]) && stk[2] == Sync && eki.isOpen == 1
      && (stk[1] == NetUp <==> txHead == txTail)
    }

    /** The log grew by the frames a connection begins with, and the stack lost Sync. */
    ghost predicate Greeted(was: seq<Ops>, s: nat, l: Log, ms: nat)
      reads this`stk, this`log
    {
      && |was| == 3 && stk == was[..2]
      && SentFrames(log) == SentFrames(l) + Handshake(s, ms, WindowFor(stk[1]).value)
    }

    /** The init operation of the state on top of the stack. */
    method Init()
      requires Base() && (stk == [NetDown] || Syncing() || Up())
      modifies this, drv.Footprint()
      ensures Rest()
      ensures old(stk) == [NetDown] ==>
                && Down() && past == Ended(old(past), old(log), old(dropped)) && drv.inc == old(drv.inc)
                && rxHead == old(rxHead) && rxTail == old(rxTail)
      ensures old(Up() && |stk| == 2) ==>
                && Up() && log == old(log) && xmitPending == old(xmitPending)
                && |old(drv.out)| <= Length(rxHead, rxTail, 4096)
                && TxView() && Length(txHead, txTail, 4096) <= |old(drv.inc)|
      ensures old(Up()) && Up() ==> stk == old(stk) && eki == old(eki)
      ensures old(Syncing()) && Up() ==> Greeted(old(stk), old(serial), old(log), Attr().ms)
      ensures Still() && Attr() == old(Attr())
      ensures if old(stk) == [NetDown] then failures == old(failures)
              else old(failures) <= failures && (Up() <==> failures == old(failures))
      ensures old(Up() && |stk| == 3) && Up() ==>
              log == Then(old(log), Sent(old(serial), PackIoctl(old(tid), GET_WAIT_MASK, [])))
      ensures writes == old(writes) && (old(Up() || Syncing()) ==> Onward())
      decreases InitRank(Current())
    {
      hide DataOkFor, LedgerFor, Linked, Ordered, MirrorsLine, MirrorsModem, DeviceOf;
      match Current() {
        case NetDown => NetDownInit();
        case Sync => SyncInit();
        case Idle => IdleInit();
        case _ => OnlineInit();
      }
    }

    /** A connection that is over joins the history. */
    lemma Archived(l: Log, clear: Option<seq<byte>>)
      requires Linked() && LedgerFor(l, clear)
      ensures var p := Ended(past, l, clear);
              && drv.removals == RemovalsBy(p) && Offset(p) == |drv.removed| <= |drv.produced|
              && drv.accepted == AcceptedBy(p) && writes == WritesBy(p)
              && Lawful(p, drv.produced)
    {
      hide InOrder, Releases, BytesOf, Vcom.Shape;
    }

    /** vc_netdown_init: the socket goes, and with it all that was known of the device. */
    method NetDownInit()
      requires Base() && stk == [NetDown]
      modifies this`sk, this`tid, this`xmitPending, this`eki, this`log, this`serial, this`past, this`dropped, this`base
      modifies this`wire
      ensures Base() && Down() && past == Ended(old(past), old(log), old(dropped))
      decreases 0
    {
      hide Linked, LedgerFor, Vcom.Footprint;
      if sk >= 0 {
        sk := -1;
      }
      tid, xmitPending, eki := 0, 0, UNSET;
      Archive();
    }

    /** The connection is over. */
    ghost method Archive()
      requires Base()
      modifies this`log, this`serial, this`past, this`dropped, this`base, this`wire
      ensures Base() && past == Ended(old(past), old(log), old(dropped))
      ensures log == Empty && dropped == None && base == |drv.removed| && wire == []
    {
      hide Linked, Vcom.Footprint, RemovalsBy, AcceptedBy, WritesBy, Offset, Lawful;
      Archived(log, dropped);
      past, base, log, dropped, serial, wire := Ended(past, log, dropped), |drv.removed|, Empty, None, 0, [];
    }

    /** stk_excp followed by the init of Net Down. The stack is never at its bottom already. */
    method Fault()
      requires Base() && |stk| > 1
      modifies this, drv.Footprint()
      ensures Base() && Down() && past == Ended(old(past), old(log), old(dropped)) && failures == old(failures)
      ensures writes == old(writes) && rxHead == old(rxHead) && rxTail == old(rxTail)
      ensures Still() && drv.inc == old(drv.inc) && Attr() == old(Attr())
      decreases 2
    {
      hide DataOkFor, LedgerFor, Linked, Ordered, MirrorsLine, MirrorsModem, DeviceOf;
      var r := Excp();
      assert r == 0;
      Init();
    }

    /** vc_netup_init and vc_pause_init. */
    method OnlineInit()
      requires Base() && Up() && |stk| == 2
      modifies this`rxHead, this`rxTail, this`txHead, this`txTail, drv.Footprint()
      ensures Base() && Up() && Still() &&
              Attr() == old(Attr())
      ensures |old(drv.out)| <= Length(rxHead, rxTail, 4096)
      ensures TxView() && Length(txHead, txTail, 4096) <= |old(drv.inc)|
      decreases 0
    {
      hide DataOkFor, LedgerFor, Linked, Ordered, MirrorsLine, MirrorsModem, DeviceOf;
      UpdateRx();
      UpdateTx();
    }

    /** vc_idle_init: ask for a sign of life. */
    method IdleInit()
      requires Base() && Up() && |stk| == 3
      modifies this, drv.Footprint()
      ensures Rest() && Onward() && Still() && Attr() == old(Attr())
      ensures Up() ==> stk == old(stk) && eki == old(eki)
      ensures old(failures) <= failures && (Up() <==> failures == old(failures))
      ensures Up() ==> log == Then(old(log), Sent(old(serial), PackIoctl(old(tid), GET_WAIT_MASK, [])))
      decreases 3
    {
      hide DataOkFor, LedgerFor, Linked, Ordered, MirrorsLine, MirrorsModem;
      var ok := Send(PackIoctl(tid, GET_WAIT_MASK, []));
      if !ok {
        Fault();
      }
    }

    /** One modem line is set or cleared. */
    method SendLine(rts: bool, on: bool) returns (ok: bool)
      requires Base() && Tids() && DataOk()
      modifies this`tid, this`serial, this`log, this`failures, this`wire, drv.Footprint()
      ensures Base() && Still() && Attr() == old(Attr())
      ensures ok ==> Tids() && DataOk() && serial == old(serial) + 1
      ensures ok ==> DeviceOf(log) == if rts then old(DeviceOf(log)).(rts := Some(on))
                                      else old(DeviceOf(log)).(dtr := Some(on))
      ensures ok ==> SentFrames(log) == old(SentFrames(log)) + [ModemFrame(old(serial) % U32, rts, on)]
      ensures WindowOf(log) == old(WindowOf(log))
      ensures old(failures) <= failures && (ok <==> failures == old(failures))
    {
      hide DataOkFor, LedgerFor, Linked, Ordered, Apply;
      ModemArrives(DeviceOf(log), tid, rts, on);
      ok := Send(ModemFrame(tid, rts, on));
    }

    /** _sync_ms: both modem lines, whatever they were before. */
    method SyncMs(ms: nat) returns (ok: bool)
      requires Base() && Session()
      modifies this`tid, this`serial, this`log, this`failures, this`wire, drv.Footprint()
      ensures Base() && Still()
      ensures ok ==> Tids() && DataOk() &&
                     DeviceOf(log) == old(DeviceOf(log)).(rts := Some(Flag(ms, 0x04)), dtr := Some(Flag(ms, 0x02)))
      ensures WindowOf(log) == old(WindowOf(log)) && Attr() == old(Attr())
      ensures ok ==> serial == old(serial) + 2
      ensures ok ==> SentFrames(log) == old(SentFrames(log)) + Handshake(old(serial), ms, 0)[..2]
      ensures old(failures) <= failures && (ok <==> failures == old(failures))
    {
      hide DataOkFor, LedgerFor, Linked, Rts, Dtr, Flag, TidsFor, DeviceOf, WindowOf, SentFrames;
      hide ModemFrame, EventFrames;
      var step := 0;
      ghost var d := DeviceOf(log);
      while step < 2
        invariant 0 <= step <= 2 && Base() && Tids() && DataOk() && Still()
        invariant DeviceOf(log) == if step == 0 then d else if step == 1 then d.(rts := Some(Flag(ms, 0x04)))
                                   else d.(rts := Some(Flag(ms, 0x04)), dtr := Some(Flag(ms, 0x02)))
        invariant failures == old(failures)
        invariant serial == old(serial) + step &&
                SentFrames(log) == old(SentFrames(log)) + Handshake(old(serial), ms, 0)[..step]
        invariant WindowOf(log) == old(WindowOf(log)) && Attr() == old(Attr())
      {
        ModemBits(ms);
        ok := SendLine(step == 0, if step == 0 then Rts(ms) else Dtr(ms));
        if !ok {
          return;
        }
        step := step + 1;
      }
      ok := true;
    }

    /** Sends a subcommand that sets nothing. */
    method Ask(subcmd: nat, ext: seq<byte>) returns (ok: bool)
      requires Base() && Session() && |ext| <= 16
      requires subcmd in {GET_WAIT_MASK, SET_WAIT_MASK, WAIT_ON_MASK, GET_MODEMSTATUS}
      modifies this`tid, this`serial, this`log, this`failures, this`wire, drv.Footprint()
      ensures Base() && Still() && Attr() == old(Attr())
      ensures ok ==> Session() && serial == old(serial) + 1
      ensures DeviceOf(log) == old(DeviceOf(log)) && WindowOf(log) == old(WindowOf(log))
      ensures ok ==> SentFrames(log) == old(SentFrames(log)) + [PackIoctl(old(serial) % U32, subcmd, ext)]
      ensures old(failures) <= failures && (ok <==> failures == old(failures))
    {
      hide DataOkFor, LedgerFor, Linked, Ordered, MirrorsLine, MirrorsModem;
      ok := Send(PackIoctl(tid, subcmd, ext));
    }

    /** _sync_event: register for modem events and ask for the state of the lines. */
    method SyncEvent() returns (ok: bool)
      requires Base() && Session()
      modifies this`tid, this`serial, this`log, this`failures, this`wire, drv.Footprint()
      ensures Base() && Still()
      ensures ok ==> Session()
      ensures DeviceOf(log) == old(DeviceOf(log)) && WindowOf(log) == old(WindowOf(log)) && Attr() == old(Attr())
      ensures ok ==> serial == old(serial) + 2
      ensures ok ==> SentFrames(log) == old(SentFrames(log)) + EventFrames(old(serial))
      ensures old(failures) <= failures && (ok <==> failures == old(failures))
    {
      hide SessionFor, LedgerFor, Linked, DeviceOf, WindowOf, SentFrames;
      ok := Ask(SET_WAIT_MASK, Be32(0x38010000));
      if !ok {
        return;
      }
      ok := Ask(GET_MODEMSTATUS, []);
    }

    /** _sync_queue: the window follows the cached incoming ring, as the stack slot did. */
    method SyncQueue() returns (ok: bool)
      requires Base() && Session()
      modifies this`tid, this`serial, this`log, this`failures, this`wire, drv.Footprint()
      ensures Base() && Still() && Attr() == old(Attr())
      ensures ok ==> Session() && WindowOf(log) == Some(if txHead == txTail then 1024 else 0)
      ensures DeviceOf(log) == old(DeviceOf(log))
      ensures ok ==> SentFrames(log) == old(SentFrames(log)) +
                     [PackQueueFree(old(serial) % U32, if txHead == txTail then 1024 else 0)]
      ensures old(failures) <= failures && (ok <==> failures == old(failures))
    {
      hide DataOkFor, LedgerFor, Linked, Ordered, MirrorsLine, MirrorsModem;
      var qfsize := if txHead == txTail then 1024 else 0;
      ok := Send(PackQueueFree(tid, qfsize));
    }

    /** The modem lines, and the shadow with them. */
    method SyncModem() returns (ok: bool)
      requires Base() && Session()
      modifies this`tid, this`serial, this`log, this`eki, this`failures, this`wire, drv.Footprint()
      ensures Base() && Still() &&
              eki.isOpen == old(eki.isOpen)
      ensures ok ==> Session() && DeviceOf(log).rts.Some? && DeviceOf(log).dtr.Some?
      ensures Attr() == old(Attr())
      ensures ok ==> serial == old(serial) + 2
      ensures ok ==> SentFrames(log) == old(SentFrames(log)) + Handshake(old(serial), Attr().ms, 0)[..2]
      ensures old(failures) <= failures && (ok <==> failures == old(failures))
    {
      hide DataOkFor, LedgerFor, Linked, Ordered, MirrorsLine, Flag;
      var ms := Attr().ms;
      ghost var d := DeviceOf(log);
      ok := SyncMs(ms);
      if !ok {
        return;
      }
      ModemApart(d, eki, Some(Flag(ms, 0x04)), Some(Flag(ms, 0x02)), ms);
      eki := eki.(ms := ms);
    }

    /** The frames of vc_sync_init. */
    method SyncAll() returns (ok: bool)
      requires Base() && Session()
      modifies this`tid, this`serial, this`log, this`eki, this`failures, this`wire, drv.Footprint()
      ensures Base() && Still() && eki.isOpen == old(eki.isOpen) && Attr() == old(Attr())
      ensures ok ==> Session() && DeviceOf(log).rts.Some? && DeviceOf(log).dtr.Some?
      ensures ok ==> WindowOf(log) == Some(if txHead == txTail then 1024 else 0)
      ensures ok ==> SentFrames(log) == old(SentFrames(log)) +
                                        Handshake(old(serial), Attr().ms, if txHead == txTail then 1024 else 0)
      ensures old(failures) <= failures && (ok <==> failures == old(failures))
    {
      hide SessionFor, LedgerFor, Linked;
      ok := SyncModem();
      if !ok {
        return;
      }
      ok := SyncEvent();
      if !ok {
        return;
      }
      ok := SyncQueue();
    }

    /** vc_sync_init. */
    method SyncInit()
      requires Base() && Syncing()
      modifies this, drv.Footprint()
      ensures Rest() && Onward() && Still() && Attr() == old(Attr())
      ensures Up() ==> Greeted(old(stk), old(serial), old(log), Attr().ms)
      ensures old(failures) <= failures && (Up() <==> failures == old(failures))
      decreases 5
    {
      hide SessionFor, LedgerFor, Linked, Handshake, DeviceOf, WindowOf, SentFrames;
      var ok := SyncAll();
      if !ok {
        Fault();
      } else {
        SyncDone();
      }
    }

    /** stk_pop and the init of the state below. */
    method SyncDone()
      requires Base() && Session() && |stk| == 3 && stk[0] == NetDown && Online(stk[1]) && eki.isOpen == 1
      requires WindowOf(log) == WindowFor(stk[1]) && DeviceOf(log).rts.Some? && DeviceOf(log).dtr.Some?
      modifies this, drv.Footprint()
      ensures Rest() && Up() && stk == old(stk)[..2] && log == old(log) && Still() && Attr() == old(Attr())
      ensures failures == old(failures)
      ensures past == old(past)
      ensures writes == old(writes) && eki == old(eki)
      ensures |old(drv.out)| <= Length(rxHead, rxTail, 4096)
      ensures TxView() && Length(txHead, txTail, 4096) <= |old(drv.inc)|
      decreases 4
    {
      hide DataOkFor, LedgerFor, Linked, Ordered, MirrorsLine, MirrorsModem, DeviceOf, WindowOf;
      var r := Pop();
      assert r == 0;
      Init();
    }

    // ---------------------------------------------------------------- open

    lemma Streams()
      requires Core()
      ensures drv.produced == drv.removed + drv.out && base <= |drv.produced|
    {
    }

    /** A socket is there, nothing was sent on it, and the slot above Net Down fits the incoming ring. */
    ghost predicate Connecting()
      reads this, drv
    {
      && |stk| == 2 && stk[0] == NetDown && Online(stk[1]) && (stk[1] == NetUp <==> txHead == txTail)
      && sk >= 0 && log == Empty && eki == UNSET && xmitPending == 0 && tid == 0 && serial == 0 && failures == calm
      && base == |drv.removed| && inBase == |drv.accepted| && inSwept == drv.swept <= inBase && dropped == None
    }

    static function OpenRank(top: Ops): nat {
      if top == NetDown then 10 else 8
    }

    /** The frames on the wire once a connection is up. */
    ghost predicate Greeting()
      requires drv.att.slots.Length == 2 && devid < U16 && port < U32
      reads this, drv.att.slots
    {
      |stk| == 2 && SentFrames(log) == [PackOpen(devid, port)] + Handshake(1, Attr().ms, WindowFor(stk[1]).value)
    }

    /** The same, byte by byte. */
    lemma GreetingBytes()
      requires drv.att.slots.Length == 2 && devid < U16 && port < U32 && Tids() && Greeting()
      ensures AllValid(wire)
      ensures EncodeAll(wire) == Wire.Opening(devid, port, Attr().ms, if stk[1] == NetUp then 1024 else 0)
    {
      hide SentFrames, Handshake, EncodeAll, Wire.Opening;
      Wire.OpeningBytes(devid, port, Attr().ms, if stk[1] == NetUp then 1024 else 0);
    }

    /** The open operation of the state on top of the stack; `ret` is what a connect would return. */
    method Open(ret: int)
      requires Base() && (Down() || (Connecting() && wire == []))
      modifies this, drv.Footprint()
      ensures Rest() && Onward() && Attr() == old(Attr())
      ensures if old(Down()) && ret < 0 then Down() && ClearedAll(false) else Still()
      ensures Up() ==> Greeting()
      ensures old(failures) <= failures && (Up() <==> failures == old(failures))
      decreases OpenRank(Current())
    {
      hide DataOkFor, LedgerFor, Linked;
      match Current() {
        case NetDown => NetDownOpen(ret);
        case NetUp => CommonOpen();
        case Pause => CommonOpen();
        case Idle => assert false;   // vc_idle_open is never reached
        case Sync => assert false;   // vc_sync_open, which ends the process, is never reached
      }
    }

    /** vc_netdown_open: a failed connect clears the outgoing ring, a successful one takes nothing off it. */
    method NetDownOpen(ret: int)
      requires Base() && Down()
      modifies this, drv.Footprint()
      ensures Rest() && Onward() && Attr() == old(Attr())
      ensures if ret < 0 then Down() && ClearedAll(false) else Still()
      ensures Up() ==> Greeting()
      ensures old(failures) <= failures && (Up() <==> failures == old(failures))
      decreases 9
    {
      hide DataOkFor, LedgerFor, Linked, Greeting;
      Interfere();
      if ret < 0 {
        GiveUp();
      } else {
        BeginConnection(ret);
        Open(ret);
      }
    }

    /** The connect failed. */
    method GiveUp()
      requires Base() && Down()
      modifies this, drv.Footprint()
      ensures Base() && Down() && Onward() && ClearedAll(false) && Attr() == old(Attr())
      ensures failures == old(failures) + 1
    {
      hide DataOkFor, LedgerFor, Linked;
      ClearRings(false);
      NoSocket();
    }

    method NoSocket()
      requires Base() && log == Empty && dropped.Some?
      requires stk == [NetDown] && xmitPending == 0 && tid == 0 && eki == UNSET
      modifies this`sk, this`failures, this`wire, this`log, this`serial, this`past, this`dropped, this`base
      ensures Base() && Down() && failures == old(failures) + 1 && past == Ended(old(past), Empty, old(dropped))
    {
      hide Linked, LedgerFor, Vcom.Footprint;
      Archive();
      sk, failures := -1, failures + 1;
    }

    /** The socket is there: the first state above Net Down depends on the incoming ring. */
    method BeginConnection(s: nat)
      requires Base() && Down()
      modifies this`sk, this`stk, this`inBase, this`inSwept, this`serial, this`calm
      ensures Base() && Connecting()
    {
      hide DataOkFor, LedgerFor, Linked;
      Attach(s);
      var r := Push(if txHead == txTail then NetUp else Pause);
      assert r == 0;
    }

    method Attach(s: nat)
      requires Base() && Down()
      modifies this`sk, this`inBase, this`inSwept, this`serial, this`calm
      ensures Base() && sk == s && inBase == |drv.accepted| && inSwept == drv.swept <= inBase
      ensures serial == 0 && calm == failures
    {
      hide DataOkFor, LedgerFor, Linked, Vcom.Footprint;
      Swept();
      sk, inBase, inSwept, serial, calm := s, |drv.accepted|, drv.swept, 0, failures;
    }

    lemma Swept()
      requires Linked()
      ensures drv.swept <= |drv.accepted|
    {
    }

    lemma OpenSent(s: nat, f: Frame)
      requires Linked() && base == |drv.removed| && inBase == |drv.accepted| && inSwept == drv.swept <= inBase
      requires LedgerFor(Empty, None) && f.cmd == CMD_CREATE
      ensures DataOkFor(Then(Empty, Sent(s, f)), 0) && LedgerFor(Then(Empty, Sent(s, f)), None)
    {
    }

    lemma OpenShadow(s: nat, f: Frame)
      requires f.cmd == CMD_CREATE && ValidFrame(f)
      ensures var l := Then(Empty, Sent(s, f));
              && Ordered(l, 1) && MirrorsLine(DeviceOf(l), UNSET.(isOpen := 1))
              && MirrorsModem(DeviceOf(l), UNSET.ms)
    {
      assert DeviceOf(Empty) == BLANK;
    }

    /** CREATE went out: the shadow says open. */
    method Opened()
      requires Base() && Connecting() && wire == [PackOpen(devid, port)]
      modifies this`log, this`tid, this`serial, this`eki
      ensures Base() && Session() && eki.isOpen == 1 && serial == 1 && SentFrames(log) == [PackOpen(devid, port)]
    {
      hide DataOkFor, LedgerFor, Linked, Vcom.Footprint, Ordered, MirrorsLine, MirrorsModem, DeviceOf;
      LogOpen(PackOpen(devid, port));
      eki, tid := eki.(isOpen := 1), (tid + 1) % U32;
    }

    /** The log begins with CREATE. */
    ghost method LogOpen(f: Frame)
      requires Base() && Connecting() && f.cmd == CMD_CREATE && ValidFrame(f) && wire == [f]
      modifies this`log, this`serial
      ensures Base() && DataOk() && serial == 1 && SentFrames(log) == [f] && Ordered(log, 1)
      ensures MirrorsLine(DeviceOf(log), UNSET.(isOpen := 1)) && MirrorsModem(DeviceOf(log), UNSET.ms)
    {
      hide DataOkFor, LedgerFor, Linked, Vcom.Footprint, Ordered, MirrorsLine, MirrorsModem, DeviceOf;
      OpenSent(serial, f);
      OpenShadow(serial, f);
      log, serial := Then(log, Sent(serial, f)), serial + 1;
    }

    /** CREATE went out: the settings come next. */
    method EnterSync()
      requires Base() && Connecting() && wire == [PackOpen(devid, port)]
      modifies this`log, this`tid, this`serial, this`eki, this`stk
      ensures Base() && Syncing() && stk == old(stk) + [Sync] && serial == 1
      ensures SentFrames(log) == [PackOpen(devid, port)]
    {
      hide DataOkFor, LedgerFor, Linked, Ordered, MirrorsLine, MirrorsModem, DeviceOf;
      Opened();
      var r := Push(Sync);
      assert r == 0;
    }

    /** vc_common_open: CREATE, always with transaction id 1. */
    method CommonOpen()
      requires Base() && Connecting() && wire == []
      modifies this, drv.Footprint()
      ensures Rest() && Onward() && Still() && Attr() == old(Attr())
      ensures Up() ==> Greeting()
      ensures old(failures) <= failures && (Up() <==> failures == old(failures))
      decreases 7
    {
      hide DataOkFor, LedgerFor, Linked, Ordered, MirrorsLine, MirrorsModem, DeviceOf, WindowOf, SentFrames;
      var ok := Transmit([PackOpen(devid, port)]);
      if !ok {
        Fault();
      } else {
        Establish();
      }
    }

    /** CREATE went out. */
    method Establish()
      requires Base() && Connecting() && wire == [PackOpen(devid, port)]
      modifies this, drv.Footprint()
      ensures Rest() && Onward() && Still() && Attr() == old(Attr())
      ensures Up() ==> Greeting()
      ensures old(failures) <= failures && (Up() <==> failures == old(failures))
      decreases 7, 0
    {
      hide DataOkFor, LedgerFor, Linked, Ordered, MirrorsLine, MirrorsModem, DeviceOf, WindowOf, SentFrames, Handshake;
      EnterSync();
      Init();
    }

    // ---------------------------------------------------------------- close

    /** vc_common_purge: a failure is ignored. */
    method CommonPurge()
      requires Base() && Tids()
      modifies this`tid, this`serial, this`log, this`failures, this`wire, drv.Footprint()
      ensures Base() && Tids() && Still() &&
              Attr() == old(Attr())
      ensures old(failures) <= failures
      ensures failures == old(failures) ==>
              log == Then(old(log), Sent(old(serial), PackIoctl(old(tid), PURGE, Le32(0x0000000f))))
      ensures failures == old(failures) ==> serial == old(serial) + 1
    {
      hide DataOkFor, LedgerFor, Linked, Ordered;
      var _ := Send(PackIoctl(tid, PURGE, Le32(0x0000000f)));
    }

    /** The close operation of Net Up, Pause and Idle: both rings are cleared, the port is given up. */
    method Close()
      requires Base() && Up()
      modifies this, drv.Footprint()
      ensures Base() && Down() && Onward() && ClearedAll(true) && Attr() == old(Attr())
      ensures past.Ended? && past.prev == old(past) && past.clear.Some? && drv.inc == []
      ensures old(failures) <= failures
      ensures failures == old(failures) ==>
                past.log ==
                Then(Then(old(log), Sent(old(serial), PackIoctl(old(serial) % U32, PURGE, Le32(0x0000000f)))),
                             Sent(old(serial) + 1, PackClose((old(serial) + 1) % U32)))
    {
      hide DataOkFor, LedgerFor, Linked, Ordered, Mirrors, DeviceOf, WindowOf, SentFrames;
      ClearRings(true);
      Leave();
    }

    /** PURGE and CLOSE. */
    method Leave()
      requires Base() && Tids() && |stk| > 1
      modifies this, drv.Footprint()
      ensures Base() && Down() && Onward() && Still() && Attr() == old(Attr())
      ensures past.Ended? && past.prev == old(past) && past.clear == old(dropped)
      ensures old(failures) <= failures
      ensures failures == old(failures) ==>
                past.log ==
                Then(Then(old(log), Sent(old(serial), PackIoctl(old(serial) % U32, PURGE, Le32(0x0000000f)))),
                             Sent(old(serial) + 1, PackClose((old(serial) + 1) % U32)))
    {
      hide DataOkFor, LedgerFor, Linked, Ordered, SentFrames;
      CommonPurge();
      CommonClose();
    }

    /** vc_common_close. */
    method CommonClose()
      requires Base() && Tids() && |stk| > 1
      modifies this, drv.Footprint()
      ensures Base() && Down() && past.Ended? && past.prev == old(past) && past.clear == old(dropped) && Still() &&
              Attr() == old(Attr())
      ensures old(failures) <= failures
      ensures failures == old(failures) ==> past.log == Then(old(log), Sent(old(serial), PackClose(old(tid))))
      ensures writes == old(writes)
    {
      hide DataOkFor, LedgerFor, Linked, Ordered;
      eki := eki.(isOpen := 0, stop := STOP_UNDEF, flowctl := FLOW_UNDEF, pair := PAIR_UNDEF);
      var _ := Send(PackClose(tid));
      Fault();      // stk_excp after a failure, else stk_restart, which is the same
    }

    // ---------------------------------------------------------------- pause, resume, poll

    /** vc_netup_pause and vc_pause_resume: tell the device the new window, then change the slot. */
    method SwitchWindow(to: Ops)
      requires Base() && Up() && |stk| == 2 && Online(to)
      modifies this, drv.Footprint()
      ensures Rest() && Onward() && Still() && Attr() == old(Attr())
      ensures Up() ==> stk == [NetDown, to] && eki == old(eki)
      ensures old(failures) <= failures && (Up() <==> failures == old(failures))
      ensures Up() ==> xmitPending == old(xmitPending) && |old(drv.out)| <= Length(rxHead, rxTail, 4096)
      ensures Up() ==> TxView() && Length(txHead, txTail, 4096) <= |old(drv.inc)|
      ensures Down() ==> rxHead == old(rxHead) && rxTail == old(rxTail)
    {
      hide DataOkFor, LedgerFor, Linked, Ordered, MirrorsLine, MirrorsModem, DeviceOf, WindowOf;
      var ok := TellWindow(to);
      if !ok {
        Fault();
        return;
      }
      Turn(to);
      Init();
    }

    /** _pause_queue and _resume_queue. */
    method TellWindow(to: Ops) returns (ok: bool)
      requires Base() && Session() && Online(to)
      modifies this`tid, this`serial, this`log, this`failures, this`wire, drv.Footprint()
      ensures Base() && Still() && Attr() == old(Attr())
      ensures ok ==> Session() && DeviceOf(log) == old(DeviceOf(log)) && WindowOf(log) == WindowFor(to)
      ensures ok ==> log == Then(old(log), Sent(old(serial), PackQueueFree(old(tid), WindowFor(to).value)))
      ensures old(failures) <= failures && (ok <==> failures == old(failures))
    {
      hide DataOkFor, LedgerFor, Linked, Ordered, MirrorsLine, MirrorsModem;
      ok := Send(PackQueueFree(tid, if to == NetUp then 1024 else 0));
    }

    /** stk_rpls, once the window was told. */
    method Turn(to: Ops)
      requires Base() && Session() && |stk| == 2 && Online(to) && eki.isOpen == 1 && WindowOf(log) == WindowFor(to)
      requires DeviceOf(log).rts.Some? && DeviceOf(log).dtr.Some?
      modifies this`stk
      ensures Base() && Up() && stk == [NetDown, to]
    {
      hide DataOkFor, LedgerFor, Linked, Ordered, MirrorsLine, MirrorsModem, DeviceOf, WindowOf;
      Replace(to);
      assert stk == [NetDown, to];
    }

    /** vc_netup_poll, vc_pause_poll and vc_idle_poll. */
    method Poll()
      requires Base() && Up()
      modifies this, drv.Footprint()
      ensures Rest() && Onward() && Attr() == old(Attr())
      ensures if |old(stk)| == 2 then Still() else Down() && ClearedAll(false)
      ensures Up() ==> stk == old(stk) + [Idle]
      ensures old(failures) <= failures && (|old(stk)| == 2 ==> (Up() <==> failures == old(failures)))
      ensures Up() ==> log == Then(old(log), Sent(old(serial), PackIoctl(old(tid), GET_WAIT_MASK, [])))
      ensures Up() ==> eki == old(eki)
    {
      hide DataOkFor, LedgerFor, Linked, Ordered, MirrorsLine, MirrorsModem, DeviceOf, WindowOf;
      if Current() == Idle {
        ClearRings(false);
        Fault();
      } else {
        var r := Push(Idle);
        assert r == 0;
        Init();
      }
    }

    // ---------------------------------------------------------------- xmit

    /** The memcpy of vc_common_xmit, out of the shared memory, around its end if need be. */
    method ReadOutgoing(llen: nat, len: nat) returns (payload: seq<byte>)
      requires Base() && len <= Length(rxHead, rxTail, 4096)
      requires llen == Min(len, 4096 - rxHead)
      ensures payload == drv.out[..len]
    {
      hide Window, Queue, LedgerFor, Vcom.Conserved;
      drv.OutgoingBytes(len);
      payload := CopyOut(drv.rx.data, rxHead, llen, len);
    }

    /** A WRITE that carries the front of the queue, sent with none outstanding. */
    lemma WriteSent(l: Log, s: nat, f: Frame)
      requires DataOkFor(l, 0) && f.cmd == CMD_WRITE && 0 < |f.ext| == f.p1 <= XMIT_LEN && f.ext <= drv.out
      requires LedgerFor(l, None)
      ensures DataOkFor(Then(l, Sent(s, f)), |f.ext|) && InOrder(Then(l, Sent(s, f)), drv.produced[base..])
      ensures writes + [f.ext] == WritesBy(past) + Writes(Then(l, Sent(s, f)))
    {
      hide RemovalsBy, AcceptedBy, WritesBy, Releases, Offset, Lawful;
      assert drv.produced[base..] == Acked(l) + drv.out;
    }

    /** vc_common_xmit: at most 1024 bytes, and they stay in the ring until they are acknowledged. */
    method Xmit()
      requires Base() && Up() && |stk| == 2 && xmitPending == 0 && rxHead != rxTail
      modifies this, drv.Footprint()
      ensures Rest() && Forward() && Still() && Attr() == old(Attr())
      ensures Up() ==> xmitPending == Min(old(Length(rxHead, rxTail, 4096)), 1024)
      ensures Up() ==> stk == old(stk) && eki == old(eki) && txHead == old(txHead) && txTail == old(txTail)
      ensures writes == old(writes) + if Up() then [old(Front())] else []
      ensures old(failures) <= failures && (Up() <==> failures == old(failures))
    {
      hide DataOkFor, LedgerFor, Linked, Ordered, MirrorsLine, MirrorsModem, DeviceOf, WindowOf;
      var payload := Gather();
      var ok := SendWrite(payload);
      if !ok {
        Fault();
      }
    }

    /** The payload of the next WRITE. */
    method Gather() returns (payload: seq<byte>)
      requires Base() && Up() && rxHead != rxTail
      modifies drv.Footprint()
      ensures Base() && Up() && Still() && Attr() == old(Attr())
      ensures payload == old(Front()) && payload <= drv.out
      ensures |payload| == Min(Length(rxHead, rxTail, 4096), 1024) && 0 < |payload|
    {
      hide DataOkFor, LedgerFor, Linked, Ordered, MirrorsLine, MirrorsModem, DeviceOf, WindowOf;
      var llen, len := Measure();
      Interfere();
      payload := ReadOutgoing(llen, len);
      assert payload == old(drv.out)[..len];
    }

    /** How much of the cached ring goes into one frame, and how much of that up to the end of the memory. */
    method Measure() returns (llen: nat, len: nat)
      requires rxHead < 4096 && rxTail < 4096
      ensures len == Min(Length(rxHead, rxTail, 4096), 1024) && llen == Min(len, 4096 - rxHead)
      ensures rxHead != rxTail ==> 0 < len
    {
      llen, len := LinearLength(rxHead, rxTail, 4096), Length(rxHead, rxTail, 4096);
      if llen > XMIT_LEN {
        llen := XMIT_LEN;
      }
      if len > XMIT_LEN {
        len := XMIT_LEN;
      }
    }

    /** What the next WRITE carries. */
    ghost function Front(): seq<byte>
      requires RxView()
      reads this, drv, drv.rx
    {
      drv.out[..Min(Length(rxHead, rxTail, 4096), 1024)]
    }

    method SendWrite(payload: seq<byte>) returns (ok: bool)
      requires Base() && Up() && xmitPending == 0 && payload <= drv.out && 0 < |payload| <= XMIT_LEN
      modifies this`tid, this`serial, this`log, this`xmitPending, this`failures, this`wire, this`writes, drv.Footprint()
      ensures Base() && Still() && Attr() == old(Attr())
      ensures ok ==> Up() && xmitPending == |payload|
      ensures writes == old(writes) + if ok then [payload] else []
      ensures old(failures) <= failures && (ok <==> failures == old(failures))
    {
      hide DataOkFor, LedgerFor, Linked, Ordered, MirrorsLine, MirrorsModem, PackXmit, DeviceOf, WindowOf;
      var f := PackXmit(tid, payload);
      ghost var sent := wire;
      ok := Transmit([f]);
      if ok {
        Wrote(f, sent);
      }
    }

    /** The WRITE `f` went out. */
    method Wrote(f: Frame, ghost sent: seq<Frame>)
      requires Base() && UpFor(sent) && wire == sent + [f] && xmitPending == 0
      requires f.cmd == CMD_WRITE && Packed(f, tid, XMIT_LEN + HDR_LEN)
      requires 0 < |f.ext| == f.p1 <= XMIT_LEN && f.ext <= drv.out
      modifies this`tid, this`serial, this`log, this`xmitPending, this`writes
      ensures Base() && Up() && xmitPending == |f.ext| && writes == old(writes) + [f.ext]
    {
      hide DataOkFor, LedgerFor, Linked, MirrorsLine, MirrorsModem;
      WriteSent(log, serial, f);
      LogWrite(f);
      xmitPending := |f.ext|;
      NextId();
    }

    /** The log and the record of the run take the frame up. */
    ghost method LogWrite(f: Frame)
      requires Base() && LedgerFor(log, None) && dropped == None && f.cmd == CMD_WRITE
      requires InOrder(Then(log, Sent(serial, f)), drv.produced[base..])
      requires writes + [f.ext] == WritesBy(past) + Writes(Then(log, Sent(serial, f)))
      modifies this`log, this`writes
      ensures Base() && log == Then(old(log), Sent(serial, f)) && writes == old(writes) + [f.ext]
    {
      hide Linked, RemovalsBy, AcceptedBy, WritesBy, Offset, Lawful, Writes, InOrder;
      log, writes := Then(log, Sent(serial, f)), writes + [f.ext];
    }

    // ---------------------------------------------------------------- ioctl

    /** Connected and opened, with the shadow possibly ahead of the device. */
    ghost predicate Loose()
      reads this, drv
    {
      && sk >= 0 && Tids() && DataOk() && ConnectedStack(stk) && eki.isOpen == 1
      && WindowOf(log) == WindowFor(stk[1])
    }

    method SendSetting(f: Frame) returns (ok: bool)
      requires Base() && Loose() && f.cmd == CMD_IOCTL && Packed(f, tid, 1024)
      modifies this`tid, this`serial, this`log, this`failures, this`wire, drv.Footprint()
      ensures Base() && Still() && Attr() == old(Attr())
      ensures ok ==> Loose() && DeviceOf(log) == Apply(old(DeviceOf(log)), f)
      ensures old(failures) <= failures && (ok <==> failures == old(failures))
    {
      hide DataOkFor, LedgerFor, Linked, Ordered, Apply;
      ok := Send(f);
    }

    /** The baud rate differs. */
    method SetBaud() returns (ok: bool)
      requires Base() && Up()
      modifies this`tid, this`serial, this`log, this`eki, this`failures, this`wire, drv.Footprint()
      ensures Base() && Still()
      ensures Attr() == old(Attr()) && eki == old(eki).(baud := Attr().baud)
      ensures ok ==> Up()
      ensures old(failures) <= failures && (ok <==> failures == old(failures))
    {
      hide DataOkFor, LedgerFor, Linked, Ordered, MirrorsLine, Flag, PackBaud, Apply;
      var baud := Attr().baud;
      ghost var d := DeviceOf(log);
      BaudMirrored(d, eki, baud);
      BaudArrives(d, tid, baud);
      eki := eki.(baud := baud);
      ok := SendSetting(PackBaud(tid, baud));
    }

    /** Parity, stop bits or data bits differ, see vc_check_comset. */
    method SetLine() returns (ok: bool)
      requires Base() && Up()
      modifies this`tid, this`serial, this`log, this`eki, this`failures, this`wire, drv.Footprint()
      ensures Base() && Still()
      ensures Attr() == old(Attr()) &&
              eki == old(eki).(pair := Attr().pair, stop := Attr().stop, byte_ := Attr().byte_)
      ensures ok ==> Up()
      ensures old(failures) <= failures && (ok <==> failures == old(failures))
    {
      hide DataOkFor, LedgerFor, Linked, Ordered, MirrorsLine, Flag, PackLine, Apply;
      var a := Attr();
      ghost var d := DeviceOf(log);
      LineMirrored(d, eki, a.pair, a.byte_, a.stop);
      LineArrives(d, tid, a.pair, a.byte_, a.stop);
      eki := eki.(pair := a.pair, stop := a.stop, byte_ := a.byte_);
      ok := SendSetting(PackLine(tid, a.pair, a.byte_, a.stop));
    }

    /** The flow-control mode differs; the last word of the frame is whatever was in the buffer. */
    method SetFlow() returns (ok: bool)
      requires Base() && Up()
      modifies this`tid, this`serial, this`log, this`eki, this`failures, this`wire, drv.Footprint()
      ensures Base() && Still()
      ensures Attr() == old(Attr()) && eki == old(eki).(flowctl := Attr().flowctl)
      ensures ok ==> Up()
      ensures old(failures) <= failures && (ok <==> failures == old(failures))
    {
      hide DataOkFor, LedgerFor, Linked, Ordered, MirrorsLine, Flag, PackFlow, Apply, FlowOf;
      var flowctl := Attr().flowctl;
      var b0: byte, b1: byte, b2: byte, b3: byte := *, *, *, *;
      ghost var d := DeviceOf(log);
      FlowMirrored(d, eki, flowctl);
      FlowArrives(d, tid, flowctl, [b0, b1, b2, b3]);
      eki := eki.(flowctl := flowctl);
      ok := SendSetting(PackFlow(tid, flowctl, [b0, b1, b2, b3]));
    }

    /** _set_ms: frames for the modem lines that differ, one buffer for both. */
    method SetMs(ms: nat) returns (frames: seq<Frame>)
      requires tid == serial % U32
      modifies this`tid, this`serial
      ensures tid == serial % U32 && serial == old(serial) + |frames|
      ensures frames == ModemFrames(old(serial), eki.ms, ms)
    {
      hide Rts, Dtr, Flag;
      ModemBits(eki.ms);
      ModemBits(ms);
      frames := [];
      var step := 0;
      while step < 2
        invariant 0 <= step <= 2 && tid == serial % U32 && serial == old(serial) + |frames|
        invariant step == 0 ==> frames == []
        invariant step == 1 ==>
                    frames == if Flag(eki.ms, 0x04) == Flag(ms, 0x04) then []
                              else [ModemFrame(old(serial) % U32, true, Flag(ms, 0x04))]
        invariant step == 2 ==> frames == ModemFrames(old(serial), eki.ms, ms)
      {
        if step == 0 && Rts(eki.ms) != Rts(ms) {
          frames := frames + [ModemFrame(tid, true, Rts(ms))];
          NextId();
        } else if step == 1 && Dtr(eki.ms) != Dtr(ms) {
          frames := frames + [ModemFrame(tid, false, Dtr(ms))];
          NextId();
        }
        step := step + 1;
      }
    }

    /** The modem lines differ; nothing is sent when the difference is in none of the two. */
    method SetModem() returns (sent: bool, ok: bool)
      requires Base() && Up()
      modifies this`tid, this`serial, this`log, this`eki, this`failures, this`wire, drv.Footprint()
      ensures Base() && Still()
      ensures Attr() == old(Attr()) && eki == old(eki).(ms := Attr().ms)
      ensures ok ==> Up()
      ensures !sent ==> ok
      ensures old(failures) <= failures && (ok <==> failures == old(failures))
    {
      hide DataOkFor, LedgerFor, Linked, Ordered, MirrorsLine, Flag, ModemFrames, SentTogether;
      var ms := Attr().ms;
      ghost var d, from := DeviceOf(log), eki.ms;
      ModemFramesArrive(log, serial, from, ms);
      ModemApart(d, eki, Some(Flag(ms, 0x04)), Some(Flag(ms, 0x02)), ms);
      sent, ok := SendMs(ms);
      eki := eki.(ms := ms);
    }

    /** The frames of `SetMs` leave in one buffer; after that the id moves on once more. */
    method SendMs(ms: nat) returns (sent: bool, ok: bool)
      requires Base() && Tids() && DataOk()
      requires Ordered(SentTogether(log, serial, ModemFrames(serial, eki.ms, ms)), serial +
              |ModemFrames(serial, eki.ms, ms)|)
      modifies this`tid, this`serial, this`log, this`failures, this`wire, drv.Footprint()
      ensures Base() && Still() && Attr() == old(Attr())
      ensures sent == (ModemFrames(old(serial), eki.ms, ms) != []) && (!sent ==> ok)
      ensures ok ==> Tids() && DataOk() &&
                     log == SentTogether(old(log), old(serial), ModemFrames(old(serial), eki.ms, ms))
      ensures ok && sent ==> serial == old(serial) + |ModemFrames(old(serial), eki.ms, ms)| + 1
      ensures old(failures) <= failures && (ok <==> failures == old(failures))
    {
      hide DataOkFor, LedgerFor, Linked, Ordered, Flag, ModemFrames, SentTogether;
      ghost var l := SentTogether(log, serial, ModemFrames(serial, eki.ms, ms));
      var frames := SetMs(ms);
      sent, ok := frames != [], true;
      if sent {
        ok := Transmit(frames);
      }
      if ok {
        ModemLogged(log, old(serial), eki.ms, ms);
        SentTogetherFrames(log, old(serial), frames);
        Record(l, sent);
      }
    }

    /** The frames of `l` went out; the id moves on if there were any. */
    method Record(ghost l: Log, sent: bool)
      requires Base() && tid == serial % U32
      requires Ordered(l, serial) && DataOkFor(l, xmitPending) && LedgerFor(l, dropped) && SentFrames(l) == wire
      modifies this`tid, this`serial, this`log
      ensures Base() && Tids() && DataOk() && log == l && serial == old(serial) + if sent then 1 else 0
    {
      hide DataOkFor, LedgerFor, Linked, Ordered;
      log := l;
      if sent {
        OrderedWeaken(log, serial, serial + 1);
        NextId();
      }
    }

    lemma ModemLogged(l: Log, s: nat, from: nat, to: nat)
      ensures DataOkFor(l, xmitPending) ==> DataOkFor(SentTogether(l, s, ModemFrames(s, from, to)), xmitPending)
      ensures LedgerFor(l, dropped) ==> LedgerFor(SentTogether(l, s, ModemFrames(s, from, to)), dropped)
    {
      hide Outstanding, Acked, Received, Releases, InOrder, RemovalsBy, AcceptedBy, WritesBy, Offset, Lawful, ClearOf;
      SettingsCarryNoData(l, s, ModemFrames(s, from, to), if base <= |drv.produced| then drv.produced[base..] else []);
    }

    /** The groups of settings still to be sent. */
    static function Todo(eki: Info, a: Info): nat {
      (if eki.baud != a.baud then 1 else 0) +
      (if eki.pair != a.pair || eki.stop != a.stop || eki.byte_ != a.byte_ then 1 else 0) +
      (if eki.flowctl != a.flowctl then 1 else 0) +
      (if eki.ms != a.ms then 1 else 0)
    }

    /**
     vc_common_ioctl: one frame per group that differs. Unless a send fails the device and the
     shadow end with the published attributes after at most four sends, so that of the budget of
     fifteen rounds at least eleven are left.
     */
    method CommonIoctl() returns (left: int)
      requires Base() && Up() && |stk| == 2
      modifies this, drv.Footprint()
      ensures Rest() && Onward() && Still() && Attr() == old(Attr())
      ensures Up() ==> stk == old(stk) && Agrees(eki, Attr()) && Told(DeviceOf(log), Attr()) && left >= 11
      ensures old(failures) <= failures && (Up() <==> failures == old(failures))
      ensures Up() ==> xmitPending == old(xmitPending) && rxHead == old(rxHead) && rxTail == old(rxTail)
      ensures Up() ==> txHead == old(txHead) && txTail == old(txTail)
    {
      hide SessionFor, LedgerFor, Linked, WindowOf, DeviceOf;
      left := 15;
      while left > 0
        invariant Base() && Up() && stk == old(stk) && Attr() == old(Attr()) && Still()
        invariant failures == old(failures) && past == old(past) && writes == old(writes)
        invariant xmitPending == old(xmitPending) && rxHead == old(rxHead) && rxTail == old(rxTail)
        invariant txHead == old(txHead) && txTail == old(txTail)
        invariant 0 <= left <= 15 && 15 - left + Todo(eki, Attr()) <= 4
      {
        var sent, ok := OneSetting();
        if !sent {
          DeviceTold(Attr());
          break;
        }
        if !ok {
          Fault();
          return;
        }
        left := left - 1;
      }
    }

    /** A shadow that agrees with attributes means a device that was told them. */
    lemma DeviceTold(a: Info)
      requires Up() && Agrees(eki, a)
      ensures Told(DeviceOf(log), a)
    {
      hide DeviceOf, MirrorsLine, MirrorsModem, Told, Tids, DataOk;
      MirroredIsTold(DeviceOf(log), eki, a);
    }

    /** The first group that differs is sent; `sent` is false when there is nothing to send. */
    method OneSetting() returns (sent: bool, ok: bool)
      requires Base() && Up()
      modifies this`tid, this`serial, this`log, this`eki, this`failures, this`wire, drv.Footprint()
      ensures Base() && Still() && Attr() == old(Attr())
      ensures old(failures) <= failures && (ok <==> failures == old(failures)) && (ok ==> Up()) && (!sent ==> ok)
      ensures if sent then Todo(eki, Attr()) == old(Todo(eki, Attr())) - 1 else Agrees(eki, Attr())
    {
      hide SessionFor, LedgerFor, Linked, WindowOf, DeviceOf;
      sent, ok := true, true;
      if eki.baud != Attr().baud {
        ok := SetBaud();
      } else if eki.pair != Attr().pair || eki.stop != Attr().stop || eki.byte_ != Attr().byte_ {
        ok := SetLine();
      } else if eki.flowctl != Attr().flowctl {
        ok := SetFlow();
      } else if eki.ms != Attr().ms {
        sent, ok := SetModem();
      } else {
        sent := false;
      }
    }

    // ---------------------------------------------------------------- recv

    /** A reply that needs an answer, taken in the state Sync. */
    ghost predicate Answering()
      reads this, drv
    {
      && Session() && |stk| == 3 && stk[0] == NetDown && Online(stk[1]) && stk[2] == Sync && eki.isOpen == 1
      && WindowOf(log) == WindowFor(stk[1])
      && DeviceOf(log).rts.Some? && DeviceOf(log).dtr.Some?
    }

    static function RecvRank(top: Ops): nat {
      match top
      case Idle => 6
      case Sync => 1
      case _ => 4
    }

    /** What a frame takes off the outgoing queue: the outstanding WRITE, when it reports its success. */
    ghost function Freed(f: Frame): seq<Removal>
      requires xmitPending <= |drv.out|
      reads this, drv
    {
      if IsWrite(f) && f.p1 == 0 then [Released(drv.out[..xmitPending])] else []
    }

    /** The frames a reply is answered with. */
    static function Answer(f: Frame, s: nat): seq<Frame> {
      if !IsIoctl(f) then []
      else if f.p2 == 0x12 then EventFrames(s)
      else if f.p2 == 0x11 then [PackIoctl(s % U32, WAIT_ON_MASK, [])]
      else []
    }

    /** The frames that reset the connection. */
    ghost predicate Refused(f: Frame)
      requires txHead < 4096 && txTail < 4096
      reads this
    {
      || (IsCreate(f) && !Grants(f, port))
      || (IsIoctl(f) && f.p1 != 0)
      || (IsData(f) && (!Carries(f) || Room(txHead, txTail, 4096) < |f.ext|))
      || (IsWrite(f) && !Acknowledges(f, xmitPending) && !Postpones(f, xmitPending))
    }

    /**
     What became of a frame. Data is accepted whole or not at all, and nothing leaves the outgoing
     queue but the WRITE that was acknowledged. The connection is reset exactly when the frame is
     refused or its answer cannot be sent.
     */
    twostate predicate Handled(f: Frame)
      requires old(txHead < 4096 && txTail < 4096 && xmitPending <= |drv.out|)
      reads this, drv, drv.att
    {
      && drv.accepted == old(drv.accepted) + (if Up() && IsData(f) then f.ext else [])
      && drv.removals == old(drv.removals) + (if Up() then old(Freed(f)) else [])
      && drv.swept == old(drv.swept) && Onward()
      && Clocks()
      && (IsIoctl(f) ==> Still())
      && old(failures) <= failures && (!IsIoctl(f) ==> failures == old(failures))
      && (Up() <==> !old(Refused(f)) && failures == old(failures))
      && (drv.removals == old(drv.removals) ==> old(drv.out) <= drv.out) && (Up() ==> eki == old(eki))
      && (Up() ==> stk == old(stk)[..Min(2, |old(stk)|)] &&
                   SentFrames(log) == old(SentFrames(log)) + Answer(f, old(serial)))
      && (Up() && !IsIoctl(f) ==> log == Then(old(log), Got(f)))
      && (Up() && IsWrite(f) ==> xmitPending == 0)
    }

    /** The recv operation of the state on top of the stack. */
    method Recv(f: Frame)
      requires Base() && ValidFrame(f) && (Up() || (Answering() && f.cmd == CMD_IOCTL && f.p1 == SUCCESS))
      requires f.cmd == CMD_DATAREADY ==> TxView()
      modifies this, drv.Footprint()
      ensures Rest() && Handled(f) && Attr() == old(Attr())
      decreases RecvRank(Current())
    {
      hide SessionFor, LedgerFor, Linked, DeviceOf, WindowOf;
      match Current() {
        case NetDown => assert false;
        case Idle => IdleRecv(f);
        case Sync => SyncRecv(f);
        case NetUp => CommonRecv(f);
        case Pause => CommonRecv(f);
      }
    }

    /** vc_idle_recv: a sign of life ends the waiting. */
    method IdleRecv(f: Frame)
      requires Base() && ValidFrame(f) && Up() && |stk| == 3
      requires f.cmd == CMD_DATAREADY ==> TxView()
      modifies this, drv.Footprint()
      ensures Rest() && Handled(f) && Attr() == old(Attr())
      decreases 5
    {
      hide DataOkFor, LedgerFor, Linked, Ordered, MirrorsLine, MirrorsModem, DeviceOf, WindowOf;
      var r := Pop();
      assert r == 0;
      Recv(f);
    }

    /** vc_common_recv. */
    method CommonRecv(f: Frame)
      requires Base() && ValidFrame(f) && Up() && |stk| == 2
      requires f.cmd == CMD_DATAREADY ==> TxView()
      modifies this, drv.Footprint()
      ensures Rest() && Handled(f) && Attr() == old(Attr())
      decreases 3
    {
      hide SessionFor, LedgerFor, Linked, DeviceOf, WindowOf;
      if f.cmd == CMD_CREATE {
        if !CheckOpen(f, port) {
          Fault();
        } else {
          Note(f);
        }
      } else if f.cmd == CMD_IOCTL {
        Note(f);
        var ok := CheckIoctl(f);
        if !ok {
          Fault();
        }
      } else if f.cmd == CMD_DATAREADY {
        TakeData(f);
      } else if f.cmd == CMD_WRITE {
        TakeReply(f);
      } else {
        Note(f);
      }
    }

    /** A frame that carries no data and acknowledges none. */
    method Note(f: Frame)
      requires Base() && Up() && f.cmd != CMD_DATAREADY && f.cmd != CMD_WRITE
      modifies this`log
      ensures Base() && Up() && log == Then(old(log), Got(f))
    {
      hide Linked, MirrorsLine, MirrorsModem, RemovalsBy, AcceptedBy, WritesBy, Offset, Lawful, ClearOf;
      log := Then(log, Got(f));
    }

    /** check_ioctl_ret. A failure of the state Sync is dealt with there. */
    method CheckIoctl(f: Frame) returns (ok: bool)
      requires Base() && Up() && |stk| == 2 && ValidFrame(f) && f.cmd == CMD_IOCTL
      modifies this, drv.Footprint()
      ensures Rest() && Onward() && Still() && Attr() == old(Attr())
      ensures (ok <==> f.p1 == SUCCESS) && (!ok ==> Up()) && (Up() ==> stk == old(stk))
      ensures old(failures) <= failures && (Up() <==> failures == old(failures))
      ensures ok && Up() ==> SentFrames(log) == old(SentFrames(log)) + Answer(f, old(serial))
      ensures !ok ==> log == old(log)
      ensures Up() ==> eki == old(eki)
      decreases 2
    {
      hide DataOkFor, LedgerFor, Linked, Ordered, MirrorsLine, MirrorsModem, DeviceOf, WindowOf;
      if f.p1 != SUCCESS {
        return false;
      }
      if f.p2 == WAIT_ON_MASK || f.p2 == GET_MODEMSTATUS || f.p2 == SET_WAIT_MASK {
        var r := Push(Sync);
        assert r == 0;
        Recv(f);
      }
      return true;
    }

    /** vc_sync_recv, and _reg_sync_event in it. */
    method SyncRecv(f: Frame)
      requires Base() && Answering() && ValidFrame(f)
      modifies this, drv.Footprint()
      ensures Rest() && Onward() && Still() && Attr() == old(Attr())
      ensures Up() ==> stk == old(stk)[..2]
      ensures old(failures) <= failures && (Up() <==> failures == old(failures))
      ensures Up() && f.cmd == CMD_IOCTL ==> SentFrames(log) == old(SentFrames(log)) + Answer(f, old(serial))
      ensures Up() ==> eki == old(eki)
      decreases 0
    {
      hide SessionFor, LedgerFor, Linked, DeviceOf, WindowOf, SentFrames;
      var ok := Reply(f);
      if !ok {
        Fault();
      } else {
        SyncDone();
      }
    }

    /** What a reply is answered with. */
    method Reply(f: Frame) returns (ok: bool)
      requires Base() && Session() && ValidFrame(f)
      modifies this`tid, this`serial, this`log, this`failures, this`wire, drv.Footprint()
      ensures Base() && Still() && Attr() == old(Attr())
      ensures ok ==> Session()
      ensures DeviceOf(log) == old(DeviceOf(log)) && WindowOf(log) == old(WindowOf(log))
      ensures ok && f.cmd == CMD_IOCTL ==> SentFrames(log) == old(SentFrames(log)) + Answer(f, old(serial))
      ensures old(failures) <= failures && (ok <==> failures == old(failures))
    {
      hide DataOkFor, LedgerFor, Linked, Ordered, Mirrors, DeviceOf, WindowOf, SentFrames;
      ok := true;
      if f.p2 == WAIT_ON_MASK {
        ok := SyncEvent();
      } else if f.p2 == SET_WAIT_MASK {
        ok := Ask(WAIT_ON_MASK, []);
      } else if f.p2 == GET_MODEMSTATUS {
        ok := Transmit([]);      // ADVVCOM_IOCSMCTRL
      }
      assert old(wire) + [] == old(wire) && old(SentFrames(log)) + [] == old(SentFrames(log));
    }

    /** DATAREADY in vc_common_recv. */
    method TakeData(f: Frame)
      requires Base() && ValidFrame(f) && Up() && |stk| == 2 && f.cmd == CMD_DATAREADY && TxView()
      modifies this, drv.Footprint()
      ensures Rest() && Handled(f) && Attr() == old(Attr())
    {
      hide DataOkFor, LedgerFor, Linked, MirrorsLine, MirrorsModem;
      var lroom := LinearRoom(txHead, txTail, 4096);
      var room := Room(txHead, txTail, 4096);
      if !CheckRecv(f) {
        Fault();
        return;
      }
      var datalen := f.p2;
      if room < datalen {
        Fault();
        return;
      }
      Deposit(lroom, f);
    }

    /** The copy into the shared memory, in one or two pieces; the kernel runs meanwhile. */
    method Copy(lroom: nat, data: seq<byte>)
      requires Core() && TxView()
      requires |data| <= Room(txHead, txTail, 4096) && lroom == LinearRoom(txHead, txTail, 4096)
      modifies drv.Footprint()
      ensures drv.Valid() && drv.staged == data && old(drv.out) <= drv.out && old(drv.produced) <= drv.produced
      ensures drv.removed == old(drv.removed) && drv.removals == old(drv.removals)
      ensures drv.accepted == old(drv.accepted) && drv.swept == old(drv.swept)
      ensures Clocks()
      ensures drv.rx.head == old(drv.rx.head) && !drv.rx.clean
      ensures drv.att.usrPtr == old(drv.att.usrPtr) && drv.att.slots[..] == old(drv.att.slots[..])
    {
      hide Window, Queue, Vcom.Shape, Vcom.Conserved, LedgerFor;
      var before: seq<Step>, between: seq<Step>, after: seq<Step> := *, *, *;
      drv.KernelRuns(before);
      if lroom >= |data| {
        drv.Stage(txTail, data);
      } else {
        drv.Stage(txTail, data[..lroom]);
        drv.KernelRuns(between);
        drv.Stage(0, data[lroom..]);
        assert data == data[..lroom] + data[lroom..];
      }
      drv.KernelRuns(after);
    }

    /** The copy, and the move of the tail. */
    method PutIn(lroom: nat, data: seq<byte>)
      requires Core() && TxView()
      requires |data| <= Room(txHead, txTail, 4096) && lroom == LinearRoom(txHead, txTail, 4096)
      modifies drv.Footprint()
      ensures Linked() && Clocks() && old(drv.out) <= drv.out && old(drv.produced) <= drv.produced
      ensures drv.removed == old(drv.removed) && drv.removals == old(drv.removals)
      ensures drv.accepted == old(drv.accepted) + data && drv.swept == old(drv.swept)
      ensures drv.rx.head == old(drv.rx.head) && drv.produced == drv.removed + drv.out
      ensures drv.att.usrPtr == old(drv.att.usrPtr) && drv.att.slots[..] == old(drv.att.slots[..])
    {
      hide Vcom.Shape, BytesOf, LedgerFor;
      Copy(lroom, data);
      var space: nat := *;
      drv.SetTxTail(|data|, space);
    }

    /** The payload of `f` is accepted. */
    method Deposit(lroom: nat, f: Frame)
      requires Base() && TxView() && DataOk() && Carries(f)
      requires |f.ext| <= Room(txHead, txTail, 4096) && lroom == LinearRoom(txHead, txTail, 4096)
      modifies this`log, drv.Footprint()
      ensures Base() && drv.removals == old(drv.removals) && drv.accepted == old(drv.accepted) + f.ext
      ensures old(drv.out) <= drv.out && drv.swept == old(drv.swept) && Attr() == old(Attr())
      ensures Clocks()
      ensures DataOk() && log == Then(old(log), Got(f))
    {
      hide Linked, DataOkFor, LedgerFor;
      ghost var p, o, a := drv.produced, drv.out, drv.accepted;
      assert drv.att.slots[..][attrPtr] == Attr();
      DataGiven(f);
      PutIn(lroom, f.ext);
      assert drv.att.slots[..][attrPtr] == Attr();
      Taking(f, o, a, p);
      log := Then(log, Got(f));
    }

    /** The account before the data came in. */
    ghost predicate Given(o: seq<byte>, a: seq<byte>, p: seq<byte>)
      reads this, drv
    {
      && xmitPending <= |o| && Outstanding(log) == o[..xmitPending]
      && base <= |drv.removed| && drv.removed[base..] == Acked(log)
      && inBase <= |a| && a[inBase..] == Received(log) && drv.swept == inSwept <= inBase
      && drv.removals == RemovalsBy(past) + Releases(log) + ClearOf(dropped)
      && a == AcceptedBy(past) + Received(log) && writes == WritesBy(past) + Writes(log)
      && base == Offset(past) <= |p| && Lawful(past, p) && InOrder(log, p[base..])
    }

    lemma DataGiven(f: Frame)
      requires DataOk() && LedgerFor(log, dropped)
      ensures Given(drv.out, drv.accepted, drv.produced)
    {
    }

    lemma DataTaken(l: Log, f: Frame)
      requires Carries(f)
      ensures Received(Then(l, Got(f))) == Received(l) + f.ext
      ensures Outstanding(Then(l, Got(f))) == Outstanding(l) && Acked(Then(l, Got(f))) == Acked(l)
      ensures Releases(Then(l, Got(f))) == Releases(l) && Writes(Then(l, Got(f))) == Writes(l)
      ensures forall s :: InOrder(l, s) ==> InOrder(Then(l, Got(f)), s)
    {
    }

    /** The account after it. */
    lemma Taking(f: Frame, o: seq<byte>, a: seq<byte>, p: seq<byte>)
      requires Carries(f) && Given(o, a, p)
      requires o <= drv.out && drv.accepted == a + f.ext && p <= drv.produced && drv.produced == drv.removed + drv.out
      ensures DataOkFor(Then(log, Got(f)), xmitPending) && LedgerFor(Then(log, Got(f)), dropped)
    {
      hide Outstanding, Acked, Received, Releases, Writes, InOrder, Lawful, RemovalsBy, AcceptedBy, WritesBy, Offset;
      DataTaken(log, f);
      LedgerGrows(Then(log, Got(f)), dropped, p);
    }

    /** WRITE in vc_common_recv. */
    method TakeReply(f: Frame)
      requires Base() && ValidFrame(f) && Up() && |stk| == 2 && f.cmd == CMD_WRITE
      modifies this, drv.Footprint()
      ensures Rest() && Handled(f) && Attr() == old(Attr())
    {
      hide DataOkFor, LedgerFor, Linked, Ordered, MirrorsLine, MirrorsModem, DeviceOf, WindowOf, SentFrames;
      Pending();
      var xmitLen := xmitPending;
      if CheckXmit(f, xmitLen, SUCCESS) {
        TakeSuccess(f);
      } else if CheckXmit(f, xmitLen, DEVICE_BUSY) {
        TakeBusy(f);
      } else {
        xmitPending := 0;
        Fault();
      }
    }

    method TakeSuccess(f: Frame)
      requires Base() && Up() && Acknowledges(f, xmitPending)
      modifies this`log, this`xmitPending, this`rxHead, this`rxTail, drv.Footprint()
      ensures Base() && Up() && xmitPending == 0 && log == Then(old(log), Got(f))
      ensures SentFrames(log) == old(SentFrames(log))
      ensures drv.removals == old(drv.removals) + [Released(old(drv.out[..xmitPending]))]
      ensures drv.accepted == old(drv.accepted) && drv.swept == old(drv.swept)
      ensures Clocks() && Attr() == old(Attr())
    {
      hide DataOkFor, LedgerFor, Linked, MirrorsLine, MirrorsModem;
      Acknowledge(f);
      UpdateRx();
    }

    method TakeBusy(f: Frame)
      requires Base() && Up() && f.cmd == CMD_WRITE && f.p1 != SUCCESS
      modifies this`log, this`xmitPending
      ensures Base() && Up() && xmitPending == 0 && log == Then(old(log), Got(f))
      ensures SentFrames(log) == old(SentFrames(log))
    {
      hide Linked, MirrorsLine, MirrorsModem, RemovalsBy, AcceptedBy, WritesBy, Offset, Lawful, ClearOf;
      xmitPending, log := 0, Then(log, Got(f));
    }

    lemma Pending()
      requires DataOk()
      ensures xmitPending <= |drv.out|
    {
    }

    /** The acknowledged bytes leave the ring. */
    method Acknowledge(f: Frame)
      requires Core() && DataOk() && dropped == None && Acknowledges(f, xmitPending)
      modifies this`log, this`xmitPending, drv.Footprint()
      ensures Core() && DataOk() && xmitPending == 0 && log == Then(old(log), Got(f))
      ensures drv.removals == old(drv.removals) + [Released(old(drv.out[..xmitPending]))]
      ensures drv.accepted == old(drv.accepted) && drv.swept == old(drv.swept)
      ensures Clocks() && Attr() == old(Attr())
    {
      hide Outstanding, Acked, Received, LedgerFor, Linked;
      Interfere();
      assert drv.out[..xmitPending] == old(drv.out)[..xmitPending];
      MoveHead(f);
    }

    method MoveHead(f: Frame)
      requires Core() && DataOk() && dropped == None && Acknowledges(f, xmitPending)
      modifies this`log, this`xmitPending, drv.Footprint()
      ensures Core() && DataOk() && xmitPending == 0 && log == Then(old(log), Got(f))
      ensures drv.removals == old(drv.removals) + [Released(old(drv.out)[..old(xmitPending)])]
      ensures drv.accepted == old(drv.accepted) && drv.swept == old(drv.swept)
      ensures Clocks() && Attr() == old(Attr())
    {
      hide InOrder, Received, Outstanding, Acked, Releases, Lawful, RemovalsBy, AcceptedBy, WritesBy, Offset;
      hide BytesOf, Vcom.Shape;
      ghost var gone := drv.out[..xmitPending];
      ReplyTaken(log, f);
      var xmitLen := xmitPending;
      drv.SetRxHead(xmitLen);
      assert (old(drv.removed) + gone)[base..] == old(drv.removed)[base..] + gone;
      xmitPending, log := 0, Then(log, Got(f));
    }

    lemma ReplyTaken(l: Log, f: Frame)
      requires Acknowledges(f, |Outstanding(l)|)
      ensures Outstanding(Then(l, Got(f))) == [] && Acked(Then(l, Got(f))) == Acked(l) + Outstanding(l)
      ensures Received(Then(l, Got(f))) == Received(l)
      ensures Releases(Then(l, Got(f))) == Releases(l) + [Released(Outstanding(l))]
      ensures Writes(Then(l, Got(f))) == Writes(l)
      ensures forall s :: InOrder(l, s) ==> InOrder(Then(l, Got(f)), s)
    {
    }

    // ---------------------------------------------------------------- the event loop

    /**
     vc_recv_desp on what the socket holds, cut by the length field. Bytes that do not come in
     time, or are too many for a frame, reset the connection. Data that fits is never refused.
     */
    method RecvDesp(s: seq<byte>)
      requires Base() && Up()
      modifies this, drv.Footprint()
      ensures Rest() && old(failures) <= failures && Attr() == old(Attr())
      ensures !CutFrame(s).Whole? ==> Down() && Still() && Onward()
      ensures CutFrame(s).Whole? ==> Taken(CutFrame(s).f)
      ensures CutFrame(s).Whole? && Carries(CutFrame(s).f) && |old(drv.inc)| + |CutFrame(s).f.ext| < 4096 ==>
                Up() && drv.accepted == old(drv.accepted) + CutFrame(s).f.ext
      ensures CutFrame(s).Whole? && IsData(CutFrame(s).f) && !Carries(CutFrame(s).f) ==>
                Down() && drv.accepted == old(drv.accepted)
    {
      hide DataOkFor, LedgerFor, Linked, Ordered, MirrorsLine, MirrorsModem, DeviceOf, WindowOf, Get32;
      Pending();
      Anticipate(|s| >= HDR_LEN && Get16(s[8..10]) == CMD_DATAREADY);
      match CutFrame(s) {
        case Whole(f, _) => Recv(f);
        case Short => LoseFrame();
        case TooLong => Fault();
      }
    }

    /** The incoming ring is looked at again before data is taken. */
    method Anticipate(data: bool)
      requires Base() && Up() && xmitPending <= |drv.out|
      modifies this`txHead, this`txTail, drv.Footprint()
      ensures Base() && Up() && Still() && Attr() == old(Attr())
      ensures data ==> TxView() && Length(txHead, txTail, 4096) <= |old(drv.inc)|
      ensures !data ==> txHead == old(txHead) && txTail == old(txTail)
      ensures xmitPending <= |drv.out| && drv.out[..xmitPending] == old(drv.out[..xmitPending])
    {
      hide DataOkFor, LedgerFor, Linked;
      ghost var front := drv.out[..xmitPending];
      if data {
        UpdateTx();
      } else {
        Interfere();
      }
      assert drv.out[..xmitPending] == front;
    }

    /** Header or payload did not come. */
    method LoseFrame()
      requires Base() && |stk| > 1
      modifies this, drv.Footprint()
      ensures Base() && Down() && Still() && Attr() == old(Attr())
      ensures failures == old(failures) + 1 && past == Ended(old(past), old(log), old(dropped))
      ensures writes == old(writes)
    {
      hide DataOkFor, LedgerFor, Linked;
      failures := failures + 1;
      Fault();
    }

    /** The frames a connection can survive, whatever state it is in. */
    predicate Bearable(f: Frame) {
      && (IsCreate(f) ==> Grants(f, port))
      && (IsIoctl(f) ==> f.p1 == 0)
      && (IsData(f) ==> Carries(f))
      && (IsWrite(f) ==> Acknowledges(f, f.p2) || Postpones(f, f.p2))
    }

    /** Good data that fits what room there is. */
    static predicate Fits(f: Frame, waiting: nat) {
      Carries(f) && waiting + |f.ext| < 4096
    }

    /** What became of a frame, seen from before the incoming ring was looked at again. */
    twostate predicate Taken(f: Frame)
      requires old(txHead < 4096 && txTail < 4096 && xmitPending <= |drv.out|)
      reads this, drv, drv.att
    {
      && drv.accepted == old(drv.accepted) + (if Up() && IsData(f) then f.ext else [])
      && drv.removals == old(drv.removals) + (if Up() then old(Freed(f)) else [])
      && drv.swept == old(drv.swept) && Onward()
      && Clocks()
      && (!IsData(f) ==> (Up() <==> !old(Refused(f)) && failures == old(failures)))
      && (Up() ==> Bearable(f)) && (Fits(f, |old(drv.inc)|) ==> Up())
      && (drv.removals == old(drv.removals) ==> old(drv.out) <= drv.out)
      && (Up() ==> eki == old(eki) && stk == old(stk)[..Min(2, |old(stk)|)])
      && (Up() && IsWrite(f) ==> f.p2 == old(xmitPending) <= |old(drv.out)|)
    }

    /** The facts the authors rely on between two events. */
    lemma Resting()
      requires Rest()
      ensures stk in {[NetDown], [NetDown, NetUp], [NetDown, Pause], [NetDown, NetUp, Idle], [NetDown, Pause, Idle]}
      ensures sk >= 0 <==> |stk| > 1
      ensures sk >= 0 <==> eki.isOpen == 1
      ensures sk >= 0 <==> Up()
      ensures sk < 0 <==> Down()
      ensures xmitPending > 0 ==> sk >= 0
    {
      hide DataOkFor, LedgerFor, Linked, DeviceOf, WindowOf;
      assert |stk| == 2 ==> stk == [NetDown, stk[1]];
      assert |stk| == 3 ==> stk == [NetDown, stk[1], Idle];
    }

    /**
     The attributes the daemon goes by are, in every run, those the port had at one instant, and
     whatever they have become since is signalled, unless the port is closed and was so then.
     */
    lemma AttributesSeen()
      requires Rest()
      ensures Attr() == drv.att.flushed && drv.att.quietAt <= drv.att.clock
      ensures drv.att.Pri() <==> drv.att.attr != Attr() && (drv.att.attr.isOpen == 1 || Attr().isOpen == 1)
    {
      hide LedgerFor, Down, Up, Vcom.Conserved, Window, Queue;
      ChangeIsSignalled(drv.att);
    }

    /** The cached rings, the stack, the shadow and the outstanding WRITE are as they were. */
    twostate predicate Same()
      reads this
    {
      && rxHead == old(rxHead) && rxTail == old(rxTail) && txHead == old(txHead) && txTail == old(txTail)
      && stk == old(stk) && eki == old(eki) && xmitPending == old(xmitPending)
    }

    /** The tty was opened or closed; `connect` is what a connect would return. */
    method FollowOpen(connect: int)
      requires Rest()
      modifies this, drv.Footprint()
      ensures Rest() && Onward() && Attr() == old(Attr())
      ensures if old(Attr().isOpen == eki.isOpen || (Attr().isOpen == 1 && connect >= 0)) then Still()
              else Down() && ClearedAll(old(Attr()).isOpen == 0)
      ensures old(failures) <= failures && (Up() <==> Attr().isOpen == 1 && failures == old(failures))
      ensures |old(stk)| == 3 ==> Down() || stk == old(stk)
      ensures |old(stk)| < 3 ==> |stk| < 3
      ensures writes == old(writes)
      ensures old(Attr().isOpen == eki.isOpen) ==> Same() && past == old(past)
    {
      hide SessionFor, LedgerFor, Linked, DeviceOf, WindowOf, Handshake, SentFrames;
      if Attr().isOpen != eki.isOpen {
        if Attr().isOpen != 0 {
          Open(connect);
        } else {
          Close();      // never that of Net Down
        }
      }
    }

    /** A WRITE is due: connected, not Idle, none outstanding, something to send. */
    ghost predicate Due()
      reads this, drv
    {
      Up() && |stk| == 2 && xmitPending == 0 && rxHead != rxTail
    }

    /** The states above Net Down in which the device may not send. */
    ghost predicate Paused()
      reads this
    {
      |stk| == 2 && (stk[1] == Pause || txHead != txTail)
    }

    /**
     Settings, data and window were served: the shadow has the attributes, exactly the WRITE that
     was due went out, and the window is closed exactly if it was or the incoming ring is not empty.
     */
    twostate predicate Served()
      requires old(RxView()) && drv.att.slots.Length == 2
      reads this, drv, drv.att.slots
    {
      && Agrees(eki, Attr()) && writes == old(writes) + (if old(Due()) then [old(Front())] else [])
      && xmitPending == (if old(Due()) then |old(Front())| else old(xmitPending))
      && stk == [NetDown, if old(Paused()) then Pause else NetUp]
    }

    /** The head of the loop in main: open or close, settings, data, window. */
    method Prepare(connect: int)
      requires Rest()
      modifies this, drv.Footprint()
      ensures Rest() && Forward() && Attr() == old(Attr())
      ensures if old(Attr().isOpen == eki.isOpen || (Attr().isOpen == 1 && connect >= 0)) then Still()
              else Down() && ClearedAll(old(Attr()).isOpen == 0)
      ensures old(failures) <= failures && (Up() <==> Attr().isOpen == 1 && failures == old(failures))
      ensures Up() && |stk| == 2 ==> Agrees(eki, Attr())
      ensures Up() && old(Up()) && |old(stk)| == 2 ==> Served()
      ensures Up() && stk == [NetDown, NetUp] ==> txHead == txTail && (xmitPending > 0 || rxHead == rxTail)
      ensures |old(stk)| == 3 ==> (Down() || stk == old(stk)) && writes == old(writes)
      ensures |old(stk)| < 3 ==> |stk| < 3
    {
      hide SessionFor, LedgerFor, Linked, DeviceOf, WindowOf;
      ghost var front := Front();
      FollowOpen(connect);
      assert old(Attr().isOpen == eki.isOpen) ==> Front() == front;
      if Current() != NetDown {
        Serve();
      }
    }

    /** Settings, data, window; nothing of it in Idle. */
    method Serve()
      requires Base() && Up()
      modifies this, drv.Footprint()
      ensures Rest() && Forward() && Still() && Attr() == old(Attr())
      ensures old(failures) <= failures && (Up() <==> failures == old(failures))
      ensures Up() && |old(stk)| == 2 ==> Served()
      ensures Up() && stk == [NetDown, NetUp] ==> txHead == txTail && (xmitPending > 0 || rxHead == rxTail)
      ensures |old(stk)| == 3 ==> Up() && stk == old(stk) && writes == old(writes) && xmitPending == old(xmitPending)
      ensures old(writes) <= writes
    {
      hide SessionFor, LedgerFor, Linked, DeviceOf, WindowOf;
      ghost var front := Front();
      if !SameLine(eki, Attr()) && Online(Current()) {
        var _ := CommonIoctl();
      }
      if Current() != NetDown {
        assert |stk| == 2 ==> Front() == front;
        Feed();
      }
    }

    /** Data and window. */
    method Feed()
      requires Base() && Up()
      modifies this, drv.Footprint()
      ensures Rest() && Forward() && Still() && Attr() == old(Attr())
      ensures old(failures) <= failures && (Up() <==> failures == old(failures))
      ensures Up() && |old(stk)| == 2 ==>
                && eki == old(eki) && writes == old(writes) + (if old(Due()) then [old(Front())] else [])
                && xmitPending == (if old(Due()) then |old(Front())| else old(xmitPending))
                && stk == [NetDown, if old(Paused()) then Pause else NetUp]
      ensures Up() && stk == [NetDown, NetUp] ==> txHead == txTail && (xmitPending > 0 || rxHead == rxTail)
      ensures |old(stk)| == 3 ==> Up() && stk == old(stk) && writes == old(writes) && xmitPending == old(xmitPending)
      ensures old(writes) <= writes
    {
      hide SessionFor, LedgerFor, Linked, DeviceOf, WindowOf;
      if xmitPending == 0 && rxHead != rxTail && Online(Current()) {
        Xmit();
      }
      if txHead != txTail && Current() == NetUp {
        SwitchWindow(Pause);
      }
      assert Up() && |stk| == 2 ==> stk == [NetDown, stk[1]];
    }

    /** The socket after select: a frame, or silence that may have lasted too long. */
    method Listen(readable: bool, late: bool, input: seq<byte>)
      requires Rest()
      modifies this, drv.Footprint()
      ensures Rest() && Onward() && old(failures) <= failures && Attr() == old(Attr())
      ensures Clocks()
      ensures drv.swept == old(drv.swept)
      ensures !readable || old(Down()) ==> Still() && failures == old(failures)
      ensures !readable ==> (Up() <==> old(Up()) && !late) && rxHead == old(rxHead) && rxTail == old(rxTail)
      ensures old(Down()) ==> Down() && past == old(past)
      ensures Up() ==> eki == old(eki) && stk == if readable then old(stk)[..Min(2, |old(stk)|)] else old(stk)
      ensures drv.removals == old(drv.removals) ==> old(drv.out) <= drv.out
      ensures readable && old(Up()) ==>
                if CutFrame(input).Whole? then Taken(CutFrame(input).f) else Down() && Still()
    {
      hide DataOkFor, LedgerFor, Linked, Ordered, MirrorsLine, MirrorsModem, DeviceOf, WindowOf;
      if sk < 0 {
      } else if readable {
        RecvDesp(input);
      } else if late {
        Fault();
      }
    }

    /** The two polls of the rings after select. */
    method Refresh(readable: bool, writable: bool)
      requires Rest()
      modifies this, drv.Footprint()
      ensures Rest() && Onward() && Still() && old(failures) <= failures && Attr() == old(Attr())
      ensures Up() <==> old(Up()) && failures == old(failures)
      ensures readable ==> |old(drv.out)| <= Length(rxHead, rxTail, 4096)
      ensures !readable && !writable ==> rxHead == old(rxHead) && rxTail == old(rxTail)
      ensures Up() ==> eki == old(eki)
      ensures Up() ==> stk == if writable && old(stk) == [NetDown, Pause] then [NetDown, NetUp] else old(stk)
      ensures old(Down()) ==> past == old(past) && failures == old(failures)
    {
      hide DataOkFor, LedgerFor, Linked, Ordered, MirrorsLine, MirrorsModem, DeviceOf, WindowOf;
      if readable {
        UpdateRx();
      }
      if writable {
        Resume();
      }
    }

    /** The incoming ring is looked at again, and Pause left. */
    method Resume()
      requires Rest()
      modifies this, drv.Footprint()
      ensures Rest() && Onward() && Still() && old(failures) <= failures && Attr() == old(Attr())
      ensures Up() <==> old(Up()) && failures == old(failures)
      ensures Up() ==> stk == if old(stk) == [NetDown, Pause] then [NetDown, NetUp] else old(stk)
      ensures Up() ==> eki == old(eki)
      ensures old(Down()) ==> past == old(past) && failures == old(failures)
      ensures (rxHead == old(rxHead) && rxTail == old(rxTail)) || |old(drv.out)| <= Length(rxHead, rxTail, 4096)
      ensures Up() ==> TxView() && Length(txHead, txTail, 4096) <= |old(drv.inc)|
    {
      hide DataOkFor, LedgerFor, Linked, Ordered, MirrorsLine, MirrorsModem, DeviceOf, WindowOf;
      UpdateTx();
      if Current() == Pause {
        SwitchWindow(NetUp);
      }
    }

    /**
     At most one thing leaves the outgoing ring in a round: nothing, all of it in a clear that
     ends a connection, or the WRITE that was outstanding when the success naming its length
     arrived. At most one thing joins the incoming one: the data of a good frame.
     */
    twostate predicate OneFrame(heard: bool, input: seq<byte>)
      reads this, drv, drv.att
    {
      var c := CutFrame(input);
      && (|| drv.removals == old(drv.removals)
          || (Down() && (ClearedAll(false) || ClearedAll(true)))
          || (&& heard && c.Whole? && IsWrite(c.f) && c.f.p1 == 0
              && |drv.removals| == |old(drv.removals)| + 1 && old(drv.removals) <= drv.removals
              && drv.removals[|old(drv.removals)|].Released?
              && |drv.removals[|old(drv.removals)|].bytes| == c.f.p2))
      && (|| drv.accepted == old(drv.accepted)
          || (heard && c.Whole? && Carries(c.f) &&
              drv.accepted == old(drv.accepted) + c.f.ext))
      && (Up() && heard ==> c.Whole? && Bearable(c.f))
    }

    /** Data that fits is accepted. */
    twostate predicate Heard(readable: bool, input: seq<byte>)
      reads this, drv
    {
      old(Up()) && readable && CutFrame(input).Whole? && Fits(CutFrame(input).f, |old(drv.inc)|) ==>
        drv.accepted == old(drv.accepted) + CutFrame(input).f.ext
    }

    /**
     One round of the loop in main. The arguments are what the timer, the watchdog, the socket and
     a connect say, the results what select says of the rings. The first timeout leads to Idle, a
     second in a row takes the connection down; a quiet round leaves a connection exactly when
     the tty is open. The attributes of the round's beginning reach the shadow, and a WRITE that
     is due goes out. Pause is left exactly when the incoming ring polls writable, which it does
     only once everything accepted before has left it. Outgoing bytes are picked up when the ring
     polls readable. In a round without timeout there is an instant at which the daemon has
     nothing to be told of the attributes.
     */
    method Iterate(timeout: bool, readable: bool, late: bool, input: seq<byte>, connect: int)
      returns (pollIn: bool, pollOut: bool)
      requires Rest()
      modifies this, drv.Footprint()
      ensures Rest() && Forward() && OneFrame(!timeout && readable, input) && old(failures) <= failures && Clocks()
      ensures timeout && failures == old(failures) ==>
                if old(Attr()).isOpen == 1 && |old(stk)| < 3 then Up() && |stk| == 3 else Down()
      ensures !timeout && !readable && failures == old(failures) ==>
                (Up() <==> old(Attr()).isOpen == 1 && !late)
      ensures !timeout && readable && CutFrame(input).Whole? && Fits(CutFrame(input).f, |old(drv.inc)|) &&
              old(Attr()).isOpen == 1 && connect >= 0 ==>
                drv.accepted == old(drv.accepted) + CutFrame(input).f.ext || old(failures) < failures
      ensures !timeout ==> old(drv.att.clock) <= drv.att.quietAt
      ensures Up() && |old(stk)| < 3 ==> Agrees(eki, old(Attr())) && Told(DeviceOf(log), old(Attr()))
      ensures old(Up()) && old(Attr()).isOpen == 1 && failures == old(failures) ==>
                writes == old(writes) + if old(Due()) then [old(Front())] else []
      ensures old(Up()) && |old(stk)| == 2 && Up() && !timeout ==>
                stk == [NetDown, if old(Paused()) && !pollOut then Pause else NetUp]
      ensures pollOut ==> |old(drv.accepted)| <= |drv.delivered|
      ensures pollIn && old(Up() && |stk| == 2 && xmitPending == 0 && rxHead == rxTail) && Up() &&
              drv.removals == old(drv.removals) ==>
                |old(drv.out)| <= Length(rxHead, rxTail, 4096)
    {
      hide SessionFor, LedgerFor, Linked, DeviceOf, WindowOf, CutFrame, Told;
      ghost var a := Attr();
      Prepare(connect);
      pollIn, pollOut := false, false;
      if timeout {
        if Current() != NetDown {
          Poll();
        }
      } else {
        pollIn, pollOut := Select();
        Attend(pollIn, pollOut, readable, late, input);
      }
      assert Up() && Agrees(eki, a) ==> Told(DeviceOf(log), a) by {
        if Up() && Agrees(eki, a) {
          DeviceTold(a);
        }
      }
    }

    /** select on the rings: the poll bits of the instant it returns. */
    method Select() returns (pollIn: bool, pollOut: bool)
      requires Rest()
      modifies drv.Footprint()
      ensures Rest() && Still() && Attr() == old(Attr()) && (Up() <==> old(Up()))
      ensures pollIn <==> drv.rx.enabled && drv.out != []
      ensures pollOut <==> drv.tx.enabled && !drv.att.throttled && drv.inc == []
      ensures pollOut ==> |drv.accepted| == |drv.delivered|
    {
      hide DataOkFor, LedgerFor, Linked, Ordered, MirrorsLine, MirrorsModem, DeviceOf, WindowOf;
      Interfere();
      pollIn, pollOut := drv.Readable(), drv.Writable();
      Polled();
    }

    /** A writable ring is empty: all that was accepted has left it. */
    lemma Polled()
      requires Linked()
      ensures drv.Readable() <==> drv.rx.enabled && drv.out != []
      ensures drv.Writable() <==> drv.tx.enabled && !drv.att.throttled && drv.inc == []
      ensures drv.Writable() ==> |drv.accepted| == |drv.delivered|
    {
      hide Vcom.Shape;
      drv.PollBits();
    }

    /** A round from the return of select on, without timeout. */
    method Attend(pollIn: bool, pollOut: bool, readable: bool, late: bool, input: seq<byte>)
      requires Rest() && (pollIn <==> drv.rx.enabled && drv.out != [])
      requires pollOut <==> drv.tx.enabled && !drv.att.throttled && drv.inc == []
      requires pollOut ==> |drv.accepted| == |drv.delivered|
      modifies this, drv.Footprint()
      ensures Rest() && Onward() && OneFrame(readable, input) && Heard(readable, input) && old(failures) <= failures
      ensures old(Down()) || !readable ==> Still()
      ensures old(Down()) ==> Down() && past == old(past) && failures == old(failures)
      ensures !readable && failures == old(failures) ==> (Up() <==> old(Up()) && !late)
      ensures old(drv.att.clock) <= drv.att.quietAt
      ensures Up() ==> eki == old(eki) && stk == Resumed(old(stk), pollOut, readable)
      ensures Clocks() && (pollOut ==> |old(drv.accepted)| <= |drv.delivered|)
      ensures !readable && !pollOut && !old(Online(Current()) && xmitPending == 0) ==>
                rxHead == old(rxHead) && rxTail == old(rxTail)
      ensures pollIn && old(Online(Current()) && xmitPending == 0) && drv.removals == old(drv.removals) ==>
                |old(drv.out)| <= Length(rxHead, rxTail, 4096)
    {
      hide DataOkFor, LedgerFor, Linked, Ordered, MirrorsLine, MirrorsModem, DeviceOf, WindowOf, CutFrame;
      var watchRx := Online(Current()) && xmitPending == 0;
      var watchTx := Current() == Pause;
      SeeAttr();
      Respond(readable, late, input, watchRx && pollIn, watchTx && pollOut);
    }

    /** The stack after the frame, if any, and the poll. */
    static function Resumed(s: seq<Ops>, pollOut: bool, readable: bool): seq<Ops> {
      if s == [NetDown, Pause] && pollOut then [NetDown, NetUp]
      else if readable then s[..Min(2, |s|)]
      else s
    }

    /** The socket, then the rings. */
    method Respond(readable: bool, late: bool, input: seq<byte>, pollIn: bool, pollOut: bool)
      requires Rest() && (pollOut ==> stk == [NetDown, Pause])
      modifies this, drv.Footprint()
      ensures Rest() && Onward() && OneFrame(readable, input) && Heard(readable, input) && old(failures) <= failures
      ensures Clocks() && Attr() == old(Attr())
      ensures old(Down()) || !readable ==> Still()
      ensures old(Down()) ==> Down() && past == old(past) && failures == old(failures)
      ensures !readable && failures == old(failures) ==> (Up() <==> old(Up()) && !late)
      ensures Up() ==> eki == old(eki) && stk == Resumed(old(stk), pollOut, readable)
      ensures pollIn && drv.removals == old(drv.removals) ==> |old(drv.out)| <= Length(rxHead, rxTail, 4096)
      ensures !readable && !pollIn && !pollOut ==> rxHead == old(rxHead) && rxTail == old(rxTail)
    {
      hide SessionFor, LedgerFor, Linked, DeviceOf, WindowOf, CutFrame;
      Listen(readable, late, input);
      Refresh(pollIn, pollOut);
    }

    /** The attributes are taken over if the poll bit is up. */
    method SeeAttr()
      requires Rest()
      modifies this`attrPtr, drv.Footprint()
      ensures Rest() && Still() && (Up() <==> old(Up()))
      ensures old(drv.att.clock) <= drv.att.quietAt
    {
      hide DataOkFor, LedgerFor, Ordered, MirrorsLine, MirrorsModem, DeviceOf, WindowOf, Vcom.Conserved;
      if drv.att.Pri() {
        UpdateAttr();
      }
    }

    /**
     Every run of the daemon beside every run of the kernel and the device. By `Rest`, what left
     the outgoing ring in it is what the devices of its connections acknowledged, and the clears.
     If its last round is one without timeout, there was an instant in the run at which the daemon
     had nothing to be told of the attributes.
     */
    method Run(rounds: seq<Round>)
      requires Rest()
      modifies this, drv.Footprint()
      ensures Rest() && old(failures) <= failures && Continues(past, old(past))
      ensures old(drv.removals) <= drv.removals && old(drv.accepted) <= drv.accepted
      ensures |rounds| > 0 && !rounds[|rounds| - 1].timeout ==> old(drv.att.clock) <= drv.att.quietAt
    {
      hide Base, Down, Up;
      var n := 0;
      while n < |rounds|
        invariant 0 <= n <= |rounds|
        invariant Rest() && old(failures) <= failures && Continues(past, old(past))
        invariant old(drv.removals) <= drv.removals && old(drv.accepted) <= drv.accepted
        invariant old(drv.att.clock) <= drv.att.clock
        invariant n > 0 && !rounds[n - 1].timeout ==> old(drv.att.clock) <= drv.att.quietAt
      {
        var r := rounds[n];
        var _, _ := Iterate(r.timeout, r.readable, r.late, r.input, r.connect);
        n := n + 1;
      }
    }

    /**
     The whole run so far, whenever the daemon rests: what was put in the outgoing ring is what
     left it and what waits; each removal is the WRITE outstanding when a success that named its
     length came in, in one of the connections, or a clear; and each connection sent the stream
     in order from where the one before it left off. What joined the incoming ring is the data of
     all connections, in order, and has left it or waits.
     */
    lemma Accounted()
      requires Rest()
      ensures drv.removals == RemovalsBy(past) + Releases(log)
      ensures drv.accepted == AcceptedBy(past) + Received(log) && drv.accepted == drv.delivered + drv.inc
      ensures writes == WritesBy(past) + Writes(log)
      ensures drv.produced == BytesOf(drv.removals) + drv.out && drv.written == drv.produced + drv.fifo.Pending()
      ensures base == Offset(past) <= |drv.produced| && drv.produced[base..] == Acked(log) + drv.out
      ensures Lawful(past, drv.produced) && InOrder(log, drv.produced[base..])
    {
      hide RemovalsBy, AcceptedBy, WritesBy, BytesOf, Offset, Lawful, InOrder, Vcom.Shape;
      if sk < 0 {
        assert log == Empty;
      }
      assert drv.removals == RemovalsBy(past) + Releases(log);
      ReleasesAreAcked(RemovalsBy(past), log);
      BaseIsOffset();
    }

    lemma BaseIsOffset()
      requires base == Offset(past)
      ensures base == |BytesOf(RemovalsBy(past))|
    {
    }

    /**
     What a connection has amounted to whenever the daemon rests: the device has the beginning
     of what was put in the outgoing ring since it began, the rest is still there; of what the
     device sent nothing was cleared, so the tty was handed it or it waits; ids are in order; no
     send failed, so the log is what is on the wire; and the bytes on the wire give the device the
     settings the daemon believes it has.
     */
    lemma Connected()
      requires Rest() && sk >= 0
      ensures base <= |drv.produced| && drv.produced[base..] == Acked(log) + drv.out
      ensures Outstanding(log) == drv.out[..xmitPending] && InOrder(log, drv.produced[base..])
      ensures inBase <= |drv.accepted| && drv.accepted[inBase..] == Received(log)
      ensures drv.swept <= inBase && drv.accepted[drv.swept..] == drv.handed + drv.inc
      ensures Ordered(log, serial) && tid == serial % U32 && failures == calm
      ensures AllValid(wire) && SentFrames(log) == wire
      ensures var d := ApplyAll(BLANK, CutAll(EncodeAll(wire)).frames);
              MirrorsLine(d, eki) && Told(d, eki)
      ensures WindowOf(log) == Some(if stk[1] == NetUp then 1024 else 0)
    {
      hide CutAll, EncodeAll, ApplyAll, Flag, MirrorsLine, Ordered;
      hide Vcom.Shape, RemovalsBy, AcceptedBy, WritesBy, Releases, BytesOf, Lawful;
      DeviceFromBytes(log, serial);
      MirroredIsTold(DeviceOf(log), eki, eki);
      assert drv.accepted[drv.swept..] == drv.delivered[drv.swept..] + drv.inc;
    }
  }
}
