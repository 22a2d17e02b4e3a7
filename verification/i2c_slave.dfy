// The I2C slave interrupt handler: the frame assembler that turns the bytes the
// master writes into packets for the manager task's queue.
//
// Two step relations are modelled. `StepAsWritten` is the handler as it stands:
// its static packet, index included, is cleared at the start of every interrupt,
// so every data byte lands at index 0. `Step` is the accumulating receiver the
// surrounding comments describe (START resets the index, each data byte is
// appended), with the buffer wrap checked before the write rather than after it.

module I2CSlave {
  import opened I2CTable
  import opened I2CManager

  /** What one interrupt reports. `Idle` stands for an interrupt without a receive request. */
  datatype SlaveEvent = Start | Data(byte: Byte) | Stop | Idle

  /** The receiver's state as a value: the packet being assembled, the queue, and whether the handler hung. */
  datatype Receiver = Receiver(buffer: seq<Byte>, index: nat, queue: seq<Packet>, halted: bool)

  /** A cleared packet buffer. */
  function Zeros(): (z: seq<Byte>)
    ensures |z| == I2C_BUFFER_SIZE && forall i :: 0 <= i < |z| ==> z[i] == 0
  {
    seq(I2C_BUFFER_SIZE, _ => 0)
  }

  /**
   * A packet is complete once the index has reached the number of argument
   * bytes its code expects in command table `t`. A code past the table is
   * never complete: the C reads a record beyond the table there, which this
   * model does not follow.
   */
  predicate Completes(t: seq<I2CCode>, code: Byte, index: nat)
    ensures code >= |t| ==> !Completes(t, code, index)
    ensures code < |t| && t[code].customPcount == 0 ==> Completes(t, code, index)
  {
    code < |t| && index >= t[code].customPcount
  }

  /** Putting a packet on the queue; a full queue hangs the handler for good. */
  function Enqueue(r: Receiver, p: Packet): (r': Receiver)
    ensures r'.buffer == r.buffer && r'.index == r.index
    ensures |r.queue| < I2C_QUEUE_SIZE ==> r'.queue == r.queue + [p] && r'.halted == r.halted
    ensures |r.queue| >= I2C_QUEUE_SIZE ==> r'.queue == r.queue && r'.halted
  {
    if |r.queue| < I2C_QUEUE_SIZE then r.(queue := r.queue + [p]) else r.(halted := true)
  }

  /** One interrupt of the handler as written: the packet is cleared first, so a data byte is always byte 0. */
  function StepAsWritten(t: seq<I2CCode>, r: Receiver, ev: SlaveEvent): (r': Receiver)
    ensures r.halted ==> r' == r
    ensures !r.halted ==> |r'.buffer| == I2C_BUFFER_SIZE && r'.index <= 1
    ensures |r.queue| <= |r'.queue| <= |r.queue| + 1 && r'.queue[..|r.queue|] == r.queue
  {
    if r.halted then r
    else
      var cleared := r.(buffer := Zeros(), index := 0);
      match ev
      case Data(b) =>
        var buf := Zeros()[0 := b];
        var filled := cleared.(buffer := buf);
        var sent := if Completes(t, b, 0) then Enqueue(filled, Packet(buf, 0)) else filled;
        if sent.halted then sent else sent.(index := 1)
      case _ => cleared
  }

  /** One interrupt of the accumulating receiver. */
  function Step(t: seq<I2CCode>, r: Receiver, ev: SlaveEvent): (r': Receiver)
    requires |r.buffer| == I2C_BUFFER_SIZE
    ensures r.halted ==> r' == r
    ensures |r'.buffer| == I2C_BUFFER_SIZE && (r.index <= I2C_BUFFER_SIZE ==> r'.index <= I2C_BUFFER_SIZE)
    ensures |r.queue| <= |r'.queue| <= |r.queue| + 1 && r'.queue[..|r.queue|] == r.queue
  {
    if r.halted then r
    else
      match ev
      case Start => r.(index := 0)
      case Data(b) =>
        var i := if r.index >= I2C_BUFFER_SIZE then 0 else r.index;
        var buf := r.buffer[i := b];
        var filled := r.(buffer := buf, index := i);
        var sent := if Completes(t, buf[0], i) then Enqueue(filled, Packet(buf, i)) else filled;
        if sent.halted then sent else sent.(index := i + 1)
      case _ => r
  }

  /** A well-formed receiver: a full-size buffer and an index the uint8_t field can hold. */
  predicate Sane(r: Receiver)
  {
    |r.buffer| == I2C_BUFFER_SIZE && r.index <= I2C_BUFFER_SIZE
  }

  function RunAsWritten(t: seq<I2CCode>, r: Receiver, evs: seq<SlaveEvent>): Receiver
    decreases |evs|
  {
    if evs == [] then r else RunAsWritten(t, StepAsWritten(t, r, evs[0]), evs[1..])
  }

  function Run(t: seq<I2CCode>, r: Receiver, evs: seq<SlaveEvent>): (r': Receiver)
    requires Sane(r)
    decreases |evs|
    ensures Sane(r')
  {
    if evs == [] then r else Run(t, Step(t, r, evs[0]), evs[1..])
  }

  /** One data event per byte, in order. */
  function DataEvents(bytes: seq<Byte>): (evs: seq<SlaveEvent>)
    ensures |evs| == |bytes|
  {
    if bytes == [] then [] else [Data(bytes[0])] + DataEvents(bytes[1..])
  }

  /** The events of one write transaction: START, then one data event per byte. */
  function Frame(bytes: seq<Byte>): seq<SlaveEvent>
  {
    [Start] + DataEvents(bytes)
  }

  /** The packet the handler as written queues for a data byte `b`: `b` alone, at index 0. */
  function LonePacket(b: Byte): Packet
  {
    Packet(Zeros()[0 := b], 0)
  }

  /** A packet the handler as written can queue: a code complete without arguments, alone at index 0. */
  predicate Lone(t: seq<I2CCode>, p: Packet)
  {
    |p.buffer| == I2C_BUFFER_SIZE && Completes(t, p.buffer[0], 0) && p == LonePacket(p.buffer[0])
  }

  /** One interrupt of the handler as written queues nothing, or the lone packet of a complete data byte. */
  lemma StepAsWrittenQueues(t: seq<I2CCode>, r: Receiver, ev: SlaveEvent)
    ensures var s := StepAsWritten(t, r, ev);
      s.queue == r.queue || (ev.Data? && Completes(t, ev.byte, 0) && s.queue == r.queue + [LonePacket(ev.byte)])
  {
  }

  /** Every packet queued by the handler as written is lone: a single byte taken as a whole command. */
  lemma {:induction false} AsWrittenQueuesLoneBytes(t: seq<I2CCode>, r: Receiver, evs: seq<SlaveEvent>)
    ensures var r' := RunAsWritten(t, r, evs);
      r.queue <= r'.queue && forall k :: |r.queue| <= k < |r'.queue| ==> Lone(t, r'.queue[k])
    decreases |evs|
  {
    if evs != [] {
      var s := StepAsWritten(t, r, evs[0]);
      StepAsWrittenQueues(t, r, evs[0]);
      AsWrittenQueuesLoneBytes(t, s, evs[1..]);
      if s.queue != r.queue {
        assert Lone(t, s.queue[|r.queue|]);
      }
    }
  }

  /**
   * The controller-access command can never be received by the handler as
   * written: no packet it queues carries code 0x00, which needs three argument bytes.
   */
  lemma AsWrittenNeverQueuesControllerAccess(r: Receiver, evs: seq<SlaveEvent>)
    ensures var r' := RunAsWritten(I2C_MAPPINGS, r, evs);
      forall k :: |r.queue| <= k < |r'.queue| ==>
        Lone(I2C_MAPPINGS, r'.queue[k]) && r'.queue[k].buffer[0] != 0x00
  {
    AsWrittenQueuesLoneBytes(I2C_MAPPINGS, r, evs);
    OnlyControllerAccessTakesArguments();
  }

  /**
   * The counterexample: a controller-access frame 0x00 a b c sent to an idle
   * handler as written queues three packets, one per argument byte, each taken
   * as a command code of its own, and nothing for 0x00.
   */
  lemma AsWrittenSplitsControllerAccess(a: Byte, b: Byte, c: Byte)
    requires 0 < a < MAX_I2C_COMMAND && 0 < b < MAX_I2C_COMMAND && 0 < c < MAX_I2C_COMMAND
    ensures RunAsWritten(I2C_MAPPINGS, Receiver(Zeros(), 0, [], false), Frame([0x00, a, b, c])).queue
      == [LonePacket(a), LonePacket(b), LonePacket(c)]
  {
    OnlyControllerAccessTakesArguments();
    var t := I2C_MAPPINGS;
    var evs := Frame([0x00, a, b, c]);
    assert DataEvents([c]) == [Data(c)];
    assert DataEvents([b, c]) == [Data(b), Data(c)];
    assert DataEvents([a, b, c]) == [Data(a), Data(b), Data(c)];
    assert evs == [Start, Data(0x00), Data(a), Data(b), Data(c)];
    var r0 := Receiver(Zeros(), 0, [], false);
    var r1 := StepAsWritten(t, r0, Start);
    var r2 := StepAsWritten(t, r1, Data(0x00));
    assert r2.queue == [];
    var r3 := StepAsWritten(t, r2, Data(a));
    assert r3.queue == [LonePacket(a)];
    var r4 := StepAsWritten(t, r3, Data(b));
    assert r4.queue == [LonePacket(a), LonePacket(b)];
    var r5 := StepAsWritten(t, r4, Data(c));
    assert r5.queue == [LonePacket(a), LonePacket(b), LonePacket(c)];
    assert RunAsWritten(t, r0, evs) == RunAsWritten(t, r1, evs[1..]);
    assert RunAsWritten(t, r1, evs[1..]) == RunAsWritten(t, r2, evs[2..]);
    assert RunAsWritten(t, r2, evs[2..]) == RunAsWritten(t, r3, evs[3..]);
    assert RunAsWritten(t, r3, evs[3..]) == RunAsWritten(t, r4, evs[4..]);
    assert RunAsWritten(t, r4, evs[4..]) == RunAsWritten(t, r5, evs[5..]);
  }

  /** One data byte to the accumulating receiver, below the wrap point and with room on the queue. */
  lemma DataStep(t: seq<I2CCode>, r: Receiver, b: Byte)
    requires Sane(r) && !r.halted && r.index < I2C_BUFFER_SIZE && |r.queue| < I2C_QUEUE_SIZE
    ensures var s := Step(t, r, Data(b)); var buf := r.buffer[r.index := b];
      !s.halted && s.buffer == buf && s.index == r.index + 1
      && s.queue == r.queue + if Completes(t, buf[0], r.index) then [Packet(buf, r.index)] else []
  {
  }

  /** The data events from byte `k` on: byte `k`'s event, then the rest. */
  lemma DataEventsFrom(bytes: seq<Byte>, k: nat)
    requires k < |bytes|
    ensures DataEvents(bytes[k..]) == [Data(bytes[k])] + DataEvents(bytes[k + 1..])
  {
    assert bytes[k..][1..] == bytes[k + 1..];
  }

  /** Writing byte `k` of `bytes` after a buffer prefix equal to `bytes[..k]` extends that prefix by one. */
  lemma ExtendPrefix(buf: seq<Byte>, bytes: seq<Byte>, k: nat)
    requires k < |buf| && k < |bytes| && buf[..k] == bytes[..k]
    ensures buf[k := bytes[k]][..k + 1] == bytes[..k + 1]
  {
    forall i | 0 <= i <= k
      ensures buf[k := bytes[k]][i] == bytes[i]
    {
      if i < k {
        assert buf[..k][i] == bytes[..k][i];
      }
    }
  }

  /** Running a sequence of events is taking the first step, then running the rest. */
  lemma RunFirst(t: seq<I2CCode>, r: Receiver, ev: SlaveEvent, rest: seq<SlaveEvent>)
    requires Sane(r)
    ensures Run(t, r, [ev] + rest) == Run(t, Step(t, r, ev), rest)
  {
    assert ([ev] + rest)[1..] == rest;
  }

  /**
   * Feeding the argument bytes `bytes[k..]` of a frame to an accumulating
   * receiver that has already stored `bytes[..k]` at indices 0..k-1.
   */
  lemma {:induction false} FeedFrame(t: seq<I2CCode>, r: Receiver, bytes: seq<Byte>, k: nat)
    requires Sane(r) && !r.halted && |r.queue| < I2C_QUEUE_SIZE
    requires |bytes| <= I2C_BUFFER_SIZE && 0 < k < |bytes| && bytes[0] < |t|
    requires |bytes| == t[bytes[0]].customPcount + 1
    requires r.index == k && r.buffer[..k] == bytes[..k]
    ensures var r' := Run(t, r, DataEvents(bytes[k..]));
      !r'.halted && r'.index == |bytes| && r'.buffer[..|bytes|] == bytes
      && r'.queue == r.queue + [Packet(r'.buffer, |bytes| - 1)]
    decreases |bytes| - k
  {
    DataStep(t, r, bytes[k]);
    var s := Step(t, r, Data(bytes[k]));
    ExtendPrefix(r.buffer, bytes, k);
    DataEventsFrom(bytes, k);
    RunFirst(t, r, Data(bytes[k]), DataEvents(bytes[k + 1..]));
    if k + 1 < |bytes| {
      assert s.buffer[0] == bytes[0];
      FeedFrame(t, s, bytes, k + 1);
    } else {
      assert DataEvents(bytes[k + 1..]) == [];
    }
  }

  /**
   * For the accumulating receiver, a whole frame, a code of table `t` followed
   * by exactly the argument bytes it expects, puts exactly one packet on a
   * queue with room: the buffer holding the frame's bytes, at the index of its last byte.
   */
  lemma FrameQueuedOnce(t: seq<I2CCode>, r: Receiver, bytes: seq<Byte>)
    requires Sane(r) && !r.halted && |r.queue| < I2C_QUEUE_SIZE
    requires 1 <= |bytes| <= I2C_BUFFER_SIZE && bytes[0] < |t|
    requires |bytes| == t[bytes[0]].customPcount + 1
    ensures var r' := Run(t, r, Frame(bytes));
      !r'.halted && r'.index == |bytes| && r'.buffer[..r'.index] == bytes
      && r'.queue == r.queue + [Packet(r'.buffer, r'.index - 1)]
  {
    var s0 := Step(t, r, Start);
    DataStep(t, s0, bytes[0]);
    var s1 := Step(t, s0, Data(bytes[0]));
    assert s1.buffer[..1] == bytes[..1];
    RunFirst(t, r, Start, DataEvents(bytes));
    DataEventsFrom(bytes, 0);
    assert bytes[0..] == bytes;
    RunFirst(t, s0, Data(bytes[0]), DataEvents(bytes[1..]));
    if |bytes| == 1 {
      assert DataEvents(bytes[1..]) == [];
    } else {
      FeedFrame(t, s1, bytes, 1);
    }
  }

  /**
   * End to end, with the accumulating receiver and the firmware's table: the
   * controller-access frame 0x00 a b c queues one packet, and the manager calls
   * the controller-access handler with a, b, c as its first parameters and
   * sends 1 then its answer.
   */
  lemma ControllerAccessFrameServed(r: Receiver, a: Byte, b: Byte, c: Byte, answer: Byte)
    requires Sane(r) && !r.halted && |r.queue| < I2C_QUEUE_SIZE
    ensures var r' := Run(I2C_MAPPINGS, r, Frame([0x00, a, b, c]));
      |r'.queue| == |r.queue| + 1 && r'.queue[..|r.queue|] == r.queue
      && |r'.queue[|r.queue|].buffer| == I2C_BUFFER_SIZE
      && TaskServe(r'.queue[|r.queue|], answer)
         == Served(WriteReadFromEthernetController, [a, b, c] + seq(17, _ => 0), [1, answer])
  {
    OnlyControllerAccessTakesArguments();
    FrameQueuedOnce(I2C_MAPPINGS, r, [0x00, a, b, c]);
    var r' := Run(I2C_MAPPINGS, r, Frame([0x00, a, b, c]));
    var p := r'.queue[|r.queue|];
    assert p.buffer[..4] == [0x00, a, b, c];
    assert p.buffer[0] == 0x00 && p.buffer[1] == a && p.buffer[2] == b && p.buffer[3] == c;
    ControllerAccessBindsArguments(p, answer);
  }

  /**
   * The receiver as a class: the packet buffer is an array the interrupt
   * handler writes in place; the queue is what the manager task will read.
   */
  class Slave {
    var buffer: array<Byte>
    var index: nat
    var queue: seq<Packet>
    var halted: bool

    ghost predicate Valid()
      reads this
    {
      buffer.Length == I2C_BUFFER_SIZE && index <= I2C_BUFFER_SIZE
    }

    ghost function State(): Receiver
      reads this, buffer
    {
      Receiver(buffer[..], index, queue, halted)
    }

    constructor ()
      ensures Valid() && fresh(buffer)
      ensures State() == Receiver(Zeros(), 0, [], false)
    {
      buffer := new Byte[I2C_BUFFER_SIZE](_ => 0);
      index := 0;
      queue := [];
      halted := false;
    }

    /** Queues the current packet; a full queue hangs the handler. */
    method Send(i: nat)
      requires Valid() && i < 256
      modifies this
      ensures Valid() && buffer == old(buffer) && index == old(index)
      ensures State() == Enqueue(old(State()), Packet(buffer[..], i))
    {
      if |queue| < I2C_QUEUE_SIZE {
        queue := queue + [Packet(buffer[..], i)];
      } else {
        halted := true;
      }
    }

    /** The interrupt handler as written. */
    method InterruptAsWritten(ev: SlaveEvent)
      requires Valid()
      modifies this, buffer
      ensures Valid() && buffer == old(buffer)
      ensures State() == StepAsWritten(I2C_MAPPINGS, old(State()), ev)
    {
      if halted {
        return;
      }
      forall k | 0 <= k < buffer.Length {
        buffer[k] := 0;
      }
      index := 0;
      assert buffer[..] == Zeros();
      match ev {
        case Data(b) =>
          buffer[index] := b;
          assert buffer[..] == Zeros()[0 := b];
          if Completes(I2C_MAPPINGS, buffer[0], index) {
            Send(index);
          }
          if !halted {
            index := index + 1;
          }
        case _ =>
      }
    }

    /** The accumulating interrupt handler, wrapping the index before a write could leave the buffer. */
    method Interrupt(ev: SlaveEvent)
      requires Valid()
      modifies this, buffer
      ensures Valid() && buffer == old(buffer)
      ensures State() == Step(I2C_MAPPINGS, old(State()), ev)
    {
      if halted {
        return;
      }
      match ev {
        case Start =>
          index := 0;
        case Data(b) =>
          if index >= I2C_BUFFER_SIZE {
            index := 0;
          }
          buffer[index] := b;
          if Completes(I2C_MAPPINGS, buffer[0], index) {
            Send(index);
          }
          if !halted {
            index := index + 1;
          }
        case _ =>
      }
    }

    /** The manager task's receive: takes the oldest packet, if any. */
    method Receive() returns (p: Option<Packet>)
      modifies this
      ensures buffer == old(buffer) && index == old(index) && halted == old(halted)
      ensures old(queue) == [] ==> p == None && queue == []
      ensures old(queue) != [] ==> p == Some(old(queue)[0]) && queue == old(queue)[1..]
    {
      if queue == [] {
        return None;
      }
      p := Some(queue[0]);
      queue := queue[1..];
    }
  }

  datatype Option<T> = None | Some(value: T)
}
