/** The guaranteed logger's queue (src/log/NanoLog.cpp) as a step system.

    Any number of producers and one consumer share the fields of `QueueBuffer`.  Every atomic
    operation of the source is one step; a schedule names, step by step, the thread that moves.
    A thread that finds the spin lock taken, or the ticket counter still too high, spends its
    step spinning.  The buffer size is a parameter of the state. */
module LogQueue {
  import opened Wrappers

  /** The identity of one call of `push`: the calling thread and the number of its earlier calls. */
  datatype Line = Line(producer: nat, number: nat)

  /** `slots` is `m_buffer`, `ready` is `m_write_state[0..size)` and `count` is `m_write_state[size]`. */
  datatype Buffer = Buffer(slots: seq<Option<Line>>, ready: seq<bool>, count: nat)

  datatype ProducerPc =
    | Idle                              // outside push
    | Draw                              // next: m_write_index.fetch_add
    | Spin                              // next: read m_write_index, again and again
    | Load(index: nat)                  // next: read m_current_write_buffer
    | Store(buffer: nat, index: nat)    // next: construct the item in its slot
    | Publish(buffer: nat, index: nat)  // next: m_write_state[index].store(1)
    | Count(buffer: nat, index: nat)    // next: m_write_state[size].fetch_add
    | Install                           // next: allocate a buffer, store it in m_current_write_buffer
    | Lock(buffer: nat)                 // next: take the spin lock
    | Enqueue(buffer: nat)              // holds the lock; next: m_buffers.push
    | Reset                             // holds the lock; next: m_write_index.store(0)
    | Unlock                            // holds the lock; next: release it

  datatype Producer = Producer(pc: ProducerPc, begun: nat)

  datatype ConsumerPc =
    | Poll         // next: look for a line, taking the lock first when there is no read buffer
    | Front        // holds the lock; next: read m_buffers.front
    | UnlockFront  // holds the lock; next: release it
    | Take         // next: move the line out of its slot and advance m_read_index
    | LockPop      // next: take the spin lock
    | Pop          // holds the lock; next: m_buffers.pop
    | UnlockPop    // holds the lock; next: release it

  datatype Owner = Free | ByProducer(id: nat) | ByConsumer

  /** `buffers` holds every buffer ever allocated, in order of allocation, so that a pointer to a
      buffer is its position there; `popped` counts the calls of `m_buffers.pop`. */
  datatype State = State(
    size: nat,
    buffers: seq<Buffer>,
    current: nat,                // m_current_write_buffer
    ticket: nat,                 // m_write_index
    queue: seq<nat>,             // m_buffers
    lock: Owner,                 // m_flag
    producers: seq<Producer>,
    consumer: ConsumerPc,
    readBuffer: Option<nat>,     // m_current_read_buffer
    readIndex: nat,              // m_read_index
    popped: nat,
    delivered: seq<Line>)

  function EmptyBuffer(size: nat): Buffer {
    Buffer(seq(size, _ => None), seq(size, _ => false), 0)
  }

  /** The state the constructor leaves. */
  function Init(size: nat, threads: nat): State {
    State(size, [EmptyBuffer(size)], 0, 0, [0], Free, seq(threads, _ => Producer(Idle, 0)),
          Poll, None, 0, 0, [])
  }

  datatype Actor = P(id: nat) | C

  ghost predicate WellFormed(s: State) {
    && s.size > 0
    && |s.buffers| > 0
    && s.current == |s.buffers| - 1
    && (forall b :: 0 <= b < |s.buffers| ==>
          |s.buffers[b].slots| == s.size && |s.buffers[b].ready| == s.size)
    && (forall p :: 0 <= p < |s.producers| ==>
          PcInRange(s, s.producers[p].pc) && (s.producers[p].pc.Idle? || s.producers[p].begun > 0))
    && s.readIndex < s.size
    && (s.readBuffer.Some? ==> s.readBuffer.value < |s.buffers|)
    && (s.consumer.Take? ==>
          s.readBuffer.Some? && s.buffers[s.readBuffer.value].slots[s.readIndex].Some?)
    && (forall j :: 0 <= j < |s.queue| ==> s.queue[j] < |s.buffers|)
    && (s.consumer.Pop? ==> |s.queue| > 0)
  }

  ghost predicate PcInRange(s: State, pc: ProducerPc) {
    match pc
    case Load(i) => i < s.size
    case Store(b, i) => b < |s.buffers| && i < s.size
    case Publish(b, i) => b < |s.buffers| && i < s.size
    case Count(b, i) => b < |s.buffers| && i < s.size
    case Lock(b) => b < |s.buffers|
    case Enqueue(b) => b < |s.buffers|
    case _ => true
  }

  function Go(s: State, p: nat, pc: ProducerPc): State
    requires p < |s.producers|
  {
    s.(producers := s.producers[p := s.producers[p].(pc := pc)])
  }

  /** One step of producer p, inside `QueueBuffer::push`, `Buffer::push` and `setup_next_write_buffer`. */
  ghost function ProducerStep(s: State, p: nat): State
    requires WellFormed(s) && p < |s.producers|
  {
    match s.producers[p].pc
    case Idle =>
      s.(producers := s.producers[p := Producer(Draw, s.producers[p].begun + 1)])
    case Draw =>
      Go(s.(ticket := s.ticket + 1), p, if s.ticket < s.size then Load(s.ticket) else Spin)
    case Spin =>
      Go(s, p, if s.ticket >= s.size then Spin else Draw)
    case Load(i) =>
      Go(s, p, Store(s.current, i))
    case Store(b, i) =>
      var buf := s.buffers[b];
      var line := Line(p, s.producers[p].begun - 1);
      Go(s.(buffers := s.buffers[b := buf.(slots := buf.slots[i := Some(line)])]), p, Publish(b, i))
    case Publish(b, i) =>
      var buf := s.buffers[b];
      Go(s.(buffers := s.buffers[b := buf.(ready := buf.ready[i := true])]), p, Count(b, i))
    case Count(b, i) =>
      var buf := s.buffers[b];
      Go(s.(buffers := s.buffers[b := buf.(count := buf.count + 1)]), p,
         if buf.count + 1 == s.size then Install else Idle)
    case Install =>
      Go(s.(buffers := s.buffers + [EmptyBuffer(s.size)], current := |s.buffers|), p, Lock(|s.buffers|))
    case Lock(b) =>
      if s.lock.Free? then Go(s.(lock := ByProducer(p)), p, Enqueue(b)) else s
    case Enqueue(b) =>
      Go(s.(queue := s.queue + [b]), p, Reset)
    case Reset =>
      Go(s.(ticket := 0), p, Unlock)
    case Unlock =>
      Go(s.(lock := Free), p, Idle)
  }

  /** One step of the consumer, inside `QueueBuffer::try_pop`, called again and again. */
  ghost function ConsumerStep(s: State): State
    requires WellFormed(s)
  {
    match s.consumer
    case Poll =>
      if s.readBuffer.None? then
        if s.lock.Free? then s.(lock := ByConsumer, consumer := Front) else s
      else if s.buffers[s.readBuffer.value].ready[s.readIndex] then
        s.(consumer := Take)
      else
        s  // try_pop returns false
    case Front =>
      s.(readBuffer := if s.queue == [] then None else Some(s.queue[0]), consumer := UnlockFront)
    case UnlockFront =>
      s.(lock := Free, consumer := Poll)
    case Take =>
      var t := s.(delivered := s.delivered + [s.buffers[s.readBuffer.value].slots[s.readIndex].value]);
      if s.readIndex + 1 == s.size then
        t.(readIndex := 0, readBuffer := None, consumer := LockPop)
      else
        t.(readIndex := s.readIndex + 1, consumer := Poll)
    case LockPop =>
      if s.lock.Free? then s.(lock := ByConsumer, consumer := Pop) else s
    case Pop =>
      s.(queue := s.queue[1..], popped := s.popped + 1, consumer := UnlockPop)
    case UnlockPop =>
      s.(lock := Free, consumer := Poll)
  }

  /** The step the scheduled actor takes; a thread that does not exist takes none. */
  ghost function Next(s: State, a: Actor): State
    requires WellFormed(s)
  {
    match a
    case C => ConsumerStep(s)
    case P(p) => if p < |s.producers| then ProducerStep(s, p) else s
  }
}
