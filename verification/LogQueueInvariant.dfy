/** What every step of the log queue keeps. */
module LogQueueInvariant {
  import opened Wrappers
  import opened LogQueue

  /** From drawing the last index of a buffer's round to resetting the ticket counter. */
  predicate Switching(pc: ProducerPc) {
    pc.Install? || pc.Lock? || pc.Enqueue? || pc.Reset?
  }

  /** An index below the buffer size has been drawn and its store is not yet counted. */
  predicate Holding(pc: ProducerPc) {
    pc.Load? || pc.Store? || pc.Publish? || pc.Count?
  }

  ghost function Pc(s: State, p: nat): ProducerPc
    requires p < |s.producers|
  {
    s.producers[p].pc
  }

  ghost function Holders(s: State): set<nat> {
    set p: nat | p < |s.producers| && Holding(s.producers[p].pc)
  }

  ghost function Spinners(s: State): set<nat> {
    set p: nat | p < |s.producers| && s.producers[p].pc.Spin?
  }

  /** Calls of push by p whose line is in its slot. */
  ghost function Written(s: State, p: nat): int
    requires p < |s.producers|
  {
    var pc := s.producers[p].pc;
    if pc.Draw? || pc.Spin? || pc.Load? || pc.Store? then s.producers[p].begun - 1
    else s.producers[p].begun
  }

  /** Line `line` is in slot i of buffer b. */
  ghost predicate Sits(s: State, line: Line, b: nat, i: nat) {
    b < |s.buffers| && i < |s.buffers[b].slots| && s.buffers[b].slots[i] == Some(line)
  }

  ghost predicate Stored(s: State, line: Line) {
    exists b, i :: Sits(s, line, b, i)
  }

  ghost predicate Earlier(b: nat, i: nat, b': nat, i': nat) {
    b < b' || (b == b' && i < i')
  }

  /** The current buffer is new and the ticket counter still belongs to the one before. */
  ghost predicate Fresh(s: State, sw: Option<nat>) {
    sw.Some? && sw.value < |s.producers| && !s.producers[sw.value].pc.Install?
  }

  /** How many indexes of the current buffer have been drawn. */
  ghost function Drawn(s: State, sw: Option<nat>): nat {
    if Fresh(s, sw) then 0 else if s.ticket < s.size then s.ticket else s.size
  }

  ghost predicate SwitcherInv(s: State, sw: Option<nat>) {
    && (sw.Some? ==> sw.value < |s.producers| && Switching(Pc(s, sw.value)))
    && (forall p :: 0 <= p < |s.producers| && Switching(s.producers[p].pc) ==> sw == Some(p))
    && (Fresh(s, sw) ==> s.ticket >= s.size && s.current > 0)
    && (forall p :: 0 <= p < |s.producers| ==>
          match s.producers[p].pc
          case Lock(b) => b == s.current
          case Enqueue(b) => b == s.current
          case _ => true)
  }

  ghost predicate HolderInv(s: State, sw: Option<nat>, p: nat)
    requires WellFormed(s) && p < |s.producers|
  {
    var cur := s.buffers[s.current];
    match s.producers[p].pc
    case Load(i) => i < Drawn(s, sw) && cur.slots[i].None? && !cur.ready[i]
    case Store(b, i) => b == s.current && i < Drawn(s, sw) && cur.slots[i].None? && !cur.ready[i]
    case Publish(b, i) =>
      b == s.current && i < Drawn(s, sw) && !cur.ready[i] && cur.slots[i] == Some(Line(p, s.producers[p].begun - 1))
    case Count(b, i) =>
      b == s.current && i < Drawn(s, sw) && cur.ready[i] && cur.slots[i] == Some(Line(p, s.producers[p].begun - 1))
    case _ => true
  }

  ghost predicate HoldersInv(s: State, sw: Option<nat>)
    requires WellFormed(s)
  {
    && (forall p :: 0 <= p < |s.producers| ==> HolderInv(s, sw, p))
    && (forall p: nat, q: nat, i: nat :: HeldBy(s, p, i) && HeldBy(s, q, i) ==> p == q)
  }

  ghost predicate HeldBy(s: State, p: nat, i: nat) {
    p < |s.producers| && Holding(s.producers[p].pc) && s.producers[p].pc.index == i
  }

  ghost predicate SlotsInv(s: State, sw: Option<nat>)
    requires WellFormed(s)
  {
    var cur := s.buffers[s.current];
    && (forall b, i :: 0 <= b < s.current && 0 <= i < s.size ==>
          s.buffers[b].ready[i] && s.buffers[b].slots[i].Some?)
    && (forall i :: 0 <= i < Drawn(s, sw) ==> cur.ready[i] || exists p: nat :: HeldBy(s, p, i))
    && (forall i :: 0 <= i < s.size && cur.ready[i] ==> cur.slots[i].Some?)
    && (forall i :: Drawn(s, sw) <= i < s.size ==> !cur.ready[i] && cur.slots[i].None?)
  }

  ghost predicate CountInv(s: State, sw: Option<nat>)
    requires WellFormed(s)
  {
    && (forall b :: 0 <= b < s.current ==> s.buffers[b].count == s.size)
    && s.buffers[s.current].count + |Holders(s)| == Drawn(s, sw)
    && (sw.None? ==> s.buffers[s.current].count < s.size)
    && (sw.Some? && sw.value < |s.producers| && Pc(s, sw.value).Install? ==> s.buffers[s.current].count == s.size)
  }

  ghost predicate LockInv(s: State) {
    && (forall p :: 0 <= p < |s.producers| ==>
          ((s.producers[p].pc.Enqueue? || s.producers[p].pc.Reset? || s.producers[p].pc.Unlock?) <==> s.lock == ByProducer(p)))
    && ((s.consumer.Front? || s.consumer.UnlockFront? || s.consumer.Pop? || s.consumer.UnlockPop?) <==> s.lock == ByConsumer)
    && (s.lock.ByProducer? ==> s.lock.id < |s.producers|)
  }

  /** Buffers that have entered m_buffers. */
  ghost function Enqueued(s: State, sw: Option<nat>): nat
    requires WellFormed(s)
  {
    if sw.Some? && sw.value < |s.producers| && (Pc(s, sw.value).Lock? || Pc(s, sw.value).Enqueue?)
    then |s.buffers| - 1 else |s.buffers|
  }

  ghost predicate QueueInv(s: State, sw: Option<nat>)
    requires WellFormed(s)
  {
    && s.popped + |s.queue| == Enqueued(s, sw)
    && (forall j :: 0 <= j < |s.queue| ==> s.queue[j] == s.popped + j)
  }

  /** The buffer the consumer reads next, with `readIndex` its position. */
  ghost function ReadBuffer(s: State): nat {
    s.popped + if s.consumer.LockPop? || s.consumer.Pop? then 1 else 0
  }

  ghost predicate ConsumerInv(s: State)
    requires WellFormed(s)
  {
    && (s.readBuffer.Some? ==> s.readBuffer.value == s.popped && |s.queue| > 0)
    && (s.readBuffer.None? ==> s.readIndex == 0)
    && (s.consumer.Front? || s.consumer.LockPop? || s.consumer.Pop? || s.consumer.UnlockPop? ==> s.readBuffer.None?)
    && (s.consumer.Take? ==> s.buffers[s.popped].ready[s.readIndex])
    && (s.consumer.LockPop? || s.consumer.Pop? ==> |s.queue| > 0)
    && (forall b, i :: 0 <= b < |s.buffers| && 0 <= i < s.size && Earlier(b, i, ReadBuffer(s), s.readIndex) ==>
          s.buffers[b].ready[i])
    && Somes(s.delivered) == Before(s.buffers, ReadBuffer(s), s.readIndex)
  }

  ghost function Somes(lines: seq<Line>): (r: seq<Option<Line>>) {
    seq(|lines|, j requires 0 <= j < |lines| => Some(lines[j]))
  }

  /** The slots before slot i of buffer b, ordered by (buffer, index). */
  ghost function Before(buffers: seq<Buffer>, b: nat, i: nat): seq<Option<Line>>
    decreases b, i
  {
    if i > 0 then
      Before(buffers, b, i - 1) +
      [if b < |buffers| && i <= |buffers[b].slots| then buffers[b].slots[i - 1] else None]
    else if 0 < b <= |buffers| then Before(buffers, b - 1, |buffers[b - 1].slots|)
    else []
  }

  ghost predicate LinesInv(s: State)
    requires WellFormed(s)
  {
    && (forall line, b, i :: Sits(s, line, b, i) ==>
          line.producer < |s.producers| && line.number < Written(s, line.producer))
    && (forall p: nat, k: nat :: p < |s.producers| && k < Written(s, p) ==> Stored(s, Line(p, k)))
  }

  predicate AboutToStore(pc: ProducerPc) {
    pc.Load? || pc.Store?
  }

  ghost predicate OrderInv(s: State)
    requires WellFormed(s)
  {
    && (forall x, b, i, y, b', i' ::
          Sits(s, x, b, i) && Sits(s, y, b', i') && x.producer == y.producer && Earlier(b, i, b', i') ==>
          x.number < y.number)
    && (forall x, b, i ::
          Sits(s, x, b, i) && x.producer < |s.producers| && AboutToStore(Pc(s, x.producer)) ==>
          Earlier(b, i, s.current, Pc(s, x.producer).index))
  }

  /** Tickets, slots, counted stores, spinners and the switcher. */
  ghost predicate TicketInv(s: State, sw: Option<nat>)
    requires WellFormed(s)
  {
    && SwitcherInv(s, sw)
    && HoldersInv(s, sw)
    && SlotsInv(s, sw)
    && CountInv(s, sw)
    && s.ticket <= s.size + |Spinners(s)|
  }

  /** The lock, the queue of buffers and the consumer's position. */
  ghost predicate ReaderInv(s: State, sw: Option<nat>)
    requires WellFormed(s)
  {
    && LockInv(s)
    && QueueInv(s, sw)
    && ConsumerInv(s)
  }

  ghost predicate InvWith(s: State, sw: Option<nat>) {
    && WellFormed(s)
    && TicketInv(s, sw)
    && ReaderInv(s, sw)
    && LinesInv(s)
    && OrderInv(s)
  }

  ghost predicate Inv(s: State) {
    exists sw :: InvWith(s, sw)
  }

  lemma BeforeFrame(bs: seq<Buffer>, cs: seq<Buffer>, b: nat, i: nat)
    requires |bs| <= |cs| && b <= |bs| && (i > 0 ==> b < |bs|)
    requires forall k :: 0 <= k < |bs| ==> |bs[k].slots| == |cs[k].slots|
    requires b < |bs| ==> i <= |bs[b].slots|
    requires forall k, j :: 0 <= k < |bs| && 0 <= j < |bs[k].slots| && Earlier(k, j, b, i) ==>
               bs[k].slots[j] == cs[k].slots[j]
    ensures Before(bs, b, i) == Before(cs, b, i)
    decreases b, i
  {
    if i > 0 {
      BeforeFrame(bs, cs, b, i - 1);
    } else if b > 0 {
      BeforeFrame(bs, cs, b - 1, |bs[b - 1].slots|);
    }
  }
}
