/** The consumer thread of the guaranteed logger: `QueueBuffer::try_pop` as one call, and the loop
    of `NanoLogger::pop` that writes out what is left after SHUTDOWN. */
module LogDrain {
  import opened Wrappers
  import opened LogQueue
  import opened LogQueueInvariant
  import opened LogQueueSteps
  import opened LogQueueTheorems

  /** The slot the consumer reads next holds a published line of a buffer in m_buffers. */
  ghost predicate LineWaiting(s: State)
    requires WellFormed(s)
  {
    && |s.queue| > 0
    && s.popped < |s.buffers|
    && s.buffers[s.popped].ready[s.readIndex]
  }

  /** No call of push is under way. */
  ghost predicate Quiescent(s: State) {
    forall p :: 0 <= p < |s.producers| ==> s.producers[p].pc.Idle?
  }

  lemma ReaderFacts(s: State)
    requires Inv(s)
    ensures WellFormed(s)
    ensures s.readBuffer.Some? ==> s.readBuffer.value == s.popped && |s.queue| > 0
    ensures s.readBuffer.None? ==> s.readIndex == 0
    ensures |s.queue| > 0 ==> s.queue[0] == s.popped && s.popped < |s.buffers|
    ensures forall b, i :: 0 <= b < |s.buffers| && 0 <= i < s.size && s.buffers[b].ready[i] ==> s.buffers[b].slots[i].Some?
  {
    var sw :| InvWith(s, sw);
    assert QueueInv(s, sw) && ConsumerInv(s) && SlotsInv(s, sw);
  }

  /** Uncontended, the consumer's critical section around m_buffers.front. */
  ghost function Fetched(s: State): State {
    s.(readBuffer := if s.queue == [] then None else Some(s.queue[0]))
  }

  lemma Chain(s: State, t: State, rest: seq<Actor>)
    requires Inv(s) && Inv(t) && WellFormed(s) && t == ConsumerStep(s)
    ensures Run(s, [C] + rest) == Run(t, rest)
  {
    hide Inv, WellFormed, ConsumerStep;
    assert ([C] + rest)[1..] == rest;
  }

  lemma Last(s: State, t: State)
    requires Inv(s) && Inv(t) && WellFormed(s) && t == ConsumerStep(s)
    ensures Run(s, [C]) == t
  {
    assert Run(t, []) == t;
    Chain(s, t, []);
    assert [C] + [] == [C];
  }

  /** The consumer's next three states. */
  lemma ThreeSteps(s: State) returns (s1: State, s2: State, s3: State)
    requires Inv(s)
    ensures WellFormed(s) && s1 == ConsumerStep(s) && WellFormed(s1) && s2 == ConsumerStep(s1)
    ensures WellFormed(s2) && s3 == ConsumerStep(s2) && Inv(s3) && Run(s, [C, C, C]) == s3
  {
    hide Inv, WellFormed, ConsumerStep, Run;
    NextKeeps(s, C);
    s1 := Next(s, C);
    NextKeeps(s1, C);
    s2 := Next(s1, C);
    NextKeeps(s2, C);
    s3 := Next(s2, C);
    Last(s2, s3);
    Chain(s1, s2, [C]);
    Chain(s, s1, [C] + [C]);
    assert [C] + ([C] + [C]) == [C, C, C];
  }

  lemma FetchSteps(s: State)
    requires Inv(s) && s.consumer.Poll? && s.lock.Free? && s.readBuffer.None?
    ensures Inv(Fetched(s)) && Run(s, [C, C, C]) == Fetched(s)
  {
    var s1, s2, s3 := ThreeSteps(s);
    hide Inv, Run;
  }

  /** Uncontended, the consumer's move of a published line, and of the whole buffer after its last. */
  ghost function Taken(s: State): State
    requires WellFormed(s) && s.readBuffer.Some? && |s.queue| > 0
    requires s.buffers[s.readBuffer.value].slots[s.readIndex].Some?
  {
    var t := s.(delivered := s.delivered + [s.buffers[s.readBuffer.value].slots[s.readIndex].value]);
    if s.readIndex + 1 == s.size then
      t.(readIndex := 0, readBuffer := None, queue := s.queue[1..], popped := s.popped + 1)
    else
      t.(readIndex := s.readIndex + 1)
  }

  ghost function TakeSchedule(s: State): seq<Actor> {
    if s.readIndex + 1 == s.size then [C, C, C, C, C] else [C, C]
  }

  lemma PopSteps(s: State)
    requires Inv(s) && s.consumer.LockPop? && s.lock.Free?
    ensures WellFormed(s) && |s.queue| > 0
    ensures var t := s.(queue := s.queue[1..], popped := s.popped + 1, consumer := Poll);
      Inv(t) && Run(s, [C, C, C]) == t
  {
    var sw :| InvWith(s, sw);
    assert ConsumerInv(s);
    hide Inv, InvWith, ConsumerInv, Run, WellFormed;
    var s1, s2, s3 := ThreeSteps(s);
    assert s1 == s.(lock := ByConsumer, consumer := Pop);
    assert s2 == s1.(queue := s.queue[1..], popped := s.popped + 1, consumer := UnlockPop);
  }

  /** The consumer finds the line published, and moves it. */
  lemma MoveLine(s: State) returns (s1: State, s2: State)
    requires Inv(s) && s.consumer.Poll? && s.readBuffer.Some?
    requires WellFormed(s) && s.buffers[s.readBuffer.value].ready[s.readIndex]
    ensures s.buffers[s.readBuffer.value].slots[s.readIndex].Some? && |s.queue| > 0
    ensures s1 == ConsumerStep(s) && WellFormed(s1) && s2 == ConsumerStep(s1) && Inv(s1) && Inv(s2)
    ensures if s.readIndex + 1 == s.size
            then Taken(s) == s2.(queue := s2.queue[1..], popped := s2.popped + 1, consumer := Poll)
              && s2.consumer.LockPop? && s2.lock == s.lock
            else Taken(s) == s2
  {
    hide Inv, Run;
    ReaderFacts(s);
    NextKeeps(s, C);
    s1 := ConsumerStep(s);
    assert s1 == s.(consumer := Take);
    NextKeeps(s1, C);
    s2 := ConsumerStep(s1);
    hide WellFormed;
  }

  lemma TakeSteps(s: State)
    requires Inv(s) && s.consumer.Poll? && s.lock.Free? && s.readBuffer.Some? && WellFormed(s)
    requires s.buffers[s.readBuffer.value].ready[s.readIndex]
    ensures s.buffers[s.readBuffer.value].slots[s.readIndex].Some? && |s.queue| > 0
    ensures Inv(Taken(s)) && Run(s, TakeSchedule(s)) == Taken(s)
  {
    hide Inv, Run, WellFormed, ConsumerStep, Taken;
    var s1, s2 := MoveLine(s);
    if s.readIndex + 1 == s.size {
      PopSteps(s2);
      Chain(s1, s2, [C, C, C]);
      Chain(s, s1, [C] + [C, C, C]);
      assert [C] + ([C] + [C, C, C]) == [C, C, C, C, C];
    } else {
      Last(s1, s2);
      Chain(s, s1, [C]);
      assert [C] + [C] == [C, C];
    }
  }

  lemma SameSide(s: State)
    ensures SameProducerSide(s, s)
    ensures forall t, u :: SameProducerSide(s, t) && SameProducerSide(t, u) ==> SameProducerSide(s, u)
  {
  }

  lemma SideKeeps(s: State, t: State)
    requires SameProducerSide(s, t)
    ensures AllSlots(s) == AllSlots(t) && (Quiescent(s) <==> Quiescent(t)) && s.producers == t.producers
  {
    hide Before;
  }

  /** Fetching the read buffer makes no difference to producers, to lines, or to whether one waits. */
  lemma FetchedFacts(s: State)
    requires Inv(s) && s.consumer.Poll? && s.lock.Free? && s.readBuffer.None?
    ensures Inv(Fetched(s)) && Run(s, [C, C, C]) == Fetched(s)
    ensures SameProducerSide(s, Fetched(s)) && Fetched(s).delivered == s.delivered && Fetched(s).lock.Free?
    ensures WellFormed(s) && WellFormed(Fetched(s)) && (LineWaiting(Fetched(s)) <==> LineWaiting(s))
    ensures Fetched(s).readBuffer.None? ==> !LineWaiting(s)
  {
    hide Run, WellFormed, Inv;
    FetchSteps(s);
    ReaderFacts(s);
    ReaderFacts(Fetched(s));
  }

  /** With the read buffer fetched if there is one, a line waits exactly if its slot is published. */
  lemma WaitingFacts(s: State)
    requires Inv(s)
    ensures WellFormed(s)
    ensures s.readBuffer.Some? ==>
      s.readBuffer.value < |s.buffers| && s.readIndex < |s.buffers[s.readBuffer.value].ready|
      && (LineWaiting(s) <==> s.buffers[s.readBuffer.value].ready[s.readIndex])
  {
    hide Inv;
    ReaderFacts(s);
  }

  lemma TakenFacts(s: State)
    requires WellFormed(s) && s.readBuffer.Some? && |s.queue| > 0
    requires s.buffers[s.readBuffer.value].slots[s.readIndex].Some?
    ensures SameProducerSide(s, Taken(s)) && (s.lock.Free? ==> Taken(s).lock.Free?)
  {
  }

  class GuaranteedLogger {
    const size: nat
    var buffers: seq<Buffer>
    var current: nat
    var ticket: nat
    var queue: seq<nat>
    var lock: Owner
    var readBuffer: Option<nat>
    var readIndex: nat
    var written: seq<Line>          // the lines handed to the file writer
    ghost var producers: seq<Producer>
    ghost var popped: nat
    ghost var delivered: seq<Line>

    ghost function View(): State
      reads this
    {
      State(size, buffers, current, ticket, queue, lock, producers, Poll, readBuffer, readIndex, popped, delivered)
    }

    /** Between two calls of try_pop, with no producer inside a critical section. */
    ghost predicate Valid()
      reads this
    {
      Inv(View()) && lock.Free? && written == delivered
    }

    /** `get_next_read_buffer` under the lock, when there is no read buffer. */
    method FetchBuffer()
      requires lock.Free? && readBuffer.None?
      modifies this`lock, this`readBuffer
      ensures View() == Fetched(old(View()))
    {
      lock := ByConsumer;
      readBuffer := if queue == [] then None else Some(queue[0]);
      lock := Free;
    }

    /** The part of try_pop behind a successful `Buffer::try_pop`. */
    method TakeLine() returns (line: Line)
      requires lock.Free? && WellFormed(View()) && readBuffer.Some? && |queue| > 0
      requires buffers[readBuffer.value].slots[readIndex].Some?
      modifies this
      ensures View() == Taken(old(View())) && written == old(written)
      ensures delivered == old(delivered) + [line]
    {
      line := buffers[readBuffer.value].slots[readIndex].value;
      delivered := delivered + [line];
      readIndex := readIndex + 1;
      if readIndex == size {
        readIndex := 0;
        readBuffer := None;
        lock := ByConsumer;
        queue := queue[1..];
        popped := popped + 1;
        lock := Free;
      }
    }

    /** One call of try_pop that meets no contention: it delivers the next line in slot order exactly
        when that line is published, and otherwise changes no line at all. */
    method TryPop() returns (line: Option<Line>, ghost calls: seq<Actor>)
      requires Inv(View()) && lock.Free?
      modifies this
      ensures Inv(View()) && lock.Free? && written == old(written)
      ensures (forall a :: a in calls ==> a == C) && View() == Run(old(View()), calls)
      ensures SameProducerSide(old(View()), View())
      ensures WellFormed(old(View())) && (line.Some? <==> LineWaiting(old(View())))
      ensures line.None? ==> delivered == old(delivered) && !LineWaiting(View())
      ensures line.Some? ==> delivered == old(delivered) + [line.value]
    {
      hide Inv, Run, WellFormed, Fetched, Taken, LineWaiting, SameProducerSide;
      ghost var s := View();
      SameSide(s);
      calls := [];
      RunConcat(s, [], []);
      if readBuffer.None? {
        FetchBuffer();
        FetchedFacts(s);
        calls := [C, C, C];
      }
      ghost var t := View();
      ReaderFacts(t);
      WaitingFacts(t);
      if readBuffer.None? || !buffers[readBuffer.value].ready[readIndex] {
        return None, calls;
      }
      TakeSteps(t);
      TakenFacts(t);
      RunConcat(s, calls, TakeSchedule(t));
      calls := calls + TakeSchedule(t);
      var taken := TakeLine();
      line := Some(taken);
    }

    /** The loop after SHUTDOWN.  When no push is under way it ends with every pushed line written
        exactly once, each producer's lines in program order. */
    method Drain()
      requires Valid() && Quiescent(View())
      modifies this
      ensures Valid() && SameProducerSide(old(View()), View())
      ensures old(written) <= written
      ensures Somes(written) == Before(buffers, current, ticket)
      ensures forall p: nat, k: nat ::
        Line(p, k) in written <==> p < |producers| && k < producers[p].begun
      ensures forall j, k :: 0 <= j < k < |written| && written[j].producer == written[k].producer ==>
        written[j].number < written[k].number
    {
      hide Inv, WellFormed, LineWaiting, AllSlots, Before, Quiescent, SameProducerSide;
      SameSide(View());
      var more := true;
      while more
        invariant Valid() && SameProducerSide(old(View()), View()) && old(written) <= written
        invariant !more ==> WellFormed(View()) && !LineWaiting(View())
        decreases |AllSlots(View())| - |written|, more
      {
        ghost var before := View();
        WrittenFits(before);
        var line, _ := TryPop();
        if line.Some? {
          written := written + [line.value];
        } else {
          more := false;
        }
        SideKeeps(before, View());
        ReaderFacts(View());
        WrittenFits(View());
      }
      SideKeeps(old(View()), View());
      NothingLeft(View());
    }
  }

  lemma WrittenFits(s: State)
    requires Inv(s)
    ensures |s.delivered| <= |AllSlots(s)|
  {
    ReadPosition(s);
    if ReadBuffer(s) < |s.buffers| {
      BeforeGrows(s, ReadBuffer(s), s.readIndex, |s.buffers|, 0);
    }
    assert |Somes(s.delivered)| == |s.delivered|;
  }

  /** With no push under way, a consumer that finds no line waiting has read up to the first slot
      that was never drawn. */
  lemma AtTheEnd(s: State)
    requires Inv(s) && Quiescent(s) && s.consumer.Poll? && WellFormed(s) && !LineWaiting(s)
    ensures ReadBuffer(s) == s.current && s.readIndex == s.ticket < s.size
    ensures forall line, b, i :: Sits(s, line, b, i) ==> Earlier(b, i, s.current, s.ticket)
  {
    var sw :| InvWith(s, sw);
    assert SwitcherInv(s, sw) && SlotsInv(s, sw) && CountInv(s, sw) && QueueInv(s, sw) && ConsumerInv(s);
    assert sw.None?;
    assert Holders(s) == {};
    NobodyHolds(s);
    assert s.ticket < s.size && Drawn(s, sw) == s.ticket;
    hide InvWith, Inv, Quiescent, SwitcherInv, CountInv, Holders;
    assert !Earlier(ReadBuffer(s), s.readIndex, s.current, s.ticket);
    assert !Earlier(s.current, s.ticket, ReadBuffer(s), s.readIndex);
  }

  /** With no push under way, a consumer that finds no line waiting has delivered all of them. */
  lemma NothingLeft(s: State)
    requires Inv(s) && Quiescent(s) && s.consumer.Poll? && WellFormed(s) && !LineWaiting(s)
    ensures Somes(s.delivered) == Before(s.buffers, s.current, s.ticket)
    ensures forall p: nat, k: nat :: Line(p, k) in s.delivered <==> p < |s.producers| && k < s.producers[p].begun
    ensures forall j, k :: 0 <= j < k < |s.delivered| && s.delivered[j].producer == s.delivered[k].producer ==>
      s.delivered[j].number < s.delivered[k].number
  {
    AtTheEnd(s);
    ReadPosition(s);
    forall p: nat, k: nat
      ensures Line(p, k) in s.delivered <==> p < |s.producers| && k < s.producers[p].begun
    {
      DeliveredIffPushed(s, p, k);
    }
    forall j: nat, k: nat | j < k < |s.delivered| && s.delivered[j].producer == s.delivered[k].producer
      ensures s.delivered[j].number < s.delivered[k].number
    {
      DeliveredOrder(s, k, j);
    }
  }

  lemma DeliveredIffPushed(s: State, p: nat, k: nat)
    requires Inv(s) && Quiescent(s)
    requires WellFormed(s)
    requires forall line, b, i :: Sits(s, line, b, i) ==> Earlier(b, i, ReadBuffer(s), s.readIndex)
    ensures Line(p, k) in s.delivered <==> p < |s.producers| && k < s.producers[p].begun
  {
    var sw :| InvWith(s, sw);
    assert LinesInv(s);
    hide InvWith, Inv, Sits;
    var line := Line(p, k);
    if line in s.delivered {
      var j :| 0 <= j < |s.delivered| && s.delivered[j] == line;
      var b, i := DeliveredSits(s, j);
    } else if p < |s.producers| && k < s.producers[p].begun {
      assert Stored(s, line);
      var b, i :| Sits(s, line, b, i);
      SitsIsDelivered(s, line, b, i);
    }
  }
}
