/** What holds of the log queue in every run: any number of threads, any schedule, any buffer size. */
module LogQueueTheorems {
  import opened Wrappers
  import opened LogQueue
  import opened LogQueueInvariant
  import opened LogQueueSteps

  lemma InitInv(size: nat, threads: nat)
    requires size > 0
    ensures InvWith(Init(size, threads), None)
  {
    var s := Init(size, threads);
    assert Holders(s) == {};
    assert Spinners(s) == {};
    assert Before(s.buffers, 0, 0) == [];
    hide Holders, Spinners, Before;
  }

  lemma NextShape(s: State, a: Actor)
    requires WellFormed(s)
    ensures Next(s, a).size == s.size && |Next(s, a).producers| == |s.producers|
  {
    match a
    case C =>
    case P(p) =>
  }

  lemma NextKeeps(s: State, a: Actor)
    requires Inv(s)
    ensures WellFormed(s) && Inv(Next(s, a))
    ensures Next(s, a).size == s.size && |Next(s, a).producers| == |s.producers|
  {
    var sw :| InvWith(s, sw);
    assert WellFormed(s);
    NextShape(s, a);
    hide InvWith, WellFormed, ProducerStep, ConsumerStep;
    match a
    case C => ConsumerKeeps(s, sw);
    case P(p) =>
      if p < |s.producers| {
        ProducerKeeps(s, sw, p);
      }
  }

  /** The state a schedule leads to. */
  ghost function Run(s: State, schedule: seq<Actor>): (t: State)
    requires Inv(s)
    ensures Inv(t) && t.size == s.size && |t.producers| == |s.producers|
    decreases |schedule|
  {
    if schedule == [] then s
    else
      NextKeeps(s, schedule[0]);
      Run(Next(s, schedule[0]), schedule[1..])
  }

  lemma RunStep(s: State, schedule: seq<Actor>)
    requires Inv(s) && schedule != []
    ensures WellFormed(s) && Inv(Next(s, schedule[0]))
    ensures Run(s, schedule) == Run(Next(s, schedule[0]), schedule[1..])
  {
    NextKeeps(s, schedule[0]);
    hide Inv, Next, WellFormed;
  }

  lemma {:induction false} RunConcat(s: State, first: seq<Actor>, second: seq<Actor>)
    requires Inv(s)
    ensures Run(s, []) == s && Run(s, first + second) == Run(Run(s, first), second)
    decreases |first|
  {
    hide Inv, Next, WellFormed;
    assert Run(s, []) == s;
    hide Run;
    if first == [] {
      assert [] + second == second;
    } else {
      RunStep(s, first);
      RunStep(s, first + second);
      RunConcat(Next(s, first[0]), first[1..], second);
      assert (first + second)[1..] == first[1..] + second;
    }
  }

  ghost function Reached(size: nat, threads: nat, schedule: seq<Actor>): (s: State)
    requires size > 0
    ensures Inv(s) && s.size == size && |s.producers| == threads
  {
    InitInv(size, threads);
    Run(Init(size, threads), schedule)
  }

  // ---- positions in the sequence of slots ----

  ghost predicate Position(s: State, b: nat, i: nat) {
    b < |s.buffers| && i < s.size
  }

  /** The slots of all buffers, in order. */
  ghost function AllSlots(s: State): seq<Option<Line>> {
    Before(s.buffers, |s.buffers|, 0)
  }

  lemma {:induction false} BeforeGrows(s: State, b: nat, i: nat, b': nat, i': nat)
    requires WellFormed(s) && Position(s, b, i) && b' <= |s.buffers| && i' <= s.size && (b' == |s.buffers| ==> i' == 0)
    requires Earlier(b, i, b', i')
    ensures Before(s.buffers, b, i) + [s.buffers[b].slots[i]] <= Before(s.buffers, b', i')
    decreases b', i'
  {
    var here := Before(s.buffers, b, i) + [s.buffers[b].slots[i]];
    if i' > 0 {
      if b == b' && i == i' - 1 {
      } else {
        BeforeGrows(s, b, i, b', i' - 1);
      }
    } else if b == b' - 1 && i == s.size - 1 {
      assert Before(s.buffers, b', 0) == Before(s.buffers, b, s.size) == here;
    } else {
      BeforeGrows(s, b, i, b' - 1, s.size);
    }
  }

  /** The position of the j-th slot. */
  lemma {:induction false} PositionOf(s: State, b: nat, i: nat, j: nat) returns (b': nat, i': nat)
    requires WellFormed(s) && b <= |s.buffers| && i <= s.size && (b == |s.buffers| ==> i == 0)
    requires j < |Before(s.buffers, b, i)|
    ensures Position(s, b', i') && Earlier(b', i', b, i)
    ensures |Before(s.buffers, b', i')| == j && Before(s.buffers, b, i)[j] == s.buffers[b'].slots[i']
    decreases b, i
  {
    if i > 0 {
      if j == |Before(s.buffers, b, i - 1)| {
        b', i' := b, i - 1;
      } else {
        b', i' := PositionOf(s, b, i - 1, j);
      }
    } else {
      b', i' := PositionOf(s, b - 1, s.size, j);
    }
  }

  lemma ReadPosition(s: State)
    requires Inv(s)
    ensures WellFormed(s) && ReadBuffer(s) <= |s.buffers| && (ReadBuffer(s) == |s.buffers| ==> s.readIndex == 0)
    ensures Somes(s.delivered) == Before(s.buffers, ReadBuffer(s), s.readIndex)
  {
    var sw :| InvWith(s, sw);
    assert QueueInv(s, sw);
  }

  // ---- nothing lost, duplicated or invented ----

  /** Calls of push by p that have returned. */
  ghost function Completed(s: State, p: nat): int
    requires p < |s.producers|
  {
    if s.producers[p].pc.Idle? then s.producers[p].begun else s.producers[p].begun - 1
  }

  /** Every completed push has its line in exactly one slot, and every filled slot has the line
      of a push that was begun. */
  lemma EachLineInOneSlot(size: nat, threads: nat, schedule: seq<Actor>)
    requires size > 0
    ensures var s := Reached(size, threads, schedule);
      && (forall p: nat, k: nat :: p < threads && k < Completed(s, p) ==> Stored(s, Line(p, k)))
      && (forall line, b, i :: Sits(s, line, b, i) ==>
            line.producer < threads && line.number < s.producers[line.producer].begun)
      && (forall line, b, i, b', i' :: Sits(s, line, b, i) && Sits(s, line, b', i') ==> b == b' && i == i')
  {
    hide Reached;
    var s := Reached(size, threads, schedule);
    var sw :| InvWith(s, sw);
    hide TicketInv, ReaderInv, Sits;
  }

  /** What the consumer has delivered is a prefix of all slots in (buffer, index) order. */
  lemma DeliveredIsPrefix(size: nat, threads: nat, schedule: seq<Actor>)
    requires size > 0
    ensures var s := Reached(size, threads, schedule); Somes(s.delivered) <= AllSlots(s)
  {
    var s := Reached(size, threads, schedule);
    ReadPosition(s);
    var b, i := ReadBuffer(s), s.readIndex;
    if b < |s.buffers| {
      BeforeGrows(s, b, i, |s.buffers|, 0);
    }
  }

  lemma DeliveredSits(s: State, j: nat) returns (b: nat, i: nat)
    requires Inv(s) && j < |s.delivered|
    ensures WellFormed(s) && Sits(s, s.delivered[j], b, i) && Position(s, b, i)
    ensures |Before(s.buffers, b, i)| == j && Earlier(b, i, ReadBuffer(s), s.readIndex)
  {
    hide InvWith, Inv;
    ReadPosition(s);
    b, i := PositionOf(s, ReadBuffer(s), s.readIndex, j);
    assert Somes(s.delivered)[j] == Some(s.delivered[j]);
  }

  lemma SitsIsDelivered(s: State, line: Line, b: nat, i: nat)
    requires Inv(s) && Sits(s, line, b, i) && Earlier(b, i, ReadBuffer(s), s.readIndex)
    ensures |Before(s.buffers, b, i)| < |s.delivered| && s.delivered[|Before(s.buffers, b, i)|] == line
  {
    hide InvWith, Inv;
    ReadPosition(s);
    BeforeGrows(s, b, i, ReadBuffer(s), s.readIndex);
    var at := |Before(s.buffers, b, i)|;
    assert Somes(s.delivered)[at] == Some(line);
  }

  lemma DeliveredOrder(s: State, j: nat, k: nat)
    requires Inv(s) && k < j < |s.delivered| && s.delivered[k].producer == s.delivered[j].producer
    ensures s.delivered[k].number < s.delivered[j].number
  {
    var b, i := DeliveredSits(s, j);
    var b', i' := DeliveredSits(s, k);
    if !Earlier(b', i', b, i) && (b', i') != (b, i) {
      BeforeGrows(s, b, i, b', i');
    }
    var sw :| InvWith(s, sw);
    assert OrderInv(s);
    hide InvWith, Inv, Sits;
  }

  /** A producer's delivered lines are in the order it pushed them; so no line is delivered twice. */
  lemma DeliveredInProgramOrder(size: nat, threads: nat, schedule: seq<Actor>, j: nat, k: nat)
    requires size > 0 && k < j < |Reached(size, threads, schedule).delivered|
    ensures var d := Reached(size, threads, schedule).delivered;
      d[k] != d[j] && (d[k].producer == d[j].producer ==> d[k].number < d[j].number)
  {
    hide Reached;
    var s := Reached(size, threads, schedule);
    hide Inv;
    if s.delivered[k].producer == s.delivered[j].producer {
      DeliveredOrder(s, j, k);
    }
  }

  /** When a line is delivered, its producer's earlier lines have all been delivered before it. */
  lemma DeliveredSkipsNone(size: nat, threads: nat, schedule: seq<Actor>, j: nat, k: nat)
    requires size > 0 && j < |Reached(size, threads, schedule).delivered|
    requires k < Reached(size, threads, schedule).delivered[j].number
    ensures var d := Reached(size, threads, schedule).delivered; Line(d[j].producer, k) in d[..j]
  {
    hide Reached, Inv, Sits, Earlier;
    var s := Reached(size, threads, schedule);
    var d := s.delivered;
    var b, i := DeliveredSits(s, j);
    var b', i' := EarlierSits(s, d[j], b, i, k);
    EarlierIsDelivered(s, Line(d[j].producer, k), b', i', d[j], b, i, j);
  }

  /** The earlier lines of a stored line's producer are stored, and stored before it. */
  lemma EarlierSits(s: State, line: Line, b: nat, i: nat, k: nat) returns (b': nat, i': nat)
    requires Inv(s) && Sits(s, line, b, i) && k < line.number
    ensures Sits(s, Line(line.producer, k), b', i') && Earlier(b', i', b, i)
  {
    var sw :| InvWith(s, sw);
    assert LinesInv(s) && OrderInv(s);
    hide InvWith, Inv, Sits;
    assert Stored(s, Line(line.producer, k));
    b', i' :| Sits(s, Line(line.producer, k), b', i');
  }

  lemma EarlierIsDelivered(s: State, line: Line, b': nat, i': nat, later: Line, b: nat, i: nat, j: nat)
    requires Inv(s) && Sits(s, line, b', i') && Sits(s, later, b, i) && Earlier(b', i', b, i)
    requires Earlier(b, i, ReadBuffer(s), s.readIndex) && |Before(s.buffers, b, i)| == j <= |s.delivered|
    ensures line in s.delivered[..j]
  {
    assert WellFormed(s) by {
      var sw :| InvWith(s, sw);
    }
    hide Inv;
    SitsIsDelivered(s, line, b', i');
    BeforeGrows(s, b', i', b, i);
    assert s.delivered[..j][|Before(s.buffers, b', i')|] == line;
  }

  // ---- switching buffers ----

  ghost function Below(n: nat): (r: set<nat>)
    ensures |r| == n && forall i: nat :: i in r <==> i < n
  {
    if n == 0 then {} else Below(n - 1) + {n - 1}
  }

  lemma SubsetSize<T>(a: set<T>, b: set<T>)
    requires a <= b
    ensures |a| <= |b|
  {
    assert b == a + (b - a);
  }

  /** When the tickets have run out, somebody holds an index or switches: at most all the other
      threads spin. */
  lemma SomebodyWorks(s: State, sw: Option<nat>) returns (p: nat)
    requires InvWith(s, sw) && s.ticket >= s.size
    ensures p < |s.producers| && (Holding(Pc(s, p)) || Switching(Pc(s, p)))
    ensures |Spinners(s)| <= |s.producers| - 1
  {
    assert SwitcherInv(s, sw) && CountInv(s, sw);
    hide ReaderInv, LinesInv, OrderInv, HoldersInv, SlotsInv;
    if sw.Some? {
      p := sw.value;
    } else {
      assert |Holders(s)| > 0;
      p :| p in Holders(s);
    }
    SubsetSize(Spinners(s), Below(|s.producers|) - {p});
  }

  /** Producer p stores into the current buffer, into an empty slot, and resets the tickets only
      when every store of the buffer before is counted and no index is held. */
  ghost predicate StoresSafely(s: State, p: nat)
    requires WellFormed(s) && p < |s.producers|
  {
    match Pc(s, p)
    case Store(b, i) => b == s.current && s.buffers[b].slots[i].None?
    case Publish(b, i) => b == s.current
    case Count(b, i) => b == s.current
    case Reset => s.current > 0 && s.buffers[s.current - 1].count == s.size && Holders(s) == {}
    case _ => true
  }

  lemma EachStoresSafely(s: State, sw: Option<nat>, p: nat)
    requires InvWith(s, sw) && p < |s.producers|
    ensures StoresSafely(s, p)
  {
    assert HolderInv(s, sw, p);
    if Pc(s, p).Reset? {
      assert SwitcherInv(s, sw) && CountInv(s, sw);
      NoneHeld(s, sw, p);
    }
  }

  /** At every moment of every run: at most one thread switches buffers; no two threads hold the
      same index; stores and resets are safe; and the ticket counter is below size + threads. */
  lemma SwitchingIsSafe(size: nat, threads: nat, schedule: seq<Actor>)
    requires size > 0
    ensures var s := Reached(size, threads, schedule);
      && WellFormed(s)
      && (forall p: nat, q: nat :: p < threads && q < threads && Switching(Pc(s, p)) && Switching(Pc(s, q)) ==> p == q)
      && (forall p: nat, q: nat, i: nat :: HeldBy(s, p, i) && HeldBy(s, q, i) ==> p == q)
      && (forall p: nat :: p < threads ==> StoresSafely(s, p))
      && s.ticket < size + if threads > 0 then threads else 1
  {
    hide Reached;
    var s := Reached(size, threads, schedule);
    var sw :| InvWith(s, sw);
    assert SwitcherInv(s, sw) && HoldersInv(s, sw);
    if s.ticket >= s.size {
      var p := SomebodyWorks(s, sw);
      assert s.ticket <= s.size + |Spinners(s)|;
    }
    hide InvWith, StoresSafely;
    forall p: nat | p < threads ensures WellFormed(s) && StoresSafely(s, p) {
      EachStoresSafely(s, sw, p);
    }
  }

  /** While a producer has an uncounted index, no step of anybody changes the current buffer. */
  lemma HolderPinsBuffer(s: State, a: Actor, p: nat, i: nat)
    requires Inv(s) && HeldBy(s, p, i)
    ensures WellFormed(s) && Next(s, a).current == s.current
  {
    var sw :| InvWith(s, sw);
    assert WellFormed(s) && SwitcherInv(s, sw) && CountInv(s, sw);
    hide InvWith;
    match a
    case C =>
    case P(q) =>
      if q < |s.producers| {
        Frame(s, q);
        if Pc(s, q).Install? {
          NoneHeld(s, sw, q);
        }
        hide ProducerStep, SwitcherInv, CountInv, WellFormed;
      }
  }

  /** Producer p has index i in its hands in every state the schedule passes through. */
  ghost predicate HoldsThroughout(s: State, schedule: seq<Actor>, p: nat, i: nat)
    requires Inv(s)
    decreases |schedule|
  {
    NextKeeps(s, if schedule == [] then C else schedule[0]);
    HeldBy(s, p, i) && (schedule == [] || HoldsThroughout(Next(s, schedule[0]), schedule[1..], p, i))
  }

  lemma {:induction false} HeldBufferStays(s: State, schedule: seq<Actor>, p: nat, i: nat)
    requires Inv(s) && HoldsThroughout(s, schedule, p, i)
    ensures Run(s, schedule).current == s.current && HeldBy(Run(s, schedule), p, i)
    decreases |schedule|
  {
    hide Inv, WellFormed, Next, HeldBy;
    if schedule != [] {
      NextKeeps(s, schedule[0]);
      HolderPinsBuffer(s, schedule[0], p, i);
      HeldBufferStays(Next(s, schedule[0]), schedule[1..], p, i);
    }
  }

  lemma DrawsIndex(s: State, p: nat)
    requires Inv(s) && p < |s.producers| && Pc(s, p).Draw? && s.ticket < s.size
    ensures WellFormed(s) && Inv(Next(s, P(p)))
    ensures Next(s, P(p)).current == s.current && HeldBy(Next(s, P(p)), p, s.ticket)
  {
    NextKeeps(s, P(p));
    hide Inv;
  }

  lemma StoreIsCurrent(s: State, p: nat)
    requires Inv(s) && p < |s.producers| && (Pc(s, p).Store? || Pc(s, p).Publish? || Pc(s, p).Count?)
    ensures Pc(s, p).buffer == s.current
  {
    var sw :| InvWith(s, sw);
    assert HolderInv(s, sw, p);
  }

  /** From the draw of an index below `size` to the count of its store, whatever anybody does in
      between, the buffer stored into is the one that was current at the draw. */
  lemma StoresWhereDrawn(s: State, p: nat, schedule: seq<Actor>)
    requires Inv(s) && p < |s.producers| && Pc(s, p).Draw? && s.ticket < s.size
    requires WellFormed(s) && Inv(Next(s, P(p))) && HoldsThroughout(Next(s, P(p)), schedule, p, s.ticket)
    ensures var t := Run(Next(s, P(p)), schedule);
      && t.current == s.current
      && p < |t.producers|
      && (Pc(t, p).Store? || Pc(t, p).Publish? || Pc(t, p).Count? ==> Pc(t, p).buffer == s.current && Pc(t, p).index == s.ticket)
  {
    hide Inv, WellFormed, Next, Run, HoldsThroughout;
    DrawsIndex(s, p);
    HeldBufferStays(Next(s, P(p)), schedule, p, s.ticket);
    var t := Run(Next(s, P(p)), schedule);
    if Pc(t, p).Store? || Pc(t, p).Publish? || Pc(t, p).Count? { StoreIsCurrent(t, p); }
  }

  // ---- the queue never wedges ----

  /** Steps a producer is still due before it, or the switcher it makes way for, resets the tickets. */
  function Due(pc: ProducerPc): nat {
    match pc
    case Load(_) => 9
    case Store(_, _) => 8
    case Publish(_, _) => 7
    case Count(_, _) => 6
    case Install => 5
    case Lock(_) => 4
    case Enqueue(_) => 3
    case Reset => 2
    case Unlock => 1
    case _ => 0
  }

  ghost function Pending(producers: seq<Producer>): nat {
    if producers == [] then 0
    else Pending(producers[..|producers| - 1]) + Due(producers[|producers| - 1].pc)
  }

  lemma {:induction false} PendingUpdate(ps: seq<Producer>, p: nat, q: Producer)
    requires p < |ps|
    ensures Pending(ps[p := q]) == Pending(ps) - Due(ps[p].pc) + Due(q.pc)
    ensures Due(ps[p].pc) <= Pending(ps) <= 9 * |ps|
  {
    var n := |ps| - 1;
    if p == n {
      assert ps[p := q][..n] == ps[..n];
      if n > 0 {
        PendingUpdate(ps[..n], 0, ps[0]);
      }
    } else {
      assert ps[p := q][..n] == ps[..n][p := q];
      PendingUpdate(ps[..n], p, q);
    }
  }

  /** Producer p is at work and its step would not be spent spinning. */
  ghost predicate CanAdvance(s: State, p: nat) {
    p < |s.producers| && Due(s.producers[p].pc) > 0 && (s.producers[p].pc.Lock? ==> s.lock.Free?)
  }

  /** Producer p's own due steps: spent spinning they stay, a reset aside they shrink. */
  lemma DueDecreases(s: State, p: nat)
    requires WellFormed(s) && p < |s.producers| && s.ticket >= s.size && s.size > 0
    ensures var t := ProducerStep(s, p);
      && t.producers == s.producers[p := t.producers[p]]
      && (t.ticket < t.size
          || Due(Pc(t, p)) < Due(Pc(s, p))
          || (Due(Pc(t, p)) == Due(Pc(s, p)) && !CanAdvance(s, p)))
  {
    match Pc(s, p)
    case Lock(_) =>
    case Count(_, _) =>
    case Reset =>
    case _ =>
  }

  /** While the tickets have run out, a step either resets them or does not add to the pending
      steps, and a step of a thread at work takes one away. */
  lemma PendingDecreases(s: State, a: Actor)
    requires Inv(s) && s.ticket >= s.size
    ensures WellFormed(s)
    ensures var t := Next(s, a);
      || t.ticket < t.size
      || (Pending(t.producers) <= Pending(s.producers)
          && (a.P? && CanAdvance(s, a.id) ==> Pending(t.producers) < Pending(s.producers)))
  {
    assert WellFormed(s);
    match a
    case C => assert Next(s, a).producers == s.producers;
    case P(p) =>
      if p < |s.producers| {
        var t := ProducerStep(s, p);
        DueDecreases(s, p);
        hide Inv, WellFormed, ProducerStep, Due, CanAdvance;
        PendingUpdate(s.producers, p, t.producers[p]);
      }
  }

  /** While the tickets have run out, some thread at work can advance, unless the consumer is in
      its critical section, which no other thread can hold it in. */
  lemma SomebodyCanAdvance(s: State) returns (p: nat)
    requires Inv(s) && s.ticket >= s.size
    ensures s.lock == ByConsumer || CanAdvance(s, p)
  {
    var sw :| InvWith(s, sw);
    p := SomebodyWorks(s, sw);
    assert LockInv(s);
    hide TicketInv, InvWith;
    if Pc(s, p).Lock? && s.lock.ByProducer? {
      p := s.lock.id;
    }
  }

  /** The tickets have run out in every state the schedule passes through. */
  ghost predicate StaysOut(s: State, schedule: seq<Actor>)
    requires Inv(s)
    decreases |schedule|
  {
    NextKeeps(s, if schedule == [] then C else schedule[0]);
    s.ticket >= s.size && (schedule == [] || StaysOut(Next(s, schedule[0]), schedule[1..]))
  }

  /** How many steps of the schedule advance a thread at work. */
  ghost function Advances(s: State, schedule: seq<Actor>): nat
    requires Inv(s)
    decreases |schedule|
  {
    if schedule == [] then 0
    else
      NextKeeps(s, schedule[0]);
      Advances(Next(s, schedule[0]), schedule[1..]) +
      if schedule[0].P? && CanAdvance(s, schedule[0].id) then 1 else 0
  }

  /** However long the tickets stay out, the threads at work take at most `Pending` steps, at most
      nine a thread, in the meantime. */
  lemma {:induction false} SwitchIsBounded(s: State, schedule: seq<Actor>)
    requires Inv(s) && StaysOut(s, schedule)
    ensures Advances(s, schedule) + Pending(Run(s, schedule).producers) <= Pending(s.producers) <= 9 * |s.producers|
    decreases |schedule|
  {
    if s.producers != [] {
      PendingUpdate(s.producers, 0, s.producers[0]);
    }
    if schedule != [] {
      var a, rest := schedule[0], schedule[1..];
      NextKeeps(s, a);
      PendingDecreases(s, a);
      hide Inv, WellFormed, Next, CanAdvance, Pending;
      SwitchIsBounded(Next(s, a), rest);
    }
  }

  function CriticalSteps(c: ConsumerPc): nat {
    match c
    case Front => 2
    case Pop => 2
    case UnlockFront => 1
    case UnlockPop => 1
    case _ => 0
  }

  lemma CriticalStep(s: State)
    requires Inv(s) && s.lock == ByConsumer
    ensures WellFormed(s) && Next(s, C).producers == s.producers
    ensures CriticalSteps(Next(s, C).consumer) < CriticalSteps(s.consumer)
  {
    var sw :| InvWith(s, sw);
    assert WellFormed(s) && LockInv(s);
    hide InvWith;
  }

  /** A step of a thread at work, or of the consumer, touches no thread that is not at work. */
  lemma OthersWait(s: State, a: Actor, q: nat)
    requires Inv(s) && q < |s.producers| && Due(s.producers[q].pc) == 0
    requires a.P? ==> a.id < |s.producers| && Due(s.producers[a.id].pc) > 0
    ensures WellFormed(s) && |Next(s, a).producers| == |s.producers| && Next(s, a).producers[q] == s.producers[q]
  {
    hide Inv, Due, WellFormed, ProducerStep;
    NextKeeps(s, a);
    if a.P? { Frame(s, a.id); } else { ConsumerLeavesProducers(s); }
  }

  lemma ConsumerLeavesProducers(s: State)
    requires WellFormed(s)
    ensures ConsumerStep(s).producers == s.producers
  {
  }

  /** From every reachable state in which the tickets have run out, the threads at work can go on to
      a state in which they have been reset, all others standing still: there is no deadlock. */
  lemma {:induction false} TicketsCanBeReset(s: State) returns (more: seq<Actor>)
    requires Inv(s)
    ensures Run(s, more).ticket < s.size
    ensures forall q :: 0 <= q < |s.producers| && Due(s.producers[q].pc) == 0 ==> Run(s, more).producers[q] == s.producers[q]
    decreases Pending(s.producers), CriticalSteps(s.consumer)
  {
    hide Inv, CriticalSteps, Next, Due;
    if s.ticket < s.size {
      return [];
    }
    var p := SomebodyCanAdvance(s);
    var a := if s.lock == ByConsumer then C else P(p);
    NextKeeps(s, a);
    PendingDecreases(s, a);
    if s.lock == ByConsumer {
      CriticalStep(s);
    }
    var t := Next(s, a);
    var rest := [];
    if t.ticket >= t.size {
      rest := TicketsCanBeReset(t);
    }
    more := [a] + rest;
    assert more[1..] == rest;
    forall q | 0 <= q < |s.producers| && Due(s.producers[q].pc) == 0 ensures Run(s, more).producers[q] == s.producers[q] {
      OthersWait(s, a, q);
    }
  }
}
