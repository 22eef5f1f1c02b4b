/** The lossy logger's ring (src/log/NanoLog.cpp, `RingBuffer`) as a step system.

    A line is named by the ticket its push drew.  Every access to an item is made under that
    item's spin lock, so the stores a thread makes under the lock are one step. */
module RingBuffer {
  import opened Arithmetic
  import opened Counting
  import opened Wrappers

  datatype ProducerPc =
    | Idle
    | Draw                // next: m_write_index.fetch_add
    | Lock(ticket: nat)   // next: take the lock of the item
    | Write(ticket: nat)  // holds the lock; next: store the line, set written
    | Unlock(ticket: nat) // holds the lock; next: release it

  datatype ConsumerPc = Poll | Look | Release(item: nat)

  datatype Item = Item(locked: bool, written: bool, line: nat)

  datatype State = State(
    items: seq<Item>,        // m_ring; its length is m_size
    ticket: nat,             // m_write_index
    readIndex: nat,          // m_read_index
    producers: seq<ProducerPc>,
    consumer: ConsumerPc,
    delivered: seq<nat>,     // lines handed to the writer, in order
    overwritten: seq<nat>)   // lines replaced before they were read

  datatype Actor = P(id: nat) | C

  function Init(size: nat, threads: nat): State {
    State(seq(size, _ => Item(false, false, 0)), 0, 0, seq(threads, _ => Idle), Poll, [], [])
  }

  function Go(s: State, p: nat, pc: ProducerPc): State
    requires p < |s.producers|
  {
    s.(producers := s.producers[p := pc])
  }

  function ProducerStep(s: State, p: nat): State
    requires p < |s.producers| && |s.items| > 0
  {
    match s.producers[p]
    case Idle => Go(s, p, Draw)
    case Draw => Go(s.(ticket := s.ticket + 1), p, Lock(s.ticket))
    case Lock(k) =>
      var j := k % |s.items|;
      if s.items[j].locked then s
      else Go(s.(items := s.items[j := s.items[j].(locked := true)]), p, Write(k))
    case Write(k) =>
      var j := k % |s.items|;
      var item := s.items[j];
      Go(s.(items := s.items[j := item.(written := true, line := k)],
            overwritten := if item.written then s.overwritten + [item.line] else s.overwritten),
         p, Unlock(k))
    case Unlock(k) =>
      var j := k % |s.items|;
      Go(s.(items := s.items[j := s.items[j].(locked := false)]), p, Idle)
  }

  function ConsumerStep(s: State): State
    requires |s.items| > 0
  {
    var j := s.readIndex % |s.items|;
    var item := s.items[j];
    match s.consumer
    case Poll =>
      if item.locked then s
      else s.(items := s.items[j := item.(locked := true)], consumer := Look)
    case Look =>
      if item.written then
        s.(items := s.items[j := item.(written := false)], readIndex := s.readIndex + 1,
           delivered := s.delivered + [item.line], consumer := Release(j))
      else s.(consumer := Release(j))
    case Release(i) =>
      if i < |s.items| then s.(items := s.items[i := s.items[i].(locked := false)], consumer := Poll) else s
  }

  function Next(s: State, a: Actor): (t: State)
    requires |s.items| > 0
    ensures |t.items| == |s.items| && |t.producers| == |s.producers|
  {
    match a
    case C => ConsumerStep(s)
    case P(p) => if p < |s.producers| then ProducerStep(s, p) else s
  }

  function Run(s: State, schedule: seq<Actor>): (t: State)
    requires |s.items| > 0
    ensures |t.items| == |s.items| && |t.producers| == |s.producers|
    decreases |schedule|
  {
    if schedule == [] then s else Run(Next(s, schedule[0]), schedule[1..])
  }

  // ---- conservation ----

  /** The tests below take a ticket, or none for any ticket. */
  function IsLine(k: Option<nat>): nat -> bool {
    (line: nat) => k == None || k == Some(line)
  }

  function Waits(k: Option<nat>): Item -> bool {
    (item: Item) => item.written && (k == None || k == Some(item.line))
  }

  function Flies(k: Option<nat>): ProducerPc -> bool {
    (pc: ProducerPc) => (pc.Lock? || pc.Write?) && (k == None || k == Some(pc.ticket))
  }

  /** How often ticket k, or any ticket at all, is delivered, overwritten, waiting in the ring, or
      drawn with its store still to come. */
  function Places(s: State, k: Option<nat>): nat {
    Count(s.delivered, IsLine(k)) + Count(s.overwritten, IsLine(k)) + Count(s.items, Waits(k)) + Count(s.producers, Flies(k))
  }

  lemma ProducerPlaces(s: State, p: nat, k: Option<nat>)
    requires |s.items| > 0 && p < |s.producers|
    ensures Places(ProducerStep(s, p), k) ==
      Places(s, k) + if s.producers[p].Draw? && (k == None || k == Some(s.ticket)) then 1 else 0
  {
    hide Count;
    var t := ProducerStep(s, p);
    CountUpdate(s.producers, p, t.producers[p], Flies(k));
    var pc := s.producers[p];
    if !pc.Idle? && !pc.Draw? {
      var j := pc.ticket % |s.items|;
      CountUpdate(s.items, j, t.items[j], Waits(k));
      CountAppend(s.overwritten, s.items[j].line, IsLine(k));
    }
  }

  lemma ConsumerPlaces(s: State, k: Option<nat>)
    requires |s.items| > 0
    ensures Places(ConsumerStep(s), k) == Places(s, k)
  {
    var t := ConsumerStep(s);
    var j := if s.consumer.Release? && s.consumer.item < |s.items| then s.consumer.item else s.readIndex % |s.items|;
    CountUpdate(s.items, j, t.items[j], Waits(k));
    CountAppend(s.delivered, s.items[j].line, IsLine(k));
    hide Count;
  }

  /** Every drawn ticket is in one place, no other ticket in any, and the counts add up. */
  ghost predicate EachInOnePlace(s: State) {
    && (forall k: nat :: Places(s, Some(k)) == if k < s.ticket then 1 else 0)
    && Places(s, None) == s.ticket
  }

  lemma NextConserves(s: State, a: Actor)
    requires |s.items| > 0 && EachInOnePlace(s)
    ensures EachInOnePlace(Next(s, a))
  {
    hide Places;
    match a {
      case C =>
        forall k ensures Places(Next(s, a), k) == Places(s, k) {
          ConsumerPlaces(s, k);
        }
      case P(p) =>
        if p < |s.producers| {
          forall k ensures Places(Next(s, a), k) ==
              Places(s, k) + if s.producers[p].Draw? && (k == None || k == Some(s.ticket)) then 1 else 0 {
            ProducerPlaces(s, p, k);
          }
        }
    }
  }

  lemma {:induction false} RunConserves(s: State, schedule: seq<Actor>)
    requires |s.items| > 0 && EachInOnePlace(s)
    ensures EachInOnePlace(Run(s, schedule))
    decreases |schedule|
  {
    if schedule != [] {
      NextConserves(s, schedule[0]);
      hide EachInOnePlace, Next;
      RunConserves(Next(s, schedule[0]), schedule[1..]);
    }
  }

  lemma InitConserved(size: nat, threads: nat)
    ensures EachInOnePlace(Init(size, threads))
  {
    forall k ensures Places(Init(size, threads), k) == 0 {
      NoneCount(Init(size, threads).items, Waits(k));
      NoneCount(Init(size, threads).producers, Flies(k));
    }
  }

  /** In every run: a ticket's line is in exactly one place, nothing is duplicated or invented, and
      tickets drawn = delivered + overwritten + waiting + in flight. */
  lemma NothingVanishes(size: nat, threads: nat, schedule: seq<Actor>)
    requires size > 0
    ensures var s := Run(Init(size, threads), schedule);
      && EachInOnePlace(s)
      && s.ticket == |s.delivered| + |s.overwritten| + Count(s.items, Waits(None)) + Count(s.producers, Flies(None))
  {
    var s := Run(Init(size, threads), schedule);
    InitConserved(size, threads);
    RunConserves(Init(size, threads), schedule);
    AllCount(s.delivered, IsLine(None));
    AllCount(s.overwritten, IsLine(None));
  }

  // ---- a writer at most m_size tickets ahead loses nothing ----

  predicate Ahead(s: State) {
    s.ticket <= s.readIndex + |s.items|
  }

  ghost predicate KeepsUp(s: State, schedule: seq<Actor>)
    requires |s.items| > 0
    decreases |schedule|
  {
    Ahead(s) && (schedule == [] || KeepsUp(Next(s, schedule[0]), schedule[1..]))
  }

  predicate Holds(pc: ProducerPc) {
    pc.Lock? || pc.Write?
  }

  /** Ticket k is drawn and not delivered. */
  predicate Outstanding(s: State, k: nat) {
    s.readIndex <= k < s.ticket
  }

  ghost predicate ItemsInv(s: State)
    requires |s.items| > 0
  {
    forall j :: 0 <= j < |s.items| && s.items[j].written ==>
      Outstanding(s, s.items[j].line) && s.items[j].line % |s.items| == j
  }

  ghost predicate HoldersInv(s: State)
    requires |s.items| > 0
  {
    && (forall p :: 0 <= p < |s.producers| && Holds(s.producers[p]) ==>
          var k := s.producers[p].ticket; Outstanding(s, k) && !s.items[k % |s.items|].written)
    && (forall p, q :: 0 <= p < q < |s.producers| && Holds(s.producers[p]) && Holds(s.producers[q]) ==>
          s.producers[p].ticket != s.producers[q].ticket)
  }

  ghost predicate FifoInv(s: State) {
    && |s.items| > 0
    && Ahead(s)
    && s.readIndex <= s.ticket
    && s.overwritten == []
    && |s.delivered| == s.readIndex
    && (forall k :: 0 <= k < s.readIndex ==> s.delivered[k] == k)
    && ItemsInv(s)
    && HoldersInv(s)
  }

  /** Two outstanding tickets of one slot are the same ticket. */
  lemma SameSlot(a: int, b: int, n: int)
    requires n > 0 && a % n == b % n && -n < a - b < n
    ensures a == b
  {
    if a > b {
      OtherSlot(b, a, n);
    } else if b > a {
      OtherSlot(a, b, n);
    }
  }

  lemma OtherSlot(a: int, b: int, n: int)
    requires n > 0 && a < b < a + n
    ensures a % n != b % n
  {
    var r := a % n + (b - a);
    if r < n {
      Quotient(b, n, a / n, r);
    } else {
      assert b == n * (a / n + 1) + (r - n);
      Quotient(b, n, a / n + 1, r - n);
    }
  }

  lemma DrawKeepsFifo(s: State, p: nat)
    requires FifoInv(s) && p < |s.producers| && s.producers[p].Draw? && Ahead(ProducerStep(s, p))
    ensures FifoInv(ProducerStep(s, p))
  {
    var j := s.ticket % |s.items|;
    if s.items[j].written {
      SameSlot(s.items[j].line, s.ticket, |s.items|);
    }
  }

  lemma WriteKeepsFifo(s: State, p: nat)
    requires FifoInv(s) && p < |s.producers| && s.producers[p].Write?
    ensures FifoInv(ProducerStep(s, p))
  {
    var k := s.producers[p].ticket;
    forall q | 0 <= q < |s.producers| && q != p && Holds(s.producers[q])
      ensures s.producers[q].ticket % |s.items| != k % |s.items|
    {
      if s.producers[q].ticket % |s.items| == k % |s.items| {
        SameSlot(s.producers[q].ticket, k, |s.items|);
      }
    }
  }

  lemma LookKeepsFifo(s: State)
    requires FifoInv(s) && s.consumer.Look?
    ensures FifoInv(ConsumerStep(s))
  {
    var j := s.readIndex % |s.items|;
    if s.items[j].written {
      SameSlot(s.items[j].line, s.readIndex, |s.items|);
      forall i | 0 <= i < |s.items| && i != j && s.items[i].written ensures s.items[i].line != s.readIndex {
      }
    }
  }

  lemma NextKeepsFifo(s: State, a: Actor)
    requires FifoInv(s) && Ahead(Next(s, a))
    ensures FifoInv(Next(s, a))
  {
    match a
    case C =>
      if s.consumer.Look? {
        LookKeepsFifo(s);
      }
    case P(p) =>
      if p < |s.producers| {
        if s.producers[p].Draw? {
          DrawKeepsFifo(s, p);
        } else if s.producers[p].Write? {
          WriteKeepsFifo(s, p);
        }
      }
  }

  /** The bounded queue: the outstanding tickets in the order they were drawn. */
  function Queue(s: State): (q: seq<nat>)
    requires s.readIndex <= s.ticket
  {
    seq(s.ticket - s.readIndex, i requires 0 <= i => s.readIndex + i)
  }

  /** The push that drew the oldest undelivered ticket has yet to store its line. */
  ghost predicate HeadInFlight(s: State) {
    exists p :: 0 <= p < |s.producers| && Holds(s.producers[p]) && s.producers[p].ticket == s.readIndex
  }

  lemma HeadIsCounted(s: State)
    requires FifoInv(s) && EachInOnePlace(s) && s.readIndex < s.ticket
    ensures var k := Some(s.readIndex); Count(s.items, Waits(k)) + Count(s.producers, Flies(k)) == 1
  {
    var k := Some(s.readIndex);
    assert Places(s, k) == 1;
    NoneCount(s.delivered, IsLine(k));
    NoneCount(s.overwritten, IsLine(k));
  }

  /** The slot the reader looks at holds the oldest undelivered line exactly if its push has stored it. */
  lemma HeadWaitsIff(s: State)
    requires FifoInv(s) && EachInOnePlace(s) && s.readIndex < s.ticket
    ensures var item := s.items[s.readIndex % |s.items|];
      && (item.written <==> !HeadInFlight(s))
      && (item.written ==> item.line == s.readIndex)
  {
    var r, n := s.readIndex, |s.items|;
    var item := s.items[r % n];
    if item.written {
      SameSlot(item.line, r, n);
    }
    if !HeadInFlight(s) {
      HeadIsCounted(s);
      NoneCount(s.producers, Flies(Some(r)));
      if forall x :: x in s.items ==> !Waits(Some(r))(x) {
        NoneCount(s.items, Waits(Some(r)));
        assert false;
      }
      hide EachInOnePlace;
    }
  }

  predicate Draws(s: State, a: Actor) {
    a.P? && a.id < |s.producers| && s.producers[a.id].Draw?
  }

  /** While the writer keeps within m_size tickets of the reader, every step is a step of a FIFO
      queue of that capacity: a draw enqueues; a read delivers the head if its push has stored it;
      and nothing else happens to the queue. */
  lemma RefinesQueue(s: State, a: Actor)
    requires FifoInv(s) && EachInOnePlace(s) && Ahead(Next(s, a))
    ensures FifoInv(Next(s, a)) && EachInOnePlace(Next(s, a)) && |Queue(s)| <= |s.items|
    ensures var t := Next(s, a);
      if Draws(s, a) then
        t.delivered == s.delivered && Queue(t) == Queue(s) + [s.ticket]
      else if a == C && s.consumer.Look? && Queue(s) != [] && !HeadInFlight(s) then
        t.delivered == s.delivered + [Queue(s)[0]] && Queue(t) == Queue(s)[1..]
      else
        t.delivered == s.delivered && Queue(t) == Queue(s)
  {
    hide Places;
    NextKeepsFifo(s, a);
    NextConserves(s, a);
    if s.readIndex < s.ticket { HeadWaitsIff(s); }
    hide EachInOnePlace, HoldersInv, HeadInFlight;
    var t := Next(s, a);
    if a == C && s.consumer.Look? && s.items[s.readIndex % |s.items|].written {
      assert Queue(t) == Queue(s)[1..];
    } else if Draws(s, a) {
      assert Queue(t) == Queue(s) + [s.ticket];
    } else {
      assert t.ticket == s.ticket && t.readIndex == s.readIndex;
    }
  }

  lemma {:induction false} RunKeepsFifo(s: State, schedule: seq<Actor>)
    requires FifoInv(s) && KeepsUp(s, schedule)
    ensures FifoInv(Run(s, schedule))
    decreases |schedule|
  {
    if schedule != [] {
      NextKeepsFifo(s, schedule[0]);
      hide FifoInv, Next;
      RunKeepsFifo(Next(s, schedule[0]), schedule[1..]);
    }
  }

  /** A run that keeps up overwrites nothing and delivers the lines in ticket order. */
  lemma KeepingUpLosesNothing(size: nat, threads: nat, schedule: seq<Actor>)
    requires size > 0 && KeepsUp(Init(size, threads), schedule)
    ensures var s := Run(Init(size, threads), schedule);
      s.overwritten == [] && forall k :: 0 <= k < |s.delivered| ==> s.delivered[k] == k
  {
    RunKeepsFifo(Init(size, threads), schedule);
  }

  lemma {:induction false} ReadCounts(s: State, schedule: seq<Actor>)
    requires |s.items| > 0 && |s.delivered| == s.readIndex
    ensures var t := Run(s, schedule); |t.delivered| == t.readIndex
    decreases |schedule|
  {
    if schedule != [] {
      ReadCounts(Next(s, schedule[0]), schedule[1..]);
    }
  }

  /** Once no push is under way, a writer more than m_size tickets ahead has lost the excess at least. */
  lemma FallingBehindLoses(size: nat, threads: nat, schedule: seq<Actor>)
    requires size > 0
    requires forall p :: 0 <= p < threads ==> Run(Init(size, threads), schedule).producers[p].Idle?
    ensures var s := Run(Init(size, threads), schedule); |s.overwritten| >= s.ticket - s.readIndex - size
  {
    var s := Run(Init(size, threads), schedule);
    NothingVanishes(size, threads, schedule);
    ReadCounts(Init(size, threads), schedule);
    NoneCount(s.producers, Flies(None));
    CountUpdate(s.items, 0, s.items[0], Waits(None));
  }

  // ---- which line a full slot keeps ----

  predicate InItem(pc: ProducerPc, n: nat, j: nat)
    requires n > 0
  {
    (pc.Write? || pc.Unlock?) && pc.ticket % n == j
  }

  predicate ConsumerInItem(s: State, j: nat)
    requires |s.items| > 0
  {
    (s.consumer.Look? && s.readIndex % |s.items| == j) || (s.consumer.Release? && s.consumer.item == j)
  }

  predicate Keeps(s: State, k: nat)
    requires |s.items| > 0
  {
    s.items[k % |s.items|].written && s.items[k % |s.items|].line == k
  }

  /** Thread a has the lock of item j. */
  predicate Has(s: State, a: Actor, j: nat)
    requires |s.items| > 0
  {
    match a
    case P(p) => p < |s.producers| && InItem(s.producers[p], |s.items|, j)
    case C => ConsumerInItem(s, j)
  }

  /** An item is locked by one thread at a time, and until a push releases it, it holds the line that
      push has stored. */
  ghost predicate ItemLocks(s: State)
    requires |s.items| > 0
  {
    && (forall a, j: nat :: Has(s, a, j) ==> j < |s.items| && s.items[j].locked)
    && (forall a, b, j: nat :: Has(s, a, j) && Has(s, b, j) ==> a == b)
    && (forall p :: 0 <= p < |s.producers| && s.producers[p].Unlock? ==> Keeps(s, s.producers[p].ticket))
  }

  /** The item a step of a is about, if it is about one. */
  function ItemOf(s: State, a: Actor): nat
    requires |s.items| > 0
  {
    match a
    case P(p) => if p < |s.producers| && !s.producers[p].Idle? && !s.producers[p].Draw? then s.producers[p].ticket % |s.items| else 0
    case C => if s.consumer.Release? then s.consumer.item else s.readIndex % |s.items|
  }

  /** A step changes the item it is about and the hold of its own thread on that one, no other. */
  lemma StepIsLocal(s: State, a: Actor)
    requires |s.items| > 0
    ensures var t := Next(s, a); var i := ItemOf(s, a);
      && (forall j :: 0 <= j < |s.items| && j != i ==> t.items[j] == s.items[j])
      && (forall b, j: nat :: b != a || j != i ==> (Has(t, b, j) <==> Has(s, b, j)))
      && (Has(t, a, i) && !Has(s, a, i) ==> i < |s.items| && !s.items[i].locked && t.items[i].locked)
      && (Has(t, a, i) && Has(s, a, i) && i < |s.items| ==> t.items[i].locked == s.items[i].locked)
      && (!Has(t, a, i) && !Has(s, a, i) && i < |s.items| ==> t.items[i] == s.items[i])
  {
    match a
    case P(p) =>
    case C =>
  }

  /** Only a thread's own steps bring it to its release, and then its line is stored. */
  lemma StepToUnlock(s: State, a: Actor, q: nat)
    requires |s.items| > 0 && q < |s.producers| && Next(s, a).producers[q].Unlock?
    ensures var t := Next(s, a); var k := t.producers[q].ticket;
      && Has(t, P(q), k % |s.items|)
      && (a == P(q) ==> Keeps(t, k))
      && (a != P(q) ==> s.producers[q] == t.producers[q] && Has(s, P(q), k % |s.items|))
  {
  }

  lemma NextKeepsLocks(s: State, a: Actor)
    requires |s.items| > 0 && ItemLocks(s)
    ensures ItemLocks(Next(s, a))
  {
    StepIsLocal(s, a);
    var t, i := Next(s, a), ItemOf(s, a);
    forall q | 0 <= q < |t.producers| && t.producers[q].Unlock? ensures Keeps(t, t.producers[q].ticket) {
      StepToUnlock(s, a, q);
      hide Next, Has;
      if a != P(q) {
        var j := t.producers[q].ticket % |s.items|;
        assert Has(t, a, i) || Has(s, a, i) || t.items[i] == s.items[i] || i >= |s.items|;
        assert t.items[j] == s.items[j];
      }
    }
    hide Next, Has, Keeps, ItemOf;
  }

  lemma {:induction false} RunKeepsLocks(s: State, schedule: seq<Actor>)
    requires |s.items| > 0 && ItemLocks(s)
    ensures ItemLocks(Run(s, schedule))
    decreases |schedule|
  {
    if schedule != [] {
      NextKeepsLocks(s, schedule[0]);
      hide ItemLocks, Next;
      RunKeepsLocks(Next(s, schedule[0]), schedule[1..]);
    }
  }

  /** In every run, however far ahead the writer is, the slot of a push that has stored its line and
      has yet to release the item holds that line, to be read. */
  lemma NewLineIsKept(size: nat, threads: nat, schedule: seq<Actor>, p: nat)
    requires size > 0 && p < threads && Run(Init(size, threads), schedule).producers[p].Unlock?
    ensures var s := Run(Init(size, threads), schedule); Keeps(s, s.producers[p].ticket)
  {
    assert ItemLocks(Init(size, threads));
    RunKeepsLocks(Init(size, threads), schedule);
    hide Run;
  }

  /** The next step of a is a store over the line `victim`, which waits to be read. */
  ghost predicate StoresOver(s: State, a: Actor, victim: nat)
    requires |s.items| > 0
  {
    && a.P? && a.id < |s.producers| && s.producers[a.id].Write?
    && var item := s.items[s.producers[a.id].ticket % |s.items|]; item.written && item.line == victim
  }

  lemma StepLoses(s: State, a: Actor)
    requires |s.items| > 0
    ensures var t := Next(s, a); var n := |s.overwritten|;
      || t.overwritten == s.overwritten
      || (|t.overwritten| == n + 1 && t.overwritten[..n] == s.overwritten && StoresOver(s, a, t.overwritten[n])
          && Keeps(t, s.producers[a.id].ticket))
  {
  }

  /** Every lost line was lost to a store over it while it waited in its slot, and the line stored
      then waited there in its stead. */
  lemma {:induction false} LostToNewer(s: State, schedule: seq<Actor>, i: nat) returns (n: nat)
    requires |s.items| > 0 && |s.overwritten| <= i < |Run(s, schedule).overwritten|
    ensures n < |schedule|
    ensures var u := Run(s, schedule[..n]); var v := Next(u, schedule[n]);
      && |u.overwritten| == i && StoresOver(u, schedule[n], Run(s, schedule).overwritten[i])
      && Keeps(v, u.producers[schedule[n].id].ticket)
    ensures |s.overwritten| <= |Run(s, schedule).overwritten| && s.overwritten <= Run(s, schedule).overwritten
    decreases |schedule|
  {
    hide Next, StoresOver, Keeps;
    var a, rest := schedule[0], schedule[1..];
    var t := Next(s, a);
    StepLoses(s, a);
    OverwrittenGrows(t, rest);
    if |t.overwritten| > i {
      n := 0;
      assert schedule[..0] == [];
    } else {
      var m := LostToNewer(t, rest, i);
      n := m + 1;
      assert schedule[..n][1..] == rest[..m];
    }
  }

  lemma {:induction false} OverwrittenGrows(s: State, schedule: seq<Actor>)
    requires |s.items| > 0
    ensures s.overwritten <= Run(s, schedule).overwritten
    decreases |schedule|
  {
    if schedule != [] {
      hide Next, StoresOver, Keeps;
      StepLoses(s, schedule[0]);
      OverwrittenGrows(Next(s, schedule[0]), schedule[1..]);
    }
  }

  // ---- the methods ----

  lemma FiveSteps(s: State, a: Actor)
    requires |s.items| > 0
    ensures Run(s, [a, a, a, a, a]) == Next(Next(Next(Next(Next(s, a), a), a), a), a)
    ensures Run(s, [a, a, a]) == Next(Next(Next(s, a), a), a)
  {
    assert [a, a, a, a, a][1..] == [a, a, a, a] && [a, a, a, a][1..] == [a, a, a];
    assert [a, a, a][1..] == [a, a] && [a, a][1..] == [a] && [a][1..] == [];
    hide Next;
    var s1, s2, s3, s4 := Next(s, a), Next(Next(s, a), a), Next(Next(Next(s, a), a), a), Next(Next(Next(Next(s, a), a), a), a);
    assert Run(s4, [a]) == Next(s4, a);
    assert Run(s3, [a, a]) == Next(s4, a);
    assert Run(s2, [a, a, a]) == Next(s4, a);
    assert Run(s2, [a]) == s3;
    assert Run(s1, [a, a]) == s3;
  }

  class Ring {
    const items: array<Item>
    var ticket: nat
    var readIndex: nat
    ghost var producers: seq<ProducerPc>
    ghost var delivered: seq<nat>
    ghost var overwritten: seq<nat>

    ghost function View(): State
      reads this, items
    {
      State(items[..], ticket, readIndex, producers, Poll, delivered, overwritten)
    }

    /** Between calls of the consumer and of thread p. */
    ghost predicate Between(p: nat)
      reads this, items
    {
      items.Length > 0 && p < |producers| && producers[p].Idle?
    }

    constructor (size: nat, ghost threads: nat)
      requires size > 0
      ensures View() == Init(size, threads) && fresh(items)
    {
      items := new Item[size](_ => Item(false, false, 0));
      ticket, readIndex := 0, 0;
      producers := seq(threads, _ => Idle);
      delivered, overwritten := [], [];
      new;
      assert items[..] == Init(size, threads).items;
    }

    /** A push that finds its item unlocked takes exactly thread p's five steps. */
    method Push(ghost p: nat)
      requires Between(p) && !items[ticket % items.Length].locked
      modifies this, items
      ensures Between(p) && View() == Run(old(View()), [P(p), P(p), P(p), P(p), P(p)])
      ensures ticket == old(ticket) + 1 && items[old(ticket) % items.Length] == Item(false, true, old(ticket))
      ensures forall j :: 0 <= j < items.Length && j != old(ticket) % items.Length ==> items[j] == old(items[j])
      ensures var waiting := old(items[ticket % items.Length]);
        overwritten == if waiting.written then old(overwritten) + [waiting.line] else old(overwritten)
    {
      ghost var s := View();
      FiveSteps(s, P(p));
      var k := ticket;
      ticket := ticket + 1;
      var j := k % items.Length;
      items[j] := items[j].(locked := true);
      if items[j].written {
        overwritten := overwritten + [items[j].line];
      }
      items[j] := items[j].(written := true, line := k);
      items[j] := items[j].(locked := false);
      assert items[..] == s.items[j := Item(false, true, k)];
      assert producers == Next(Next(Next(Next(Next(s, P(p)), P(p)), P(p)), P(p)), P(p)).producers;
    }

    /** A try_pop that finds its item unlocked takes exactly the consumer's three steps. */
    method TryPop() returns (line: Option<nat>)
      requires items.Length > 0 && !items[readIndex % items.Length].locked
      modifies this, items
      ensures View() == Run(old(View()), [C, C, C])
      ensures var waiting := old(items[readIndex % items.Length]);
        && line == (if waiting.written then Some(waiting.line) else None)
        && delivered == (if waiting.written then old(delivered) + [waiting.line] else old(delivered))
        && readIndex == (if waiting.written then old(readIndex) + 1 else old(readIndex))
        && items[old(readIndex) % items.Length] == waiting.(written := false)
      ensures forall j :: 0 <= j < items.Length && j != old(readIndex) % items.Length ==> items[j] == old(items[j])
      ensures ticket == old(ticket) && overwritten == old(overwritten)
    {
      ghost var s := View();
      FiveSteps(s, C);
      var j := readIndex % items.Length;
      items[j] := items[j].(locked := true);
      if items[j].written {
        line := Some(items[j].line);
        delivered := delivered + [items[j].line];
        items[j] := items[j].(written := false);
        readIndex := readIndex + 1;
      } else {
        line := None;
      }
      items[j] := items[j].(locked := false);
      assert items[..] == s.items[j := Item(false, false, s.items[j].line)];
    }
  }
}
