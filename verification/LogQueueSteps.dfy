/** Each step of the log queue keeps the invariant. */
module LogQueueSteps {
  import opened Wrappers
  import opened LogQueue
  import opened LogQueueInvariant

  /** The other producers hold what they held when producer p leaves their slots alone. */
  lemma OthersHold(s: State, sw: Option<nat>, t: State, tw: Option<nat>, p: nat)
    requires WellFormed(s) && WellFormed(t) && HoldersInv(s, sw)
    requires |s.producers| == |t.producers| && s.current == t.current && s.size == t.size
    requires forall q :: 0 <= q < |s.producers| && q != p ==> s.producers[q] == t.producers[q]
    requires Drawn(s, sw) <= Drawn(t, tw)
    requires forall q: nat, i: nat :: HeldBy(s, q, i) && q != p && i < s.size ==>
      s.buffers[s.current].slots[i] == t.buffers[t.current].slots[i] &&
      s.buffers[s.current].ready[i] == t.buffers[t.current].ready[i]
    ensures forall q :: 0 <= q < |t.producers| && q != p ==> HolderInv(t, tw, q)
  {
    forall q | 0 <= q < |t.producers| && q != p ensures HolderInv(t, tw, q) {
      assert HolderInv(s, sw, q);
      if Holding(Pc(s, q)) {
        assert HeldBy(s, q, Pc(s, q).index);
      }
    }
  }

  /** Who switches buffers after producer p's step. */
  ghost function NextSwitcher(s: State, sw: Option<nat>, p: nat): Option<nat>
    requires WellFormed(s) && p < |s.producers|
  {
    match Pc(s, p)
    case Count(b, i) => if s.buffers[b].count + 1 == s.size then Some(p) else sw
    case Reset => None
    case _ => sw
  }

  // ---- tickets, slots, counts, switcher ----

  /** Which producers hold an index, and which spin, after a step of p. */
  lemma HoldersAfter(s: State, p: nat)
    requires WellFormed(s) && p < |s.producers|
    ensures var t := ProducerStep(s, p);
      && Spinners(t) == (if t.producers[p].pc.Spin? then Spinners(s) + {p} else Spinners(s) - {p})
      && Holders(t) == (if Holding(t.producers[p].pc) then Holders(s) + {p} else Holders(s) - {p})
      && (p in Holders(s) <==> Holding(Pc(s, p))) && (p in Spinners(s) <==> Pc(s, p).Spin?)
  {
  }

  lemma NobodyHolds(s: State)
    requires WellFormed(s) && Holders(s) == {}
    ensures forall p: nat, i: nat :: !HeldBy(s, p, i)
  {
    forall p: nat, i: nat ensures !HeldBy(s, p, i) {
      assert p !in Holders(s);
    }
  }

  predicate Quiet(pc: ProducerPc) {
    pc.Idle? || pc.Spin? || pc.Load? || pc.Lock? || pc.Enqueue? || pc.Unlock?
  }

  /** What a producer step changes outside the slots. */
  lemma Frame(s: State, p: nat)
    requires WellFormed(s) && p < |s.producers|
    ensures var t := ProducerStep(s, p); var pc := Pc(s, p);
      && t.size == s.size && t.producers == s.producers[p := t.producers[p]]
      && t.consumer == s.consumer && t.readBuffer == s.readBuffer && t.readIndex == s.readIndex
      && t.popped == s.popped && t.delivered == s.delivered
      && t.queue == (if pc.Enqueue? then s.queue + [pc.buffer] else s.queue)
      && t.ticket == (if pc.Draw? then s.ticket + 1 else if pc.Reset? then 0 else s.ticket)
      && (!pc.Install? ==> |t.buffers| == |s.buffers| && t.current == s.current)
      && (pc.Install? ==> t.buffers == s.buffers + [EmptyBuffer(s.size)] && t.current == |s.buffers|)
      && (!pc.Install? && !pc.Count? ==>
            forall b :: 0 <= b < |s.buffers| ==> t.buffers[b].count == s.buffers[b].count)
  {
    match Pc(s, p)
    case Store(_, _) =>
    case Publish(_, _) =>
    case _ =>
  }

  /** What a producer step leaves of the buffers: their number, their sizes, and every filled slot. */
  lemma BuffersGrow(s: State, p: nat)
    requires WellFormed(s) && p < |s.producers|
    ensures var t := ProducerStep(s, p);
      && t.size == s.size && |s.buffers| <= |t.buffers| && t.current == |t.buffers| - 1
      && (forall b :: 0 <= b < |t.buffers| ==>
            |t.buffers[b].slots| == s.size && |t.buffers[b].ready| == s.size)
      && (forall b, i :: 0 <= b < |s.buffers| && 0 <= i < s.size && s.buffers[b].slots[i].Some? ==>
            t.buffers[b].slots[i].Some?)
  {
    match Pc(s, p)
    case Store(_, _) =>
    case Publish(_, _) =>
    case Count(_, _) =>
    case Install =>
    case _ => assert ProducerStep(s, p).buffers == s.buffers;
  }

  lemma WellFormedKept(s: State, p: nat)
    requires WellFormed(s) && p < |s.producers|
    ensures WellFormed(ProducerStep(s, p))
  {
    var t := ProducerStep(s, p);
    BuffersGrow(s, p);
    Frame(s, p);
    assert PcInRange(t, t.producers[p].pc);
    assert t.producers[p].pc.Idle? || t.producers[p].begun > 0;
    hide ProducerStep;
  }

  lemma QuietHolders(s: State, sw: Option<nat>, p: nat)
    requires WellFormed(s) && HoldersInv(s, sw) && p < |s.producers| && Quiet(Pc(s, p))
    requires WellFormed(ProducerStep(s, p))
    ensures HoldersInv(ProducerStep(s, p), sw)
  {
    var t := ProducerStep(s, p);
    assert HolderInv(s, sw, p);
    assert forall q: nat, i: nat :: HeldBy(s, q, i) <==> HeldBy(t, q, i);
    OthersHold(s, sw, t, sw, p);
  }

  lemma DrawHolders(s: State, sw: Option<nat>, p: nat)
    requires WellFormed(s) && HoldersInv(s, sw) && SlotsInv(s, sw) && p < |s.producers| && Pc(s, p).Draw?
    requires Fresh(s, sw) ==> s.ticket >= s.size
    ensures WellFormed(ProducerStep(s, p)) && HoldersInv(ProducerStep(s, p), sw)
  {
    var t := ProducerStep(s, p);
    OthersHold(s, sw, t, sw, p);
    forall q: nat, i: nat | HeldBy(s, q, i) ensures i < Drawn(s, sw) {
      assert HolderInv(s, sw, q);
    }
    assert forall q: nat, i: nat :: HeldBy(t, q, i) && q != p ==> HeldBy(s, q, i);
  }

  lemma StoreHolders(s: State, sw: Option<nat>, p: nat)
    requires WellFormed(s) && HoldersInv(s, sw) && p < |s.producers| && (Pc(s, p).Store? || Pc(s, p).Publish?)
    ensures WellFormed(ProducerStep(s, p)) && HoldersInv(ProducerStep(s, p), sw)
  {
    var t := ProducerStep(s, p);
    assert HolderInv(s, sw, p) && HeldBy(s, p, Pc(s, p).index);
    assert forall q: nat, i: nat :: HeldBy(s, q, i) <==> HeldBy(t, q, i);
    OthersHold(s, sw, t, sw, p);
  }

  lemma CountHolders(s: State, sw: Option<nat>, p: nat)
    requires WellFormed(s) && HoldersInv(s, sw) && p < |s.producers| && Pc(s, p).Count?
    requires SwitcherInv(s, sw)
    ensures WellFormed(ProducerStep(s, p)) && HoldersInv(ProducerStep(s, p), NextSwitcher(s, sw, p))
  {
    var t := ProducerStep(s, p);
    assert HolderInv(s, sw, p);
    assert !Fresh(s, sw);
    assert forall q: nat, i: nat :: HeldBy(t, q, i) ==> HeldBy(s, q, i);
    OthersHold(s, sw, t, NextSwitcher(s, sw, p), p);
  }

  lemma SwitchHolders(s: State, sw: Option<nat>, p: nat)
    requires WellFormed(s) && p < |s.producers| && (Pc(s, p).Install? || Pc(s, p).Reset?)
    requires forall q: nat, i: nat :: !HeldBy(s, q, i)
    ensures WellFormed(ProducerStep(s, p)) && HoldersInv(ProducerStep(s, p), NextSwitcher(s, sw, p))
  {
    var t := ProducerStep(s, p);
    forall q | 0 <= q < |t.producers| ensures HolderInv(t, NextSwitcher(s, sw, p), q) {
      assert !Holding(Pc(s, q)) || HeldBy(s, q, Pc(s, q).index);
    }
    assert forall q: nat, i: nat :: HeldBy(t, q, i) ==> HeldBy(s, q, i);
  }

  /** Nobody holds an index while the switcher installs a buffer or resets the tickets. */
  lemma NoneHeld(s: State, sw: Option<nat>, p: nat)
    requires WellFormed(s) && SwitcherInv(s, sw) && CountInv(s, sw)
    requires p < |s.producers| && (Pc(s, p).Install? || Pc(s, p).Reset?)
    ensures Holders(s) == {}
    ensures forall q: nat, i: nat :: !HeldBy(s, q, i)
    ensures s.ticket >= s.size
  {
    assert |Holders(s)| == 0;
    NobodyHolds(s);
  }

  lemma QuietSlots(s: State, sw: Option<nat>, p: nat)
    requires WellFormed(s) && SlotsInv(s, sw) && p < |s.producers| && Quiet(Pc(s, p))
    requires WellFormed(ProducerStep(s, p))
    ensures SlotsInv(ProducerStep(s, p), sw)
  {
    var t := ProducerStep(s, p);
    assert forall q: nat, i: nat :: HeldBy(s, q, i) ==> HeldBy(t, q, i);
    assert Drawn(s, sw) == Drawn(t, sw) && t.current == s.current && t.size == s.size && t.buffers == s.buffers;
    hide ProducerStep, HolderInv, Drawn, WellFormed;
  }

  lemma CountSlots(s: State, sw: Option<nat>, p: nat)
    requires WellFormed(s) && SlotsInv(s, sw) && p < |s.producers| && Pc(s, p).Count?
    requires HolderInv(s, sw, p) && SwitcherInv(s, sw)
    requires WellFormed(ProducerStep(s, p))
    ensures SlotsInv(ProducerStep(s, p), NextSwitcher(s, sw, p))
  {
    var t := ProducerStep(s, p);
    assert forall q: nat, i: nat :: HeldBy(s, q, i) && q != p ==> HeldBy(t, q, i);
    assert Drawn(s, sw) == Drawn(t, NextSwitcher(s, sw, p));
    hide Drawn, SwitcherInv;
  }

  lemma DrawSlots(s: State, sw: Option<nat>, p: nat)
    requires WellFormed(s) && SlotsInv(s, sw) && p < |s.producers| && Pc(s, p).Draw?
    requires Fresh(s, sw) ==> s.ticket >= s.size
    requires WellFormed(ProducerStep(s, p))
    ensures SlotsInv(ProducerStep(s, p), sw)
  {
    var t := ProducerStep(s, p);
    assert forall q: nat, i: nat :: HeldBy(s, q, i) ==> HeldBy(t, q, i);
    if s.ticket < s.size {
      assert HeldBy(t, p, s.ticket);
    }
  }

  lemma StoreSlots(s: State, sw: Option<nat>, p: nat)
    requires WellFormed(s) && p < |s.producers| && HolderInv(s, sw, p) && SlotsInv(s, sw)
    requires Pc(s, p).Store? || Pc(s, p).Publish?
    requires WellFormed(ProducerStep(s, p))
    ensures SlotsInv(ProducerStep(s, p), sw)
  {
    var t := ProducerStep(s, p);
    assert forall q: nat, i: nat :: HeldBy(s, q, i) <==> HeldBy(t, q, i);
  }

  lemma SwitchSlots(s: State, sw: Option<nat>, p: nat)
    requires WellFormed(s) && p < |s.producers| && SlotsInv(s, sw) && (Pc(s, p).Install? || Pc(s, p).Reset?)
    requires forall q: nat, i: nat :: !HeldBy(s, q, i)
    requires SwitcherInv(s, sw) && s.ticket >= s.size
    requires WellFormed(ProducerStep(s, p))
    ensures SlotsInv(ProducerStep(s, p), NextSwitcher(s, sw, p))
  {
  }

  lemma CountFrame(s: State, sw: Option<nat>, t: State, tw: Option<nat>)
    requires WellFormed(s) && WellFormed(t) && CountInv(s, sw)
    requires t.size == s.size && t.current == s.current && |t.producers| == |s.producers| && sw == tw
    requires forall b :: 0 <= b <= s.current ==> t.buffers[b].count == s.buffers[b].count
    requires Drawn(t, tw) - |Holders(t)| == Drawn(s, sw) - |Holders(s)|
    requires sw.Some? && sw.value < |s.producers| && Pc(t, sw.value).Install? ==> Pc(s, sw.value).Install?
    ensures CountInv(t, tw)
  {
  }

  lemma CountStep(s: State, sw: Option<nat>, p: nat)
    requires WellFormed(s) && CountInv(s, sw) && SwitcherInv(s, sw) && p < |s.producers| && HolderInv(s, sw, p)
    requires Pc(s, p).Count?
    requires WellFormed(ProducerStep(s, p))
    ensures CountInv(ProducerStep(s, p), NextSwitcher(s, sw, p))
  {
    hide Holders, Spinners;
    HoldersAfter(s, p);
    assert Drawn(ProducerStep(s, p), NextSwitcher(s, sw, p)) == Drawn(s, sw);
  }

  lemma CountSwitch(s: State, sw: Option<nat>, p: nat)
    requires WellFormed(s) && CountInv(s, sw) && SwitcherInv(s, sw) && p < |s.producers|
    requires Pc(s, p).Install? || Pc(s, p).Reset?
    requires WellFormed(ProducerStep(s, p))
    ensures CountInv(ProducerStep(s, p), NextSwitcher(s, sw, p))
  {
    hide Holders, Spinners;
    HoldersAfter(s, p);
    assert Drawn(ProducerStep(s, p), NextSwitcher(s, sw, p)) == 0;
  }

  /** A step that neither counts a store nor switches changes the holders only by a draw below size. */
  lemma OtherSteps(s: State, sw: Option<nat>, p: nat)
    requires WellFormed(s) && p < |s.producers| && SwitcherInv(s, sw)
    requires !Pc(s, p).Count? && !Pc(s, p).Install? && !Pc(s, p).Reset?
    ensures var t := ProducerStep(s, p);
      && |t.producers| == |s.producers| && t.size == s.size && t.current == s.current == |s.buffers| - 1
      && (Holding(Pc(t, p)) <==> Holding(Pc(s, p)) || (Pc(s, p).Draw? && s.ticket < s.size))
      && t.ticket == (if Pc(s, p).Draw? then s.ticket + 1 else s.ticket)
      && Fresh(t, sw) == Fresh(s, sw) && !Pc(t, p).Install?
      && (sw == Some(p) ==> Switching(Pc(s, p)))
      && (forall q :: 0 <= q < |s.producers| && q != p ==> Pc(t, q) == Pc(s, q))
  {
  }

  lemma CountOther(s: State, sw: Option<nat>, p: nat)
    requires WellFormed(s) && CountInv(s, sw) && p < |s.producers|
    requires SwitcherInv(s, sw)
    requires !Pc(s, p).Count? && !Pc(s, p).Install? && !Pc(s, p).Reset?
    requires Pc(s, p).Draw? && Fresh(s, sw) ==> s.ticket >= s.size
    requires WellFormed(ProducerStep(s, p))
    ensures CountInv(ProducerStep(s, p), sw)
  {
    hide WellFormed, CountInv, ProducerStep, SwitcherInv, Holders, Spinners, Fresh, Holding, Pc;
    var t := ProducerStep(s, p);
    Frame(s, p);
    HoldersAfter(s, p);
    OtherSteps(s, sw, p);
    assert |Holders(t)| == |Holders(s)| + if Pc(s, p).Draw? && s.ticket < s.size then 1 else 0 by {
      HoldersAfter(s, p);
      PcIs(t, p);
      DrawHoldsNothing(Pc(s, p));
    }
    CountFrame(s, sw, t, sw);
  }

  lemma PcIs(s: State, p: nat)
    requires p < |s.producers|
    ensures Pc(s, p) == s.producers[p].pc
  {
  }

  lemma DrawHoldsNothing(pc: ProducerPc)
    ensures pc.Draw? ==> !Holding(pc)
  {
  }

  lemma CountKept(s: State, sw: Option<nat>, p: nat)
    requires WellFormed(s) && CountInv(s, sw) && SwitcherInv(s, sw) && p < |s.producers| && HolderInv(s, sw, p)
    requires WellFormed(ProducerStep(s, p))
    ensures CountInv(ProducerStep(s, p), NextSwitcher(s, sw, p))
  {
    if Pc(s, p).Count? {
      CountStep(s, sw, p);
    } else if Pc(s, p).Install? || Pc(s, p).Reset? {
      CountSwitch(s, sw, p);
    } else {
      CountOther(s, sw, p);
    }
  }

  lemma SpinnersKept(s: State, sw: Option<nat>, p: nat)
    requires WellFormed(s) && SwitcherInv(s, sw) && p < |s.producers| && s.ticket <= s.size + |Spinners(s)|
    requires WellFormed(ProducerStep(s, p))
    ensures var t := ProducerStep(s, p); t.ticket <= t.size + |Spinners(t)|
  {
    hide Holders, Spinners, SwitcherInv, Holding, WellFormed, PcInRange;
    HoldersAfter(s, p);
    Frame(s, p);
    var t := ProducerStep(s, p);
    assert t.size == s.size && t.ticket == if Pc(s, p).Draw? then s.ticket + 1 else if Pc(s, p).Reset? then 0 else s.ticket;
    assert Pc(s, p).Draw? ==> (Pc(t, p).Spin? <==> s.ticket >= s.size);
    assert Pc(s, p).Spin? ==> Pc(t, p).Spin? || s.ticket < s.size;
    hide ProducerStep;
  }

  lemma SwitcherKept(s: State, sw: Option<nat>, p: nat)
    requires WellFormed(s) && CountInv(s, sw) && SwitcherInv(s, sw) && p < |s.producers| && HolderInv(s, sw, p)
    requires WellFormed(ProducerStep(s, p))
    ensures SwitcherInv(ProducerStep(s, p), NextSwitcher(s, sw, p))
  {
    var t := ProducerStep(s, p);
    Frame(s, p);
    HoldersAfter(s, p);
    hide WellFormed;
    if !Pc(s, p).Count? && !Pc(s, p).Install? && !Pc(s, p).Reset? {
      assert Switching(Pc(t, p)) ==> Switching(Pc(s, p));
      assert Pc(t, p).Lock? || Pc(t, p).Enqueue? ==> Pc(t, p).buffer == s.current;
      hide ProducerStep, CountInv, HolderInv, Holders, Spinners;
    }
  }

  lemma TicketKept(s: State, sw: Option<nat>, p: nat)
    requires WellFormed(s) && TicketInv(s, sw) && p < |s.producers|
    ensures WellFormed(ProducerStep(s, p)) && TicketInv(ProducerStep(s, p), NextSwitcher(s, sw, p))
  {
    var pc := Pc(s, p);
    assert HolderInv(s, sw, p);
    WellFormedKept(s, p);
    hide SlotsInv, CountInv, WellFormed, HoldersInv;
    if Quiet(pc) {
      QuietHolders(s, sw, p);
      QuietSlots(s, sw, p);
    } else if pc.Draw? {
      DrawHolders(s, sw, p);
      DrawSlots(s, sw, p);
    } else if pc.Store? || pc.Publish? {
      StoreHolders(s, sw, p);
      StoreSlots(s, sw, p);
    } else if pc.Count? {
      CountHolders(s, sw, p);
      CountSlots(s, sw, p);
    } else {
      NoneHeld(s, sw, p);
      SwitchHolders(s, sw, p);
      SwitchSlots(s, sw, p);
    }
    CountKept(s, sw, p);
    SpinnersKept(s, sw, p);
    SwitcherKept(s, sw, p);
    hide SwitcherInv;
  }

  // ---- lock, queue, consumer ----

  lemma LockKept(s: State, p: nat)
    requires WellFormed(s) && LockInv(s) && p < |s.producers|
    ensures LockInv(ProducerStep(s, p))
  {
    Frame(s, p);
    hide WellFormed;
    match Pc(s, p)
    case Lock(_) =>
    case Enqueue(_) =>
    case Reset =>
    case Unlock =>
    case _ =>
  }

  lemma QueueKept(s: State, sw: Option<nat>, p: nat)
    requires WellFormed(s) && SwitcherInv(s, sw) && QueueInv(s, sw) && p < |s.producers| && HolderInv(s, sw, p)
    requires WellFormed(ProducerStep(s, p))
    ensures QueueInv(ProducerStep(s, p), NextSwitcher(s, sw, p))
  {
    Frame(s, p);
    hide WellFormed;
    match Pc(s, p)
    case Lock(_) =>
    case Enqueue(_) =>
    case Count(_, _) =>
    case Install =>
    case Reset =>
    case _ =>
  }

  /** A producer step never touches a slot the consumer may already have read. */
  lemma ReadySlotsKept(s: State, sw: Option<nat>, p: nat)
    requires WellFormed(s) && p < |s.producers| && HolderInv(s, sw, p)
    ensures var t := ProducerStep(s, p);
      |s.buffers| <= |t.buffers| &&
      forall b, i :: 0 <= b < |s.buffers| && 0 <= i < s.size && s.buffers[b].ready[i] ==>
        |t.buffers[b].ready| == |t.buffers[b].slots| == s.size &&
        t.buffers[b].ready[i] && t.buffers[b].slots[i] == s.buffers[b].slots[i]
  {
    match Pc(s, p)
    case Store(_, _) =>
    case Publish(_, _) =>
    case Count(_, _) =>
    case Install =>
    case _ => assert ProducerStep(s, p).buffers == s.buffers;
  }

  lemma ConsumerUndisturbed(s: State, sw: Option<nat>, p: nat)
    requires WellFormed(s) && QueueInv(s, sw) && ConsumerInv(s) && p < |s.producers| && HolderInv(s, sw, p)
    requires WellFormed(ProducerStep(s, p))
    ensures ConsumerInv(ProducerStep(s, p))
  {
    var t := ProducerStep(s, p);
    Frame(s, p);
    ReadySlotsKept(s, sw, p);
    hide ProducerStep, HolderInv, Pc;
    assert ReadBuffer(s) <= |s.buffers| && (s.readIndex > 0 ==> ReadBuffer(s) < |s.buffers|);
    BeforeFrame(s.buffers, t.buffers, ReadBuffer(s), s.readIndex);
    if |t.buffers| > |s.buffers| {
      assert ReadBuffer(s) <= |s.buffers|;
    }
  }

  lemma ReaderKept(s: State, sw: Option<nat>, p: nat)
    requires WellFormed(s) && SwitcherInv(s, sw) && ReaderInv(s, sw) && p < |s.producers| && HolderInv(s, sw, p)
    requires WellFormed(ProducerStep(s, p))
    ensures ReaderInv(ProducerStep(s, p), NextSwitcher(s, sw, p))
  {
    LockKept(s, p);
    QueueKept(s, sw, p);
    ConsumerUndisturbed(s, sw, p);
    hide *;
  }

  // ---- lines and their order ----

  /** The only slot a producer step fills is the one its Store step is about. */
  lemma SitsAfter(s: State, p: nat)
    requires WellFormed(s) && p < |s.producers|
    requires match Pc(s, p) { case Store(b, i) => s.buffers[b].slots[i].None? case _ => true }
    ensures forall line, b, i :: Sits(ProducerStep(s, p), line, b, i) <==>
      Sits(s, line, b, i) || (Pc(s, p) == Store(b, i) && line == Line(p, s.producers[p].begun - 1))
  {
    match Pc(s, p)
    case Store(_, _) =>
    case Publish(_, _) =>
    case Count(_, _) =>
    case Install =>
    case _ => assert ProducerStep(s, p).buffers == s.buffers;
  }

  lemma LinesKept(s: State, sw: Option<nat>, p: nat)
    requires WellFormed(s) && LinesInv(s) && p < |s.producers| && HolderInv(s, sw, p)
    requires WellFormed(ProducerStep(s, p))
    ensures LinesInv(ProducerStep(s, p))
  {
    var t := ProducerStep(s, p);
    SitsAfter(s, p);
    hide HolderInv, ProducerStep;
    Frame(s, p);
    WrittenAfter(s, p);
    hide Written, Sits;
    assert forall line :: Stored(s, line) ==> Stored(t, line);
    if Pc(s, p).Store? {
      assert Sits(t, Line(p, s.producers[p].begun - 1), Pc(s, p).buffer, Pc(s, p).index);
    }
  }

  lemma WrittenAfter(s: State, p: nat)
    requires WellFormed(s) && p < |s.producers|
    ensures var t := ProducerStep(s, p);
      && |t.producers| == |s.producers|
      && (forall q: nat :: q < |s.producers| ==>
            Written(t, q) == Written(s, q) + if q == p && Pc(s, p).Store? then 1 else 0)
      && (Pc(s, p).Store? ==> Written(s, p) == s.producers[p].begun - 1)
  {
    match Pc(s, p)
    case Count(_, _) =>
    case _ =>
  }

  lemma OrderFrame(s: State, t: State)
    requires WellFormed(s) && WellFormed(t) && OrderInv(s) && |s.producers| == |t.producers|
    requires forall line, b, i :: Sits(s, line, b, i) <==> Sits(t, line, b, i)
    requires forall q: nat :: q < |s.producers| && AboutToStore(Pc(t, q)) ==>
      AboutToStore(Pc(s, q)) && Pc(s, q).index == Pc(t, q).index && s.current == t.current
    ensures OrderInv(t)
  {
  }

  lemma OrderDraw(s: State, sw: Option<nat>, p: nat)
    requires WellFormed(s) && OrderInv(s) && SlotsInv(s, sw) && p < |s.producers| && Pc(s, p).Draw?
    requires Fresh(s, sw) ==> s.ticket >= s.size
    requires WellFormed(ProducerStep(s, p))
    ensures OrderInv(ProducerStep(s, p))
  {
    var t := ProducerStep(s, p);
    assert s.ticket < s.size ==> forall line, b, i :: Sits(s, line, b, i) ==> Earlier(b, i, s.current, s.ticket);
    assert forall line, b, i :: Sits(s, line, b, i) <==> Sits(t, line, b, i);
    assert t.current == s.current && t.producers[p].pc == (if s.ticket < s.size then Load(s.ticket) else Spin);
    assert forall q :: 0 <= q < |s.producers| && q != p ==> t.producers[q] == s.producers[q];
    hide ProducerStep, SlotsInv, Sits;
  }

  lemma OrderStore(s: State, sw: Option<nat>, p: nat)
    requires WellFormed(s) && LinesInv(s) && OrderInv(s) && p < |s.producers| && Pc(s, p).Store? && HolderInv(s, sw, p)
    requires WellFormed(ProducerStep(s, p))
    ensures OrderInv(ProducerStep(s, p))
  {
    var t := ProducerStep(s, p);
    var line := Line(p, s.producers[p].begun - 1);
    SitsAfter(s, p);
    assert t.current == s.current && !AboutToStore(Pc(t, p));
    assert forall q :: 0 <= q < |s.producers| && q != p ==> t.producers[q] == s.producers[q];
    assert forall x, b, i :: Sits(s, x, b, i) && x.producer == p ==>
      x.number < line.number && Earlier(b, i, s.current, Pc(s, p).index);
    hide ProducerStep, SlotsInv, Sits, LinesInv, HolderInv, WellFormed;
  }

  lemma OrderKept(s: State, sw: Option<nat>, p: nat)
    requires WellFormed(s) && LinesInv(s) && OrderInv(s) && SlotsInv(s, sw) && p < |s.producers| && HolderInv(s, sw, p)
    requires Fresh(s, sw) ==> s.ticket >= s.size
    requires Pc(s, p).Install? ==> forall q: nat, i: nat :: !HeldBy(s, q, i)
    requires WellFormed(ProducerStep(s, p))
    ensures OrderInv(ProducerStep(s, p))
  {
    var t := ProducerStep(s, p);
    if Pc(s, p).Draw? {
      OrderDraw(s, sw, p);
    } else if Pc(s, p).Store? {
      OrderStore(s, sw, p);
    } else {
      SitsAfter(s, p);
      forall q: nat | q < |s.producers| && AboutToStore(Pc(t, q))
        ensures AboutToStore(Pc(s, q)) && Pc(s, q).index == Pc(t, q).index && s.current == t.current
      {
        assert Pc(s, p).Install? ==> !HeldBy(s, q, Pc(t, q).index);
      }
      hide ProducerStep, SlotsInv, Sits, LinesInv, HolderInv;
      OrderFrame(s, t);
    }
  }

  /** Every producer step keeps the invariant. */
  lemma ProducerKeeps(s: State, sw: Option<nat>, p: nat)
    requires InvWith(s, sw) && p < |s.producers|
    ensures InvWith(ProducerStep(s, p), NextSwitcher(s, sw, p))
  {
    assert HolderInv(s, sw, p);
    hide ProducerStep, WellFormed, LinesInv, OrderInv, ReaderInv, HolderInv, HoldersInv, SlotsInv;
    TicketKept(s, sw, p);
    ReaderKept(s, sw, p);
    LinesKept(s, sw, p);
    if Pc(s, p).Install? {
      NoneHeld(s, sw, p);
    }
    OrderKept(s, sw, p);
    hide TicketInv;
  }

  // ---- consumer steps ----

  /** What the producers' part of the invariant depends on. */
  ghost predicate SameProducerSide(s: State, t: State) {
    && t.size == s.size && t.buffers == s.buffers && t.current == s.current
    && t.ticket == s.ticket && t.producers == s.producers
  }

  lemma TicketSame(s: State, sw: Option<nat>, t: State)
    requires WellFormed(s) && WellFormed(t) && SameProducerSide(s, t) && TicketInv(s, sw)
    ensures TicketInv(t, sw)
  {
    assert Holders(t) == Holders(s) && Spinners(t) == Spinners(s);
    assert Drawn(t, sw) == Drawn(s, sw);
    assert forall q: nat, i: nat :: HeldBy(s, q, i) <==> HeldBy(t, q, i);
    forall q | 0 <= q < |t.producers| ensures HolderInv(t, sw, q) {
      assert HolderInv(s, sw, q);
    }
    hide Holders, Spinners, Drawn, HeldBy, HolderInv;
  }

  lemma LinesSame(s: State, t: State)
    requires WellFormed(s) && WellFormed(t) && SameProducerSide(s, t) && LinesInv(s) && OrderInv(s)
    ensures LinesInv(t) && OrderInv(t)
  {
    assert forall line, b, i :: Sits(s, line, b, i) <==> Sits(t, line, b, i);
    assert forall line :: Stored(s, line) ==> Stored(t, line);
    hide Sits, Stored;
    OrderFrame(s, t);
  }

  lemma ReadyIsFilled(s: State, sw: Option<nat>, b: nat, i: nat)
    requires WellFormed(s) && SlotsInv(s, sw) && b < |s.buffers| && i < s.size && s.buffers[b].ready[i]
    ensures s.buffers[b].slots[i].Some?
  {
  }

  lemma ConsumerWellFormed(s: State, sw: Option<nat>)
    requires WellFormed(s) && SlotsInv(s, sw) && ReaderInv(s, sw)
    ensures WellFormed(ConsumerStep(s)) && SameProducerSide(s, ConsumerStep(s))
  {
    if s.consumer.Poll? && s.readBuffer.Some? && s.buffers[s.readBuffer.value].ready[s.readIndex] {
      ReadyIsFilled(s, sw, s.readBuffer.value, s.readIndex);
    }
  }

  lemma ConsumerQueueKept(s: State, sw: Option<nat>)
    requires WellFormed(s) && LockInv(s) && QueueInv(s, sw) && ConsumerInv(s)
    requires WellFormed(ConsumerStep(s))
    ensures LockInv(ConsumerStep(s)) && QueueInv(ConsumerStep(s), sw)
  {
    hide Before;
  }

  lemma TakeKept(s: State, sw: Option<nat>)
    requires WellFormed(s) && QueueInv(s, sw) && ConsumerInv(s) && s.consumer.Take?
    requires WellFormed(ConsumerStep(s))
    ensures ConsumerInv(ConsumerStep(s))
  {
    var t := ConsumerStep(s);
    var b, i := s.popped, s.readIndex;
    var line := s.buffers[b].slots[i].value;
    assert Before(s.buffers, b, i + 1) == Before(s.buffers, b, i) + [Some(line)];
    assert Somes(s.delivered + [line]) == Somes(s.delivered) + [Some(line)];
    if i + 1 == s.size {
      assert Before(s.buffers, b + 1, 0) == Before(s.buffers, b, s.size);
    }
    assert Somes(t.delivered) == Before(t.buffers, ReadBuffer(t), t.readIndex);
    hide Somes, Before;
  }

  lemma ConsumerKept(s: State, sw: Option<nat>)
    requires WellFormed(s) && LockInv(s) && QueueInv(s, sw) && ConsumerInv(s)
    requires WellFormed(ConsumerStep(s))
    ensures ConsumerInv(ConsumerStep(s))
  {
    hide Before, Somes;
    if s.consumer.Take? {
      TakeKept(s, sw);
    }
  }

  /** Every consumer step keeps the invariant. */
  lemma ConsumerKeeps(s: State, sw: Option<nat>)
    requires InvWith(s, sw)
    ensures InvWith(ConsumerStep(s), sw)
  {
    var t := ConsumerStep(s);
    ConsumerWellFormed(s, sw);
    assert LockInv(s) && QueueInv(s, sw) && ConsumerInv(s);
    hide ConsumerStep, WellFormed, LockInv, QueueInv, ConsumerInv;
    TicketSame(s, sw, t);
    LinesSame(s, t);
    ConsumerQueueKept(s, sw);
    ConsumerKept(s, sw);
    hide LinesInv, OrderInv, TicketInv;
  }
}
