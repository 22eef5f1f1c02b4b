/** Every push can be completed: whatever has happened, the threads can go on to a state in which a
    given call of push has returned with its line in a slot. */
module LogQueueProgress {
  import opened Wrappers
  import opened LogQueue
  import opened LogQueueInvariant
  import opened LogQueueSteps
  import opened LogQueueTheorems

  lemma RunOne(s: State, a: Actor)
    requires Inv(s)
    ensures WellFormed(s) && Inv(Next(s, a)) && Run(s, [a]) == Next(s, a)
  {
    hide Inv, WellFormed, Next;
    RunStep(s, [a]);
    assert [a][1..] == [];
    RunConcat(Next(s, a), [], []);
  }

  /** Of a thread at work, a step that is not spent spinning brings it nearer to the end of its push. */
  lemma WorkAdvances(s: State, p: nat)
    requires Inv(s) && CanAdvance(s, p)
    ensures WellFormed(s)
    ensures var t := Next(s, P(p));
      && p < |t.producers| && Due(t.producers[p].pc) < Due(s.producers[p].pc)
      && t.producers[p].begun == s.producers[p].begun
      && (Due(t.producers[p].pc) == 0 ==> t.producers[p].pc.Idle?)
  {
    hide Inv, WellFormed, ProducerStep, Due;
    NextKeeps(s, P(p));
    WorkStep(s, p);
  }

  lemma WorkStep(s: State, p: nat)
    requires WellFormed(s) && CanAdvance(s, p)
    ensures var t := ProducerStep(s, p);
      && |t.producers| == |s.producers| && Due(t.producers[p].pc) < Due(s.producers[p].pc)
      && t.producers[p].begun == s.producers[p].begun
      && (Due(t.producers[p].pc) == 0 ==> t.producers[p].pc.Idle?)
  {
    match s.producers[p].pc
    case Count(_, _) =>
    case Lock(_) =>
    case Store(_, _) =>
    case Publish(_, _) =>
    case _ =>
  }

  /** Whoever holds the lock can release it without a step of a thread that waits for it. */
  lemma {:induction false} LockCanBeFreed(s: State, p: nat) returns (more: seq<Actor>)
    requires Inv(s) && p < |s.producers| && s.producers[p].pc.Lock?
    ensures Run(s, more).lock.Free? && Run(s, more).producers[p] == s.producers[p]
    decreases CriticalSteps(s.consumer), if s.lock.ByProducer? && s.lock.id < |s.producers| then Due(s.producers[s.lock.id].pc) else 0
  {
    hide Inv, CriticalSteps, Next, Due;
    if s.lock.Free? {
      return [];
    }
    var a := if s.lock == ByConsumer then C else P(s.lock.id);
    RunOne(s, a);
    if s.lock == ByConsumer {
      CriticalStep(s);
    } else {
      OwnerReleases(s, p);
    }
    NextKeeps(s, a);
    var t := Next(s, a);
    var rest := LockCanBeFreed(t, p);
    RunConcat(s, [a], rest);
    more := [a] + rest;
  }

  /** A producer that holds the lock while another waits for it has only to release it. */
  lemma OwnerReleases(s: State, p: nat)
    requires Inv(s) && p < |s.producers| && s.producers[p].pc.Lock? && s.lock.ByProducer?
    ensures WellFormed(s) && s.lock.id < |s.producers| && s.lock.id != p && Due(s.producers[s.lock.id].pc) > 0
    ensures var t := Next(s, P(s.lock.id));
      t.lock.Free? && |t.producers| == |s.producers| && t.producers[p] == s.producers[p] && t.consumer == s.consumer
  {
    var sw :| InvWith(s, sw);
    assert LockInv(s) && SwitcherInv(s, sw);
    hide InvWith, Inv;
    assert Switching(s.producers[p].pc);
    assert s.producers[s.lock.id].pc.Unlock?;
  }

  lemma WhenReturned(s: State, p: nat)
    requires Inv(s) && p < |s.producers| && s.producers[p].pc.Idle? && s.producers[p].begun > 0
    ensures Stored(s, Line(p, s.producers[p].begun - 1))
  {
    var sw :| InvWith(s, sw);
    assert LinesInv(s);
  }

  /** A push that holds an index, or switches buffers, can be completed. */
  lemma {:induction false} WorkCanEnd(s: State, p: nat) returns (more: seq<Actor>)
    requires Inv(s) && p < |s.producers| && Due(s.producers[p].pc) > 0
    ensures var t := Run(s, more); t.producers[p].pc.Idle? && t.producers[p].begun == s.producers[p].begun
    decreases Due(s.producers[p].pc)
  {
    hide Inv, Next, Due, CriticalSteps;
    var first := [];
    RunConcat(s, [], []);
    if s.producers[p].pc.Lock? {
      first := LockCanBeFreed(s, p);
    }
    var t := Run(s, first);
    assert t.producers[p] == s.producers[p] && CanAdvance(t, p);
    WorkAdvances(t, p);
    RunOne(t, P(p));
    RunConcat(s, first, [P(p)]);
    more := first + [P(p)];
    var u := Next(t, P(p));
    if Due(u.producers[p].pc) > 0 {
      var rest := WorkCanEnd(u, p);
      RunConcat(s, more, rest);
      more := more + rest;
    }
  }

  /** When the ticket counter is below size, a thread that spins needs two steps of its own, and one
      about to draw needs one, to have an index. */
  lemma SpinnerDraws(s: State, p: nat)
    requires Inv(s) && p < |s.producers| && s.ticket < s.size && (s.producers[p].pc.Spin? || s.producers[p].pc.Draw?)
    ensures var t := Run(s, if s.producers[p].pc.Spin? then [P(p), P(p)] else [P(p)]);
      t.producers[p] == Producer(Load(s.ticket), s.producers[p].begun) && t.ticket == s.ticket + 1
  {
    RunOne(s, P(p));
    if s.producers[p].pc.Spin? {
      var t := Next(s, P(p));
      RunOne(t, P(p));
      RunConcat(s, [P(p)], [P(p)]);
      assert [P(p)] + [P(p)] == [P(p), P(p)];
    }
    hide Inv, Run;
  }

  /** From every reachable state every push under way can be completed, and its line is then in a slot:
      nobody spins for ever. */
  lemma PushCanEnd(s: State, p: nat) returns (more: seq<Actor>)
    requires Inv(s) && p < |s.producers| && !s.producers[p].pc.Idle?
    ensures var t := Run(s, more);
      && t.producers[p].pc.Idle? && t.producers[p].begun == s.producers[p].begun > 0
      && Stored(t, Line(p, s.producers[p].begun - 1))
  {
    hide Inv, Stored, Due;
    BegunIsPositive(s, p);
    more := [];
    RunConcat(s, [], []);
    if Due(s.producers[p].pc) == 0 {
      OnlyWaiting(s.producers[p].pc);
      more := TicketsCanBeReset(s);
      var t := Run(s, more);
      SpinnerDraws(t, p);
      LoadIsDue(t.ticket);
      var draw := if t.producers[p].pc.Spin? then [P(p), P(p)] else [P(p)];
      RunConcat(s, more, draw);
      more := more + draw;
    }
    var rest := WorkCanEnd(Run(s, more), p);
    RunConcat(s, more, rest);
    more := more + rest;
    WhenReturned(Run(s, more), p);
  }

  lemma BegunIsPositive(s: State, p: nat)
    requires Inv(s) && p < |s.producers| && !s.producers[p].pc.Idle?
    ensures s.producers[p].begun > 0
  {
  }

  lemma LoadIsDue(i: nat)
    ensures Due(Load(i)) > 0
  {
  }

  lemma OnlyWaiting(pc: ProducerPc)
    requires Due(pc) == 0 && !pc.Idle?
    ensures pc.Spin? || pc.Draw?
  {
  }
}
