/** Any number of threads using one pool, with the expiry thread beside them.  `acquire` reads the
    limit before it takes the lock, so it is two steps; everything under the lock is one. */
module PoolRuns {
  import opened Wrappers
  import opened Counting
  import opened Pool

  /** `proxies` holds every proxy ever made; a moved-from or destroyed one holds nothing. */
  datatype State = State(
    core: Core,
    proxies: seq<Option<Wrapper>>,
    checked: seq<bool>,       // by thread: has passed the limit check, not yet taken the lock
    now: int,
    scan: Option<int>)        // the expiry thread's `now`, while its loop runs

  datatype Event =
    | Check(thread: nat)
    | Acquire(thread: nat)
    | Move(proxy: nat)
    | Destroy(proxy: nat, valid: bool)
    | Tick(ticks: nat)
    | StartScan
    | Scan

  function Init(conf: Configuration, threads: nat, now: int): State {
    State(Initial(conf, now), [], seq(threads, _ => false), now, None)
  }

  /** An event that is not possible changes nothing. */
  function Next(conf: Configuration, s: State, e: Event): State
    requires conf.ticks > 0
  {
    match e
    case Check(t) =>
      if t < |s.checked| && !s.checked[t] && s.core.total < conf.maxConnections
      then s.(checked := s.checked[t := true]) else s
    case Acquire(t) =>
      if t < |s.checked| && s.checked[t] then
        var (core, w) := Acquired(s.core, s.now);
        s.(core := core, proxies := s.proxies + [Some(w)], checked := s.checked[t := false])
      else s
    case Move(p) =>
      if p < |s.proxies| && s.proxies[p].Some?
      then s.(proxies := s.proxies[p := None] + [s.proxies[p]]) else s
    case Destroy(p, valid) =>
      if p < |s.proxies| && s.proxies[p].Some? && s.core.total > 0 then
        s.(core := Released(conf, s.core, s.proxies[p].value, valid, s.now), proxies := s.proxies[p := None])
      else s
    case Tick(d) => s.(now := s.now + d)
    case StartScan => if s.scan.None? then s.(scan := Some(s.now)) else s
    case Scan =>
      if s.scan.None? then s
      else if s.core.available == [] || !Expired(conf, s.scan.value, s.core.available[0]) then s.(scan := None)
      else s.(core := Expire(s.core))
  }

  function Run(conf: Configuration, s: State, events: seq<Event>): State
    requires conf.ticks > 0
    decreases |events|
  {
    if events == [] then s else Run(conf, Next(conf, s, events[0]), events[1..])
  }

  // ---- accounting ----

  /** The tests below take a connection, or none for any. */
  function Is(con: Option<nat>): Wrapper -> bool {
    (w: Wrapper) => con == None || con == Some(w.con)
  }

  function Holds(con: Option<nat>): Option<Wrapper> -> bool {
    (p: Option<Wrapper>) => p.Some? && (con == None || con == Some(p.value.con))
  }

  function Waiting(): bool -> bool {
    (b: bool) => b
  }

  /** How often a connection, or any at all, is idle, held or destroyed. */
  function Places(s: State, con: Option<nat>): nat {
    Count(s.core.available, Is(con)) + Count(s.proxies, Holds(con)) + Count(s.core.destroyed, Is(con))
  }

  function Max(a: nat, b: nat): nat {
    if a < b then b else a
  }

  ghost predicate Accounts(conf: Configuration, s: State) {
    && s.core.total == Count(s.proxies, Holds(None))
    && Places(s, None) == s.core.created
    && (forall c: nat :: Places(s, Some(c)) == if c < s.core.created then 1 else 0)
    && |s.core.available| <= Max(conf.initialSize, conf.maxPoolSize)
    && (s.core.total == 0 || |s.checked| > 0)
    && (conf.maxConnections == 0 ==> s.core.total == 0 && forall t :: 0 <= t < |s.checked| ==> !s.checked[t])
    && (|s.checked| > 0 ==> s.core.total + Count(s.checked, Waiting()) <= conf.maxConnections + |s.checked| - 1)
  }

  lemma AcquirePlaces(conf: Configuration, s: State, e: Event, con: Option<nat>)
    requires conf.ticks > 0 && e.Acquire?
    ensures var t := Next(conf, s, e);
      Places(t, con) == Places(s, con) +
        if t.core.created > s.core.created && (con == None || con == Some(s.core.created)) then 1 else 0
  {
    var t := Next(conf, s, e);
    if t != s {
      CountAppend(s.proxies, t.proxies[|s.proxies|], Holds(con));
      if s.core.available != [] {
        CountFirst(s.core.available, Is(con));
      }
    }
    hide Count;
  }

  lemma MovePlaces(conf: Configuration, s: State, e: Event, con: Option<nat>)
    requires conf.ticks > 0 && (e.Move? || e.Destroy?)
    ensures Places(Next(conf, s, e), con) == Places(s, con)
  {
    hide Count;
    var t := Next(conf, s, e);
    if t != s {
      var p := e.proxy;
      CountUpdate(s.proxies, p, None, Holds(con));
      CountAppend(s.proxies[p := None], s.proxies[p], Holds(con));
      CountAppend(s.core.available, s.proxies[p].value.(time := s.now), Is(con));
      CountAppend(s.core.destroyed, s.proxies[p].value, Is(con));
    }
  }

  lemma ScanPlaces(conf: Configuration, s: State, con: Option<nat>)
    requires conf.ticks > 0
    ensures Places(Next(conf, s, Scan), con) == Places(s, con)
  {
    if s.core.available != [] {
      CountFirst(s.core.available, Is(con));
      CountAppend(s.core.destroyed, s.core.available[0], Is(con));
    }
    hide Count;
  }

  /** A connection enters the accounts only when a locked acquire finds no idle one. */
  lemma PlacesAfter(conf: Configuration, s: State, e: Event, con: Option<nat>)
    requires conf.ticks > 0
    ensures var t := Next(conf, s, e);
      && t.core.created >= s.core.created
      && Places(t, con) == Places(s, con) +
           if t.core.created > s.core.created && (con == None || con == Some(s.core.created)) then 1 else 0
  {
    match e
    case Acquire(_) => AcquirePlaces(conf, s, e, con);
    case Move(_) => MovePlaces(conf, s, e, con);
    case Destroy(_, _) => MovePlaces(conf, s, e, con);
    case Scan => ScanPlaces(conf, s, con);
    case _ =>
  }

  lemma HeldAfter(conf: Configuration, s: State, e: Event)
    requires conf.ticks > 0 && Accounts(conf, s)
    ensures Next(conf, s, e).core.total == Count(Next(conf, s, e).proxies, Holds(None))
  {
    match e
    case Acquire(t) =>
      if t < |s.checked| && s.checked[t] {
        var (_, w) := Acquired(s.core, s.now);
        CountAppend(s.proxies, Some(w), Holds(None));
      }
    case Move(p) =>
      if p < |s.proxies| {
        CountUpdate(s.proxies, p, None, Holds(None));
        CountAppend(s.proxies[p := None], s.proxies[p], Holds(None));
      }
    case Destroy(p, _) =>
      if p < |s.proxies| {
        CountUpdate(s.proxies, p, None, Holds(None));
      }
    case _ =>
  }

  lemma LimitAfter(conf: Configuration, s: State, e: Event)
    requires conf.ticks > 0 && Accounts(conf, s)
    ensures var t := Next(conf, s, e);
      && |t.checked| == |s.checked| && |t.core.available| <= Max(conf.initialSize, conf.maxPoolSize)
      && (t.core.total == 0 || |t.checked| > 0)
      && (conf.maxConnections == 0 ==> t.core.total == 0 && forall i :: 0 <= i < |t.checked| ==> !t.checked[i])
      && (|t.checked| > 0 ==> t.core.total + Count(t.checked, Waiting()) <= conf.maxConnections + |t.checked| - 1)
  {
    match e
    case Check(t) =>
      if t < |s.checked| {
        CountUpdate(s.checked, t, true, Waiting());
        CountUpdate(s.checked[t := true], t, true, Waiting());
      }
    case Acquire(t) =>
      if t < |s.checked| {
        CountUpdate(s.checked, t, false, Waiting());
      }
    case _ =>
  }

  lemma PlacesKept(conf: Configuration, s: State, e: Event, con: Option<nat>)
    requires conf.ticks > 0
    requires Places(s, con) == match con { case None => s.core.created case Some(c) => if c < s.core.created then 1 else 0 }
    ensures Places(Next(conf, s, e), con) ==
      match con {
        case None => Next(conf, s, e).core.created
        case Some(c) => if c < Next(conf, s, e).core.created then 1 else 0
      }
  {
    PlacesAfter(conf, s, e, con);
    assert Next(conf, s, e).core.created <= s.core.created + 1;
    hide Places, Next;
  }

  lemma AccountsKept(conf: Configuration, s: State, e: Event)
    requires conf.ticks > 0 && Accounts(conf, s)
    ensures Accounts(conf, Next(conf, s, e))
  {
    hide Places, Next;
    var t := Next(conf, s, e);
    HeldAfter(conf, s, e);
    LimitAfter(conf, s, e);
    PlacesKept(conf, s, e, None);
    forall c: nat ensures Places(t, Some(c)) == if c < t.core.created then 1 else 0 {
      PlacesKept(conf, s, e, Some(c));
    }
  }

  lemma {:induction false} AllIdle(conf: Configuration, now: int, n: nat, con: Option<nat>)
    ensures Count(seq(n, i requires 0 <= i => Wrapper(i, now, 0)), Is(con)) ==
      match con { case None => n case Some(c) => if c < n then 1 else 0 }
  {
    var q := seq(n, i requires 0 <= i => Wrapper(i, now, 0));
    if n > 0 {
      AllIdle(conf, now, n - 1, con);
      assert q[..n - 1] == seq(n - 1, i requires 0 <= i => Wrapper(i, now, 0));
    }
  }

  lemma InitAccounts(conf: Configuration, threads: nat, now: int)
    ensures Accounts(conf, Init(conf, threads, now))
  {
    var s := Init(conf, threads, now);
    forall con ensures Places(s, con) == match con { case None => conf.initialSize case Some(c) => if c < conf.initialSize then 1 else 0 } {
      AllIdle(conf, now, conf.initialSize, con);
    }
    NoneCount(s.checked, Waiting());
  }

  lemma {:induction false} RunAccounts(conf: Configuration, s: State, events: seq<Event>)
    requires conf.ticks > 0 && Accounts(conf, s)
    ensures Accounts(conf, Run(conf, s, events))
    ensures |Run(conf, s, events).checked| == |s.checked|
    decreases |events|
  {
    if events != [] {
      AccountsKept(conf, s, events[0]);
      LimitAfter(conf, s, events[0]);
      hide Accounts, Next;
      RunAccounts(conf, Next(conf, s, events[0]), events[1..]);
    }
  }

  lemma LiveIsCounted(s: State, p: nat)
    requires p < |s.proxies| && s.proxies[p].Some?
    ensures Count(s.proxies, Holds(None)) > 0
  {
    CountUpdate(s.proxies, p, None, Holds(None));
  }

  /** In every run: created = idle + held + destroyed; every connection ever created is in exactly
      one of the three; `total` counts the live proxies, so a
      release never takes it below zero; the idle queue never exceeds the larger
      of its two configured sizes; and at most one connection per thread beyond the first is
      held above the limit. */
  lemma PoolAccounting(conf: Configuration, threads: nat, now: int, events: seq<Event>)
    requires conf.ticks > 0
    ensures var s := Run(conf, Init(conf, threads, now), events);
      && s.core.total == Count(s.proxies, Holds(None))
      && (forall p :: 0 <= p < |s.proxies| && s.proxies[p].Some? ==> s.core.total > 0)
      && s.core.created == |s.core.available| + Count(s.proxies, Holds(None)) + |s.core.destroyed|
      && (forall c: nat :: Places(s, Some(c)) == if c < s.core.created then 1 else 0)
      && |s.core.available| <= Max(conf.initialSize, conf.maxPoolSize)
      && s.core.total <= if threads > 0 then conf.maxConnections + threads - 1 else 0
  {
    InitAccounts(conf, threads, now);
    RunAccounts(conf, Init(conf, threads, now), events);
    var s := Run(conf, Init(conf, threads, now), events);
    AllCount(s.core.available, Is(None));
    AllCount(s.core.destroyed, Is(None));
    forall p | 0 <= p < |s.proxies| && s.proxies[p].Some? ensures Count(s.proxies, Holds(None)) > 0 {
      LiveIsCounted(s, p);
    }
    hide Run;
  }

  // ---- how far the limit holds ----

  lemma {:induction false} RunConcat(conf: Configuration, s: State, a: seq<Event>, b: seq<Event>)
    requires conf.ticks > 0
    ensures Run(conf, s, a + b) == Run(conf, Run(conf, s, a), b)
    decreases |a|
  {
    hide Next;
    if a == [] {
      assert a + b == b;
    } else {
      assert (a + b)[1..] == a[1..] + b;
      RunConcat(conf, Next(conf, s, a[0]), a[1..], b);
    }
  }

  function Repeated(k: nat): seq<Event> {
    if k == 0 then [] else Repeated(k - 1) + [Check(0), Acquire(0)]
  }

  lemma {:induction false} AcquireOneByOne(conf: Configuration, s: State, k: nat)
    requires conf.ticks > 0 && s.checked != [] && !s.checked[0] && s.core.total + k <= conf.maxConnections
    ensures var t := Run(conf, s, Repeated(k)); t.core.total == s.core.total + k && t.checked == s.checked
  {
    if k > 0 {
      AcquireOneByOne(conf, s, k - 1);
      var u := Run(conf, s, Repeated(k - 1));
      RunConcat(conf, s, Repeated(k - 1), [Check(0), Acquire(0)]);
      assert [Check(0), Acquire(0)][1..] == [Acquire(0)];
      assert Run(conf, u, [Check(0), Acquire(0)]) == Next(conf, Next(conf, u, Check(0)), Acquire(0)) by {
        var v := Next(conf, u, Check(0));
        assert Run(conf, v, [Acquire(0)]) == Next(conf, v, Acquire(0));
      }
    }
  }

  function Checks(n: nat): seq<Event> {
    seq(n, i requires 0 <= i => Check(i))
  }

  function Acquires(n: nat): seq<Event> {
    seq(n, i requires 0 <= i => Acquire(i))
  }

  lemma {:induction false} AllCheck(conf: Configuration, s: State, n: nat)
    requires conf.ticks > 0 && n <= |s.checked| && s.core.total < conf.maxConnections
    requires forall i :: 0 <= i < |s.checked| ==> !s.checked[i]
    ensures var t := Run(conf, s, Checks(n));
      t.core.total == s.core.total && |t.checked| == |s.checked| && forall i :: 0 <= i < |t.checked| ==> (t.checked[i] <==> i < n)
  {
    if n > 0 {
      AllCheck(conf, s, n - 1);
      assert Checks(n) == Checks(n - 1) + [Check(n - 1)];
      RunConcat(conf, s, Checks(n - 1), [Check(n - 1)]);
      var u := Run(conf, s, Checks(n - 1));
      assert Run(conf, u, [Check(n - 1)]) == Next(conf, u, Check(n - 1));
    }
  }

  lemma {:induction false} AllAcquire(conf: Configuration, s: State, n: nat)
    requires conf.ticks > 0 && n <= |s.checked| && forall i :: 0 <= i < |s.checked| ==> s.checked[i]
    ensures var t := Run(conf, s, Acquires(n));
      t.core.total == s.core.total + n && |t.checked| == |s.checked| && forall i :: 0 <= i < |t.checked| ==> (t.checked[i] <==> i >= n)
  {
    if n > 0 {
      AllAcquire(conf, s, n - 1);
      assert Acquires(n) == Acquires(n - 1) + [Acquire(n - 1)];
      RunConcat(conf, s, Acquires(n - 1), [Acquire(n - 1)]);
      var u := Run(conf, s, Acquires(n - 1));
      assert Run(conf, u, [Acquire(n - 1)]) == Next(conf, u, Acquire(n - 1));
    }
  }

  /** The bound of PoolAccounting is attained: all threads pass the check below the limit, then
      all take the lock. */
  lemma LimitOvershoot(conf: Configuration, threads: nat, now: int) returns (events: seq<Event>)
    requires conf.ticks > 0 && conf.maxConnections > 0 && threads > 0
    ensures Run(conf, Init(conf, threads, now), events).core.total == conf.maxConnections + threads - 1
  {
    var s := Init(conf, threads, now);
    var k := conf.maxConnections - 1;
    events := Repeated(k) + Checks(threads) + Acquires(threads);
    hide Run;
    AcquireOneByOne(conf, s, k);
    RunConcat(conf, s, Repeated(k), Checks(threads));
    AllCheck(conf, Run(conf, s, Repeated(k)), threads);
    RunConcat(conf, s, Repeated(k) + Checks(threads), Acquires(threads));
    AllAcquire(conf, Run(conf, s, Repeated(k) + Checks(threads)), threads);
  }

  /** No run ever holds more than maxConnections exactly when one thread at most uses the pool, or
      the limit is zero. */
  lemma LimitHoldsIff(conf: Configuration, threads: nat, now: int)
    requires conf.ticks > 0
    ensures (forall events :: Run(conf, Init(conf, threads, now), events).core.total <= conf.maxConnections)
      <==> (threads <= 1 || conf.maxConnections == 0)
  {
    if threads <= 1 || conf.maxConnections == 0 {
      forall events ensures Run(conf, Init(conf, threads, now), events).core.total <= conf.maxConnections {
        InitAccounts(conf, threads, now);
        RunAccounts(conf, Init(conf, threads, now), events);
      }
    } else {
      var events := LimitOvershoot(conf, threads, now);
      assert Run(conf, Init(conf, threads, now), events).core.total > conf.maxConnections;
    }
  }

  // ---- reuse ----

  /** In every run, a thread that has passed the check gets the connection that has been idle longest, one
      use older, and the others stay idle in order; only when none is idle is one created, and that
      one was never seen before. */
  lemma AcquireReuses(conf: Configuration, threads: nat, now: int, events: seq<Event>, t: nat)
    requires conf.ticks > 0
    requires var s := Run(conf, Init(conf, threads, now), events); t < |s.checked| && s.checked[t]
    ensures var s := Run(conf, Init(conf, threads, now), events);
      var u := Next(conf, s, Acquire(t)); var p := |s.proxies|;
      && u.core.total == s.core.total + 1 && u.core.destroyed == s.core.destroyed
      && |u.proxies| == p + 1 && u.proxies[..p] == s.proxies && u.proxies[p].Some?
      && var got := u.proxies[p].value;
      if s.core.available == [] then
        && u.core.created == s.core.created + 1 && u.core.available == []
        && got.count == 0 && Places(s, Some(got.con)) == 0
      else
        && u.core.created == s.core.created && got.count > 0
        && [got.(count := got.count - 1)] + u.core.available == s.core.available
        && forall w :: w in s.core.available ==> got.time <= w.time
  {
    hide *;
    IdleStaysSorted(conf, threads, now, events);
    InitAccounts(conf, threads, now);
    RunAccounts(conf, Init(conf, threads, now), events);
    var s := Run(conf, Init(conf, threads, now), events);
    CreatedIsNew(conf, s);
    OldestIsTaken(conf, s, t);
  }

  lemma CreatedIsNew(conf: Configuration, s: State)
    requires Accounts(conf, s)
    ensures Places(s, Some(s.core.created)) == 0
  {
    hide Places;
  }

  lemma OldestIsTaken(conf: Configuration, s: State, t: nat)
    requires conf.ticks > 0 && t < |s.checked| && s.checked[t] && TimesInv(s)
    ensures var u := Next(conf, s, Acquire(t)); var p := |s.proxies|;
      && u.core.total == s.core.total + 1 && u.core.destroyed == s.core.destroyed
      && |u.proxies| == p + 1 && u.proxies[..p] == s.proxies && u.proxies[p].Some?
      && var got := u.proxies[p].value;
      if s.core.available == [] then
        u.core.created == s.core.created + 1 && u.core.available == [] && got.count == 0 && got.con == s.core.created
      else
        && u.core.created == s.core.created && got.count > 0
        && [got.(count := got.count - 1)] + u.core.available == s.core.available
        && forall w :: w in s.core.available ==> got.time <= w.time
  {
    if s.core.available != [] {
      assert s.core.available == [s.core.available[0]] + s.core.available[1..];
    }
  }

  /** A proxy that ends gives its connection back, stamped with the time, if it is valid and there is room,
      behind all other idle ones; otherwise, and only then, the connection is closed. */
  lemma ReleaseKeepsIff(conf: Configuration, threads: nat, now: int, events: seq<Event>, p: nat, valid: bool)
    requires conf.ticks > 0
    requires var s := Run(conf, Init(conf, threads, now), events); p < |s.proxies| && s.proxies[p].Some?
    ensures var s := Run(conf, Init(conf, threads, now), events);
      var u := Next(conf, s, Destroy(p, valid)); var w := s.proxies[p].value;
      && u.core.total + 1 == s.core.total && u.core.created == s.core.created && u.proxies == s.proxies[p := None]
      && (u.core.available == s.core.available + [Wrapper(w.con, s.now, w.count)] && u.core.destroyed == s.core.destroyed
          <==> valid && |s.core.available| < conf.maxPoolSize)
      && (u.core.available == s.core.available && u.core.destroyed == s.core.destroyed + [w]
          <==> !(valid && |s.core.available| < conf.maxPoolSize))
  {
    PoolAccounting(conf, threads, now, events);
    hide Run, Places;
  }

  /** What a release undoes: with none other idle, the next acquire hands the same connection out again. */
  lemma ReleasedIsReused(conf: Configuration, s: State, p: nat, t: nat)
    requires conf.ticks > 0 && p < |s.proxies| && s.proxies[p].Some? && s.core.total > 0
    requires s.core.available == [] && conf.maxPoolSize > 0 && t < |s.checked| && s.checked[t]
    ensures var w := s.proxies[p].value;
      var u := Next(conf, Next(conf, s, Destroy(p, true)), Acquire(t));
      && u.core == s.core
      && u.proxies == s.proxies[p := None] + [Some(Wrapper(w.con, s.now, w.count + 1))]
  {
  }

  /** A moved-from proxy ends without effect, and the one moved to ends as the other would have. */
  lemma MoveHandsOver(conf: Configuration, s: State, p: nat, valid: bool)
    requires conf.ticks > 0 && p < |s.proxies| && s.proxies[p].Some?
    ensures var m := Next(conf, s, Move(p)); var n := |s.proxies|;
      && m.core == s.core && n < |m.proxies| && m.proxies[n] == s.proxies[p]
      && Next(conf, m, Destroy(p, valid)) == m
      && Next(conf, m, Destroy(n, valid)).core == Next(conf, s, Destroy(p, valid)).core
  {
  }

  // ---- expiry among the other threads ----

  /** The idle queue is in order of release times, none of them in the future. */
  ghost predicate TimesInv(s: State) {
    && Sorted(s.core.available)
    && (forall w :: w in s.core.available ==> w.time <= s.now)
    && (s.scan.Some? ==> s.scan.value <= s.now)
  }

  lemma TimesKept(conf: Configuration, s: State, e: Event)
    requires conf.ticks > 0 && TimesInv(s)
    ensures TimesInv(Next(conf, s, e))
  {
  }

  lemma {:induction false} RunTimes(conf: Configuration, s: State, events: seq<Event>)
    requires conf.ticks > 0 && TimesInv(s)
    ensures TimesInv(Run(conf, s, events))
    decreases |events|
  {
    if events != [] {
      TimesKept(conf, s, events[0]);
      hide TimesInv, Next;
      RunTimes(conf, Next(conf, s, events[0]), events[1..]);
    }
  }

  /** In every run the idle queue is in order of release times. */
  lemma IdleStaysSorted(conf: Configuration, threads: nat, now: int, events: seq<Event>)
    requires conf.ticks > 0
    ensures TimesInv(Run(conf, Init(conf, threads, now), events))
  {
    RunTimes(conf, Init(conf, threads, now), events);
  }

  function ExpiredAt(conf: Configuration, now: int): Wrapper -> bool
    requires conf.ticks > 0
  {
    (w: Wrapper) => Expired(conf, now, w)
  }

  /** In every run, whatever the other threads do between the turns of the expiry loop: a turn
      removes the front connection only if it has expired, and the turn that ends the loop leaves
      no expired connection anywhere in the queue. */
  lemma ScanEndsClean(conf: Configuration, threads: nat, now: int, events: seq<Event>)
    requires conf.ticks > 0
    requires Run(conf, Init(conf, threads, now), events).scan.Some?
    ensures var s := Run(conf, Init(conf, threads, now), events); var t := Next(conf, s, Scan);
      if t.scan.None? then
        t.core == s.core && forall w :: w in s.core.available ==> !Expired(conf, s.scan.value, w)
      else
        s.core.available != [] && Expired(conf, s.scan.value, s.core.available[0]) && t.core == Expire(s.core)
  {
    IdleStaysSorted(conf, threads, now, events);
    hide Run;
    var s := Run(conf, Init(conf, threads, now), events);
    if s.core.available != [] && !Expired(conf, s.scan.value, s.core.available[0]) {
      forall i | 0 <= i < |s.core.available| ensures !Expired(conf, s.scan.value, s.core.available[i]) {
        if Expired(conf, s.scan.value, s.core.available[i]) && i > 0 {
          LaterExpiresLater(conf, s.scan.value, s.core.available[0], s.core.available[i]);
        }
      }
    }
  }

  /** For a positive idle time the loop terminates whatever the other threads do: the number of
      connections it has still to remove never grows, and each removing turn takes one away. */
  lemma ScanTerminates(conf: Configuration, s: State, e: Event)
    requires conf.ticks > 0 && conf.maxIdleTime > 0 && TimesInv(s) && s.scan.Some?
    ensures var t := Next(conf, s, e); var f := ExpiredAt(conf, s.scan.value);
      && Count(t.core.available, f) <= Count(s.core.available, f)
      && (e.Scan? && t.scan.Some? ==> Count(t.core.available, f) < Count(s.core.available, f))
  {
    var f := ExpiredAt(conf, s.scan.value);
    match e
    case Acquire(_) =>
      if s.core.available != [] {
        CountFirst(s.core.available, f);
      }
    case Destroy(p, _) =>
      if p < |s.proxies| && s.proxies[p].Some? {
        var w := s.proxies[p].value.(time := s.now);
        SecondsMonotone(conf, s.scan.value - s.now, 0);
        assert !f(w);
        CountAppend(s.core.available, w, f);
      }
    case Scan =>
      if s.core.available != [] {
        CountFirst(s.core.available, f);
      }
    case _ =>
  }
}
