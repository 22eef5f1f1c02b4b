/** The connection pool (src/api/pool/pool.hpp): what its methods do under the lock, and the scan for
    expired connections. */
module Pool {
  import opened Arithmetic

  /** `ticks` is the clock's ticks a second; idle times are compared in whole seconds. */
  datatype Configuration = Configuration(
    initialSize: nat, maxPoolSize: nat, maxConnections: nat, maxIdleTime: int, ticks: nat)

  /** A connection is named by the number of connections created before it. */
  datatype Wrapper = Wrapper(con: nat, time: int, count: nat)

  /** What the mutex guards; `destroyed` records the connections that were closed. */
  datatype Core = Core(total: nat, created: nat, available: seq<Wrapper>, destroyed: seq<Wrapper>)

  function Initial(conf: Configuration, now: int): Core {
    Core(0, conf.initialSize, seq(conf.initialSize, i requires 0 <= i => Wrapper(i, now, 0)), [])
  }

  /** The body of `acquire` under the lock. */
  function Acquired(c: Core, now: int): (Core, Wrapper) {
    if c.available == [] then
      (c.(total := c.total + 1, created := c.created + 1), Wrapper(c.created, now, 0))
    else
      var w := c.available[0];
      (c.(total := c.total + 1, available := c.available[1..]), w.(count := w.count + 1))
  }

  /** The body of `release`; `valid` is the connection's own answer. */
  function Released(conf: Configuration, c: Core, w: Wrapper, valid: bool, now: int): Core
    requires c.total > 0
  {
    var d := c.(total := c.total - 1);
    if valid && |c.available| < conf.maxPoolSize then d.(available := c.available + [w.(time := now)])
    else d.(destroyed := c.destroyed + [w])
  }

  function Seconds(conf: Configuration, duration: int): int
    requires conf.ticks > 0
  {
    Truncated(duration, conf.ticks)
  }

  predicate Expired(conf: Configuration, now: int, w: Wrapper)
    requires conf.ticks > 0
  {
    Seconds(conf, now - w.time) >= conf.maxIdleTime
  }

  /** One turn of the loop in `removeExpired`, when it removes. */
  function Expire(c: Core): Core
    requires c.available != []
  {
    c.(available := c.available[1..], destroyed := c.destroyed + [c.available[0]])
  }

  /** Idle times count in whole seconds, rounded towards zero: for a positive limit a connection has
      expired once it has been idle for that long. */
  lemma ExpiredIff(conf: Configuration, now: int, w: Wrapper)
    requires conf.ticks > 0
    ensures Expired(conf, now, w) <==>
      if conf.maxIdleTime > 0 then now - w.time >= conf.maxIdleTime * conf.ticks
      else now - w.time > (conf.maxIdleTime - 1) * conf.ticks
  {
    var d, m, n := now - w.time, conf.maxIdleTime, conf.ticks;
    var q := Truncated(d, n);
    if q >= m {
      Scales(m, q, n);
      Scales(m - 1, q - 1, n);
    } else {
      Scales(q + 1, m, n);
      Scales(q, m - 1, n);
    }
  }

  lemma Scales(a: int, b: int, n: nat)
    requires a <= b
    ensures a * n <= b * n
  {
  }

  // ---- the front-only scan ----

  /** What is left when the front is removed as long as it has expired. */
  function DropExpired(conf: Configuration, now: int, q: seq<Wrapper>): seq<Wrapper>
    requires conf.ticks > 0
  {
    if q == [] || !Expired(conf, now, q[0]) then q else DropExpired(conf, now, q[1..])
  }

  /** What is left when every expired connection is removed. */
  function Unexpired(conf: Configuration, now: int, q: seq<Wrapper>): (r: seq<Wrapper>)
    requires conf.ticks > 0
    ensures |r| <= |q|
  {
    if q == [] then [] else (if Expired(conf, now, q[0]) then [] else [q[0]]) + Unexpired(conf, now, q[1..])
  }

  /** No expired connection stands behind an unexpired one. */
  ghost predicate ExpiredFirst(conf: Configuration, now: int, q: seq<Wrapper>)
    requires conf.ticks > 0
  {
    forall i, j :: 0 <= i < j < |q| && Expired(conf, now, q[j]) ==> Expired(conf, now, q[i])
  }

  lemma {:induction false} AllUnexpired(conf: Configuration, now: int, q: seq<Wrapper>)
    requires conf.ticks > 0
    ensures Unexpired(conf, now, q) == q <==> forall w :: w in q ==> !Expired(conf, now, w)
  {
    if q != [] {
      AllUnexpired(conf, now, q[1..]);
      if Expired(conf, now, q[0]) {
        assert Unexpired(conf, now, q) == Unexpired(conf, now, q[1..]);
      } else {
        assert q == [q[0]] + q[1..];
        assert Unexpired(conf, now, q) == q <==> Unexpired(conf, now, q[1..]) == q[1..] by {
          assert Unexpired(conf, now, q)[1..] == Unexpired(conf, now, q[1..]);
        }
      }
    }
  }

  /** The scan that stops at the first unexpired connection removes all the expired ones, and
      keeps the others in order, exactly when no expired one stands behind an unexpired one. */
  lemma {:induction false} ScanIsFilterIff(conf: Configuration, now: int, q: seq<Wrapper>)
    requires conf.ticks > 0
    ensures DropExpired(conf, now, q) == Unexpired(conf, now, q) <==> ExpiredFirst(conf, now, q)
  {
    if q != [] {
      if Expired(conf, now, q[0]) {
        ScanIsFilterIff(conf, now, q[1..]);
        assert ExpiredFirst(conf, now, q[1..]) ==> ExpiredFirst(conf, now, q) by {
          assert forall i, j :: 0 <= i < j < |q| && i > 0 ==> q[i] == q[1..][i - 1] && q[j] == q[1..][j - 1];
        }
        assert ExpiredFirst(conf, now, q) ==> ExpiredFirst(conf, now, q[1..]);
      } else {
        AllUnexpired(conf, now, q);
        if DropExpired(conf, now, q) == Unexpired(conf, now, q) {
        } else {
          var w :| w in q && Expired(conf, now, w);
          var j :| 0 <= j < |q| && q[j] == w;
          assert !ExpiredFirst(conf, now, q);
        }
      }
    }
  }

  ghost predicate Sorted(q: seq<Wrapper>) {
    forall i, j :: 0 <= i < j < |q| ==> q[i].time <= q[j].time
  }

  lemma LaterExpiresLater(conf: Configuration, now: int, v: Wrapper, w: Wrapper)
    requires conf.ticks > 0 && v.time <= w.time && Expired(conf, now, w)
    ensures Expired(conf, now, v)
  {
    SecondsMonotone(conf, now - w.time, now - v.time);
  }

  lemma SecondsMonotone(conf: Configuration, a: int, b: int)
    requires conf.ticks > 0 && a <= b
    ensures Seconds(conf, a) <= Seconds(conf, b)
    ensures a <= 0 ==> Seconds(conf, a) <= 0
  {
    if 0 <= a {
      DivMonotone(a, b, conf.ticks);
    } else if b < 0 {
      DivMonotone(-b, -a, conf.ticks);
    } else {
      DivMonotone(0, b, conf.ticks);
      DivMonotone(0, -a, conf.ticks);
    }
  }

  lemma DivMonotone(a: int, b: int, n: int)
    requires n > 0 && 0 <= a <= b
    ensures 0 <= a / n <= b / n
  {
    var q := a / n - b / n;
    assert a == n * (a / n) + a % n && b == n * (b / n) + b % n;
    assert q >= 1 ==> n * q >= n;
  }

  /** A queue in order of release times is one the scan handles. */
  lemma SortedScan(conf: Configuration, now: int, q: seq<Wrapper>)
    requires conf.ticks > 0 && Sorted(q)
    ensures DropExpired(conf, now, q) == Unexpired(conf, now, q)
  {
    forall i, j | 0 <= i < j < |q| && Expired(conf, now, q[j]) ensures Expired(conf, now, q[i]) {
      LaterExpiresLater(conf, now, q[i], q[j]);
    }
    ScanIsFilterIff(conf, now, q);
  }
}
