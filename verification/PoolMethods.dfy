/** The methods of the connection pool (src/api/pool/pool.hpp), each as the events it is when no other
    thread comes between them. */
module PoolMethods {
  import opened Wrappers
  import opened Pool
  import opened PoolRuns

  lemma RunTwo(conf: Configuration, s: State, d: Event, e: Event)
    requires conf.ticks > 0
    ensures Run(conf, s, [d]) == Next(conf, s, d)
    ensures Run(conf, s, [d, e]) == Next(conf, Next(conf, s, d), e)
  {
    hide Next;
    assert [d, e][1..] == [e] && [e][1..] == [] && [d][1..] == [];
    var t := Next(conf, s, d);
    assert Run(conf, t, [e]) == Run(conf, Next(conf, t, e), []);
    assert Run(conf, s, [d]) == Run(conf, t, []);
  }

  /** The expiry loop: its reading of the clock, and then its turns. */
  function ScanTurns(turns: nat): seq<Event> {
    [StartScan] + seq(turns, _ => Scan)
  }

  lemma OneTurnMore(conf: Configuration, s: State, turns: nat)
    requires conf.ticks > 0
    ensures Run(conf, s, ScanTurns(turns + 1)) == Next(conf, Run(conf, s, ScanTurns(turns)), Scan)
    ensures Run(conf, s, ScanTurns(0)) == Next(conf, s, StartScan)
  {
    hide Next, Run;
    assert ScanTurns(turns + 1) == ScanTurns(turns) + [Scan];
    assert ScanTurns(0) == [StartScan];
    RunConcat(conf, s, ScanTurns(turns), [Scan]);
    RunTwo(conf, Run(conf, s, ScanTurns(turns)), Scan, Scan);
    RunTwo(conf, s, StartScan, Scan);
  }

  /** One turn of the loop. */
  lemma ScanTurn(conf: Configuration, s: State)
    requires conf.ticks > 0 && s.scan.Some?
    ensures var q := s.core.available;
      if q == [] || Seconds(conf, s.scan.value - q[0].time) < conf.maxIdleTime then
        Next(conf, s, Scan) == s.(scan := None) && DropExpired(conf, s.scan.value, q) == q
      else
        Next(conf, s, Scan) == s.(core := Expire(s.core))
        && DropExpired(conf, s.scan.value, q) == DropExpired(conf, s.scan.value, q[1..])
  {
    hide Seconds;
  }

  class ConnectionPool {
    const conf: Configuration
    var total: nat
    var created: nat
    var available: seq<Wrapper>
    ghost var destroyed: seq<Wrapper>
    ghost var proxies: seq<Option<Wrapper>>
    ghost var checked: seq<bool>
    ghost var now: int
    ghost var scan: Option<int>

    ghost function Shared(): Core
      reads this
    {
      Core(total, created, available, destroyed)
    }

    ghost function View(): State
      reads this
    {
      State(Shared(), proxies, checked, now, scan)
    }

    constructor (c: Configuration, ghost threads: nat, time: int)
      ensures conf == c && View() == Init(c, threads, time)
      ensures total == 0 && created == |available| == c.initialSize
      ensures forall i :: 0 <= i < |available| ==> available[i] == Wrapper(i, time, 0)
    {
      conf := c;
      total, created := 0, 0;
      available, destroyed := [], [];
      proxies, checked, now, scan := [], seq(threads, _ => false), time, None;
      new;
      var i := 0;
      while i < conf.initialSize
        invariant i <= conf.initialSize && created == i && total == 0 && destroyed == []
        invariant available == seq(i, j requires 0 <= j => Wrapper(j, time, 0))
        invariant proxies == [] && checked == seq(threads, _ => false) && now == time && scan == None
      {
        available := available + [Wrapper(i, time, 0)];
        created := created + 1;
        i := i + 1;
      }
    }

    /** `time` is the clock's reading. */
    method Acquire(ghost t: nat, time: int) returns (proxy: Option<Wrapper>)
      requires conf.ticks > 0 && t < |checked| && !checked[t] && time == now
      modifies this
      ensures View() == Run(conf, old(View()), [Check(t), PoolRuns.Acquire(t)])
      ensures old(total) >= conf.maxConnections ==> proxy.None? && View() == old(View())
      ensures old(total) < conf.maxConnections ==>
        && proxy.Some? && total == old(total) + 1 && destroyed == old(destroyed) && proxies == old(proxies) + [proxy]
        && if old(available) == [] then
             created == old(created) + 1 && available == [] && proxy.value == Wrapper(old(created), time, 0)
           else
             && created == old(created) && proxy.value.count > 0
             && [proxy.value.(count := proxy.value.count - 1)] + available == old(available)
    {
      RunTwo(conf, View(), Check(t), PoolRuns.Acquire(t));
      hide Run;
      assert checked[t := true][t := false] == checked;
      if total >= conf.maxConnections {
        return None;
      }
      total := total + 1;
      if available == [] {
        created := created + 1;
        proxy := Some(Wrapper(created - 1, time, 0));
      } else {
        var w := available[0];
        assert available == [w] + available[1..];
        available := available[1..];
        proxy := Some(w.(count := w.count + 1));
      }
      proxies := proxies + [proxy];
    }

    method Release(ghost p: nat, w: Wrapper, valid: bool, time: int)
      requires conf.ticks > 0 && p < |proxies| && proxies[p] == Some(w) && total > 0 && time == now
      modifies this
      ensures View() == Run(conf, old(View()), [Destroy(p, valid)])
      ensures total == old(total) - 1 && created == old(created) && proxies == old(proxies)[p := None]
      ensures if valid && |old(available)| < conf.maxPoolSize
        then available == old(available) + [Wrapper(w.con, time, w.count)] && destroyed == old(destroyed)
        else available == old(available) && destroyed == old(destroyed) + [w]
    {
      RunTwo(conf, View(), Destroy(p, valid), Scan);
      hide Run;
      proxies := proxies[p := None];
      total := total - 1;
      if !valid {
        destroyed := destroyed + [w];
        return;
      }
      if |available| < conf.maxPoolSize {
        available := available + [w.(time := time)];
      } else {
        destroyed := destroyed + [w];
      }
    }

    method RemoveExpired(time: int) returns (ghost turns: nat)
      requires conf.ticks > 0 && scan.None? && time == now
      modifies this
      ensures View() == Run(conf, old(View()), ScanTurns(turns))
      ensures total == old(total) && created == old(created)
      ensures available == DropExpired(conf, time, old(available))
      ensures destroyed + available == old(destroyed) + old(available)
      ensures Sorted(old(available)) ==> available == Unexpired(conf, time, old(available))
    {
      hide Run, ScanTurns;
      if Sorted(available) {
        SortedScan(conf, time, available);
      }
      OneTurnMore(conf, View(), 0);
      hide DropExpired, Unexpired, Sorted, Seconds;
      scan := Some(time);
      turns := 0;
      var end := false;
      while !end
        invariant total == old(total) && created == old(created)
        invariant now == time && (end <==> scan.None?) && (scan.Some? ==> scan.value == time)
        invariant View() == Run(conf, old(View()), ScanTurns(turns))
        invariant DropExpired(conf, time, available) == DropExpired(conf, time, old(available))
        invariant destroyed + available == old(destroyed) + old(available)
        invariant end ==> available == DropExpired(conf, time, available)
        decreases |available|, !end
      {
        OneTurnMore(conf, old(View()), turns);
        ScanTurn(conf, View());
        hide Next;
        turns := turns + 1;
        if available == [] {
          scan := None;
          break;
        }
        var diff := Seconds(conf, time - available[0].time);
        if diff < conf.maxIdleTime {
          end := true;
          scan := None;
        } else {
          destroyed := destroyed + [available[0]];
          available := available[1..];
        }
      }
    }
  }
}
