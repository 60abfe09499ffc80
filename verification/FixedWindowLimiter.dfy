/**
 The objects of cmd/server/middleware.go.  Each method is the code between two lock operations (or,
 for Allow and Sweep, an uninterrupted run of it) and is tied to the table functions of the machine.
 */
module FixedWindowLimiter {
  import opened GreedyWindows
  import M = FixedWindowMachine

  class IpEntry {
    var count: nat
    var resetAt: int
    ghost const owner: string

    constructor (ghost owner: string)
      ensures this.owner == owner && count == 0 && resetAt == M.ZERO_TIME
    {
      this.owner := owner;
      count, resetAt := 0, M.ZERO_TIME;
    }

    ghost function Value(): M.Entry
      reads this
    {
      M.Entry(owner, count, resetAt)
    }

    /** The second half of allow, under the lock of the entry. */
    method Count(now: int, cfg: Config) returns (ok: bool)
      modifies this
      ensures Value() == M.Counted(old(Value()), now, cfg.window)
      ensures ok <==> Value().count <= cfg.max
    {
      if now > resetAt {
        count := 0;
        resetAt := now + cfg.window;
      }
      count := count + 1;
      ok := count <= cfg.max;
    }
  }

  class RateLimiter {
    var ips: map<string, IpEntry>
    const cfg: Config
    ghost var heap: seq<IpEntry>       // every entry ever allocated
    ghost var index: map<string, nat>  // the heap position of each entry in the map

    ghost predicate Valid()
      reads this, heap
      ensures Valid() ==> M.WellFormed(Abs())
    {
      && (forall i, j :: 0 <= i < j < |heap| ==> heap[i] != heap[j])
      && index.Keys == ips.Keys
      && (forall ip :: ip in ips ==> index[ip] < |heap| && heap[index[ip]] == ips[ip] && ips[ip].owner == ip)
    }

    ghost function Abs(): M.Table
      reads this, heap
    {
      M.Table(seq(|heap|, i requires 0 <= i < |heap| reads this, heap => heap[i].Value()), index)
    }

    constructor (max: int, window: nat)
      ensures Valid() && cfg == Config(max, window) && heap == []
      ensures Abs() == M.Init(1).table
    {
      cfg := Config(max, window);
      ips, heap, index := map[], [], map[];
    }

    /** The first half of allow, under the map lock. */
    method Lookup(ip: string) returns (e: IpEntry)
      requires Valid()
      modifies this
      ensures Valid() && fresh(set o | o in heap && o !in old(heap)) && old(heap) <= heap
      ensures Abs() == M.LookedUp(old(Abs()), ip)
      ensures ip in ips && e == ips[ip] && e in heap
    {
      if ip in ips {
        e := ips[ip];
      } else {
        e := new IpEntry(ip);
        heap, index := heap + [e], index[ip := |heap|];
        ips := ips[ip := e];
      }
    }

    /** allow with nothing in between its two halves. */
    method Allow(ip: string, now: int) returns (ok: bool)
      requires Valid()
      modifies this, heap
      ensures Valid() && fresh(set o | o in heap && o !in old(heap)) && old(heap) <= heap
      ensures (Abs(), ok) == M.Allowed(old(Abs()), ip, now, cfg)
    {
      var e := Lookup(ip);
      ghost var t := Abs();
      ok := e.Count(now, cfg);
      assert Abs().heap == t.heap[index[ip] := e.Value()];
    }

    /** The body of the cleanup loop, under the map lock and the lock of the entry. */
    method Visit(ip: string, now: int)
      requires Valid() && ip in index
      modifies this
      ensures Valid() && heap == old(heap)
      ensures Abs() == M.Visited(old(Abs()), ip, now)
    {
      if now > ips[ip].resetAt {
        ips, index := ips - {ip}, index - {ip};
      }
    }

    /** One tick of the cleanup goroutine, whose clock was read before the map lock was taken. */
    method Sweep(now: int)
      requires Valid()
      modifies this
      ensures Valid() && heap == old(heap)
      ensures Abs() == M.Swept(old(Abs()), now)
      ensures forall ip :: ip in ips <==> ip in old(ips) && now <= old(ips)[ip].resetAt
      ensures forall ip :: ip in ips ==> ips[ip] == old(ips)[ip]
    {
      ghost var before, t := Abs(), Abs();
      var todo := ips.Keys;
      M.SweepStart(t, now);
      while todo != {}
        invariant Valid() && heap == old(heap) && t == Abs()
        invariant todo <= t.ips.Keys && M.SweptSoFar(before, t, todo, now)
        decreases todo
      {
        var ip :| ip in todo;
        M.SweepProgress(before, t, todo, ip, now);
        Visit(ip, now);
        todo, t := todo - {ip}, M.Visited(t, ip, now);
      }
      M.SweepEnd(before, t, now);
    }
  }
}
