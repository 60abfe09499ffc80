/** The objects of internal/middleware/ratelimit.go, tied to the table functions of the machine. */
module TokenBucketLimiter {
  import opened TokenBuckets
  import M = TokenBucketMachine

  /** rate.Limiter, a library object; its Allow is atomic. */
  class Limiter {
    var level: int
    var last: int
    const perMinute: nat

    constructor (perMinute: nat, now: int)
      ensures this.perMinute == perMinute && Value() == Full(perMinute, now)
    {
      this.perMinute := perMinute;
      level, last := Burst(perMinute), now;
    }

    ghost function Value(): Bucket
      reads this
    {
      Bucket(level, last)
    }

    method Allow(now: int) returns (ok: bool)
      modifies this
      ensures Value() == Taken(old(Value()), now, perMinute)
      ensures ok <==> Allows(old(Value()), now, perMinute)
      ensures !ok ==> Value() == old(Value())
    {
      var tokens := Level(Bucket(level, last), now, perMinute);
      ok := tokens >= TOKEN;
      if ok {
        level, last := tokens - TOKEN, now;
      }
    }
  }

  class Visitor {
    const limiter: Limiter
    var lastSeen: int
    ghost const owner: string

    constructor (limiter: Limiter, ghost owner: string)
      ensures this.limiter == limiter && this.owner == owner && lastSeen == 0
    {
      this.limiter, this.owner, lastSeen := limiter, owner, 0;
    }
  }

  class RateLimiter {
    var visitors: map<string, Visitor>
    const perMinute: nat
    ghost var heap: seq<Visitor>       // every visitor ever created
    ghost var limiters: seq<Limiter>   // and its limiter
    ghost var index: map<string, nat>  // the heap position of each visitor in the map

    ghost predicate Valid()
      reads this, heap, limiters
      ensures Valid() ==> M.WellFormed(Abs())
    {
      && |limiters| == |heap|
      && (forall i, j :: 0 <= i < j < |heap| ==> heap[i] != heap[j] && limiters[i] != limiters[j])
      && (forall i :: 0 <= i < |heap| ==> heap[i].limiter == limiters[i] && limiters[i].perMinute == perMinute)
      && index.Keys == visitors.Keys
      && forall ip :: ip in visitors ==>
           index[ip] < |heap| && heap[index[ip]] == visitors[ip] && visitors[ip].owner == ip
    }

    ghost function Abs(): M.Table
      reads this, heap, limiters
    {
      M.Table(seq(|heap|, i requires 0 <= i < |heap| reads this, heap, limiters => ValueAt(i)), index)
    }

    ghost function ValueAt(i: nat): M.Visitor
      requires i < |heap|
      reads this, heap, limiters
    {
      M.Visitor(heap[i].owner, if i < |limiters| then limiters[i].Value() else Bucket(0, 0), heap[i].lastSeen)
    }

    constructor (perMinute: nat)
      ensures Valid() && this.perMinute == perMinute && heap == []
      ensures Abs() == M.Init(0).table
    {
      this.perMinute := perMinute;
      visitors, heap, limiters, index := map[], [], [], map[];
    }

    /** The branch of getLimiter that creates a visitor. */
    method Create(ip: string, now: int)
      requires Valid() && ip !in visitors
      modifies this
      ensures Valid() && ip in visitors && fresh(visitors[ip]) && fresh(visitors[ip].limiter)
      ensures heap == old(heap) + [visitors[ip]] && limiters == old(limiters) + [visitors[ip].limiter]
      ensures Abs().heap == old(Abs().heap) + [M.Visitor(ip, Full(perMinute, now), 0)]
      ensures index == old(index)[ip := |old(heap)|]
    {
      var limiter := new Limiter(perMinute, now);
      var created := new Visitor(limiter, ip);
      Insert(ip, created);
      assert forall k :: 0 <= k < |old(heap)| ==> ValueAt(k) == old(ValueAt(k));
    }

    /** visitors[ip] = v, for a new v. */
    method Insert(ip: string, v: Visitor)
      requires Valid() && ip !in visitors && v !in heap && v.limiter !in limiters
      requires v.owner == ip && v.limiter.perMinute == perMinute
      modifies this
      ensures Valid() && visitors == old(visitors)[ip := v] && index == old(index)[ip := |old(heap)|]
      ensures heap == old(heap) + [v] && limiters == old(limiters) + [v.limiter]
    {
      heap, limiters, index := heap + [v], limiters + [v.limiter], index[ip := |heap|];
      visitors := visitors[ip := v];
    }

    method GetLimiter(ip: string, now: int) returns (l: Limiter)
      requires Valid()
      modifies this, heap
      ensures Valid() && old(heap) <= heap && old(limiters) <= limiters
      ensures fresh(set v | v in heap && v !in old(heap)) && fresh(set v | v in limiters && v !in old(limiters))
      ensures Abs() == M.Seen(old(Abs()), ip, now, perMinute)
      ensures ip in index && index[ip] < |limiters| && l == limiters[index[ip]]
    {
      if ip !in visitors {
        Create(ip, now);
      }
      l := Touch(ip, now);
    }

    /** The rest of getLimiter. */
    method Touch(ip: string, now: int) returns (l: Limiter)
      requires Valid() && ip in index
      modifies visitors[ip]
      ensures Valid() && Abs().visitors == old(Abs().visitors)
      ensures Abs().heap == old(Abs().heap)[index[ip] := old(Abs().heap)[index[ip]].(lastSeen := now)]
      ensures l == limiters[index[ip]]
    {
      var v := visitors[ip];
      v.lastSeen := now;
      l := v.limiter;
      assert forall i :: 0 <= i < |heap| && i != index[ip] ==> heap[i] != v;
    }

    /** One iteration of the loop in cleanup. */
    method Evict(ip: string, now: int)
      requires Valid() && ip in index
      modifies this
      ensures Valid() && heap == old(heap) && limiters == old(limiters)
      ensures Abs() == M.Evicted(old(Abs()), ip, now)
    {
      if now - visitors[ip].lastSeen > M.IDLE {
        visitors, index := visitors - {ip}, index - {ip};
      }
    }

    method Cleanup(now: int)
      requires Valid()
      modifies this
      ensures Valid() && heap == old(heap) && limiters == old(limiters)
      ensures Abs() == M.CleanedUp(old(Abs()), now)
      ensures forall ip :: ip in visitors <==> ip in old(visitors) && now - old(visitors)[ip].lastSeen <= 600 * SECOND
      ensures forall ip :: ip in visitors ==> visitors[ip] == old(visitors)[ip]
    {
      ghost var before, t := Abs(), Abs();
      var todo := visitors.Keys;
      M.CleanupStart(t, now);
      while todo != {}
        invariant Valid() && heap == old(heap) && limiters == old(limiters) && t == Abs()
        invariant todo <= t.visitors.Keys && M.CleanedSoFar(before, t, todo, now)
        decreases todo
      {
        var ip :| ip in todo;
        M.CleanupProgress(before, t, todo, ip, now);
        Evict(ip, now);
        todo, t := todo - {ip}, M.Evicted(t, ip, now);
      }
      M.CleanupEnd(before, t, now);
    }

    /** Allow, called on the bucket of visitor i, which may have been evicted in the meantime. */
    method CallAllow(l: Limiter, ghost i: nat, now: int) returns (ok: bool)
      requires Valid() && i < |limiters| && l == limiters[i]
      modifies l
      ensures Valid() && Abs() == M.TakenFrom(old(Abs()), i, now, perMinute)
      ensures ok <==> Allows(old(Abs()).heap[i].bucket, now, perMinute)
    {
      ok := l.Allow(now);
      assert forall k :: 0 <= k < |heap| && k != i ==> ValueAt(k) == old(ValueAt(k));
    }

    /** The limiting part of Middleware: look-up, then Allow at a later moment. */
    method Admit(ip: string, now: int, later: int) returns (ok: bool)
      requires Valid()
      modifies this, heap, limiters
      ensures Valid() && old(heap) <= heap && old(limiters) <= limiters
      ensures ip in index && index[ip] < |M.Seen(old(Abs()), ip, now, perMinute).heap|
      ensures var t := M.Seen(old(Abs()), ip, now, perMinute);
              && Abs() == M.TakenFrom(t, index[ip], later, perMinute)
              && (ok <==> Allows(t.heap[index[ip]].bucket, later, perMinute))
    {
      var l := GetLimiter(ip, now);
      ok := CallAllow(l, index[ip], later);
    }
  }
}
