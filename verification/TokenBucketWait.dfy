/**
 TokenBucketMachine shows that evictions cannot be observed as long as no request waits longer than
 MaxWait between its look-up and its Allow.  Here: for no rate is a longer wait allowed; and requests and
 cleanups that nothing interrupts are runs of that machine.
 */
module TokenBucketWait {
  import opened Common
  import opened TokenBuckets
  import opened TokenBucketMachine

  /** evs leads to s. */
  predicate Leads(evs: seq<Event>, s: State, perMinute: nat) {
    Exec(0, evs, perMinute) == Some(s)
  }

  lemma Extend(evs: seq<Event>, s: State, e: Event, perMinute: nat) returns (evs': seq<Event>, s': State)
    requires Leads(evs, s, perMinute) && Enabled(s, e)
    ensures evs' == evs + [e] && s' == Step(s, e, perMinute) && Leads(evs', s', perMinute)
    ensures WithoutEvict(evs') == if e.Evict? then WithoutEvict(evs) else WithoutEvict(evs) + [e]
  {
    evs', s' := evs + [e], Step(s, e, perMinute);
    assert evs'[..|evs|] == evs;
  }

  /** Requests first, ..., first + n - 1 have looked up the live bucket of ip at the start, and nobody has
      looked it up since. */
  ghost predicate Waiting(s: State, ip: string, first: nat, n: nat)
    requires Sane(s)
  {
    && ip in s.table.visitors && s.table.heap[s.table.visitors[ip]].lastSeen == 0
    && forall r :: first <= r < first + n ==> r in s.pending && s.pending[r] == Pending(ip, s.table.visitors[ip], 0)
  }

  lemma {:induction false} LookUpMany(ip: string, n: nat, perMinute: nat) returns (evs: seq<Event>, s: State)
    requires n > 0
    ensures Leads(evs, s, perMinute) && WithoutEvict(evs) == evs
    ensures s.clock == 0 && s.next == n && s.calls == [] && Waiting(s, ip, 0, n)
    ensures BucketOf(s, ip, perMinute) == Full(perMinute, 0)
  {
    evs, s := [], Init(0);
    if n > 1 {
      evs, s := LookUpMany(ip, n - 1, perMinute);
    }
    evs, s := Extend(evs, s, GetLimiter(ip), perMinute);
  }

  /** A bucket after n calls of Allow. */
  function Drained(b: Bucket, now: int, n: nat, perMinute: nat): Bucket {
    if n == 0 then b else Taken(Drained(b, now, n - 1, perMinute), now, perMinute)
  }

  lemma {:induction false} DrainedLevel(b: Bucket, now: int, n: nat, perMinute: nat)
    requires Level(b, now, perMinute) >= n * TOKEN
    ensures Level(Drained(b, now, n, perMinute), now, perMinute) == Level(b, now, perMinute) - n * TOKEN
    ensures n > 0 ==> Drained(b, now, n, perMinute).last == now
  {
    if n > 0 {
      DrainedLevel(b, now, n - 1, perMinute);
      TakenLevel(Drained(b, now, n - 1, perMinute), now, perMinute);
    }
  }

  /** Allow moves no visitor in the map and leaves the other requests waiting. */
  lemma AllowOne(evs: seq<Event>, s: State, ip: string, req: nat, m: nat, perMinute: nat)
    returns (evs': seq<Event>, s': State)
    requires Leads(evs, s, perMinute) && WithoutEvict(evs) == evs && Waiting(s, ip, req, m + 1)
    requires forall c :: c in s.calls ==> c.waited == s.clock
    ensures Leads(evs', s', perMinute) && WithoutEvict(evs') == evs' && Waiting(s', ip, req + 1, m)
    ensures s'.clock == s.clock && forall c :: c in s'.calls ==> c.waited == s.clock
    ensures BucketOf(s', ip, perMinute) == Taken(BucketOf(s, ip, perMinute), s.clock, perMinute)
  {
    assert req in s.pending && s.pending[req] == Pending(ip, s.table.visitors[ip], 0);
    evs', s' := Extend(evs, s, Allow(req), perMinute);
  }

  /** n of the waiting requests call Allow, and m are left. */
  lemma {:induction false} AllowMany(evs: seq<Event>, s: State, ip: string, n: nat, m: nat, perMinute: nat)
    returns (evs': seq<Event>, s': State)
    requires Leads(evs, s, perMinute) && WithoutEvict(evs) == evs && Waiting(s, ip, 0, n + m) && s.calls == []
    ensures Leads(evs', s', perMinute) && WithoutEvict(evs') == evs' && Waiting(s', ip, n, m)
    ensures s'.clock == s.clock && forall c :: c in s'.calls ==> c.waited == s.clock
    ensures BucketOf(s', ip, perMinute) == Drained(BucketOf(s, ip, perMinute), s.clock, n, perMinute)
  {
    evs', s' := evs, s;
    if n > 0 {
      evs', s' := AllowMany(evs, s, ip, n - 1, m + 1, perMinute);
      evs', s' := AllowOne(evs', s', ip, n - 1, m, perMinute);
    }
  }

  /** A round of requests drains the bucket one nanosecond too late, and then nobody comes until the
      visitor may be evicted. */
  lemma LateRound(ip: string, perMinute: nat) returns (evs: seq<Event>, s: State)
    requires perMinute >= LEAST
    ensures Leads(evs, s, perMinute) && WithoutEvict(evs) == evs
    ensures s.clock == IDLE + 1 && Waiting(s, ip, 0, 0)
    ensures BucketOf(s, ip, perMinute) == Bucket(0, MaxWait(perMinute) + 1)
    ensures forall c :: c in s.calls ==> c.waited == MaxWait(perMinute) + 1
  {
    MaxWaitIsExact(perMinute);
    evs, s := LookUpMany(ip, perMinute / 4, perMinute);
    evs, s := Extend(evs, s, Tick(MaxWait(perMinute) + 1), perMinute);
    evs, s := AllowMany(evs, s, ip, perMinute / 4, 0, perMinute);
    EmptyAfterRound(s.clock, perMinute);
    evs, s := Extend(evs, s, Tick(IDLE + 1), perMinute);
  }

  lemma EmptyAfterRound(now: nat, perMinute: nat)
    requires perMinute >= LEAST
    ensures Drained(Full(perMinute, 0), now, perMinute / 4, perMinute) == Bucket(0, now)
  {
    RefillNonNegative(now, perMinute);
    DrainedLevel(Full(perMinute, 0), now, perMinute / 4, perMinute);
    EmptyNow(Drained(Full(perMinute, 0), now, perMinute / 4, perMinute), perMinute);
  }

  lemma EmptyNow(b: Bucket, perMinute: nat)
    requires Level(b, b.last, perMinute) == 0 && perMinute >= LEAST
    ensures b.level == 0
  {
  }

  /** A request that did not wait was admitted if and only if there was a token, which it took. */
  ghost predicate After(s: State, s': State, ip: string, perMinute: nat)
    requires Sane(s) && Sane(s')
  {
    && s'.clock == s.clock && s'.next == s.next + 1
    && s'.calls == s.calls + [Call(ip, s.clock, 0, Allows(BucketOf(s, ip, perMinute), s.clock, perMinute))]
    && BucketOf(s', ip, perMinute) == Taken(BucketOf(s, ip, perMinute), s.clock, perMinute)
  }

  lemma RequestEffect(s: State, ip: string, perMinute: nat)
    requires Sane(s)
    ensures var s1 := Step(s, GetLimiter(ip), perMinute);
            Enabled(s1, Allow(s.next)) && After(s, Step(s1, Allow(s.next), perMinute), ip, perMinute)
  {
    var s1 := Step(s, GetLimiter(ip), perMinute);
    assert s1.pending[s.next] == Pending(ip, s1.table.visitors[ip], s.clock);
    assert BucketOf(s1, ip, perMinute) == BucketOf(s, ip, perMinute);
  }

  lemma OneRequest(evs: seq<Event>, s: State, ip: string, perMinute: nat) returns (evs': seq<Event>, s': State)
    requires Leads(evs, s, perMinute)
    ensures evs' == evs + [GetLimiter(ip)] + [Allow(s.next)] && Leads(evs', s', perMinute)
    ensures After(s, s', ip, perMinute)
  {
    RequestEffect(s, ip, perMinute);
    var s1 := Step(s, GetLimiter(ip), perMinute);
    s' := Step(s1, Allow(s.next), perMinute);
    ExecSnoc(0, evs, GetLimiter(ip), perMinute);
    ExecSnoc(0, evs + [GetLimiter(ip)], Allow(s.next), perMinute);
    evs' := evs + [GetLimiter(ip)] + [Allow(s.next)];
  }

  lemma WithoutEvictRequest(evs: seq<Event>, ip: string, req: nat)
    ensures WithoutEvict(evs + [GetLimiter(ip)] + [Allow(req)]) == WithoutEvict(evs) + [GetLimiter(ip)] + [Allow(req)]
  {
    assert (evs + [GetLimiter(ip)] + [Allow(req)])[..|evs| + 1] == evs + [GetLimiter(ip)];
    assert (evs + [GetLimiter(ip)])[..|evs|] == evs;
  }

  /** The same request in a run and in the run without its evictions. */
  lemma SameRequest(evs: seq<Event>, s: State, t: State, ip: string, perMinute: nat)
    returns (evs': seq<Event>, s': State, t': State)
    requires Leads(evs, s, perMinute) && Leads(WithoutEvict(evs), t, perMinute) && s.next == t.next
    ensures Leads(evs', s', perMinute) && Leads(WithoutEvict(evs'), t', perMinute)
    ensures After(s, s', ip, perMinute) && After(t, t', ip, perMinute)
  {
    evs', s' := OneRequest(evs, s, ip, perMinute);
    var evs0;
    evs0, t' := OneRequest(WithoutEvict(evs), t, ip, perMinute);
    WithoutEvictRequest(evs, ip, s.next);
  }

  /** A bucket admits n requests at one moment. */
  predicate AdmitsAll(b: Bucket, now: int, n: nat, perMinute: nat)
    decreases n
  {
    n == 0 || (Allows(b, now, perMinute) && AdmitsAll(Taken(b, now, perMinute), now, n - 1, perMinute))
  }

  lemma {:induction false} AdmitsAllIff(b: Bucket, now: int, n: nat, perMinute: nat)
    requires 0 <= Level(b, now, perMinute)
    ensures AdmitsAll(b, now, n, perMinute) <==> Level(b, now, perMinute) >= n * TOKEN
    decreases n
  {
    if n > 0 && Allows(b, now, perMinute) {
      TakenLevel(b, now, perMinute);
      AdmitsAllIff(Taken(b, now, perMinute), now, n - 1, perMinute);
    }
  }

  /** A new client has perMinute / 4 requests admitted at once, and no more. */
  lemma BurstOfNewcomer(now: int, n: nat, perMinute: nat)
    ensures AdmitsAll(Full(perMinute, now), now, n, perMinute) <==> n <= perMinute / 4
  {
    LevelOfFull(now, perMinute);
    AdmitsAllIff(Full(perMinute, now), now, n, perMinute);
  }

  predicate Waited(calls: seq<Call>, most: int) {
    forall c :: c in calls ==> c.waited <= most
  }

  lemma WaitedAfter(s: State, s': State, ip: string, most: nat, perMinute: nat)
    requires Sane(s) && Sane(s') && After(s, s', ip, perMinute) && Waited(s.calls, most)
    ensures Waited(s'.calls, most)
  {
  }

  lemma TheyHaveParted(s: State, s': State, t: State, t': State, ip: string, perMinute: nat)
    requires Sane(s) && Sane(s') && Sane(t) && Sane(t') && After(s, s', ip, perMinute) && After(t, t', ip, perMinute)
    requires Allows(BucketOf(s, ip, perMinute), s.clock, perMinute)
    requires !Allows(BucketOf(t, ip, perMinute), t.clock, perMinute)
    ensures s'.calls != t'.calls
  {
    if |s.calls| == |t.calls| {
      assert s'.calls[|s.calls|].ok && !t'.calls[|t.calls|].ok;
    }
  }

  /** Two runs, alike but for evictions, at the same moment; the bucket of the first admits n requests and
      that of the second does not: at one of the next n requests they part. */
  lemma {:induction false} TheyPart(evs: seq<Event>, s: State, t: State, ip: string, n: nat, most: nat, perMinute: nat)
    returns (evs': seq<Event>, s': State, t': State)
    requires Leads(evs, s, perMinute) && Leads(WithoutEvict(evs), t, perMinute)
    requires s.clock == t.clock && s.next == t.next && Waited(s.calls, most)
    requires AdmitsAll(BucketOf(s, ip, perMinute), s.clock, n, perMinute)
    requires !AdmitsAll(BucketOf(t, ip, perMinute), t.clock, n, perMinute)
    ensures Leads(evs', s', perMinute) && Leads(WithoutEvict(evs'), t', perMinute) && s'.calls != t'.calls
    ensures Waited(s'.calls, most)
    decreases n
  {
    evs', s', t' := SameRequest(evs, s, t, ip, perMinute);
    WaitedAfter(s, s', ip, most, perMinute);
    if Allows(BucketOf(t, ip, perMinute), t.clock, perMinute) {
      evs', s', t' := TheyPart(evs', s', t', ip, n - 1, most, perMinute);
    } else {
      TheyHaveParted(s, s', t, t', ip, perMinute);
    }
  }

  /** A full bucket admits a round of requests, one drained too late does not. */
  lemma NotRefilled(perMinute: nat)
    requires perMinute >= LEAST
    ensures AdmitsAll(Full(perMinute, IDLE + 1), IDLE + 1, perMinute / 4, perMinute)
    ensures !AdmitsAll(Bucket(0, MaxWait(perMinute) + 1), IDLE + 1, perMinute / 4, perMinute)
  {
    MaxWaitIsExact(perMinute);
    RefillNonNegative(IDLE - MaxWait(perMinute), perMinute);
    LevelOfFull(IDLE + 1, perMinute);
    AdmitsAllIff(Full(perMinute, IDLE + 1), IDLE + 1, perMinute / 4, perMinute);
    AdmitsAllIff(Bucket(0, MaxWait(perMinute) + 1), IDLE + 1, perMinute / 4, perMinute);
  }

  /** Whatever the rate, as long as anything is admitted at all: with a wait of one nanosecond more than
      MaxWait there is a run in which an eviction shows. */
  lemma WaitIsTight(perMinute: nat) returns (evs: seq<Event>)
    requires perMinute >= LEAST
    ensures Exec(0, evs, perMinute).Some? && Exec(0, WithoutEvict(evs), perMinute).Some?
    ensures forall c :: c in Exec(0, evs, perMinute).value.calls ==> c.waited <= MaxWait(perMinute) + 1
    ensures Exec(0, evs, perMinute).value.calls != Exec(0, WithoutEvict(evs), perMinute).value.calls
  {
    var late, t := LateRound("a", perMinute);
    var evicted, s := Extend(late, t, Evict("a"), perMinute);
    NotRefilled(perMinute);
    MaxWaitIsExact(perMinute);
    var s', t';
    evs, s', t' := TheyPart(evicted, s, t, "a", perMinute / 4, MaxWait(perMinute) + 1, perMinute);
  }

  // Requests and cleanups that nothing interrupts.

  lemma AdmitEffect(s: State, ip: string, later: int, perMinute: nat)
    requires Sane(s) && s.clock <= later
    ensures var s1 := Step(s, GetLimiter(ip), perMinute).(clock := later);
            var t := Seen(s.table, ip, s.clock, perMinute);
            && Enabled(s1, Allow(s.next)) && t.visitors[ip] < |t.heap|
            && var s' := Step(s1, Allow(s.next), perMinute);
               && s'.table == TakenFrom(t, t.visitors[ip], later, perMinute)
               && s'.pending == s.pending
               && s'.calls == s.calls + [Call(ip, later, later - s.clock,
                                              Allows(t.heap[t.visitors[ip]].bucket, later, perMinute))]
  {
    var s1 := Step(s, GetLimiter(ip), perMinute).(clock := later);
    assert s1.pending - {s.next} == s.pending;
  }

  /** A request that nothing interrupts is a look-up and a later Allow, with the same table and decision. */
  lemma AdmitIsRun(evs: seq<Event>, s: State, ip: string, later: int, perMinute: nat)
    returns (evs': seq<Event>, s': State)
    requires Leads(evs, s, perMinute) && s.clock <= later
    ensures evs' == evs + [GetLimiter(ip)] + [Tick(later)] + [Allow(s.next)] && Leads(evs', s', perMinute)
    ensures var t := Seen(s.table, ip, s.clock, perMinute);
            && t.visitors[ip] < |t.heap| && s'.pending == s.pending
            && s'.table == TakenFrom(t, t.visitors[ip], later, perMinute)
            && s'.calls == s.calls + [Call(ip, later, later - s.clock,
                                           Allows(t.heap[t.visitors[ip]].bucket, later, perMinute))]
  {
    AdmitEffect(s, ip, later, perMinute);
    evs', s' := Extend(evs, s, GetLimiter(ip), perMinute);
    evs', s' := Extend(evs', s', Tick(later), perMinute);
    evs', s' := Extend(evs', s', Allow(s.next), perMinute);
  }

  lemma {:induction false} EvictMany(evs: seq<Event>, s: State, before: Table, todo: set<string>, perMinute: nat)
    returns (evs': seq<Event>, s': State)
    requires Leads(evs, s, perMinute) && WellFormed(before)
    requires CleanedSoFar(before, s.table, todo, s.clock) && todo <= s.table.visitors.Keys
    ensures Leads(evs', s', perMinute) && s' == s.(table := CleanedUp(before, s.clock))
    decreases todo
  {
    if todo == {} {
      evs', s' := evs, s;
      CleanupEnd(before, s.table, s.clock);
    } else {
      var ip :| ip in todo;
      CleanupProgress(before, s.table, todo, ip, s.clock);
      evs', s' := evs, s;
      if Stale(s.table, ip, s.clock) {
        evs', s' := Extend(evs, s, Evict(ip), perMinute);
      }
      evs', s' := EvictMany(evs', s', before, todo - {ip}, perMinute);
    }
  }

  /** So is a cleanup: one event for each visitor it evicts. */
  lemma CleanupIsRun(evs: seq<Event>, s: State, perMinute: nat) returns (evs': seq<Event>, s': State)
    requires Leads(evs, s, perMinute)
    ensures Leads(evs', s', perMinute) && s' == s.(table := CleanedUp(s.table, s.clock))
  {
    CleanupStart(s.table, s.clock);
    evs', s' := EvictMany(evs, s, s.table, s.table.visitors.Keys, perMinute);
  }
}
