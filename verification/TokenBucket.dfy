/**
 The limiter that main.go wires in, internal/middleware/ratelimit.go: a token bucket per IP, and a
 cleanup that evicts the buckets of visitors not seen for ten minutes.

 A bucket of golang.org/x/time/rate is modelled exactly, on integers: time is in nanoseconds and one
 token is TOKEN units, so that a rate of perMinute tokens a minute is perMinute units a nanosecond.
 */
module TokenBuckets {
  import opened Common

  const SECOND := 1_000_000_000
  const TOKEN := 60 * SECOND

  /** The capacity: perMinute / 4 tokens. */
  function Burst(perMinute: nat): nat {
    perMinute / 4 * TOKEN
  }

  /** The level the bucket had when it was last taken from, and that moment. */
  datatype Bucket = Bucket(level: int, last: int)

  function Full(perMinute: nat, now: int): Bucket {
    Bucket(Burst(perMinute), now)
  }

  function Level(b: Bucket, now: int, perMinute: nat): int {
    Min(Burst(perMinute), b.level + (now - b.last) * perMinute)
  }

  predicate Allows(b: Bucket, now: int, perMinute: nat) {
    Level(b, now, perMinute) >= TOKEN
  }

  /** Takes a token if there is one, otherwise changes nothing. */
  function Taken(b: Bucket, now: int, perMinute: nat): Bucket {
    if Allows(b, now, perMinute) then Bucket(Level(b, now, perMinute) - TOKEN, now) else b
  }

  ghost predicate Times(ts: seq<int>) {
    (forall i :: 0 <= i < |ts| ==> 0 <= ts[i]) && forall i, j :: 0 <= i <= j < |ts| ==> ts[i] <= ts[j]
  }

  /** One IP on its own: a bucket that starts full and is never evicted. */
  function Replay(ts: seq<int>, perMinute: nat): (b: Bucket) {
    if |ts| == 0 then Full(perMinute, 0)
    else Taken(Replay(ts[..|ts| - 1], perMinute), ts[|ts| - 1], perMinute)
  }

  predicate Decision(ts: seq<int>, i: nat, perMinute: nat)
    requires i < |ts|
  {
    Allows(Replay(ts[..i], perMinute), ts[i], perMinute)
  }

  function Decisions(ts: seq<int>, perMinute: nat): (r: seq<bool>)
    ensures |r| == |ts|
  {
    if |ts| == 0 then []
    else Decisions(ts[..|ts| - 1], perMinute) + [Decision(ts, |ts| - 1, perMinute)]
  }

  lemma RefillNonNegative(dt: int, perMinute: nat)
    requires dt >= 0
    ensures dt * perMinute >= 0
  {
  }

  lemma RefillAdds(a: int, b: int, c: int, perMinute: nat)
    ensures (c - a) * perMinute == (c - b) * perMinute + (b - a) * perMinute
  {
  }

  /** Refilling in two steps is refilling in one. */
  lemma LevelAdvances(b: Bucket, t: int, t': int, perMinute: nat)
    requires t <= t'
    ensures Level(b, t', perMinute) == Min(Burst(perMinute), Level(b, t, perMinute) + (t' - t) * perMinute)
  {
    RefillAdds(b.last, t, t', perMinute);
    RefillNonNegative(t' - t, perMinute);
  }

  /** A bucket fills up within 15 seconds. */
  lemma FullAfter15Seconds(b: Bucket, now: int, perMinute: nat)
    requires b.level >= 0 && now - b.last >= 15 * SECOND
    ensures Level(b, now, perMinute) == Burst(perMinute)
  {
    assert (now - b.last) * perMinute >= 15 * SECOND * perMinute;
    assert 4 * (perMinute / 4) <= perMinute;
  }

  lemma {:induction false} ReplayInRange(ts: seq<int>, perMinute: nat)
    requires Times(ts)
    ensures var b := Replay(ts, perMinute);
            0 <= b.level <= Burst(perMinute) && 0 <= b.last && (|ts| > 0 ==> b.last <= ts[|ts| - 1]) &&
            (|ts| == 0 ==> b.last == 0)
  {
    if |ts| > 0 {
      ReplayInRange(ts[..|ts| - 1], perMinute);
    }
  }

  /** The number of requests admitted in [a, b]. */
  function Admitted(ts: seq<int>, perMinute: nat, a: int, b: int): nat {
    if |ts| == 0 then 0
    else
      Admitted(ts[..|ts| - 1], perMinute, a, b) +
      if a <= ts[|ts| - 1] <= b && Decision(ts, |ts| - 1, perMinute) then 1 else 0
  }

  /** Conservation: what was admitted since a, plus what is left at `now`, is paid for by a full
      bucket and the refill since a. */
  lemma {:induction false} Conservation(ts: seq<int>, perMinute: nat, a: int, b: int, now: int)
    requires Times(ts) && 0 <= a <= now && (|ts| > 0 ==> ts[|ts| - 1] <= now) && now <= b
    ensures Admitted(ts, perMinute, a, b) * TOKEN + Level(Replay(ts, perMinute), now, perMinute)
         <= Burst(perMinute) + (now - a) * perMinute
  {
    RefillNonNegative(now - a, perMinute);
    if |ts| > 0 {
      var before, t := ts[..|ts| - 1], ts[|ts| - 1];
      var b0, b1 := Replay(before, perMinute), Replay(ts, perMinute);
      if t < a {
        NothingBefore(ts, perMinute, a, b);
      } else {
        Conservation(before, perMinute, a, b, t);
        LevelAdvances(b1, t, now, perMinute);
        TakenLevel(b0, t, perMinute);
        RefillAdds(a, t, now, perMinute);
      }
    }
  }

  lemma TakenLevel(b: Bucket, now: int, perMinute: nat)
    ensures Level(Taken(b, now, perMinute), now, perMinute)
         == Level(b, now, perMinute) - if Allows(b, now, perMinute) then TOKEN else 0
  {
  }

  lemma {:induction false} NothingBefore(ts: seq<int>, perMinute: nat, a: int, b: int)
    requires Times(ts) && |ts| > 0 && ts[|ts| - 1] < a
    ensures Admitted(ts, perMinute, a, b) == 0
  {
    if |ts| > 1 {
      NothingBefore(ts[..|ts| - 1], perMinute, a, b);
    }
  }

  /** The admissions of one IP in any interval of b - a nanoseconds: at most a burst and the refill. */
  lemma {:induction false} AdmissionRate(ts: seq<int>, perMinute: nat, a: int, b: int)
    requires Times(ts) && 0 <= a <= b
    ensures Admitted(ts, perMinute, a, b) * TOKEN <= Burst(perMinute) + (b - a) * perMinute
  {
    if |ts| > 0 && b < ts[|ts| - 1] {
      AdmissionRate(ts[..|ts| - 1], perMinute, a, b);
    } else {
      ReplayInRange(ts, perMinute);
      Conservation(ts, perMinute, a, b, b);
      LevelNonNegative(ts, b, perMinute);
    }
  }

  lemma LevelNonNegative(ts: seq<int>, now: int, perMinute: nat)
    requires Times(ts) && 0 <= now && (|ts| > 0 ==> ts[|ts| - 1] <= now)
    ensures 0 <= Level(Replay(ts, perMinute), now, perMinute)
  {
    ReplayInRange(ts, perMinute);
    RefillNonNegative(now - Replay(ts, perMinute).last, perMinute);
  }

  lemma {:induction false} AdmittedSoFar(ts: seq<int>, perMinute: nat, a: int, b: int, b': int)
    requires Times(ts) && (|ts| > 0 ==> ts[|ts| - 1] <= b && ts[|ts| - 1] <= b')
    ensures Admitted(ts, perMinute, a, b) == Admitted(ts, perMinute, a, b')
  {
    if |ts| > 0 {
      AdmittedSoFar(ts[..|ts| - 1], perMinute, a, b, b');
    }
  }

  /** A bucket that is not full now, or was looked at just now, has refilled without loss. */
  lemma NotCapped(b: Bucket, t: int, now: int, perMinute: nat)
    requires t <= now && (t == now || Level(b, now, perMinute) < Burst(perMinute))
    ensures Level(b, now, perMinute) == Level(b, t, perMinute) + (now - t) * perMinute
  {
    LevelAdvances(b, t, now, perMinute);
  }

  lemma AdmittedNext(ts: seq<int>, perMinute: nat, a: int, now: int)
    requires Times(ts) && |ts| > 0 && a <= ts[|ts| - 1] <= now
    ensures Admitted(ts, perMinute, a, now)
         == Admitted(ts[..|ts| - 1], perMinute, a, ts[|ts| - 1])
            + if Allows(Replay(ts[..|ts| - 1], perMinute), ts[|ts| - 1], perMinute) then 1 else 0
  {
    AdmittedSoFar(ts[..|ts| - 1], perMinute, a, ts[|ts| - 1], now);
  }

  /** The level, told by what has been admitted since moment a, at which the bucket was full. */
  ghost predicate PaidSince(ts: seq<int>, perMinute: nat, a: int, now: int) {
    Level(Replay(ts, perMinute), now, perMinute) + Admitted(ts, perMinute, a, now) * TOKEN
    == Burst(perMinute) + (now - a) * perMinute
  }

  lemma PaidOn(ts: seq<int>, perMinute: nat, a: int, now: int)
    requires Times(ts) && |ts| > 0 && a <= ts[|ts| - 1] <= now && PaidSince(ts[..|ts| - 1], perMinute, a, ts[|ts| - 1])
    requires ts[|ts| - 1] == now || Level(Replay(ts, perMinute), now, perMinute) < Burst(perMinute)
    ensures PaidSince(ts, perMinute, a, now)
  {
    var before, t := ts[..|ts| - 1], ts[|ts| - 1];
    NotCapped(Replay(ts, perMinute), t, now, perMinute);
    TakenLevel(Replay(before, perMinute), t, perMinute);
    AdmittedNext(ts, perMinute, a, now);
    RefillAdds(a, t, now, perMinute);
  }

  /** Nothing is lost: the level now is what a full bucket and the refill since some moment leave after the
      admissions since then. */
  lemma {:induction false} PaidInFull(ts: seq<int>, perMinute: nat, now: int) returns (a: int)
    requires Times(ts) && 0 <= now && (|ts| > 0 ==> ts[|ts| - 1] <= now)
    ensures 0 <= a <= now && PaidSince(ts, perMinute, a, now)
  {
    a := now;
    if |ts| == 0 {
      LevelOfRested(Replay(ts, perMinute), now, perMinute);
    } else if ts[|ts| - 1] < now && Level(Replay(ts, perMinute), now, perMinute) == Burst(perMinute) {
      NothingBefore(ts, perMinute, now, now);
    } else {
      a := PaidInFull(ts[..|ts| - 1], perMinute, ts[|ts| - 1]);
      PaidOn(ts, perMinute, a, now);
    }
  }

  lemma LevelOfRested(b: Bucket, now: int, perMinute: nat)
    requires b.level == Burst(perMinute) && b.last <= now
    ensures Level(b, now, perMinute) == Burst(perMinute)
  {
    RefillNonNegative(now - b.last, perMinute);
  }

  /** With request i, the admissions since any earlier moment are paid for by a burst of perMinute / 4 and
      the refill since that moment. */
  ghost predicate PaidFor(ts: seq<int>, i: nat, perMinute: nat)
    requires i < |ts|
  {
    forall a :: 0 <= a <= ts[i] ==>
      (Admitted(ts[..i], perMinute, a, ts[i]) + 1) * TOKEN <= perMinute / 4 * TOKEN + (ts[i] - a) * perMinute
  }

  /** The law of the bucket: a request is admitted if and only if it is paid for. */
  lemma AdmittedIff(ts: seq<int>, i: nat, perMinute: nat)
    requires Times(ts) && i < |ts|
    ensures Decision(ts, i, perMinute) <==> PaidFor(ts, i, perMinute)
  {
    var before, t := ts[..i], ts[i];
    if Decision(ts, i, perMinute) {
      forall a | 0 <= a <= t
        ensures (Admitted(before, perMinute, a, t) + 1) * TOKEN <= perMinute / 4 * TOKEN + (t - a) * perMinute
      {
        Conservation(before, perMinute, a, t, t);
      }
    } else {
      var a := PaidInFull(before, perMinute, t);
      assert (Admitted(before, perMinute, a, t) + 1) * TOKEN > perMinute / 4 * TOKEN + (t - a) * perMinute;
    }
  }

  /** In a minute: at most perMinute + perMinute / 4. */
  lemma AdmissionsPerMinute(ts: seq<int>, perMinute: nat, a: int)
    requires Times(ts) && 0 <= a
    ensures Admitted(ts, perMinute, a, a + 60 * SECOND) <= perMinute + perMinute / 4
  {
    AdmissionRate(ts, perMinute, a, a + 60 * SECOND);
  }

  /** The requests of a steady client come at least 60 / perMinute seconds apart. */
  ghost predicate Steady(ts: seq<int>, perMinute: nat) {
    forall i :: 0 < i < |ts| ==> (ts[i] - ts[i - 1]) * perMinute >= TOKEN
  }

  /** They are never refused. */
  lemma {:induction false} SteadyIsAdmitted(ts: seq<int>, perMinute: nat, i: nat)
    requires Times(ts) && Steady(ts, perMinute) && perMinute >= 4 && i < |ts|
    ensures Decision(ts, i, perMinute)
  {
    if i > 0 {
      var b := Replay(ts[..i], perMinute);
      assert ts[..i][..i - 1] == ts[..i - 1];
      ReplayInRange(ts[..i - 1], perMinute);
      SteadyIsAdmitted(ts, perMinute, i - 1);
      assert b.last == ts[i - 1] && b.level >= 0;
    }
  }
}

module TokenBucketMachine {
  import opened Common
  import opened TokenBuckets

  /** cleanup evicts visitors unseen for longer than this. */
  const IDLE := 600 * SECOND

  /** How long an empty bucket takes to fill up. */
  function RefillTime(perMinute: nat): nat
    requires perMinute > 0
  {
    (Burst(perMinute) + perMinute - 1) / perMinute
  }

  /** Below this rate a bucket holds no token and nothing is ever admitted. */
  const LEAST := 4

  /** How long after its look-up a request may call Allow for eviction to stay invisible. */
  function MaxWait(perMinute: nat): int
    requires perMinute >= LEAST
  {
    IDLE + 1 - RefillTime(perMinute)
  }

  /** A visitor evicted at the earliest moment has a full bucket after waits up to MaxWait, and not after
      longer ones.  No rate has a shorter wait than 585 s and a nanosecond. */
  lemma MaxWaitIsExact(perMinute: nat)
    requires perMinute >= LEAST
    ensures 585 * SECOND + 1 <= MaxWait(perMinute) <= IDLE
    ensures (IDLE + 1 - MaxWait(perMinute)) * perMinute >= Burst(perMinute)
    ensures (IDLE - MaxWait(perMinute)) * perMinute < Burst(perMinute)
  {
    CeilingIsExact(Burst(perMinute), perMinute);
    var fill := RefillTime(perMinute);
    assert Burst(perMinute) <= 15 * SECOND * perMinute;
    if fill > 15 * SECOND {
      RefillAdds(0, 15 * SECOND, fill - 1, perMinute);
      RefillNonNegative(fill - 1 - 15 * SECOND, perMinute);
      assert false;
    }
    assert Burst(perMinute) > 0;
  }

  lemma MaxWaitOfMultiples(perMinute: nat)
    requires perMinute >= LEAST && perMinute % 4 == 0
    ensures MaxWait(perMinute) == 585 * SECOND + 1
  {
    MaxWaitIsExact(perMinute);
    var fill := RefillTime(perMinute);
    if fill < 15 * SECOND {
      RefillAdds(0, fill, 15 * SECOND, perMinute);
      RefillNonNegative(15 * SECOND - fill - 1, perMinute);
      assert false;
    }
  }

  lemma CeilingIsExact(a: nat, b: nat)
    requires b > 0
    ensures var q := (a + b - 1) / b; (q - 1) * b < a <= q * b
  {
    var q := (a + b - 1) / b;
    assert a + b - 1 == q * b + (a + b - 1) % b;
  }

  /** `owner` is the IP the visitor was created for; the program does not store it. */
  datatype Visitor = Visitor(owner: string, bucket: Bucket, lastSeen: int)

  datatype Table = Table(heap: seq<Visitor>, visitors: map<string, nat>)

  predicate WellFormed(t: Table) {
    forall ip :: ip in t.visitors ==> t.visitors[ip] < |t.heap| && t.heap[t.visitors[ip]].owner == ip
  }

  /** The visitor of ip, created with a full bucket if need be, is seen now. */
  function Seen(t: Table, ip: string, now: int, perMinute: nat): Table
    requires WellFormed(t)
  {
    if ip in t.visitors then
      var i := t.visitors[ip];
      t.(heap := t.heap[i := t.heap[i].(lastSeen := now)])
    else
      Table(t.heap + [Visitor(ip, Full(perMinute, now), now)], t.visitors[ip := |t.heap|])
  }

  /** The bucket of visitor i, in the map or evicted, after a call of Allow. */
  function TakenFrom(t: Table, i: nat, now: int, perMinute: nat): Table
    requires i < |t.heap|
  {
    t.(heap := t.heap[i := t.heap[i].(bucket := Taken(t.heap[i].bucket, now, perMinute))])
  }

  predicate Stale(t: Table, ip: string, now: int)
    requires WellFormed(t) && ip in t.visitors
  {
    now - t.heap[t.visitors[ip]].lastSeen > IDLE
  }

  /** One iteration of the loop in cleanup. */
  function Evicted(t: Table, ip: string, now: int): Table
    requires WellFormed(t) && ip in t.visitors
  {
    if Stale(t, ip, now) then t.(visitors := t.visitors - {ip}) else t
  }

  /** A whole cleanup with nothing in between its iterations. */
  function CleanedUp(t: Table, now: int): Table
    requires WellFormed(t)
  {
    t.(visitors := map ip | ip in t.visitors && !Stale(t, ip, now) :: t.visitors[ip])
  }

  /** A cleanup of t that still has the visitors `todo` to look at. */
  ghost predicate CleanedSoFar(t: Table, t': Table, todo: set<string>, now: int)
    requires WellFormed(t)
  {
    && t'.heap == t.heap
    && t'.visitors == map ip | ip in t.visitors && (ip in todo || !Stale(t, ip, now)) :: t.visitors[ip]
  }

  lemma CleanupStart(t: Table, now: int)
    requires WellFormed(t)
    ensures CleanedSoFar(t, t, t.visitors.Keys, now)
  {
  }

  lemma CleanupProgress(t: Table, t': Table, todo: set<string>, ip: string, now: int)
    requires WellFormed(t) && WellFormed(t') && CleanedSoFar(t, t', todo, now)
    requires ip in todo && todo <= t'.visitors.Keys
    ensures CleanedSoFar(t, Evicted(t', ip, now), todo - {ip}, now)
    ensures todo - {ip} <= Evicted(t', ip, now).visitors.Keys
  {
  }

  lemma CleanupEnd(t: Table, t': Table, now: int)
    requires WellFormed(t) && CleanedSoFar(t, t', {}, now)
    ensures t' == CleanedUp(t, now)
  {
  }

  /** A request between getLimiter and Allow; it holds the bucket, evicted or not. */
  datatype Pending = Pending(ip: string, entry: nat, at: int)

  /** A finished request; it called Allow at `at`, `waited` after its look-up. */
  datatype Call = Call(ip: string, at: int, waited: int, ok: bool)

  datatype State = State(clock: int, table: Table, next: nat, pending: map<nat, Pending>, calls: seq<Call>)

  /** Evict is one iteration of the loop in cleanup.  Letting other steps come between two iterations
      allows more runs than the program has. */
  datatype Event = Tick(now: int) | GetLimiter(ip: string) | Allow(req: nat) | Evict(visitor: string)

  function Init(start: nat): State {
    State(start, Table([], map[]), 0, map[], [])
  }

  predicate Sane(s: State) {
    && WellFormed(s.table)
    && forall r :: r in s.pending ==>
         r < s.next && s.pending[r].entry < |s.table.heap| &&
         s.table.heap[s.pending[r].entry].owner == s.pending[r].ip
  }

  predicate Enabled(s: State, e: Event)
    requires Sane(s)
  {
    match e
    case Tick(now) => s.clock <= now
    case GetLimiter(_) => true
    case Allow(req) => req in s.pending
    case Evict(ip) => ip in s.table.visitors && Stale(s.table, ip, s.clock)
  }

  function Step(s: State, e: Event, perMinute: nat): (s': State)
    requires Sane(s) && Enabled(s, e)
    ensures Sane(s')
  {
    match e
    case Tick(now) => s.(clock := now)
    case GetLimiter(ip) =>
      var t := Seen(s.table, ip, s.clock, perMinute);
      s.(table := t, next := s.next + 1, pending := s.pending[s.next := Pending(ip, t.visitors[ip], s.clock)])
    case Allow(req) =>
      var p := s.pending[req];
      var ok := Allows(s.table.heap[p.entry].bucket, s.clock, perMinute);
      s.(table := TakenFrom(s.table, p.entry, s.clock, perMinute),
         pending := s.pending - {req},
         calls := s.calls + [Call(p.ip, s.clock, s.clock - p.at, ok)])
    case Evict(ip) => s.(table := Evicted(s.table, ip, s.clock))
  }

  /** The state after a run; None if some event of it was not enabled. */
  function Exec(start: nat, evs: seq<Event>, perMinute: nat): (r: Option<State>)
    ensures r.Some? ==> Sane(r.value)
  {
    if |evs| == 0 then Some(Init(start))
    else
      var before := Exec(start, evs[..|evs| - 1], perMinute);
      if before.Some? && Enabled(before.value, evs[|evs| - 1])
      then Some(Step(before.value, evs[|evs| - 1], perMinute))
      else None
  }

  /** Soon enough after the look-up. */
  predicate SoonEnough(waited: int, perMinute: nat) {
    perMinute >= LEAST ==> waited <= MaxWait(perMinute)
  }

  /** Every request called Allow soon enough. */
  predicate Prompt(calls: seq<Call>, perMinute: nat) {
    forall c :: c in calls ==> SoonEnough(c.waited, perMinute)
  }

  function CallTimes(calls: seq<Call>, ip: string): seq<int> {
    if |calls| == 0 then []
    else
      var c, before := calls[|calls| - 1], CallTimes(calls[..|calls| - 1], ip);
      if c.ip == ip then before + [c.at] else before
  }

  function CallDecisions(calls: seq<Call>, ip: string): seq<bool> {
    if |calls| == 0 then []
    else
      var c, before := calls[|calls| - 1], CallDecisions(calls[..|calls| - 1], ip);
      if c.ip == ip then before + [c.ok] else before
  }

  // Invariants.

  /** A visitor's bucket is taken from only for a while after the visitor was last seen. */
  ghost predicate VisitorOk(v: Visitor, clock: int, perMinute: nat) {
    0 <= v.bucket.level && v.bucket.last <= clock && v.lastSeen <= clock && SoonEnough(v.bucket.last - v.lastSeen, perMinute)
  }

  /** A request that is still in time holds the bucket in the map. */
  ghost predicate HoldsLive(s: State, p: Pending)
    requires Sane(s)
  {
    p.ip in s.table.visitors && s.table.visitors[p.ip] == p.entry
  }

  ghost predicate InTime(s: State, perMinute: nat)
    requires Sane(s)
  {
    && 0 <= s.clock
    && (forall i :: 0 <= i < |s.table.heap| ==> VisitorOk(s.table.heap[i], s.clock, perMinute))
    && (forall r :: r in s.pending ==> s.pending[r].at <= s.table.heap[s.pending[r].entry].lastSeen)
    && (forall r :: r in s.pending && perMinute >= LEAST && SoonEnough(s.clock - s.pending[r].at, perMinute) ==>
          HoldsLive(s, s.pending[r]))
  }

  lemma InTimeAllow(s: State, req: nat, perMinute: nat)
    requires Sane(s) && Enabled(s, Allow(req)) && InTime(s, perMinute) && SoonEnough(s.clock - s.pending[req].at, perMinute)
    ensures InTime(Step(s, Allow(req), perMinute), perMinute)
  {
    TakenInRange(s.table.heap[s.pending[req].entry].bucket, s.clock, perMinute);
  }

  lemma InTimeGetLimiter(s: State, ip: string, perMinute: nat)
    requires Sane(s) && InTime(s, perMinute)
    ensures InTime(Step(s, GetLimiter(ip), perMinute), perMinute)
  {
    WaitBounds(perMinute);
    var s' := Step(s, GetLimiter(ip), perMinute);
    forall i | 0 <= i < |s'.table.heap| ensures VisitorOk(s'.table.heap[i], s'.clock, perMinute) {
      if i < |s.table.heap| {
        assert VisitorOk(s.table.heap[i], s.clock, perMinute);
      }
    }
  }

  /** The visitor that is evicted has not been seen for so long that no request in time holds it. */
  lemma InTimeEvict(s: State, ip: string, perMinute: nat)
    requires Sane(s) && Enabled(s, Evict(ip)) && InTime(s, perMinute)
    ensures InTime(Step(s, Evict(ip), perMinute), perMinute)
  {
    WaitBounds(perMinute);
  }

  lemma InTimeTick(s: State, now: int, perMinute: nat)
    requires Sane(s) && s.clock <= now && InTime(s, perMinute)
    ensures InTime(s.(clock := now), perMinute)
  {
  }

  lemma WaitBounds(perMinute: nat)
    ensures SoonEnough(0, perMinute)
    ensures perMinute >= LEAST ==> !SoonEnough(IDLE + 1, perMinute)
  {
    if perMinute >= LEAST {
      MaxWaitIsExact(perMinute);
    }
  }

  lemma InTimeStep(s: State, e: Event, perMinute: nat)
    requires Sane(s) && Enabled(s, e) && InTime(s, perMinute)
    requires e.Allow? ==> SoonEnough(s.clock - s.pending[e.req].at, perMinute)
    ensures InTime(Step(s, e, perMinute), perMinute)
  {
    match e
    case Allow(req) => InTimeAllow(s, req, perMinute);
    case GetLimiter(ip) => InTimeGetLimiter(s, ip, perMinute);
    case Evict(ip) => InTimeEvict(s, ip, perMinute);
    case Tick(now) => InTimeTick(s, now, perMinute);
  }

  lemma TakenInRange(b: Bucket, now: int, perMinute: nat)
    requires 0 <= b.level
    ensures 0 <= Taken(b, now, perMinute).level && (Taken(b, now, perMinute) == b || Taken(b, now, perMinute).last == now)
  {
  }

  /** The calls of one IP so far. */
  ghost predicate History(ts: seq<int>, oks: seq<bool>, clock: int, perMinute: nat) {
    Times(ts) && (|ts| > 0 ==> ts[|ts| - 1] <= clock) && oks == Decisions(ts, perMinute)
  }

  /** The bucket of the IP, or the full one it would be given. */
  function BucketOf(s: State, ip: string, perMinute: nat): Bucket
    requires Sane(s)
  {
    if ip in s.table.visitors then s.table.heap[s.table.visitors[ip]].bucket else Full(perMinute, s.clock)
  }

  /** Its level is that of the bucket that is never evicted. */
  ghost predicate SameLevel(s: State, ip: string, ts: seq<int>, perMinute: nat)
    requires Sane(s)
  {
    Level(Replay(ts, perMinute), s.clock, perMinute) == Level(BucketOf(s, ip, perMinute), s.clock, perMinute)
  }

  ghost predicate Refines(s: State, ip: string, perMinute: nat)
    requires Sane(s)
  {
    && History(CallTimes(s.calls, ip), CallDecisions(s.calls, ip), s.clock, perMinute)
    && SameLevel(s, ip, CallTimes(s.calls, ip), perMinute)
  }

  lemma CallsSnoc(calls: seq<Call>, c: Call, ip: string)
    ensures CallTimes(calls + [c], ip) ==
            (if c.ip == ip then CallTimes(calls, ip) + [c.at] else CallTimes(calls, ip))
    ensures CallDecisions(calls + [c], ip) ==
            (if c.ip == ip then CallDecisions(calls, ip) + [c.ok] else CallDecisions(calls, ip))
  {
    assert (calls + [c])[..|calls|] == calls;
  }

  /** Two buckets of the same level decide alike and stay at the same level. */
  lemma SameLevelSnoc(b: Bucket, ts: seq<int>, oks: seq<bool>, clock: int, perMinute: nat)
    requires History(ts, oks, clock, perMinute) && 0 <= clock
    requires Level(Replay(ts, perMinute), clock, perMinute) == Level(b, clock, perMinute)
    ensures History(ts + [clock], oks + [Allows(b, clock, perMinute)], clock, perMinute)
    ensures Level(Replay(ts + [clock], perMinute), clock, perMinute)
         == Level(Taken(b, clock, perMinute), clock, perMinute)
  {
    assert (ts + [clock])[..|ts|] == ts;
    TakenLevel(b, clock, perMinute);
    TakenLevel(Replay(ts, perMinute), clock, perMinute);
  }

  /** A call that takes from the bucket of its IP. */
  lemma RefinesCall(s: State, s': State, c: Call, perMinute: nat)
    requires Sane(s) && Sane(s') && Refines(s, c.ip, perMinute) && 0 <= s.clock
    requires s'.clock == s.clock == c.at && s'.calls == s.calls + [c]
    requires c.ok == Allows(BucketOf(s, c.ip, perMinute), s.clock, perMinute)
    requires BucketOf(s', c.ip, perMinute) == Taken(BucketOf(s, c.ip, perMinute), s.clock, perMinute)
    ensures Refines(s', c.ip, perMinute)
  {
    CallsSnoc(s.calls, c, c.ip);
    SameLevelSnoc(BucketOf(s, c.ip, perMinute), CallTimes(s.calls, c.ip), CallDecisions(s.calls, c.ip), s.clock, perMinute);
  }

  lemma RefinesAllowMine(s: State, req: nat, perMinute: nat)
    requires Sane(s) && Enabled(s, Allow(req)) && HoldsLive(s, s.pending[req]) && 0 <= s.clock
    requires Refines(s, s.pending[req].ip, perMinute)
    ensures Refines(Step(s, Allow(req), perMinute), s.pending[req].ip, perMinute)
  {
    var s' := Step(s, Allow(req), perMinute);
    RefinesCall(s, s', s'.calls[|s.calls|], perMinute);
  }

  /** Below the least rate every request is refused, whichever bucket it holds. */
  lemma NeverAllows(b: Bucket, now: int, perMinute: nat)
    requires perMinute < LEAST
    ensures !Allows(b, now, perMinute)
  {
    assert perMinute / 4 == 0;
  }

  lemma NothingTaken(s: State, req: nat, perMinute: nat)
    requires Sane(s) && Enabled(s, Allow(req)) && perMinute < LEAST
    ensures var s', p := Step(s, Allow(req), perMinute), s.pending[req];
            s'.table == s.table && s'.calls == s.calls + [Call(p.ip, s.clock, s.clock - p.at, false)]
  {
    NeverAllows(s.table.heap[s.pending[req].entry].bucket, s.clock, perMinute);
  }

  lemma RefinesAllowDry(s: State, req: nat, perMinute: nat)
    requires Sane(s) && Enabled(s, Allow(req)) && perMinute < LEAST && 0 <= s.clock
    requires Refines(s, s.pending[req].ip, perMinute)
    ensures Refines(Step(s, Allow(req), perMinute), s.pending[req].ip, perMinute)
  {
    var s', p := Step(s, Allow(req), perMinute), s.pending[req];
    NothingTaken(s, req, perMinute);
    NeverAllows(BucketOf(s, p.ip, perMinute), s.clock, perMinute);
    RefinesCall(s, s', s'.calls[|s.calls|], perMinute);
  }

  lemma RefinesAllowOther(s: State, req: nat, ip: string, perMinute: nat)
    requires Sane(s) && Enabled(s, Allow(req)) && Refines(s, ip, perMinute) && s.pending[req].ip != ip
    ensures Refines(Step(s, Allow(req), perMinute), ip, perMinute)
  {
    var s' := Step(s, Allow(req), perMinute);
    CallsSnoc(s.calls, s'.calls[|s.calls|], ip);
    assert ip in s.table.visitors ==> s.table.visitors[ip] != s.pending[req].entry;
  }

  lemma RefinesTick(s: State, now: int, ip: string, perMinute: nat)
    requires Sane(s) && s.clock <= now && Refines(s, ip, perMinute)
    ensures Refines(s.(clock := now), ip, perMinute)
  {
    LevelAdvances(Replay(CallTimes(s.calls, ip), perMinute), s.clock, now, perMinute);
    RefillNonNegative(now - s.clock, perMinute);
    LevelAdvances(BucketOf(s, ip, perMinute), s.clock, now, perMinute);
    LevelOfFull(s.clock, perMinute);
    LevelOfFull(now, perMinute);
  }

  /** An idle visitor's bucket has had time to fill up. */
  lemma FullWhenIdle(v: Visitor, clock: int, perMinute: nat)
    requires VisitorOk(v, clock, perMinute) && clock - v.lastSeen > IDLE
    ensures Level(v.bucket, clock, perMinute) == Burst(perMinute)
  {
    var elapsed := clock - v.bucket.last;
    if perMinute < LEAST {
      RefillNonNegative(elapsed, perMinute);
      assert perMinute / 4 == 0;
    } else {
      MaxWaitIsExact(perMinute);
      RefillAdds(0, IDLE + 1 - MaxWait(perMinute), elapsed, perMinute);
      RefillNonNegative(elapsed - (IDLE + 1 - MaxWait(perMinute)), perMinute);
    }
  }

  lemma RefinesEvict(s: State, evicted: string, ip: string, perMinute: nat)
    requires Sane(s) && Enabled(s, Evict(evicted)) && Refines(s, ip, perMinute) && InTime(s, perMinute)
    ensures Refines(Step(s, Evict(evicted), perMinute), ip, perMinute)
  {
    FullWhenIdle(s.table.heap[s.table.visitors[evicted]], s.clock, perMinute);
    LevelOfFull(s.clock, perMinute);
  }

  lemma RefinesStep(s: State, e: Event, ip: string, perMinute: nat)
    requires Sane(s) && Enabled(s, e) && Refines(s, ip, perMinute) && InTime(s, perMinute)
    requires e.Allow? ==> SoonEnough(s.clock - s.pending[e.req].at, perMinute)
    ensures Refines(Step(s, e, perMinute), ip, perMinute)
  {
    match e
    case Tick(now) => RefinesTick(s, now, ip, perMinute);
    case Allow(req) =>
      if s.pending[req].ip == ip && perMinute < LEAST {
        RefinesAllowDry(s, req, perMinute);
      } else if s.pending[req].ip == ip {
        RefinesAllowMine(s, req, perMinute);
      } else {
        RefinesAllowOther(s, req, ip, perMinute);
      }
    case Evict(evicted) => RefinesEvict(s, evicted, ip, perMinute);
    case GetLimiter(_) => LevelOfFull(s.clock, perMinute);
  }

  lemma LevelOfFull(now: int, perMinute: nat)
    ensures Level(Full(perMinute, now), now, perMinute) == Burst(perMinute)
  {
  }

  lemma CallOfAllow(s: State, e: Event, perMinute: nat)
    requires Sane(s) && Enabled(s, e) && Prompt(Step(s, e, perMinute).calls, perMinute)
    ensures Prompt(s.calls, perMinute) && (e.Allow? ==> SoonEnough(s.clock - s.pending[e.req].at, perMinute))
  {
    var calls := Step(s, e, perMinute).calls;
    assert s.calls <= calls;
    if e.Allow? {
      assert SoonEnough(calls[|s.calls|].waited, perMinute);
    }
  }

  /** In every prompt run, whatever cleanup does, the decisions for an IP are those of one bucket that
      is never evicted, replayed over the times of that IP alone. */
  lemma {:induction false} DecisionsAreReplayed(start: nat, evs: seq<Event>, ip: string, perMinute: nat)
    requires Exec(start, evs, perMinute).Some? && Prompt(Exec(start, evs, perMinute).value.calls, perMinute)
    ensures InTime(Exec(start, evs, perMinute).value, perMinute)
    ensures Refines(Exec(start, evs, perMinute).value, ip, perMinute)
  {
    if |evs| > 0 {
      var s, e := Exec(start, evs[..|evs| - 1], perMinute).value, evs[|evs| - 1];
      CallOfAllow(s, e, perMinute);
      DecisionsAreReplayed(start, evs[..|evs| - 1], ip, perMinute);
      InTimeStep(s, e, perMinute);
      RefinesStep(s, e, ip, perMinute);
    }
  }

  // Eviction is unobservable.

  /** The same run with cleanup never firing. */
  function WithoutEvict(evs: seq<Event>): seq<Event> {
    if |evs| == 0 then []
    else
      var e, before := evs[|evs| - 1], WithoutEvict(evs[..|evs| - 1]);
      if e.Evict? then before else before + [e]
  }

  /** Equal up to the contents of the tables. */
  ghost predicate SameRequests(s: State, s': State) {
    && s.clock == s'.clock && s.next == s'.next && s.calls == s'.calls
    && s.pending.Keys == s'.pending.Keys
    && forall r :: r in s.pending ==>
         s.pending[r].ip == s'.pending[r].ip && s.pending[r].at == s'.pending[r].at
  }

  lemma SameRequestsAllow(s: State, s': State, req: nat, perMinute: nat)
    requires Sane(s) && Sane(s') && SameRequests(s, s') && Enabled(s, Allow(req))
    requires Allows(s.table.heap[s.pending[req].entry].bucket, s.clock, perMinute) <==>
             Allows(s'.table.heap[s'.pending[req].entry].bucket, s.clock, perMinute)
    ensures SameRequests(Step(s, Allow(req), perMinute), Step(s', Allow(req), perMinute))
  {
  }

  lemma SameRequestsStep(s: State, s': State, e: Event, perMinute: nat)
    requires Sane(s) && Sane(s') && SameRequests(s, s') && Enabled(s, e) && !e.Evict?
    requires e.Allow? ==>
               (Allows(s.table.heap[s.pending[e.req].entry].bucket, s.clock, perMinute) <==>
                Allows(s'.table.heap[s'.pending[e.req].entry].bucket, s.clock, perMinute))
    ensures Enabled(s', e) && SameRequests(Step(s, e, perMinute), Step(s', e, perMinute))
  {
    if e.Allow? {
      SameRequestsAllow(s, s', e.req, perMinute);
    }
  }

  lemma {:induction false} EvictionUnobservable(start: nat, evs: seq<Event>, perMinute: nat)
    requires Exec(start, evs, perMinute).Some? && Prompt(Exec(start, evs, perMinute).value.calls, perMinute)
    ensures Exec(start, WithoutEvict(evs), perMinute).Some?
    ensures SameRequests(Exec(start, evs, perMinute).value, Exec(start, WithoutEvict(evs), perMinute).value)
  {
    if |evs| > 0 {
      var before, e := evs[..|evs| - 1], evs[|evs| - 1];
      var s := Exec(start, before, perMinute).value;
      CallOfAllow(s, e, perMinute);
      EvictionUnobservable(start, before, perMinute);
      if !e.Evict? {
        if e.Allow? {
          SameDecision(start, before, e.req, perMinute);
        }
        var s' := Exec(start, WithoutEvict(before), perMinute).value;
        SameRequestsStep(s, s', e, perMinute);
        ExecSnoc(start, WithoutEvict(before), e, perMinute);
      }
    }
  }

  lemma ExecSnoc(start: nat, evs: seq<Event>, e: Event, perMinute: nat)
    requires Exec(start, evs, perMinute).Some? && Enabled(Exec(start, evs, perMinute).value, e)
    ensures Exec(start, evs + [e], perMinute) == Some(Step(Exec(start, evs, perMinute).value, e, perMinute))
  {
    assert (evs + [e])[..|evs|] == evs;
  }

  lemma SameDecision(start: nat, evs: seq<Event>, req: nat, perMinute: nat)
    requires Exec(start, evs, perMinute).Some? && Exec(start, WithoutEvict(evs), perMinute).Some?
    requires var s, s' := Exec(start, evs, perMinute).value, Exec(start, WithoutEvict(evs), perMinute).value;
             Prompt(s.calls, perMinute) && SameRequests(s, s') && req in s.pending && SoonEnough(s.clock - s.pending[req].at, perMinute)
    ensures var s, s' := Exec(start, evs, perMinute).value, Exec(start, WithoutEvict(evs), perMinute).value;
            (Allows(s.table.heap[s.pending[req].entry].bucket, s.clock, perMinute) <==>
             Allows(s'.table.heap[s'.pending[req].entry].bucket, s.clock, perMinute))
  {
    var s, s' := Exec(start, evs, perMinute).value, Exec(start, WithoutEvict(evs), perMinute).value;
    if perMinute < LEAST {
      NeverAllows(s.table.heap[s.pending[req].entry].bucket, s.clock, perMinute);
      NeverAllows(s'.table.heap[s'.pending[req].entry].bucket, s.clock, perMinute);
    } else {
      DecisionsAreReplayed(start, evs, s.pending[req].ip, perMinute);
      DecisionsAreReplayed(start, WithoutEvict(evs), s.pending[req].ip, perMinute);
      assert HoldsLive(s, s.pending[req]) && HoldsLive(s', s'.pending[req]);
    }
  }

  /** The number of requests of ip admitted in [a, b]. */
  function Admissions(calls: seq<Call>, ip: string, a: int, b: int): nat {
    if |calls| == 0 then 0
    else
      var c := calls[|calls| - 1];
      Admissions(calls[..|calls| - 1], ip, a, b) + if c.ip == ip && c.ok && a <= c.at <= b then 1 else 0
  }

  lemma ReplaySnoc(ts: seq<int>, t: int, perMinute: nat, a: int, b: int)
    ensures var ok := Decision(ts + [t], |ts|, perMinute);
            && Decisions(ts + [t], perMinute) == Decisions(ts, perMinute) + [ok]
            && Admitted(ts + [t], perMinute, a, b) == Admitted(ts, perMinute, a, b) + if a <= t <= b && ok then 1 else 0
  {
    assert (ts + [t])[..|ts|] == ts;
  }

  lemma SnocInjective<T>(xs: seq<T>, x: T, ys: seq<T>, y: T)
    requires xs + [x] == ys + [y]
    ensures xs == ys && x == y
  {
    assert |xs + [x]| == |ys + [y]|;
    assert (xs + [x])[..|xs|] == xs && (ys + [y])[..|xs|] == ys;
    assert (xs + [x])[|xs|] == x && (ys + [y])[|xs|] == y;
  }

  lemma {:induction false} AdmissionsReplayed(calls: seq<Call>, ip: string, a: int, b: int, perMinute: nat)
    requires CallDecisions(calls, ip) == Decisions(CallTimes(calls, ip), perMinute)
    ensures Admissions(calls, ip, a, b) == Admitted(CallTimes(calls, ip), perMinute, a, b)
  {
    if |calls| > 0 {
      var before, c := calls[..|calls| - 1], calls[|calls| - 1];
      var ts := CallTimes(before, ip);
      if c.ip == ip {
        ReplaySnoc(ts, c.at, perMinute, a, b);
        SnocInjective(CallDecisions(before, ip), c.ok, Decisions(ts, perMinute), Decision(ts + [c.at], |ts|, perMinute));
      }
      AdmissionsReplayed(before, ip, a, b, perMinute);
    }
  }

  /** Through evictions, and whatever other IPs do, the admissions of one IP in any interval of b - a
      nanoseconds are at most perMinute / 4 + perMinute * (b - a) / 60 s. */
  lemma AdmissionsBounded(start: nat, evs: seq<Event>, ip: string, a: nat, b: int, perMinute: nat)
    requires Exec(start, evs, perMinute).Some? && Prompt(Exec(start, evs, perMinute).value.calls, perMinute) && a <= b
    ensures var n := Admissions(Exec(start, evs, perMinute).value.calls, ip, a, b);
            && n * TOKEN <= perMinute / 4 * TOKEN + perMinute * (b - a)
            && (b == a + 60 * SECOND ==> n <= perMinute + perMinute / 4)
  {
    var calls := Exec(start, evs, perMinute).value.calls;
    DecisionsAreReplayed(start, evs, ip, perMinute);
    AdmissionsReplayed(calls, ip, a, b, perMinute);
    AdmissionRate(CallTimes(calls, ip), perMinute, a, b);
    AdmissionsPerMinute(CallTimes(calls, ip), perMinute, a);
  }

  lemma {:induction false} DecisionsAt(ts: seq<int>, i: nat, perMinute: nat)
    requires i < |ts|
    ensures Decisions(ts, perMinute)[i] == Decision(ts, i, perMinute)
  {
    if i < |ts| - 1 {
      DecisionsAt(ts[..|ts| - 1], i, perMinute);
      assert ts[..|ts| - 1][..i] == ts[..i];
    }
  }

  /** The i-th call of an IP is admitted if and only if with it, the admissions of that IP since any earlier
      moment are paid for by a burst and the refill since; through evictions, and whatever other IPs do. */
  lemma CallAdmittedIff(start: nat, evs: seq<Event>, ip: string, i: nat, perMinute: nat)
    requires Exec(start, evs, perMinute).Some? && Prompt(Exec(start, evs, perMinute).value.calls, perMinute)
    requires i < |CallTimes(Exec(start, evs, perMinute).value.calls, ip)|
    ensures var calls := Exec(start, evs, perMinute).value.calls;
            var ts, oks := CallTimes(calls, ip), CallDecisions(calls, ip);
            && |oks| == |ts|
            && (oks[i] <==> PaidFor(ts, i, perMinute))
  {
    DecisionsAreReplayed(start, evs, ip, perMinute);
    var ts := CallTimes(Exec(start, evs, perMinute).value.calls, ip);
    DecisionsAt(ts, i, perMinute);
    AdmittedIff(ts, i, perMinute);
  }

  /** A client whose calls are at least 60 / perMinute seconds apart is admitted every time. */
  lemma SteadyClientAdmitted(start: nat, evs: seq<Event>, ip: string, perMinute: nat)
    requires Exec(start, evs, perMinute).Some? && Prompt(Exec(start, evs, perMinute).value.calls, perMinute)
    requires perMinute >= 4 && Steady(CallTimes(Exec(start, evs, perMinute).value.calls, ip), perMinute)
    ensures forall ok :: ok in CallDecisions(Exec(start, evs, perMinute).value.calls, ip) ==> ok
  {
    DecisionsAreReplayed(start, evs, ip, perMinute);
    AllAdmitted(CallTimes(Exec(start, evs, perMinute).value.calls, ip), perMinute);
  }

  lemma {:induction false} AllAdmitted(ts: seq<int>, perMinute: nat)
    requires Times(ts) && Steady(ts, perMinute) && perMinute >= 4
    ensures forall ok :: ok in Decisions(ts, perMinute) ==> ok
  {
    if |ts| > 0 {
      AllAdmitted(ts[..|ts| - 1], perMinute);
      SteadyIsAdmitted(ts, perMinute, |ts| - 1);
    }
  }
}
