/**
 The fixed-window limiter of cmd/server/middleware.go.

 `allow` takes two locks one after the other: it looks the entry of an IP up under the map lock,
 lets go of it, and counts under the lock of the entry.  The sweeper deletes expired entries in
 between, so a request may count on an entry that has left the map.  The machine below interleaves
 these steps; GreedyWindows says what the limiter is for.
 */
module GreedyWindows {
  import opened Common

  datatype Config = Config(max: int, window: nat)

  ghost predicate NonDecreasing(ts: seq<int>) {
    forall i, j :: 0 <= i <= j < |ts| ==> ts[i] <= ts[j]
  }

  /** The request that opened the window in which request i falls: a window is opened by the first
      request that arrives strictly after the previous window has run out. */
  function Opener(ts: seq<int>, i: nat, window: nat): (r: nat)
    requires i < |ts|
    ensures r <= i
  {
    if i == 0 then 0
    else
      var p := Opener(ts, i - 1, window);
      if ts[i] > ts[p] + window then i else p
  }

  /** Exactly the first `max` requests of each window are admitted. */
  predicate Admits(ts: seq<int>, i: nat, cfg: Config)
    requires i < |ts|
  {
    i - Opener(ts, i, cfg.window) < cfg.max
  }

  function Decisions(ts: seq<int>, cfg: Config): (r: seq<bool>)
    ensures |r| == |ts|
  {
    seq(|ts|, i requires 0 <= i < |ts| => Admits(ts, i, cfg))
  }

  /** Later requests do not change earlier decisions. */
  lemma {:induction false} OpenerStable(ts: seq<int>, t: int, i: nat, window: nat)
    requires i < |ts|
    ensures Opener(ts + [t], i, window) == Opener(ts, i, window)
  {
    if i > 0 {
      OpenerStable(ts, t, i - 1, window);
    }
  }

  lemma {:induction false} DecisionsSnoc(ts: seq<int>, t: int, cfg: Config)
    ensures Decisions(ts + [t], cfg) == Decisions(ts, cfg) + [Admits(ts + [t], |ts|, cfg)]
  {
    forall i | 0 <= i < |ts| ensures Admits(ts + [t], i, cfg) == Admits(ts, i, cfg) {
      OpenerStable(ts, t, i, cfg.window);
    }
  }

  /** The opener opened its own window. */
  lemma {:induction false} OpenerIdempotent(ts: seq<int>, i: nat, window: nat)
    requires i < |ts|
    ensures Opener(ts, Opener(ts, i, window), window) == Opener(ts, i, window)
  {
    if i > 0 {
      OpenerIdempotent(ts, i - 1, window);
    }
  }

  lemma {:induction false} OpenerMonotone(ts: seq<int>, i: nat, j: nat, window: nat)
    requires i <= j < |ts|
    ensures Opener(ts, i, window) <= Opener(ts, j, window)
    decreases j
  {
    if i < j {
      OpenerMonotone(ts, i, j - 1, window);
    }
  }

  /** The key fact: two windows of one IP start more than `window` apart. */
  lemma {:induction false} WindowStartsApart(ts: seq<int>, i: nat, j: nat, window: nat)
    requires i <= j < |ts| && NonDecreasing(ts)
    requires Opener(ts, i, window) != Opener(ts, j, window)
    ensures ts[Opener(ts, i, window)] + window < ts[Opener(ts, j, window)]
    decreases j
  {
    if Opener(ts, i, window) != Opener(ts, j - 1, window) {
      WindowStartsApart(ts, i, j - 1, window);
      OpenerMonotone(ts, j - 1, j, window);
    }
  }

  /** The requests admitted in the closed interval [a, a + window]. */
  function AdmittedIn(ts: seq<int>, cfg: Config, a: int): set<int> {
    set i | 0 <= i < |ts| && a <= ts[i] <= a + cfg.window && Admits(ts, i, cfg)
  }

  function Bound(max: int): nat {
    if max <= 0 then 0 else 2 * max - 1
  }

  /** A request between an opener and a later request of its window is in that window too. */
  lemma SameWindow(ts: seq<int>, s: nat, i: nat, j: nat, window: nat)
    requires NonDecreasing(ts) && j < |ts| && s == Opener(ts, j, window) && s <= i <= j
    ensures Opener(ts, i, window) == s
  {
    OpenerIdempotent(ts, j, window);
    OpenerMonotone(ts, s, i, window);
    OpenerMonotone(ts, i, j, window);
  }

  /** A request of the interval [a, a + window] that precedes the opener s of the interval's last
      request falls in the window just before s, and comes after the opener of that window. */
  lemma EarlierWindow(ts: seq<int>, window: nat, a: int, i: nat, s: nat)
    requires NonDecreasing(ts) && i < s < |ts| && Opener(ts, s, window) == s
    requires a <= ts[i] && ts[s] <= a + window
    ensures Opener(ts, s - 1, window) == Opener(ts, i, window) < i
  {
    var p := Opener(ts, s - 1, window);
    OpenerIdempotent(ts, s - 1, window);
    WindowStartsApart(ts, s - 1, s, window);
    SameWindow(ts, p, i, s - 1, window);
  }

  /** The indices that may hold the admitted requests of an interval whose last request falls in the
      window opened by s: at most `max` from that window, one less from the window before. */
  function Candidates(ts: seq<int>, cfg: Config, s: nat): (r: set<int>)
    requires s < |ts|
    ensures |r| <= Bound(cfg.max)
  {
    EarlierCandidates(ts, cfg, s) + Range(s, s + cfg.max)
  }

  function EarlierCandidates(ts: seq<int>, cfg: Config, s: nat): (r: set<int>)
    requires s < |ts|
    ensures |r| <= Max(0, cfg.max - 1)
  {
    if s == 0 then {} else
      var p := Opener(ts, s - 1, cfg.window); Range(p + 1, p + cfg.max)
  }

  lemma InLastWindow(ts: seq<int>, cfg: Config, s: nat, i: int)
    requires s < |ts| && s <= i < s + cfg.max
    ensures i in Candidates(ts, cfg, s)
  {
    assert i in Range(s, s + cfg.max);
  }

  lemma InEarlierWindow(ts: seq<int>, cfg: Config, s: nat, i: int)
    requires 0 < s < |ts| && 0 < i - Opener(ts, s - 1, cfg.window) < cfg.max
    ensures i in Candidates(ts, cfg, s)
  {
    var p := Opener(ts, s - 1, cfg.window);
    assert i in Range(p + 1, p + cfg.max);
  }

  lemma AdmittedInLastWindow(ts: seq<int>, cfg: Config, i: nat, last: nat, s: nat)
    requires NonDecreasing(ts) && i <= last < |ts| && Admits(ts, i, cfg)
    requires s == Opener(ts, last, cfg.window) <= i
    ensures i in Candidates(ts, cfg, s)
  {
    SameWindow(ts, s, i, last, cfg.window);
    InLastWindow(ts, cfg, s, i);
  }

  lemma AdmittedInEarlierWindow(ts: seq<int>, cfg: Config, a: int, i: nat, last: nat, s: nat)
    requires NonDecreasing(ts) && i <= last < |ts| && Admits(ts, i, cfg)
    requires i < s == Opener(ts, last, cfg.window)
    requires a <= ts[i] && ts[last] <= a + cfg.window
    ensures i in Candidates(ts, cfg, s)
  {
    OpenerIdempotent(ts, last, cfg.window);
    EarlierWindow(ts, cfg.window, a, i, s);
    InEarlierWindow(ts, cfg, s, i);
  }

  /** Any closed interval of length `window` meets at most two windows, and when it meets two the
      opener of the earlier one lies before the interval. */
  lemma AdmissionBound(ts: seq<int>, cfg: Config, a: int)
    requires NonDecreasing(ts)
    ensures |AdmittedIn(ts, cfg, a)| <= Bound(cfg.max)
  {
    var admitted := AdmittedIn(ts, cfg, a);
    if admitted != {} {
      var last := Largest(admitted);
      var s := Opener(ts, last, cfg.window);
      forall i | i in admitted ensures i in Candidates(ts, cfg, s) {
        if s <= i {
          AdmittedInLastWindow(ts, cfg, i, last, s);
        } else {
          AdmittedInEarlierWindow(ts, cfg, a, i, last, s);
        }
      }
      SubsetSize(admitted, Candidates(ts, cfg, s));
    }
  }
}

module FixedWindowMachine {
  import opened Common
  import opened GreedyWindows

  /** The zero time.Time, earlier than every clock reading. */
  const ZERO_TIME: int := 0

  /** `owner` is the IP the entry was created for; the program does not store it. */
  datatype Entry = Entry(owner: string, count: nat, resetAt: int)

  /** The map of the limiter and every entry ever allocated: an entry deleted from the map stays on
      the heap for as long as some request holds it. */
  datatype Table = Table(heap: seq<Entry>, ips: map<string, nat>)

  predicate WellFormed(t: Table) {
    forall ip :: ip in t.ips ==> t.ips[ip] < |t.heap| && t.heap[t.ips[ip]].owner == ip
  }

  function LookedUp(t: Table, ip: string): Table {
    if ip in t.ips then t
    else Table(t.heap + [Entry(ip, 0, ZERO_TIME)], t.ips[ip := |t.heap|])
  }

  function Counted(e: Entry, now: int, window: nat): Entry {
    if now > e.resetAt then e.(count := 1, resetAt := now + window)
    else e.(count := e.count + 1)
  }

  predicate Expired(t: Table, ip: string, now: int)
    requires WellFormed(t) && ip in t.ips
  {
    now > t.heap[t.ips[ip]].resetAt
  }

  /** What the sweeper does to the map when it comes to `ip`. */
  function Visited(t: Table, ip: string, now: int): Table
    requires WellFormed(t) && ip in t.ips
  {
    if Expired(t, ip, now) then t.(ips := t.ips - {ip}) else t
  }

  /** A whole sweep with nothing in between its visits. */
  function Swept(t: Table, now: int): Table
    requires WellFormed(t)
  {
    t.(ips := map ip | ip in t.ips && !Expired(t, ip, now) :: t.ips[ip])
  }

  /** A sweep of t that still has the IPs `todo` to visit. */
  ghost predicate SweptSoFar(t: Table, t': Table, todo: set<string>, now: int)
    requires WellFormed(t)
  {
    && t'.heap == t.heap
    && t'.ips == map ip | ip in t.ips && (ip in todo || !Expired(t, ip, now)) :: t.ips[ip]
  }

  lemma SweepStart(t: Table, now: int)
    requires WellFormed(t)
    ensures SweptSoFar(t, t, t.ips.Keys, now)
  {
  }

  lemma SweepProgress(t: Table, t': Table, todo: set<string>, ip: string, now: int)
    requires WellFormed(t) && WellFormed(t') && SweptSoFar(t, t', todo, now)
    requires ip in todo && todo <= t'.ips.Keys
    ensures SweptSoFar(t, Visited(t', ip, now), todo - {ip}, now)
    ensures todo - {ip} <= Visited(t', ip, now).ips.Keys
  {
  }

  lemma SweepEnd(t: Table, t': Table, now: int)
    requires WellFormed(t) && SweptSoFar(t, t', {}, now)
    ensures t' == Swept(t, now)
  {
  }

  /** A whole call of allow with nothing in between its halves. */
  function Allowed(t: Table, ip: string, now: int, cfg: Config): (r: (Table, bool))
    requires WellFormed(t)
    ensures WellFormed(r.0)
  {
    var t' := LookedUp(t, ip);
    var c := Counted(t'.heap[t'.ips[ip]], now, cfg.window);
    (t'.(heap := t'.heap[t'.ips[ip] := c]), c.count <= cfg.max)
  }

  /** A request between its look-up and its count. */
  datatype Pending = Pending(ip: string, entry: nat)

  /** The sweeper reads the clock before it takes the map lock. */
  datatype Sweeper = Waiting | ClockRead(now: int) | Visiting(now: int, todo: set<string>)

  /** A finished request and the entry it counted on; `stale` if that was no longer in the map. */
  datatype Hit = Hit(req: nat, ip: string, entry: nat, at: int, ok: bool, stale: bool)

  /** `stranded` holds the requests that had looked up an entry but not yet counted when the sweeper
      deleted that entry. */
  datatype State = State(clock: int, table: Table, next: nat, pending: map<nat, Pending>,
                         sweeper: Sweeper, hits: seq<Hit>, stranded: map<nat, string>)

  datatype Event =
    | Tick(now: int)
    | Lookup(ip: string)
    | Count(req: nat)
    | ReadClock
    | LockMap
    | Visit(visited: string)
    | UnlockMap

  function Init(start: int): State {
    State(start, Table([], map[]), 0, map[], Waiting, [], map[])
  }

  predicate Sane(s: State) {
    && WellFormed(s.table)
    && (forall r :: r in s.pending ==>
          r < s.next && s.pending[r].entry < |s.table.heap| &&
          s.table.heap[s.pending[r].entry].owner == s.pending[r].ip)
    && (s.sweeper.Visiting? ==> s.sweeper.todo <= s.table.ips.Keys)
  }

  /** The map lock is held by the sweeper from LockMap to UnlockMap, so no look-up falls in between;
      counting needs only the lock of one entry. */
  predicate Enabled(s: State, e: Event) {
    match e
    case Tick(now) => s.clock <= now
    case Lookup(_) => !s.sweeper.Visiting?
    case Count(req) => req in s.pending
    case ReadClock => s.sweeper.Waiting?
    case LockMap => s.sweeper.ClockRead?
    case Visit(ip) => s.sweeper.Visiting? && ip in s.sweeper.todo
    case UnlockMap => s.sweeper.Visiting? && s.sweeper.todo == {}
  }

  predicate IsLive(s: State, p: Pending) {
    p.ip in s.table.ips && s.table.ips[p.ip] == p.entry
  }

  function Step(s: State, e: Event, cfg: Config): (s': State)
    requires Sane(s) && Enabled(s, e)
    ensures Sane(s')
  {
    match e
    case Tick(now) => s.(clock := now)
    case Lookup(ip) =>
      var t := LookedUp(s.table, ip);
      s.(table := t, next := s.next + 1, pending := s.pending[s.next := Pending(ip, t.ips[ip])])
    case Count(req) =>
      var p := s.pending[req];
      var c := Counted(s.table.heap[p.entry], s.clock, cfg.window);
      s.(table := s.table.(heap := s.table.heap[p.entry := c]),
         pending := s.pending - {req},
         hits := s.hits + [Hit(req, p.ip, p.entry, s.clock, c.count <= cfg.max, !IsLive(s, p))])
    case ReadClock => s.(sweeper := ClockRead(s.clock))
    case LockMap => s.(sweeper := Visiting(s.sweeper.now, s.table.ips.Keys))
    case Visit(ip) =>
      s.(table := Visited(s.table, ip, s.sweeper.now),
         sweeper := Visiting(s.sweeper.now, s.sweeper.todo - {ip}),
         stranded := if Expired(s.table, ip, s.sweeper.now)
                     then s.stranded + Holders(s, s.table.ips[ip]) else s.stranded)
    case UnlockMap => s.(sweeper := Waiting)
  }

  /** The requests that hold entry `entry`. */
  function Holders(s: State, entry: nat): map<nat, string> {
    map r | r in s.pending && s.pending[r].entry == entry :: s.pending[r].ip
  }

  /** The state after a run; None if some event of it was not enabled. */
  function Exec(start: int, evs: seq<Event>, cfg: Config): (r: Option<State>)
    ensures r.Some? ==> Sane(r.value)
  {
    if |evs| == 0 then Some(Init(start))
    else
      var before := Exec(start, evs[..|evs| - 1], cfg);
      if before.Some? && Enabled(before.value, evs[|evs| - 1])
      then Some(Step(before.value, evs[|evs| - 1], cfg))
      else None
  }

  // What is observed of one IP.

  /** The count times of the requests of `ip` that counted on a live entry, in order. */
  function LiveTimes(hits: seq<Hit>, ip: string): seq<int> {
    if |hits| == 0 then []
    else
      var h, before := hits[|hits| - 1], LiveTimes(hits[..|hits| - 1], ip);
      if h.ip == ip && !h.stale then before + [h.at] else before
  }

  function LiveDecisions(hits: seq<Hit>, ip: string): (r: seq<bool>)
    ensures |r| == |LiveTimes(hits, ip)|
  {
    if |hits| == 0 then []
    else
      var h, before := hits[|hits| - 1], LiveDecisions(hits[..|hits| - 1], ip);
      if h.ip == ip && !h.stale then before + [h.ok] else before
  }

  /** The number of requests of `ip` admitted in [a, b]. */
  function Admissions(hits: seq<Hit>, ip: string, a: int, b: int): nat {
    if |hits| == 0 then 0
    else
      var h := hits[|hits| - 1];
      Admissions(hits[..|hits| - 1], ip, a, b) + if h.ip == ip && h.ok && a <= h.at <= b then 1 else 0
  }

  function StrandedOf(s: State, ip: string): set<nat> {
    set r | r in s.stranded && s.stranded[r] == ip
  }

  // Invariants.

  /** No window over `ts` is open at `clock`. */
  ghost predicate Idle(ts: seq<int>, clock: int, window: nat) {
    |ts| == 0 || ts[Opener(ts, |ts| - 1, window)] + window < clock
  }

  /** A live entry counts the requests of the latest window over `ts`. */
  ghost predicate Describes(e: Entry, ts: seq<int>, clock: int, window: nat) {
    if e.count == 0 then Idle(ts, clock, window) && e.resetAt == ZERO_TIME
    else
      && |ts| > 0
      && e.count == |ts| - Opener(ts, |ts| - 1, window)
      && e.resetAt == ts[Opener(ts, |ts| - 1, window)] + window
  }

  ghost predicate Tracks(s: State, ip: string, ts: seq<int>, window: nat)
    requires Sane(s)
  {
    if ip in s.table.ips then Describes(s.table.heap[s.table.ips[ip]], ts, s.clock, window)
    else Idle(ts, s.clock, window)
  }

  /** The requests of one IP so far: ordered count times, greedy decisions. */
  ghost predicate History(ts: seq<int>, oks: seq<bool>, clock: int, cfg: Config) {
    NonDecreasing(ts) && (|ts| > 0 ==> ts[|ts| - 1] <= clock) && oks == Decisions(ts, cfg)
  }

  ghost predicate Greedy(s: State, ip: string, cfg: Config)
    requires Sane(s)
  {
    && s.clock > ZERO_TIME
    && (s.sweeper.Waiting? || s.sweeper.now <= s.clock)
    && History(LiveTimes(s.hits, ip), LiveDecisions(s.hits, ip), s.clock, cfg)
    && Tracks(s, ip, LiveTimes(s.hits, ip), cfg.window)
  }

  /** Counting on a live entry follows the greedy windows, whether the entry is old, expired or was
      created after a deletion. */
  lemma CountedIsGreedy(e: Entry, ts: seq<int>, clock: int, cfg: Config)
    requires Describes(e, ts, clock, cfg.window) && clock > ZERO_TIME
    ensures Describes(Counted(e, clock, cfg.window), ts + [clock], clock, cfg.window)
    ensures (Counted(e, clock, cfg.window).count <= cfg.max) == Admits(ts + [clock], |ts|, cfg)
  {
    if |ts| > 0 {
      OpenerStable(ts, clock, |ts| - 1, cfg.window);
    }
  }

  lemma HistorySnoc(ts: seq<int>, oks: seq<bool>, clock: int, cfg: Config)
    requires History(ts, oks, clock, cfg)
    ensures History(ts + [clock], oks + [Admits(ts + [clock], |ts|, cfg)], clock, cfg)
  {
    DecisionsSnoc(ts, clock, cfg);
  }

  lemma HitsSnoc(hits: seq<Hit>, h: Hit, ip: string)
    ensures var mine := h.ip == ip && !h.stale;
            var ts, oks := LiveTimes(hits, ip), LiveDecisions(hits, ip);
            && LiveTimes(hits + [h], ip) == (if mine then ts + [h.at] else ts)
            && LiveDecisions(hits + [h], ip) == (if mine then oks + [h.ok] else oks)
  {
    assert (hits + [h])[..|hits|] == hits;
  }

  lemma GreedyCountMine(s: State, req: nat, cfg: Config)
    requires Sane(s) && Enabled(s, Count(req)) && IsLive(s, s.pending[req])
    requires Greedy(s, s.pending[req].ip, cfg)
    ensures Greedy(Step(s, Count(req), cfg), s.pending[req].ip, cfg)
  {
    var s' := Step(s, Count(req), cfg);
    var p := s.pending[req];
    var ts, oks := LiveTimes(s.hits, p.ip), LiveDecisions(s.hits, p.ip);
    CountedIsGreedy(s.table.heap[p.entry], ts, s.clock, cfg);
    HistorySnoc(ts, oks, s.clock, cfg);
    HitsSnoc(s.hits, s'.hits[|s.hits|], p.ip);
  }

  lemma GreedyCountOther(s: State, req: nat, ip: string, cfg: Config)
    requires Sane(s) && Enabled(s, Count(req)) && Greedy(s, ip, cfg)
    requires s.pending[req].ip != ip || !IsLive(s, s.pending[req])
    ensures Greedy(Step(s, Count(req), cfg), ip, cfg)
  {
    var s' := Step(s, Count(req), cfg);
    HitsSnoc(s.hits, s'.hits[|s.hits|], ip);
    assert ip in s.table.ips ==> s.table.ips[ip] != s.pending[req].entry;
  }

  lemma GreedyStep(s: State, e: Event, ip: string, cfg: Config)
    requires Sane(s) && Enabled(s, e) && Greedy(s, ip, cfg)
    ensures Greedy(Step(s, e, cfg), ip, cfg)
  {
    if e.Count? {
      if s.pending[e.req].ip == ip && IsLive(s, s.pending[e.req]) {
        GreedyCountMine(s, e.req, cfg);
      } else {
        GreedyCountOther(s, e.req, ip, cfg);
      }
    }
  }

  lemma {:induction false} GreedyRun(start: int, evs: seq<Event>, ip: string, cfg: Config)
    requires start > ZERO_TIME && Exec(start, evs, cfg).Some?
    ensures Greedy(Exec(start, evs, cfg).value, ip, cfg)
  {
    if |evs| > 0 {
      GreedyRun(start, evs[..|evs| - 1], ip, cfg);
      GreedyStep(Exec(start, evs[..|evs| - 1], cfg).value, evs[|evs| - 1], ip, cfg);
    }
  }

  // Bookkeeping of request identities.

  ghost predicate Distinct(hits: seq<Hit>) {
    forall i, j :: 0 <= i < j < |hits| ==> hits[i].req != hits[j].req
  }

  /** Every request counts once, and only a stranded request counts on a deleted entry. */
  ghost predicate Accounted(s: State) {
    && Distinct(s.hits)
    && (forall h :: h in s.hits ==> h.req < s.next && h.req !in s.pending)
    && (forall h :: h in s.hits && h.stale ==> h.req in s.stranded && s.stranded[h.req] == h.ip)
    && (forall r :: r in s.pending && !IsLive(s, s.pending[r]) ==>
          r in s.stranded && s.stranded[r] == s.pending[r].ip)
    && (forall r :: r in s.pending && r in s.stranded ==> s.stranded[r] == s.pending[r].ip)
    && (forall r :: r in s.stranded ==> r < s.next)
  }

  lemma AccountedVisit(s: State, ip: string, cfg: Config)
    requires Sane(s) && Enabled(s, Visit(ip)) && Accounted(s)
    ensures Accounted(Step(s, Visit(ip), cfg))
  {
    var s' := Step(s, Visit(ip), cfg);
    forall r | r in s'.pending && !IsLive(s', s'.pending[r])
      ensures r in s'.stranded && s'.stranded[r] == s'.pending[r].ip
    {
      if IsLive(s, s.pending[r]) {
        assert s.pending[r].ip == ip;
      }
    }
  }

  lemma AccountedCount(s: State, req: nat, cfg: Config)
    requires Sane(s) && Enabled(s, Count(req)) && Accounted(s)
    ensures Accounted(Step(s, Count(req), cfg))
  {
    var s' := Step(s, Count(req), cfg);
    assert forall r :: r in s'.pending ==> r in s.pending && IsLive(s', s'.pending[r]) == IsLive(s, s.pending[r]);
  }

  lemma AccountedLookup(s: State, ip: string, cfg: Config)
    requires Sane(s) && Enabled(s, Lookup(ip)) && Accounted(s)
    ensures Accounted(Step(s, Lookup(ip), cfg))
  {
    var s' := Step(s, Lookup(ip), cfg);
    forall r | r in s.pending && IsLive(s, s.pending[r]) ensures IsLive(s', s'.pending[r]) {
    }
    assert IsLive(s', s'.pending[s.next]);
  }

  lemma {:induction false} AccountedRun(start: int, evs: seq<Event>, cfg: Config)
    requires Exec(start, evs, cfg).Some?
    ensures Accounted(Exec(start, evs, cfg).value)
  {
    if |evs| > 0 {
      AccountedRun(start, evs[..|evs| - 1], cfg);
      var s, e := Exec(start, evs[..|evs| - 1], cfg).value, evs[|evs| - 1];
      match e
      case Count(req) => AccountedCount(s, req, cfg);
      case Visit(ip) => AccountedVisit(s, ip, cfg);
      case Lookup(ip) => AccountedLookup(s, ip, cfg);
      case _ =>
    }
  }

  // Main results.

  /** The live requests admitted in [a, b], as indices into the count times. */
  function Marked(ts: seq<int>, oks: seq<bool>, a: int, b: int): set<int>
    requires |ts| == |oks|
  {
    set i | 0 <= i < |ts| && a <= ts[i] <= b && oks[i]
  }

  lemma MarkedSnoc(ts: seq<int>, oks: seq<bool>, t: int, ok: bool, a: int, b: int)
    requires |ts| == |oks|
    ensures |Marked(ts + [t], oks + [ok], a, b)| == |Marked(ts, oks, a, b)| + if ok && a <= t <= b then 1 else 0
  {
    var m, m' := Marked(ts, oks, a, b), Marked(ts + [t], oks + [ok], a, b);
    assert m' == if ok && a <= t <= b then m + {|ts|} else m;
  }

  predicate AdmittedStale(h: Hit, ip: string, a: int, b: int) {
    h.ip == ip && h.stale && h.ok && a <= h.at <= b
  }

  /** The requests of `ip` admitted in [a, b] on a deleted entry. */
  function StaleAdmissions(hits: seq<Hit>, ip: string, a: int, b: int): set<nat> {
    set h | h in hits && AdmittedStale(h, ip, a, b) :: h.req
  }

  lemma StaleAdmissionsSnoc(hits: seq<Hit>, h: Hit, ip: string, a: int, b: int)
    requires Distinct(hits + [h])
    ensures |StaleAdmissions(hits + [h], ip, a, b)|
         == |StaleAdmissions(hits, ip, a, b)| + if AdmittedStale(h, ip, a, b) then 1 else 0
  {
    IsNewRequest(hits, h);
    var before, after := StaleAdmissions(hits, ip, a, b), StaleAdmissions(hits + [h], ip, a, b);
    if AdmittedStale(h, ip, a, b) {
      assert after == before + {h.req};
    } else {
      assert after == before;
    }
  }

  lemma IsNewRequest(hits: seq<Hit>, h: Hit)
    requires Distinct(hits + [h])
    ensures forall g :: g in hits ==> g.req != h.req
  {
    var all := hits + [h];
    forall i | 0 <= i < |hits| ensures hits[i].req != h.req {
      assert all[i] == hits[i] && all[|hits|] == h;
    }
  }

  /** Every admission is that of a live request or of a stale one. */
  lemma {:induction false} AdmissionsSplit(hits: seq<Hit>, ip: string, a: int, b: int)
    requires Distinct(hits)
    ensures Admissions(hits, ip, a, b)
         == |Marked(LiveTimes(hits, ip), LiveDecisions(hits, ip), a, b)| + |StaleAdmissions(hits, ip, a, b)|
  {
    if |hits| > 0 {
      var before, h := hits[..|hits| - 1], hits[|hits| - 1];
      assert before + [h] == hits;
      AdmissionsSplit(before, ip, a, b);
      HitsSnoc(before, h, ip);
      MarkedSnoc(LiveTimes(before, ip), LiveDecisions(before, ip), h.at, h.ok, a, b);
      StaleAdmissionsSnoc(before, h, ip, a, b);
    }
  }

  lemma MarkedIsAdmitted(ts: seq<int>, cfg: Config, a: int)
    ensures Marked(ts, Decisions(ts, cfg), a, a + cfg.window) == AdmittedIn(ts, cfg, a)
  {
  }

  lemma LateWereStranded(s: State, ip: string, a: int, b: int)
    requires Accounted(s)
    ensures Distinct(s.hits) && StaleAdmissions(s.hits, ip, a, b) <= StrandedOf(s, ip)
  {
  }

  lemma LiveAdmissionsBounded(s: State, ip: string, a: int, cfg: Config)
    requires Sane(s) && Greedy(s, ip, cfg) && Distinct(s.hits)
    ensures Admissions(s.hits, ip, a, a + cfg.window)
         <= Bound(cfg.max) + |StaleAdmissions(s.hits, ip, a, a + cfg.window)|
  {
    var ts := LiveTimes(s.hits, ip);
    AdmissionsSplit(s.hits, ip, a, a + cfg.window);
    MarkedIsAdmitted(ts, cfg, a);
    AdmissionBound(ts, cfg, a);
  }

  /** Over every interleaving, one IP gets at most 2 * max - 1 admissions in any closed interval of
      length `window`, plus those in that interval of requests that the sweeper left on a deleted entry. */
  lemma AdmissionsBounded(start: int, evs: seq<Event>, ip: string, a: int, cfg: Config)
    requires start > ZERO_TIME && Exec(start, evs, cfg).Some?
    ensures var s := Exec(start, evs, cfg).value;
            var late := StaleAdmissions(s.hits, ip, a, a + cfg.window);
            && Admissions(s.hits, ip, a, a + cfg.window) <= Bound(cfg.max) + |late|
            && late <= StrandedOf(s, ip)
  {
    var s := Exec(start, evs, cfg).value;
    GreedyRun(start, evs, ip, cfg);
    AccountedRun(start, evs, cfg);
    LateWereStranded(s, ip, a, a + cfg.window);
    LiveAdmissionsBounded(s, ip, a, cfg);
  }

  /** If no request of an IP was stranded, all its decisions are those of the greedy windows over its
      own request times: neither the sweeps nor the other IPs are observable. */
  lemma UnstrandedIsGreedy(start: int, evs: seq<Event>, ip: string, cfg: Config)
    requires start > ZERO_TIME && Exec(start, evs, cfg).Some?
    requires StrandedOf(Exec(start, evs, cfg).value, ip) == {}
    ensures var hits := Exec(start, evs, cfg).value.hits;
            && (forall h :: h in hits && h.ip == ip ==> !h.stale)
            && LiveDecisions(hits, ip) == Decisions(LiveTimes(hits, ip), cfg)
  {
    var s := Exec(start, evs, cfg).value;
    GreedyRun(start, evs, ip, cfg);
    AccountedRun(start, evs, cfg);
    forall h | h in s.hits && h.ip == ip ensures !h.stale {
      assert h.stale ==> h.req in StrandedOf(s, ip);
    }
  }

  // Each entry on its own, live or deleted.

  /** The count times of the requests that counted on an entry. */
  function EntryTimes(hits: seq<Hit>, entry: nat): seq<int> {
    if |hits| == 0 then []
    else
      var h, before := hits[|hits| - 1], EntryTimes(hits[..|hits| - 1], entry);
      if h.entry == entry then before + [h.at] else before
  }

  function EntryDecisions(hits: seq<Hit>, entry: nat): (r: seq<bool>)
    ensures |r| == |EntryTimes(hits, entry)|
  {
    if |hits| == 0 then []
    else
      var h, before := hits[|hits| - 1], EntryDecisions(hits[..|hits| - 1], entry);
      if h.entry == entry then before + [h.ok] else before
  }

  lemma EntrySnoc(hits: seq<Hit>, h: Hit, entry: nat)
    ensures var mine := h.entry == entry;
            var ts, oks := EntryTimes(hits, entry), EntryDecisions(hits, entry);
            && EntryTimes(hits + [h], entry) == (if mine then ts + [h.at] else ts)
            && EntryDecisions(hits + [h], entry) == (if mine then oks + [h.ok] else oks)
  {
    assert (hits + [h])[..|hits|] == hits;
  }

  lemma {:induction false} NoneYet(hits: seq<Hit>, entry: nat)
    requires forall h :: h in hits ==> h.entry < entry
    ensures EntryTimes(hits, entry) == []
  {
    if |hits| > 0 {
      NoneYet(hits[..|hits| - 1], entry);
    }
  }

  ghost predicate EntryGreedy(s: State, entry: nat, cfg: Config)
    requires entry < |s.table.heap|
  {
    && s.clock > ZERO_TIME
    && History(EntryTimes(s.hits, entry), EntryDecisions(s.hits, entry), s.clock, cfg)
    && Describes(s.table.heap[entry], EntryTimes(s.hits, entry), s.clock, cfg.window)
  }

  lemma EntryCountMine(s: State, req: nat, cfg: Config)
    requires Sane(s) && Enabled(s, Count(req)) && EntryGreedy(s, s.pending[req].entry, cfg)
    ensures EntryGreedy(Step(s, Count(req), cfg), s.pending[req].entry, cfg)
  {
    var s', i := Step(s, Count(req), cfg), s.pending[req].entry;
    var ts, oks := EntryTimes(s.hits, i), EntryDecisions(s.hits, i);
    CountedIsGreedy(s.table.heap[i], ts, s.clock, cfg);
    HistorySnoc(ts, oks, s.clock, cfg);
    EntrySnoc(s.hits, s'.hits[|s.hits|], i);
  }

  lemma EntryOtherStep(s: State, e: Event, entry: nat, cfg: Config)
    requires Sane(s) && Enabled(s, e) && entry < |s.table.heap| && EntryGreedy(s, entry, cfg)
    requires e.Count? ==> s.pending[e.req].entry != entry
    ensures EntryGreedy(Step(s, e, cfg), entry, cfg)
  {
    var s' := Step(s, e, cfg);
    if e.Count? {
      EntrySnoc(s.hits, s'.hits[|s.hits|], entry);
    }
  }

  lemma NewEntryGreedy(s: State, ip: string, cfg: Config)
    requires Sane(s) && s.clock > ZERO_TIME && Enabled(s, Lookup(ip)) && ip !in s.table.ips
    requires forall h :: h in s.hits ==> h.entry < |s.table.heap|
    ensures EntryGreedy(Step(s, Lookup(ip), cfg), |s.table.heap|, cfg)
  {
    NoneYet(s.hits, |s.table.heap|);
  }

  lemma HeapStep(s: State, e: Event, cfg: Config)
    requires Sane(s) && Enabled(s, e)
    ensures var n, n' := |s.table.heap|, |Step(s, e, cfg).table.heap|;
            n' == n || (n' == n + 1 && e.Lookup? && e.ip !in s.table.ips)
  {
  }

  lemma {:induction false} HitsOnHeap(start: int, evs: seq<Event>, cfg: Config)
    requires start > ZERO_TIME && Exec(start, evs, cfg).Some?
    ensures var s := Exec(start, evs, cfg).value;
            s.clock > ZERO_TIME && forall h :: h in s.hits ==> h.entry < |s.table.heap|
  {
    if |evs| > 0 {
      HitsOnHeap(start, evs[..|evs| - 1], cfg);
      HeapStep(Exec(start, evs[..|evs| - 1], cfg).value, evs[|evs| - 1], cfg);
    }
  }

  lemma EntryStep(s: State, e: Event, entry: nat, cfg: Config)
    requires Sane(s) && Enabled(s, e) && entry < |Step(s, e, cfg).table.heap| && s.clock > ZERO_TIME
    requires entry < |s.table.heap| ==> EntryGreedy(s, entry, cfg)
    requires forall h :: h in s.hits ==> h.entry < |s.table.heap|
    ensures EntryGreedy(Step(s, e, cfg), entry, cfg)
  {
    HeapStep(s, e, cfg);
    if entry == |s.table.heap| {
      NewEntryGreedy(s, e.ip, cfg);
    } else if e.Count? && s.pending[e.req].entry == entry {
      EntryCountMine(s, e.req, cfg);
    } else {
      EntryOtherStep(s, e, entry, cfg);
    }
  }

  lemma {:induction false} EntryGreedyRun(start: int, evs: seq<Event>, entry: nat, cfg: Config)
    requires start > ZERO_TIME && Exec(start, evs, cfg).Some? && entry < |Exec(start, evs, cfg).value.table.heap|
    ensures EntryGreedy(Exec(start, evs, cfg).value, entry, cfg)
  {
    if |evs| > 0 {
      var before, e := evs[..|evs| - 1], evs[|evs| - 1];
      var s := Exec(start, before, cfg).value;
      HitsOnHeap(start, before, cfg);
      if entry < |s.table.heap| {
        EntryGreedyRun(start, before, entry, cfg);
      }
      EntryStep(s, e, entry, cfg);
    }
  }

  /** In every run, the requests that count on an entry, also after it has been deleted, are decided as by
      greedy windows over the times of these requests; so a deleted entry admits no more than a live one, at
      most 2 * max - 1 of them in any closed interval of length `window`. */
  lemma EntryIsGreedy(start: int, evs: seq<Event>, entry: nat, a: int, cfg: Config)
    requires start > ZERO_TIME && Exec(start, evs, cfg).Some? && entry < |Exec(start, evs, cfg).value.table.heap|
    ensures var hits := Exec(start, evs, cfg).value.hits;
            && EntryDecisions(hits, entry) == Decisions(EntryTimes(hits, entry), cfg)
            && |Marked(EntryTimes(hits, entry), EntryDecisions(hits, entry), a, a + cfg.window)| <= Bound(cfg.max)
  {
    EntryGreedyRun(start, evs, entry, cfg);
    var ts := EntryTimes(Exec(start, evs, cfg).value.hits, entry);
    MarkedIsAdmitted(ts, cfg, a);
    AdmissionBound(ts, cfg, a);
  }

  // A call of allow, and a sweep, that nothing interrupts.

  lemma Append(start: int, evs: seq<Event>, s: State, e: Event, cfg: Config) returns (evs': seq<Event>, s': State)
    requires Exec(start, evs, cfg) == Some(s) && Enabled(s, e)
    ensures evs' == evs + [e] && s' == Step(s, e, cfg) && Exec(start, evs', cfg) == Some(s')
  {
    evs', s' := evs + [e], Step(s, e, cfg);
    assert evs'[..|evs|] == evs;
  }

  lemma AllowEffect(s: State, ip: string, cfg: Config)
    requires Sane(s) && Enabled(s, Lookup(ip))
    ensures var s1 := Step(s, Lookup(ip), cfg);
            && Enabled(s1, Count(s.next))
            && var s', (t, ok) := Step(s1, Count(s.next), cfg), Allowed(s.table, ip, s.clock, cfg);
               && s'.table == t && s'.clock == s.clock && s'.sweeper == s.sweeper && s'.stranded == s.stranded
               && s'.pending == s.pending
               && s'.hits == s.hits + [Hit(s.next, ip, t.ips[ip], s.clock, ok, false)]
  {
    var s1 := Step(s, Lookup(ip), cfg);
    assert s1.pending - {s.next} == s.pending;
  }

  /** From any state in which the sweeper does not hold the map, a call of allow that nothing interrupts is a
      look-up and a count, with the same table and the same decision. */
  lemma AllowIsRun(start: int, evs: seq<Event>, s: State, ip: string, cfg: Config) returns (evs': seq<Event>, s': State)
    requires Exec(start, evs, cfg) == Some(s) && !s.sweeper.Visiting?
    ensures evs' == evs + [Lookup(ip)] + [Count(s.next)] && Exec(start, evs', cfg) == Some(s')
    ensures var (t, ok) := Allowed(s.table, ip, s.clock, cfg);
            && s'.table == t && s'.pending == s.pending
            && s'.hits == s.hits + [Hit(s.next, ip, t.ips[ip], s.clock, ok, false)]
  {
    AllowEffect(s, ip, cfg);
    evs', s' := Append(start, evs, s, Lookup(ip), cfg);
    evs', s' := Append(start, evs', s', Count(s.next), cfg);
  }

  /** What a sweep changes: the map, and who is stranded. */
  ghost predicate OnlySwept(s: State, s': State) {
    s'.clock == s.clock && s'.next == s.next && s'.pending == s.pending && s'.hits == s.hits
  }

  lemma {:induction false} VisitMany(start: int, evs: seq<Event>, s: State, before: Table, cfg: Config)
    returns (evs': seq<Event>, s': State)
    requires Exec(start, evs, cfg) == Some(s) && s.sweeper.Visiting? && WellFormed(before)
    requires SweptSoFar(before, s.table, s.sweeper.todo, s.sweeper.now)
    ensures Exec(start, evs', cfg) == Some(s') && OnlySwept(s, s') && s'.sweeper == Visiting(s.sweeper.now, {})
    ensures s'.table == Swept(before, s.sweeper.now)
    decreases s.sweeper.todo
  {
    if s.sweeper.todo == {} {
      evs', s' := evs, s;
      SweepEnd(before, s.table, s.sweeper.now);
    } else {
      var ip :| ip in s.sweeper.todo;
      SweepProgress(before, s.table, s.sweeper.todo, ip, s.sweeper.now);
      var evs1, s1 := Append(start, evs, s, Visit(ip), cfg);
      evs', s' := VisitMany(start, evs1, s1, before, cfg);
    }
  }

  /** From any state in which the sweeper waits, a sweep that nothing interrupts leaves the same table. */
  lemma SweepIsRun(start: int, evs: seq<Event>, s: State, cfg: Config) returns (evs': seq<Event>, s': State)
    requires Exec(start, evs, cfg) == Some(s) && s.sweeper.Waiting?
    ensures Exec(start, evs', cfg) == Some(s') && OnlySwept(s, s') && s'.sweeper.Waiting?
    ensures s'.table == Swept(s.table, s.clock)
  {
    var evs1, s1 := Append(start, evs, s, ReadClock, cfg);
    var evs2, s2 := Append(start, evs1, s1, LockMap, cfg);
    SweepStart(s.table, s.clock);
    var evs3, s3 := VisitMany(start, evs2, s2, s.table, cfg);
    evs', s' := Append(start, evs3, s3, UnlockMap, cfg);
  }

  /** Every look-up is followed at once by a count. */
  predicate AtomicCalls(evs: seq<Event>) {
    forall i :: 0 <= i < |evs| - 1 && evs[i].Lookup? ==> evs[i + 1].Count?
  }

  /** With atomic calls to `allow` no request is ever stranded. */
  lemma {:induction false} AtomicCallsStrandNobody(start: int, evs: seq<Event>, cfg: Config)
    requires Exec(start, evs, cfg).Some? && AtomicCalls(evs)
    ensures var s := Exec(start, evs, cfg).value;
            && s.stranded == map[]
            && |s.pending| <= (if |evs| > 0 && evs[|evs| - 1].Lookup? then 1 else 0)
  {
    if |evs| > 0 {
      var before, e := evs[..|evs| - 1], evs[|evs| - 1];
      AtomicCallsStrandNobody(start, before, cfg);
      var s, s' := Exec(start, before, cfg).value, Exec(start, evs, cfg).value;
      assert |before| > 0 ==> before[|before| - 1] == evs[|before| - 1];
      match e
      case Count(req) => assert |s.pending - {req}| == |s.pending| - 1;
      case _ =>
    }
  }

  // The bound is attained.

  /** Two requests are admitted in the window [1, 11], a third holds the entry. */
  lemma FirstWindow(cfg: Config) returns (evs: seq<Event>, s: State)
    requires cfg == Config(2, 10)
    ensures Exec(1, evs, cfg) == Some(s)
    ensures s == State(12, Table([Entry("a", 2, 11)], map["a" := 0]), 3, map[2 := Pending("a", 0)], Waiting,
                       [Hit(0, "a", 0, 1, true, false), Hit(1, "a", 0, 11, true, false)], map[])
  {
    evs, s := [], Init(1);
    evs, s := Append(1, evs, s, Lookup("a"), cfg);
    evs, s := Append(1, evs, s, Count(0), cfg);
    evs, s := Append(1, evs, s, Tick(11), cfg);
    assert s == State(11, Table([Entry("a", 1, 11)], map["a" := 0]), 1, map[], Waiting,
                      [Hit(0, "a", 0, 1, true, false)], map[]);
    evs, s := Append(1, evs, s, Lookup("a"), cfg);
    evs, s := Append(1, evs, s, Count(1), cfg);
    evs, s := Append(1, evs, s, Lookup("a"), cfg);
    evs, s := Append(1, evs, s, Tick(12), cfg);
  }

  /** The sweeper deletes the entry under the third request. */
  lemma SweepBetween(cfg: Config) returns (evs: seq<Event>, s: State)
    requires cfg == Config(2, 10)
    ensures Exec(1, evs, cfg) == Some(s)
    ensures s == State(12, Table([Entry("a", 2, 11)], map[]), 3, map[2 := Pending("a", 0)], Waiting,
                       [Hit(0, "a", 0, 1, true, false), Hit(1, "a", 0, 11, true, false)], map[2 := "a"])
  {
    evs, s := FirstWindow(cfg);
    evs, s := Append(1, evs, s, ReadClock, cfg);
    evs, s := Append(1, evs, s, LockMap, cfg);
    assert s.sweeper == Visiting(12, {"a"});
    evs, s := Append(1, evs, s, Visit("a"), cfg);
    assert s.sweeper == Visiting(12, {});
    evs, s := Append(1, evs, s, UnlockMap, cfg);
  }

  /** A request is admitted on a new entry, in the window [12, 22]. */
  lemma NewEntry(cfg: Config) returns (evs: seq<Event>, s: State)
    requires cfg == Config(2, 10)
    ensures Exec(1, evs, cfg) == Some(s)
    ensures s == State(12, Table([Entry("a", 2, 11), Entry("a", 1, 22)], map["a" := 1]), 4,
                       map[2 := Pending("a", 0)], Waiting,
                       [Hit(0, "a", 0, 1, true, false), Hit(1, "a", 0, 11, true, false), Hit(3, "a", 1, 12, true, false)],
                       map[2 := "a"])
  {
    evs, s := SweepBetween(cfg);
    evs, s := Append(1, evs, s, Lookup("a"), cfg);
    evs, s := Append(1, evs, s, Count(3), cfg);
  }

  /** So is a second one. */
  lemma SecondWindow(cfg: Config) returns (evs: seq<Event>, s: State)
    requires cfg == Config(2, 10)
    ensures Exec(1, evs, cfg) == Some(s)
    ensures s.clock == 12 && s.pending == map[2 := Pending("a", 0)] && s.stranded == map[2 := "a"]
    ensures s.table == Table([Entry("a", 2, 11), Entry("a", 2, 22)], map["a" := 1])
    ensures s.hits == [Hit(0, "a", 0, 1, true, false), Hit(1, "a", 0, 11, true, false),
                       Hit(3, "a", 1, 12, true, false), Hit(4, "a", 1, 12, true, false)]
  {
    evs, s := NewEntry(cfg);
    evs, s := Append(1, evs, s, Lookup("a"), cfg);
    evs, s := Append(1, evs, s, Count(4), cfg);
  }

  lemma AdmissionsSnoc(hits: seq<Hit>, h: Hit, ip: string, a: int, b: int)
    ensures Admissions(hits + [h], ip, a, b)
         == Admissions(hits, ip, a, b) + if h.ip == ip && h.ok && a <= h.at <= b then 1 else 0
  {
    assert (hits + [h])[..|hits|] == hits;
  }

  /** Four of these requests are admitted in [11, 21], one of them on a deleted entry. */
  lemma AttainedCount(hits: seq<Hit>)
    requires hits == [Hit(0, "a", 0, 1, true, false), Hit(1, "a", 0, 11, true, false), Hit(3, "a", 1, 12, true, false),
                      Hit(4, "a", 1, 12, true, false), Hit(2, "a", 0, 12, true, true)]
    ensures Admissions(hits, "a", 11, 21) == 4
  {
    var h0, h1, h3, h4, h2 := hits[0], hits[1], hits[2], hits[3], hits[4];
    assert hits == [] + [h0] + [h1] + [h3] + [h4] + [h2];
    AdmissionsSnoc([], h0, "a", 11, 21);
    AdmissionsSnoc([] + [h0], h1, "a", 11, 21);
    AdmissionsSnoc([] + [h0] + [h1], h3, "a", 11, 21);
    AdmissionsSnoc([] + [h0] + [h1] + [h3], h4, "a", 11, 21);
    AdmissionsSnoc([] + [h0] + [h1] + [h3] + [h4], h2, "a", 11, 21);
  }

  lemma OneStale(hits: seq<Hit>)
    requires |hits| == 5 && hits[4] == Hit(2, "a", 0, 12, true, true)
    requires forall i :: 0 <= i < 4 ==> !hits[i].stale
    ensures StaleAdmissions(hits, "a", 11, 21) == {2}
  {
    assert AdmittedStale(hits[4], "a", 11, 21) && hits[4] in hits;
  }

  /** With max = 2 a run admits 2 * max - 1 live requests and one stranded request of the same IP in
      one closed interval of length `window`. */
  lemma AdmissionsBoundAttained() returns (evs: seq<Event>, cfg: Config)
    ensures cfg == Config(2, 10) && Exec(1, evs, cfg).Some?
    ensures var s := Exec(1, evs, cfg).value;
            && StaleAdmissions(s.hits, "a", 11, 21) == {2}
            && Admissions(s.hits, "a", 11, 21) == Bound(2) + 1
  {
    cfg := Config(2, 10);
    var s;
    evs, s := SecondWindow(cfg);
    evs, s := Append(1, evs, s, Count(2), cfg);
    AttainedCount(s.hits);
    OneStale(s.hits);
  }
}
