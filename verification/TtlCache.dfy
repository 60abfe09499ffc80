/**
 The in-memory cache of internal/cache/cache.go: a map with expiry times, and a goroutine that deletes
 expired entries.  Get copies the entry out under the lock and compares it with the clock after
 letting go of the lock; evict reads the clock before it takes the lock.
 */
module TtlCache {
  import opened Common

  datatype Entry<V> = Entry(value: V, expiresAt: int)

  predicate Expired<V>(e: Entry<V>, now: int) {
    now > e.expiresAt
  }

  function Found<V>(m: map<string, Entry<V>>, key: string): Option<Entry<V>> {
    if key in m then Some(m[key]) else None
  }

  /** What Get returns for the entry it copied out. */
  function Checked<V>(found: Option<Entry<V>>, now: int): Option<V> {
    if found.None? || Expired(found.value, now) then None else Some(found.value.value)
  }

  function Evicted<V>(m: map<string, Entry<V>>, now: int): map<string, Entry<V>> {
    map k | k in m && !Expired(m[k], now) :: m[k]
  }

  class Cache<V> {
    var m: map<string, Entry<V>>
    const ttl: int

    constructor (ttl: int)
      ensures m == map[] && this.ttl == ttl
    {
      m, this.ttl := map[], ttl;
    }

    method Set(key: string, val: V, now: int)
      modifies this
      ensures m == old(m)[key := Entry(val, now + ttl)]
    {
      m := m[key := Entry(val, now + ttl)];
    }

    method Get(key: string, now: int) returns (r: Option<V>)
      ensures r == Checked(Found(m, key), now)
      ensures r == if key in m && now <= m[key].expiresAt then Some(m[key].value) else None
    {
      if key !in m || now > m[key].expiresAt {
        r := None;
      } else {
        r := Some(m[key].value);
      }
    }

    method Flush()
      modifies this
      ensures m == map[]
    {
      m := map[];
    }

    /** One tick of evict, whose clock was read before the lock was taken. */
    method Evict(now: int)
      modifies this
      ensures m == Evicted(old(m), now)
      ensures forall k :: k in m <==> k in old(m) && now <= old(m)[k].expiresAt
      ensures forall k :: k in m ==> m[k] == old(m)[k]
    {
      var todo := m.Keys;
      while todo != {}
        invariant todo <= m.Keys
        invariant m == map k | k in old(m) && (k in todo || !Expired(old(m)[k], now)) :: old(m)[k]
        decreases todo
      {
        var k :| k in todo;
        todo := todo - {k};
        if now > m[k].expiresAt {
          m := m - {k};
        }
      }
    }
  }

  // The cache under arbitrary concurrent use.

  /** A finished Get. */
  datatype Result<V> = Result(req: nat, key: string, at: int, value: Option<V>)

  datatype Pending<V> = Pending(key: string, found: Option<Entry<V>>)

  datatype State<V> = State(clock: int, m: map<string, Entry<V>>, next: nat, gets: map<nat, Pending<V>>,
                            evictor: Option<int>, results: seq<Result<V>>)

  datatype Event<V> =
    | Tick(now: int)
    | Set(key: string, value: V)
    | Lookup(key: string)
    | Check(req: nat)
    | Flush
    | ReadClock
    | Evict

  function Init<V>(start: int): State<V> {
    State(start, map[], 0, map[], None, [])
  }

  predicate Enabled<V>(s: State<V>, e: Event<V>) {
    match e
    case Tick(now) => s.clock <= now
    case Check(req) => req in s.gets
    case ReadClock => s.evictor.None?
    case Evict => s.evictor.Some?
    case _ => true
  }

  function Step<V>(s: State<V>, e: Event<V>, ttl: int): State<V>
    requires Enabled(s, e)
  {
    match e
    case Tick(now) => s.(clock := now)
    case Set(key, value) => s.(m := s.m[key := Entry(value, s.clock + ttl)])
    case Lookup(key) => s.(next := s.next + 1, gets := s.gets[s.next := Pending(key, Found(s.m, key))])
    case Check(req) =>
      var p := s.gets[req];
      s.(gets := s.gets - {req},
         results := s.results + [Result(req, p.key, s.clock, Checked(p.found, s.clock))])
    case Flush => s.(m := map[])
    case ReadClock => s.(evictor := Some(s.clock))
    case Evict => s.(m := Evicted(s.m, s.evictor.value), evictor := None)
  }

  /** The state after a run; None if some event of it was not enabled. */
  function Exec<V>(start: int, evs: seq<Event<V>>, ttl: int): Option<State<V>> {
    if |evs| == 0 then Some(Init(start))
    else
      var before := Exec(start, evs[..|evs| - 1], ttl);
      if before.Some? && Enabled(before.value, evs[|evs| - 1])
      then Some(Step(before.value, evs[|evs| - 1], ttl))
      else None
  }

  /** The same run on a plain map: nothing is ever evicted. */
  function WithoutEvict<V>(evs: seq<Event<V>>): seq<Event<V>> {
    if |evs| == 0 then []
    else
      var e, before := evs[|evs| - 1], WithoutEvict(evs[..|evs| - 1]);
      if e.ReadClock? || e.Evict? then before else before + [e]
  }

  /** An entry and the one evict may have removed are alike from now on. */
  ghost predicate Alike<V(!new)>(found: Option<Entry<V>>, found': Option<Entry<V>>, clock: int) {
    found == found' || (found.None? && Expired(found'.value, clock))
  }

  /** s is s' except for expired entries that evict has removed. */
  ghost predicate Simulates<V(!new)>(s: State<V>, s': State<V>) {
    && s.clock == s'.clock && s.next == s'.next && s.results == s'.results
    && (s.evictor.Some? ==> s.evictor.value <= s.clock)
    && (forall k :: Alike(Found(s.m, k), Found(s'.m, k), s.clock))
    && s.gets.Keys == s'.gets.Keys
    && forall r :: r in s.gets ==>
         s.gets[r].key == s'.gets[r].key && Alike(s.gets[r].found, s'.gets[r].found, s.clock)
  }

  lemma SimulatesStep<V(!new)>(s: State<V>, s': State<V>, e: Event<V>, ttl: int)
    requires Simulates(s, s') && Enabled(s, e)
    ensures e.ReadClock? || e.Evict? ==> Simulates(Step(s, e, ttl), s')
    ensures !e.ReadClock? && !e.Evict? ==> Enabled(s', e) && Simulates(Step(s, e, ttl), Step(s', e, ttl))
  {
    match e
    case Evict =>
      forall k ensures Alike(Found(Step(s, e, ttl).m, k), Found(s'.m, k), s.clock) {
        assert Alike(Found(s.m, k), Found(s'.m, k), s.clock);
      }
    case Set(key, value) =>
      forall k ensures Alike(Found(Step(s, e, ttl).m, k), Found(Step(s', e, ttl).m, k), s.clock) {
        assert Alike(Found(s.m, k), Found(s'.m, k), s.clock);
      }
    case Lookup(key) => assert Alike(Found(s.m, key), Found(s'.m, key), s.clock);
    case _ =>
  }

  /** No result of Get depends on when or whether evict ran: over every interleaving of sets, look-ups,
      expiry checks, flushes and evictions, it is that of the same run on a map without evictions. */
  lemma {:induction false} EvictionUnobservable<V(!new)>(start: int, evs: seq<Event<V>>, ttl: int)
    requires Exec(start, evs, ttl).Some?
    ensures Exec(start, WithoutEvict(evs), ttl).Some?
    ensures Simulates(Exec(start, evs, ttl).value, Exec(start, WithoutEvict(evs), ttl).value)
  {
    if |evs| > 0 {
      var before, e := evs[..|evs| - 1], evs[|evs| - 1];
      EvictionUnobservable(start, before, ttl);
      var kept := WithoutEvict(before);
      SimulatesStep(Exec(start, before, ttl).value, Exec(start, kept, ttl).value, e, ttl);
      assert (kept + [e])[..|kept|] == kept;
    }
  }

  // What a Get returns, without the map.

  function ClockOf<V>(start: int, evs: seq<Event<V>>): int {
    if |evs| == 0 then start
    else if evs[|evs| - 1].Tick? then evs[|evs| - 1].now
    else ClockOf(start, evs[..|evs| - 1])
  }

  /** The last value set for key since the last flush, and when it expires. */
  function LastWrite<V>(start: int, evs: seq<Event<V>>, key: string, ttl: int): Option<Entry<V>> {
    if |evs| == 0 then None
    else
      var e, before := evs[|evs| - 1], evs[..|evs| - 1];
      if e.Flush? then None
      else if e.Set? && e.key == key then Some(Entry(e.value, ClockOf(start, before) + ttl))
      else LastWrite(start, before, key, ttl)
  }

  /** The number of Gets begun in a run; they are numbered from 0. */
  function Lookups<V>(evs: seq<Event<V>>): nat {
    if |evs| == 0 then 0
    else if evs[|evs| - 1].Lookup? then Lookups(evs[..|evs| - 1]) + 1
    else Lookups(evs[..|evs| - 1])
  }

  /** Event i is the look-up with which Get `req` began. */
  predicate BeginsAt<V(==)>(evs: seq<Event<V>>, i: int, req: nat, key: string) {
    0 <= i < |evs| && evs[i] == Lookup(key) && Lookups(evs[..i]) == req
  }

  /** Event j is the check with which Get `req` ended. */
  predicate EndsAt<V(==)>(start: int, evs: seq<Event<V>>, j: int, req: nat, at: int) {
    0 <= j < |evs| && evs[j] == Check(req) && ClockOf(start, evs[..j]) == at
  }

  /** `found` is, up to expiry, what had last been written for the key of Get `req` at its look-up. */
  ghost predicate LookedUp<V(!new)>(start: int, evs: seq<Event<V>>, req: nat, p: Pending<V>, clock: int, ttl: int) {
    exists i :: BeginsAt(evs, i, req, p.key) && Alike(p.found, LastWrite(start, evs[..i], p.key, ttl), clock)
  }

  /** The value is what had last been written for the key at the look-up of this very Get, unless that
      had expired at its check. */
  ghost predicate Returned<V(!new)>(start: int, evs: seq<Event<V>>, r: Result<V>, ttl: int) {
    exists i, j :: Explains(start, evs, r, i, j, ttl)
  }

  ghost predicate Explains<V(!new)>(start: int, evs: seq<Event<V>>, r: Result<V>, i: int, j: int, ttl: int) {
    && i < j && BeginsAt(evs, i, r.req, r.key) && EndsAt(start, evs, j, r.req, r.at)
    && r.value == Checked(LastWrite(start, evs[..i], r.key, ttl), r.at)
  }

  /** A Get has one look-up. */
  lemma {:induction false} BeginsOnce<V(!new)>(evs: seq<Event<V>>, i: nat, j: nat, req: nat, key: string, key': string)
    requires BeginsAt(evs, i, req, key) && BeginsAt(evs, j, req, key')
    ensures i == j
  {
    if i < j {
      LookupsGrow(evs, i, j);
    } else if j < i {
      LookupsGrow(evs, j, i);
    }
  }

  lemma {:induction false} LookupsGrow<V(!new)>(evs: seq<Event<V>>, i: nat, j: nat)
    requires i < j <= |evs| && evs[i].Lookup?
    ensures Lookups(evs[..i]) < Lookups(evs[..j])
  {
    assert evs[..j][..j - 1] == evs[..j - 1];
    if i < j - 1 {
      LookupsGrow(evs, i, j - 1);
    }
  }

  ghost predicate Tracks<V(!new)>(start: int, evs: seq<Event<V>>, s: State<V>, ttl: int) {
    && s.clock == ClockOf(start, evs) && s.next == Lookups(evs)
    && (s.evictor.Some? ==> s.evictor.value <= s.clock)
    && (forall k :: Alike(Found(s.m, k), LastWrite(start, evs, k, ttl), s.clock))
    && (forall r :: r in s.gets ==> LookedUp(start, evs, r, s.gets[r], s.clock, ttl))
    && (forall r :: r in s.results ==> Returned(start, evs, r, ttl))
  }

  lemma BeginsLater<V(!new)>(evs: seq<Event<V>>, e: Event<V>, i: int, req: nat, key: string)
    requires BeginsAt(evs, i, req, key)
    ensures BeginsAt(evs + [e], i, req, key) && (evs + [e])[..i] == evs[..i]
  {
    assert (evs + [e])[..i] == evs[..i] && (evs + [e])[i] == evs[i];
  }

  lemma LookedUpLater<V(!new)>(start: int, evs: seq<Event<V>>, e: Event<V>, req: nat, p: Pending<V>,
                               clock: int, clock': int, ttl: int)
    requires LookedUp(start, evs, req, p, clock, ttl) && clock <= clock'
    ensures LookedUp(start, evs + [e], req, p, clock', ttl)
  {
    var i :| BeginsAt(evs, i, req, p.key) && Alike(p.found, LastWrite(start, evs[..i], p.key, ttl), clock);
    BeginsLater(evs, e, i, req, p.key);
  }

  lemma ReturnedLater<V(!new)>(start: int, evs: seq<Event<V>>, e: Event<V>, r: Result<V>, ttl: int)
    requires Returned(start, evs, r, ttl)
    ensures Returned(start, evs + [e], r, ttl)
  {
    var i, j :| Explains(start, evs, r, i, j, ttl);
    BeginsLater(evs, e, i, r.req, r.key);
    assert (evs + [e])[..j] == evs[..j] && (evs + [e])[j] == evs[j];
    assert Explains(start, evs + [e], r, i, j, ttl);
  }

  /** What a look-up finds is explained by the look-up itself. */
  lemma LookedUpNow<V(!new)>(start: int, evs: seq<Event<V>>, p: Pending<V>, clock: int, ttl: int)
    requires Alike(p.found, LastWrite(start, evs, p.key, ttl), clock)
    ensures LookedUp(start, evs + [Lookup(p.key)], Lookups(evs), p, clock, ttl)
  {
    var evs' := evs + [Lookup(p.key)];
    assert evs'[..|evs|] == evs;
    assert BeginsAt(evs', |evs|, Lookups(evs), p.key);
  }

  lemma ReturnedNow<V(!new)>(start: int, evs: seq<Event<V>>, req: nat, p: Pending<V>, clock: int, ttl: int)
    requires LookedUp(start, evs, req, p, clock, ttl) && clock == ClockOf(start, evs)
    ensures Returned(start, evs + [Check(req)], Result(req, p.key, clock, Checked(p.found, clock)), ttl)
  {
    var evs', r := evs + [Check(req)], Result(req, p.key, clock, Checked(p.found, clock));
    var i :| BeginsAt(evs, i, req, p.key) && Alike(p.found, LastWrite(start, evs[..i], p.key, ttl), clock);
    BeginsLater(evs, Check(req), i, req, p.key);
    assert evs'[..|evs|] == evs;
    assert Explains(start, evs', r, i, |evs|, ttl);
  }

  lemma MapTracks<V(!new)>(start: int, evs: seq<Event<V>>, s: State<V>, e: Event<V>, key: string, ttl: int)
    requires Tracks(start, evs, s, ttl) && Enabled(s, e)
    ensures Alike(Found(Step(s, e, ttl).m, key), LastWrite(start, evs + [e], key, ttl), Step(s, e, ttl).clock)
  {
    assert (evs + [e])[..|evs|] == evs;
    assert Alike(Found(s.m, key), LastWrite(start, evs, key, ttl), s.clock);
  }

  lemma TracksStep<V(!new)>(start: int, evs: seq<Event<V>>, s: State<V>, e: Event<V>, ttl: int)
    requires Tracks(start, evs, s, ttl) && Enabled(s, e)
    ensures Tracks(start, evs + [e], Step(s, e, ttl), ttl)
  {
    var s', evs' := Step(s, e, ttl), evs + [e];
    assert evs'[..|evs|] == evs;
    forall k ensures Alike(Found(s'.m, k), LastWrite(start, evs', k, ttl), s'.clock) {
      MapTracks(start, evs, s, e, k, ttl);
    }
    forall r | r in s'.gets ensures LookedUp(start, evs', r, s'.gets[r], s'.clock, ttl) {
      if e.Lookup? && r == s.next {
        LookedUpNow(start, evs, Pending(e.key, Found(s.m, e.key)), s.clock, ttl);
      } else {
        LookedUpLater(start, evs, e, r, s.gets[r], s.clock, s'.clock, ttl);
      }
    }
    forall r | r in s'.results ensures Returned(start, evs', r, ttl) {
      if r in s.results {
        ReturnedLater(start, evs, e, r, ttl);
      } else {
        ReturnedNow(start, evs, e.req, s.gets[e.req], s.clock, ttl);
      }
    }
  }

  lemma {:induction false} TracksRun<V(!new)>(start: int, evs: seq<Event<V>>, ttl: int)
    requires Exec(start, evs, ttl).Some?
    ensures Tracks(start, evs, Exec(start, evs, ttl).value, ttl)
  {
    if |evs| > 0 {
      var before, e := evs[..|evs| - 1], evs[|evs| - 1];
      TracksRun(start, before, ttl);
      TracksStep(start, before, Exec(start, before, ttl).value, e, ttl);
      assert before + [e] == evs;
    }
  }

  /** Every Get returns the value last set for its key before its own look-up and since the last flush,
      provided it had not expired when the Get read the clock; evictions do not matter. */
  lemma GetReturnsLastWrite<V(!new)>(start: int, evs: seq<Event<V>>, ttl: int, r: Result<V>) returns (i: nat, j: nat)
    requires Exec(start, evs, ttl).Some? && r in Exec(start, evs, ttl).value.results
    ensures i < j && BeginsAt(evs, i, r.req, r.key) && EndsAt(start, evs, j, r.req, r.at)
    ensures r.value == Checked(LastWrite(start, evs[..i], r.key, ttl), r.at)
  {
    TracksRun(start, evs, ttl);
    assert Returned(start, evs, r, ttl);
    i, j :| Explains(start, evs, r, i, j, ttl);
  }

  /** In particular a Get that begins after a flush returns nothing older than the flush. */
  lemma NothingFlushedReturns<V(!new)>(start: int, evs: seq<Event<V>>, ttl: int, r: Result<V>, f: nat, i: nat)
    requires Exec(start, evs, ttl).Some? && r in Exec(start, evs, ttl).value.results
    requires f < i < |evs| && evs[f].Flush? && BeginsAt(evs, i, r.req, r.key) && r.value.Some?
    ensures exists w :: f < w < i && evs[w] == Set(r.key, r.value.value)
  {
    var i', j := GetReturnsLastWrite(start, evs, ttl, r);
    BeginsOnce(evs, i, i', r.req, r.key, r.key);
    var w := WrittenAfter(start, evs, i, f, r.key, ttl);
  }

  /** The last write since a flush was made after it. */
  lemma {:induction false} WrittenAfter<V(!new)>(start: int, evs: seq<Event<V>>, i: nat, f: nat, key: string, ttl: int)
    returns (w: nat)
    requires f < i <= |evs| && evs[f].Flush? && LastWrite(start, evs[..i], key, ttl).Some?
    ensures f < w < i && evs[w] == Set(key, LastWrite(start, evs[..i], key, ttl).value.value)
  {
    var e := evs[i - 1];
    assert evs[..i][..i - 1] == evs[..i - 1];
    if e.Set? && e.key == key {
      w := i - 1;
    } else {
      w := WrittenAfter(start, evs, i - 1, f, key, ttl);
    }
  }

  /** The key has been neither set nor flushed from event a on, before event b. */
  ghost predicate Untouched<V(!new)>(evs: seq<Event<V>>, a: nat, b: nat, key: string) {
    forall j :: a <= j < b <= |evs| ==> !evs[j].Flush? && !(evs[j].Set? && evs[j].key == key)
  }

  lemma {:induction false} LastWriteIs<V(!new)>(start: int, evs: seq<Event<V>>, w: nat, i: nat, key: string, v: V, ttl: int)
    requires w < i <= |evs| && evs[w] == Set(key, v) && Untouched(evs, w + 1, i, key)
    ensures LastWrite(start, evs[..i], key, ttl) == Some(Entry(v, ClockOf(start, evs[..w]) + ttl))
    decreases i
  {
    assert evs[..i][..i - 1] == evs[..i - 1];
    if w < i - 1 {
      LastWriteIs(start, evs, w, i - 1, key, v, ttl);
    }
  }

  lemma {:induction false} NoWrite<V(!new)>(start: int, evs: seq<Event<V>>, f: nat, i: nat, key: string, ttl: int)
    requires f <= i <= |evs| && Untouched(evs, f, i, key) && (f == 0 || evs[f - 1].Flush?)
    ensures LastWrite(start, evs[..i], key, ttl) == None
    decreases i
  {
    if i > 0 {
      assert evs[..i][..i - 1] == evs[..i - 1];
      if f < i {
        NoWrite(start, evs, f, i - 1, key, ttl);
      }
    }
  }

  /** Exactly what a Get returns that begins at event i, when the key was last set at event w and not flushed
      since: the value set then if the Get reads the clock within the ttl, and nothing if it reads it later. */
  lemma GetIsExact<V(!new)>(start: int, evs: seq<Event<V>>, ttl: int, r: Result<V>, i: nat, w: nat, v: V)
    requires Exec(start, evs, ttl).Some? && r in Exec(start, evs, ttl).value.results && BeginsAt(evs, i, r.req, r.key)
    requires w < i && evs[w] == Set(r.key, v) && Untouched(evs, w + 1, i, r.key)
    ensures r.value == if r.at <= ClockOf(start, evs[..w]) + ttl then Some(v) else None
  {
    var i', j := GetReturnsLastWrite(start, evs, ttl, r);
    BeginsOnce(evs, i, i', r.req, r.key, r.key);
    LastWriteIs(start, evs, w, i, r.key, v, ttl);
  }

  /** And when the key has not been set since the last flush, or since the start: nothing. */
  lemma GetFindsNothing<V(!new)>(start: int, evs: seq<Event<V>>, ttl: int, r: Result<V>, i: nat, f: nat)
    requires Exec(start, evs, ttl).Some? && r in Exec(start, evs, ttl).value.results && BeginsAt(evs, i, r.req, r.key)
    requires f <= i && Untouched(evs, f, i, r.key) && (f == 0 || evs[f - 1].Flush?)
    ensures r.value == None
  {
    var i', j := GetReturnsLastWrite(start, evs, ttl, r);
    BeginsOnce(evs, i, i', r.req, r.key, r.key);
    NoWrite(start, evs, f, i, r.key, ttl);
  }

  /** A tick of evict leaves exactly the entries that had not expired when it read the clock. */
  lemma EvictIsExact<V(!new)>(start: int, evs: seq<Event<V>>, ttl: int)
    requires Exec(start, evs, ttl).Some? && Exec(start, evs, ttl).value.evictor.Some?
    ensures Exec(start, evs + [Evict], ttl).Some?
    ensures var s, s' := Exec(start, evs, ttl).value, Exec(start, evs + [Evict], ttl).value;
            && (forall k :: k in s'.m <==> k in s.m && s.evictor.value <= s.m[k].expiresAt)
            && forall k :: k in s'.m ==> s'.m[k] == s.m[k]
  {
    assert (evs + [Evict])[..|evs|] == evs;
  }

  lemma Extend<V(!new)>(start: int, evs: seq<Event<V>>, s: State<V>, e: Event<V>, ttl: int)
    returns (evs': seq<Event<V>>, s': State<V>)
    requires Exec(start, evs, ttl) == Some(s) && Enabled(s, e)
    ensures evs' == evs + [e] && s' == Step(s, e, ttl) && Exec(start, evs', ttl) == Some(s')
  {
    evs', s' := evs + [e], Step(s, e, ttl);
    assert evs'[..|evs|] == evs;
  }

  /** A Get that nothing interrupts is a look-up and a check. */
  lemma GetIsRun<V(!new)>(start: int, evs: seq<Event<V>>, s: State<V>, key: string, now: int, ttl: int)
    returns (evs': seq<Event<V>>, s': State<V>)
    requires Exec(start, evs, ttl) == Some(s) && s.clock <= now
    ensures evs' == evs + [Lookup(key)] + [Tick(now)] + [Check(s.next)] && Exec(start, evs', ttl) == Some(s')
    ensures s'.m == s.m
    ensures s'.results == s.results + [Result(s.next, key, now, if key in s.m && now <= s.m[key].expiresAt
                                                              then Some(s.m[key].value) else None)]
  {
    evs', s' := Extend(start, evs, s, Lookup(key), ttl);
    evs', s' := Extend(start, evs', s', Tick(now), ttl);
    evs', s' := Extend(start, evs', s', Check(s.next), ttl);
  }
}
