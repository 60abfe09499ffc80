/**
 The handlers of internal/handlers/handlers.go as methods.  Served and its lemmas connect them with the
 steps that CacheAside interleaves: a handler that nothing interrupts is a run of those steps.
 */
module Handlers {
  import opened Common
  import C = TtlCache
  import P = CacheAside

  /** A section of a reply: what was read, or the zero value or placeholder that a failed read leaves. */
  datatype Shown = Value(value: string) | Placeholder

  datatype Reply = Page(sections: seq<Shown>) | Success | ServerError | MethodNotAllowed

  type Db = db: map<P.Section, string> | (forall sec :: sec in db)
    witness map sec | sec in P.AllSections() :: ""

  type Entries = map<string, C.Entry<seq<Shown>>>

  function ReadOne(db: Db, sec: P.Section, ok: P.Section -> bool): Shown {
    if ok(sec) then Value(db[sec]) else Placeholder
  }

  /** What reading the sections in order yields, given which of the reads succeed. */
  function ReadAll(db: Db, sections: seq<P.Section>, ok: P.Section -> bool): seq<Shown> {
    seq(|sections|, i requires 0 <= i < |sections| => ReadOne(db, sections[i], ok))
  }

  /** A failed read is shown and cached, except that of the languages. */
  predicate Fails(page: P.Page, ok: P.Section -> bool) {
    page.Languages? && !ok(P.Langs)
  }

  /** A GET that looks the page up at `now` and, on a miss, stores it at `later`. */
  function Served(db: Db, m: Entries, page: P.Page, ok: P.Section -> bool, now: int, later: int, ttl: int)
    : (Reply, Entries)
  {
    match C.Checked(C.Found(m, P.Key(page)), now)
    case Some(sections) => (Page(sections), m)
    case None =>
      if Fails(page, ok) then (ServerError, m)
      else
        var sections := ReadAll(db, P.Sections(page), ok);
        (Page(sections), m[P.Key(page) := C.Entry(sections, later + ttl)])
  }

  /** The cache holds the page and it has not expired. */
  predicate Cached(m: Entries, page: P.Page, now: int) {
    P.Key(page) in m && now <= m[P.Key(page)].expiresAt
  }

  /** What a page shows when its sections are read now: the value of each read that succeeds. */
  ghost predicate ShowsDb(sections: seq<Shown>, db: Db, page: P.Page, ok: P.Section -> bool) {
    && |sections| == |P.Sections(page)|
    && forall i :: 0 <= i < |sections| ==>
         sections[i] == if ok(P.Sections(page)[i]) then Value(db[P.Sections(page)[i]]) else Placeholder
  }

  /** A page that is cached and has not expired is served as it was stored, and nothing changes. */
  lemma ServedFromCache(db: Db, m: Entries, page: P.Page, ok: P.Section -> bool, now: int, later: int, ttl: int)
    requires Cached(m, page, now)
    ensures Served(db, m, page, ok, now, later, ttl) == (Page(m[P.Key(page)].value), m)
  {
  }

  /** Over any cache, a page that is missing or expired is answered with what the database holds now; the
      very sections shown are stored for the ttl, and no other entry changes.  Only a failed read of the
      languages is an error, and then nothing is stored. */
  lemma ServedFromDb(db: Db, m: Entries, page: P.Page, ok: P.Section -> bool, now: int, later: int, ttl: int)
    requires !Cached(m, page, now)
    ensures var (r, m') := Served(db, m, page, ok, now, later, ttl);
            if page.Languages? && !ok(P.Langs) then r == ServerError && m' == m
            else r.Page? && ShowsDb(r.sections, db, page, ok) && m' == m[P.Key(page) := C.Entry(r.sections, later + ttl)]
  {
  }

  class Handler {
    var db: Db
    const cache: C.Cache<seq<Shown>>

    constructor (db: Db, cache: C.Cache<seq<Shown>>)
      ensures this.db == db && this.cache == cache
    {
      this.db, this.cache := db, cache;
    }

    /** GET /api/content */
    method Content(get: bool, ok: P.Section -> bool, now: int, later: int) returns (r: Reply)
      modifies cache
      ensures !get ==> r == MethodNotAllowed && cache.m == old(cache.m)
      ensures get ==> (r, cache.m) == Served(db, old(cache.m), P.Content, ok, now, later, cache.ttl)
    {
      if !get {
        return MethodNotAllowed;
      }
      var cached := cache.Get("content", now);
      if cached.Some? {
        return Page(cached.value);
      }
      var site := ReadOne(db, P.Site, ok);
      var slides := ReadOne(db, P.Hero, ok);
      var stats := ReadOne(db, P.Stats, ok);
      var about := ReadOne(db, P.About, ok);
      var services := ReadOne(db, P.Services, ok);
      var news := ReadOne(db, P.News, ok);
      var partners := ReadOne(db, P.Partners, ok);
      var contact := ReadOne(db, P.Contact, ok);
      var payload := [site, slides, stats, about, services, news, partners, contact];
      assert payload == ReadAll(db, P.Sections(P.Content), ok);
      cache.Set("content", payload, later);
      r := Page(payload);
    }

    /** GET /api/languages: a failed read is reported and not cached. */
    method Languages(get: bool, ok: P.Section -> bool, now: int, later: int) returns (r: Reply)
      modifies cache
      ensures !get ==> r == MethodNotAllowed && cache.m == old(cache.m)
      ensures get ==> (r, cache.m) == Served(db, old(cache.m), P.Languages, ok, now, later, cache.ttl)
    {
      if !get {
        return MethodNotAllowed;
      }
      var cached := cache.Get("languages", now);
      if cached.Some? {
        return Page(cached.value);
      }
      var langs := ReadOne(db, P.Langs, ok);
      if langs.Placeholder? {
        return ServerError;
      }
      assert [langs] == ReadAll(db, P.Sections(P.Languages), ok);
      cache.Set("languages", [langs], later);
      r := Page([langs]);
    }

    /** GET /api/sidepanel: the repository turns a failed read into a placeholder, which is cached. */
    method SidePanel(get: bool, ok: P.Section -> bool, now: int, later: int) returns (r: Reply)
      modifies cache
      ensures !get ==> r == MethodNotAllowed && cache.m == old(cache.m)
      ensures get ==> (r, cache.m) == Served(db, old(cache.m), P.SidePanel, ok, now, later, cache.ttl)
    {
      if !get {
        return MethodNotAllowed;
      }
      var cached := cache.Get("sidepanel", now);
      if cached.Some? {
        return Page(cached.value);
      }
      var cfg := ReadOne(db, P.Panel, ok);
      assert [cfg] == ReadAll(db, P.Sections(P.SidePanel), ok);
      cache.Set("sidepanel", [cfg], later);
      r := Page([cfg]);
    }

    /** adminPUT: the cache is flushed after a successful update and only then. */
    method AdminPut(put: bool, sec: P.Section, value: string, ok: bool) returns (r: Reply)
      modifies this, cache
      ensures r == if !put then MethodNotAllowed else if ok then Success else ServerError
      ensures r.Success? ==> db == old(db)[sec := value] && cache.m == map[]
      ensures !r.Success? ==> db == old(db) && cache.m == old(cache.m)
    {
      if !put {
        return MethodNotAllowed;
      }
      if !ok {
        return ServerError;
      }
      db := db[sec := value];
      cache.Flush();
      r := Success;
    }

    /** The GET route of a page. */
    method Get(page: P.Page, ok: P.Section -> bool, now: int, later: int) returns (r: Reply)
      modifies cache
      ensures (r, cache.m) == Served(db, old(cache.m), page, ok, now, later, cache.ttl)
      ensures Cached(old(cache.m), page, now) ==> r == Page(old(cache.m)[P.Key(page)].value) && cache.m == old(cache.m)
      ensures !Cached(old(cache.m), page, now) ==>
                && (r.ServerError? <==> page.Languages? && !ok(P.Langs))
                && (r.ServerError? || (r.Page? && ShowsDb(r.sections, db, page, ok)))
                && cache.m == if r.ServerError? then old(cache.m)
                              else old(cache.m)[P.Key(page) := C.Entry(r.sections, later + cache.ttl)]
    {
      if Cached(cache.m, page, now) {
        ServedFromCache(db, cache.m, page, ok, now, later, cache.ttl);
      } else {
        ServedFromDb(db, cache.m, page, ok, now, later, cache.ttl);
      }
      match page
      case Content => r := Content(true, ok, now, later);
      case Languages => r := Languages(true, ok, now, later);
      case SidePanel => r := SidePanel(true, ok, now, later);
    }

    /** Without interleaving, a GET after a PUT shows the section that was put, and every other as it is in
        the database, whatever was cached before; a section whose read fails is a placeholder. */
    method PutThenGet(sec: P.Section, value: string, page: P.Page, ok: P.Section -> bool, now: int, later: int)
      returns (r: Reply)
      modifies this, cache
      ensures r.ServerError? <==> Fails(page, ok)
      ensures !Fails(page, ok) ==>
                && r.Page? && |r.sections| == |P.Sections(page)|
                && forall i :: 0 <= i < |r.sections| ==>
                     r.sections[i] ==
                     if !ok(P.Sections(page)[i]) then Placeholder
                     else if P.Sections(page)[i] == sec then Value(value)
                     else Value(old(db)[P.Sections(page)[i]])
    {
      var done := AdminPut(true, sec, value, true);
      r := Get(page, ok, now, later);
    }
  }

  // A handler on its own, as steps of the protocol.

  function Show(c: P.Cell): Shown {
    if c.Read? then Value(c.value) else Placeholder
  }

  function ShowAll(cells: seq<P.Cell>): seq<Shown> {
    seq(|cells|, i requires 0 <= i < |cells| => Show(cells[i]))
  }

  function ShowEntry(e: Option<C.Entry<P.Payload>>): Option<C.Entry<seq<Shown>>> {
    if e.None? then None else Some(C.Entry(ShowAll(e.value.value.cells), e.value.expiresAt))
  }

  /** db holds the last committed values. */
  ghost predicate Holds(s: P.State, db: Db) {
    P.HasHistory(s) && forall sec :: s.hist[sec][|s.hist[sec]| - 1].value == db[sec]
  }

  /** The caches agree on every page. */
  ghost predicate SameCache(s: P.State, m: Entries) {
    forall page :: ShowEntry(C.Found(s.cache, P.Key(page))) == C.Found(m, P.Key(page))
  }

  /** The reads of reader r, up to the k-th section of the page. */
  function Reads(r: nat, page: P.Page, ok: P.Section -> bool, k: nat): seq<P.Event>
    requires k <= |P.Sections(page)|
  {
    if k == 0 then [] else Reads(r, page, ok, k - 1) + [P.ReadSection(r, ok(P.Sections(page)[k - 1]))]
  }

  lemma ShowSnoc(cells: seq<P.Cell>, c: P.Cell, db: Db, sections: seq<P.Section>, ok: P.Section -> bool)
    requires |cells| < |sections| && ShowAll(cells) == ReadAll(db, sections, ok)[..|cells|]
    requires Show(c) == ReadOne(db, sections[|cells|], ok)
    ensures ShowAll(cells + [c]) == ReadAll(db, sections, ok)[..|cells| + 1]
  {
    forall i | 0 <= i <= |cells| ensures ShowAll(cells + [c])[i] == ReadAll(db, sections, ok)[i] {
      if i < |cells| {
        assert ShowAll(cells)[i] == ReadAll(db, sections, ok)[..|cells|][i];
      }
    }
  }

  /** The cell a read adds. */
  function ReadCell(s: P.State, sec: P.Section, ok: bool): P.Cell
    requires P.HasHistory(s)
  {
    if ok then P.Current(s, sec) else P.Failed(s.clock, s.step)
  }

  /** Only reader r has moved. */
  function Moved(s: P.State, r: nat, to: P.Reader, step: nat): P.State {
    s.(step := step, readers := s.readers[r := to])
  }

  lemma ReadStep(s: P.State, r: nat, page: P.Page, cells: seq<P.Cell>, ok: bool, ttl: int)
    requires P.HasHistory(s) && r in s.readers && s.readers[r] == P.Filling(page, cells)
    requires |cells| < |P.Sections(page)| && (page.Languages? ==> ok)
    ensures P.Enabled(s, P.ReadSection(r, ok))
    ensures P.Step(s, P.ReadSection(r, ok), ttl)
         == Moved(s, r, P.Filling(page, cells + [ReadCell(s, P.Sections(page)[|cells|], ok)]), s.step + 1)
  {
  }

  lemma ReadCellShows(s: P.State, db: Db, sec: P.Section, ok: P.Section -> bool)
    requires Holds(s, db)
    ensures Show(ReadCell(s, sec, ok(sec))) == ReadOne(db, sec, ok)
  {
  }

  lemma MovedTwice(s: P.State, r: nat, to: P.Reader, to': P.Reader, step: nat, step': nat)
    ensures Moved(Moved(s, r, to, step), r, to', step') == Moved(s, r, to', step')
  {
  }

  lemma NextRead(start: int, evs: seq<P.Event>, s: P.State, s1: P.State, r: nat, page: P.Page, cells1: seq<P.Cell>,
                 ok: bool, ttl: int)
    returns (evs': seq<P.Event>, s': P.State, c: P.Cell)
    requires P.Exec(start, evs, ttl) == Some(s1) && P.HasHistory(s)
    requires s1 == Moved(s, r, P.Filling(page, cells1), s1.step)
    requires |cells1| < |P.Sections(page)| && (page.Languages? ==> ok)
    ensures evs' == evs + [P.ReadSection(r, ok)] && P.Exec(start, evs', ttl) == Some(s')
    ensures s' == Moved(s, r, P.Filling(page, cells1 + [c]), s'.step)
    ensures c == ReadCell(s1, P.Sections(page)[|cells1|], ok)
  {
    ReadStep(s1, r, page, cells1, ok, ttl);
    c := ReadCell(s1, P.Sections(page)[|cells1|], ok);
    evs', s' := P.Extend(start, evs, s1, P.ReadSection(r, ok), ttl);
    MovedTwice(s, r, P.Filling(page, cells1), P.Filling(page, cells1 + [c]), s1.step, s'.step);
  }

  lemma ReadsSnoc(evs: seq<P.Event>, evs1: seq<P.Event>, evs': seq<P.Event>, r: nat, page: P.Page,
                  ok: P.Section -> bool, k: nat)
    requires 0 < k <= |P.Sections(page)| && evs1 == evs + Reads(r, page, ok, k - 1)
    requires evs' == evs1 + [P.ReadSection(r, ok(P.Sections(page)[k - 1]))]
    ensures evs' == evs + Reads(r, page, ok, k)
  {
  }

  /** The reads of a fill show what ReadAll does, and leave all else as it was. */
  lemma {:induction false} FillReads(start: int, evs: seq<P.Event>, s: P.State, r: nat, page: P.Page, k: nat,
                                     ok: P.Section -> bool, db: Db, ttl: int)
    returns (evs': seq<P.Event>, s': P.State, cells: seq<P.Cell>)
    requires P.Exec(start, evs, ttl) == Some(s) && Holds(s, db)
    requires s == Moved(s, r, P.Filling(page, []), s.step) && !Fails(page, ok) && k <= |P.Sections(page)|
    ensures evs' == evs + Reads(r, page, ok, k) && P.Exec(start, evs', ttl) == Some(s')
    ensures s' == Moved(s, r, P.Filling(page, cells), s'.step)
    ensures |cells| == k && ShowAll(cells) == ReadAll(db, P.Sections(page), ok)[..k]
    decreases k
  {
    if k == 0 {
      evs', s', cells := evs, s, [];
    } else {
      var sec := P.Sections(page)[k - 1];
      var evs1, s1, cells1 := FillReads(start, evs, s, r, page, k - 1, ok, db, ttl);
      var c;
      evs', s', c := NextRead(start, evs1, s, s1, r, page, cells1, ok(sec), ttl);
      ReadCellShows(s1, db, sec, ok);
      ShowSnoc(cells1, c, db, P.Sections(page), ok);
      ReadsSnoc(evs, evs1, evs', r, page, ok, k);
      cells := cells1 + [c];
    }
  }

  /** The steps of a GET that nothing interrupts. */
  function GetSteps(hit: bool, r: nat, page: P.Page, ok: P.Section -> bool, later: int): seq<P.Event> {
    if hit then [P.StartGet(page), P.CheckGet(r)]
    else [P.StartGet(page), P.CheckGet(r)] + MissSteps(r, page, ok, later)
  }

  function MissSteps(r: nat, page: P.Page, ok: P.Section -> bool, later: int): seq<P.Event> {
    if Fails(page, ok) then [P.ReadSection(r, false)]
    else Reads(r, page, ok, |P.Sections(page)|) + [P.Tick(later), P.Fill(r)]
  }

  /** What the request leaves as it was, apart from the clock and the cache. */
  ghost predicate Ended(s: P.State, s': P.State, r: nat) {
    s'.hist == s.hist && s'.writers == s.writers && s'.puts == s.puts && s'.readers == s.readers - {r}
  }

  lemma CheckedIsShown(found: Option<C.Entry<P.Payload>>, now: int)
    ensures C.Checked(found, now).None? <==> C.Checked(ShowEntry(found), now).None?
    ensures C.Checked(found, now).Some? ==>
              C.Checked(ShowEntry(found), now).value == ShowAll(C.Checked(found, now).value.cells)
  {
  }

  lemma SameEntry(s: P.State, m: Entries, page: P.Page)
    requires SameCache(s, m)
    ensures ShowEntry(C.Found(s.cache, P.Key(page))) == C.Found(m, P.Key(page))
  {
  }

  lemma ExtendTwice(start: int, evs: seq<P.Event>, s: P.State, e: P.Event, e': P.Event, ttl: int)
    returns (evs': seq<P.Event>)
    requires P.Exec(start, evs, ttl) == Some(s) && P.Enabled(s, e) && P.Enabled(P.Step(s, e, ttl), e')
    ensures evs' == evs + [e, e'] && P.Exec(start, evs', ttl) == Some(P.Step(P.Step(s, e, ttl), e', ttl))
  {
    var s';
    evs', s' := P.Extend(start, evs, s, e, ttl);
    evs', s' := P.Extend(start, evs', s', e', ttl);
    assert evs + [e] + [e'] == evs + [e, e'];
  }

  /** The look-up and the check of a GET. */
  function LookedUp(s: P.State, page: P.Page): P.State {
    match C.Checked(C.Found(s.cache, P.Key(page)), s.clock)
    case Some(payload) =>
      s.(step := s.step + 2, next := s.next + 1, readers := s.readers - {s.next},
         hits := s.hits + [P.Hit(payload, s.clock, s.step)])
    case None => Moved(s.(next := s.next + 1), s.next, P.Filling(page, []), s.step + 2)
  }

  lemma LookUpEffect(s: P.State, page: P.Page, ttl: int)
    requires P.HasHistory(s)
    ensures P.Enabled(P.Step(s, P.StartGet(page), ttl), P.CheckGet(s.next))
    ensures P.Step(P.Step(s, P.StartGet(page), ttl), P.CheckGet(s.next), ttl) == LookedUp(s, page)
  {
    assert s.readers[s.next := P.Looked(page, C.Found(s.cache, P.Key(page)), s.step)] - {s.next} == s.readers - {s.next};
  }

  /** The failed read that ends a GET of the languages. */
  lemma FailEffect(s: P.State, r: nat, ttl: int)
    requires P.HasHistory(s) && r in s.readers && s.readers[r] == P.Filling(P.Languages, [])
    ensures P.Enabled(s, P.ReadSection(r, false))
    ensures P.Step(s, P.ReadSection(r, false), ttl) == s.(step := s.step + 1, readers := s.readers - {r})
  {
  }

  /** A complete fill is stored. */
  function Stored(s: P.State, r: nat, page: P.Page, cells: seq<P.Cell>, later: int, ttl: int): P.State {
    var p := P.Payload(page, cells, later, s.step + 1);
    s.(clock := later, step := s.step + 2, readers := s.readers - {r},
       cache := s.cache[P.Key(page) := C.Entry(p, later + ttl)])
  }

  lemma StoreEffect(s: P.State, r: nat, page: P.Page, cells: seq<P.Cell>, later: int, ttl: int)
    requires P.HasHistory(s) && r in s.readers && s.readers[r] == P.Filling(page, cells)
    requires |cells| == |P.Sections(page)| && s.clock <= later
    ensures P.Enabled(P.Step(s, P.Tick(later), ttl), P.Fill(r))
    ensures P.Step(P.Step(s, P.Tick(later), ttl), P.Fill(r), ttl) == Stored(s, r, page, cells, later, ttl)
  {
  }

  lemma StoredIsSame(s: P.State, m: Entries, r: nat, page: P.Page, cells: seq<P.Cell>, later: int, ttl: int)
    requires SameCache(s, m)
    ensures SameCache(Stored(s, r, page, cells, later, ttl), m[P.Key(page) := C.Entry(ShowAll(cells), later + ttl)])
  {
    var s', m' := Stored(s, r, page, cells, later, ttl), m[P.Key(page) := C.Entry(ShowAll(cells), later + ttl)];
    forall q ensures ShowEntry(C.Found(s'.cache, P.Key(q))) == C.Found(m', P.Key(q)) {
      SameEntry(s, m, q);
    }
  }

  /** A miss of the languages whose read fails. */
  lemma FailedMiss(start: int, evs: seq<P.Event>, s: P.State, r: nat, ttl: int)
    returns (evs': seq<P.Event>, s': P.State)
    requires P.Exec(start, evs, ttl) == Some(s) && s == Moved(s, r, P.Filling(P.Languages, []), s.step)
    ensures P.Exec(start, evs', ttl) == Some(s') && evs' == evs + [P.ReadSection(r, false)]
    ensures Ended(s, s', r) && s'.hits == s.hits && s'.cache == s.cache
  {
    FailEffect(s, r, ttl);
    evs', s' := P.Extend(start, evs, s, P.ReadSection(r, false), ttl);
  }

  lemma MissStepsJoin(evs: seq<P.Event>, evs1: seq<P.Event>, evs': seq<P.Event>, r: nat, page: P.Page,
                      ok: P.Section -> bool, later: int)
    requires evs1 == evs + Reads(r, page, ok, |P.Sections(page)|) && !Fails(page, ok)
    requires evs' == evs1 + [P.Tick(later), P.Fill(r)]
    ensures evs' == evs + MissSteps(r, page, ok, later)
  {
    var fill := Reads(r, page, ok, |P.Sections(page)|);
    assert evs + fill + [P.Tick(later), P.Fill(r)] == evs + (fill + [P.Tick(later), P.Fill(r)]);
  }

  /** A miss whose reads are stored. */
  lemma StoredMiss(start: int, evs: seq<P.Event>, s: P.State, r: nat, page: P.Page, ok: P.Section -> bool, later: int,
                   db: Db, m: Entries, ttl: int)
    returns (evs': seq<P.Event>, s': P.State)
    requires P.Exec(start, evs, ttl) == Some(s) && Holds(s, db) && SameCache(s, m) && s.clock <= later
    requires s == Moved(s, r, P.Filling(page, []), s.step) && !Fails(page, ok)
    ensures P.Exec(start, evs', ttl) == Some(s')
    ensures evs' == evs + MissSteps(r, page, ok, later)
    ensures Ended(s, s', r) && s'.hits == s.hits
    ensures SameCache(s', m[P.Key(page) := C.Entry(ReadAll(db, P.Sections(page), ok), later + ttl)])
  {
    var n, shown := |P.Sections(page)|, ReadAll(db, P.Sections(page), ok);
    var evs1, s1, cells := FillReads(start, evs, s, r, page, n, ok, db, ttl);
    assert shown[..n] == shown;
    StoreEffect(s1, r, page, cells, later, ttl);
    evs' := ExtendTwice(start, evs1, s1, P.Tick(later), P.Fill(r), ttl);
    s' := Stored(s1, r, page, cells, later, ttl);
    StoredIsSame(s1, m, r, page, cells, later, ttl);
    MissStepsJoin(evs, evs1, evs', r, page, ok, later);
    assert s.readers[r := P.Filling(page, cells)] - {r} == s.readers - {r};
  }

  /** What a GET that nothing interrupts does to the protocol: it answers a hit with what the hit holds, a
      miss with what its fill stores, and leaves the same cache. */
  ghost predicate Answered(s: P.State, s': P.State, page: P.Page, ok: P.Section -> bool, later: int, db: Db,
                           m: Entries, ttl: int)
  {
    var (reply, m') := Served(db, m, page, ok, s.clock, later, ttl);
    && Ended(s, s', s.next) && SameCache(s', m')
    && if C.Checked(C.Found(m, P.Key(page)), s.clock).None? then
         && s'.hits == s.hits
         && if page.Languages? && !ok(P.Langs) then reply == ServerError && s'.cache == s.cache
            else P.Key(page) in s'.cache && reply == Page(ShowAll(s'.cache[P.Key(page)].value.cells))
       else exists h :: s'.hits == s.hits + [h] && reply == Page(ShowAll(h.payload.cells))
  }

  lemma HitIsAnswered(s: P.State, page: P.Page, ok: P.Section -> bool, later: int, db: Db, m: Entries, ttl: int)
    requires SameCache(s, m) && C.Checked(C.Found(m, P.Key(page)), s.clock).Some?
    ensures Answered(s, LookedUp(s, page), page, ok, later, db, m, ttl)
  {
    SameEntry(s, m, page);
    CheckedIsShown(C.Found(s.cache, P.Key(page)), s.clock);
    var payload := C.Checked(C.Found(s.cache, P.Key(page)), s.clock).value;
    assert LookedUp(s, page).hits == s.hits + [P.Hit(payload, s.clock, s.step)];
  }

  lemma MissIsMissed(s: P.State, page: P.Page, m: Entries)
    requires SameCache(s, m) && C.Checked(C.Found(m, P.Key(page)), s.clock).None?
    ensures LookedUp(s, page) == Moved(s.(next := s.next + 1), s.next, P.Filling(page, []), s.step + 2)
  {
    SameEntry(s, m, page);
    CheckedIsShown(C.Found(s.cache, P.Key(page)), s.clock);
  }

  lemma MissEnds(s: P.State, s': P.State, page: P.Page, ok: P.Section -> bool, later: int, db: Db, m: Entries, ttl: int)
    requires SameCache(s, m) && C.Checked(C.Found(m, P.Key(page)), s.clock).None?
    requires Ended(LookedUp(s, page), s', s.next) && s'.hits == s.hits
    requires SameCache(s', Served(db, m, page, ok, s.clock, later, ttl).1)
    requires Fails(page, ok) ==> s'.cache == s.cache
    ensures Answered(s, s', page, ok, later, db, m, ttl)
  {
    MissIsMissed(s, page, m);
    assert s.readers[s.next := P.Filling(page, [])] - {s.next} == s.readers - {s.next};
  }

  lemma MissIsAnswered(start: int, evs: seq<P.Event>, s: P.State, page: P.Page, ok: P.Section -> bool, later: int,
                       db: Db, m: Entries, ttl: int)
    returns (evs': seq<P.Event>, s': P.State)
    requires Holds(s, db) && SameCache(s, m) && s.clock <= later
    requires P.Exec(start, evs, ttl) == Some(LookedUp(s, page)) && C.Checked(C.Found(m, P.Key(page)), s.clock).None?
    ensures P.Exec(start, evs', ttl) == Some(s') && Answered(s, s', page, ok, later, db, m, ttl)
    ensures evs' == evs + MissSteps(s.next, page, ok, later)
  {
    MissIsMissed(s, page, m);
    var s1 := LookedUp(s, page);
    if Fails(page, ok) {
      evs', s' := FailedMiss(start, evs, s1, s.next, ttl);
    } else {
      evs', s' := StoredMiss(start, evs, s1, s.next, page, ok, later, db, m, ttl);
    }
    MissEnds(s, s', page, ok, later, db, m, ttl);
  }

  lemma GetStepsJoin(evs: seq<P.Event>, evs1: seq<P.Event>, evs': seq<P.Event>, r: nat, page: P.Page,
                     ok: P.Section -> bool, later: int)
    requires evs1 == evs + [P.StartGet(page), P.CheckGet(r)] && evs' == evs1 + MissSteps(r, page, ok, later)
    ensures evs' == evs + GetSteps(false, r, page, ok, later)
  {
  }

  lemma LookUpRun(start: int, evs: seq<P.Event>, s: P.State, page: P.Page, ttl: int) returns (evs': seq<P.Event>)
    requires P.Exec(start, evs, ttl) == Some(s)
    ensures evs' == evs + [P.StartGet(page), P.CheckGet(s.next)]
    ensures P.Exec(start, evs', ttl) == Some(LookedUp(s, page))
  {
    LookUpEffect(s, page, ttl);
    evs' := ExtendTwice(start, evs, s, P.StartGet(page), P.CheckGet(s.next), ttl);
  }

  /** From any state of the protocol, a GET that nothing interrupts is a run of its steps. */
  lemma GetIsRun(start: int, evs: seq<P.Event>, s: P.State, page: P.Page, ok: P.Section -> bool, later: int,
                 db: Db, m: Entries, ttl: int)
    returns (evs': seq<P.Event>, s': P.State)
    requires P.Exec(start, evs, ttl) == Some(s) && Holds(s, db) && SameCache(s, m) && s.clock <= later
    ensures P.Exec(start, evs', ttl) == Some(s') && Answered(s, s', page, ok, later, db, m, ttl)
    ensures evs' == evs + GetSteps(C.Checked(C.Found(m, P.Key(page)), s.clock).Some?, s.next, page, ok, later)
  {
    var evs1 := LookUpRun(start, evs, s, page, ttl);
    if C.Checked(C.Found(m, P.Key(page)), s.clock).Some? {
      evs', s' := evs1, LookedUp(s, page);
      HitIsAnswered(s, page, ok, later, db, m, ttl);
    } else {
      evs', s' := MissIsAnswered(start, evs1, s, page, ok, later, db, m, ttl);
      GetStepsJoin(evs, evs1, evs', s.next, page, ok, later);
    }
  }

  lemma PutEffect(s: P.State, sec: P.Section, value: string, db: Db, ttl: int)
    requires Holds(s, db)
    ensures var s1 := P.Step(s, P.CommitPut(sec, value), ttl);
            && P.Enabled(s1, P.FlushPut(s.next)) && Holds(s1, db[sec := value])
            && s1.readers == s.readers && s1.writers - {s.next} == s.writers - {s.next} && s1.hits == s.hits
  {
  }

  lemma FlushEffect(s: P.State, w: nat, ttl: int)
    requires P.HasHistory(s) && P.Enabled(s, P.FlushPut(w))
    ensures var s' := P.Step(s, P.FlushPut(w), ttl);
            && s'.hist == s.hist && SameCache(s', map[])
            && s'.readers == s.readers && s'.writers == s.writers - {w} && s'.hits == s.hits
  {
  }

  /** A PUT that nothing interrupts is a commit and a flush. */
  lemma PutIsRun(start: int, evs: seq<P.Event>, s: P.State, sec: P.Section, value: string, db: Db, ttl: int)
    returns (evs': seq<P.Event>, s': P.State)
    requires P.Exec(start, evs, ttl) == Some(s) && Holds(s, db)
    ensures evs' == evs + [P.CommitPut(sec, value), P.FlushPut(s.next)] && P.Exec(start, evs', ttl) == Some(s')
    ensures Holds(s', db[sec := value]) && SameCache(s', map[])
    ensures s'.readers == s.readers && s'.writers == s.writers - {s.next} && s'.hits == s.hits
  {
    PutEffect(s, sec, value, db, ttl);
    var s1 := P.Step(s, P.CommitPut(sec, value), ttl);
    FlushEffect(s1, s.next, ttl);
    s' := P.Step(s1, P.FlushPut(s.next), ttl);
    evs' := ExtendTwice(start, evs, s, P.CommitPut(sec, value), P.FlushPut(s.next), ttl);
  }
}
