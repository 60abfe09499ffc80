/**
 The cache-aside protocol of internal/handlers/handlers.go.  A reader looks the page up, and on a miss
 reads its sections from the database one statement after the other and stores what it got; a PUT
 commits one section and then flushes the cache; evict runs in the background.  Nothing makes these
 sequences atomic.

 Every event of a run has a number, `step`.  Values read carry the moment, the event and the version of
 the section they came from, which the program does not store.
 */
module CacheAside {
  import opened Common
  import C = TtlCache

  datatype Section = Site | Hero | Stats | About | Services | News | Partners | Contact | Langs | Panel

  datatype Page = Content | Languages | SidePanel

  function Key(page: Page): string {
    match page
    case Content => "content"
    case Languages => "languages"
    case SidePanel => "sidepanel"
  }

  /** The sections of a page in the order in which the handler reads them. */
  function Sections(page: Page): (r: seq<Section>)
    ensures |r| > 0
  {
    match page
    case Content => [Site, Hero, Stats, About, Services, News, Partners, Contact]
    case Languages => [Langs]
    case SidePanel => [Panel]
  }

  /** A section as a fill has it: read, or the zero value or placeholder that stands for a failed read. */
  datatype Cell = Read(value: string, version: nat, at: int, step: nat) | Failed(at: int, step: nat)

  datatype Payload = Payload(page: Page, cells: seq<Cell>, setAt: int, setStep: nat)

  datatype Commit = Commit(value: string, at: int, step: nat)

  datatype Reader =
    | Looked(page: Page, found: Option<C.Entry<Payload>>, step: nat)
    | Filling(page: Page, cells: seq<Cell>)

  /** A PUT between its commit and its flush. */
  datatype Writer = Committed(section: Section, version: nat)

  /** A PUT that has flushed. */
  datatype Put = Put(section: Section, version: nat, flushStep: nat)

  datatype Hit = Hit(payload: Payload, at: int, lookupStep: nat)

  datatype State = State(clock: int, step: nat, hist: map<Section, seq<Commit>>,
                         cache: map<string, C.Entry<Payload>>, next: nat,
                         readers: map<nat, Reader>, writers: map<nat, Writer>, evictor: Option<int>,
                         puts: seq<Put>, hits: seq<Hit>)

  datatype Event =
    | Tick(now: int)
    | StartGet(page: Page)
    | CheckGet(reader: nat)
    | ReadSection(reader: nat, ok: bool)
    | Fill(reader: nat)
    | CommitPut(section: Section, value: string)
    | FlushPut(writer: nat)
    | LosePut(writer: nat)
    | ReadClock
    | Evict

  function Init(start: int): (s: State)
    ensures HasHistory(s)
  {
    State(start, 1, map sec | sec in AllSections() :: [Commit("", start, 0)], map[], 0, map[], map[], None, [], [])
  }

  function AllSections(): (r: set<Section>)
    ensures forall sec :: sec in r
  {
    assert forall sec: Section :: sec in SECTIONS by {
      forall sec: Section ensures sec in SECTIONS { EverySection(sec); }
    }
    SECTIONS
  }

  const SECTIONS := {Site, Hero, Stats, About, Services, News, Partners, Contact, Langs, Panel}

  lemma EverySection(sec: Section)
    ensures sec in SECTIONS
  {
    match sec
    case Site =>
    case _ =>
  }

  predicate Complete(r: Reader) {
    r.Filling? && |r.cells| == |Sections(r.page)|
  }

  predicate Enabled(s: State, e: Event) {
    match e
    case Tick(now) => s.clock <= now
    case StartGet(_) => true
    case CheckGet(r) => r in s.readers && s.readers[r].Looked?
    case ReadSection(r, _) =>
      r in s.readers && s.readers[r].Filling? && |s.readers[r].cells| < |Sections(s.readers[r].page)|
    case Fill(r) => r in s.readers && Complete(s.readers[r])
    case CommitPut(_, _) => true
    case FlushPut(w) => w in s.writers
    case LosePut(w) => w in s.writers
    case ReadClock => s.evictor.None?
    case Evict => s.evictor.Some?
  }

  ghost predicate HasHistory(s: State) {
    forall sec :: sec in s.hist && |s.hist[sec]| > 0
  }

  /** The value a statement of this event reads for a section. */
  function Current(s: State, sec: Section): Cell
    requires HasHistory(s)
  {
    var h := s.hist[sec];
    Read(h[|h| - 1].value, |h| - 1, s.clock, s.step)
  }

  function Effect(s: State, e: Event, ttl: int): State
    requires HasHistory(s) && Enabled(s, e)
  {
    match e
    case Tick(now) => s.(clock := now)
    case StartGet(page) =>
      var found := C.Found(s.cache, Key(page));
      s.(next := s.next + 1, readers := s.readers[s.next := Looked(page, found, s.step)])
    case CheckGet(r) =>
      var looked := s.readers[r];
      (match C.Checked(looked.found, s.clock)
       case Some(payload) => s.(readers := s.readers - {r}, hits := s.hits + [Hit(payload, s.clock, looked.step)])
       case None => s.(readers := s.readers[r := Filling(looked.page, [])]))
    case ReadSection(r, ok) =>
      var Filling(page, cells) := s.readers[r];
      // A failed read is cached, except that of the languages, which ends the request.
      if !ok && page.Languages? then s.(readers := s.readers - {r})
      else
        var cell := if ok then Current(s, Sections(page)[|cells|]) else Failed(s.clock, s.step);
        s.(readers := s.readers[r := Filling(page, cells + [cell])])
    case Fill(r) =>
      var Filling(page, cells) := s.readers[r];
      var entry := C.Entry(Payload(page, cells, s.clock, s.step), s.clock + ttl);
      s.(cache := s.cache[Key(page) := entry], readers := s.readers - {r})
    case CommitPut(sec, value) =>
      s.(hist := s.hist[sec := s.hist[sec] + [Commit(value, s.clock, s.step)]],
         next := s.next + 1, writers := s.writers[s.next := Committed(sec, |s.hist[sec]|)])
    case FlushPut(w) =>
      var Committed(sec, version) := s.writers[w];
      s.(cache := map[], writers := s.writers - {w}, puts := s.puts + [Put(sec, version, s.step)])
    case LosePut(w) => s.(writers := s.writers - {w}) // committed, but the handler saw an error or died
    case ReadClock => s.(evictor := Some(s.clock))
    case Evict => s.(cache := C.Evicted(s.cache, s.evictor.value), evictor := None)
  }

  function Step(s: State, e: Event, ttl: int): (s': State)
    requires HasHistory(s) && Enabled(s, e)
    ensures HasHistory(s')
  {
    Effect(s, e, ttl).(step := s.step + 1)
  }

  /** The state after a run; None if some event of it was not enabled. */
  function Exec(start: int, evs: seq<Event>, ttl: int): (r: Option<State>)
    ensures r.Some? ==> HasHistory(r.value)
  {
    if |evs| == 0 then Some(Init(start))
    else
      var before := Exec(start, evs[..|evs| - 1], ttl);
      if before.Some? && Enabled(before.value, evs[|evs| - 1])
      then Some(Step(before.value, evs[|evs| - 1], ttl))
      else None
  }

  // Invariants.

  ghost predicate HistoryOk(h: seq<Commit>, clock: int, step: nat) {
    && (forall i, j :: 0 <= i < j < |h| ==> h[i].step < h[j].step && h[i].at <= h[j].at)
    && (forall i :: 0 <= i < |h| ==> h[i].step < step && h[i].at <= clock)
  }

  /** A cell holds what its section was at the event that read it. */
  ghost predicate CellOk(c: Cell, h: seq<Commit>, clock: int, step: nat) {
    && c.at <= clock && c.step < step
    && (c.Read? ==>
          && c.version < |h| && c.value == h[c.version].value
          && h[c.version].step < c.step && h[c.version].at <= c.at
          && (c.version + 1 < |h| ==> c.step < h[c.version + 1].step && c.at <= h[c.version + 1].at))
  }

  ghost predicate CellsOk(s: State, page: Page, cells: seq<Cell>)
    requires HasHistory(s)
  {
    && |cells| <= |Sections(page)|
    && (forall i :: 0 <= i < |cells| ==> CellOk(cells[i], s.hist[Sections(page)[i]], s.clock, s.step))
    && (forall i, j :: 0 <= i <= j < |cells| ==> cells[i].at <= cells[j].at)
  }

  ghost predicate PayloadOk(s: State, p: Payload)
    requires HasHistory(s)
  {
    && CellsOk(s, p.page, p.cells) && |p.cells| == |Sections(p.page)|
    && p.setAt <= s.clock && p.setStep < s.step
    && forall c :: c in p.cells ==> c.at <= p.setAt && c.step < p.setStep
  }

  /** No flush before event `step` came after the payload was stored. */
  ghost predicate Unflushed(puts: seq<Put>, p: Payload, step: nat) {
    forall put :: put in puts && put.flushStep < step ==> put.flushStep < p.setStep
  }

  ghost predicate EntryOk(s: State, e: C.Entry<Payload>, page: Page, step: nat, ttl: int)
    requires HasHistory(s)
  {
    PayloadOk(s, e.value) && e.value.page == page && e.expiresAt == e.value.setAt + ttl && Unflushed(s.puts, e.value, step)
  }

  ghost predicate ReaderOk(s: State, r: Reader, ttl: int)
    requires HasHistory(s)
  {
    match r
    case Looked(page, found, step) => step < s.step && (found.Some? ==> EntryOk(s, found.value, page, step, ttl))
    case Filling(page, cells) => CellsOk(s, page, cells)
  }

  ghost predicate PutOk(s: State, put: Put)
    requires HasHistory(s)
  {
    put.version < |s.hist[put.section]| && s.hist[put.section][put.version].step < put.flushStep < s.step
  }

  ghost predicate HitOk(s: State, h: Hit, ttl: int)
    requires HasHistory(s)
  {
    && PayloadOk(s, h.payload) && Unflushed(s.puts, h.payload, h.lookupStep)
    && h.payload.setAt <= h.at <= h.payload.setAt + ttl && h.lookupStep < s.step
  }

  ghost predicate Inv(s: State, ttl: int)
    requires HasHistory(s)
  {
    && (forall sec :: HistoryOk(s.hist[sec], s.clock, s.step))
    && (forall page :: Key(page) in s.cache ==> EntryOk(s, s.cache[Key(page)], page, s.step, ttl))
    && (forall r :: r in s.readers ==> ReaderOk(s, s.readers[r], ttl))
    && (forall w :: w in s.writers ==> s.writers[w].version < |s.hist[s.writers[w].section]|)
    && (forall put :: put in s.puts ==> PutOk(s, put))
    && (forall h :: h in s.hits ==> HitOk(s, h, ttl))
  }

  // What a step leaves as it was.

  /** At most one commit is added to a history, at this moment and by this event. */
  ghost predicate Extends(h: seq<Commit>, h': seq<Commit>, clock: int, step: nat) {
    h' == h || (|h'| == |h| + 1 && h <= h' && h'[|h|].at == clock && h'[|h|].step == step)
  }

  ghost predicate Later(s: State, s': State)
    requires HasHistory(s) && HasHistory(s')
  {
    && s.clock <= s'.clock && s'.step == s.step + 1
    && (forall sec :: Extends(s.hist[sec], s'.hist[sec], s.clock, s.step))
    && s.puts <= s'.puts && forall i :: |s.puts| <= i < |s'.puts| ==> s.step <= s'.puts[i].flushStep
  }

  lemma StepLater(s: State, e: Event, ttl: int)
    requires HasHistory(s) && Enabled(s, e)
    ensures Later(s, Step(s, e, ttl))
  {
  }

  lemma CellsLater(s: State, s': State, page: Page, cells: seq<Cell>)
    requires HasHistory(s) && HasHistory(s') && Later(s, s') && CellsOk(s, page, cells)
    ensures CellsOk(s', page, cells)
  {
    forall i | 0 <= i < |cells| ensures CellOk(cells[i], s'.hist[Sections(page)[i]], s'.clock, s'.step) {
      CellLater(s, s', cells[i], Sections(page)[i]);
    }
  }

  lemma CellLater(s: State, s': State, c: Cell, sec: Section)
    requires HasHistory(s) && HasHistory(s') && Later(s, s') && CellOk(c, s.hist[sec], s.clock, s.step)
    ensures CellOk(c, s'.hist[sec], s'.clock, s'.step)
  {
    assert Extends(s.hist[sec], s'.hist[sec], s.clock, s.step);
  }

  lemma UnflushedLater(s: State, s': State, p: Payload, step: nat)
    requires HasHistory(s) && HasHistory(s') && Later(s, s') && Unflushed(s.puts, p, step) && step <= s.step
    ensures Unflushed(s'.puts, p, step)
  {
    forall put | put in s'.puts && put.flushStep < step ensures put.flushStep < p.setStep {
      var i :| 0 <= i < |s'.puts| && s'.puts[i] == put;
      assert i < |s.puts| && put == s.puts[i];
    }
  }

  lemma HitLater(s: State, s': State, h: Hit, ttl: int)
    requires HasHistory(s) && HasHistory(s') && Later(s, s') && HitOk(s, h, ttl)
    ensures HitOk(s', h, ttl)
  {
    CellsLater(s, s', h.payload.page, h.payload.cells);
    UnflushedLater(s, s', h.payload, h.lookupStep);
  }

  lemma EntryLater(s: State, s': State, e: C.Entry<Payload>, page: Page, step: nat, ttl: int)
    requires HasHistory(s) && HasHistory(s') && Later(s, s') && EntryOk(s, e, page, step, ttl) && step <= s.step
    ensures EntryOk(s', e, page, step, ttl)
  {
    CellsLater(s, s', e.value.page, e.value.cells);
    UnflushedLater(s, s', e.value, step);
  }

  lemma ReaderLater(s: State, s': State, r: Reader, ttl: int)
    requires HasHistory(s) && HasHistory(s') && Later(s, s') && ReaderOk(s, r, ttl)
    ensures ReaderOk(s', r, ttl)
  {
    match r
    case Looked(page, found, step) =>
      if found.Some? {
        EntryLater(s, s', found.value, page, step, ttl);
      }
    case Filling(page, cells) => CellsLater(s, s', page, cells);
  }

  // Each part of the invariant, step by step.

  lemma HistoryStep(s: State, s': State, ttl: int)
    requires HasHistory(s) && HasHistory(s') && Later(s, s') && Inv(s, ttl)
    ensures forall sec :: HistoryOk(s'.hist[sec], s'.clock, s'.step)
  {
    forall sec ensures HistoryOk(s'.hist[sec], s'.clock, s'.step) {
      assert HistoryOk(s.hist[sec], s.clock, s.step) && Extends(s.hist[sec], s'.hist[sec], s.clock, s.step);
    }
  }

  lemma PutLater(s: State, s': State, put: Put)
    requires HasHistory(s) && HasHistory(s') && Later(s, s') && PutOk(s, put)
    ensures PutOk(s', put)
  {
    assert Extends(s.hist[put.section], s'.hist[put.section], s.clock, s.step);
  }

  lemma FlushedOk(s: State, w: nat, ttl: int)
    requires HasHistory(s) && Enabled(s, FlushPut(w)) && Inv(s, ttl)
    ensures PutOk(Step(s, FlushPut(w), ttl), Put(s.writers[w].section, s.writers[w].version, s.step))
  {
    assert HistoryOk(s.hist[s.writers[w].section], s.clock, s.step);
  }

  lemma PutsStep(s: State, e: Event, ttl: int)
    requires HasHistory(s) && Enabled(s, e) && Inv(s, ttl)
    ensures var s' := Step(s, e, ttl);
            forall put :: put in s'.puts ==> PutOk(s', put)
  {
    var s' := Step(s, e, ttl);
    StepLater(s, e, ttl);
    forall put | put in s'.puts ensures PutOk(s', put) {
      if put in s.puts {
        PutLater(s, s', put);
      } else {
        FlushedOk(s, e.writer, ttl);
      }
    }
  }

  lemma WriterLater(s: State, s': State, sec: Section, version: nat)
    requires HasHistory(s) && HasHistory(s') && Later(s, s') && version < |s.hist[sec]|
    ensures version < |s'.hist[sec]|
  {
    assert Extends(s.hist[sec], s'.hist[sec], s.clock, s.step);
  }

  lemma WritersStep(s: State, e: Event, ttl: int)
    requires HasHistory(s) && Enabled(s, e)
    requires forall w :: w in s.writers ==> s.writers[w].version < |s.hist[s.writers[w].section]|
    ensures var s' := Step(s, e, ttl);
            forall w :: w in s'.writers ==> s'.writers[w].version < |s'.hist[s'.writers[w].section]|
  {
    var s' := Step(s, e, ttl);
    StepLater(s, e, ttl);
    forall w | w in s'.writers ensures s'.writers[w].version < |s'.hist[s'.writers[w].section]| {
      if w in s.writers && s'.writers[w] == s.writers[w] {
        WriterLater(s, s', s.writers[w].section, s.writers[w].version);
      }
    }
  }

  /** The cell that a read of this event yields. */
  lemma CurrentOk(s: State, sec: Section, ttl: int)
    requires HasHistory(s) && Inv(s, ttl)
    ensures CellOk(Current(s, sec), s.hist[sec], s.clock, s.step + 1)
  {
    assert HistoryOk(s.hist[sec], s.clock, s.step);
  }

  lemma CellsSnoc(s: State, page: Page, cells: seq<Cell>, c: Cell)
    requires HasHistory(s) && CellsOk(s, page, cells) && |cells| < |Sections(page)|
    requires CellOk(c, s.hist[Sections(page)[|cells|]], s.clock, s.step)
    requires forall b :: b in cells ==> b.at <= c.at
    ensures CellsOk(s, page, cells + [c])
  {
  }

  lemma FillingStep(s: State, s': State, page: Page, cells: seq<Cell>, c: Cell, ttl: int)
    requires HasHistory(s) && HasHistory(s') && Later(s, s') && Inv(s, ttl) && CellsOk(s, page, cells)
    requires |cells| < |Sections(page)| && s'.hist == s.hist && s'.clock == s.clock
    requires c == Current(s, Sections(page)[|cells|]) || c == Failed(s.clock, s.step)
    ensures CellsOk(s', page, cells + [c])
  {
    CellsLater(s, s', page, cells);
    CurrentOk(s, Sections(page)[|cells|], ttl);
    forall b | b in cells ensures b.at <= c.at {
      var i :| 0 <= i < |cells| && cells[i] == b;
      assert CellOk(cells[i], s.hist[Sections(page)[i]], s.clock, s.step);
    }
    CellsSnoc(s', page, cells, c);
  }

  /** The readers an event leaves alone, and the one it moves. */
  lemma ReadersMoved(s: State, e: Event, r: nat, ttl: int)
    requires HasHistory(s) && Enabled(s, e) && r in Step(s, e, ttl).readers
    ensures var now := Step(s, e, ttl).readers[r];
            || (r in s.readers && now == s.readers[r])
            || (e.StartGet? && now == Looked(e.page, C.Found(s.cache, Key(e.page)), s.step))
            || (e.CheckGet? && now == Filling(s.readers[e.reader].page, []))
            || (e.ReadSection? && r == e.reader)
  {
  }

  lemma ReadersStep(s: State, e: Event, ttl: int)
    requires HasHistory(s) && Enabled(s, e) && Inv(s, ttl)
    ensures var s' := Step(s, e, ttl);
            forall r :: r in s'.readers ==> ReaderOk(s', s'.readers[r], ttl)
  {
    var s' := Step(s, e, ttl);
    StepLater(s, e, ttl);
    forall r | r in s'.readers ensures ReaderOk(s', s'.readers[r], ttl) {
      ReadersMoved(s, e, r, ttl);
      if r in s.readers && s'.readers[r] == s.readers[r] {
        ReaderLater(s, s', s.readers[r], ttl);
      } else if e.StartGet? && Key(e.page) in s.cache {
        EntryLater(s, s', s.cache[Key(e.page)], e.page, s.step, ttl);
      } else if e.ReadSection? {
        var Filling(page, cells) := s.readers[e.reader];
        assert ReaderOk(s, s.readers[e.reader], ttl);
        FillingStep(s, s', page, cells, s'.readers[r].cells[|cells|], ttl);
      }
    }
  }

  lemma HitsStep(s: State, e: Event, ttl: int)
    requires HasHistory(s) && Enabled(s, e) && Inv(s, ttl)
    ensures var s' := Step(s, e, ttl);
            forall h :: h in s'.hits ==> HitOk(s', h, ttl)
  {
    var s' := Step(s, e, ttl);
    StepLater(s, e, ttl);
    forall h | h in s'.hits ensures HitOk(s', h, ttl) {
      if h !in s.hits {
        assert ReaderOk(s, s.readers[e.reader], ttl);
        assert HitOk(s, h, ttl);
      }
      HitLater(s, s', h, ttl);
    }
  }

  /** A fill that reaches its Set stores what it read. */
  lemma FilledOk(s: State, r: nat, ttl: int)
    requires HasHistory(s) && Enabled(s, Fill(r)) && Inv(s, ttl)
    ensures var s', page := Step(s, Fill(r), ttl), s.readers[r].page;
            EntryOk(s', s'.cache[Key(page)], page, s'.step, ttl)
  {
    var s' := Step(s, Fill(r), ttl);
    StepLater(s, Fill(r), ttl);
    var Filling(page, cells) := s.readers[r];
    assert ReaderOk(s, s.readers[r], ttl);
    CellsLater(s, s', page, cells);
    forall c | c in cells ensures c.at <= s.clock && c.step < s.step {
      var i :| 0 <= i < |cells| && cells[i] == c;
      assert CellOk(cells[i], s.hist[Sections(page)[i]], s.clock, s.step);
    }
  }

  /** An entry that stays in the cache has not been flushed up to the next event either. */
  lemma StaysOk(s: State, e: Event, page: Page, ttl: int)
    requires HasHistory(s) && Enabled(s, e) && Inv(s, ttl) && !e.FlushPut? && Key(page) in s.cache
    ensures EntryOk(Step(s, e, ttl), s.cache[Key(page)], page, s.step + 1, ttl)
  {
    StepLater(s, e, ttl);
    EntryLater(s, Step(s, e, ttl), s.cache[Key(page)], page, s.step, ttl);
    forall put | put in s.puts ensures put.flushStep < s.step {
      assert PutOk(s, put);
    }
  }

  lemma CacheStep(s: State, e: Event, ttl: int)
    requires HasHistory(s) && Enabled(s, e) && Inv(s, ttl)
    ensures var s' := Step(s, e, ttl);
            forall page :: Key(page) in s'.cache ==> EntryOk(s', s'.cache[Key(page)], page, s'.step, ttl)
  {
    var s' := Step(s, e, ttl);
    forall page | Key(page) in s'.cache ensures EntryOk(s', s'.cache[Key(page)], page, s'.step, ttl) {
      if Key(page) in s.cache && s'.cache[Key(page)] == s.cache[Key(page)] && !e.Fill? {
        StaysOk(s, e, page, ttl);
      } else if e.Fill? && e.reader in s.readers && s.readers[e.reader].page != page {
        StaysOk(s, e, page, ttl);
      } else {
        assert e.Fill?;
        FilledOk(s, e.reader, ttl);
      }
    }
  }

  lemma {:induction false} InvRun(start: int, evs: seq<Event>, ttl: int)
    requires Exec(start, evs, ttl).Some?
    ensures Inv(Exec(start, evs, ttl).value, ttl)
  {
    if |evs| > 0 {
      InvRun(start, evs[..|evs| - 1], ttl);
      var s, e := Exec(start, evs[..|evs| - 1], ttl).value, evs[|evs| - 1];
      StepLater(s, e, ttl);
      HistoryStep(s, Step(s, e, ttl), ttl);
      PutsStep(s, e, ttl);
      WritersStep(s, e, ttl);
      ReadersStep(s, e, ttl);
      HitsStep(s, e, ttl);
      CacheStep(s, e, ttl);
    }
  }

  // Main results.

  /** No history is ever rewritten: what was committed up to some point of a run stays as it was. */
  lemma {:induction false} HistoriesOnlyGrow(start: int, evs: seq<Event>, k: nat, ttl: int, sec: Section)
    requires Exec(start, evs, ttl).Some? && k <= |evs|
    ensures Exec(start, evs[..k], ttl).Some?
    ensures Exec(start, evs[..k], ttl).value.hist[sec] <= Exec(start, evs, ttl).value.hist[sec]
  {
    if k == |evs| {
      assert evs[..k] == evs;
    } else {
      var before, e := evs[..|evs| - 1], evs[|evs| - 1];
      HistoriesOnlyGrow(start, before, k, ttl, sec);
      assert before[..k] == evs[..k];
      var s := Exec(start, before, ttl).value;
      StepLater(s, e, ttl);
      assert Extends(s.hist[sec], Step(s, e, ttl).hist[sec], s.clock, s.step);
    }
  }

  /** Only a PUT's commit changes the database, by the value put; only a fill's store, a flush and a tick of
      evict change the cache; and only a check answers from it. */
  lemma WhatChanges(start: int, evs: seq<Event>, e: Event, ttl: int)
    requires Exec(start, evs + [e], ttl).Some?
    ensures Exec(start, evs, ttl).Some?
    ensures var s, s' := Exec(start, evs, ttl).value, Exec(start, evs + [e], ttl).value;
            && (forall sec :: s'.hist[sec] != s.hist[sec] ==>
                  && e.CommitPut? && e.section == sec
                  && s'.hist[sec] == s.hist[sec] + [Commit(e.value, s.clock, s.step)])
            && (s'.cache != s.cache ==> e.Fill? || e.FlushPut? || e.Evict?)
            && (s'.hits != s.hits ==> e.CheckGet?)
  {
    assert (evs + [e])[..|evs|] == evs;
  }

  /** A tick of evict leaves exactly the pages that had not expired when it read the clock. */
  lemma EvictIsExact(start: int, evs: seq<Event>, ttl: int)
    requires Exec(start, evs, ttl).Some? && Exec(start, evs, ttl).value.evictor.Some?
    ensures Exec(start, evs + [Evict], ttl).Some?
    ensures var s, s' := Exec(start, evs, ttl).value, Exec(start, evs + [Evict], ttl).value;
            && (forall k :: k in s'.cache <==> k in s.cache && s.evictor.value <= s.cache[k].expiresAt)
            && (forall k :: k in s'.cache ==> s'.cache[k] == s.cache[k]) && s'.hist == s.hist
  {
    assert (evs + [Evict])[..|evs|] == evs;
  }

  /** `value` was the committed value at moment m. */
  ghost predicate CommittedAt(h: seq<Commit>, value: string, m: int) {
    exists v :: 0 <= v < |h| && h[v].value == value && h[v].at <= m && (v + 1 < |h| ==> m <= h[v + 1].at)
  }

  /** How long the fill behind a hit took, from its first read to its Set. */
  function FillTime(p: Payload): int
    requires |p.cells| > 0
  {
    p.setAt - p.cells[0].at
  }

  /** Every section of a hit was read, in the order of the page, within the ttl and the duration of its
      own fill before the hit; a section read with success was the committed value at that moment.  A
      lost flush, or no flush at all, does not matter. */
  lemma BoundedStaleness(start: int, evs: seq<Event>, ttl: int, h: Hit)
    requires Exec(start, evs, ttl).Some? && h in Exec(start, evs, ttl).value.hits
    ensures var s, p := Exec(start, evs, ttl).value, h.payload;
            && |p.cells| == |Sections(p.page)|
            && (forall i :: 0 <= i < |p.cells| ==> h.at - ttl - FillTime(p) <= p.cells[i].at <= h.at)
            && (forall i, j :: 0 <= i <= j < |p.cells| ==> p.cells[i].at <= p.cells[j].at)
            && (forall i :: 0 <= i < |p.cells| && p.cells[i].Read? ==>
                  CommittedAt(s.hist[Sections(p.page)[i]], p.cells[i].value, p.cells[i].at))
  {
    InvRun(start, evs, ttl);
    var s, p := Exec(start, evs, ttl).value, h.payload;
    assert HitOk(s, h, ttl);
    forall i | 0 <= i < |p.cells| && p.cells[i].Read?
      ensures CommittedAt(s.hist[Sections(p.page)[i]], p.cells[i].value, p.cells[i].at)
    {
      assert CellOk(p.cells[i], s.hist[Sections(p.page)[i]], s.clock, s.step);
    }
  }

  /** The fill read the section before the PUT committed it and stored it after the PUT had flushed. */
  predicate Straddles(p: Payload, c: Cell, commitStep: nat, put: Put) {
    c.step < commitStep && put.flushStep < p.setStep
  }

  lemma OlderIffStraddles(h: seq<Commit>, c: Cell, p: Payload, put: Put, clock: int, step: nat)
    requires HistoryOk(h, clock, step) && CellOk(c, h, clock, step) && c.Read?
    requires put.version < |h| && put.flushStep < p.setStep
    ensures c.version < put.version <==> Straddles(p, c, h[put.version].step, put)
  {
    if c.version < put.version {
      assert h[c.version + 1].step <= h[put.version].step;
    } else {
      assert h[put.version].step <= h[c.version].step;
    }
  }

  lemma OlderWasCurrentBefore(h: seq<Commit>, c: Cell, version: nat, clock: int, step: nat)
    requires HistoryOk(h, clock, step) && CellOk(c, h, clock, step) && c.Read?
    requires c.version < version < |h|
    ensures c.at <= h[version].at
  {
    assert c.at <= h[c.version + 1].at <= h[version].at;
  }

  /** A hit whose look-up follows a flush reflects that PUT or a later one, unless the fill that stored
      it straddles the PUT; then, and only then, it returns an older value. */
  lemma Freshness(start: int, evs: seq<Event>, ttl: int, h: Hit, put: Put, i: nat)
    requires Exec(start, evs, ttl).Some?
    requires var s := Exec(start, evs, ttl).value; h in s.hits && put in s.puts && put.flushStep < h.lookupStep
    requires i < |h.payload.cells| && h.payload.cells[i].Read? && i < |Sections(h.payload.page)|
    requires Sections(h.payload.page)[i] == put.section
    ensures var s, c := Exec(start, evs, ttl).value, h.payload.cells[i];
            && put.version < |s.hist[put.section]| && c.version < |s.hist[put.section]|
            && c.value == s.hist[put.section][c.version].value
            && (c.version < put.version <==> Straddles(h.payload, c, s.hist[put.section][put.version].step, put))
  {
    InvRun(start, evs, ttl);
    var s, c := Exec(start, evs, ttl).value, h.payload.cells[i];
    assert HitOk(s, h, ttl) && PutOk(s, put);
    assert CellOk(c, s.hist[put.section], s.clock, s.step);
    OlderIffStraddles(s.hist[put.section], c, h.payload, put, s.clock, s.step);
  }

  /** However the race goes, a value older than a PUT is not served for longer than the ttl and the
      duration of the fill after the commit. */
  lemma StaleHitsEnd(start: int, evs: seq<Event>, ttl: int, h: Hit, sec: Section, version: nat, i: nat)
    requires Exec(start, evs, ttl).Some?
    requires var s := Exec(start, evs, ttl).value; h in s.hits && version < |s.hist[sec]|
    requires i < |h.payload.cells| && h.payload.cells[i].Read? && i < |Sections(h.payload.page)|
    requires Sections(h.payload.page)[i] == sec && h.payload.cells[i].version < version
    ensures h.at <= Exec(start, evs, ttl).value.hist[sec][version].at + ttl + FillTime(h.payload)
  {
    InvRun(start, evs, ttl);
    var s, c := Exec(start, evs, ttl).value, h.payload.cells[i];
    assert HitOk(s, h, ttl);
    assert CellOk(c, s.hist[sec], s.clock, s.step);
    assert c.at >= h.payload.cells[0].at;
    OlderWasCurrentBefore(s.hist[sec], c, version, s.clock, s.step);
  }

  // The race is real.

  lemma Extend(start: int, evs: seq<Event>, s: State, e: Event, ttl: int) returns (evs': seq<Event>, s': State)
    requires Exec(start, evs, ttl) == Some(s) && Enabled(s, e)
    ensures evs' == evs + [e] && s' == Step(s, e, ttl) && Exec(start, evs', ttl) == Some(s')
  {
    evs', s' := evs + [e], Step(s, e, ttl);
    assert evs'[..|evs|] == evs;
  }

  /** A fill of the languages has read them. */
  lemma ReadBefore(ttl: nat) returns (evs: seq<Event>, s: State)
    ensures Exec(0, evs, ttl) == Some(s)
    ensures s.clock == 0 && s.step == 4 && s.next == 1 && s.hits == [] && s.puts == [] && s.writers == map[]
    ensures s.readers == map[0 := Filling(Languages, [Read("", 0, 0, 3)])] && |s.hist[Langs]| == 1
  {
    evs, s := [], Init(0);
    evs, s := Extend(0, evs, s, StartGet(Languages), ttl);
    evs, s := Extend(0, evs, s, CheckGet(0), ttl);
    assert Current(s, Langs) == Read("", 0, 0, 3) && [] + [Current(s, Langs)] == [Current(s, Langs)];
    evs, s := Extend(0, evs, s, ReadSection(0, true), ttl);
  }

  /** It reads before a PUT commits and stores after it has flushed. */
  lemma StraddlingFill(ttl: nat) returns (evs: seq<Event>, s: State)
    ensures Exec(0, evs, ttl) == Some(s)
    ensures s.clock == 0 && s.step == 7 && s.hits == [] && s.puts == [Put(Langs, 1, 5)]
    ensures "languages" in s.cache
         && s.cache["languages"] == C.Entry(Payload(Languages, [Read("", 0, 0, 3)], 0, 6), ttl)
  {
    evs, s := ReadBefore(ttl);
    evs, s := Extend(0, evs, s, CommitPut(Langs, "new"), ttl);
    assert s.writers == map[1 := Committed(Langs, 1)];
    evs, s := Extend(0, evs, s, FlushPut(1), ttl);
    evs, s := Extend(0, evs, s, Fill(0), ttl);
  }

  /** A look-up after the flush hits the value from before the commit. */
  lemma RaceIsReal(ttl: nat) returns (evs: seq<Event>, h: Hit, put: Put)
    ensures Exec(0, evs, ttl).Some?
    ensures var s := Exec(0, evs, ttl).value; h in s.hits && put in s.puts && put.flushStep < h.lookupStep
    ensures Sections(h.payload.page) == [put.section] && |h.payload.cells| == 1
    ensures h.payload.cells[0].Read? && h.payload.cells[0].version < put.version
  {
    var s;
    evs, s := StraddlingFill(ttl);
    var n, entry := s.next, s.cache["languages"];
    evs, s := Extend(0, evs, s, StartGet(Languages), ttl);
    assert s.readers[n] == Looked(Languages, Some(entry), 7);
    evs, s := Extend(0, evs, s, CheckGet(n), ttl);
    h, put := s.hits[0], s.puts[0];
  }
}
