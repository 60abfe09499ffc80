/** First boot and later boots: SeedIfEmpty and MigrateLanguages of internal/service/service.go. */
module Boot {
  import opened LanguageCodec
  import opened Transactions

  /** The tables of one row with id 1. */
  datatype Single = Site | AdminPassword | About | Contact | SidePanel

  /** The statements of the first boot's transaction. */
  datatype SeedStatement =
    | InsertSingle(table: Single)
    | InsertSlide
    | InsertStat(pos: nat)
    | InsertLanguage(code: string)

  /** Which single rows exist, how many slides, the numbers of the stats, and the languages. */
  datatype Db = Db(singles: set<Single>, slides: nat, stats: multiset<nat>, languages: map<string, LangRow>)

  const EMPTY := Db({}, 0, multiset{}, map[])

  const SINGLES := {Site, AdminPassword, About, Contact, SidePanel}
  const SEEDED_STATS := 5

  lemma EverySingle(t: Single)
    ensures t in SINGLES
  {
    match t
    case Site =>
    case _ =>
  }

  type Defaults = map<string, map<string, string>>

  function Lookup(lang: map<string, string>, key: string): string {
    if key in lang then lang[key] else ""
  }

  function DefaultRow(lang: map<string, string>): LangRow {
    LangRow(Obj(map k | k in lang && k != "flag" && k != "name" :: Str(lang[k])), Lookup(lang, "flag"), Lookup(lang, "name"))
  }

  function DefaultRows(defaults: Defaults): map<string, LangRow> {
    map code | code in defaults :: DefaultRow(defaults[code])
  }

  /** The two text columns hold the flag and the name of the default, empty if it has none, and the data
      column an object of its other texts. */
  ghost predicate HoldsDefault(row: LangRow, lang: map<string, string>) {
    && row.flag == (if "flag" in lang then lang["flag"] else "")
    && row.name == (if "name" in lang then lang["name"] else "")
    && row.data.Obj? && row.data.fields.Keys == lang.Keys - {"flag", "name"}
    && forall k :: k in row.data.fields ==> row.data.fields[k] == Str(lang[k])
  }

  /** The object of exactly the texts of the default, with a flag and a name. */
  ghost predicate ShowsDefault(v: Json, lang: map<string, string>) {
    && v.Obj? && v.fields.Keys == lang.Keys + {"flag", "name"}
    && (forall k :: k in lang ==> v.fields[k] == Str(lang[k]))
    && ("flag" !in lang ==> v.fields["flag"] == Str(""))
    && ("name" !in lang ==> v.fields["name"] == Str(""))
  }

  lemma DefaultRowHolds(lang: map<string, string>)
    ensures HoldsDefault(DefaultRow(lang), lang)
  {
  }

  lemma HeldIsShown(row: LangRow, lang: map<string, string>)
    requires HoldsDefault(row, lang)
    ensures ShowsDefault(JoinOne(row), lang)
  {
  }

  /** The rows are the defaults. */
  ghost predicate HoldDefaults(rows: map<string, LangRow>, defaults: Defaults) {
    rows.Keys == defaults.Keys && forall c :: c in rows ==> HoldsDefault(rows[c], defaults[c])
  }

  lemma DefaultRowsHold(defaults: Defaults)
    ensures HoldDefaults(DefaultRows(defaults), defaults)
  {
    forall c | c in defaults ensures HoldsDefault(DefaultRows(defaults)[c], defaults[c]) {
      DefaultRowHolds(defaults[c]);
    }
  }

  // Seeding.

  function StatStatements(n: nat): set<SeedStatement> {
    set i | 0 <= i < n :: InsertStat(i)
  }

  function LanguageStatements(codes: set<string>): set<SeedStatement> {
    set code | code in codes :: InsertLanguage(code)
  }

  function SeedStatements(defaults: Defaults): set<SeedStatement> {
    {InsertSingle(Site), InsertSingle(AdminPassword), InsertSingle(About), InsertSingle(Contact), InsertSingle(SidePanel)}
    + {InsertSlide} + StatStatements(SEEDED_STATS) + LanguageStatements(defaults.Keys)
  }

  /** The insert violates a primary key; slides and stats get fresh ones. */
  predicate Conflicts(db: Db, st: SeedStatement) {
    match st
    case InsertSingle(t) => t in db.singles
    case InsertLanguage(code) => code in db.languages
    case _ => false
  }

  function Inserted(db: Db, st: SeedStatement, defaults: Defaults): Db
    requires st.InsertLanguage? ==> st.code in defaults
  {
    match st
    case InsertSingle(t) => db.(singles := db.singles + {t})
    case InsertSlide => db.(slides := db.slides + 1)
    case InsertStat(i) => db.(stats := db.stats + multiset{i})
    case InsertLanguage(code) => db.(languages := db.languages[code := DefaultRow(defaults[code])])
  }

  function SinglesOf(sts: set<SeedStatement>): set<Single> {
    set st | st in sts && st.InsertSingle? :: st.table
  }

  function StatsOf(sts: set<SeedStatement>): set<nat> {
    set st | st in sts && st.InsertStat? :: st.pos
  }

  function LanguagesOf(sts: set<SeedStatement>, defaults: Defaults): map<string, LangRow> {
    map code | code in defaults && InsertLanguage(code) in sts :: DefaultRow(defaults[code])
  }

  /** After the statements `sts`, in whatever order. */
  function InsertedAll(db: Db, sts: set<SeedStatement>, defaults: Defaults): Db {
    Db(db.singles + SinglesOf(sts), if InsertSlide in sts then db.slides + 1 else db.slides,
       db.stats + multiset(StatsOf(sts)), db.languages + LanguagesOf(sts, defaults))
  }

  lemma SinglesNext(sts: set<SeedStatement>, st: SeedStatement)
    requires st !in sts
    ensures SinglesOf(sts + {st}) == if st.InsertSingle? then SinglesOf(sts) + {st.table} else SinglesOf(sts)
    ensures st.InsertSingle? ==> st.table !in SinglesOf(sts)
  {
  }

  lemma StatsNext(sts: set<SeedStatement>, st: SeedStatement)
    requires st !in sts
    ensures multiset(StatsOf(sts + {st}))
         == if st.InsertStat? then multiset(StatsOf(sts)) + multiset{st.pos} else multiset(StatsOf(sts))
  {
    assert StatsOf(sts + {st}) == if st.InsertStat? then StatsOf(sts) + {st.pos} else StatsOf(sts);
    assert st.InsertStat? ==> st.pos !in StatsOf(sts);
  }

  lemma LanguagesNext(languages: map<string, LangRow>, sts: set<SeedStatement>, st: SeedStatement, defaults: Defaults)
    requires st !in sts && (st.InsertLanguage? ==> st.code in defaults)
    ensures languages + LanguagesOf(sts + {st}, defaults)
         == if st.InsertLanguage? then (languages + LanguagesOf(sts, defaults))[st.code := DefaultRow(defaults[st.code])]
            else languages + LanguagesOf(sts, defaults)
    ensures st.InsertLanguage? ==> st.code !in LanguagesOf(sts, defaults)
  {
  }

  lemma InsertedNext(db: Db, sts: set<SeedStatement>, st: SeedStatement, defaults: Defaults)
    requires st !in sts && (st.InsertLanguage? ==> st.code in defaults)
    ensures InsertedAll(db, sts + {st}, defaults) == Inserted(InsertedAll(db, sts, defaults), st, defaults)
    ensures Conflicts(InsertedAll(db, sts, defaults), st) <==> Conflicts(db, st)
  {
    SinglesNext(sts, st);
    StatsNext(sts, st);
    LanguagesNext(db.languages, sts, st, defaults);
  }

  function Seeded(db: Db, defaults: Defaults): Db {
    Db(db.singles + SINGLES, db.slides + 1, db.stats + multiset{0, 1, 2, 3, 4}, db.languages + DefaultRows(defaults))
  }

  lemma SeededSingles(defaults: Defaults)
    ensures SinglesOf(SeedStatements(defaults)) == SINGLES
  {
    var sts := SeedStatements(defaults);
    assert InsertSingle(Site) in sts && InsertSingle(AdminPassword) in sts && InsertSingle(About) in sts
        && InsertSingle(Contact) in sts && InsertSingle(SidePanel) in sts;
  }

  lemma SeededStats(defaults: Defaults)
    ensures StatsOf(SeedStatements(defaults)) == {0, 1, 2, 3, 4}
  {
    var sts := SeedStatements(defaults);
    forall i: nat | i < SEEDED_STATS ensures InsertStat(i) in sts {
      assert InsertStat(i) in StatStatements(SEEDED_STATS);
    }
    forall i: nat | i < SEEDED_STATS ensures i in StatsOf(sts) {
      assert InsertStat(i) in sts;
    }
  }

  lemma SeededLanguages(defaults: Defaults)
    ensures LanguagesOf(SeedStatements(defaults), defaults) == DefaultRows(defaults)
  {
    forall code | code in defaults ensures InsertLanguage(code) in SeedStatements(defaults) {
      assert InsertLanguage(code) in LanguageStatements(defaults.Keys);
    }
  }

  lemma SeededIsAll(db: Db, defaults: Defaults)
    ensures InsertedAll(db, SeedStatements(defaults), defaults) == Seeded(db, defaults)
  {
    SeededSingles(defaults);
    SeededStats(defaults);
    SeededLanguages(defaults);
  }

  predicate SucceedFrom(sts: set<SeedStatement>, db: Db, fate: Fate<SeedStatement>) {
    forall st :: st in sts ==> fate.statement(st) && !Conflicts(db, st)
  }

  predicate SeedSucceeds(db: Db, defaults: Defaults, fate: Fate<SeedStatement>) {
    fate.begins && fate.commits && SucceedFrom(SeedStatements(defaults), db, fate)
  }

  // Later boots.

  /** The default rows that are missing and whose insert succeeds. */
  function Missing(defaults: Defaults, languages: map<string, LangRow>, inserts: string -> bool): map<string, LangRow> {
    MissingSoFar(defaults, languages, inserts, {})
  }

  /** Those of the codes visited; `todo` are still to be visited. */
  function MissingSoFar(defaults: Defaults, languages: map<string, LangRow>, inserts: string -> bool, todo: set<string>)
    : map<string, LangRow>
  {
    map code | code in defaults && code !in todo && code !in languages && inserts(code) :: DefaultRow(defaults[code])
  }

  lemma MissingStart(defaults: Defaults, languages: map<string, LangRow>, inserts: string -> bool)
    ensures languages + MissingSoFar(defaults, languages, inserts, defaults.Keys) == languages
  {
  }

  lemma MissingStep(defaults: Defaults, languages: map<string, LangRow>, inserts: string -> bool, todo: set<string>, code: string)
    requires todo <= defaults.Keys && code in todo
    ensures var now := languages + MissingSoFar(defaults, languages, inserts, todo);
            var next := languages + MissingSoFar(defaults, languages, inserts, todo - {code});
            && (code in now <==> code in languages)
            && next == if code in languages || !inserts(code) then now else now[code := DefaultRow(defaults[code])]
  {
  }

  /** How the statements of one boot fare: the count of `site`, the transaction of a first boot, and on a
      later boot the count and the insert of each language. */
  datatype BootFate = BootFate(counts: bool, seed: Fate<SeedStatement>, queries: string -> bool, inserts: string -> bool)

  /** What one boot makes of the database; true if it reports an error. */
  function Booted(db: Db, defaults: Defaults, fate: BootFate): (Db, bool) {
    if !fate.counts then (db, true)
    else if Site in db.singles then (db.(languages := db.languages + Missing(defaults, db.languages, fate.inserts)), false)
    else if SeedSucceeds(db, defaults, fate.seed) then (Seeded(db, defaults), false)
    else (db, true)
  }

  class Service {
    var db: Db

    constructor (db: Db)
      ensures this.db == db
    {
      this.db := db;
    }

    /** A failed count reads as 0; the insert then does nothing on a conflict. */
    method MigrateLanguages(defaults: Defaults, queries: string -> bool, inserts: string -> bool)
      modifies this
      ensures db == old(db).(languages := old(db).languages + Missing(defaults, old(db).languages, inserts))
    {
      var todo := defaults.Keys;
      ghost var before := db.languages;
      MissingStart(defaults, before, inserts);
      while todo != {}
        invariant todo <= defaults.Keys
        invariant db == old(db).(languages := before + MissingSoFar(defaults, before, inserts, todo))
        decreases todo
      {
        var code :| code in todo;
        MissingStep(defaults, before, inserts, todo, code);
        todo := todo - {code};
        var count := 0;
        if queries(code) && code in db.languages {
          count := 1;
        }
        if count == 0 && inserts(code) && code !in db.languages {
          db := db.(languages := db.languages[code := DefaultRow(defaults[code])]);
        }
      }
    }

    method SeedIfEmpty(defaults: Defaults, fate: BootFate) returns (err: bool)
      modifies this
      ensures (db, err) == Booted(old(db), defaults, fate)
    {
      if !fate.counts {
        return true;
      }
      if Site in db.singles {
        MigrateLanguages(defaults, fate.queries, fate.inserts);
        return false;
      }
      err := Seed(defaults, fate.seed);
    }

    /** The transaction has executed the statements `sts`. */
    ghost predicate Executed(tx: Tx<Db>, sts: set<SeedStatement>, defaults: Defaults, fate: Fate<SeedStatement>)
      reads this, tx
    {
      && (tx.aborted <==> !SucceedFrom(sts, db, fate))
      && (!tx.aborted ==> tx.work == InsertedAll(db, sts, defaults))
    }

    method Insert(tx: Tx<Db>, st: SeedStatement, defaults: Defaults, fate: Fate<SeedStatement>, ghost sts: set<SeedStatement>)
      requires Executed(tx, sts, defaults, fate) && st !in sts && (st.InsertLanguage? ==> st.code in defaults)
      modifies tx
      ensures Executed(tx, sts + {st}, defaults, fate)
    {
      InsertedNext(db, sts, st, defaults);
      assert SucceedFrom(sts + {st}, db, fate) <==>
             SucceedFrom(sts, db, fate) && fate.statement(st) && !Conflicts(db, st);
      var ok := fate.statement(st) && !Conflicts(tx.work, st);
      var ignored := tx.Exec(ok, Inserted(tx.work, st, defaults));
    }

    method InsertStats(tx: Tx<Db>, defaults: Defaults, fate: Fate<SeedStatement>, ghost sts: set<SeedStatement>)
      requires Executed(tx, sts, defaults, fate) && forall st :: st in sts ==> !st.InsertStat?
      modifies tx
      ensures Executed(tx, sts + StatStatements(SEEDED_STATS), defaults, fate)
    {
      assert sts + StatStatements(0) == sts;
      for i := 0 to SEEDED_STATS
        invariant Executed(tx, sts + StatStatements(i), defaults, fate)
      {
        Insert(tx, InsertStat(i), defaults, fate, sts + StatStatements(i));
        assert sts + StatStatements(i) + {InsertStat(i)} == sts + StatStatements(i + 1);
      }
    }

    method InsertLanguages(tx: Tx<Db>, defaults: Defaults, fate: Fate<SeedStatement>, ghost sts: set<SeedStatement>)
      requires Executed(tx, sts, defaults, fate) && forall st :: st in sts ==> !st.InsertLanguage?
      modifies tx
      ensures Executed(tx, sts + LanguageStatements(defaults.Keys), defaults, fate)
    {
      var todo := defaults.Keys;
      assert sts + LanguageStatements(defaults.Keys - todo) == sts;
      while todo != {}
        invariant todo <= defaults.Keys
        invariant Executed(tx, sts + LanguageStatements(defaults.Keys - todo), defaults, fate)
        decreases todo
      {
        var code :| code in todo;
        ghost var done := sts + LanguageStatements(defaults.Keys - todo);
        todo := todo - {code};
        Insert(tx, InsertLanguage(code), defaults, fate, done);
        assert done + {InsertLanguage(code)} == sts + LanguageStatements(defaults.Keys - todo);
      }
      assert defaults.Keys - todo == defaults.Keys;
    }

    /** The transaction of the first boot. */
    method Seed(defaults: Defaults, fate: Fate<SeedStatement>) returns (err: bool)
      modifies this
      ensures err <==> !SeedSucceeds(old(db), defaults, fate)
      ensures db == if err then old(db) else Seeded(old(db), defaults)
    {
      if !fate.begins {
        return true;
      }
      var tx := new Tx(db);
      assert InsertedAll(db, {}, defaults) == db;
      Insert(tx, InsertSingle(Site), defaults, fate, {});
      Insert(tx, InsertSingle(AdminPassword), defaults, fate, {InsertSingle(Site)});
      ghost var sts := {InsertSingle(Site), InsertSingle(AdminPassword)};
      assert {InsertSingle(Site)} + {InsertSingle(AdminPassword)} == sts;
      Insert(tx, InsertSlide, defaults, fate, sts);
      InsertStats(tx, defaults, fate, sts + {InsertSlide});
      SeedRest(tx, defaults, fate, sts + {InsertSlide} + StatStatements(SEEDED_STATS));
      SeededIsAll(db, defaults);
      err := tx.Commit(fate.commits);
      if !err {
        db := tx.work;
      }
    }

    /** From the row of `about` on. */
    method SeedRest(tx: Tx<Db>, defaults: Defaults, fate: Fate<SeedStatement>, ghost sts: set<SeedStatement>)
      requires Executed(tx, sts, defaults, fate)
      requires sts == {InsertSingle(Site), InsertSingle(AdminPassword)} + {InsertSlide} + StatStatements(SEEDED_STATS)
      modifies tx
      ensures Executed(tx, SeedStatements(defaults), defaults, fate)
    {
      Insert(tx, InsertSingle(About), defaults, fate, sts);
      ghost var sts1 := sts + {InsertSingle(About)};
      Insert(tx, InsertSingle(Contact), defaults, fate, sts1);
      ghost var sts2 := sts1 + {InsertSingle(Contact)};
      InsertLanguages(tx, defaults, fate, sts2);
      ghost var sts3 := sts2 + LanguageStatements(defaults.Keys);
      Insert(tx, InsertSingle(SidePanel), defaults, fate, sts3);
      assert sts3 + {InsertSingle(SidePanel)} == SeedStatements(defaults);
    }
  }

  // Sequences of boots and edits of one server.

  /** The server takes edits only after a boot without error, and until the next boot. */
  datatype Event = BootUp(fate: BootFate) | EditLanguages(langs: map<string, Json>)

  datatype Run = Run(db: Db, up: bool)

  function After(evs: seq<Event>, defaults: Defaults): (r: Run) {
    if |evs| == 0 then Run(EMPTY, false)
    else
      var before := After(evs[..|evs| - 1], defaults);
      match evs[|evs| - 1]
      case BootUp(fate) => var (db, err) := Booted(before.db, defaults, fate); Run(db, !err)
      case EditLanguages(langs) =>
        if before.up then before.(db := before.db.(languages := Split(langs))) else before
  }

  /** All tables are seeded, whatever has become of the languages since. */
  ghost predicate HoldsSeed(db: Db) {
    (forall t: Single :: t in db.singles) && db.slides == 1 && db.stats == multiset{0, 1, 2, 3, 4}
  }

  lemma SeededHasAll(defaults: Defaults)
    ensures HoldsSeed(Seeded(EMPTY, defaults))
  {
    forall t: Single ensures t in SINGLES {
      EverySingle(t);
    }
    assert multiset{} + multiset{0, 1, 2, 3, 4} == multiset{0, 1, 2, 3, 4};
  }

  lemma SeededHolds(defaults: Defaults)
    ensures HoldsSeed(Seeded(EMPTY, defaults)) && HoldDefaults(Seeded(EMPTY, defaults).languages, defaults)
  {
    SeededHasAll(defaults);
    DefaultRowsHold(defaults);
    assert map[] + DefaultRows(defaults) == DefaultRows(defaults);
  }

  /** All tables are seeded, or none is; and the server is up only on a seeded database. */
  lemma {:induction false} SeedIsAllOrNothing(evs: seq<Event>, defaults: Defaults)
    ensures var r := After(evs, defaults);
            if Site in r.db.singles then HoldsSeed(r.db) else r.db == EMPTY && !r.up
  {
    if |evs| > 0 {
      SeedIsAllOrNothing(evs[..|evs| - 1], defaults);
      SeededHolds(defaults);
    }
  }

  /** Every statement of a first boot succeeds: the insert of each row with id 1, of the slide, of the five
      stats and of each default language. */
  ghost predicate NothingFails(defaults: Defaults, fate: Fate<SeedStatement>) {
    && fate.begins && fate.commits && fate.statement(InsertSlide)
    && (forall t :: fate.statement(InsertSingle(t)))
    && (forall i :: 0 <= i < 5 ==> fate.statement(InsertStat(i)))
    && forall c :: c in defaults ==> fate.statement(InsertLanguage(c))
  }

  lemma SeedSucceedsIff(defaults: Defaults, fate: Fate<SeedStatement>)
    ensures SeedSucceeds(EMPTY, defaults, fate) <==> NothingFails(defaults, fate)
  {
    var sts := SeedStatements(defaults);
    if SeedSucceeds(EMPTY, defaults, fate) {
      assert InsertSlide in sts;
      forall t: Single ensures fate.statement(InsertSingle(t)) {
        EverySingle(t);
        assert InsertSingle(t) in sts;
      }
      forall i: nat | i < 5 ensures fate.statement(InsertStat(i)) {
        assert InsertStat(i) in StatStatements(SEEDED_STATS);
      }
      forall c | c in defaults ensures fate.statement(InsertLanguage(c)) {
        assert InsertLanguage(c) in LanguageStatements(defaults.Keys);
      }
    }
  }

  /** A boot on an empty database seeds it if and only if every statement succeeds. */
  lemma FirstBoot(defaults: Defaults, fate: BootFate)
    ensures var (db, err) := Booted(EMPTY, defaults, fate);
            if fate.counts && NothingFails(defaults, fate.seed)
            then HoldsSeed(db) && HoldDefaults(db.languages, defaults) && !err
            else db == EMPTY && err
  {
    SeedSucceedsIff(defaults, fate.seed);
    SeededHolds(defaults);
  }

  /** `after` is `before` and default languages that were missing. */
  ghost predicate AddsDefaults(before: map<string, LangRow>, after: map<string, LangRow>, defaults: Defaults) {
    && (forall c :: c in before ==> c in after && after[c] == before[c])
    && forall c :: c in after && c !in before ==> c in defaults && HoldsDefault(after[c], defaults[c])
  }

  lemma MissingAddsDefaults(languages: map<string, LangRow>, defaults: Defaults, inserts: string -> bool)
    ensures AddsDefaults(languages, languages + Missing(defaults, languages, inserts), defaults)
  {
    forall c | c in defaults ensures HoldsDefault(DefaultRow(defaults[c]), defaults[c]) {
      DefaultRowHolds(defaults[c]);
    }
  }

  lemma LaterBoot(db: Db, defaults: Defaults, fate: BootFate)
    requires HoldsSeed(db)
    ensures var (db', err) := Booted(db, defaults, fate);
            && HoldsSeed(db') && err == !fate.counts && AddsDefaults(db.languages, db'.languages, defaults)
            && forall c :: c in defaults && c !in db.languages ==> (c in db'.languages <==> fate.counts && fate.inserts(c))
  {
    MissingAddsDefaults(db.languages, defaults, fate.inserts);
  }

  /** In any sequence of boots and edits, a boot seeds if and only if `site` is empty and every statement
      succeeds; any other boot leaves the seeded tables and every existing language as they were, and adds
      exactly the missing defaults whose insert succeeds. */
  lemma BootAfter(evs: seq<Event>, defaults: Defaults, fate: BootFate)
    ensures var before, r := After(evs, defaults).db, After(evs + [BootUp(fate)], defaults);
            if Site !in before.singles then
              if fate.counts && NothingFails(defaults, fate.seed)
              then HoldsSeed(r.db) && HoldDefaults(r.db.languages, defaults) && r.up
              else r.db == EMPTY && !r.up
            else
              && HoldsSeed(r.db) && r.up == fate.counts && AddsDefaults(before.languages, r.db.languages, defaults)
              && forall c :: c in defaults && c !in before.languages ==>
                   (c in r.db.languages <==> fate.counts && fate.inserts(c))
  {
    assert (evs + [BootUp(fate)])[..|evs|] == evs;
    SeedIsAllOrNothing(evs, defaults);
    if Site in After(evs, defaults).db.singles {
      LaterBoot(After(evs, defaults).db, defaults, fate);
    } else {
      FirstBoot(defaults, fate);
    }
  }

  /** What GetLanguages returns after a boot: every language it has added is shown as its default, and every
      other one as before. */
  lemma ShownAfterBoot(evs: seq<Event>, defaults: Defaults, fate: BootFate, code: string)
    requires code in After(evs + [BootUp(fate)], defaults).db.languages
    ensures var before := Join(After(evs, defaults).db.languages);
            var after := Join(After(evs + [BootUp(fate)], defaults).db.languages);
            if code in before then after[code] == before[code]
            else code in defaults && ShowsDefault(after[code], defaults[code])
  {
    BootAfter(evs, defaults, fate);
    SeedIsAllOrNothing(evs, defaults);
    var before, after := After(evs, defaults).db.languages, After(evs + [BootUp(fate)], defaults).db.languages;
    if code !in before {
      HeldIsShown(after[code], defaults[code]);
    }
  }

  /** An edit replaces the languages by the normal form of its value. */
  lemma ShownAfterEdit(evs: seq<Event>, defaults: Defaults, langs: map<string, Json>)
    requires After(evs, defaults).up
    ensures IsNormalFormOf(Join(After(evs + [EditLanguages(langs)], defaults).db.languages), langs)
  {
    assert (evs + [EditLanguages(langs)])[..|evs|] == evs;
    RoundTripIsNormalForm(langs);
  }

  lemma UpToDateBoot(db: Db, defaults: Defaults, fate: BootFate)
    requires fate.counts && Site in db.singles && defaults.Keys <= db.languages.Keys
    ensures Booted(db, defaults, fate) == (db, false)
  {
    assert db.languages + Missing(defaults, db.languages, fate.inserts) == db.languages;
  }

  lemma BootedIsUpToDate(db: Db, defaults: Defaults, fate: BootFate)
    requires fate.counts && (forall c :: c in defaults ==> fate.inserts(c)) && !Booted(db, defaults, fate).1
    ensures Site in Booted(db, defaults, fate).0.singles
    ensures defaults.Keys <= Booted(db, defaults, fate).0.languages.Keys
  {
  }

  /** Booting twice in a row is booting once. */
  lemma BootTwice(db: Db, defaults: Defaults, fate: BootFate, fate': BootFate)
    requires fate.counts && (forall c :: c in defaults ==> fate.inserts(c)) && !Booted(db, defaults, fate).1
    requires fate'.counts
    ensures Booted(Booted(db, defaults, fate).0, defaults, fate') == Booted(db, defaults, fate)
  {
    BootedIsUpToDate(db, defaults, fate);
    UpToDateBoot(Booted(db, defaults, fate).0, defaults, fate');
  }
}
