/**
 Several server instances boot at once on one database, each with its own connection, while those that
 are up take edits of the languages.  SeedIfEmpty counts the rows of `site` before it begins its
 transaction, so any number of instances may find it empty.
 */
module BootServers {
  import opened Common
  import opened LanguageCodec
  import opened Boot

  /** Where a server is.  A seeding one has executed the statements `done` of its open transaction; a
      migrating one has found the default language `missing` to be missing and is about to insert it. */
  datatype Server =
    | Starting
    | Seeding(done: set<SeedStatement>)
    | Migrating(todo: set<string>, missing: Option<string>)
    | Serving
    | Down

  /** `seedings` counts the transactions that have seeded the database. */
  datatype State = State(db: Db, servers: map<nat, Server>, seedings: nat)

  datatype Event =
    | Start(server: nat)
    | CountSite(server: nat)
    | Insert(server: nat, st: SeedStatement)
    | Commit(server: nat, acknowledged: bool)
    | CountLanguage(server: nat, code: string, ok: bool)
    | AddLanguage(server: nat, ok: bool)
    | Finish(server: nat)
    | Edit(server: nat, langs: map<string, Json>)
    | Stop(server: nat)

  const INIT := State(EMPTY, map[], 0)

  /** Both would write the same primary key. */
  predicate SameKey(st: SeedStatement, st': SeedStatement) {
    st == st' && (st.InsertSingle? || st.InsertLanguage?)
  }

  /** No open transaction of another server has inserted the key; the insert would wait for it. */
  predicate NobodyHolds(s: State, v: nat, st: SeedStatement) {
    forall w :: w in s.servers && w != v && s.servers[w].Seeding? ==>
      forall st' :: st' in s.servers[w].done ==> !SameKey(st, st')
  }

  /** The row of `site` is inserted first; beyond that any order is allowed.  An insert that violates a
      key fails, and so does any other statement that fails: the server stops, as it may at any moment. */
  predicate Enabled(s: State, e: Event, defaults: Defaults) {
    var v := e.server;
    if e.Start? then v !in s.servers
    else
      v in s.servers &&
      match e
      case Start(_) => true
      case CountSite(_) => s.servers[v].Starting?
      case Insert(_, st) =>
        && s.servers[v].Seeding? && st in SeedStatements(defaults) && st !in s.servers[v].done
        && (st == InsertSingle(Site) <==> s.servers[v].done == {})
        && !Conflicts(s.db, st) && NobodyHolds(s, v, st)
      case Commit(_, _) => s.servers[v].Seeding? && s.servers[v].done == SeedStatements(defaults)
      case CountLanguage(_, code, _) => s.servers[v].Migrating? && s.servers[v].missing.None? && code in s.servers[v].todo
      case AddLanguage(_, _) =>
        s.servers[v].Migrating? && s.servers[v].missing.Some? && s.servers[v].missing.value in defaults
      case Finish(_) => s.servers[v].Migrating? && s.servers[v].missing.None? && s.servers[v].todo == {}
      case Edit(_, _) => s.servers[v].Serving?
      case Stop(_) => true
  }

  /** A failed count of a language reads as 0; its insert does nothing on a conflict. */
  function Step(s: State, e: Event, defaults: Defaults): State
    requires Enabled(s, e, defaults)
  {
    var v := e.server;
    match e
    case Start(_) => At(s, v, Starting)
    case CountSite(_) => At(s, v, if Site in s.db.singles then Migrating(defaults.Keys, None) else Seeding({}))
    case Insert(_, st) => At(s, v, Seeding(s.servers[v].done + {st}))
    case Commit(_, acknowledged) =>
      At(State(InsertedAll(s.db, s.servers[v].done, defaults), s.servers, s.seedings + 1), v,
         if acknowledged then Serving else Down)
    case CountLanguage(_, code, ok) =>
      At(s, v, Migrating(s.servers[v].todo - {code}, if ok && code in s.db.languages then None else Some(code)))
    case AddLanguage(_, ok) =>
      var code := s.servers[v].missing.value;
      At(if ok && code !in s.db.languages then s.(db := Inserted(s.db, InsertLanguage(code), defaults)) else s, v,
         Migrating(s.servers[v].todo, None))
    case Finish(_) => At(s, v, Serving)
    case Edit(_, langs) => s.(db := s.db.(languages := Split(langs)))
    case Stop(_) => At(s, v, Down)
  }

  function At(s: State, v: nat, server: Server): State {
    s.(servers := s.servers[v := server])
  }

  /** The state after a run; None if some event of it was not enabled. */
  function Exec(evs: seq<Event>, defaults: Defaults): Option<State> {
    if |evs| == 0 then Some(INIT)
    else
      var before := Exec(evs[..|evs| - 1], defaults);
      if before.Some? && Enabled(before.value, evs[|evs| - 1], defaults)
      then Some(Step(before.value, evs[|evs| - 1], defaults))
      else None
  }

  // Invariants.

  /** The database is empty, or has been seeded once. */
  ghost predicate SeededOnce(db: Db, seedings: nat) {
    if Site in db.singles then HoldsSeed(db) && seedings == 1 else db == EMPTY && seedings == 0
  }

  /** A transaction that has inserted anything holds the row of `site`, which is then not committed. */
  ghost predicate ServerOk(server: Server, db: Db, defaults: Defaults) {
    match server
    case Seeding(done) =>
      done <= SeedStatements(defaults) && (done != {} ==> InsertSingle(Site) in done && Site !in db.singles)
    case Migrating(todo, missing) =>
      Site in db.singles && todo <= defaults.Keys && (missing.Some? ==> missing.value in defaults)
    case Serving => Site in db.singles
    case _ => true
  }

  predicate Holder(server: Server) {
    server.Seeding? && server.done != {}
  }

  ghost predicate Inv(s: State, defaults: Defaults) {
    && SeededOnce(s.db, s.seedings)
    && (forall v :: v in s.servers ==> ServerOk(s.servers[v], s.db, defaults))
    && forall v, w :: v in s.servers && w in s.servers && Holder(s.servers[v]) && Holder(s.servers[w]) ==> v == w
  }

  lemma CommitSeeds(s: State, v: nat, acknowledged: bool, defaults: Defaults)
    requires Inv(s, defaults) && Enabled(s, Commit(v, acknowledged), defaults)
    ensures s.db == EMPTY && Step(s, Commit(v, acknowledged), defaults).db == Seeded(EMPTY, defaults)
  {
    assert InsertSingle(Site) in SeedStatements(defaults);
    assert ServerOk(s.servers[v], s.db, defaults);
    SeededIsAll(s.db, defaults);
  }

  lemma CommitKeepsInv(s: State, v: nat, acknowledged: bool, defaults: Defaults)
    requires Inv(s, defaults) && Enabled(s, Commit(v, acknowledged), defaults)
    ensures Inv(Step(s, Commit(v, acknowledged), defaults), defaults)
  {
    var s' := Step(s, Commit(v, acknowledged), defaults);
    CommitSeeds(s, v, acknowledged, defaults);
    SeededHolds(defaults);
    assert InsertSingle(Site) in SeedStatements(defaults);
    assert Holder(s.servers[v]);
    forall w | w in s'.servers ensures ServerOk(s'.servers[w], s'.db, defaults) {
      if w != v {
        assert !Holder(s.servers[w]) && ServerOk(s.servers[w], s.db, defaults);
      }
    }
  }

  lemma InsertKeepsInv(s: State, v: nat, st: SeedStatement, defaults: Defaults)
    requires Inv(s, defaults) && Enabled(s, Insert(v, st), defaults)
    ensures Inv(Step(s, Insert(v, st), defaults), defaults)
  {
    assert ServerOk(s.servers[v], s.db, defaults);
    if s.servers[v].done == {} {
      forall w | w in s.servers && w != v ensures !Holder(s.servers[w]) {
        assert ServerOk(s.servers[w], s.db, defaults);
        if Holder(s.servers[w]) {
          assert SameKey(st, InsertSingle(Site));
        }
      }
    }
  }

  /** Whether it is seeded does not depend on the languages. */
  lemma LanguagesKeepInv(s: State, languages: map<string, LangRow>, defaults: Defaults)
    requires Inv(s, defaults) && Site in s.db.singles
    ensures Inv(s.(db := s.db.(languages := languages)), defaults)
  {
    forall v | v in s.servers ensures ServerOk(s.servers[v], s.db.(languages := languages), defaults) {
      assert ServerOk(s.servers[v], s.db, defaults);
    }
  }

  lemma EditKeepsInv(s: State, v: nat, langs: map<string, Json>, defaults: Defaults)
    requires Inv(s, defaults) && Enabled(s, Edit(v, langs), defaults)
    ensures Inv(Step(s, Edit(v, langs), defaults), defaults)
  {
    assert ServerOk(s.servers[v], s.db, defaults);
    LanguagesKeepInv(s, Split(langs), defaults);
  }

  lemma AddKeepsInv(s: State, v: nat, ok: bool, defaults: Defaults)
    requires Inv(s, defaults) && Enabled(s, AddLanguage(v, ok), defaults)
    ensures Inv(Step(s, AddLanguage(v, ok), defaults), defaults)
  {
    assert ServerOk(s.servers[v], s.db, defaults);
    var s1 := s.(db := Step(s, AddLanguage(v, ok), defaults).db);
    LanguagesKeepInv(s, s1.db.languages, defaults);
    ServerMoves(s1, v, Migrating(s.servers[v].todo, None), defaults);
  }

  lemma ServerMoves(s: State, v: nat, server: Server, defaults: Defaults)
    requires Inv(s, defaults) && ServerOk(server, s.db, defaults) && !Holder(server)
    ensures Inv(At(s, v, server), defaults)
  {
  }

  lemma MoveKeepsInv(s: State, e: Event, defaults: Defaults)
    requires Inv(s, defaults) && Enabled(s, e, defaults)
    requires !e.Commit? && !e.Insert? && !e.AddLanguage? && !e.Edit?
    ensures Inv(Step(s, e, defaults), defaults)
  {
    assert e.server in s.servers ==> ServerOk(s.servers[e.server], s.db, defaults);
    ServerMoves(s, e.server, Step(s, e, defaults).servers[e.server], defaults);
  }

  lemma {:induction false} InvRun(evs: seq<Event>, defaults: Defaults)
    requires Exec(evs, defaults).Some?
    ensures Inv(Exec(evs, defaults).value, defaults)
  {
    if |evs| > 0 {
      InvRun(evs[..|evs| - 1], defaults);
      var s, e := Exec(evs[..|evs| - 1], defaults).value, evs[|evs| - 1];
      match e
      case Commit(v, acknowledged) => CommitKeepsInv(s, v, acknowledged, defaults);
      case Insert(v, st) => InsertKeepsInv(s, v, st, defaults);
      case AddLanguage(v, ok) => AddKeepsInv(s, v, ok, defaults);
      case Edit(v, langs) => EditKeepsInv(s, v, langs, defaults);
      case _ => MoveKeepsInv(s, e, defaults);
    }
  }

  // Main results.

  /** However many servers boot at once, and whatever fails in them: at most one transaction ever seeds
      the database, all tables are seeded or none is, and a server is up only on a seeded database. */
  lemma SeededAtMostOnce(evs: seq<Event>, defaults: Defaults)
    requires Exec(evs, defaults).Some?
    ensures var s := Exec(evs, defaults).value;
            && s.seedings <= 1
            && (if s.seedings == 1 then HoldsSeed(s.db) else s.db == EMPTY)
            && forall v :: v in s.servers && s.servers[v].Serving? ==> s.seedings == 1
  {
    InvRun(evs, defaults);
    var s := Exec(evs, defaults).value;
    forall v | v in s.servers && s.servers[v].Serving? ensures s.seedings == 1 {
      assert ServerOk(s.servers[v], s.db, defaults);
    }
  }

  /** The primary key of `site` is the only arbiter: a transaction that has inserted that row never waits
      for another server nor violates a key again. */
  lemma SiteIsArbiter(evs: seq<Event>, v: nat, st: SeedStatement, defaults: Defaults)
    requires Exec(evs, defaults).Some?
    requires var s := Exec(evs, defaults).value; v in s.servers && Holder(s.servers[v]) && st !in s.servers[v].done
    requires st in SeedStatements(defaults)
    ensures Enabled(Exec(evs, defaults).value, Insert(v, st), defaults)
  {
    InvRun(evs, defaults);
    var s := Exec(evs, defaults).value;
    assert ServerOk(s.servers[v], s.db, defaults);
    assert forall w :: w in s.servers && w != v && s.servers[w].Seeding? ==> !Holder(s.servers[w]);
  }

  /** Only a commit, the insert of a missing language and an edit change the database, not a statement of an
      open transaction, a failure or a crash. */
  lemma WhatChanges(evs: seq<Event>, e: Event, defaults: Defaults)
    requires Exec(evs + [e], defaults).Some?
    ensures Exec(evs, defaults).Some?
    ensures var s, s' := Exec(evs, defaults).value, Exec(evs + [e], defaults).value;
            && (s'.db != s.db ==> e.Commit? || e.AddLanguage? || e.Edit?)
            && (e.AddLanguage? || e.Edit? ==> s'.db == s.db.(languages := s'.db.languages))
  {
    assert (evs + [e])[..|evs|] == evs;
  }

  lemma CommitAddsDefaults(s: State, v: nat, acknowledged: bool, defaults: Defaults)
    requires Inv(s, defaults) && Enabled(s, Commit(v, acknowledged), defaults)
    ensures AddsDefaults(s.db.languages, Step(s, Commit(v, acknowledged), defaults).db.languages, defaults)
  {
    CommitSeeds(s, v, acknowledged, defaults);
    SeededHolds(defaults);
  }

  lemma StepAddsDefaults(s: State, e: Event, defaults: Defaults)
    requires Enabled(s, e, defaults) && !e.Edit? && !e.Commit?
    ensures AddsDefaults(s.db.languages, Step(s, e, defaults).db.languages, defaults)
  {
    if e.AddLanguage? {
      DefaultRowHolds(defaults[s.servers[e.server].missing.value]);
    } else {
      assert Step(s, e, defaults).db == s.db;
    }
  }

  /** No boot changes or removes a language; what it adds are defaults that are missing.  Only an edit does
      otherwise. */
  lemma BootsKeepLanguages(evs: seq<Event>, e: Event, defaults: Defaults)
    requires Exec(evs, defaults).Some? && Enabled(Exec(evs, defaults).value, e, defaults) && !e.Edit?
    ensures Exec(evs + [e], defaults).Some?
    ensures AddsDefaults(Exec(evs, defaults).value.db.languages, Exec(evs + [e], defaults).value.db.languages, defaults)
  {
    InvRun(evs, defaults);
    if e.Commit? {
      CommitAddsDefaults(Exec(evs, defaults).value, e.server, e.acknowledged, defaults);
    } else {
      StepAddsDefaults(Exec(evs, defaults).value, e, defaults);
    }
    assert (evs + [e])[..|evs|] == evs;
  }

  lemma Extend(evs: seq<Event>, s: State, e: Event, defaults: Defaults) returns (evs': seq<Event>)
    requires Exec(evs, defaults) == Some(s) && Enabled(s, e, defaults)
    ensures evs' == evs + [e] && Exec(evs', defaults) == Some(Step(s, e, defaults))
  {
    evs' := evs + [e];
    assert evs'[..|evs|] == evs;
  }

  /** The transaction goes on. */
  lemma NextInsert(evs: seq<Event>, s: State, v: nat, st: SeedStatement, defaults: Defaults)
    returns (evs': seq<Event>, s': State)
    requires Exec(evs, defaults) == Some(s) && v in s.servers && Holder(s.servers[v])
    requires st in SeedStatements(defaults) && st !in s.servers[v].done
    ensures evs' == evs + [Insert(v, st)] && Exec(evs', defaults) == Some(s')
    ensures s' == At(s, v, Seeding(s.servers[v].done + {st}))
  {
    SiteIsArbiter(evs, v, st, defaults);
    evs' := Extend(evs, s, Insert(v, st), defaults);
    s' := Step(s, Insert(v, st), defaults);
  }

  lemma LeftToInsert(done: set<SeedStatement>, st: SeedStatement, all: set<SeedStatement>)
    requires st in all && st !in done
    ensures all - (done + {st}) < all - done
  {
    assert st in all - done;
  }

  lemma DoneIsPart(evs: seq<Event>, s: State, v: nat, defaults: Defaults)
    requires Exec(evs, defaults) == Some(s) && v in s.servers && s.servers[v].Seeding?
    ensures s.servers[v].done <= SeedStatements(defaults)
  {
    InvRun(evs, defaults);
    assert ServerOk(s.servers[v], s.db, defaults);
  }

  lemma Regroup(evs: seq<Event>, e: Event, rest: seq<Event>)
    ensures evs + ([e] + rest) == evs + [e] + rest
  {
  }

  lemma LastCommit(evs: seq<Event>, s: State, v: nat, defaults: Defaults) returns (s': State)
    requires Exec(evs, defaults) == Some(s) && v in s.servers && s.servers[v] == Seeding(SeedStatements(defaults))
    ensures Exec(evs + [Commit(v, true)], defaults) == Some(s')
    ensures s' == State(Seeded(EMPTY, defaults), s.servers[v := Serving], 1)
  {
    InvRun(evs, defaults);
    CommitSeeds(s, v, true, defaults);
    var evs' := Extend(evs, s, Commit(v, true), defaults);
    s' := Step(s, Commit(v, true), defaults);
  }

  /** So nothing but a fault of its own keeps it from seeding the database: with no step of another
      server, it can insert the rest and commit. */
  lemma {:induction false} HolderCanSeed(evs: seq<Event>, s: State, v: nat, defaults: Defaults)
    returns (more: seq<Event>, s': State)
    requires Exec(evs, defaults) == Some(s) && v in s.servers && Holder(s.servers[v])
    ensures Exec(evs + more, defaults) == Some(s')
    ensures s' == State(Seeded(EMPTY, defaults), s.servers[v := Serving], 1)
    ensures forall e :: e in more ==> e.server == v
    decreases SeedStatements(defaults) - s.servers[v].done
  {
    DoneIsPart(evs, s, v, defaults);
    if s.servers[v].done == SeedStatements(defaults) {
      more := [Commit(v, true)];
      s' := LastCommit(evs, s, v, defaults);
    } else {
      var st :| st in SeedStatements(defaults) && st !in s.servers[v].done;
      LeftToInsert(s.servers[v].done, st, SeedStatements(defaults));
      var evs1, s1 := NextInsert(evs, s, v, st, defaults);
      var rest;
      rest, s' := HolderCanSeed(evs1, s1, v, defaults);
      more := [Insert(v, st)] + rest;
      Regroup(evs, Insert(v, st), rest);
    }
  }

  lemma DefaultsStep(s: State, e: Event, defaults: Defaults)
    requires Inv(s, defaults) && Enabled(s, e, defaults) && !e.Edit?
    requires if s.seedings == 1 then HoldDefaults(s.db.languages, defaults) else s.db.languages == map[]
    ensures var s' := Step(s, e, defaults);
            if s'.seedings == 1 then HoldDefaults(s'.db.languages, defaults) else s'.db.languages == map[]
  {
    if e.Commit? {
      CommitSeeds(s, e.server, e.acknowledged, defaults);
      SeededHolds(defaults);
    } else if e.AddLanguage? {
      assert ServerOk(s.servers[e.server], s.db, defaults);
    } else {
      assert Step(s, e, defaults).db == s.db;
    }
  }

  /** Without edits, the languages of a seeded database are exactly the defaults. */
  lemma {:induction false} DefaultsWithoutEdits(evs: seq<Event>, defaults: Defaults)
    requires Exec(evs, defaults).Some? && forall e :: e in evs ==> !e.Edit?
    ensures var s := Exec(evs, defaults).value;
            if s.seedings == 1 then HoldDefaults(s.db.languages, defaults) else s.db.languages == map[]
  {
    if |evs| > 0 {
      var before, e := evs[..|evs| - 1], evs[|evs| - 1];
      DefaultsWithoutEdits(before, defaults);
      InvRun(before, defaults);
      DefaultsStep(Exec(before, defaults).value, e, defaults);
    }
  }

  /** An edit replaces the languages by the normal form of its value. */
  lemma EditIsShown(evs: seq<Event>, v: nat, langs: map<string, Json>, defaults: Defaults)
    requires Exec(evs + [Edit(v, langs)], defaults).Some?
    ensures IsNormalFormOf(Join(Exec(evs + [Edit(v, langs)], defaults).value.db.languages), langs)
  {
    assert (evs + [Edit(v, langs)])[..|evs|] == evs;
    RoundTripIsNormalForm(langs);
  }

  // A migrating server, among others.

  /** No edit, and no insert of a language by v that failed. */
  predicate Undisturbed(evs: seq<Event>, v: nat) {
    forall e :: e in evs ==> !e.Edit? && (e.AddLanguage? && e.server == v ==> e.ok)
  }

  /** Every default that v has dealt with is there. */
  ghost predicate DealtWith(s: State, v: nat, defaults: Defaults) {
    v in s.servers &&
    match s.servers[v]
    case Migrating(todo, missing) =>
      forall c :: c in defaults && c !in todo && missing != Some(c) ==> c in s.db.languages
    case Serving => defaults.Keys <= s.db.languages.Keys
    case Down => true
    case _ => false
  }

  lemma LanguagesStay(s: State, e: Event, defaults: Defaults)
    requires Enabled(s, e, defaults) && !e.Edit?
    ensures s.db.languages.Keys <= Step(s, e, defaults).db.languages.Keys
  {
  }

  lemma DealtWithStep(s: State, e: Event, v: nat, defaults: Defaults)
    requires Inv(s, defaults) && Enabled(s, e, defaults) && DealtWith(s, v, defaults)
    requires !e.Edit? && (e.AddLanguage? && e.server == v ==> e.ok)
    ensures DealtWith(Step(s, e, defaults), v, defaults)
  {
    if e.Commit? {
      CommitSeeds(s, e.server, e.acknowledged, defaults);
    }
    LanguagesStay(s, e, defaults);
    if e.server != v {
      assert Step(s, e, defaults).servers[v] == s.servers[v];
    }
  }

  /** Whatever the others do meanwhile, a server that has found `site` seeded and finishes migrating has seen
      to it that every default is there, if no edit comes in between and its inserts succeed. */
  lemma {:induction false} FinishedHasMigrated(evs: seq<Event>, more: seq<Event>, v: nat, defaults: Defaults)
    requires Exec(evs, defaults).Some? && Exec(evs + more, defaults).Some?
    requires v in Exec(evs, defaults).value.servers
    requires Exec(evs, defaults).value.servers[v] == Migrating(defaults.Keys, None) && Undisturbed(more, v)
    ensures DealtWith(Exec(evs + more, defaults).value, v, defaults)
  {
    if |more| == 0 {
      assert evs + more == evs;
    } else {
      var before, e := more[..|more| - 1], more[|more| - 1];
      assert (evs + more)[..|evs + more| - 1] == evs + before;
      FinishedHasMigrated(evs, before, v, defaults);
      InvRun(evs + before, defaults);
      DealtWithStep(Exec(evs + before, defaults).value, e, v, defaults);
    }
  }

  // A boot that nothing interrupts.

  /** The count and, if need be, the insert of one language. */
  lemma MigrateOne(evs: seq<Event>, s: State, v: nat, todo: set<string>, code: string, query: bool, insert: bool,
                   defaults: Defaults)
    returns (evs': seq<Event>, s': State)
    requires Exec(evs, defaults) == Some(s) && v in s.servers && s.servers[v] == Migrating(todo, None)
    requires code in todo && code in defaults
    ensures Exec(evs', defaults) == Some(s')
    ensures s' == At(if code in s.db.languages || !insert then s
                     else s.(db := Inserted(s.db, InsertLanguage(code), defaults)),
                     v, Migrating(todo - {code}, None))
  {
    evs' := Extend(evs, s, CountLanguage(v, code, query), defaults);
    s' := Step(s, CountLanguage(v, code, query), defaults);
    if s'.servers[v].missing.Some? {
      evs' := Extend(evs', s', AddLanguage(v, insert), defaults);
      s' := Step(s', AddLanguage(v, insert), defaults);
    }
  }

  lemma {:induction false} MigrateIsRun(evs: seq<Event>, s: State, v: nat, todo: set<string>, before: Db, fate: BootFate,
                                        defaults: Defaults)
    returns (evs': seq<Event>, s': State)
    requires Exec(evs, defaults) == Some(s) && v in s.servers && s.servers[v] == Migrating(todo, None)
    requires todo <= defaults.Keys
    requires s.db == before.(languages := before.languages + MissingSoFar(defaults, before.languages, fate.inserts, todo))
    ensures Exec(evs', defaults) == Some(s') && s'.servers == s.servers[v := Serving]
    ensures s'.db == before.(languages := before.languages + Missing(defaults, before.languages, fate.inserts))
    decreases todo
  {
    if todo == {} {
      evs' := Extend(evs, s, Finish(v), defaults);
      s' := Step(s, Finish(v), defaults);
    } else {
      var code :| code in todo;
      MissingStep(defaults, before.languages, fate.inserts, todo, code);
      evs', s' := MigrateOne(evs, s, v, todo, code, fate.queries(code), fate.inserts(code), defaults);
      evs', s' := MigrateIsRun(evs', s', v, todo - {code}, before, fate, defaults);
    }
  }

  /** A server that finds `site` empty, with no open transaction to wait for. */
  lemma SeedIsRun(evs: seq<Event>, s: State, v: nat, fate: BootFate, defaults: Defaults)
    returns (evs': seq<Event>, s': State)
    requires Exec(evs, defaults) == Some(s) && v in s.servers && s.servers[v] == Seeding({})
    requires Site !in s.db.singles && fate.counts
    requires forall w :: w in s.servers ==> !Holder(s.servers[w])
    ensures Exec(evs', defaults) == Some(s')
    ensures var (db, err) := Booted(s.db, defaults, fate);
            s'.db == db && s'.servers == s.servers[v := if err then Down else Serving]
  {
    if SeedSucceeds(s.db, defaults, fate.seed) {
      InvRun(evs, defaults);
      assert InsertSingle(Site) in SeedStatements(defaults);
      assert forall w :: w in s.servers && s.servers[w].Seeding? ==> s.servers[w].done == {};
      var evs1 := Extend(evs, s, Insert(v, InsertSingle(Site)), defaults);
      var s1 := Step(s, Insert(v, InsertSingle(Site)), defaults);
      var more;
      more, s' := HolderCanSeed(evs1, s1, v, defaults);
      evs' := evs1 + more;
    } else {
      evs' := Extend(evs, s, Stop(v), defaults);
      s' := Step(s, Stop(v), defaults);
    }
  }

  lemma AtTwice(s: State, v: nat, server: Server, server': Server)
    ensures At(s, v, server).servers[v := server'] == s.servers[v := server']
  {
  }

  lemma Starts(evs: seq<Event>, s: State, v: nat, e: Event, defaults: Defaults) returns (evs': seq<Event>, s': State)
    requires Exec(evs, defaults) == Some(s) && v !in s.servers && (e == CountSite(v) || e == Stop(v))
    ensures Exec(evs', defaults) == Some(s')
    ensures s' == At(s, v, if e.Stop? then Down
                           else if Site in s.db.singles then Migrating(defaults.Keys, None) else Seeding({}))
  {
    evs' := Extend(evs, s, Start(v), defaults);
    var s1 := Step(s, Start(v), defaults);
    evs' := Extend(evs', s1, e, defaults);
    s' := Step(s1, e, defaults);
  }

  /** From any state without an open transaction to wait for, a boot that nothing interrupts, whatever fails in
      it, is a run of a new server: it leaves the same database, and the server is up if the boot succeeds. */
  lemma BootIsRun(evs: seq<Event>, s: State, v: nat, fate: BootFate, defaults: Defaults)
    returns (evs': seq<Event>, s': State)
    requires Exec(evs, defaults) == Some(s) && v !in s.servers
    requires forall w :: w in s.servers ==> !Holder(s.servers[w])
    ensures Exec(evs', defaults) == Some(s')
    ensures var (db, err) := Booted(s.db, defaults, fate);
            s'.db == db && s'.servers == s.servers[v := if err then Down else Serving]
  {
    evs', s' := Starts(evs, s, v, if fate.counts then CountSite(v) else Stop(v), defaults);
    AtTwice(s, v, s'.servers[v], Serving);
    AtTwice(s, v, s'.servers[v], Down);
    if fate.counts && Site in s.db.singles {
      MissingStart(defaults, s.db.languages, fate.inserts);
      evs', s' := MigrateIsRun(evs', s', v, defaults.Keys, s.db, fate, defaults);
    } else if fate.counts {
      evs', s' := SeedIsRun(evs', s', v, fate, defaults);
    }
  }
}
