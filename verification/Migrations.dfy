/**
 The migration runner of internal/migrate/migrate.go.  The SQL of a migration is an unknown but
 deterministic effect on an unknown kind of schema.
 */
module Migrations {
  import opened Common

  datatype Migration = Migration(version: int, name: string, path: string)

  /** The schema after the first n files. */
  function Fold<S>(effect: (S, Migration) -> S, schema: S, files: seq<Migration>, n: nat): S
    requires n <= |files|
  {
    if n == 0 then schema else effect(Fold(effect, schema, files, n - 1), files[n - 1])
  }

  /** In numeric order, no two files with the same version. */
  predicate Increasing(files: seq<Migration>) {
    forall i, j :: 0 <= i < j < |files| ==> files[i].version < files[j].version
  }

  function VersionsOf(files: seq<Migration>): set<int> {
    set i | 0 <= i < |files| :: files[i].version
  }

  // One runner on its own.

  /** What becomes of one call of applyOne: it may fail before its commit, for whatever reason, or
      commit without the runner hearing of it. */
  datatype Fault = Fine | Fails | Unacknowledged

  datatype Db<S> = Db(versions: set<int>, schema: S)

  /** The insert fails if the version is recorded already, and the SQL is rolled back with it. */
  function ApplyOne<S>(effect: (S, Migration) -> S, db: Db<S>, m: Migration, fault: Fault): (r: (Db<S>, bool)) {
    if fault.Fails? || m.version in db.versions then (db, false)
    else (Db(db.versions + {m.version}, effect(db.schema, m)), fault.Fine?)
  }

  /** The loop of Run over the files from i on; `applied` is the snapshot taken before the loop. */
  function RunFrom<S>(effect: (S, Migration) -> S, db: Db<S>, applied: set<int>, files: seq<Migration>, i: nat,
                      faults: nat -> Fault): (r: (Db<S>, bool))
    requires i <= |files|
    ensures db.versions <= r.0.versions
    decreases |files| - i
  {
    if i == |files| then (db, true)
    else if files[i].version in applied then RunFrom(effect, db, applied, files, i + 1, faults)
    else
      var (db', ok) := ApplyOne(effect, db, files[i], faults(i));
      if ok then RunFrom(effect, db', applied, files, i + 1, faults) else (db', false)
  }

  class Database<S> {
    var versions: set<int>
    var schema: S

    constructor (versions: set<int>, schema: S)
      ensures Value() == Db(versions, schema)
    {
      this.versions, this.schema := versions, schema;
    }

    ghost function Value(): Db<S>
      reads this
    {
      Db(versions, schema)
    }

    method Apply(effect: (S, Migration) -> S, m: Migration, fault: Fault) returns (ok: bool)
      modifies this
      ensures (Value(), ok) == ApplyOne(effect, old(Value()), m, fault)
      ensures fault.Fails? || m.version in old(versions) ==> !ok && versions == old(versions) && schema == old(schema)
      ensures !fault.Fails? && m.version !in old(versions) ==>
                (ok <==> fault.Fine?) && versions == old(versions) + {m.version} && schema == effect(old(schema), m)
    {
      if fault.Fails? {
        return false;
      }
      if m.version in versions {
        return false;
      }
      versions := versions + {m.version};
      schema := effect(schema, m);
      ok := fault.Fine?;
    }

    method Run(effect: (S, Migration) -> S, files: seq<Migration>, faults: nat -> Fault) returns (ok: bool)
      modifies this
      ensures (Value(), ok) == RunFrom(effect, old(Value()), old(versions), files, 0, faults)
    {
      var applied := versions;
      ok := true;
      var i := 0;
      while i < |files|
        invariant 0 <= i <= |files|
        invariant RunFrom(effect, old(Value()), applied, files, 0, faults)
               == RunFrom(effect, Value(), applied, files, i, faults)
      {
        if files[i].version !in applied {
          var done := Apply(effect, files[i], faults(i));
          if !done {
            return false;
          }
        }
        i := i + 1;
      }
    }
  }

  /** From any prefix, a Run without faults completes the rest in order. */
  lemma {:induction false} RunCompletes<S>(effect: (S, Migration) -> S, schema: S, files: seq<Migration>,
                                           n: nat, i: nat, faults: nat -> Fault)
    requires Increasing(files) && n <= i <= |files|
    requires forall k :: 0 <= k < |files| ==> faults(k) == Fine
    ensures RunFrom(effect, Db(VersionsOf(files[..i]), Fold(effect, schema, files, i)), VersionsOf(files[..n]),
                    files, i, faults)
         == (Db(VersionsOf(files), Fold(effect, schema, files, |files|)), true)
    decreases |files| - i
  {
    if i == |files| {
      assert files[..i] == files;
    } else {
      assert files[i].version !in VersionsOf(files[..i]) && files[i].version !in VersionsOf(files[..n]);
      VersionsSnoc(files, i);
      RunCompletes(effect, schema, files, n, i + 1, faults);
    }
  }

  /** Files recorded in the snapshot are passed over, whatever might have gone wrong with them. */
  lemma {:induction false} RunSkips<S>(effect: (S, Migration) -> S, db: Db<S>, applied: set<int>,
                                       files: seq<Migration>, i: nat, n: nat, faults: nat -> Fault)
    requires i <= n <= |files| && VersionsOf(files[..n]) <= applied
    ensures RunFrom(effect, db, applied, files, i, faults) == RunFrom(effect, db, applied, files, n, faults)
    decreases n - i
  {
    if i < n {
      assert files[..n][i].version in VersionsOf(files[..n]);
      RunSkips(effect, db, applied, files, i + 1, n, faults);
    }
  }

  /** One uninterrupted Run over a database to which the first n files have been applied. */
  lemma UninterruptedRun<S>(effect: (S, Migration) -> S, schema: S, files: seq<Migration>, n: nat, faults: nat -> Fault)
    requires Increasing(files) && n <= |files|
    requires forall k :: 0 <= k < |files| ==> faults(k) == Fine
    ensures var db := Db(VersionsOf(files[..n]), Fold(effect, schema, files, n));
            var all := Db(VersionsOf(files), Fold(effect, schema, files, |files|));
            RunFrom(effect, db, db.versions, files, 0, faults) == (all, true)
  {
    var db := Db(VersionsOf(files[..n]), Fold(effect, schema, files, n));
    RunSkips(effect, db, db.versions, files, 0, n, faults);
    RunCompletes(effect, schema, files, n, n, faults);
  }

  /** A Run on an up-to-date database changes nothing and succeeds. */
  lemma UpToDateRun<S>(effect: (S, Migration) -> S, db: Db<S>, files: seq<Migration>, faults: nat -> Fault)
    requires VersionsOf(files) <= db.versions
    ensures RunFrom(effect, db, db.versions, files, 0, faults) == (db, true)
  {
    assert files[..|files|] == files;
    RunSkips(effect, db, db.versions, files, 0, |files|, faults);
  }

  lemma VersionsSnoc(files: seq<Migration>, i: nat)
    requires i < |files|
    ensures VersionsOf(files[..i + 1]) == VersionsOf(files[..i]) + {files[i].version}
  {
    var later, earlier := files[..i + 1], files[..i];
    forall v | v in VersionsOf(earlier) + {files[i].version} ensures v in VersionsOf(later) {
      if v in VersionsOf(earlier) {
        var k :| 0 <= k < |earlier| && earlier[k].version == v;
        assert later[k].version == v;
      } else {
        assert later[i].version == v;
      }
    }
  }

  /** No two of the files from i on that are still to be applied share a version, and none of them has
      been recorded since the snapshot. */
  ghost predicate NoClash(files: seq<Migration>, i: nat, recorded: set<int>, applied: set<int>) {
    && (forall j :: i <= j < |files| && files[j].version !in applied ==> files[j].version !in recorded)
    && (forall j, k :: i <= j < k < |files| && files[j].version !in applied ==> files[j].version != files[k].version)
  }

  /** The snapshot is not updated in the loop: without faults, a Run over any list of files succeeds if
      and only if no two pending files share a version. */
  lemma {:induction false} RunSucceedsIff<S>(effect: (S, Migration) -> S, db: Db<S>, applied: set<int>,
                                             files: seq<Migration>, i: nat, faults: nat -> Fault)
    requires i <= |files| && forall k :: 0 <= k < |files| ==> faults(k) == Fine
    ensures RunFrom(effect, db, applied, files, i, faults).1 <==> NoClash(files, i, db.versions, applied)
    decreases |files| - i
  {
    if i < |files| {
      var db' := ApplyOne(effect, db, files[i], faults(i)).0;
      RunSucceedsIff(effect, if files[i].version in applied then db else db', applied, files, i + 1, faults);
      if files[i].version !in applied && files[i].version !in db.versions {
        assert NoClash(files, i + 1, db'.versions, applied) ==> NoClash(files, i, db.versions, applied) by {
          forall j | i < j < |files| && NoClash(files, i + 1, db'.versions, applied)
            ensures files[i].version != files[j].version
          {
            assert files[j].version !in applied ==> files[j].version !in db'.versions;
          }
        }
      }
    }
  }

  lemma DuplicateIff<S>(effect: (S, Migration) -> S, db: Db<S>, files: seq<Migration>, faults: nat -> Fault)
    requires forall k :: 0 <= k < |files| ==> faults(k) == Fine
    ensures RunFrom(effect, db, db.versions, files, 0, faults).1 <==>
            forall j, k :: 0 <= j < k < |files| && files[j].version !in db.versions ==>
              files[j].version != files[k].version
  {
    RunSucceedsIff(effect, db, db.versions, files, 0, faults);
  }

  /** A Run stopped by a duplicate has recorded at least one more version of the files. */
  lemma {:induction false} RunProgress<S>(effect: (S, Migration) -> S, db: Db<S>, applied: set<int>,
                                          files: seq<Migration>, i: nat, faults: nat -> Fault)
    requires i <= |files| && forall k :: 0 <= k < |files| ==> faults(k) == Fine
    ensures var (db', ok) := RunFrom(effect, db, applied, files, i, faults);
            !ok ==> exists j :: i <= j < |files| && files[j].version in db'.versions && files[j].version !in applied
    decreases |files| - i
  {
    if i < |files| {
      if files[i].version in applied {
        RunProgress(effect, db, applied, files, i + 1, faults);
      } else if files[i].version !in db.versions {
        RunProgress(effect, ApplyOne(effect, db, files[i], faults(i)).0, applied, files, i + 1, faults);
      }
    }
  }

  /** The database after k Runs in a row; faults(j) are those of Run j. */
  function Reruns<S>(effect: (S, Migration) -> S, db: Db<S>, files: seq<Migration>, faults: nat -> nat -> Fault, k: nat)
    : (r: Db<S>)
    ensures db.versions <= r.versions
  {
    if k == 0 then db else NextRun(effect, Reruns(effect, db, files, faults, k - 1), files, faults(k - 1)).0
  }

  /** A Run with its own snapshot. */
  function NextRun<S>(effect: (S, Migration) -> S, db: Db<S>, files: seq<Migration>, faults: nat -> Fault): (Db<S>, bool) {
    RunFrom(effect, db, db.versions, files, 0, faults)
  }

  lemma FewerPending(all: set<int>, recorded: set<int>, recorded': set<int>, v: int)
    requires recorded <= recorded' && v in all && v in recorded' && v !in recorded
    ensures all - recorded' < all - recorded && |all - recorded'| < |all - recorded|
  {
    assert v in all - recorded && v !in all - recorded';
    SubsetSize(all - recorded', (all - recorded) - {v});
  }

  /** The next Run skips the duplicate: as many re-runs as there are versions to record, and one more,
      end in success.  `k` Runs have been made. */
  lemma {:induction false} RerunsSucceed<S>(effect: (S, Migration) -> S, db: Db<S>, files: seq<Migration>,
                                            faults: nat -> nat -> Fault, k: nat)
    returns (n: nat)
    requires forall j, i :: faults(j)(i) == Fine
    ensures k <= n <= k + |VersionsOf(files) - Reruns(effect, db, files, faults, k).versions|
    ensures NextRun(effect, Reruns(effect, db, files, faults, n), files, faults(n)).1
    decreases VersionsOf(files) - Reruns(effect, db, files, faults, k).versions
  {
    var db1 := Reruns(effect, db, files, faults, k);
    var (db', ok) := NextRun(effect, db1, files, faults(k));
    n := k;
    if !ok {
      RunProgress(effect, db1, db1.versions, files, 0, faults(k));
      var j :| 0 <= j < |files| && files[j].version in db'.versions && files[j].version !in db1.versions;
      FewerPending(VersionsOf(files), db1.versions, db'.versions, files[j].version);
      n := RerunsSucceed(effect, db, files, faults, k + 1);
    }
  }

  // What Runs make of files with duplicate versions.

  /** The first n files, each applied only if its version is not recorded yet. */
  function Folded<S>(effect: (S, Migration) -> S, db: Db<S>, files: seq<Migration>, n: nat): Db<S>
    requires n <= |files|
  {
    if n == 0 then db else ApplyOne(effect, Folded(effect, db, files, n - 1), files[n - 1], Fine).0
  }

  lemma {:induction false} FoldedVersions<S>(effect: (S, Migration) -> S, db: Db<S>, files: seq<Migration>, n: nat)
    requires n <= |files|
    ensures Folded(effect, db, files, n).versions == db.versions + VersionsOf(files[..n])
  {
    if n > 0 {
      FoldedVersions(effect, db, files, n - 1);
      VersionsSnoc(files, n - 1);
    }
  }

  /** From the i-th file on a Run goes on folding, up to where it stops. */
  lemma {:induction false} RunFolds<S>(effect: (S, Migration) -> S, db: Db<S>, applied: set<int>, files: seq<Migration>,
                                       i: nat, faults: nat -> Fault)
    returns (n: nat)
    requires i <= |files| && applied <= Folded(effect, db, files, i).versions
    ensures i <= n <= |files|
    ensures var (db', ok) := RunFrom(effect, Folded(effect, db, files, i), applied, files, i, faults);
            db' == Folded(effect, db, files, n) && (ok ==> n == |files|)
    decreases |files| - i
  {
    var db1 := Folded(effect, db, files, i);
    n := i;
    if i < |files| {
      if files[i].version in applied || ApplyOne(effect, db1, files[i], faults(i)).1 {
        n := RunFolds(effect, db, applied, files, i + 1, faults);
      } else if faults(i).Unacknowledged? {
        n := i + 1;
      }
    }
  }

  /** Whatever goes wrong in them, any number of Runs have folded some of the files. */
  lemma {:induction false} RerunsFold<S>(effect: (S, Migration) -> S, db: Db<S>, files: seq<Migration>,
                                         faults: nat -> nat -> Fault, k: nat)
    returns (n: nat)
    requires k > 0
    ensures n <= |files| && Reruns(effect, db, files, faults, k) == Folded(effect, db, files, n)
    ensures NextRun(effect, Reruns(effect, db, files, faults, k - 1), files, faults(k - 1)).1 ==> n == |files|
  {
    var m := 0;
    if k > 1 {
      m := RerunsFold(effect, db, files, faults, k - 1);
    }
    var db1 := Folded(effect, db, files, m);
    FoldedVersions(effect, db, files, m);
    RunSkips(effect, db1, db1.versions, files, 0, m, faults(k - 1));
    n := RunFolds(effect, db, db1.versions, files, m, faults(k - 1));
  }

  /** The files that take effect: those whose version is neither recorded nor that of an earlier file. */
  function Firsts(files: seq<Migration>, recorded: set<int>): seq<Migration> {
    if |files| == 0 then []
    else
      var before, m := files[..|files| - 1], files[|files| - 1];
      if m.version in recorded + VersionsOf(before) then Firsts(before, recorded)
      else Firsts(before, recorded) + [m]
  }

  /** One file for each version that was not recorded. */
  lemma {:induction false} FirstsOncePerVersion(files: seq<Migration>, recorded: set<int>)
    ensures VersionsOf(Firsts(files, recorded)) == VersionsOf(files) - recorded
    ensures forall i, j :: 0 <= i < j < |Firsts(files, recorded)| ==>
              Firsts(files, recorded)[i].version != Firsts(files, recorded)[j].version
  {
    if |files| > 0 {
      var n := |files| - 1;
      var before, m := files[..n], files[n];
      var firsts := Firsts(before, recorded);
      FirstsOncePerVersion(before, recorded);
      assert files[..n + 1] == files;
      VersionsSnoc(files, n);
      if m.version !in recorded + VersionsOf(before) {
        assert (firsts + [m])[..|firsts|] == firsts && (firsts + [m])[..|firsts| + 1] == firsts + [m];
        VersionsSnoc(firsts + [m], |firsts|);
        assert forall i :: 0 <= i < |firsts| ==> firsts[i].version in VersionsOf(firsts);
      }
    }
  }

  lemma FoldSnoc<S>(effect: (S, Migration) -> S, schema: S, files: seq<Migration>, m: Migration)
    ensures Fold(effect, schema, files + [m], |files| + 1) == effect(Fold(effect, schema, files, |files|), m)
  {
    FoldPrefix(effect, schema, files, [m], |files|);
  }

  lemma {:induction false} FoldPrefix<S>(effect: (S, Migration) -> S, schema: S, files: seq<Migration>,
                                         more: seq<Migration>, n: nat)
    requires n <= |files|
    ensures Fold(effect, schema, files + more, n) == Fold(effect, schema, files, n)
  {
    if n > 0 {
      FoldPrefix(effect, schema, files, more, n - 1);
    }
  }

  lemma {:induction false} FoldedIsFoldOfFirsts<S>(effect: (S, Migration) -> S, db: Db<S>, files: seq<Migration>, n: nat)
    requires n <= |files|
    ensures var firsts := Firsts(files[..n], db.versions);
            Folded(effect, db, files, n).schema == Fold(effect, db.schema, firsts, |firsts|)
  {
    if n > 0 {
      FoldedIsFoldOfFirsts(effect, db, files, n - 1);
      FoldedVersions(effect, db, files, n - 1);
      assert files[..n][..n - 1] == files[..n - 1];
      FoldSnoc(effect, db.schema, Firsts(files[..n - 1], db.versions), files[n - 1]);
    }
  }

  /** Duplicates or not: once a Run succeeds, after any number of Runs with any faults, all versions are
      recorded and the schema is the fold of the first file of each version that was not recorded before;
      the SQL of every other file has left no trace. */
  lemma SuccessFoldsFirsts<S>(effect: (S, Migration) -> S, db: Db<S>, files: seq<Migration>,
                              faults: nat -> nat -> Fault, k: nat)
    requires NextRun(effect, Reruns(effect, db, files, faults, k), files, faults(k)).1
    ensures var firsts, db' := Firsts(files, db.versions), Reruns(effect, db, files, faults, k + 1);
            && db'.versions == db.versions + VersionsOf(files)
            && db'.schema == Fold(effect, db.schema, firsts, |firsts|)
  {
    var n := RerunsFold(effect, db, files, faults, k + 1);
    assert files[..|files|] == files;
    FoldedVersions(effect, db, files, n);
    FoldedIsFoldOfFirsts(effect, db, files, n);
  }

  /** Two pending files with one version: the first Run fails after the first of them, the second Run
      succeeds, and the second file never takes effect. */
  lemma DuplicateIsLost<S>(effect: (S, Migration) -> S, db: Db<S>, m: Migration, m': Migration, faults: nat -> Fault)
    requires m.version == m'.version && m.version !in db.versions && forall i :: faults(i) == Fine
    ensures var db' := Db(db.versions + {m.version}, effect(db.schema, m));
            && NextRun(effect, db, [m, m'], faults) == (db', false)
            && NextRun(effect, db', [m, m'], faults) == (db', true)
  {
    var db', files := Db(db.versions + {m.version}, effect(db.schema, m)), [m, m'];
    assert RunFrom(effect, db', db.versions, files, 1, faults) == (db', false);
    UpToDateRun(effect, db', files, faults);
  }

  // Exactly where a Run stops, and what it leaves.

  /** File i has still to be applied and cannot be, or the runner does not hear that it was. */
  ghost predicate StopsAt(files: seq<Migration>, recorded: set<int>, i: nat, faults: nat -> Fault)
    requires i < |files|
  {
    files[i].version !in recorded && (faults(i) != Fine || files[i].version in VersionsOf(files[..i]))
  }

  /** The number of files the Run has behind it when it stops at file n: also file n if only the
      acknowledgement of its commit was lost. */
  ghost function DoneWhenStopped(files: seq<Migration>, n: nat, faults: nat -> Fault): nat
    requires n <= |files|
  {
    if n < |files| && faults(n).Unacknowledged? && files[n].version !in VersionsOf(files[..n]) then n + 1 else n
  }

  lemma {:induction false} StopOfRun<S>(effect: (S, Migration) -> S, db: Db<S>, files: seq<Migration>, i: nat,
                                        faults: nat -> Fault)
    returns (n: nat)
    requires i <= |files| && forall k :: 0 <= k < i ==> !StopsAt(files, db.versions, k, faults)
    ensures n <= |files| && (n < |files| ==> StopsAt(files, db.versions, n, faults))
    ensures forall k :: 0 <= k < n ==> !StopsAt(files, db.versions, k, faults)
    ensures RunFrom(effect, Folded(effect, db, files, i), db.versions, files, i, faults)
         == (Folded(effect, db, files, DoneWhenStopped(files, n, faults)), n == |files|)
    decreases |files| - i
  {
    n := i;
    if i < |files| {
      FoldedVersions(effect, db, files, i);
      if !StopsAt(files, db.versions, i, faults) {
        n := StopOfRun(effect, db, files, i + 1, faults);
      }
    }
  }

  /** A Run with any faults over any files stops at the first file that is pending and fails or repeats the
      version of an earlier one, and succeeds if there is none.  It has then recorded the versions of the
      files before that one, and its schema is the fold of the first pending file of each version among
      them; the file it stops at has left no trace, unless only the acknowledgement was lost. */
  lemma RunIsExact<S>(effect: (S, Migration) -> S, db: Db<S>, files: seq<Migration>, faults: nat -> Fault)
    returns (n: nat)
    ensures n <= |files| && (n < |files| ==> StopsAt(files, db.versions, n, faults))
    ensures forall k :: 0 <= k < n ==> !StopsAt(files, db.versions, k, faults)
    ensures var (db', ok) := RunFrom(effect, db, db.versions, files, 0, faults);
            var behind := files[..DoneWhenStopped(files, n, faults)];
            var firsts := Firsts(behind, db.versions);
            && (ok <==> n == |files|)
            && db'.versions == db.versions + VersionsOf(behind)
            && db'.schema == Fold(effect, db.schema, firsts, |firsts|)
  {
    n := StopOfRun(effect, db, files, 0, faults);
    var done := DoneWhenStopped(files, n, faults);
    FoldedVersions(effect, db, files, done);
    FoldedIsFoldOfFirsts(effect, db, files, done);
  }

  /** In particular a Run whose first pending file fails changes nothing and reports an error. */
  lemma FailureLeavesNoTrace<S>(effect: (S, Migration) -> S, db: Db<S>, files: seq<Migration>, i: nat, faults: nat -> Fault)
    requires i < |files| && faults(i).Fails? && files[i].version !in db.versions
    requires forall k :: 0 <= k < i ==> files[k].version in db.versions
    ensures RunFrom(effect, db, db.versions, files, 0, faults) == (db, false)
  {
    var earlier := files[..i];
    assert VersionsOf(earlier) <= db.versions;
    RunSkips(effect, db, db.versions, files, 0, i, faults);
  }

  /** Every version a Run adds is that of a file that did not fail. */
  lemma AddedDidNotFail<S>(effect: (S, Migration) -> S, db: Db<S>, files: seq<Migration>, faults: nat -> Fault, v: int)
    returns (i: nat)
    requires v in RunFrom(effect, db, db.versions, files, 0, faults).0.versions && v !in db.versions
    ensures i < |files| && files[i].version == v && !faults(i).Fails?
  {
    var n := RunIsExact(effect, db, files, faults);
    var behind := files[..DoneWhenStopped(files, n, faults)];
    i :| 0 <= i < |behind| && behind[i].version == v;
    assert i < n ==> !StopsAt(files, db.versions, i, faults);
  }
}

/**
 Several server instances run the migrations at once.  Each takes its snapshot of the recorded versions
 and then goes through the files; the primary key on `version` is all that stands between them.
 */
module MigrationRunners {
  import opened Common
  import opened Migrations

  /** Where a runner is.  In a transaction it holds the schema its SQL has produced, and, for the record,
      how many versions were recorded when the SQL ran. */
  datatype Runner<S> =
    | Started
    | Ready(applied: set<int>, i: nat)
    | Executed(applied: set<int>, i: nat, base: nat, work: S)
    | Inserted(applied: set<int>, i: nat, base: nat, work: S)
    | Succeeded
    | Stopped

  /** A committed migration, and how many were recorded when its SQL ran. */
  datatype Record = Record(version: int, base: nat)

  datatype State<S> = State(done: seq<Record>, schema: S, runners: map<nat, Runner<S>>)

  datatype Event =
    | Start(runner: nat)
    | Snapshot(runner: nat)
    | Skip(runner: nat)
    | ExecSql(runner: nat)
    | Insert(runner: nat)
    | Commit(runner: nat, acknowledged: bool)
    | Fail(runner: nat)
    | Finish(runner: nat)

  function Recorded(done: seq<Record>): set<int> {
    set i | 0 <= i < |done| :: done[i].version
  }

  /** The database at the start: the first n files are applied. */
  function Init<S>(effect: (S, Migration) -> S, schema: S, files: seq<Migration>, n: nat): State<S>
    requires n <= |files|
  {
    State(seq(n, i requires 0 <= i < n => Record(files[i].version, i)), Fold(effect, schema, files, n), map[])
  }

  /** The insert of another transaction's uncommitted version blocks; that of a recorded one fails,
      which is a Fail event.  A runner may fail or crash at any point before its commit; its
      transaction is then rolled back. */
  predicate Enabled<S>(s: State<S>, e: Event, files: seq<Migration>) {
    var r := e.runner;
    if e.Start? then r !in s.runners
    else
      r in s.runners &&
      match e
      case Start(_) => true
      case Snapshot(_) => s.runners[r].Started?
      case Skip(_) => AtFile(s.runners[r], files) && files[s.runners[r].i].version in s.runners[r].applied
      case ExecSql(_) => AtFile(s.runners[r], files) && files[s.runners[r].i].version !in s.runners[r].applied
      case Insert(_) =>
        && s.runners[r].Executed? && s.runners[r].i < |files|
        && files[s.runners[r].i].version !in Recorded(s.done)
        && forall q :: q in s.runners ==> !Holds(s.runners[q], files[s.runners[r].i].version, files)
      case Commit(_, _) => s.runners[r].Inserted? && s.runners[r].i < |files|
      case Fail(_) => !s.runners[r].Succeeded? && !s.runners[r].Stopped?
      case Finish(_) => s.runners[r].Ready? && s.runners[r].i == |files|
  }

  predicate AtFile<S>(r: Runner<S>, files: seq<Migration>) {
    r.Ready? && r.i < |files|
  }

  /** The runner has inserted `version` and not committed yet. */
  predicate Holds<S>(r: Runner<S>, version: int, files: seq<Migration>) {
    r.Inserted? && r.i < |files| && files[r.i].version == version
  }

  function Step<S>(s: State<S>, e: Event, effect: (S, Migration) -> S, files: seq<Migration>): State<S>
    requires Enabled(s, e, files)
  {
    var r := e.runner;
    if e.Start? then s.(runners := s.runners[r := Started])
    else
      var at := s.runners[r];
      match e
      case Start(_) => s
      case Snapshot(_) => s.(runners := s.runners[r := Ready(Recorded(s.done), 0)])
      case Skip(_) => s.(runners := s.runners[r := Ready(at.applied, at.i + 1)])
      case ExecSql(_) =>
        s.(runners := s.runners[r := Executed(at.applied, at.i, |s.done|, effect(s.schema, files[at.i]))])
      case Insert(_) => s.(runners := s.runners[r := Inserted(at.applied, at.i, at.base, at.work)])
      case Commit(_, acknowledged) =>
        State(s.done + [Record(files[at.i].version, at.base)], at.work,
              s.runners[r := if acknowledged then Ready(at.applied, at.i + 1) else Stopped])
      case Fail(_) => s.(runners := s.runners[r := Stopped])
      case Finish(_) => s.(runners := s.runners[r := Succeeded])
  }

  /** The state after a run; None if some event of it was not enabled. */
  function Exec<S>(evs: seq<Event>, effect: (S, Migration) -> S, schema: S, files: seq<Migration>, n: nat): Option<State<S>>
    requires n <= |files|
  {
    if |evs| == 0 then Some(Init(effect, schema, files, n))
    else
      var before := Exec(evs[..|evs| - 1], effect, schema, files, n);
      if before.Some? && Enabled(before.value, evs[|evs| - 1], files)
      then Some(Step(before.value, evs[|evs| - 1], effect, files))
      else None
  }

  // The invariant.

  /** The records are the first files in order, each run on exactly the files before it. */
  ghost predicate Prefix(done: seq<Record>, files: seq<Migration>) {
    |done| <= |files| && forall i :: 0 <= i < |done| ==> done[i] == Record(files[i].version, i)
  }

  ghost predicate RunnerOk<S>(r: Runner<S>, s: State<S>, effect: (S, Migration) -> S, schema: S, files: seq<Migration>)
    requires Prefix(s.done, files)
  {
    match r
    case Ready(applied, i) => applied <= Recorded(s.done) && i <= |s.done|
    case Executed(applied, i, base, work) =>
      && applied <= Recorded(s.done) && i <= base <= |s.done| && i < |files|
      && work == effect(Fold(effect, schema, files, base), files[i])
    case Inserted(applied, i, base, work) =>
      && applied <= Recorded(s.done) && i == base == |s.done| < |files|
      && work == effect(Fold(effect, schema, files, base), files[i])
    case Succeeded => |s.done| == |files|
    case _ => true
  }

  ghost predicate Inv<S>(s: State<S>, effect: (S, Migration) -> S, schema: S, files: seq<Migration>) {
    && Prefix(s.done, files)
    && s.schema == Fold(effect, schema, files, |s.done|)
    && (forall r :: r in s.runners ==> RunnerOk(s.runners[r], s, effect, schema, files))
    && (forall r, q :: r in s.runners && q in s.runners && s.runners[r].Inserted? && s.runners[q].Inserted? ==> r == q)
  }

  /** A file is recorded if and only if it lies in the prefix. */
  lemma RecordedIff(done: seq<Record>, files: seq<Migration>, i: nat)
    requires Prefix(done, files) && Increasing(files) && i < |files|
    ensures files[i].version in Recorded(done) <==> i < |done|
  {
    if i < |done| {
      assert done[i].version == files[i].version;
    }
  }

  lemma RecordedGrows(done: seq<Record>, d: Record)
    ensures Recorded(done) <= Recorded(done + [d])
  {
    forall v | v in Recorded(done) ensures v in Recorded(done + [d]) {
      var i :| 0 <= i < |done| && done[i].version == v;
      assert (done + [d])[i].version == v;
    }
  }

  lemma CommitKeepsInv<S>(s: State<S>, e: Event, effect: (S, Migration) -> S, schema: S, files: seq<Migration>)
    requires Increasing(files) && Inv(s, effect, schema, files) && e.Commit? && Enabled(s, e, files)
    ensures Inv(Step(s, e, effect, files), effect, schema, files)
  {
    var s' := Step(s, e, effect, files);
    var at := s.runners[e.runner];
    assert RunnerOk(at, s, effect, schema, files);
    RecordedGrows(s.done, Record(files[at.i].version, at.base));
    forall r | r in s'.runners ensures RunnerOk(s'.runners[r], s', effect, schema, files) {
      if r != e.runner {
        assert RunnerOk(s.runners[r], s, effect, schema, files);
      }
    }
  }

  lemma InsertKeepsInv<S>(s: State<S>, e: Event, effect: (S, Migration) -> S, schema: S, files: seq<Migration>)
    requires Increasing(files) && Inv(s, effect, schema, files) && e.Insert? && Enabled(s, e, files)
    ensures Inv(Step(s, e, effect, files), effect, schema, files)
  {
    var s' := Step(s, e, effect, files);
    var i := s.runners[e.runner].i;
    assert RunnerOk(s.runners[e.runner], s, effect, schema, files);
    RecordedIff(s.done, files, i);
    forall q | q in s.runners ensures !s.runners[q].Inserted? {
      assert RunnerOk(s.runners[q], s, effect, schema, files);
      assert !Holds(s.runners[q], files[i].version, files);
    }
    forall r | r in s'.runners ensures RunnerOk(s'.runners[r], s', effect, schema, files) {
      if r != e.runner {
        assert RunnerOk(s.runners[r], s, effect, schema, files);
      }
    }
  }

  lemma StepKeepsInv<S>(s: State<S>, e: Event, effect: (S, Migration) -> S, schema: S, files: seq<Migration>)
    requires Increasing(files) && Inv(s, effect, schema, files) && Enabled(s, e, files)
    ensures Inv(Step(s, e, effect, files), effect, schema, files)
  {
    var s' := Step(s, e, effect, files);
    if e.Commit? {
      CommitKeepsInv(s, e, effect, schema, files);
    } else if e.Insert? {
      InsertKeepsInv(s, e, effect, schema, files);
    } else {
      if e.runner in s.runners {
        assert RunnerOk(s.runners[e.runner], s, effect, schema, files);
        if e.Skip? {
          RecordedIff(s.done, files, s.runners[e.runner].i);
        }
      }
      forall r | r in s'.runners ensures RunnerOk(s'.runners[r], s', effect, schema, files) {
        if r != e.runner {
          assert RunnerOk(s.runners[r], s, effect, schema, files);
        }
      }
    }
  }

  lemma {:induction false} InvRun<S>(evs: seq<Event>, effect: (S, Migration) -> S, schema: S, files: seq<Migration>, n: nat)
    requires Increasing(files) && n <= |files| && Exec(evs, effect, schema, files, n).Some?
    ensures Inv(Exec(evs, effect, schema, files, n).value, effect, schema, files)
    ensures |Exec(evs, effect, schema, files, n).value.done| >= n
  {
    if |evs| > 0 {
      InvRun(evs[..|evs| - 1], effect, schema, files, n);
      StepKeepsInv(Exec(evs[..|evs| - 1], effect, schema, files, n).value, evs[|evs| - 1], effect, schema, files);
    }
  }

  // Main results.

  /** Whatever number of runners do in whatever order, with failures, crashes and lost acknowledgements:
      the recorded versions are a prefix of the files, recorded in order and once each, the schema is the
      fold of exactly that prefix, and every committed migration ran on exactly the files before it. */
  lemma RecordedPrefix<S>(evs: seq<Event>, effect: (S, Migration) -> S, schema: S, files: seq<Migration>, n: nat)
    requires Increasing(files) && n <= |files| && Exec(evs, effect, schema, files, n).Some?
    ensures var s := Exec(evs, effect, schema, files, n).value;
            && n <= |s.done| <= |files|
            && (forall i :: 0 <= i < |s.done| ==> s.done[i].version == files[i].version && s.done[i].base == i)
            && (forall i, j :: 0 <= i < j < |s.done| ==> s.done[i].version != s.done[j].version)
            && s.schema == Fold(effect, schema, files, |s.done|)
  {
    InvRun(evs, effect, schema, files, n);
  }

  /** Only a commit changes the database, not a statement, a failure or a crash; it adds the version of the
      file its runner is at. */
  lemma OnlyCommitsChange<S>(evs: seq<Event>, e: Event, effect: (S, Migration) -> S, schema: S, files: seq<Migration>, n: nat)
    requires n <= |files| && Exec(evs + [e], effect, schema, files, n).Some?
    ensures Exec(evs, effect, schema, files, n).Some?
    ensures var s, s' := Exec(evs, effect, schema, files, n).value, Exec(evs + [e], effect, schema, files, n).value;
            if !e.Commit? then s'.done == s.done && s'.schema == s.schema
            else e.runner in s.runners && s.runners[e.runner].Inserted? && s.runners[e.runner].i < |files| &&
                 |s'.done| == |s.done| + 1 && s.done <= s'.done &&
                 s'.done[|s.done|].version == files[s.runners[e.runner].i].version
  {
    assert (evs + [e])[..|evs|] == evs;
  }

  /** As soon as one runner of the whole history has succeeded, schema and versions are those of one
      uninterrupted Run. */
  lemma CrashResume<S>(evs: seq<Event>, effect: (S, Migration) -> S, schema: S, files: seq<Migration>, n: nat,
                       r: nat, faults: nat -> Fault)
    requires Increasing(files) && n <= |files| && Exec(evs, effect, schema, files, n).Some?
    requires forall k :: 0 <= k < |files| ==> faults(k) == Fine
    requires var s := Exec(evs, effect, schema, files, n).value; r in s.runners && s.runners[r].Succeeded?
    ensures var s := Exec(evs, effect, schema, files, n).value;
            var start := Db(VersionsOf(files[..n]), Fold(effect, schema, files, n));
            RunFrom(effect, start, start.versions, files, 0, faults) == (Db(Recorded(s.done), s.schema), true)
  {
    InvRun(evs, effect, schema, files, n);
    var s := Exec(evs, effect, schema, files, n).value;
    assert RunnerOk(s.runners[r], s, effect, schema, files);
    UninterruptedRun(effect, schema, files, n, faults);
    assert Recorded(s.done) == VersionsOf(files) by {
      assert forall i :: 0 <= i < |files| ==> s.done[i].version == files[i].version;
    }
  }

  /** Once everything is recorded no runner changes the database, not even one that is in the middle of a
      transaction. */
  lemma {:induction false} CompleteIsFinal<S>(evs: seq<Event>, k: nat, effect: (S, Migration) -> S, schema: S,
                                              files: seq<Migration>, n: nat)
    requires Increasing(files) && n <= |files| && k <= |evs| && Exec(evs, effect, schema, files, n).Some?
    requires Exec(evs[..k], effect, schema, files, n).Some?
    requires |Exec(evs[..k], effect, schema, files, n).value.done| == |files|
    ensures var s, s' := Exec(evs[..k], effect, schema, files, n).value, Exec(evs, effect, schema, files, n).value;
            s'.done == s.done && s'.schema == s.schema
  {
    if k == |evs| {
      assert evs[..k] == evs;
    } else {
      var before, e := evs[..|evs| - 1], evs[|evs| - 1];
      assert before[..k] == evs[..k];
      CompleteIsFinal(before, k, effect, schema, files, n);
      InvRun(before, effect, schema, files, n);
      var s := Exec(before, effect, schema, files, n).value;
      assert e.runner in s.runners ==> RunnerOk(s.runners[e.runner], s, effect, schema, files);
    }
  }

  // A runner that nothing interrupts.

  function Value<S>(s: State<S>): Db<S> {
    Db(Recorded(s.done), s.schema)
  }

  /** No other transaction is open that an insert would have to wait for. */
  ghost predicate Alone<S>(s: State<S>, r: nat) {
    forall q :: q in s.runners && q != r ==> !s.runners[q].Inserted?
  }

  /** s' is s but for the database and runner r. */
  ghost predicate OnlyMoved<S>(s: State<S>, s': State<S>, r: nat, to: Runner<S>) {
    s'.runners == s.runners[r := to]
  }

  lemma Extend<S>(evs: seq<Event>, s: State<S>, e: Event, effect: (S, Migration) -> S, schema: S, files: seq<Migration>, n: nat)
    returns (evs': seq<Event>)
    requires n <= |files| && Exec(evs, effect, schema, files, n) == Some(s) && Enabled(s, e, files)
    ensures evs' == evs + [e] && Exec(evs', effect, schema, files, n) == Some(Step(s, e, effect, files))
  {
    evs' := evs + [e];
    assert evs'[..|evs|] == evs;
  }

  lemma RecordedSnoc(done: seq<Record>, d: Record)
    ensures Recorded(done + [d]) == Recorded(done) + {d.version}
  {
    RecordedGrows(done, d);
    assert (done + [d])[|done|].version == d.version;
    forall v | v in Recorded(done + [d]) ensures v in Recorded(done) + {d.version} {
      var i :| 0 <= i < |done + [d]| && (done + [d])[i].version == v;
      assert i < |done| ==> done[i].version == v;
    }
  }

  /** The SQL and the insert of a file. */
  lemma ExecAndInsert<S>(evs: seq<Event>, s: State<S>, r: nat, effect: (S, Migration) -> S, schema: S,
                         files: seq<Migration>, n: nat)
    returns (evs': seq<Event>, s': State<S>)
    requires n <= |files| && Exec(evs, effect, schema, files, n) == Some(s) && Alone(s, r)
    requires r in s.runners && AtFile(s.runners[r], files)
    requires var m := files[s.runners[r].i]; m.version !in s.runners[r].applied && m.version !in Recorded(s.done)
    ensures Exec(evs', effect, schema, files, n) == Some(s') && s'.done == s.done && s'.schema == s.schema
    ensures var at := s.runners[r];
            OnlyMoved(s, s', r, Inserted(at.applied, at.i, |s.done|, effect(s.schema, files[at.i])))
  {
    var at := s.runners[r];
    evs' := Extend(evs, s, ExecSql(r), effect, schema, files, n);
    s' := Step(s, ExecSql(r), effect, files);
    assert s'.runners[r] == Executed(at.applied, at.i, |s.done|, effect(s.schema, files[at.i]));
    evs' := Extend(evs', s', Insert(r), effect, schema, files, n);
    s' := Step(s', Insert(r), effect, files);
  }

  /** One call of applyOne. */
  lemma ApplyIsRun<S>(evs: seq<Event>, s: State<S>, r: nat, fault: Fault, effect: (S, Migration) -> S, schema: S,
                      files: seq<Migration>, n: nat)
    returns (evs': seq<Event>, s': State<S>)
    requires n <= |files| && Exec(evs, effect, schema, files, n) == Some(s) && Alone(s, r)
    requires r in s.runners && AtFile(s.runners[r], files) && files[s.runners[r].i].version !in s.runners[r].applied
    ensures Exec(evs', effect, schema, files, n) == Some(s')
    ensures var at := s.runners[r];
            var (db', ok) := ApplyOne(effect, Value(s), files[at.i], fault);
            Value(s') == db' && OnlyMoved(s, s', r, if ok then Ready(at.applied, at.i + 1) else Stopped)
  {
    var at := s.runners[r];
    var m := files[at.i];
    if fault.Fails? || m.version in Recorded(s.done) {
      evs' := Extend(evs, s, Fail(r), effect, schema, files, n);
      s' := Step(s, Fail(r), effect, files);
    } else {
      var evs1, s1 := ExecAndInsert(evs, s, r, effect, schema, files, n);
      evs' := Extend(evs1, s1, Commit(r, fault.Fine?), effect, schema, files, n);
      s' := Step(s1, Commit(r, fault.Fine?), effect, files);
      RecordedSnoc(s.done, Record(m.version, |s.done|));
    }
  }

  lemma {:induction false} LoopIsRun<S>(evs: seq<Event>, s: State<S>, r: nat, i: nat, applied: set<int>, faults: nat -> Fault,
                                        effect: (S, Migration) -> S, schema: S, files: seq<Migration>, n: nat)
    returns (evs': seq<Event>, s': State<S>)
    requires n <= |files| && Exec(evs, effect, schema, files, n) == Some(s) && Alone(s, r)
    requires i <= |files| && r in s.runners && s.runners[r] == Ready(applied, i)
    ensures Exec(evs', effect, schema, files, n) == Some(s')
    ensures var (db', ok) := RunFrom(effect, Value(s), applied, files, i, faults);
            Value(s') == db' && OnlyMoved(s, s', r, if ok then Succeeded else Stopped)
    decreases |files| - i
  {
    if i == |files| {
      evs' := Extend(evs, s, Finish(r), effect, schema, files, n);
      s' := Step(s, Finish(r), effect, files);
    } else if files[i].version in applied {
      evs' := Extend(evs, s, Skip(r), effect, schema, files, n);
      evs', s' := LoopIsRun(evs', Step(s, Skip(r), effect, files), r, i + 1, applied, faults, effect, schema, files, n);
    } else {
      evs', s' := ApplyIsRun(evs, s, r, faults(i), effect, schema, files, n);
      if s'.runners[r] == Ready(applied, i + 1) {
        evs', s' := LoopIsRun(evs', s', r, i + 1, applied, faults, effect, schema, files, n);
      }
    }
  }

  /** From any state without another transaction to wait for, a Run with any faults that nothing interrupts
      is a run of a new runner: it leaves the same database, and the runner succeeds if the Run does. */
  lemma RunIsRun<S>(evs: seq<Event>, s: State<S>, r: nat, faults: nat -> Fault, effect: (S, Migration) -> S, schema: S,
                    files: seq<Migration>, n: nat)
    returns (evs': seq<Event>, s': State<S>)
    requires n <= |files| && Exec(evs, effect, schema, files, n) == Some(s) && Alone(s, r) && r !in s.runners
    ensures Exec(evs', effect, schema, files, n) == Some(s')
    ensures var (db', ok) := RunFrom(effect, Value(s), Recorded(s.done), files, 0, faults);
            Value(s') == db' && OnlyMoved(s, s', r, if ok then Succeeded else Stopped)
  {
    evs' := Extend(evs, s, Start(r), effect, schema, files, n);
    s' := Step(s, Start(r), effect, files);
    evs' := Extend(evs', s', Snapshot(r), effect, schema, files, n);
    s' := Step(s', Snapshot(r), effect, files);
    evs', s' := LoopIsRun(evs', s', r, 0, Recorded(s.done), faults, effect, schema, files, n);
  }
}
