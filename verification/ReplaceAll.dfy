/**
 The list tables of internal/repository/repository.go: a PUT deletes all rows and inserts the new list,
 numbered, in one transaction; a GET selects the rows ordered by that number.

 A row carries the PUT that wrote it (the seed is PUT 0); the program does not store that.
 */
module ListTables {
  import opened Common

  datatype Row<T> = Row(owner: nat, pos: nat, item: T)

  /** The rows PUT `owner` writes for a list, in the order in which it writes them. */
  function Numbered<T>(owner: nat, list: seq<T>): seq<Row<T>> {
    seq(|list|, i requires 0 <= i < |list| => Row(owner, i, list[i]))
  }

  function RowsOf<T(==)>(owner: nat, list: seq<T>): set<Row<T>> {
    set r | r in Numbered(owner, list)
  }

  // Reading a table.

  /** The rows of a table in an order that ORDER BY sort_order may yield: ties come in any order. */
  ghost predicate OrderedRead<T(!new)>(out: seq<Row<T>>, rows: set<Row<T>>) {
    && (forall r :: r in out <==> r in rows)
    && (forall i, j :: 0 <= i < j < |out| ==> out[i] != out[j] && out[i].pos <= out[j].pos)
  }

  function ItemsOf<T>(out: seq<Row<T>>, owner: nat): seq<T> {
    if |out| == 0 then []
    else
      var r, before := out[|out| - 1], ItemsOf(out[..|out| - 1], owner);
      if r.owner == owner then before + [r.item] else before
  }

  /** What a Get* function returns: the loop over the rows. */
  method Items<T>(rows: seq<Row<T>>) returns (out: seq<T>)
    ensures |out| == |rows| && forall i :: 0 <= i < |rows| ==> out[i] == rows[i].item
  {
    out := [];
    for i := 0 to |rows|
      invariant |out| == i && forall k :: 0 <= k < i ==> out[k] == rows[k].item
    {
      out := out + [rows[i].item];
    }
  }

  /** The first m rows of the list are those among the first k rows read. */
  ghost predicate ReadSoFar<T(!new)>(out: seq<Row<T>>, k: nat, owner: nat, list: seq<T>, m: nat)
    requires k <= |out|
  {
    && m <= |list| && ItemsOf(out[..k], owner) == list[..m]
    && forall r :: r in RowsOf(owner, list) ==> (r.pos < m <==> r in out[..k])
  }

  lemma RowIsWritten<T>(owner: nat, list: seq<T>, i: nat)
    requires i < |list|
    ensures Row(owner, i, list[i]) in RowsOf(owner, list)
  {
    assert Numbered(owner, list)[i] == Row(owner, i, list[i]);
  }

  /** A row not among the first k read has a number no smaller than the next. */
  lemma ComesLater<T(!new)>(out: seq<Row<T>>, rows: set<Row<T>>, k: nat, r: Row<T>)
    requires OrderedRead(out, rows) && k < |out| && r in rows && r !in out[..k]
    ensures out[k].pos <= r.pos
  {
    var j :| 0 <= j < |out| && out[j] == r;
    forall i | 0 <= i < k ensures out[i] in out[..k] {
      assert out[..k][i] == out[i];
    }
  }

  /** The next row of the list to be read is the one with the next number. */
  lemma NextRow<T(!new)>(out: seq<Row<T>>, rows: set<Row<T>>, k: nat, owner: nat, list: seq<T>, m: nat)
    requires OrderedRead(out, rows) && RowsOf(owner, list) <= rows && k < |out|
    requires out[k] in RowsOf(owner, list) && ReadSoFar(out, k, owner, list, m)
    ensures out[k].pos == m
  {
    assert out[k] !in out[..k];
    if m < out[k].pos {
      RowIsWritten(owner, list, m);
      ComesLater(out, rows, k, Row(owner, m, list[m]));
    }
  }

  lemma {:induction false} ReadPrefix<T(!new)>(out: seq<Row<T>>, rows: set<Row<T>>, k: nat, owner: nat, list: seq<T>)
    returns (m: nat)
    requires OrderedRead(out, rows) && RowsOf(owner, list) <= rows && k <= |out|
    requires forall r :: r in rows && r.owner == owner ==> r in RowsOf(owner, list)
    ensures ReadSoFar(out, k, owner, list, m)
  {
    if k == 0 {
      m := 0;
    } else {
      m := ReadPrefix(out, rows, k - 1, owner, list);
      assert out[..k][..k - 1] == out[..k - 1];
      assert out[..k] == out[..k - 1] + [out[k - 1]];
      if out[k - 1].owner == owner {
        NextRow(out, rows, k - 1, owner, list, m);
        m := m + 1;
      }
    }
  }

  /** Whatever the physical order of the rows, a complete list in the table is read back in its own
      order, even when the table holds other lists too. */
  lemma ReadBack<T(!new)>(out: seq<Row<T>>, rows: set<Row<T>>, owner: nat, list: seq<T>)
    requires OrderedRead(out, rows) && RowsOf(owner, list) <= rows
    requires forall r :: r in rows && r.owner == owner ==> r in RowsOf(owner, list)
    ensures ItemsOf(out, owner) == list
  {
    var m := ReadPrefix(out, rows, |out|, owner, list);
    assert out[..|out|] == out;
    if m < |list| {
      RowIsWritten(owner, list, m);
    }
  }

  /** When the list is all there is, what is read is the list. */
  lemma {:induction false} AllItems<T>(out: seq<Row<T>>, owner: nat)
    requires forall r :: r in out ==> r.owner == owner
    ensures |ItemsOf(out, owner)| == |out| && forall i :: 0 <= i < |out| ==> ItemsOf(out, owner)[i] == out[i].item
  {
    if |out| > 0 {
      AllItems(out[..|out| - 1], owner);
    }
  }

  lemma RoundTrip<T(!new)>(out: seq<Row<T>>, owner: nat, list: seq<T>)
    requires OrderedRead(out, RowsOf(owner, list))
    ensures |out| == |list| && forall i :: 0 <= i < |out| ==> out[i].item == list[i]
  {
    ReadBack(out, RowsOf(owner, list), owner, list);
    AllItems(out, owner);
  }

  // Concurrent PUTs.

  /** A transaction that replaces the list: at READ COMMITTED its DELETE removes the rows committed when
      that statement started, `removed`; `seen` PUTs had committed by then. */
  datatype Put<T(==)> =
    | Begun
    | Working(removed: set<Row<T>>, inserted: set<Row<T>>, next: nat, seen: nat)
    | Aborted
    | Finished

  datatype State<T(==)> = State(committed: set<Row<T>>, lists: seq<seq<T>>, puts: map<nat, Put<T>>, log: seq<nat>)

  datatype Event<T> =
    | Begin(list: seq<T>)
    | Delete(put: nat)
    | InsertNext(put: nat)
    | FailStatement(put: nat)
    | Commit(put: nat)
    | Rollback(put: nat)

  function Init<T(==)>(seed: seq<T>): State<T> {
    State(RowsOf(0, seed), [seed], map[], [0])
  }

  predicate Enabled<T(==)>(s: State<T>, e: Event<T>) {
    match e
    case Begin(_) => true
    case Delete(p) => p in s.puts && s.puts[p].Begun?
    case InsertNext(p) => p in s.puts && p < |s.lists| && s.puts[p].Working? && s.puts[p].next < |s.lists[p]|
    case FailStatement(p) => p in s.puts && (s.puts[p].Begun? || s.puts[p].Working?)
    case Commit(p) => p in s.puts && p < |s.lists| && s.puts[p].Working? && s.puts[p].next == |s.lists[p]|
    case Rollback(p) => p in s.puts && !s.puts[p].Finished?
  }

  /** The commit of an aborted transaction is an error and changes nothing: it is a Rollback here. */
  function Step<T(==)>(s: State<T>, e: Event<T>): State<T>
    requires Enabled(s, e)
  {
    match e
    case Begin(list) => s.(lists := s.lists + [list], puts := s.puts[|s.lists| := Begun])
    case Delete(p) => s.(puts := s.puts[p := Working(s.committed, {}, 0, |s.log|)])
    case InsertNext(p) =>
      var w := s.puts[p];
      s.(puts := s.puts[p := w.(inserted := w.inserted + {Row(p, w.next, s.lists[p][w.next])}, next := w.next + 1)])
    case FailStatement(p) => s.(puts := s.puts[p := Aborted])
    case Commit(p) =>
      var w := s.puts[p];
      s.(committed := s.committed - w.removed + w.inserted, puts := s.puts[p := Finished], log := s.log + [p])
    case Rollback(p) => s.(puts := s.puts[p := Finished])
  }

  /** The state after a run; None if some event of it was not enabled. */
  function Exec<T(==)>(seed: seq<T>, evs: seq<Event<T>>): Option<State<T>> {
    if |evs| == 0 then Some(Init(seed))
    else
      var before := Exec(seed, evs[..|evs| - 1]);
      if before.Some? && Enabled(before.value, evs[|evs| - 1])
      then Some(Step(before.value, evs[|evs| - 1]))
      else None
  }

  /** A disjoint union of complete lists, each that of a PUT of the log. */
  ghost predicate WholeLists<T(!new)>(rows: set<Row<T>>, lists: seq<seq<T>>, log: seq<nat>) {
    forall r :: r in rows ==>
      && r.owner < |lists| && r.owner in log
      && r in RowsOf(r.owner, lists[r.owner]) && RowsOf(r.owner, lists[r.owner]) <= rows
  }

  /** The rows committed since the DELETE are those of the PUTs that committed since. */
  ghost predicate PutOk<T(!new)>(p: nat, put: Put<T>, s: State<T>) {
    && p < |s.lists| && p > 0
    && (put.Working? ==>
          && put.next <= |s.lists[p]| && put.inserted == RowsOf(p, s.lists[p][..put.next])
          && put.seen <= |s.log|
          && WholeLists(put.removed, s.lists, s.log[..put.seen])
          && forall r :: r in s.committed ==> r in put.removed || r.owner in s.log[put.seen..])
    && (!put.Finished? ==> p !in s.log)
  }

  ghost predicate Inv<T(!new)>(s: State<T>) {
    && WholeLists(s.committed, s.lists, s.log)
    && (forall i :: 0 <= i < |s.log| ==> s.log[i] < |s.lists|)
    && (forall i, j :: 0 <= i < j < |s.log| ==> s.log[i] != s.log[j])
    && forall p :: p in s.puts ==> PutOk(p, s.puts[p], s)
  }

  lemma WholeListsGrow<T(!new)>(rows: set<Row<T>>, lists: seq<seq<T>>, log: seq<nat>, lists': seq<seq<T>>, log': seq<nat>)
    requires WholeLists(rows, lists, log) && lists <= lists' && forall p :: p in log ==> p in log'
    ensures WholeLists(rows, lists', log')
  {
  }

  /** Taking complete lists from complete lists leaves complete lists. */
  lemma WholeListsMinus<T(!new)>(rows: set<Row<T>>, removed: set<Row<T>>, lists: seq<seq<T>>, log: seq<nat>, log0: seq<nat>)
    requires WholeLists(rows, lists, log) && WholeLists(removed, lists, log0)
    ensures WholeLists(rows - removed, lists, log)
  {
    forall x | x in removed ensures RowsOf(x.owner, lists[x.owner]) <= removed {
    }
    forall r, x | r in rows - removed && x in RowsOf(r.owner, lists[r.owner]) ensures x in rows - removed {
      assert x.owner == r.owner && x in rows;
    }
  }

  lemma WholeListsPlus<T(!new)>(rows: set<Row<T>>, p: nat, lists: seq<seq<T>>, log: seq<nat>)
    requires WholeLists(rows, lists, log) && p < |lists|
    ensures WholeLists(rows + RowsOf(p, lists[p]), lists, log + [p])
  {
  }

  /** After the commit of PUT p. */
  lemma CommittedRows<T(!new)>(s: State<T>, p: nat)
    requires Inv(s) && Enabled(s, Commit(p))
    ensures Step(s, Commit(p)).committed == s.committed - s.puts[p].removed + RowsOf(p, s.lists[p])
    ensures WholeLists(Step(s, Commit(p)).committed, s.lists, s.log + [p])
  {
    var w := s.puts[p];
    assert PutOk(p, w, s);
    assert s.lists[p][..w.next] == s.lists[p];
    WholeListsMinus(s.committed, w.removed, s.lists, s.log, s.log[..w.seen]);
    WholeListsPlus(s.committed - w.removed, p, s.lists, s.log);
  }

  lemma CommitKeepsPut<T(!new)>(s: State<T>, p: nat, q: nat)
    requires Inv(s) && Enabled(s, Commit(p)) && q in s.puts && q != p
    ensures PutOk(q, s.puts[q], Step(s, Commit(p)))
  {
    var s', put := Step(s, Commit(p)), s.puts[q];
    CommittedRows(s, p);
    assert PutOk(q, put, s);
    if put.Working? {
      assert s'.log[..put.seen] == s.log[..put.seen];
      assert s'.log[put.seen..] == s.log[put.seen..] + [p];
    }
  }

  lemma CommitKeepsInv<T(!new)>(s: State<T>, p: nat)
    requires Inv(s) && Enabled(s, Commit(p))
    ensures Inv(Step(s, Commit(p)))
  {
    var s' := Step(s, Commit(p));
    CommittedRows(s, p);
    assert PutOk(p, s.puts[p], s);
    forall q | q in s'.puts ensures PutOk(q, s'.puts[q], s') {
      if q != p {
        CommitKeepsPut(s, p, q);
      }
    }
  }

  lemma BeginKeepsInv<T(!new)>(s: State<T>, list: seq<T>)
    requires Inv(s) && |s.lists| > 0
    ensures Inv(Step(s, Begin(list)))
  {
    var s' := Step(s, Begin(list));
    WholeListsGrow(s.committed, s.lists, s.log, s'.lists, s.log);
    forall q | q in s'.puts ensures PutOk(q, s'.puts[q], s') {
      if q != |s.lists| {
        var put := s.puts[q];
        assert PutOk(q, put, s);
        if put.Working? {
          WholeListsGrow(put.removed, s.lists, s.log[..put.seen], s'.lists, s.log[..put.seen]);
        }
      }
    }
  }

  lemma StatementKeepsInv<T(!new)>(s: State<T>, e: Event<T>)
    requires Inv(s) && Enabled(s, e) && !e.Begin? && !e.Commit?
    ensures Inv(Step(s, e))
  {
    var s' := Step(s, e);
    assert s.log[..|s.log|] == s.log;
    forall q | q in s'.puts ensures PutOk(q, s'.puts[q], s') {
      assert PutOk(q, s.puts[q], s);
      if e.InsertNext? && q == e.put {
        InsertedNext(q, s.lists[q], s.puts[q].next);
      }
    }
  }

  lemma InsertedNext<T>(p: nat, list: seq<T>, k: nat)
    requires k < |list|
    ensures RowsOf(p, list[..k]) + {Row(p, k, list[k])} == RowsOf(p, list[..k + 1])
  {
    assert Numbered(p, list[..k + 1]) == Numbered(p, list[..k]) + [Row(p, k, list[k])];
  }

  lemma {:induction false} InvRun<T(!new)>(seed: seq<T>, evs: seq<Event<T>>)
    requires Exec(seed, evs).Some?
    ensures Inv(Exec(seed, evs).value) && |Exec(seed, evs).value.lists| > 0
  {
    if |evs| > 0 {
      InvRun(seed, evs[..|evs| - 1]);
      var s, e := Exec(seed, evs[..|evs| - 1]).value, evs[|evs| - 1];
      match e
      case Begin(list) => BeginKeepsInv(s, list);
      case Commit(p) => CommitKeepsInv(s, p);
      case _ => StatementKeepsInv(s, e);
    }
  }

  // Main results.

  /** Over every interleaving of PUTs the table is a disjoint union of complete lists, each that of a
      committed PUT or the seed; so a read, in whatever order ties come, holds every list of which it
      holds a row, complete and in its order. */
  lemma NoHalfReplacedList<T(!new)>(seed: seq<T>, evs: seq<Event<T>>, out: seq<Row<T>>)
    requires Exec(seed, evs).Some? && OrderedRead(out, Exec(seed, evs).value.committed)
    ensures var s := Exec(seed, evs).value;
            && WholeLists(s.committed, s.lists, s.log)
            && forall r :: r in out ==> r.owner < |s.lists| && ItemsOf(out, r.owner) == s.lists[r.owner]
  {
    InvRun(seed, evs);
    var s := Exec(seed, evs).value;
    forall r | r in out ensures r.owner < |s.lists| && ItemsOf(out, r.owner) == s.lists[r.owner] {
      assert r in s.committed;
      ReadBack(out, s.committed, r.owner, s.lists[r.owner]);
    }
  }

  /** PUT q committed after the DELETE of p. */
  predicate Overlaps<T(==)>(s: State<T>, p: nat, q: nat)
    requires p in s.puts && s.puts[p].Working? && s.puts[p].seen <= |s.log|
  {
    q in s.log[s.puts[p].seen..]
  }

  lemma NotRemoved<T(!new)>(s: State<T>, p: nat, r: Row<T>)
    requires Inv(s) && Enabled(s, Commit(p)) && r in s.committed && s.puts[p].seen <= |s.log|
    ensures r in s.puts[p].removed <==> !Overlaps(s, p, r.owner)
  {
    var w := s.puts[p];
    assert PutOk(p, w, s);
    if r in w.removed {
      var i :| 0 <= i < |s.log[..w.seen]| && s.log[..w.seen][i] == r.owner;
      forall j | w.seen <= j < |s.log| ensures s.log[j] != r.owner {
        assert s.log[i] != s.log[j];
      }
    }
  }

  /** A commit leaves exactly its own list if and only if no list of a PUT that committed since its
      DELETE has rows in the table; in particular when PUTs do not overlap. */
  lemma ExactlyOwnListIff<T(!new)>(seed: seq<T>, evs: seq<Event<T>>, p: nat)
    requires Exec(seed, evs).Some? && Enabled(Exec(seed, evs).value, Commit(p))
    ensures var s := Exec(seed, evs).value;
            && s.puts[p].seen <= |s.log|
            && (Step(s, Commit(p)).committed == RowsOf(p, s.lists[p]) <==>
                forall r :: r in s.committed ==> !Overlaps(s, p, r.owner))
            && (s.puts[p].seen == |s.log| ==> Step(s, Commit(p)).committed == RowsOf(p, s.lists[p]))
  {
    InvRun(seed, evs);
    var s := Exec(seed, evs).value;
    assert PutOk(p, s.puts[p], s);
    CommittedRows(s, p);
    forall r | r in s.committed ensures r in s.puts[p].removed <==> !Overlaps(s, p, r.owner) {
      NotRemoved(s, p, r);
    }
    forall r | r in s.committed ensures r !in RowsOf(p, s.lists[p]) {
      assert r.owner in s.log;
    }
    var kept := s.committed - s.puts[p].removed;
    assert kept + RowsOf(p, s.lists[p]) == RowsOf(p, s.lists[p]) <==> kept == {} by {
      assert kept * RowsOf(p, s.lists[p]) == {};
      if kept + RowsOf(p, s.lists[p]) == RowsOf(p, s.lists[p]) {
        assert kept <= RowsOf(p, s.lists[p]);
      }
    }
  }

  lemma Extend<T(!new)>(seed: seq<T>, evs: seq<Event<T>>, s: State<T>, e: Event<T>) returns (evs': seq<Event<T>>, s': State<T>)
    requires Exec(seed, evs) == Some(s) && Enabled(s, e)
    ensures evs' == evs + [e] && s' == Step(s, e) && Exec(seed, evs') == Some(s')
  {
    evs', s' := evs + [e], Step(s, e);
    assert evs'[..|evs|] == evs;
  }

  // What a run does to the rows, told by its events.

  ghost function RowsAfter<T(!new)>(seed: seq<T>, evs: seq<Event<T>>): set<Row<T>>
    requires Exec(seed, evs).Some?
  {
    Exec(seed, evs).value.committed
  }

  /** Event k is the DELETE of PUT p, and s was reached after it: p removes the rows committed then. */
  ghost predicate DeletedAt<T(!new)>(seed: seq<T>, evs: seq<Event<T>>, k: nat, s: State<T>, p: nat) {
    && k < |evs| && evs[k] == Delete(p) && Exec(seed, evs[..k]).Some?
    && p in s.puts && s.puts[p].Working? && s.puts[p].removed == RowsAfter(seed, evs[..k])
  }

  lemma {:induction false} DeleteOf<T(!new)>(seed: seq<T>, evs: seq<Event<T>>, p: nat) returns (k: nat)
    requires Exec(seed, evs).Some? && p in Exec(seed, evs).value.puts && Exec(seed, evs).value.puts[p].Working?
    ensures DeletedAt(seed, evs, k, Exec(seed, evs).value, p)
  {
    var before, e := evs[..|evs| - 1], evs[|evs| - 1];
    if e == Delete(p) {
      k := |evs| - 1;
    } else {
      k := DeleteOf(seed, before, p);
      assert before[..k] == evs[..k];
    }
  }

  /** Only a commit changes the table: not a statement, its failure or a rollback. */
  lemma OnlyCommitsChange<T(!new)>(seed: seq<T>, evs: seq<Event<T>>, e: Event<T>)
    requires Exec(seed, evs + [e]).Some? && !e.Commit?
    ensures Exec(seed, evs).Some? && RowsAfter(seed, evs + [e]) == RowsAfter(seed, evs)
  {
    assert (evs + [e])[..|evs|] == evs;
  }

  /** A commit takes the rows that were committed when its own DELETE was executed, no others, and adds its
      complete list. */
  lemma CommitReplaces<T(!new)>(seed: seq<T>, evs: seq<Event<T>>, p: nat) returns (k: nat)
    requires Exec(seed, evs + [Commit(p)]).Some?
    ensures k < |evs| && evs[k] == Delete(p) && Exec(seed, evs[..k]).Some? && Exec(seed, evs).Some?
    ensures p < |Exec(seed, evs).value.lists|
    ensures RowsAfter(seed, evs + [Commit(p)])
         == RowsAfter(seed, evs) - RowsAfter(seed, evs[..k]) + RowsOf(p, Exec(seed, evs).value.lists[p])
  {
    assert (evs + [Commit(p)])[..|evs|] == evs;
    k := DeleteOf(seed, evs, p);
    InvRun(seed, evs);
    CommittedRows(Exec(seed, evs).value, p);
  }

  /** A row leaves the table only by the commit of a PUT whose DELETE came when it was already there. */
  lemma LeavesByLaterDelete<T(!new)>(seed: seq<T>, evs: seq<Event<T>>, e: Event<T>, r: Row<T>) returns (k: nat)
    requires Exec(seed, evs).Some? && Exec(seed, evs + [e]).Some?
    requires r in RowsAfter(seed, evs) && r !in RowsAfter(seed, evs + [e])
    ensures e.Commit? && k < |evs| && evs[k] == Delete(e.put)
    ensures Exec(seed, evs[..k]).Some? && r in RowsAfter(seed, evs[..k])
  {
    if !e.Commit? {
      OnlyCommitsChange(seed, evs, e);
    }
    k := CommitReplaces(seed, evs, e.put);
  }

  /** The PUT that committed last, 0 for the seed. */
  function LastCommitted<T>(evs: seq<Event<T>>): nat {
    if |evs| == 0 then 0
    else if evs[|evs| - 1].Commit? then evs[|evs| - 1].put
    else LastCommitted(evs[..|evs| - 1])
  }

  /** The list committed last is always in the table, complete; whatever is aborted, nothing is lost. */
  lemma {:induction false} LastListIsThere<T(!new)>(seed: seq<T>, evs: seq<Event<T>>)
    requires Exec(seed, evs).Some?
    ensures LastCommitted(evs) < |Exec(seed, evs).value.lists|
    ensures RowsOf(LastCommitted(evs), Exec(seed, evs).value.lists[LastCommitted(evs)]) <= RowsAfter(seed, evs)
  {
    if |evs| > 0 {
      var before, e := evs[..|evs| - 1], evs[|evs| - 1];
      assert before + [e] == evs;
      LastListIsThere(seed, before);
      if e.Commit? {
        var k := CommitReplaces(seed, before, e.put);
      } else {
        OnlyCommitsChange(seed, before, e);
      }
    }
  }

  /** The list of a PUT is the one it began with. */
  lemma {:induction false} ListsStay<T(!new)>(seed: seq<T>, evs: seq<Event<T>>, k: nat)
    requires Exec(seed, evs).Some? && k <= |evs|
    ensures Exec(seed, evs[..k]).Some? && Exec(seed, evs[..k]).value.lists <= Exec(seed, evs).value.lists
    ensures k < |evs| && evs[k].Begin? ==>
              var p := |Exec(seed, evs[..k]).value.lists|;
              p < |Exec(seed, evs).value.lists| && Exec(seed, evs).value.lists[p] == evs[k].list
  {
    if k == |evs| {
      assert evs[..k] == evs;
    } else if k == |evs| - 1 {
      assert evs[..k] == evs[..|evs| - 1];
    } else {
      var before := evs[..|evs| - 1];
      ListsStay(seed, before, k);
      assert before[..k] == evs[..k] && before[k] == evs[k];
    }
  }

  // One PUT that nothing interrupts.

  function Inserts<T>(p: nat, n: nat): seq<Event<T>> {
    if n == 0 then [] else Inserts(p, n - 1) + [InsertNext(p)]
  }

  /** PUT p, which began with s, has written k rows. */
  function Written<T(==)>(s: State<T>, p: nat, k: nat): State<T>
    requires p < |s.lists| && k <= |s.lists[p]|
  {
    s.(puts := s.puts[p := Working(s.committed, RowsOf(p, s.lists[p][..k]), k, |s.log|)])
  }

  lemma WriteNext<T(!new)>(s: State<T>, p: nat, k: nat)
    requires p < |s.lists| && k < |s.lists[p]|
    ensures Enabled(Written(s, p, k), InsertNext(p))
    ensures Step(Written(s, p, k), InsertNext(p)) == Written(s, p, k + 1)
  {
    InsertedNext(p, s.lists[p], k);
  }

  lemma InsertsSnoc<T>(evs: seq<Event<T>>, evs1: seq<Event<T>>, evs': seq<Event<T>>, p: nat, n: nat)
    requires n > 0 && evs1 == evs + Inserts(p, n - 1) && evs' == evs1 + [InsertNext(p)]
    ensures evs' == evs + Inserts(p, n)
  {
  }

  lemma {:induction false} InsertMany<T(!new)>(seed: seq<T>, evs: seq<Event<T>>, s: State<T>, p: nat, k: nat)
    returns (evs': seq<Event<T>>)
    requires p < |s.lists| && k <= |s.lists[p]| && Exec(seed, evs) == Some(Written(s, p, 0))
    ensures evs' == evs + Inserts(p, k) && Exec(seed, evs') == Some(Written(s, p, k))
  {
    evs' := evs;
    if k > 0 {
      var evs1 := InsertMany(seed, evs, s, p, k - 1);
      WriteNext(s, p, k - 1);
      var s';
      evs', s' := Extend(seed, evs1, Written(s, p, k - 1), InsertNext(p));
      InsertsSnoc(evs, evs1, evs', p, k);
    }
  }

  /** From any state of the table, with whatever other PUTs open, a PUT that nothing interrupts leaves
      exactly its list. */
  lemma LonePut<T(!new)>(seed: seq<T>, evs: seq<Event<T>>, s: State<T>, list: seq<T>)
    returns (evs': seq<Event<T>>, s': State<T>)
    requires Exec(seed, evs) == Some(s)
    ensures evs' == evs + [Begin(list), Delete(|s.lists|)] + Inserts(|s.lists|, |list|) + [Commit(|s.lists|)]
    ensures Exec(seed, evs') == Some(s') && s'.committed == RowsOf(|s.lists|, list)
  {
    var p := |s.lists|;
    var evs1, s1 := Extend(seed, evs, s, Begin(list));
    var evs2, s2 := Extend(seed, evs1, s1, Delete(p));
    assert evs2 == evs + [Begin(list), Delete(p)];
    assert RowsOf(p, list[..0]) == {};
    var evs3 := InsertMany(seed, evs2, s1, p, |list|);
    evs', s' := Extend(seed, evs3, Written(s1, p, |list|), Commit(p));
    assert list[..|list|] == list;
  }

  /** A PUT may fail at any statement; it is then rolled back and has changed nothing. */
  lemma AbortedPut<T(!new)>(seed: seq<T>, evs: seq<Event<T>>, p: nat)
    requires Exec(seed, evs).Some? && p in Exec(seed, evs).value.puts
    requires Exec(seed, evs).value.puts[p].Begun? || Exec(seed, evs).value.puts[p].Working?
    ensures Exec(seed, evs + [FailStatement(p)] + [Rollback(p)]).Some?
    ensures RowsAfter(seed, evs + [FailStatement(p)] + [Rollback(p)]) == RowsAfter(seed, evs)
  {
    var evs1, s1 := Extend(seed, evs, Exec(seed, evs).value, FailStatement(p));
    var evs2, s2 := Extend(seed, evs1, s1, Rollback(p));
  }

  // Overlapping PUTs.

  lemma BothDeleted<T(!new)>(a: T, b: T) returns (evs: seq<Event<T>>, s: State<T>)
    ensures Exec([], evs) == Some(s)
    ensures s == State({}, [[], [a], [b]], map[1 := Working({}, {}, 0, 1), 2 := Working({}, {}, 0, 1)], [0])
  {
    evs, s := [], Init<T>([]);
    evs, s := Extend([], evs, s, Begin([a]));
    evs, s := Extend([], evs, s, Begin([b]));
    assert s.committed == {} && s.lists == [[], [a], [b]];
    evs, s := Extend([], evs, s, Delete(1));
    evs, s := Extend([], evs, s, Delete(2));
    assert s.puts[1] == Working({}, {}, 0, 1) && s.puts[2] == Working({}, {}, 0, 1);
  }

  lemma BothInserted<T(!new)>(a: T, b: T) returns (evs: seq<Event<T>>, s: State<T>)
    ensures Exec([], evs) == Some(s) && s.committed == {} && s.lists == [[], [a], [b]]
    ensures s.puts == map[1 := Working({}, {Row(1, 0, a)}, 1, 1), 2 := Working({}, {Row(2, 0, b)}, 1, 1)]
  {
    evs, s := BothDeleted(a, b);
    evs, s := Extend([], evs, s, InsertNext(1));
    evs, s := Extend([], evs, s, InsertNext(2));
    assert {} + {Row(1, 0, a)} == {Row(1, 0, a)} && {} + {Row(2, 0, b)} == {Row(2, 0, b)};
  }

  /** Two PUTs on an empty table, neither of which sees the rows of the other, leave both lists. */
  lemma OverlapLeavesBoth<T(!new)>(a: T, b: T) returns (evs: seq<Event<T>>)
    ensures Exec([], evs).Some? && Exec([], evs).value.committed == RowsOf(1, [a]) + RowsOf(2, [b])
  {
    var s;
    evs, s := BothInserted(a, b);
    evs, s := Extend([], evs, s, Commit(1));
    evs, s := Extend([], evs, s, Commit(2));
    assert s.committed == {Row(1, 0, a), Row(2, 0, b)};
    RowIsWritten(1, [a], 0);
    RowIsWritten(2, [b], 0);
    assert RowsOf(1, [a]) == {Row(1, 0, a)};
    assert RowsOf(2, [b]) == {Row(2, 0, b)};
  }
}

/** One PUT on its own: the two ways in which the Update* functions treat errors. */
module ListUpdates {
  import opened ListTables
  import opened Transactions

  /** Statement 0 is the DELETE, i + 1 the insert of item i. */
  predicate AllSucceed(fate: Fate<nat>, items: nat) {
    fate.begins && fate.commits && forall k :: 0 <= k <= items ==> fate.statement(k)
  }

  class Table<T(!new)> {
    var rows: seq<Row<T>>

    constructor (rows: seq<Row<T>>)
      ensures this.rows == rows
    {
      this.rows := rows;
    }

    /** UpdateHeroSlides: returns at the first error; the deferred rollback discards the work. */
    method UpdateChecked(put: nat, list: seq<T>, fate: Fate<nat>) returns (err: bool)
      modifies this
      ensures err <==> !AllSucceed(fate, |list|)
      ensures rows == if err then old(rows) else Numbered(put, list)
    {
      if !fate.begins {
        return true;
      }
      var tx := new Tx(rows);
      err := tx.Exec(fate.statement(0), []);
      if err {
        return;
      }
      for i := 0 to |list|
        invariant rows == old(rows) && fresh(tx) && !tx.aborted
        invariant forall k :: 0 <= k <= i ==> fate.statement(k)
        invariant tx.work == Numbered(put, list)[..i]
      {
        err := tx.Exec(fate.statement(i + 1), tx.work + [Row(put, i, list[i])]);
        if err {
          return;
        }
      }
      err := tx.Commit(fate.commits);
      if !err {
        rows := tx.work;
      }
    }

    /** UpdateStats, UpdateServices, UpdateNews and UpdatePartners: ignore errors up to the commit. */
    method UpdateIgnoring(put: nat, list: seq<T>, fate: Fate<nat>) returns (err: bool)
      modifies this
      ensures err <==> !AllSucceed(fate, |list|)
      ensures rows == if err then old(rows) else Numbered(put, list)
    {
      if !fate.begins {
        return true;
      }
      var tx := new Tx(rows);
      var ignored := tx.Exec(fate.statement(0), []);
      for i := 0 to |list|
        invariant rows == old(rows) && fresh(tx)
        invariant tx.aborted <==> exists k :: 0 <= k <= i && !fate.statement(k)
        invariant !tx.aborted ==> tx.work == Numbered(put, list)[..i]
      {
        ignored := tx.Exec(fate.statement(i + 1), tx.work + [Row(put, i, list[i])]);
      }
      err := tx.Commit(fate.commits);
      if !err {
        rows := tx.work;
      }
    }

    /** A Get* function; the query returns the rows ordered by sort_order.  What a PUT without error
        stored is returned as it was put, whatever order the database keeps its rows in. */
    method Get(sorted: seq<Row<T>>) returns (out: seq<T>)
      requires OrderedRead(sorted, set r | r in rows)
      ensures forall put, list :: rows == Numbered(put, list) ==> out == list
    {
      out := Items(sorted);
      forall put, list | rows == Numbered(put, list) ensures out == list {
        assert RowsOf(put, list) == set r | r in rows;
        RoundTrip(sorted, put, list);
      }
    }
  }

  /** The error-ignoring loop refines the error-checking one: for every pattern of failures both leave
      the same table, old or fully new, and return nil in the same cases. */
  method SameOutcome<T(!new)>(t: Table<T>, u: Table<T>, put: nat, list: seq<T>, fate: Fate<nat>)
    returns (err: bool, err': bool)
    requires t != u && t.rows == u.rows
    modifies t, u
    ensures err == err' && t.rows == u.rows
    ensures t.rows == old(t.rows) || t.rows == Numbered(put, list)
  {
    err := t.UpdateChecked(put, list, fate);
    err' := u.UpdateIgnoring(put, list, fate);
  }
}
