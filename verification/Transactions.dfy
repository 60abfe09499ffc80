/** A transaction of database/sql on PostgreSQL, run by one connection on its own. */
module Transactions {
  /** Whether the transaction begins, whether each of its statements succeeds, and whether a commit of a
      transaction in order succeeds. */
  datatype Fate<!K> = Fate(begins: bool, statement: K -> bool, commits: bool)

  /** A failed statement aborts the transaction, later statements fail, and its commit is an error. */
  class Tx<D> {
    var aborted: bool
    var work: D

    constructor (db: D)
      ensures !aborted && work == db
    {
      aborted, work := false, db;
    }

    /** A statement that leaves `after` if it succeeds. */
    method Exec(ok: bool, after: D) returns (err: bool)
      modifies this
      ensures err == aborted == (old(aborted) || !ok)
      ensures work == if err then old(work) else after
    {
      if !aborted && ok {
        work := after;
      } else {
        aborted := true;
      }
      err := aborted;
    }

    method Commit(ok: bool) returns (err: bool)
      ensures err <==> aborted || !ok
    {
      err := aborted || !ok;
    }
  }
}
