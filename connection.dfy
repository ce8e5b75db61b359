/**
  The database driver as the core sees it: an opaque PDO connection that is
  asked to begin a transaction, prepare a statement, execute it with bound
  parameters, report the last insert id, and commit or roll back. What the
  driver answers is an input of the model; the calls made to it are an output.
 */
module Connections {
  import opened Php

  /** An open PDO connection, known only by its identity. */
  datatype Pdo = Pdo(id: nat)

  /** A PDOStatement, known only by its identity. */
  datatype Statement = Statement(id: nat)

  /** How the connection answers one prepare-and-execute round. */
  datatype DriverAnswer =
    | PrepareFails(message: string)
    | ExecuteFails(message: string)
    | Executes(stmt: Statement, insertId: string)

  /** How the transaction around one exec round goes: beginTransaction(),
      lastInsertId() and commit() may each raise a PDOException. Only the
      parts the round reaches are consulted. beginTransaction() is refused
      in two ways: the driver fails to open a transaction (BeginFails), or
      one is already open on the shared connection (InTransaction), which
      PDO refuses with ActiveTransaction. */
  datatype Finish =
    | Commits
    | BeginFails(message: string)
    | InTransaction
    | LastInsertIdFails(message: string)
    | CommitFails(message: string)
  {
    /** beginTransaction() raises, so nothing further is sent. */
    predicate BeginRefused()
    {
      BeginFails? || InTransaction?
    }
  }

  /** The message PDO::rollBack() raises when no transaction is open. */
  const NoActiveTransaction := "There is no active transaction"

  /** The message PDO::beginTransaction() raises when one is already open. */
  const ActiveTransaction := "There is already an active transaction"

  /** One call made on the connection or on the statement it prepared. */
  datatype DriverCall =
    | BeginTransaction
    | Prepare(sql: string)
    | Execute(params: seq<Entry>)
    | LastInsertId
    | Commit
    | RollBack
}
