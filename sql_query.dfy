/**
  Core\SqlQuery: a fluent builder that accumulates an SQL text in `query`,
  positional or named parameters in `params` and extra data in `data`, and
  hands the text to a PDO connection in `exec`. Every clause method appends
  one fragment, whose user-supplied parts are trimmed and which ends in a
  single space.
 */
module Sql {
  import opened PhpStrings
  import opened Php
  import opened Connections

  const SortAsc: int := 0
  const SortDesc: int := 1

  /** What the constructor is given. A Database object is represented by what
      its getConnection() answers. */
  datatype ConnectionArg =
    | FromDatabase(connection: Option<Pdo>)
    | FromPdo(pdo: Pdo)
    | NotAConnection

  /** The instanceof test of the constructor: the connection the builder will
      use, or the exception for anything that is neither a Database nor a PDO. */
  function ConnectionFor(arg: ConnectionArg): (r: Result<Option<Pdo>>)
    ensures r.Err? <==> arg.NotAConnection?
    ensures r.Err? ==> r.failure == Exception("Invalid connection object")
    ensures arg.FromPdo? ==> r == Ok(Some(arg.pdo))
    ensures arg.FromDatabase? ==> r == Ok(arg.connection)
  {
    match arg
    case FromDatabase(c) => Ok(c)
    case FromPdo(p) => Ok(Some(p))
    case NotAConnection => Err(Exception("Invalid connection object"))
  }

  // ---------------------------------------------------------------- fragments

  function TrimAll(cols: seq<string>): (r: seq<string>)
    ensures |r| == |cols|
    ensures forall i :: 0 <= i < |cols| ==> r[i] == Trim(cols[i])
  {
    seq(|cols|, i requires 0 <= i < |cols| => Trim(cols[i]))
  }

  function SelectKeyword(distinct: bool): (r: string)
    ensures |r| >= 7 && r[..7] == "SELECT " && r[|r| - 1] == ' '
    ensures distinct ==> r[7..] == "DISTINCT "
  {
    if distinct then "SELECT DISTINCT " else "SELECT "
  }

  const AggregateNames: seq<string> := ["count", "avg", "sum"]

  /** The aggregate used for `$extraOpt`: its lower-case form when that is one
      of count, avg and sum, and count for anything else. */
  function AggregateName(extraOpt: string): (r: string)
    ensures r in AggregateNames
    ensures Lower(extraOpt) in AggregateNames ==> r == Lower(extraOpt)
    ensures Lower(extraOpt) !in AggregateNames ==> r == "count"
  {
    var name := Lower(extraOpt);
    if name in AggregateNames then name else "count"
  }

  /** `if ($extraOpt)` for a nullable string. */
  predicate OptTruthy(extraOpt: Option<string>)
  {
    extraOpt.Some? && StrTruthy(extraOpt.value)
  }

  function ColumnsText(cols: seq<string>): (r: string)
    ensures r != [] && r[|r| - 1] == ' '
  {
    if cols == [] then "* " else Implode(", ", TrimAll(cols)) + " "
  }

  /** The aggregate call over the first column, or over `*` with no columns. */
  function AggregateCall(fn: string, cols: seq<string>): (r: string)
    ensures |r| >= |fn| + 3 && r[..|fn| + 1] == fn + "(" && r[|r| - 2..] == ") "
  {
    fn + "(" + (if cols != [] then Trim(cols[0]) + ") " else "* ) ")
  }

  function AggregationText(extraOpt: Option<string>, cols: seq<string>): (r: string)
    ensures r != [] && r[|r| - 1] == ' '
  {
    if OptTruthy(extraOpt) then AggregateCall(Upper(AggregateName(extraOpt.value)), cols) else ColumnsText(cols)
  }

  /** The SELECT fragment: the keyword (with DISTINCT when asked), then the
      columns or the aggregate call, ending in a space. */
  function SelectText(cols: seq<string>, extraOpt: Option<string>, distinct: bool): (r: string)
    ensures |r| > 7 && r[..7] == "SELECT " && r[|r| - 1] == ' '
    ensures distinct ==> |r| > 16 && r[7..16] == "DISTINCT "
  {
    SelectKeyword(distinct) + AggregationText(extraOpt, cols)
  }

  /** `FROM`, the trimmed table name and a closing space. */
  function FromText(table: string): (r: string)
    ensures |r| == |Trim(table)| + 6 && r[..5] == "FROM " && r[|r| - 1] == ' '
  {
    "FROM " + Trim(table) + " "
  }

  /** `WHERE`, the trimmed condition and a closing space. */
  function WhereText(condition: string): (r: string)
    ensures |r| == |Trim(condition)| + 7 && r[..6] == "WHERE " && r[|r| - 1] == ' '
  {
    "WHERE " + Trim(condition) + " "
  }

  /** ASC for SORT_ASC and DESC for every other integer. */
  function SortKeyword(sort: int): (r: string)
    ensures r == "ASC" <==> sort == SortAsc
    ensures r == "DESC" <==> sort != SortAsc
  {
    if sort == SortAsc then "ASC" else "DESC"
  }

  /** `ORDER BY`, the trimmed column, the direction and a closing space. */
  function OrderByText(column: string, sort: int): (r: string)
    ensures |r| >= 14 && r[..9] == "ORDER BY " && r[|r| - 1] == ' '
  {
    var head := "ORDER BY " + Trim(column);
    assert (head + " " + SortKeyword(sort) + " ")[..9] == head[..9];
    head + " " + SortKeyword(sort) + " "
  }

  /** The ORDER BY fragment ends with the direction keyword between spaces:
      ASC for SORT_ASC and DESC otherwise (see SortKeyword). */
  lemma OrderByDirection(column: string, sort: int)
    ensures var r := OrderByText(column, sort); var d := SortKeyword(sort);
      |r| >= |d| + 2 && r[|r| - |d| - 2..] == " " + d + " "
  {
    var head := "ORDER BY " + Trim(column);
    var tail := " " + SortKeyword(sort) + " ";
    assert OrderByText(column, sort) == head + tail;
    assert (head + tail)[|head|..] == tail by {
      SuffixOfAppend(head, tail);
    }
  }

  lemma SuffixOfAppend(a: string, b: string)
    ensures (a + b)[|a|..] == b
  {
  }

  /** `LIMIT n OFFSET m` and a closing space. */
  function LimitText(max: int, offset: int): (r: string)
    ensures |r| > 15 && r[..6] == "LIMIT " && r[|r| - 1] == ' '
  {
    var head := "LIMIT " + IntToDecimal(max);
    assert (head + " OFFSET " + IntToDecimal(offset) + " ")[..6] == head[..6];
    head + " OFFSET " + IntToDecimal(offset) + " "
  }

  /** The join type in upper case, `JOIN`, the table, `ON`, the condition and a closing space. */
  function JoinText(table2: string, cond: string, joinType: string): (r: string)
    ensures |r| > |joinType| + 10 && r[..|joinType| + 6] == Upper(joinType) + " JOIN " && r[|r| - 1] == ' '
  {
    var head := Upper(joinType) + " JOIN ";
    var tail := Trim(table2) + " ON " + Trim(cond) + " ";
    assert (head + tail)[..|head|] == head;
    head + tail
  }

  /** `INSERT INTO`, the trimmed table and the parenthesised column list. */
  function InsertText(table: string, cols: seq<string>): (r: string)
    ensures |r| >= 16 && r[..12] == "INSERT INTO " && r[|r| - 2..] == ") "
  {
    var head := "INSERT INTO " + Trim(table) + " (" + Implode(", ", cols);
    assert (head + ") ")[..12] == head[..12];
    head + ") "
  }

  /** A value as `values` writes it into the text: inside single quotes, with
      nothing escaped. */
  function Quote(v: Value): string
  {
    "'" + Text(v) + "'"
  }

  function QuotedValues(d: seq<Entry>): (r: seq<string>)
    ensures |r| == |d|
    ensures forall i :: 0 <= i < |d| ==> r[i] == Quote(d[i].val)
  {
    seq(|d|, i requires 0 <= i < |d| => Quote(d[i].val))
  }

  /** `VALUES` and the parenthesised list of quoted values. */
  function ValuesText(d: seq<Entry>): (r: string)
    ensures |r| >= 10 && r[..8] == "VALUES (" && r[|r| - 2..] == ") "
    ensures d == [] ==> r == "VALUES () "
  {
    "VALUES (" + Implode(", ", QuotedValues(d)) + ") "
  }

  /** `trim($key) . ' = :' . trim($key)` for one key of `set`. */
  function Assignment(k: Key): string
  {
    Trim(KeyText(k)) + " = :" + Trim(KeyText(k))
  }

  function Assignments(cols: seq<Entry>): (r: seq<string>)
    ensures |r| == |cols|
    ensures forall i :: 0 <= i < |cols| ==> r[i] == Assignment(cols[i].key)
  {
    seq(|cols|, i requires 0 <= i < |cols| => Assignment(cols[i].key))
  }

  /** `SET` and the `key = :key` assignments, ending in a space. */
  function SetText(cols: seq<Entry>): (r: string)
    ensures |r| >= 5 && r[..4] == "SET " && r[|r| - 1] == ' '
    ensures |cols| == 1 ==> r[4..|r| - 1] == Assignment(cols[0].key)
  {
    "SET " + Implode(", ", Assignments(cols)) + " "
  }

  /** `UPDATE`, the trimmed table and a closing space. */
  function UpdateText(table: string): (r: string)
    ensures |r| == |Trim(table)| + 8 && r[..7] == "UPDATE " && r[|r| - 1] == ' '
  {
    "UPDATE " + Trim(table) + " "
  }

  /** `DELETE FROM`, the trimmed table and a closing space. */
  function DeleteText(table: string): (r: string)
    ensures |r| == |Trim(table)| + 13 && r[..12] == "DELETE FROM " && r[|r| - 1] == ' '
  {
    "DELETE FROM " + Trim(table) + " "
  }

  /** `array_map(fn($c) => $c, $cols)` for a list of strings: the array `insert` stores. */
  function StrList(cols: seq<string>): (r: seq<Entry>)
    ensures |r| == |cols|
    ensures forall i :: 0 <= i < |cols| ==> r[i] == Entry(IntKey(i), Str(cols[i]))
  {
    seq(|cols|, i requires 0 <= i < |cols| => Entry(IntKey(i), Str(cols[i])))
  }

  // ---------------------------------------------------------------- exec

  /** Whether an exec round runs to its commit: a connection, no failure
      from the driver and a transaction that commits. */
  predicate ExecCommits(conn: Option<Pdo>, answer: DriverAnswer, finish: Finish)
  {
    conn.Some? && answer.Executes? && finish.Commits?
  }

  /** The calls exec makes on the connection, in order: nothing without a
      connection; otherwise begin, then prepare, execute, lastInsertId and
      commit for as long as each succeeds, and a rollback after the first
      one that fails. */
  function ExecCalls(conn: Option<Pdo>, query: string, bound: seq<Entry>, answer: DriverAnswer, finish: Finish)
    : (calls: seq<DriverCall>)
    ensures conn.None? ==> calls == []
    ensures conn.Some? ==> |calls| >= 2 && calls[0] == BeginTransaction
    ensures conn.Some? ==> (calls[|calls| - 1] == Commit <==> ExecCommits(conn, answer, finish))
    ensures conn.Some? ==> (calls[|calls| - 1] == RollBack <==> !ExecCommits(conn, answer, finish))
    ensures Prepare(query) in calls <==> conn.Some? && !finish.BeginRefused()
    ensures Execute(bound) in calls <==> conn.Some? && !finish.BeginRefused() && !answer.PrepareFails?
    ensures LastInsertId in calls <==> conn.Some? && !finish.BeginRefused() && answer.Executes?
    ensures Commit in calls <==> conn.Some? && answer.Executes? && (finish.Commits? || finish.CommitFails?)
    ensures RollBack in calls <==> conn.Some? && !ExecCommits(conn, answer, finish)
  {
    match conn
    case None => []
    case Some(_) =>
      if finish.BeginRefused() then [BeginTransaction, RollBack]
      else
        match answer
        case PrepareFails(_) => [BeginTransaction, Prepare(query), RollBack]
        case ExecuteFails(_) => [BeginTransaction, Prepare(query), Execute(bound), RollBack]
        case Executes(_, _) =>
          match finish
          case Commits => [BeginTransaction, Prepare(query), Execute(bound), LastInsertId, Commit]
          case LastInsertIdFails(_) => [BeginTransaction, Prepare(query), Execute(bound), LastInsertId, RollBack]
          case CommitFails(_) => [BeginTransaction, Prepare(query), Execute(bound), LastInsertId, Commit, RollBack]
  }

  /** How exec ends. Without a connection the catch block calls rollBack() on
      null, which raises an Error in place of the PDOException. When the
      driver fails to begin there is no transaction to roll back, so the
      rollback raises its own PDOException in place of the first. When a
      transaction is already open the rollback ends it and the refusal is
      rethrown, as is any other driver failure. */
  function ExecOutcome(conn: Option<Pdo>, answer: DriverAnswer, finish: Finish): (r: Outcome)
    ensures r.Pass? <==> ExecCommits(conn, answer, finish)
    ensures conn.None? ==> r == Fail(NullMemberCall("rollBack"))
    ensures conn.Some? && finish.BeginFails? ==> r == Fail(PdoException(NoActiveTransaction))
    ensures conn.Some? && finish.InTransaction? ==> r == Fail(PdoException(ActiveTransaction))
    ensures conn.Some? && !finish.BeginRefused() && !answer.Executes? ==> r == Fail(PdoException(answer.message))
    ensures conn.Some? && answer.Executes? && (finish.LastInsertIdFails? || finish.CommitFails?)
            ==> r == Fail(PdoException(finish.message))
  {
    if conn.None? then Fail(NullMemberCall("rollBack"))
    else if finish.BeginFails? then Fail(PdoException(NoActiveTransaction))
    else if finish.InTransaction? then Fail(PdoException(ActiveTransaction))
    else
      match answer
      case PrepareFails(m) => Fail(PdoException(m))
      case ExecuteFails(m) => Fail(PdoException(m))
      case Executes(_, _) =>
        match finish
        case Commits => Pass
        case LastInsertIdFails(m) => Fail(PdoException(m))
        case CommitFails(m) => Fail(PdoException(m))
  }

  // ---------------------------------------------------------------- the builder

  class SqlQuery {
    const conn: Option<Pdo>
    var query: string
    var params: seq<Entry>
    var data: seq<Entry>
    var stmt: Option<Statement>
    var lastInsertId: Value

    /** The constructor given an accepted connection argument (see ConnectionFor). */
    constructor (conn: Option<Pdo>)
      ensures this.conn == conn
      ensures query == "" && params == [] && data == []
      ensures stmt == None && lastInsertId == Int(0)
    {
      this.conn := conn;
      query := "";
      params := [];
      data := [];
      stmt := None;
      lastInsertId := Int(0);
    }

    method SetQuery(q: string)
      modifies this`query
      ensures query == q
    {
      query := q;
    }

    method AppendQuery(q: string)
      modifies this`query
      ensures query == old(query) + q
    {
      query := query + q;
    }

    method AppendParamData(p: seq<Entry>, d: seq<Entry>)
      modifies this`params, this`data
      ensures params == Merge(old(params), p)
      ensures data == Merge(old(data), d)
    {
      params := Merge(params, p);
      data := Merge(data, d);
    }

    method Select(cols: seq<string>, extraOpt: Option<string>, distinct: bool)
      modifies this`query
      ensures query == old(query) + SelectKeyword(distinct) + AggregationText(extraOpt, cols)
    {
      AppendQuery(if distinct then "SELECT DISTINCT " else "SELECT ");
      HandleAggregation(extraOpt, cols);
    }

    method HandleAggregation(extraOpt: Option<string>, cols: seq<string>)
      modifies this`query
      ensures query == old(query) + AggregationText(extraOpt, cols)
    {
      if extraOpt.Some? && StrTruthy(extraOpt.value) {
        var name := AggregateName(extraOpt.value);
        AppendAggregate(Upper(name), cols);
      } else {
        AppendColumns(cols);
      }
    }

    /** The two appends of the aggregation branch: the function name with its
        opening parenthesis, then the column and the closing one. */
    method AppendAggregate(fn: string, cols: seq<string>)
      modifies this`query
      ensures query == old(query) + AggregateCall(fn, cols)
    {
      ghost var q0 := query;
      AppendQuery(fn + "(");
      if cols != [] {
        AppendQuery(Trim(cols[0]) + ") ");
      } else {
        AppendQuery("* ) ");
      }
      assert query == q0 + (fn + "(" + (if cols != [] then Trim(cols[0]) + ") " else "* ) "));
    }

    method AppendColumns(cols: seq<string>)
      modifies this`query
      ensures query == old(query) + ColumnsText(cols)
    {
      if cols == [] {
        AppendQuery("* ");
      } else {
        AppendQuery(Implode(", ", TrimAll(cols)) + " ");
      }
    }

    method From(table: string)
      modifies this`query
      ensures query == old(query) + FromText(table)
    {
      AppendQuery("FROM " + Trim(table) + " ");
    }

    /** With non-empty data the clause goes on to `indexParamData`, which the
        class does not define, and raises after the WHERE text is appended. */
    method Where(condition: string, d: seq<Entry>) returns (r: Outcome)
      modifies this`query
      ensures query == old(query) + WhereText(condition)
      ensures r.Fail? <==> d != []
      ensures r.Fail? ==> r.failure == CallFails("indexParamData")
    {
      AppendQuery("WHERE " + Trim(condition) + " ");
      if d != [] {
        return Fail(CallFails("indexParamData"));
      }
      return Pass;
    }

    method OrderBy(column: string, sort: int)
      modifies this`query
      ensures query == old(query) + OrderByText(column, sort)
    {
      AppendQuery("ORDER BY " + Trim(column) + " " + (if sort == SortAsc then "ASC" else "DESC") + " ");
    }

    method Limit(max: int, offset: int)
      modifies this`query
      ensures query == old(query) + LimitText(max, offset)
    {
      AppendQuery("LIMIT " + IntToDecimal(max) + " OFFSET " + IntToDecimal(offset) + " ");
    }

    method Join(table2: string, cond: string, joinType: string)
      modifies this`query
      ensures query == old(query) + JoinText(table2, cond, joinType)
    {
      AppendQuery(Upper(joinType) + " JOIN " + Trim(table2) + " ON " + Trim(cond) + " ");
    }

    method Insert(table: string, cols: seq<string>)
      modifies this`query, this`params
      ensures query == old(query) + InsertText(table, cols)
      ensures params == StrList(cols)
    {
      AppendQuery("INSERT INTO " + Trim(table) + " (" + Implode(", ", cols) + ") ");
      params := StrList(cols);
    }

    method Values(d: seq<Entry>)
      modifies this`query, this`data
      ensures query == old(query) + ValuesText(d)
      ensures data == d
    {
      AppendQuery("VALUES (" + Implode(", ", QuotedValues(d)) + ") ");
      data := d;
    }

    method Update(table: string)
      modifies this`query
      ensures query == old(query) + UpdateText(table)
    {
      AppendQuery("UPDATE " + Trim(table) + " ");
    }

    method Set(cols: seq<Entry>, d: seq<Entry>)
      modifies this`query, this`params, this`data
      ensures query == old(query) + SetText(cols)
      ensures params == Merge(old(params), cols)
      ensures data == d
    {
      AppendQuery("SET " + Implode(", ", Assignments(cols)) + " ");
      params := Merge(params, cols);
      data := d;
    }

    method Delete(table: string)
      modifies this`query
      ensures query == old(query) + DeleteText(table)
    {
      AppendQuery("DELETE FROM " + Trim(table) + " ");
    }

    /** Runs the accumulated text in a transaction, binding
        array_merge(params, extraData); `data` is never bound. The statement
        is kept once it has executed and the insert id once it has been read,
        even when a later step fails; after a commit the builder is reset when
        asked. A failure leaves the text, params and data as they were. */
    method Exec(extraData: seq<Entry>, queryReset: bool, answer: DriverAnswer, finish: Finish)
      returns (r: Outcome, calls: seq<DriverCall>)
      modifies this`query, this`params, this`data, this`stmt, this`lastInsertId
      ensures r == ExecOutcome(conn, answer, finish)
      ensures calls == ExecCalls(conn, old(query), Merge(old(params), extraData), answer, finish)
      ensures r.Fail? ==> query == old(query) && params == old(params) && data == old(data)
      ensures r.Fail? && conn.Some? && !finish.BeginRefused() && answer.Executes? ==> stmt == Some(answer.stmt)
      ensures r.Fail? && !(conn.Some? && !finish.BeginRefused() && answer.Executes?) ==> stmt == old(stmt)
      ensures r.Fail? && conn.Some? && answer.Executes? && finish.CommitFails? ==> lastInsertId == Str(answer.insertId)
      ensures r.Fail? && !(conn.Some? && answer.Executes? && finish.CommitFails?) ==> lastInsertId == old(lastInsertId)
      ensures r.Pass? ==> lastInsertId == Str(answer.insertId)
      ensures r.Pass? && queryReset ==> query == "" && params == [] && data == [] && stmt == None
      ensures r.Pass? && !queryReset ==> query == old(query) && params == old(params) && data == old(data)
                                         && stmt == Some(answer.stmt)
    {
      if conn.None? {
        return Fail(NullMemberCall("rollBack")), [];
      }
      if finish.BeginFails? {
        return Fail(PdoException(NoActiveTransaction)), [BeginTransaction, RollBack];
      }
      if finish.InTransaction? {
        return Fail(PdoException(ActiveTransaction)), [BeginTransaction, RollBack];
      }
      var bound := Merge(params, extraData);
      match answer
      case PrepareFails(m) =>
        calls := [BeginTransaction, Prepare(query), RollBack];
        r := Fail(PdoException(m));
      case ExecuteFails(m) =>
        calls := [BeginTransaction, Prepare(query), Execute(bound), RollBack];
        r := Fail(PdoException(m));
      case Executes(s, id) =>
        stmt := Some(s);
        calls := [BeginTransaction, Prepare(query), Execute(bound), LastInsertId];
        if finish.LastInsertIdFails? {
          return Fail(PdoException(finish.message)), calls + [RollBack];
        }
        lastInsertId := Str(id);
        if finish.CommitFails? {
          return Fail(PdoException(finish.message)), calls + [Commit, RollBack];
        }
        calls := calls + [Commit];
        if queryReset {
          ResetQuery();
        }
        r := Pass;
    }

    method ResetQuery()
      modifies this`query, this`params, this`data, this`stmt
      ensures query == "" && params == [] && data == [] && stmt == None
    {
      query := "";
      params := [];
      data := [];
      stmt := None;
    }
  }

  // ---------------------------------------------------------------- properties

  /** An aggregate looks only at the first column. */
  lemma AggregationUsesFirstColumn(extraOpt: Option<string>, cols: seq<string>)
    requires OptTruthy(extraOpt) && cols != []
    ensures AggregationText(extraOpt, cols) == AggregationText(extraOpt, cols[..1])
  {
  }

  /** An unknown aggregate name behaves as count; a falsy one ("" or "0", or
      none) selects plain columns. */
  lemma UnknownAggregateIsCount(extraOpt: string, cols: seq<string>)
    requires StrTruthy(extraOpt) && Lower(extraOpt) !in AggregateNames
    ensures AggregationText(Some(extraOpt), cols) == AggregationText(Some("count"), cols)
  {
    CountIsAggregate();
    assert AggregateName(extraOpt) == AggregateName("count");
  }

  /** count is one of the aggregates, and is kept as it is. */
  lemma CountIsAggregate()
    ensures AggregateName("count") == "count"
  {
    assert Lower("count") == "count";
  }

  /** The aggregate chosen does not depend on the case of its name. */
  lemma AggregateIgnoresCase(extraOpt: string)
    ensures AggregateName(Upper(extraOpt)) == AggregateName(extraOpt)
    ensures AggregateName(Lower(extraOpt)) == AggregateName(extraOpt)
  {
    LowerOfUpper(extraOpt);
  }

  lemma NoAggregateSelectsColumns(extraOpt: Option<string>, cols: seq<string>)
    requires !OptTruthy(extraOpt)
    ensures AggregationText(extraOpt, cols) == ColumnsText(cols)
  {
  }

  /** The column list can be read back from the text when no column contains a comma. */
  lemma ColumnsRoundTrip(cols: seq<string>)
    requires cols != []
    requires forall i :: 0 <= i < |cols| ==> ',' !in Trim(cols[i])
    ensures var t := ColumnsText(cols); t[|t| - 1] == ' ' && Explode(", ", t[..|t| - 1]) == TrimAll(cols)
  {
    var t := ColumnsText(cols);
    assert t[..|t| - 1] == Implode(", ", TrimAll(cols));
    ExplodeImplode(", ", TrimAll(cols));
  }

  /** The values of `values` can be read back, each in quotes, when none of
      them contains a comma; a quote inside a value is not escaped. */
  lemma ValuesRoundTrip(d: seq<Entry>)
    requires d != []
    requires forall i :: 0 <= i < |d| ==> ',' !in Text(d[i].val)
    ensures var t := ValuesText(d);
      t[..8] == "VALUES (" && t[|t| - 2..] == ") " &&
      Explode(", ", t[8..|t| - 2]) == QuotedValues(d)
  {
    var t := ValuesText(d);
    assert t[8..|t| - 2] == Implode(", ", QuotedValues(d));
    forall k | 0 <= k < |d| ensures ',' !in QuotedValues(d)[k] {
      assert QuotedValues(d)[k] == "'" + Text(d[k].val) + "'";
    }
    ExplodeImplode(", ", QuotedValues(d));
  }

  /** `set` writes one `name = :name` per key, in key order. */
  lemma SetRoundTrip(cols: seq<Entry>)
    requires cols != []
    requires forall i :: 0 <= i < |cols| ==> ',' !in Trim(KeyText(cols[i].key))
    ensures var t := SetText(cols);
      t[..4] == "SET " && t[|t| - 1] == ' ' &&
      Explode(", ", t[4..|t| - 1]) == Assignments(cols)
  {
    var t := SetText(cols);
    assert t[4..|t| - 1] == Implode(", ", Assignments(cols));
    forall k | 0 <= k < |cols| ensures ',' !in Assignments(cols)[k] {
      var n := Trim(KeyText(cols[k].key));
      assert Assignments(cols)[k] == n + " = :" + n;
    }
    ExplodeImplode(", ", Assignments(cols));
  }
}
