/**
  Core\Model: the base class of table models. Each operation builds a fresh
  SqlQuery over the model's table through a fixed sequence of clause calls,
  executes it and turns the outcome into a reply. The calls and the clause
  sequence are what the model computes; the rows a query would return are
  not.
 */
module Models {
  import opened Php
  import opened Connections
  import opened Sql
  import opened ModelQueries

  class Model {
    /** What the model's Database object answers to getConnection(). */
    const conn: Option<Pdo>
    const table: string
    var error: string

    constructor(conn: Option<Pdo>, table: string)
      ensures this.conn == conn && this.table == table && error == ""
    {
      this.conn := conn;
      this.table := table;
      error := "";
    }

    /** getErrorMessage(). */
    function GetErrorMessage(): string
      reads this
    {
      error
    }

    /** getList: WHERE with data raises inside the builder before anything is
        sent; otherwise the query runs, and a successful run goes on to
        fetchAll, which the builder does not define. */
    method GetList(cond: Option<string>, data: seq<Entry>, orderBy: Option<string>, sort: int, limit: int, offset: int,
                   answer: DriverAnswer, finish: Finish)
      returns (r: Result<Value>, calls: seq<DriverCall>)
      ensures cond.Some? && data != [] ==> r == Err(CallFails("indexParamData")) && calls == []
      ensures !(cond.Some? && data != []) ==>
        calls == ExecCalls(conn, ListQuery(table, cond, orderBy, sort, limit, offset), [], answer, finish) &&
        r == AfterExec(ExecOutcome(conn, answer, finish), Err(CallFails("fetchAll")))
    {
      var sql := new SqlQuery(conn);
      var w := BuildList(sql, table, cond, data, orderBy, sort, limit, offset);
      if w.Fail? {
        return Err(w.failure), [];
      }
      NothingToBind();
      var e;
      e, calls := sql.Exec([], false, answer, finish);
      r := AfterExec(e, Err(CallFails("fetchAll")));
    }

    /** getBy: getList on `column = :id` with the value bound to id, which
        always takes the raising WHERE path. */
    method GetBy(column: string, value: Value, orderBy: Option<string>, sort: int, answer: DriverAnswer, finish: Finish)
      returns (r: Result<Value>, calls: seq<DriverCall>)
      ensures r == Err(CallFails("indexParamData")) && calls == []
    {
      r, calls := GetList(Some(ByCondition(column)), [Entry(StrKey("id"), value)], orderBy, sort, -1, 0, answer, finish);
    }

    /** insert: the arguments of the first builder call already need
        indexParamData, so nothing is built or sent. */
    method Insert(data: seq<Entry>, answer: DriverAnswer) returns (r: Result<Value>, calls: seq<DriverCall>)
      ensures r == Err(CallFails("indexParamData")) && calls == []
    {
      var sql := new SqlQuery(conn);
      return Err(CallFails("indexParamData")), [];
    }

    /** update: UPDATE, SET with the update data as parameters, then WHERE;
        true once the query has run. */
    method Update(cond: string, condData: seq<Entry>, updateData: seq<Entry>, answer: DriverAnswer, finish: Finish)
      returns (r: Result<Value>, calls: seq<DriverCall>)
      ensures condData != [] ==> r == Err(CallFails("indexParamData")) && calls == []
      ensures condData == [] ==>
        calls == ExecCalls(conn, UpdateQuery(table, cond, updateData), Merge(Merge([], updateData), []), answer, finish) &&
        r == AfterExec(ExecOutcome(conn, answer, finish), Ok(Bool(true)))
    {
      var sql := new SqlQuery(conn);
      sql.Update(table);
      assert "" + UpdateText(table) == UpdateText(table);
      sql.Set(updateData, []);
      var w := sql.Where(cond, condData);
      if w.Fail? {
        return Err(w.failure), [];
      }
      assert sql.query == UpdateQuery(table, cond, updateData);
      assert sql.params == Merge([], updateData);
      var e;
      e, calls := sql.Exec([], false, answer, finish);
      r := AfterExec(e, Ok(Bool(true)));
    }

    /** delete: DELETE FROM, then WHERE; true once the query has run. */
    method Delete(cond: string, data: seq<Entry>, answer: DriverAnswer, finish: Finish)
      returns (r: Result<Value>, calls: seq<DriverCall>)
      ensures data != [] ==> r == Err(CallFails("indexParamData")) && calls == []
      ensures data == [] ==>
        calls == ExecCalls(conn, DeleteQuery(table, cond), [], answer, finish) &&
        r == AfterExec(ExecOutcome(conn, answer, finish), Ok(Bool(true)))
    {
      var sql := new SqlQuery(conn);
      sql.Delete(table);
      assert "" + DeleteText(table) == DeleteText(table);
      var w := sql.Where(cond, data);
      if w.Fail? {
        return Err(w.failure), [];
      }
      assert sql.query == DeleteQuery(table, cond);
      assert sql.params == [];
      NothingToBind();
      var e;
      e, calls := sql.Exec([], false, answer, finish);
      r := AfterExec(e, Ok(Bool(true)));
    }

    /** deleteBy: delete on `column = :id` with the value bound to id, which
        always takes the raising WHERE path. */
    method DeleteBy(column: string, value: Value, answer: DriverAnswer, finish: Finish)
      returns (r: Result<Value>, calls: seq<DriverCall>)
      ensures r == Err(CallFails("indexParamData")) && calls == []
    {
      r, calls := Delete(ByCondition(column), [Entry(StrKey("id"), value)], answer, finish);
    }

    /** totalRowCount: a COUNT query with an optional WHERE; a successful
        run goes on to fetchColumn, which the builder does not define. */
    method TotalRowCount(cond: Option<string>, condData: seq<Entry>, answer: DriverAnswer, finish: Finish)
      returns (r: Result<Value>, calls: seq<DriverCall>)
      ensures cond.Some? && condData != [] ==> r == Err(CallFails("indexParamData")) && calls == []
      ensures !(cond.Some? && condData != []) ==>
        calls == ExecCalls(conn, CountQuery(table, cond), [], answer, finish) &&
        r == AfterExec(ExecOutcome(conn, answer, finish), Err(CallFails("fetchColumn")))
    {
      var sql := new SqlQuery(conn);
      var w := SelectFromWhere(sql, ["*"], Some("count"), table, cond, condData);
      if w.Fail? {
        return Err(w.failure), [];
      }
      assert sql.query == CountQuery(table, cond);
      assert sql.params == [];
      NothingToBind();
      var e;
      e, calls := sql.Exec([], false, answer, finish);
      r := AfterExec(e, Err(CallFails("fetchColumn")));
    }
  }

  /** The common head of getList and totalRowCount on a fresh builder: a
      select, FROM the table, and WHERE when a condition is given. WHERE
      with data raises, after its text is appended. */
  method SelectFromWhere(sql: SqlQuery, cols: seq<string>, extraOpt: Option<string>, table: string,
                         cond: Option<string>, data: seq<Entry>)
    returns (w: Outcome)
    requires sql.query == ""
    modifies sql`query
    ensures w.Fail? <==> cond.Some? && data != []
    ensures w.Fail? ==> w.failure == CallFails("indexParamData")
    ensures sql.query == SelectText(cols, extraOpt, false) + FromText(table) + OptionalWhere(cond)
  {
    sql.Select(cols, extraOpt, false);
    assert "" + SelectKeyword(false) == SelectKeyword(false);
    sql.From(table);
    w := Pass;
    if cond.Some? {
      w := sql.Where(cond.value, data);
    }
  }

  /** The text getList builds on a fresh builder, or the failure of its WHERE. */
  method BuildList(sql: SqlQuery, table: string, cond: Option<string>, data: seq<Entry>,
                   orderBy: Option<string>, sort: int, limit: int, offset: int)
    returns (w: Outcome)
    requires sql.query == ""
    modifies sql`query
    ensures w.Fail? <==> cond.Some? && data != []
    ensures w.Fail? ==> w.failure == CallFails("indexParamData")
    ensures w.Pass? ==> sql.query == ListQuery(table, cond, orderBy, sort, limit, offset)
  {
    w := SelectFromWhere(sql, [], None, table, cond, data);
    if w.Pass? {
      ListOptions(sql, orderBy, sort, limit, offset);
    }
  }

  /** The optional tail of getList: ORDER BY for an order column, then LIMIT
      for a positive limit. */
  method ListOptions(sql: SqlQuery, orderBy: Option<string>, sort: int, limit: int, offset: int)
    modifies sql`query
    ensures sql.query == old(sql.query)
      + (if orderBy.Some? then OrderByText(orderBy.value, sort) else "")
      + (if limit > 0 then LimitText(limit, offset) else "")
  {
    ghost var q0 := sql.query;
    if orderBy.Some? {
      sql.OrderBy(orderBy.value, sort);
    }
    ghost var q1 := sql.query;
    if limit > 0 {
      sql.Limit(limit, offset);
    }
    assert q1 == q0 + (if orderBy.Some? then OrderByText(orderBy.value, sort) else "");
  }

  /** A builder with no parameters binds none. */
  lemma NothingToBind()
    ensures Merge([], []) == []
  {
    assert Renumber([]) == [];
  }
}
