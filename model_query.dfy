/**
  The queries Core\Model builds. Each operation of the model issues a fixed
  sequence of clause calls on a fresh SqlQuery; the functions here are the
  text that sequence accumulates, fragment by fragment in call order.
 */
module ModelQueries {
  import opened PhpStrings
  import opened Php
  import opened Sql

  /** The WHERE fragment when a condition is given, nothing otherwise. */
  function OptionalWhere(cond: Option<string>): (r: string)
    ensures cond.None? <==> r == ""
  {
    if cond.Some? then WhereText(cond.value) else ""
  }

  /** getList: select all columns, FROM the table, then WHERE for a condition,
      ORDER BY for an order column and LIMIT for a positive limit. */
  function ListQuery(table: string, cond: Option<string>, orderBy: Option<string>, sort: int, limit: int, offset: int): string
  {
    SelectText([], None, false) + FromText(table) + OptionalWhere(cond)
      + (if orderBy.Some? then OrderByText(orderBy.value, sort) else "")
      + (if limit > 0 then LimitText(limit, offset) else "")
  }

  /** totalRowCount: a COUNT over all columns, FROM the table, and WHERE for a condition. */
  function CountQuery(table: string, cond: Option<string>): string
  {
    SelectText(["*"], Some("count"), false) + FromText(table) + OptionalWhere(cond)
  }

  /** update: UPDATE, then SET over the update data, then WHERE. */
  function UpdateQuery(table: string, cond: string, updateData: seq<Entry>): string
  {
    UpdateText(table) + SetText(updateData) + WhereText(cond)
  }

  /** delete: DELETE FROM, then WHERE. */
  function DeleteQuery(table: string, cond: string): string
  {
    DeleteText(table) + WhereText(cond)
  }

  /** The condition getBy and deleteBy hand on. */
  function ByCondition(column: string): string
  {
    column + " = :id"
  }

  /** The reply once the builder has sent its query: the failure exec raised,
      or what the operation does next when exec returns. */
  function AfterExec(exec: Outcome, next: Result<Value>): (r: Result<Value>)
    ensures exec.Fail? ==> r == Err(exec.failure)
    ensures exec.Pass? ==> r == next
  {
    match exec
    case Fail(f) => Err(f)
    case Pass => next
  }

  // ---------------------------------------------------------------- properties

  // Helpers: small facts about text that keep the solver's context small in
  // the lemmas below.

  lemma PrefixKept(head: string, rest: string)
    ensures |head| <= |head + rest| && (head + rest)[..|head|] == head
  {
  }

  lemma Associative(a: string, b: string, c: string)
    ensures a + b + c == a + (b + c)
  {
  }

  lemma CountUpperCase()
    ensures Upper("count") == "COUNT"
  {
  }

  lemma StarIsTrimmed()
    ensures Trim("*") == "*"
  {
  }

  /** The select of getList is `SELECT * `. */
  lemma SelectAllText()
    ensures SelectText([], None, false) == "SELECT " + "* "
  {
  }

  /** Every list query begins with its select-all and FROM fragments,
      whatever condition, order and limit are given. */
  lemma ListQueryStart(table: string, cond: Option<string>, orderBy: Option<string>, sort: int, limit: int, offset: int)
    ensures var q := ListQuery(table, cond, orderBy, sort, limit, offset);
      var head := SelectText([], None, false) + FromText(table);
      |head| <= |q| && q[..|head|] == head
  {
    var head := SelectText([], None, false) + FromText(table);
    Associative(head, OptionalWhere(cond), (if orderBy.Some? then OrderByText(orderBy.value, sort) else ""));
    Associative(head, OptionalWhere(cond) + (if orderBy.Some? then OrderByText(orderBy.value, sort) else ""),
      (if limit > 0 then LimitText(limit, offset) else ""));
    PrefixKept(head, OptionalWhere(cond) + (if orderBy.Some? then OrderByText(orderBy.value, sort) else "")
      + (if limit > 0 then LimitText(limit, offset) else ""));
  }

  /** With no condition, no order column and no positive limit, the list
      query is exactly `SELECT * FROM table `. */
  lemma PlainListQuery(table: string, sort: int, limit: int, offset: int)
    requires limit <= 0
    ensures ListQuery(table, None, None, sort, limit, offset) == "SELECT " + "* " + "FROM " + Trim(table) + " "
  {
  }

  /** A limit that is not positive, such as the default -1, adds no LIMIT: the
      query is the same as with limit 0. */
  lemma NonPositiveLimitAddsNothing(table: string, cond: Option<string>, orderBy: Option<string>, sort: int,
                                    limit: int, offset: int)
    requires limit <= 0
    ensures ListQuery(table, cond, orderBy, sort, limit, offset) == ListQuery(table, cond, orderBy, sort, 0, 0)
  {
  }

  /** A positive limit ends the list query with its LIMIT fragment. */
  lemma PositiveLimitEndsQuery(table: string, cond: Option<string>, orderBy: Option<string>, sort: int,
                               limit: int, offset: int)
    requires limit > 0
    ensures var q := ListQuery(table, cond, orderBy, sort, limit, offset);
      var tail := LimitText(limit, offset);
      |tail| <= |q| && q[|q| - |tail|..] == tail
  {
  }

  /** The select of totalRowCount is `SELECT COUNT(*) `. */
  lemma CountSelectText()
    ensures SelectText(["*"], Some("count"), false) == "SELECT " + ("COUNT" + "(" + "*" + ") ")
  {
    CountIsAggregate();
    CountUpperCase();
    StarIsTrimmed();
  }

  /** The row count query begins with its COUNT select and FROM fragments. */
  lemma CountQueryStart(table: string, cond: Option<string>)
    ensures var q := CountQuery(table, cond);
      var head := SelectText(["*"], Some("count"), false) + FromText(table);
      |head| <= |q| && q[..|head|] == head
  {
    PrefixKept(SelectText(["*"], Some("count"), false) + FromText(table), OptionalWhere(cond));
  }

  /** The update query names the table first and ends with the WHERE
      fragment, with the SET list between. */
  lemma UpdateQueryShape(table: string, cond: string, updateData: seq<Entry>)
    ensures var q := UpdateQuery(table, cond, updateData);
      var tail := WhereText(cond);
      |UpdateText(table)| + |tail| <= |q| && q[..|UpdateText(table)|] == UpdateText(table) && q[|q| - |tail|..] == tail
  {
    Associative(UpdateText(table), SetText(updateData), WhereText(cond));
    PrefixKept(UpdateText(table), SetText(updateData) + WhereText(cond));
  }

  /** The delete query is `DELETE FROM table WHERE cond `. */
  lemma DeleteQueryShape(table: string, cond: string)
    ensures DeleteQuery(table, cond) == "DELETE FROM " + Trim(table) + " " + "WHERE " + Trim(cond) + " "
  {
  }

  /** With string-keyed update data, the parameters update binds are that
      data, in order. */
  lemma UpdateBindsData(updateData: seq<Entry>)
    requires StringKeyed(updateData) && DistinctKeys(updateData)
    ensures Merge(Merge([], updateData), []) == updateData
  {
    assert [] + updateData == updateData;
    MergeIntoFresh([], updateData);
    RenumberStringKeyed(updateData, 0);
  }
}
