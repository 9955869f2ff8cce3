/** The transaction list of the portal: a WHERE clause built with positional arguments, and its pages. */
module Transactions {
  import opened Domain

  datatype Row = Row(paymentId: string, status: string, sourceBIC: string, destinationBIC: string,
                     createdAt: int, amount: int)

  datatype Filter = Filter(status: string, bic: string, from: Option<int>, to: Option<int>,
                           minAmount: Option<int>, maxAmount: Option<int>, page: int, pageSize: int)

  predicate WantedByText(f: Filter, r: Row) {
    && (f.status != "" ==> r.status == f.status)
    && (f.bic != "" ==> r.sourceBIC == f.bic || r.destinationBIC == f.bic)
  }

  predicate WantedByTime(f: Filter, r: Row) {
    && (f.from.Some? ==> r.createdAt >= f.from.value)
    && (f.to.Some? ==> r.createdAt <= f.to.value)
  }

  predicate WantedByRange(f: Filter, r: Row) {
    && WantedByTime(f, r)
    && (f.minAmount.Some? ==> r.amount >= f.minAmount.value)
    && (f.maxAmount.Some? ==> r.amount <= f.maxAmount.value)
  }

  /** The rows a caller asks for: those that meet every field that is set. */
  predicate Wanted(f: Filter, r: Row) {
    WantedByText(f, r) && WantedByRange(f, r)
  }

  // ------------------------------------------------------------ the query as the database reads it

  datatype Value = Text(text: string) | Number(number: int)

  /** The clause templates; each has one placeholder, which BicIs uses twice. */
  datatype Template = StatusIs | BicIs | CreatedFrom | CreatedTo | AmountFrom | AmountTo

  /** A template with its placeholder filled in: `$arg` is the arg-th argument, counted from 1. */
  datatype Clause = Clause(template: Template, arg: nat)

  datatype Query = Query(clauses: seq<Clause>, args: seq<Value>)

  datatype PagedQuery = PagedQuery(query: Query, limitArg: nat, offsetArg: nat)

  /** Whether a row meets a template whose placeholder stands for v; a value of the wrong type never does. */
  predicate Meets(t: Template, v: Value, r: Row) {
    match (t, v)
    case (StatusIs, Text(s)) => r.status == s
    case (BicIs, Text(s)) => r.sourceBIC == s || r.destinationBIC == s
    case (CreatedFrom, Number(n)) => r.createdAt >= n
    case (CreatedTo, Number(n)) => r.createdAt <= n
    case (AmountFrom, Number(n)) => r.amount >= n
    case (AmountTo, Number(n)) => r.amount <= n
    case _ => false
  }

  /** A clause reads its argument by position; a position without argument is an error, never true. */
  predicate Holds(c: Clause, args: seq<Value>, r: Row) {
    1 <= c.arg <= |args| && Meets(c.template, args[c.arg - 1], r)
  }

  predicate Selects(q: Query, args: seq<Value>, r: Row) {
    forall i :: 0 <= i < |q.clauses| ==> Holds(q.clauses[i], args, r)
  }

  // ------------------------------------------------------------ building it

  predicate Bound(q: Query) {
    forall i :: 0 <= i < |q.clauses| ==> 1 <= q.clauses[i].arg <= |q.args|
  }

  class QueryBuilder {
    var clauses: seq<Clause>
    var args: seq<Value>

    ghost function Contents(): Query
      reads this
    {
      Query(clauses, args)
    }

    constructor ()
      ensures Contents() == Query([], [])
    {
      clauses, args := [], [];
    }

    /** The addFilter closure: append the value, then the clause that names its position. */
    method AddFilter(t: Template, v: Value)
      requires Bound(Contents())
      modifies this
      ensures Bound(Contents())
      ensures |clauses| == |old(clauses)| + 1 && |args| == |old(args)| + 1
      ensures forall r :: Selects(Contents(), args, r) <==> Selects(old(Contents()), old(args), r) && Meets(t, v, r)
    {
      ghost var before := Contents();
      args := args + [v];
      clauses := clauses + [Clause(t, |args|)];
      forall r
        ensures Selects(Contents(), args, r) <==> Selects(before, before.args, r) && Meets(t, v, r)
      {
        SelectsAppend(before, t, v, r);
      }
    }

    /** The status and BIC filters. */
    method AddTextFilters(f: Filter)
      requires Contents() == Query([], [])
      modifies this
      ensures Bound(Contents()) && |args| == |clauses|
      ensures forall r :: Selects(Contents(), args, r) <==> WantedByText(f, r)
    {
      if f.status != "" {
        AddFilter(StatusIs, Text(f.status));
      }
      assert forall r :: Selects(Contents(), args, r) <==> (f.status != "" ==> r.status == f.status);
      if f.bic != "" {
        AddFilter(BicIs, Text(f.bic));
      }
    }

    /** The filters on creation time and amount. */
    method AddRangeFilters(f: Filter)
      requires Bound(Contents()) && |args| == |clauses|
      modifies this
      ensures Bound(Contents()) && |args| == |clauses|
      ensures forall r :: Selects(Contents(), args, r) <==>
                Selects(old(Contents()), old(args), r) && WantedByRange(f, r)
    {
      if f.from.Some? {
        AddFilter(CreatedFrom, Number(f.from.value));
      }
      if f.to.Some? {
        AddFilter(CreatedTo, Number(f.to.value));
      }
      assert forall r :: Selects(Contents(), args, r) <==>
        Selects(old(Contents()), old(args), r) && WantedByTime(f, r);
      if f.minAmount.Some? {
        AddFilter(AmountFrom, Number(f.minAmount.value));
      }
      if f.maxAmount.Some? {
        AddFilter(AmountTo, Number(f.maxAmount.value));
      }
    }

    /** The filter and paging part of ListTransactions; the count query runs on `filtered`. */
    method Build(f: Filter) returns (filtered: Query, paged: PagedQuery)
      requires Contents() == Query([], [])
      modifies this
      ensures Answers(filtered, f) && |filtered.args| == |filtered.clauses|
      ensures PagesOf(paged, filtered, f)
    {
      AddTextFilters(f);
      AddRangeFilters(f);
      filtered := Query(clauses, args);
      var offset := (f.page - 1) * f.pageSize;
      args := args + [Number(f.pageSize), Number(offset)];
      paged := PagedQuery(Query(clauses, args), |args| - 1, |args|);
    }
  }

  lemma SelectsAppend(q: Query, t: Template, v: Value, r: Row)
    requires Bound(q)
    ensures var q' := Query(q.clauses + [Clause(t, |q.args| + 1)], q.args + [v]);
            Bound(q') && (Selects(q', q'.args, r) <==> Selects(q, q.args, r) && Meets(t, v, r))
  {
    var q' := Query(q.clauses + [Clause(t, |q.args| + 1)], q.args + [v]);
    var n := |q.clauses|;
    assert q'.clauses[n] == Clause(t, |q.args| + 1);
    if Selects(q', q'.args, r) {
      assert Holds(q'.clauses[n], q'.args, r);
      forall i | 0 <= i < n
        ensures Holds(q.clauses[i], q.args, r)
      {
        assert Holds(q'.clauses[i], q'.args, r);
      }
    }
  }

  /** More arguments at the end, such as the page arguments, do not change what the clauses select. */
  lemma PageArgumentsAreNeutral(q: Query, more: seq<Value>, r: Row)
    requires Bound(q)
    ensures Selects(Query(q.clauses, q.args + more), q.args + more, r) <==> Selects(q, q.args, r)
  {
    var q' := Query(q.clauses, q.args + more);
    forall i | 0 <= i < |q.clauses|
      ensures Holds(q'.clauses[i], q'.args, r) <==> Holds(q.clauses[i], q.args, r)
    {
    }
    if Selects(q', q'.args, r) {
      forall i | 0 <= i < |q.clauses|
        ensures Holds(q.clauses[i], q.args, r)
      {
        assert Holds(q'.clauses[i], q'.args, r);
      }
    }
  }

  // ------------------------------------------------------------ answering it

  /** The selected rows of a table, in the order of the table. */
  function SelectFrom(table: seq<Row>, q: Query): seq<Row> {
    if table == [] then []
    else
      var n := |table| - 1;
      if Selects(q, q.args, table[n]) then SelectFrom(table[..n], q) + [table[n]] else SelectFrom(table[..n], q)
  }

  function AllWanted(table: seq<Row>, f: Filter): seq<Row> {
    if table == [] then []
    else
      var n := |table| - 1;
      if Wanted(f, table[n]) then AllWanted(table[..n], f) + [table[n]] else AllWanted(table[..n], f)
  }

  function Min(a: int, b: int): int {
    if a < b then a else b
  }

  /** LIMIT and OFFSET, bound by position; the database refuses negative ones. */
  function Page(rows: seq<Row>, args: seq<Value>, limitArg: nat, offsetArg: nat): Option<seq<Row>>
    requires 1 <= limitArg <= |args| && 1 <= offsetArg <= |args|
  {
    match (args[limitArg - 1], args[offsetArg - 1])
    case (Number(limit), Number(offset)) =>
      if limit < 0 || offset < 0 then None
      else Some(rows[Min(offset, |rows|)..Min(offset + limit, |rows|)])
    case _ => None
  }

  /** The answer to a list request: what the built query returns over a table in a fixed order. */
  function Listed(table: seq<Row>, paged: PagedQuery): Option<seq<Row>>
    requires 1 <= paged.limitArg <= |paged.query.args| && 1 <= paged.offsetArg <= |paged.query.args|
  {
    Page(SelectFrom(table, paged.query), paged.query.args, paged.limitArg, paged.offsetArg)
  }

  /** A query that selects the wanted rows one by one selects them from every table. */
  lemma {:induction false} SelectsWanted(table: seq<Row>, q: Query, f: Filter)
    requires Answers(q, f)
    ensures SelectFrom(table, q) == AllWanted(table, f)
    decreases |table|
  {
    if table != [] {
      SelectsWanted(table[..|table| - 1], q, f);
    }
  }

  /** Page p of the wanted rows. */
  function PageRows(rows: seq<Row>, page: int, size: int): Option<seq<Row>> {
    var offset := (page - 1) * size;
    if size < 0 || offset < 0 then None else Some(rows[Min(offset, |rows|)..Min(offset + size, |rows|)])
  }

  /** The page arguments stand at the last two positions. */
  lemma LastTwoArguments(rows: seq<Row>, args: seq<Value>, page: int, size: int)
    ensures var all := args + [Number(size), Number((page - 1) * size)];
            Page(rows, all, |all| - 1, |all|) == PageRows(rows, page, size)
  {
    var all := args + [Number(size), Number((page - 1) * size)];
    assert all[|args|] == Number(size) && all[|args| + 1] == Number((page - 1) * size);
  }

  /** A query for the wanted rows, whose clauses are all bound to its arguments. */
  ghost predicate Answers(q: Query, f: Filter) {
    Bound(q) && forall r :: Selects(q, q.args, r) <==> Wanted(f, r)
  }

  /** The query q with the two page arguments appended. */
  ghost predicate PagesOf(paged: PagedQuery, q: Query, f: Filter) {
    && paged.query == Query(q.clauses, q.args + [Number(f.pageSize), Number((f.page - 1) * f.pageSize)])
    && paged.limitArg == |paged.query.args| - 1
    && paged.offsetArg == |paged.query.args|
  }

  lemma PagedSelects(f: Filter, filtered: Query, more: seq<Value>)
    requires Answers(filtered, f)
    ensures Answers(Query(filtered.clauses, filtered.args + more), f)
  {
    var q := Query(filtered.clauses, filtered.args + more);
    forall r
      ensures Selects(q, q.args, r) <==> Wanted(f, r)
    {
      PageArgumentsAreNeutral(filtered, more, r);
    }
  }

  /**
   * Whatever the filter and the table, the query that Build produces returns page `page` of exactly
   * the rows that meet all set fields, and the count query counts exactly those rows.
   */
  lemma {:induction false} BuiltQueryAnswersFilter(table: seq<Row>, f: Filter, filtered: Query, paged: PagedQuery)
    requires Answers(filtered, f) && PagesOf(paged, filtered, f)
    ensures SelectFrom(table, filtered) == AllWanted(table, f)
    ensures Listed(table, paged) == PageRows(AllWanted(table, f), f.page, f.pageSize)
  {
    PagedSelects(f, filtered, [Number(f.pageSize), Number((f.page - 1) * f.pageSize)]);
    SelectsWanted(table, filtered, f);
    SelectsWanted(table, paged.query, f);
    LastTwoArguments(AllWanted(table, f), filtered.args, f.page, f.pageSize);
  }

  /** Pages 1..k one after the other. */
  function Pages(rows: seq<Row>, k: nat, size: nat): seq<Row> {
    if k == 0 then []
    else Pages(rows, k - 1, size) + match PageRows(rows, k, size) case Some(p) => p case None => []
  }

  /** Pages 1..k concatenate to the first k*size rows, without overlap or gap; enough pages give everything. */
  lemma {:induction false} PagesConcatenate(rows: seq<Row>, k: nat, size: nat)
    ensures Pages(rows, k, size) == rows[..Min(k * size, |rows|)]
    ensures |rows| <= k * size ==> Pages(rows, k, size) == rows
    decreases k
  {
    if k > 0 {
      PagesConcatenate(rows, k - 1, size);
      var low, high := Min((k - 1) * size, |rows|), Min(k * size, |rows|);
      assert (k - 1) * size + size == k * size;
      assert (k - 1) * size >= 0;
      assert rows[..high] == rows[..low] + rows[low..high];
    }
    assert rows[..|rows|] == rows;
  }
}
