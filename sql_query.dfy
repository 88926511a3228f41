/**
 * The list handlers build their SQL text one `query +=` at a time and push
 * one parameter per `$n` placeholder. A query is modelled as the sequence of
 * those appended pieces, each a `Clause` whose `ClauseText` is the SQL it
 * adds (white space normalised). `Run` gives the meaning of such a query over
 * a table: the `AND column = $k` conditions bound to their parameters, the
 * ORDER BY as a comparator, and `LIMIT $k` bound to its parameter.
 */
module Sql {
  import opened Wrappers
  import opened Ordering
  import JsText

  /** A bound query parameter. */
  datatype SqlValue = Text(text: string) | Bool(flag: bool) | Int(number: int)

  /** One `query +=` of a list handler. */
  datatype Clause =
    | SelectWhereTrue(columns: string, from: string)
    | AndEquals(column: string, index: nat)
    | OrderBy(keys: string)
    | Limit(index: nat)

  function ClauseText(c: Clause): string {
    match c
    case SelectWhereTrue(columns, from) => "SELECT " + columns + " FROM " + from + " WHERE 1=1"
    case AndEquals(column, index) => " AND " + column + " = $" + JsText.NatToDecimal(index)
    case OrderBy(keys) => " ORDER BY " + keys
    case Limit(index) => " LIMIT $" + JsText.NatToDecimal(index)
  }

  /** The SQL text of a whole query. */
  function QueryText(q: seq<Clause>): string {
    if q == [] then "" else ClauseText(q[0]) + QueryText(q[1..])
  }

  predicate HasPlaceholder(c: Clause) { c.AndEquals? || c.Limit? }

  /** The placeholder numbers in the order they appear in the text. */
  function Placeholders(q: seq<Clause>): seq<nat> {
    if q == [] then []
    else (if HasPlaceholder(q[0]) then [q[0].index] else []) + Placeholders(q[1..])
  }

  /** `[1, 2, ..., n]`. */
  function Numbered(n: nat): (r: seq<nat>)
    ensures |r| == n && forall i :: 0 <= i < n ==> r[i] == i + 1
  {
    seq(n, i => i + 1)
  }

  /** Every placeholder names one of the `n` parameters. */
  predicate Bound(q: seq<Clause>, n: nat) {
    forall i :: 0 <= i < |q| && HasPlaceholder(q[i]) ==> 1 <= q[i].index <= n
  }

  lemma {:induction false} PlaceholderListed(q: seq<Clause>, i: nat)
    requires i < |q| && HasPlaceholder(q[i])
    ensures q[i].index in Placeholders(q)
  {
    if i > 0 {
      PlaceholderListed(q[1..], i - 1);
    }
  }

  /** Placeholders numbered `$1..$n` refer to parameters that exist. */
  lemma NumberedIsBound(q: seq<Clause>, n: nat)
    requires Placeholders(q) == Numbered(n)
    ensures Bound(q, n)
  {
    forall i | 0 <= i < |q| && HasPlaceholder(q[i]) ensures 1 <= q[i].index <= n {
      PlaceholderListed(q, i);
    }
  }

  /**
   * Parameter `$k`. `Run` only reads parameters of a bound query, so the
   * fallback for a parameter that does not exist is never reached there.
   */
  function Arg(args: seq<SqlValue>, k: nat): SqlValue {
    if 1 <= k <= |args| then args[k - 1] else Text("")
  }

  datatype Condition = Condition(column: string, value: SqlValue)

  /** The `AND column = $k` conditions, each compared with parameter `k`. */
  function Conditions(q: seq<Clause>, args: seq<SqlValue>): seq<Condition> {
    if q == [] then []
    else
      (if q[0].AndEquals? then [Condition(q[0].column, Arg(args, q[0].index))] else [])
      + Conditions(q[1..], args)
  }

  /** The row count the `LIMIT $k` clause asks for, if any. */
  function LimitOf(q: seq<Clause>, args: seq<SqlValue>): Option<nat> {
    if q == [] then None
    else if q[0].Limit? && Arg(args, q[0].index).Int? && Arg(args, q[0].index).number >= 0
    then Some(Arg(args, q[0].index).number)
    else LimitOf(q[1..], args)
  }

  /** A row's value in a named column (`None` for a column the row lacks). */
  predicate Satisfies<R>(row: R, conds: seq<Condition>, column: (R, string) -> Option<SqlValue>) {
    forall i :: 0 <= i < |conds| ==> column(row, conds[i].column) == Some(conds[i].value)
  }

  /** The rows `keep` accepts, ordered by `before`, cut to `limit`. */
  function SelectRows<R>(rows: seq<R>, keep: R -> bool, before: (R, R) -> bool, limit: Option<nat>)
    : seq<R>
  {
    Limited(SortBy(Filter(rows, keep), before), limit)
  }

  /** What the engine returns for query `q` with parameters `args` over `rows`. */
  function Run<R>(q: seq<Clause>, args: seq<SqlValue>, rows: seq<R>,
                  column: (R, string) -> Option<SqlValue>, before: (R, R) -> bool): seq<R>
    requires Bound(q, |args|)
  {
    var conds := Conditions(q, args);
    SelectRows(rows, r => Satisfies(r, conds, column), before, LimitOf(q, args))
  }

  /** Only stored rows that pass the conditions are returned. */
  lemma SelectRowsSound<R>(rows: seq<R>, keep: R -> bool, before: (R, R) -> bool, limit: Option<nat>, x: R)
    requires x in SelectRows(rows, keep, before, limit)
    ensures x in rows && keep(x)
  {
    var sorted := SortBy(Filter(rows, keep), before);
    assert x in sorted;
    assert x in multiset(Filter(rows, keep));
  }

  /** Without a limit, every stored row that passes the conditions is returned. */
  lemma SelectRowsComplete<R>(rows: seq<R>, keep: R -> bool, before: (R, R) -> bool, x: R)
    requires x in rows && keep(x)
    ensures x in SelectRows(rows, keep, before, None)
  {
    var filtered := Filter(rows, keep);
    assert x in filtered;
    assert x in multiset(SortBy(filtered, before));
  }

  /** The result is in ORDER BY order. */
  lemma SelectRowsSorted<R(!new)>(rows: seq<R>, keep: R -> bool, before: (R, R) -> bool, limit: Option<nat>)
    requires TotalPreorder(before)
    ensures Sorted(SelectRows(rows, keep, before, limit), before)
  {
    SortBySorted(Filter(rows, keep), before);
  }

  /** Without a limit the result is a reordering of the matching rows. */
  lemma SelectRowsPermutes<R>(rows: seq<R>, keep: R -> bool, before: (R, R) -> bool)
    ensures multiset(SelectRows(rows, keep, before, None)) == multiset(Filter(rows, keep))
  {
  }

  /** Conditions that agree on every row select the same rows. */
  lemma SelectRowsExtensional<R>(rows: seq<R>, k1: R -> bool, k2: R -> bool,
                                 before: (R, R) -> bool, limit: Option<nat>)
    requires forall i :: 0 <= i < |rows| ==> k1(rows[i]) == k2(rows[i])
    ensures SelectRows(rows, k1, before, limit) == SelectRows(rows, k2, before, limit)
  {
    FilterExtensional(rows, k1, k2);
  }

  lemma {:induction false} PlaceholdersAppend(a: seq<Clause>, b: seq<Clause>)
    ensures Placeholders(a + b) == Placeholders(a) + Placeholders(b)
  {
    if a != [] {
      assert (a + b)[1..] == a[1..] + b;
      PlaceholdersAppend(a[1..], b);
    } else {
      assert a + b == b;
    }
  }

  lemma {:induction false} ConditionsAppend(a: seq<Clause>, b: seq<Clause>, args: seq<SqlValue>)
    ensures Conditions(a + b, args) == Conditions(a, args) + Conditions(b, args)
  {
    if a == [] {
      assert a + b == b;
    } else {
      assert (a + b)[0] == a[0];
      assert (a + b)[1..] == a[1..] + b;
      ConditionsAppend(a[1..], b, args);
    }
  }

  lemma {:induction false} LimitOfAppend(a: seq<Clause>, b: seq<Clause>, args: seq<SqlValue>)
    ensures LimitOf(a + b, args) == if LimitOf(a, args).Some? then LimitOf(a, args) else LimitOf(b, args)
  {
    if a == [] {
      assert a + b == b;
    } else {
      var ab := a + b;
      assert ab[0] == a[0];
      assert ab[1..] == a[1..] + b;
      LimitOfAppend(a[1..], b, args);
    }
  }

  /** ` AND c_1 = $from`, ` AND c_2 = $(from+1)`, ...: one clause per supplied filter. */
  function FilterClauses(columns: seq<string>, from: nat): seq<Clause> {
    if columns == [] then [] else [AndEquals(columns[0], from)] + FilterClauses(columns[1..], from + 1)
  }

  /** Appending one more filter numbers it after the ones already there. */
  lemma {:induction false} FilterClausesSnoc(filters: seq<string>, column: string, from: nat)
    ensures FilterClauses(filters + [column], from)
         == FilterClauses(filters, from) + [AndEquals(column, from + |filters|)]
  {
    if filters != [] {
      assert (filters + [column])[1..] == filters[1..] + [column];
      FilterClausesSnoc(filters[1..], column, from + 1);
    } else {
      assert [column][1..] == [];
    }
  }

  /**
   * The shape every list handler builds: `SELECT ... WHERE 1=1`, one
   * condition per supplied filter, the fixed ORDER BY, and a LIMIT only when
   * the limit is truthy.
   */
  function ListQuery(columns: string, from: string, filters: seq<string>, order: string, limited: bool)
    : seq<Clause>
  {
    [SelectWhereTrue(columns, from)] + FilterClauses(filters, 1) + [OrderBy(order)]
    + (if limited then [Limit(|filters| + 1)] else [])
  }

  lemma {:induction false} FilterPlaceholders(filters: seq<string>, from: nat)
    ensures Placeholders(FilterClauses(filters, from)) == seq(|filters|, i => from + i)
  {
    if filters != [] {
      PlaceholdersAppend([AndEquals(filters[0], from)], FilterClauses(filters[1..], from + 1));
      FilterPlaceholders(filters[1..], from + 1);
    }
  }

  /** The placeholders of a list query are `$1..$n`, in order, one per parameter. */
  lemma ListQueryNumbered(columns: string, from: string, filters: seq<string>, order: string, limited: bool)
    ensures Placeholders(ListQuery(columns, from, filters, order, limited))
         == Numbered(|filters| + Count(limited))
  {
    var a := [SelectWhereTrue(columns, from)];
    var b := FilterClauses(filters, 1);
    var c := [OrderBy(order)];
    var d := if limited then [Limit(|filters| + 1)] else [];
    PlaceholdersAppend(a + b + c, d);
    PlaceholdersAppend(a + b, c);
    PlaceholdersAppend(a, b);
    FilterPlaceholders(filters, 1);
  }

  lemma {:induction false} FilterConditions(filters: seq<string>, from: nat, args: seq<SqlValue>)
    requires 1 <= from && from - 1 + |filters| <= |args|
    ensures Conditions(FilterClauses(filters, from), args)
         == seq(|filters|, i requires 0 <= i < |filters| => Condition(filters[i], args[from - 1 + i]))
    ensures LimitOf(FilterClauses(filters, from), args) == None
  {
    if filters != [] {
      var head := [AndEquals(filters[0], from)];
      var tail := FilterClauses(filters[1..], from + 1);
      FilterConditions(filters[1..], from + 1, args);
      ConditionsAppend(head, tail, args);
      LimitOfAppend(head, tail, args);
      var r := seq(|filters|, i requires 0 <= i < |filters| => Condition(filters[i], args[from - 1 + i]));
      var rest := seq(|filters| - 1, i requires 0 <= i < |filters| - 1 => Condition(filters[1..][i], args[from + i]));
      assert Conditions(head, args) == [r[0]];
      assert rest == r[1..];
      assert r == [r[0]] + r[1..];
    }
  }

  /** The placeholders of a list query name parameters that exist. */
  lemma ListQueryBound(columns: string, from: string, filters: seq<string>, order: string, limited: bool, n: nat)
    requires n == |filters| + Count(limited)
    ensures Bound(ListQuery(columns, from, filters, order, limited), n)
  {
    ListQueryNumbered(columns, from, filters, order, limited);
    NumberedIsBound(ListQuery(columns, from, filters, order, limited), n);
  }

  /** The clauses of a list query before its LIMIT. */
  function ListQueryHead(columns: string, from: string, filters: seq<string>, order: string): seq<Clause> {
    [SelectWhereTrue(columns, from)] + FilterClauses(filters, 1) + [OrderBy(order)]
  }

  lemma ListQueryHeadConditions(columns: string, from: string, filters: seq<string>, order: string,
                                args: seq<SqlValue>)
    requires |filters| <= |args|
    ensures Conditions(ListQueryHead(columns, from, filters, order), args)
         == seq(|filters|, i requires 0 <= i < |filters| => Condition(filters[i], args[i]))
  {
    var a := [SelectWhereTrue(columns, from)];
    var b := FilterClauses(filters, 1);
    var c := [OrderBy(order)];
    ConditionsAppend(a + b, c, args);
    ConditionsAppend(a, b, args);
    FilterConditions(filters, 1, args);
    var got := seq(|filters|, i requires 0 <= i < |filters| => Condition(filters[i], args[1 - 1 + i]));
    var want := seq(|filters|, i requires 0 <= i < |filters| => Condition(filters[i], args[i]));
    assert got == want;
    calc {
      Conditions(a + b + c, args);
      Conditions(a, args) + Conditions(b, args) + Conditions(c, args);
      [] + got + [];
      want;
    }
  }

  lemma ListQueryHeadLimit(columns: string, from: string, filters: seq<string>, order: string,
                           args: seq<SqlValue>)
    requires |filters| <= |args|
    ensures LimitOf(ListQueryHead(columns, from, filters, order), args) == None
  {
    var a := [SelectWhereTrue(columns, from)];
    var b := FilterClauses(filters, 1);
    var c := [OrderBy(order)];
    LimitOfAppend(a + b, c, args);
    LimitOfAppend(a, b, args);
    FilterConditions(filters, 1, args);
    assert LimitOf(a, args) == None && LimitOf(c, args) == None;
  }

  /** Filter `i` of a list query is compared with parameter `i`. */
  lemma ListQueryConditions(columns: string, from: string, filters: seq<string>, order: string, limited: bool,
                            args: seq<SqlValue>)
    requires |args| == |filters| + Count(limited)
    ensures Conditions(ListQuery(columns, from, filters, order, limited), args)
         == seq(|filters|, i requires 0 <= i < |filters| => Condition(filters[i], args[i]))
  {
    var head := ListQueryHead(columns, from, filters, order);
    var d := if limited then [Limit(|filters| + 1)] else [];
    assert ListQuery(columns, from, filters, order, limited) == head + d;
    ConditionsAppend(head, d, args);
    ListQueryHeadConditions(columns, from, filters, order, args);
    assert Conditions(d, args) == [];
  }

  /** The LIMIT of a list query reads the parameter after the filters. */
  lemma ListQueryLimit(columns: string, from: string, filters: seq<string>, order: string, limited: bool,
                       args: seq<SqlValue>)
    requires |args| == |filters| + Count(limited)
    ensures LimitOf(ListQuery(columns, from, filters, order, limited), args)
         == if limited && args[|filters|].Int? && args[|filters|].number >= 0
            then Some(args[|filters|].number) else None
  {
    var head := ListQueryHead(columns, from, filters, order);
    var d := if limited then [Limit(|filters| + 1)] else [];
    assert ListQuery(columns, from, filters, order, limited) == head + d;
    LimitOfAppend(head, d, args);
    ListQueryHeadLimit(columns, from, filters, order, args);
    if limited {
      assert d[1..] == [];
      assert Arg(args, |filters| + 1) == args[|filters|];
    }
  }

  /**
   * Binding a list query to its parameters: filter `i` is compared with
   * parameter `i`, and the limit is the parameter after the filters.
   */
  lemma ListQueryBinds(columns: string, from: string, filters: seq<string>, order: string, limited: bool,
                       args: seq<SqlValue>)
    requires |args| == |filters| + Count(limited)
    ensures Bound(ListQuery(columns, from, filters, order, limited), |args|)
    ensures Conditions(ListQuery(columns, from, filters, order, limited), args)
         == seq(|filters|, i requires 0 <= i < |filters| => Condition(filters[i], args[i]))
    ensures LimitOf(ListQuery(columns, from, filters, order, limited), args)
         == if limited && args[|filters|].Int? && args[|filters|].number >= 0
            then Some(args[|filters|].number) else None
  {
    ListQueryBound(columns, from, filters, order, limited, |args|);
    ListQueryConditions(columns, from, filters, order, limited, args);
    ListQueryLimit(columns, from, filters, order, limited, args);
  }

  /** JavaScript truthiness of an optional number: absent and 0 are falsy. */
  predicate Truthy(n: Option<nat>) { n.Some? && n.value != 0 }

  /** The limit a handler applies: `if (params.limit)` skips absent and 0. */
  function EffectiveLimit(limit: Option<nat>): (r: Option<nat>)
    ensures r.Some? <==> Truthy(limit)
    ensures r.Some? ==> r == limit && r.value > 0
  {
    if Truthy(limit) then limit else None
  }

  function Count(b: bool): nat { if b then 1 else 0 }
}
