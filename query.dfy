/** The list query of `get_movimentacoes`: the SQL text and parameter list
    the handler assembles from the optional `dataInicio` and `dataFim`
    arguments, and the row predicate that text denotes. */
module ListQuery {

  import opened Wrappers
  import opened Sql

  /** One `AND` condition of the `WHERE` clause, with its bound. */
  datatype Clause = Since(bound: string) | Until(bound: string)

  const SelectAll := "SELECT * FROM movimentacoes WHERE 1=1"
  const SinceSql := " AND data >= ?"
  const UntilSql := " AND data <= ?"
  const OrderSql := " ORDER BY timestamp DESC"

  /** `if data_inicio:`: a missing argument and an empty one both add nothing. */
  predicate Given(arg: Option<string>)
  {
    arg.Some? && arg.value != ""
  }

  /** The conditions the handler adds, start bound first. */
  function Filters(dataInicio: Option<string>, dataFim: Option<string>): seq<Clause>
  {
    (if Given(dataInicio) then [Since(dataInicio.value)] else [])
    + (if Given(dataFim) then [Until(dataFim.value)] else [])
  }

  function ClauseSql(c: Clause): string
  {
    match c
    case Since(_) => SinceSql
    case Until(_) => UntilSql
  }

  function ConditionsSql(cs: seq<Clause>): string
  {
    if cs == [] then "" else ClauseSql(cs[0]) + ConditionsSql(cs[1..])
  }

  /** The statement text for a list of conditions. */
  function Render(cs: seq<Clause>): string
  {
    SelectAll + ConditionsSql(cs) + OrderSql
  }

  /** Every statement starts by selecting all rows with the neutral
      condition `1=1`, and ends with the newest-first ordering. */
  lemma RenderShape(cs: seq<Clause>)
    ensures |Render(cs)| >= |SelectAll| + |OrderSql|
    ensures Render(cs)[..|SelectAll|] == SelectAll
    ensures Render(cs)[|Render(cs)| - |OrderSql|..] == OrderSql
  {
    var q := Render(cs);
    assert q == SelectAll + (ConditionsSql(cs) + OrderSql);
    assert q == (SelectAll + ConditionsSql(cs)) + OrderSql;
  }

  /** The bounds, in the order their `?` appear. */
  function Params(cs: seq<Clause>): (ps: seq<string>)
    ensures |ps| == |cs|
    ensures forall i :: 0 <= i < |cs| ==> ps[i] == cs[i].bound
  {
    if cs == [] then [] else [cs[0].bound] + Params(cs[1..])
  }

  /** The number of `?` placeholders in a statement. */
  function Placeholders(s: string): nat
  {
    if s == [] then 0 else (if s[0] == '?' then 1 else 0) + Placeholders(s[1..])
  }

  lemma {:induction false} NoPlaceholders(s: string)
    requires '?' !in s
    ensures Placeholders(s) == 0
  {
    if s != [] {
      assert s[0] in s;
      NoPlaceholders(s[1..]);
    }
  }

  lemma {:induction false} PlaceholdersAppend(a: string, b: string)
    ensures Placeholders(a + b) == Placeholders(a) + Placeholders(b)
  {
    if a == [] {
      assert a + b == b;
    } else {
      assert (a + b)[0] == a[0];
      assert (a + b)[1..] == a[1..] + b;
      PlaceholdersAppend(a[1..], b);
    }
  }

  lemma SelectAllPlaceholders()
    ensures Placeholders(SelectAll) == 0
  {
    assert '?' !in SelectAll;
    NoPlaceholders(SelectAll);
  }

  lemma OrderSqlPlaceholders()
    ensures Placeholders(OrderSql) == 0
  {
    assert '?' !in OrderSql;
    NoPlaceholders(OrderSql);
  }

  lemma SinceSqlPlaceholders()
    ensures Placeholders(SinceSql) == 1
  {
  }

  lemma UntilSqlPlaceholders()
    ensures Placeholders(UntilSql) == 1
  {
  }

  lemma ClausePlaceholders(c: Clause)
    ensures Placeholders(ClauseSql(c)) == 1
  {
    match c
    case Since(_) => SinceSqlPlaceholders();
    case Until(_) => UntilSqlPlaceholders();
  }

  lemma {:induction false} ConditionsPlaceholders(cs: seq<Clause>)
    ensures Placeholders(ConditionsSql(cs)) == |cs|
  {
    if cs != [] {
      ClausePlaceholders(cs[0]);
      PlaceholdersAppend(ClauseSql(cs[0]), ConditionsSql(cs[1..]));
      ConditionsPlaceholders(cs[1..]);
    }
  }

  /** Every rendered statement has exactly one placeholder per parameter,
      so `conn.execute` never sees a count mismatch. */
  lemma RenderedPlaceholders(cs: seq<Clause>)
    ensures Placeholders(Render(cs)) == |Params(cs)|
  {
    var conditions := ConditionsSql(cs);
    PlaceholdersAppend(SelectAll, conditions);
    PlaceholdersAppend(SelectAll + conditions, OrderSql);
    SelectAllPlaceholders();
    OrderSqlPlaceholders();
    ConditionsPlaceholders(cs);
  }

  predicate Holds(c: Clause, data: SqlValue)
  {
    match c
    case Since(b) => AtLeast(data, b)
    case Until(b) => AtMost(data, b)
  }

  /** A row with this `data` column passes every condition of the `WHERE` clause. */
  predicate Satisfies(data: SqlValue, cs: seq<Clause>)
  {
    forall i :: 0 <= i < |cs| ==> Holds(cs[i], data)
  }

  /** The query selects the rows whose `data` lies between the given bounds,
      each bound only when it was given and non-empty. */
  lemma FiltersMeaning(dataInicio: Option<string>, dataFim: Option<string>, data: SqlValue)
    ensures Satisfies(data, Filters(dataInicio, dataFim)) <==>
              (Given(dataInicio) ==> AtLeast(data, dataInicio.value))
              && (Given(dataFim) ==> AtMost(data, dataFim.value))
  {
    var cs := Filters(dataInicio, dataFim);
    if Given(dataInicio) && Given(dataFim) {
      assert cs == [Since(dataInicio.value), Until(dataFim.value)];
      assert Satisfies(data, cs) <==> Holds(cs[0], data) && Holds(cs[1], data);
    } else if Given(dataInicio) {
      assert cs == [Since(dataInicio.value)];
      assert Satisfies(data, cs) <==> Holds(cs[0], data);
    } else if Given(dataFim) {
      assert cs == [Until(dataFim.value)];
      assert Satisfies(data, cs) <==> Holds(cs[0], data);
    } else {
      assert cs == [];
    }
  }

  /** The condition text that the two filters contribute, start bound first. */
  lemma FiltersSql(dataInicio: Option<string>, dataFim: Option<string>)
    ensures ConditionsSql(Filters(dataInicio, dataFim)) ==
              (if Given(dataInicio) then SinceSql else "") + (if Given(dataFim) then UntilSql else "")
  {
    var cs := Filters(dataInicio, dataFim);
    if cs != [] {
      assert ConditionsSql(cs) == ClauseSql(cs[0]) + ConditionsSql(cs[1..]);
      if |cs| == 2 {
        assert cs[1..] == [cs[1]];
        assert ConditionsSql(cs[1..]) == ClauseSql(cs[1]) + ConditionsSql([]);
      } else {
        assert cs[1..] == [];
      }
    }
  }

  /** The handler's construction, step by step as `query_str +=` and
      `params.append` build it. */
  method BuildQuery(dataInicio: Option<string>, dataFim: Option<string>) returns (query: string, params: seq<string>)
    ensures query == Render(Filters(dataInicio, dataFim))
    ensures params == (if Given(dataInicio) then [dataInicio.value] else [])
                      + (if Given(dataFim) then [dataFim.value] else [])
    ensures params == Params(Filters(dataInicio, dataFim))
    ensures Placeholders(query) == |params|
  {
    query := SelectAll;
    params := [];
    ghost var conditions := "";
    if Given(dataInicio) {
      query := query + SinceSql;
      conditions := conditions + SinceSql;
      params := params + [dataInicio.value];
    }
    if Given(dataFim) {
      assert query + UntilSql == SelectAll + (conditions + UntilSql);
      query := query + UntilSql;
      conditions := conditions + UntilSql;
      params := params + [dataFim.value];
    }
    assert query == SelectAll + conditions;
    query := query + OrderSql;
    FiltersSql(dataInicio, dataFim);
    assert conditions == ConditionsSql(Filters(dataInicio, dataFim));
    RenderedPlaceholders(Filters(dataInicio, dataFim));
  }

}
