/** The query-text builders of db.py (`insert_record`, `update_record`,
    `delete_record`) and the way the driver pairs their `%s` placeholders with
    the parameter list. */
module SqlText {
  import opened Common
  import opened Text

  /** One character of a bound statement: literal query text, or a parameter
      value standing where a `%s` placeholder was. */
  datatype Token<V> = Lit(c: char) | Arg(v: V)

  function Lits<V>(s: string): (r: seq<Token<V>>)
    ensures |r| == |s|
    ensures forall i :: 0 <= i < |s| ==> r[i] == Lit(s[i])
  {
    seq(|s|, i requires 0 <= i < |s| => Lit(s[i]))
  }

  /** The parameter values of a bound statement, left to right. */
  function Args<V>(ts: seq<Token<V>>): seq<V>
  {
    if |ts| == 0 then []
    else (if ts[0].Arg? then [ts[0].v] else []) + Args(ts[1..])
  }

  /** Puts one token in front of a successful binding; a failed binding
      stays failed. */
  function Prepend<V>(t: Token<V>, o: Option<seq<Token<V>>>): (r: Option<seq<Token<V>>>)
    ensures r.Some? <==> o.Some?
    ensures r.Some? ==> r.value == [t] + o.value && r.value[1..] == o.value
  {
    if o.None? then None else Some([t] + o.value)
  }

  /** The driver's parameter substitution: each `%s` takes the next parameter,
      `%%` stands for a literal `%`, any other `%` sequence is rejected, and
      the statement is rejected unless placeholders and parameters pair up
      exactly. */
  function Bind<V>(q: string, params: seq<V>): (r: Option<seq<Token<V>>>)
    ensures r.Some? ==> Args(r.value) == params
    decreases |q|
  {
    if |q| == 0 then
      if |params| == 0 then Some([]) else None
    else if q[0] == '%' && |q| >= 2 && q[1] == 's' then
      if |params| == 0 then None else Prepend(Arg(params[0]), Bind(q[2..], params[1..]))
    else if q[0] == '%' && |q| >= 2 && q[1] == '%' then
      Prepend(Lit('%'), Bind(q[2..], params))
    else if q[0] == '%' then
      None
    else
      Prepend(Lit(q[0]), Bind(q[1..], params))
  }

  // One-step unfoldings of Bind, kept apart so that larger proofs do not
  // unfold the definition themselves.

  lemma UnfoldLit<V>(a: string, p: seq<V>)
    requires |a| > 0 && a[0] != '%'
    ensures Bind(a, p) == Prepend(Lit(a[0]), Bind(a[1..], p))
  {
  }

  lemma UnfoldArg<V>(a: string, p: seq<V>)
    requires |a| >= 2 && a[0] == '%' && a[1] == 's' && |p| > 0
    ensures Bind(a, p) == Prepend(Arg(p[0]), Bind(a[2..], p[1..]))
  {
  }

  lemma UnfoldPercent<V>(a: string, p: seq<V>)
    requires |a| >= 2 && a[0] == '%' && a[1] == '%'
    ensures Bind(a, p) == Prepend(Lit('%'), Bind(a[2..], p))
  {
  }

  /** A successful binding of `%`-led text starts with `%s` or `%%`. */
  lemma UnfoldPercentShape<V>(a: string, p: seq<V>)
    requires |a| > 0 && a[0] == '%' && Bind(a, p).Some?
    ensures |a| >= 2 && (a[1] == 's' || a[1] == '%')
    ensures a[1] == 's' ==> |p| > 0
  {
  }

  lemma UnfoldEmpty<V>(p: seq<V>)
    requires Bind("", p).Some?
    ensures p == [] && Bind("", p).value == []
  {
  }

  lemma ConsAssoc<T>(h: T, x: seq<T>, y: seq<T>)
    ensures [h] + (x + y) == ([h] + x) + y
  {
  }

  lemma TailAppend<V>(p: seq<V>, p2: seq<V>)
    requires |p| > 0
    ensures (p + p2)[0] == p[0] && (p + p2)[1..] == p[1..] + p2
  {
  }

  lemma StepLit<V>(a: string, b: string, p: seq<V>)
    requires |a| > 0 && a[0] != '%'
    ensures Bind(a + b, p) == Prepend(Lit(a[0]), Bind(a[1..] + b, p))
  {
    var ab := a + b;
    assert ab[0] == a[0] && ab[1..] == a[1..] + b;
    UnfoldLit(ab, p);
  }

  lemma StepArg<V>(a: string, b: string, p: seq<V>)
    requires |a| >= 2 && a[0] == '%' && a[1] == 's' && |p| > 0
    ensures Bind(a + b, p) == Prepend(Arg(p[0]), Bind(a[2..] + b, p[1..]))
  {
    var ab := a + b;
    assert ab[0] == '%' && ab[1] == 's' && ab[2..] == a[2..] + b;
    UnfoldArg(ab, p);
  }

  lemma StepPercent<V>(a: string, b: string, p: seq<V>)
    requires |a| >= 2 && a[0] == '%' && a[1] == '%'
    ensures Bind(a + b, p) == Prepend(Lit('%'), Bind(a[2..] + b, p))
  {
    var ab := a + b;
    assert ab[0] == '%' && ab[1] == '%' && ab[2..] == a[2..] + b;
    UnfoldPercent(ab, p);
  }

  /** Binding distributes over concatenation of statement fragments that
      each bind on their own. */
  lemma {:induction false} BindAppend<V>(a: string, b: string, p: seq<V>, p2: seq<V>)
    requires Bind(a, p).Some? && Bind(b, p2).Some?
    ensures Bind(a + b, p + p2) == Some(Bind(a, p).value + Bind(b, p2).value)
    decreases |a|
  {
    if |a| == 0 {
      UnfoldEmpty(p);
      assert a + b == b && p + p2 == p2;
      assert [] + Bind(b, p2).value == Bind(b, p2).value;
    } else if a[0] != '%' {
      UnfoldLit(a, p);
      BindAppend(a[1..], b, p, p2);
      StepLit(a, b, p + p2);
      ConsAssoc(Lit(a[0]), Bind(a[1..], p).value, Bind(b, p2).value);
    } else {
      UnfoldPercentShape(a, p);
      if a[1] == 's' {
        UnfoldArg(a, p);
        BindAppend(a[2..], b, p[1..], p2);
        TailAppend(p, p2);
        StepArg(a, b, p + p2);
        ConsAssoc(Arg(p[0]), Bind(a[2..], p[1..]).value, Bind(b, p2).value);
      } else {
        UnfoldPercent(a, p);
        BindAppend(a[2..], b, p, p2);
        StepPercent(a, b, p + p2);
        ConsAssoc(Lit('%'), Bind(a[2..], p).value, Bind(b, p2).value);
      }
    }
  }

  /** Text without `%` binds to itself and takes no parameter. */
  lemma {:induction false} BindPlain<V>(s: string)
    requires Lacks(s, '%')
    ensures Bind<V>(s, []) == Some(Lits(s))
    decreases |s|
  {
    if |s| > 0 {
      assert s[0] != '%';
      UnfoldLit<V>(s, []);
      BindPlain<V>(s[1..]);
      assert Lits<V>(s) == [Lit(s[0])] + Lits(s[1..]);
    }
  }

  /** A lone placeholder takes exactly one parameter. */
  lemma BindOne<V>(v: V)
    ensures Bind("%s", [v]) == Some([Arg(v)])
  {
    var q := "%s";
    assert q[0] == '%' && q[1] == 's' && q[2..] == "";
    assert [v][1..] == [];
    assert Bind<V>("", []) == Some([]);
    assert [Arg(v)] + [] == [Arg(v)];
  }

  /** `%`-free text in front of a fragment that binds adds only literals. */
  lemma BindPlainThen<V>(s: string, rest: string, p: seq<V>)
    requires Lacks(s, '%')
    requires Bind(rest, p).Some?
    ensures Bind(s + rest, p) == Some(Lits(s) + Bind(rest, p).value)
  {
    BindPlain<V>(s);
    BindAppend(s, rest, [], p);
    assert [] + p == p;
  }

  lemma LacksAppend(a: string, b: string, c: char)
    requires Lacks(a, c) && Lacks(b, c)
    ensures Lacks(a + b, c)
  {
    forall i | 0 <= i < |a + b| ensures (a + b)[i] != c {
      if i >= |a| {
        assert (a + b)[i] == b[i - |a|];
      }
    }
  }

  // ------------------------------------------------------------ insert_record

  function Repeat(s: string, n: nat): (r: seq<string>)
    ensures |r| == n
    ensures forall i :: 0 <= i < n ==> r[i] == s
  {
    if n == 0 then [] else [s] + Repeat(s, n - 1)
  }

  /** `n` placeholders separated by comma and space. */
  function Placeholders(n: nat): string
  {
    Join(", ", Repeat("%s", n))
  }

  /** The insert statement: table, comma-separated column names, and one
      placeholder per value. */
  function InsertQuery<V>(table: string, columns: seq<string>, values: seq<V>): string
  {
    InsertHead(table, columns) + (Placeholders(|values|) + ")")
  }

  /** The statement up to the opening parenthesis of the value list. */
  function InsertHead(table: string, columns: seq<string>): string
  {
    "INSERT INTO " + table + " (" + Join(",", columns) + ") VALUES ("
  }

  /** The parameters in order, each separated from the next by ", ". */
  function ArgList<V>(ps: seq<V>): seq<Token<V>>
  {
    if |ps| == 0 then []
    else if |ps| == 1 then [Arg(ps[0])]
    else [Arg(ps[0])] + Lits(", ") + ArgList(ps[1..])
  }

  lemma PlaceholdersStep(n: nat)
    ensures Placeholders(n + 2) == "%s, " + Placeholders(n + 1)
  {
    assert Repeat("%s", n + 2)[1..] == Repeat("%s", n + 1);
  }

  lemma BindArgComma<V>(v: V)
    ensures Bind("%s, ", [v]) == Some([Arg(v)] + Lits(", "))
  {
    BindOne(v);
    BindPlain<V>(", ");
    BindAppend("%s", ", ", [v], []);
    assert [v] + [] == [v];
    assert "%s" + ", " == "%s, ";
  }

  /** The placeholder list takes exactly `n` parameters, in order. */
  lemma {:induction false} BindPlaceholders<V>(ps: seq<V>)
    ensures Bind(Placeholders(|ps|), ps) == Some(ArgList(ps))
    decreases |ps|
  {
    if |ps| == 0 {
    } else if |ps| == 1 {
      assert Placeholders(1) == "%s";
      BindOne(ps[0]);
      assert ps == [ps[0]];
    } else {
      BindPlaceholders(ps[1..]);
      BindMorePlaceholders(ps);
    }
  }

  /** A list of two or more placeholders takes the first parameter, then
      the rest as the shorter list does. */
  lemma {:induction false} BindMorePlaceholders<V>(ps: seq<V>)
    requires |ps| >= 2
    requires Bind(Placeholders(|ps| - 1), ps[1..]) == Some(ArgList(ps[1..]))
    ensures Bind(Placeholders(|ps|), ps) == Some(ArgList(ps))
  {
    PlaceholdersStep(|ps| - 2);
    BindArgComma(ps[0]);
    BindAppend("%s, ", Placeholders(|ps| - 1), [ps[0]], ps[1..]);
    assert [ps[0]] + ps[1..] == ps;
  }

  /** `insert_record`: with table and column names free of `%`, the driver
      accepts the value list, and the statement reads
      `INSERT INTO table (c1,c2,...) VALUES (v1, v2, ...)` with the values in
      the order given. The column count is not compared with the value count
      here; the database rejects a mismatch. */
  lemma InsertRecordBinds<V>(table: string, columns: seq<string>, values: seq<V>)
    requires Lacks(table, '%')
    requires forall i :: 0 <= i < |columns| ==> Lacks(columns[i], '%')
    ensures Bind(InsertQuery(table, columns, values), values)
            == Some(Lits(InsertHead(table, columns)) + ArgList(values) + Lits(")"))
  {
    InsertHeadLacks(table, columns);
    ValuesListBinds(InsertHead(table, columns), values);
  }

  /** `%`-free statement text followed by a parenthesised placeholder list
      takes the values in order, one per placeholder. */
  lemma ValuesListBinds<V>(head: string, values: seq<V>)
    requires Lacks(head, '%')
    ensures Bind(head + (Placeholders(|values|) + ")"), values)
            == Some(Lits(head) + ArgList(values) + Lits(")"))
  {
    var ph := Placeholders(|values|);
    BindPlaceholders(values);
    BindPlain<V>(")");
    BindAppend(ph, ")", values, []);
    assert values + [] == values;
    BindPlainThen(head, ph + ")", values);
    assert Lits<V>(head) + (ArgList(values) + Lits(")")) == Lits<V>(head) + ArgList(values) + Lits(")");
  }

  lemma InsertHeadLacks(table: string, columns: seq<string>)
    requires Lacks(table, '%')
    requires forall i :: 0 <= i < |columns| ==> Lacks(columns[i], '%')
    ensures Lacks(InsertHead(table, columns), '%')
  {
    var cols := Join(",", columns);
    JoinLacks(",", columns, '%');
    var s1 := "INSERT INTO ";
    assert Lacks(s1, '%');
    LacksAppend(s1, table, '%');
    var s2 := s1 + table;
    var s3 := " (";
    assert Lacks(s3, '%');
    LacksAppend(s2, s3, '%');
    var s4 := s2 + s3;
    LacksAppend(s4, cols, '%');
    var s5 := s4 + cols;
    var s6 := ") VALUES (";
    assert Lacks(s6, '%');
    LacksAppend(s5, s6, '%');
  }

  // ------------------------------------------------------------ update_record

  function SetItems<V>(columnValues: seq<(string, V)>): (r: seq<string>)
    ensures |r| == |columnValues|
  {
    if |columnValues| == 0 then []
    else [columnValues[0].0 + " = %s"] + SetItems(columnValues[1..])
  }

  /** One `column = %s` assignment per column, comma-separated, in key order. */
  function SetClause<V>(columnValues: seq<(string, V)>): string
  {
    Join(", ", SetItems(columnValues))
  }

  /** The update statement: SET clause, then a WHERE clause on the key column. */
  function UpdateQuery<V>(table: string, columnValues: seq<(string, V)>, condition: (string, V)): string
  {
    UpdateHead(table) + (SetClause(columnValues) + (WhereHead(condition.0) + "%s"))
  }

  /** The update parameters: the new values in column order, then the key
      value. */
  function UpdateParams<V>(columnValues: seq<(string, V)>, condition: (string, V)): (r: seq<V>)
    ensures |r| == |columnValues| + 1
    ensures forall i :: 0 <= i < |columnValues| ==> r[i] == columnValues[i].1
    ensures r[|columnValues|] == condition.1
  {
    ColumnValues(columnValues) + [condition.1]
  }

  /** No column name contains a `%`. */
  predicate PlainColumns<V>(columnValues: seq<(string, V)>)
  {
    forall i :: 0 <= i < |columnValues| ==> Lacks(columnValues[i].0, '%')
  }

  /** Each column followed by the value that lands in it. */
  function Assignments<V>(columnValues: seq<(string, V)>): seq<Token<V>>
  {
    if |columnValues| == 0 then []
    else if |columnValues| == 1 then Lits(columnValues[0].0 + " = ") + [Arg(columnValues[0].1)]
    else Lits(columnValues[0].0 + " = ") + [Arg(columnValues[0].1)] + Lits(", ")
         + Assignments(columnValues[1..])
  }

  function ColumnValues<V>(columnValues: seq<(string, V)>): (r: seq<V>)
    ensures |r| == |columnValues|
    ensures forall i :: 0 <= i < |columnValues| ==> r[i] == columnValues[i].1
  {
    if |columnValues| == 0 then [] else [columnValues[0].1] + ColumnValues(columnValues[1..])
  }

  lemma {:induction false} BindSetClause<V>(columnValues: seq<(string, V)>)
    requires PlainColumns(columnValues)
    ensures Bind(SetClause(columnValues), ColumnValues(columnValues)) == Some(Assignments(columnValues))
    decreases |columnValues|
  {
    if |columnValues| > 0 {
      var c := columnValues[0].0;
      var v := columnValues[0].1;
      LacksAppend(c, " = ", '%');
      BindPlain<V>(c + " = ");
      BindOne(v);
      BindAppend(c + " = ", "%s", [], [v]);
      assert [] + [v] == [v];
      assert c + " = %s" == (c + " = ") + "%s";
      if |columnValues| > 1 {
        var rest := columnValues[1..];
        assert SetItems(columnValues)[1..] == SetItems(rest);
        assert SetClause(columnValues) == (c + " = %s") + ", " + SetClause(rest);
        BindPlain<V>(", ");
        BindAppend(c + " = %s", ", ", [v], []);
        assert [v] + [] == [v];
        BindSetClause(rest);
        BindAppend(c + " = %s" + ", ", SetClause(rest), [v], ColumnValues(rest));
        assert ColumnValues(columnValues) == [v] + ColumnValues(rest);
      } else {
        assert SetClause(columnValues) == c + " = %s";
        assert ColumnValues(columnValues) == [v];
      }
    }
  }

  /** `update_record`: with identifiers free of `%`, the driver accepts the
      parameter list (one parameter per placeholder), each column of the SET
      clause receives its own new value in key order, and the key value lands
      in the WHERE clause. */
  lemma UpdateRecordBinds<V>(table: string, columnValues: seq<(string, V)>, condition: (string, V))
    requires Lacks(table, '%') && Lacks(condition.0, '%')
    requires PlainColumns(columnValues)
    ensures Bind(UpdateQuery(table, columnValues, condition), UpdateParams(columnValues, condition))
            == Some(Lits(UpdateHead(table)) + (Assignments(columnValues)
                    + (Lits(WhereHead(condition.0)) + [Arg(condition.1)])))
  {
    var clause := SetClause(columnValues);
    var tail := WhereHead(condition.0) + "%s";
    UpdateHeadLacks(table);
    BindSetClause(columnValues);
    AppendWhere(clause, ColumnValues(columnValues), Assignments(columnValues), condition.0, condition.1);
    BindPlainThen(UpdateHead(table), clause + tail, ColumnValues(columnValues) + [condition.1]);
  }

  /** A WHERE clause appended to a fragment that binds takes one more
      parameter, the key value, after the fragment's own. */
  lemma AppendWhere<V>(fragment: string, vs: seq<V>, tokens: seq<Token<V>>, column: string, v: V)
    requires Bind(fragment, vs) == Some(tokens)
    requires Lacks(column, '%')
    ensures Bind(fragment + (WhereHead(column) + "%s"), vs + [v])
            == Some(tokens + (Lits(WhereHead(column)) + [Arg(v)]))
  {
    WhereBinds(column, v);
    BindAppend(fragment, WhereHead(column) + "%s", vs, [v]);
  }

  /** The statement up to the SET clause. */
  function UpdateHead(table: string): string
  {
    "UPDATE " + table + " SET "
  }

  /** The WHERE clause up to its placeholder. */
  function WhereHead(column: string): string
  {
    " WHERE " + column + " = "
  }

  lemma UpdateHeadLacks(table: string)
    requires Lacks(table, '%')
    ensures Lacks(UpdateHead(table), '%')
  {
    var s1 := "UPDATE ";
    assert Lacks(s1, '%');
    LacksAppend(s1, table, '%');
    var s2 := " SET ";
    assert Lacks(s2, '%');
    LacksAppend(s1 + table, s2, '%');
  }

  lemma WhereHeadLacks(column: string)
    requires Lacks(column, '%')
    ensures Lacks(WhereHead(column), '%')
  {
    var s1 := " WHERE ";
    assert Lacks(s1, '%');
    LacksAppend(s1, column, '%');
    var s2 := " = ";
    assert Lacks(s2, '%');
    LacksAppend(s1 + column, s2, '%');
  }

  /** The WHERE clause takes the key value and nothing else. */
  lemma WhereBinds<V>(column: string, v: V)
    requires Lacks(column, '%')
    ensures Bind(WhereHead(column) + "%s", [v]) == Some(Lits(WhereHead(column)) + [Arg(v)])
  {
    WhereHeadLacks(column);
    BindOne(v);
    BindPlainThen(WhereHead(column), "%s", [v]);
  }

  // ------------------------------------------------------------ delete_record

  /** The delete statement: a WHERE clause on the key column. */
  function DeleteQuery<V>(table: string, condition: (string, V)): string
  {
    ("DELETE FROM " + table) + (WhereHead(condition.0) + "%s")
  }

  /** `delete_record`: the single parameter `condition[1]` is the key value
      compared in the WHERE clause. */
  lemma DeleteRecordBinds<V>(table: string, condition: (string, V))
    requires Lacks(table, '%') && Lacks(condition.0, '%')
    ensures Bind(DeleteQuery(table, condition), [condition.1])
            == Some(Lits("DELETE FROM " + table) + (Lits(WhereHead(condition.0)) + [Arg(condition.1)]))
  {
    var s1 := "DELETE FROM ";
    assert Lacks(s1, '%');
    LacksAppend(s1, table, '%');
    WhereBinds(condition.0, condition.1);
    BindPlainThen(s1 + table, WhereHead(condition.0) + "%s", [condition.1]);
  }
}
