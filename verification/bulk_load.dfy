/** How data_insertion.py loads generated rows: `execute_insert` turns a
    list of row dictionaries into one parameterised INSERT and a value tuple
    per row; each `generate_*_data` function buffers rows and flushes the
    buffer whenever it reaches the chunk size and once more at the end; and
    `main` runs the generators in dependency order until one raises. */
module BulkLoad {
  import opened Common
  import opened Text
  import opened SqlText

  /** Rows per generated table. */
  const RecordsPerTable: nat := 100000

  /** Rows per flush. */
  const ChunkSize: nat := 10000

  // ------------------------------------------------------------ execute_insert

  /** A generated row: column/value pairs in the order the row's dictionary
      lists them. */
  type Record<V> = seq<(string, V)>

  function Columns<V(==)>(row: Record<V>): (r: seq<string>)
    ensures |r| == |row|
    ensures forall i :: 0 <= i < |row| ==> r[i] == row[i].0
  {
    seq(|row|, i requires 0 <= i < |row| => row[i].0)
  }

  function Values<V(==)>(row: Record<V>): (r: seq<V>)
    ensures |r| == |row|
    ensures forall i :: 0 <= i < |row| ==> r[i] == row[i].1
  {
    seq(|row|, i requires 0 <= i < |row| => row[i].1)
  }

  /** A dictionary names each column once. */
  predicate DistinctColumns<V(==)>(row: Record<V>)
  {
    forall i, j :: 0 <= i < j < |row| ==> row[i].0 != row[j].0
  }

  /** The value stored under `column`, or `None` (a KeyError) when the row
      has no such column. */
  function Lookup<V(==)>(row: Record<V>, column: string): (r: Option<V>)
    ensures r.None? <==> column !in Columns(row)
    ensures r.Some? ==> exists i :: 0 <= i < |row| && row[i].0 == column && row[i].1 == r.value
  {
    if |row| == 0 then None
    else if row[0].0 == column then Some(row[0].1)
    else
      var r := Lookup(row[1..], column);
      assert Columns(row) == [row[0].0] + Columns(row[1..]);
      if r.Some? then
        var i :| 0 <= i < |row[1..]| && row[1..][i].0 == column && row[1..][i].1 == r.value;
        assert row[i + 1] == row[1..][i];
        r
      else r
  }

  /** In a row that names each column once, looking a column up finds the
      value stored beside it. */
  lemma {:induction false} LookupDistinct<V>(row: Record<V>, i: nat)
    requires DistinctColumns(row) && i < |row|
    ensures Lookup(row, row[i].0) == Some(row[i].1)
  {
    if i > 0 {
      forall a, b | 0 <= a < b < |row[1..]| ensures row[1..][a].0 != row[1..][b].0 {
        assert row[1..][a] == row[a + 1] && row[1..][b] == row[b + 1];
      }
      assert row[1..][i - 1] == row[i];
      LookupDistinct(row[1..], i - 1);
    }
  }

  /** The value tuple of one row, in the order of `columns`; `None` when the
      row lacks one of them. */
  function Project<V(==)>(row: Record<V>, columns: seq<string>): (r: Option<seq<V>>)
    ensures r.Some? <==> forall j :: 0 <= j < |columns| ==> columns[j] in Columns(row)
    ensures r.Some? ==> |r.value| == |columns|
    ensures r.Some? ==> forall j :: 0 <= j < |columns| ==> r.value[j] == Lookup(row, columns[j]).value
  {
    if |columns| == 0 then Some([])
    else
      var v := Lookup(row, columns[0]);
      var rest := Project(row, columns[1..]);
      if v.None? || rest.None? then None else Some([v.value] + rest.value)
  }

  /** The value tuples of all rows. */
  function ProjectAll<V(==)>(rows: seq<Record<V>>, columns: seq<string>): (r: Option<seq<seq<V>>>)
    ensures r.Some? <==> forall i :: 0 <= i < |rows| ==> Project(rows[i], columns).Some?
    ensures r.Some? ==> |r.value| == |rows|
    ensures r.Some? ==> forall i :: 0 <= i < |rows| ==> r.value[i] == Project(rows[i], columns).value
  {
    if |rows| == 0 then Some([])
    else
      var t := Project(rows[0], columns);
      var rest := ProjectAll(rows[1..], columns);
      if t.None? || rest.None? then None else Some([t.value] + rest.value)
  }

  /** An identifier as the SQL composer quotes it: in double quotes, with an
      embedded double quote doubled. */
  function Quote(id: string): (r: string)
    ensures |r| >= 2 && r[0] == '"' && r[|r| - 1] == '"'
  {
    "\"" + EscapeQuotes(id) + "\""
  }

  function EscapeQuotes(id: string): string
  {
    if |id| == 0 then ""
    else (if id[0] == '"' then "\"\"" else [id[0]]) + EscapeQuotes(id[1..])
  }

  /** Reading a quoted identifier's inside back: a doubled double quote
      stands for one. */
  function Unescape(s: string): string
  {
    if |s| == 0 then ""
    else if |s| >= 2 && s[0] == '"' && s[1] == '"' then "\"" + Unescape(s[2..])
    else [s[0]] + Unescape(s[1..])
  }

  /** The identifier a quoted one stands for. */
  function Unquote(q: string): string
    requires |q| >= 2
  {
    Unescape(q[1..|q| - 1])
  }

  /** Doubling the double quotes loses nothing: reading back gives the
      identifier. */
  lemma {:induction false} UnescapeEscapeQuotes(id: string)
    ensures Unescape(EscapeQuotes(id)) == id
    decreases |id|
  {
    if |id| > 0 {
      var rest := EscapeQuotes(id[1..]);
      UnescapeEscapeQuotes(id[1..]);
      if id[0] == '"' {
        assert EscapeQuotes(id) == "\"\"" + rest;
        assert ("\"\"" + rest)[2..] == rest;
      } else {
        assert EscapeQuotes(id) == [id[0]] + rest;
        assert ([id[0]] + rest)[1..] == rest;
      }
      assert id == [id[0]] + id[1..];
    }
  }

  /** A quoted identifier reads back as the identifier. */
  lemma QuoteRoundTrip(id: string)
    ensures Unquote(Quote(id)) == id
  {
    var q := Quote(id);
    assert q[1..|q| - 1] == EscapeQuotes(id);
    UnescapeEscapeQuotes(id);
  }

  /** Different identifiers are quoted differently, so a quoted table or
      column names exactly one identifier. */
  lemma QuoteInjective(a: string, b: string)
    ensures Quote(a) == Quote(b) ==> a == b
  {
    QuoteRoundTrip(a);
    QuoteRoundTrip(b);
  }

  function QuoteAll(ids: seq<string>): (r: seq<string>)
    ensures |r| == |ids|
    ensures forall i :: 0 <= i < |ids| ==> r[i] == Quote(ids[i])
  {
    seq(|ids|, i requires 0 <= i < |ids| => Quote(ids[i]))
  }

  /** The statement up to its placeholder list. */
  function StatementHead(table: string, columns: seq<string>): string
  {
    "INSERT INTO " + Quote(table) + " (" + Join(", ", QuoteAll(columns)) + ") VALUES ("
  }

  /** The insert statement: quoted table and columns, one placeholder per
      column. */
  function InsertStatement(table: string, columns: seq<string>): string
  {
    StatementHead(table, columns) + (Placeholders(|columns|) + ")")
  }

  datatype InsertOutcome<V> =
    | NoOp
    | Inserted(statement: string, tuples: seq<seq<V>>)
    | Failed

  /** `execute_insert`: nothing for no rows; otherwise the first row's
      columns fix the statement and every row contributes the values of
      those columns in that order. A row missing one of them, or a database
      error (`dbFails`), fails the whole call and nothing is committed. */
  function ExecuteInsert<V(==)>(table: string, rows: seq<Record<V>>, dbFails: bool): (r: InsertOutcome<V>)
    ensures r.NoOp? <==> |rows| == 0
    ensures r.Inserted? <==> |rows| > 0 && !dbFails && ProjectAll(rows, Columns(rows[0])).Some?
    ensures r.Inserted? ==> r.statement == InsertStatement(table, Columns(rows[0]))
    ensures r.Inserted? ==> |r.tuples| == |rows|
    ensures r.Inserted? ==> forall i, j :: 0 <= i < |rows| && 0 <= j < |rows[0]| ==>
      |r.tuples[i]| == |rows[0]| && r.tuples[i][j] == Lookup(rows[i], rows[0][j].0).value
  {
    if |rows| == 0 then NoOp
    else
      var columns := Columns(rows[0]);
      var tuples := ProjectAll(rows, columns);
      if tuples.None? || dbFails then Failed
      else Inserted(InsertStatement(table, columns), tuples.value)
  }

  /** Rows built from one dictionary shape: same columns in the same order,
      each named once. */
  predicate SameShape<V(==)>(rows: seq<Record<V>>)
  {
    |rows| > 0 && DistinctColumns(rows[0])
    && forall i :: 0 <= i < |rows| ==> Columns(rows[i]) == Columns(rows[0])
  }

  /** Round trip: for rows of one shape, pairing the statement's columns
      with a row's tuple gives back exactly that row. */
  lemma InsertRoundTrip<V>(table: string, rows: seq<Record<V>>, i: nat)
    requires SameShape(rows) && i < |rows|
    ensures ExecuteInsert(table, rows, false).Inserted?
    ensures ExecuteInsert(table, rows, false).tuples[i] == Values(rows[i])
  {
    var columns := Columns(rows[0]);
    forall k | 0 <= k < |rows|
      ensures DistinctColumns(rows[k])
      ensures Project(rows[k], columns) == Some(Values(rows[k]))
    {
      forall a, b | 0 <= a < b < |rows[k]| ensures rows[k][a].0 != rows[k][b].0 {
        assert Columns(rows[k])[a] == columns[a] && Columns(rows[k])[b] == columns[b];
      }
      forall j | 0 <= j < |columns| ensures Lookup(rows[k], columns[j]) == Some(rows[k][j].1) {
        assert columns[j] == Columns(rows[k])[j] == rows[k][j].0;
        LookupDistinct(rows[k], j);
      }
      var p := Project(rows[k], columns);
      assert p.Some?;
      assert p.value == Values(rows[k]);
    }
  }

  /** Each row's tuple fills the statement's placeholders exactly, provided
      no identifier contains a `%`. */
  lemma TupleBinds<V>(table: string, columns: seq<string>, tuple: seq<V>)
    requires |tuple| == |columns|
    requires Lacks(table, '%') && forall i :: 0 <= i < |columns| ==> Lacks(columns[i], '%')
    ensures Bind(InsertStatement(table, columns), tuple)
            == Some(Lits(StatementHead(table, columns)) + ArgList(tuple) + Lits(")"))
  {
    StatementHeadLacks(table, columns);
    ValuesListBinds(StatementHead(table, columns), tuple);
  }

  lemma {:induction false} EscapeQuotesLacks(id: string)
    requires Lacks(id, '%')
    ensures Lacks(EscapeQuotes(id), '%')
  {
    if |id| > 0 {
      var first := if id[0] == '"' then "\"\"" else [id[0]];
      assert Lacks(first, '%');
      assert Lacks(id[1..], '%');
      EscapeQuotesLacks(id[1..]);
      LacksAppend(first, EscapeQuotes(id[1..]), '%');
    }
  }

  lemma QuoteLacks(id: string)
    requires Lacks(id, '%')
    ensures Lacks(Quote(id), '%')
  {
    var q := "\"";
    assert Lacks(q, '%');
    EscapeQuotesLacks(id);
    LacksAppend(q, EscapeQuotes(id), '%');
    LacksAppend(q + EscapeQuotes(id), q, '%');
  }

  lemma StatementHeadLacks(table: string, columns: seq<string>)
    requires Lacks(table, '%') && forall i :: 0 <= i < |columns| ==> Lacks(columns[i], '%')
    ensures Lacks(StatementHead(table, columns), '%')
  {
    var quoted := QuoteAll(columns);
    forall i | 0 <= i < |quoted| ensures Lacks(quoted[i], '%') {
      QuoteLacks(columns[i]);
    }
    var sep := ", ";
    assert Lacks(sep, '%');
    JoinLacks(sep, quoted, '%');
    QuoteLacks(table);
    var s1 := "INSERT INTO ";
    assert Lacks(s1, '%');
    LacksAppend(s1, Quote(table), '%');
    var s2 := s1 + Quote(table);
    var s3 := " (";
    assert Lacks(s3, '%');
    LacksAppend(s2, s3, '%');
    var s4 := s2 + s3;
    LacksAppend(s4, Join(sep, quoted), '%');
    var s5 := s4 + Join(sep, quoted);
    var s6 := ") VALUES (";
    assert Lacks(s6, '%');
    LacksAppend(s5, s6, '%');
  }

  // ------------------------------------------------------- chunked generators

  /** The batches a generator has committed when it stops. Batch `failAt`
      (counting from 0) is the first whose insert raises, if any. A table
      missing from `generated_data` (`tracked` false) raises a KeyError
      right after its first batch is committed. */
  function CommittedChunks<R>(chunks: seq<seq<R>>, failAt: Option<nat>, tracked: bool): seq<seq<R>>
  {
    var committed := BeforeFailure(chunks, failAt);
    if !tracked && |committed| > 0 then committed[..1] else committed
  }

  /** Whether a generator returns normally: no batch insert raises and, when
      there is anything to flush, the table's list exists. */
  predicate GeneratorSucceeds<R>(chunks: seq<seq<R>>, failAt: Option<nat>, tracked: bool)
  {
    (failAt.None? || failAt.value >= |chunks|) && (tracked || |chunks| == 0)
  }

  /** What a generator promises when it stops: the batches committed, the
      rows appended to `generated_data`, and whether it returned normally. */
  ghost predicate Stopped<R>(records: seq<R>, chunk: nat, failAt: Option<nat>, tracked: bool,
                       committed: seq<seq<R>>, extended: seq<R>, ok: bool)
    requires chunk >= 1
  {
    && committed == CommittedChunks(SliceChunks(records, chunk), failAt, tracked)
    && (ok <==> GeneratorSucceeds(SliceChunks(records, chunk), failAt, tracked))
    && (ok ==> Flatten(committed) == records)
    && Flatten(committed) <= records
    && extended == if tracked then Flatten(committed) else []
  }

  /** The loop state of a generator after `i` rows: the buffer holds the
      rows since the last flush, and the batches committed so far are the
      first batches of the slicing of all rows. */
  ghost predicate Buffering<R>(records: seq<R>, chunk: nat, failAt: Option<nat>, tracked: bool,
                         start: nat, i: nat, data: seq<R>, committed: seq<seq<R>>, extended: seq<R>)
  {
    && chunk >= 1 && start <= i <= |records|
    && data == records[start..i] && |data| < chunk
    && SliceChunks(records, chunk) == committed + SliceChunks(records[start..], chunk)
    && (failAt.None? || failAt.value >= |committed|)
    && (tracked || |committed| == 0)
    && extended == if tracked then Flatten(committed) else []
  }

  /** One `generate_*_data` loop over the rows it builds, in id order: each
      row joins the buffer; a buffer of `chunk` rows is inserted and then
      appended to the table's list in `generated_data`; what is left at the
      end is flushed the same way. Returns the committed batches, the rows
      appended to `generated_data`, and whether the generator returned
      normally. */
  method GenerateTable<R>(records: seq<R>, chunk: nat, failAt: Option<nat>, tracked: bool)
      returns (committed: seq<seq<R>>, extended: seq<R>, ok: bool)
    requires chunk >= 1
    ensures committed == CommittedChunks(SliceChunks(records, chunk), failAt, tracked)
    ensures ok <==> GeneratorSucceeds(SliceChunks(records, chunk), failAt, tracked)
    ensures ok ==> Flatten(committed) == records
    ensures Flatten(committed) <= records
    ensures extended == if tracked then Flatten(committed) else []
  {
    var start, data;
    start, data, committed, extended, ok := PushAll(records, chunk, failAt, tracked);
    if ok {
      committed, extended, ok := FlushRemainder(records, chunk, failAt, tracked, start, data, committed, extended);
    }
    StoppedMeans(records, chunk, failAt, tracked, committed, extended, ok);
  }

  /** The generator loop proper: every row is pushed, unless a flush
      raises first. */
  method PushAll<R>(records: seq<R>, chunk: nat, failAt: Option<nat>, tracked: bool)
      returns (start: nat, data: seq<R>, committed: seq<seq<R>>, extended: seq<R>, ok: bool)
    requires chunk >= 1
    ensures ok ==> Buffering(records, chunk, failAt, tracked, start, |records|, data, committed, extended)
    ensures !ok ==> Stopped(records, chunk, failAt, tracked, committed, extended, ok)
  {
    start, data, committed, extended, ok := 0, [], [], [], true;
    var i := 0;
    while i < |records|
      invariant ok && Buffering(records, chunk, failAt, tracked, start, i, data, committed, extended)
    {
      start, data, committed, extended, ok := Push(records, chunk, failAt, tracked, start, i, data, committed, extended);
      if !ok {
        return;
      }
      i := i + 1;
    }
  }

  lemma StoppedMeans<R>(records: seq<R>, chunk: nat, failAt: Option<nat>, tracked: bool,
                        committed: seq<seq<R>>, extended: seq<R>, ok: bool)
    requires chunk >= 1 && Stopped(records, chunk, failAt, tracked, committed, extended, ok)
    ensures committed == CommittedChunks(SliceChunks(records, chunk), failAt, tracked)
    ensures ok <==> GeneratorSucceeds(SliceChunks(records, chunk), failAt, tracked)
    ensures ok ==> Flatten(committed) == records
    ensures Flatten(committed) <= records
    ensures extended == if tracked then Flatten(committed) else []
  {
  }

  /** The body of the generator loop for row `i`: buffer it, and flush when
      the buffer reaches `chunk` rows. */
  method Push<R>(records: seq<R>, chunk: nat, failAt: Option<nat>, tracked: bool,
                 start: nat, i: nat, data: seq<R>, committed: seq<seq<R>>, extended: seq<R>)
      returns (start': nat, data': seq<R>, committed': seq<seq<R>>, extended': seq<R>, ok: bool)
    requires i < |records|
    requires Buffering(records, chunk, failAt, tracked, start, i, data, committed, extended)
    ensures ok ==> Buffering(records, chunk, failAt, tracked, start', i + 1, data', committed', extended')
    ensures !ok ==> Stopped(records, chunk, failAt, tracked, committed', extended', ok)
  {
    data' := data + [records[i]];
    if |data'| < chunk {
      BufferGrows(records, chunk, failAt, tracked, start, i, data, committed, extended);
      return start, data', committed, extended, true;
    }
    ReadyToFlush(records, chunk, failAt, tracked, start, i, data, committed, extended);
    committed', extended', ok := Flush(SliceChunks(records, chunk), committed, extended, data',
                                       SliceChunks(records[i + 1..], chunk), failAt, tracked);
    if !ok {
      StoppedEarly(records, chunk, failAt, tracked, committed', extended');
    } else {
      FreshBuffer(records, chunk, failAt, tracked, i + 1, committed', extended');
    }
    start', data' := i + 1, [];
  }

  /** Buffering one more row without flushing keeps the loop state. */
  lemma BufferGrows<R>(records: seq<R>, chunk: nat, failAt: Option<nat>, tracked: bool,
                       start: nat, i: nat, data: seq<R>, committed: seq<seq<R>>, extended: seq<R>)
    requires i < |records| && |data| + 1 < chunk
    requires Buffering(records, chunk, failAt, tracked, start, i, data, committed, extended)
    ensures Buffering(records, chunk, failAt, tracked, start, i + 1, data + [records[i]], committed, extended)
  {
    SliceGrows(records, start, i);
  }

  /** A full buffer, with row `i` added, is the next batch. */
  lemma ReadyToFlush<R>(records: seq<R>, chunk: nat, failAt: Option<nat>, tracked: bool,
                        start: nat, i: nat, data: seq<R>, committed: seq<seq<R>>, extended: seq<R>)
    requires i < |records| && |data| + 1 >= chunk
    requires Buffering(records, chunk, failAt, tracked, start, i, data, committed, extended)
    ensures SliceChunks(records, chunk)
            == committed + ([data + [records[i]]] + SliceChunks(records[i + 1..], chunk))
    ensures failAt.None? || failAt.value >= |committed|
    ensures tracked || |committed| == 0
    ensures extended == if tracked then Flatten(committed) else []
  {
    SliceGrows(records, start, i);
    SliceChunksStep(records, chunk, start, i + 1);
  }

  /** Right after a flush the buffer is empty and starts at the next row. */
  lemma FreshBuffer<R>(records: seq<R>, chunk: nat, failAt: Option<nat>, tracked: bool,
                       start: nat, committed: seq<seq<R>>, extended: seq<R>)
    requires chunk >= 1 && start <= |records|
    requires SliceChunks(records, chunk) == committed + SliceChunks(records[start..], chunk)
    requires failAt.None? || failAt.value >= |committed|
    requires tracked || |committed| == 0
    requires extended == if tracked then Flatten(committed) else []
    ensures Buffering(records, chunk, failAt, tracked, start, start, [], committed, extended)
  {
  }

  /** A generator that raised has committed a prefix of the rows. */
  lemma StoppedEarly<R>(records: seq<R>, chunk: nat, failAt: Option<nat>, tracked: bool,
                        committed: seq<seq<R>>, extended: seq<R>)
    requires chunk >= 1
    requires committed == CommittedChunks(SliceChunks(records, chunk), failAt, tracked)
    requires !GeneratorSucceeds(SliceChunks(records, chunk), failAt, tracked)
    requires Flatten(committed) <= Flatten(SliceChunks(records, chunk))
    requires extended == if tracked then Flatten(committed) else []
    ensures Stopped(records, chunk, failAt, tracked, committed, extended, false)
  {
  }

  /** The flush after the loop: the rows left in the buffer form the last
      batch. */
  method FlushRemainder<R>(records: seq<R>, chunk: nat, failAt: Option<nat>, tracked: bool,
                           start: nat, data: seq<R>, committed: seq<seq<R>>, extended: seq<R>)
      returns (committed': seq<seq<R>>, extended': seq<R>, ok: bool)
    requires Buffering(records, chunk, failAt, tracked, start, |records|, data, committed, extended)
    ensures Stopped(records, chunk, failAt, tracked, committed', extended', ok)
  {
    var chunks := SliceChunks(records, chunk);
    if |data| == 0 {
      assert SliceChunks(records[start..], chunk) == [];
      AllCommitted(records, chunk, failAt, tracked, committed, extended);
      return committed, extended, true;
    }
    SliceChunksStep(records, chunk, start, |records|);
    var rest := SliceChunks(records[|records|..], chunk);
    assert rest == [];
    committed', extended', ok := Flush(chunks, committed, extended, data, rest, failAt, tracked);
    if ok {
      assert committed' + [] == committed';
      AllCommitted(records, chunk, failAt, tracked, committed', extended');
    } else {
      StoppedEarly(records, chunk, failAt, tracked, committed', extended');
    }
  }

  /** A generator that flushed every batch committed all of them and
      returns normally. */
  lemma AllCommitted<R>(records: seq<R>, chunk: nat, failAt: Option<nat>, tracked: bool,
                        committed: seq<seq<R>>, extended: seq<R>)
    requires chunk >= 1
    requires SliceChunks(records, chunk) == committed
    requires failAt.None? || failAt.value >= |committed|
    requires tracked || |committed| == 0
    requires extended == if tracked then Flatten(committed) else []
    ensures Stopped(records, chunk, failAt, tracked, committed, extended, true)
  {
    var chunks := SliceChunks(records, chunk);
    assert chunks[..|chunks|] == chunks;
  }

  lemma SliceGrows<R>(records: seq<R>, start: nat, i: nat)
    requires start <= i < |records|
    ensures records[start..i + 1] == records[start..i] + [records[i]]
  {
  }

  /** One flush of the buffer `data`, the next of the batches `chunks`:
      insert it (raising when it is batch `failAt`), then extend the table's
      list (raising when the table has none). */
  method Flush<R>(ghost chunks: seq<seq<R>>, committed: seq<seq<R>>, extended: seq<R>, data: seq<R>,
                  ghost rest: seq<seq<R>>, failAt: Option<nat>, tracked: bool)
      returns (committed': seq<seq<R>>, extended': seq<R>, ok: bool)
    requires chunks == committed + ([data] + rest)
    requires failAt.None? || failAt.value >= |committed|
    requires tracked || |committed| == 0
    requires extended == if tracked then Flatten(committed) else []
    ensures extended' == if tracked then Flatten(committed') else []
    ensures ok ==> committed' == committed + [data] && chunks == committed' + rest
    ensures ok ==> tracked && (failAt.None? || failAt.value >= |committed'|)
    ensures !ok ==> committed' == CommittedChunks(chunks, failAt, tracked)
    ensures !ok ==> !GeneratorSucceeds(chunks, failAt, tracked)
    ensures !ok ==> Flatten(committed') <= Flatten(chunks)
  {
    if failAt == Some(|committed|) {
      assert chunks[..|committed|] == committed;
      FlattenPrefix(chunks, |committed|);
      return committed, extended, false;
    }
    committed' := committed + [data];
    assert chunks == committed' + rest;
    FlattenAppend(committed, [data]);
    if !tracked {
      assert chunks[..1] == committed';
      FlattenPrefix(chunks, 1);
      return committed', [], false;
    }
    extended' := extended + data;
    ok := true;
  }

  // --------------------------------------------------------------------- main

  /** The generators `main` calls, in the order it calls them. */
  const GeneratorOrder: seq<string> :=
    ["admin", "customer", "category", "supplier", "product", "cart", "cartitem",
     "customeraddress", "discount", "orders", "orderitem", "delivery", "transactions",
     "productimage", "adminlogin", "customerlogin", "orderstatushistory"]

  /** The tables `generated_data` has a list for, as the script declares it:
      every generated table except `cartitem`. */
  const TrackedAsWritten: set<string> :=
    {"admin", "customer", "category", "supplier", "product", "cart", "discount",
     "customeraddress", "orders", "orderitem", "delivery", "transactions",
     "productimage", "adminlogin", "customerlogin", "orderstatushistory"}

  /** The declaration with the missing `cartitem` list added. */
  const TrackedCorrected: set<string> := TrackedAsWritten + {"cartitem"}

  /** The ids 1..n a generator loops over. */
  function Ids(n: nat): (r: seq<nat>)
    ensures |r| == n
    ensures forall i :: 0 <= i < n ==> r[i] == i + 1
  {
    seq(n, i requires 0 <= i < n => i + 1)
  }

  /** How many rows one generator commits when no insert fails, and whether
      it returns normally. */
  function TableRun(tracked: bool, n: nat, chunk: nat): (nat, bool)
    requires chunk >= 1
  {
    var chunks := SliceChunks(Ids(n), chunk);
    (|Flatten(CommittedChunks(chunks, None, tracked))|, GeneratorSucceeds(chunks, None, tracked))
  }

  /** `main`: the generators run in order, `n` rows each, until one raises;
      the exception is caught and nothing after it runs. The result lists
      the rows committed by each generator that ran. */
  function MainRun(tables: seq<string>, tracked: set<string>, n: nat, chunk: nat): (r: seq<nat>)
    requires chunk >= 1
    ensures |r| <= |tables|
    ensures forall k :: 0 <= k < |r| ==> r[k] <= n
    ensures forall k :: 0 <= k < |r| - 1 ==> r[k] == n && (n > 0 ==> tables[k] in tracked)
  {
    if |tables| == 0 then []
    else
      var (rows, ok) := TableRun(tables[0] in tracked, n, chunk);
      TableRunRows(tables[0] in tracked, n, chunk);
      if ok then
        var rest := MainRun(tables[1..], tracked, n, chunk);
        assert forall k :: 1 <= k < |rest| + 1 ==> ([rows] + rest)[k] == rest[k - 1] && tables[k] == tables[1..][k - 1];
        [rows] + rest
      else [rows]
  }

  /** A tracked table commits all its rows and returns normally; an
      untracked one with rows to write commits its first batch only, then
      raises. */
  lemma TableRunRows(tracked: bool, n: nat, chunk: nat)
    requires chunk >= 1
    ensures TableRun(tracked, n, chunk).1 <==> tracked || n == 0
    ensures tracked || n == 0 ==> TableRun(tracked, n, chunk).0 == n
    ensures !tracked && n > 0 ==> TableRun(tracked, n, chunk).0 == if n < chunk then n else chunk
  {
    var chunks := SliceChunks(Ids(n), chunk);
    if tracked || n == 0 {
      assert chunks[..|chunks|] == chunks;
    } else {
      var m := if n < chunk then n else chunk;
      assert chunks[0] == Ids(n)[..m];
      assert Flatten(chunks[..1]) == chunks[0] + Flatten(chunks[..1][1..]);
    }
  }

  /** When every table has a list, `main` loads every table in full. */
  lemma {:induction false} MainRunAllTracked(tables: seq<string>, tracked: set<string>, n: nat, chunk: nat)
    requires chunk >= 1
    requires forall k :: 0 <= k < |tables| ==> tables[k] in tracked
    ensures MainRun(tables, tracked, n, chunk) == seq(|tables|, _ => n)
  {
    if |tables| > 0 {
      TableRunRows(true, n, chunk);
      MainRunAllTracked(tables[1..], tracked, n, chunk);
      assert seq(|tables|, _ => n) == [n] + seq(|tables| - 1, _ => n);
    }
  }

  /** The first table without a list stops `main` after its first batch;
      the tables before it are loaded in full and the ones after it are
      never generated. */
  lemma {:induction false} MainRunStopsAt(tables: seq<string>, tracked: set<string>, n: nat, chunk: nat, stop: nat)
    requires chunk >= 1 && n >= 1
    requires stop < |tables| && tables[stop] !in tracked
    requires forall k :: 0 <= k < stop ==> tables[k] in tracked
    ensures MainRun(tables, tracked, n, chunk) == seq(stop, _ => n) + [if n < chunk then n else chunk]
  {
    TableRunRows(tables[0] in tracked, n, chunk);
    if stop > 0 {
      MainRunStopsAt(tables[1..], tracked, n, chunk, stop - 1);
      assert seq(stop, _ => n) == [n] + seq(stop - 1, _ => n);
    }
  }

  /** The six tables before `cartitem` have lists; `cartitem` has none. */
  lemma CartItemIsFirstUntracked()
    ensures forall k :: 0 <= k < 6 ==> GeneratorOrder[k] in TrackedAsWritten
    ensures GeneratorOrder[6] !in TrackedAsWritten
  {
    assert GeneratorOrder[..7] == ["admin", "customer", "category", "supplier", "product", "cart", "cartitem"];
    forall k | 0 <= k < 6 ensures GeneratorOrder[k] in TrackedAsWritten {
      assert GeneratorOrder[k] == GeneratorOrder[..7][k];
    }
  }

  /** As the script is written, `main` loads the six tables before
      `cartitem`, commits one batch of cart items and then gives up:
      addresses, discounts, orders and everything after them stay empty. */
  lemma MainAsWrittenStopsAtCartItem(n: nat, chunk: nat)
    requires chunk >= 1 && n >= 1
    ensures MainRun(GeneratorOrder, TrackedAsWritten, n, chunk) == [n, n, n, n, n, n, if n < chunk then n else chunk]
  {
    CartItemIsFirstUntracked();
    MainRunStopsAt(GeneratorOrder, TrackedAsWritten, n, chunk, 6);
    assert seq(6, _ => n) == [n, n, n, n, n, n];
  }

  /** At the script's sizes: 100000 rows in each of six tables and 10000
      cart items. */
  lemma MainAsWrittenAtScriptSizes()
    ensures MainRun(GeneratorOrder, TrackedAsWritten, RecordsPerTable, ChunkSize)
            == [100000, 100000, 100000, 100000, 100000, 100000, 10000]
  {
    MainAsWrittenStopsAtCartItem(RecordsPerTable, ChunkSize);
  }

  /** With the `cartitem` list declared, all seventeen tables are loaded in
      full. */
  lemma MainCorrectedLoadsAll(n: nat, chunk: nat)
    requires chunk >= 1
    ensures MainRun(GeneratorOrder, TrackedCorrected, n, chunk) == seq(|GeneratorOrder|, _ => n)
    ensures |MainRun(GeneratorOrder, TrackedCorrected, n, chunk)| == 17
  {
    MainRunAllTracked(GeneratorOrder, TrackedCorrected, n, chunk);
  }
}
