/** The time-series side of the SQL driver (drivers/sql/sql.go): the
    retention branch of DeleteValuesFromInterval, the per-field query lists
    of the batch readers, and the historian query. Timestamps arrive already
    formatted; the database is an oracle whose answers are parameters. */
module SqlTimeSeries {
  import opened Common
  import opened SqlTypes
  import opened SqlBuilders
  import opened SqlDriver
  import Queries

  // ---- Retention ----

  /** The TimescaleDB probe found the extension: the values of the last row it
      returned are not empty (no row at all leaves them empty). */
  predicate TsdbAvailable(probe: seq<seq<Value>>)
  {
    |probe| > 0 && probe[|probe| - 1] != []
  }

  /** The plain retention delete, with the table first and the days second. */
  function PlainDelete(table: string, days: int): Call
  {
    Exec(Queries.PgDeleteValuesByInterval(table, IntText(days)))
  }

  /** The TimescaleDB retention, with the days first and the table second. */
  function DropChunks(table: string, days: int): Call
  {
    Exec(Queries.TsdbDeleteValuesByInterval(IntText(days), table))
  }

  /** The two retention statements can never be confused. */
  lemma RetentionStatementsDiffer(table: string, days: int)
    ensures PlainDelete(table, days) != DropChunks(table, days)
  {
    assert PlainDelete(table, days).sql[0] == 'D';
    assert DropChunks(table, days).sql[0] == 'S';
  }

  /** DeleteValuesFromInterval: only the last row of the extension probe
      counts; without the extension the plain delete runs, with it the table
      is looked up among the hypertable names (`hyperTables`, the answer of
      the catalog query) and drop_chunks runs only for a hypertable. */
  method DeleteValuesFromInterval(table: string, days: int, probe: seq<seq<Value>>, hyperTables: seq<string>)
    returns (call: Call)
    requires -0x8000_0000 <= days < 0x8000_0000
    ensures call == DropChunks(table, days) <==> TsdbAvailable(probe) && table in hyperTables
    ensures call != DropChunks(table, days) ==> call == PlainDelete(table, days)
  {
    RetentionStatementsDiffer(table, days);
    var values: seq<Value> := [];
    var r := 0;
    while r < |probe|
      invariant 0 <= r <= |probe|
      invariant values == if r == 0 then [] else probe[r - 1]
    {
      values := probe[r];
      r := r + 1;
    }
    if |values| == 0 {
      return PlainDelete(table, days);
    }
    var isHyperTable := false;
    var i := 0;
    while i < |hyperTables|
      invariant 0 <= i <= |hyperTables|
      invariant isHyperTable <==> table in hyperTables[..i]
    {
      assert hyperTables[..i + 1] == hyperTables[..i] + [hyperTables[i]];
      if hyperTables[i] == table {
        isHyperTable := true;
      }
      i := i + 1;
    }
    assert hyperTables[..i] == hyperTables;
    if isHyperTable {
      return DropChunks(table, days);
    }
    return PlainDelete(table, days);
  }

  // ---- Per-field batch queries ----

  /** One query per field name, in field order. */
  function PerField(fieldNames: seq<string>, render: string -> string): (r: seq<string>)
    ensures |r| == |fieldNames|
  {
    seq(|fieldNames|, i requires 0 <= i < |fieldNames| => render(fieldNames[i]))
  }

  /** The query GetLatestValue issues for one field. */
  function LatestValueQuery(table: string): string -> string
  {
    f => Queries.GetLatestValue(QuotedName(f), QuotedName(table), QuotedName(f))
  }

  function TimeSeriesQuery(table: string, start: string, end: string): string -> string
  {
    f => Queries.GetTimeSeriesValues(QuotedName(f), QuotedName(table), start, end)
  }

  function DownSampledQuery(table: string, start: string, end: string, seconds: int): string -> string
  {
    f => Queries.GetDownSampledValues(IntText(seconds), QuotedName(f), QuotedName(table), start, end)
  }

  function InterpolatedQuery(table: string, start: string, end: string, seconds: int): string -> string
  {
    f => Queries.GetInterpolatedValues(IntText(seconds), start, end, QuotedName(f), QuotedName(table), start, end)
  }

  /** The loop every batch reader runs: one query appended per field name. */
  method AppendQueries(fieldNames: seq<string>, render: string -> string) returns (queries: seq<string>)
    ensures queries == PerField(fieldNames, render)
  {
    queries := [];
    var i := 0;
    while i < |fieldNames|
      invariant 0 <= i <= |fieldNames|
      invariant queries == PerField(fieldNames[..i], render)
    {
      queries := queries + [render(fieldNames[i])];
      i := i + 1;
    }
    assert fieldNames[..i] == fieldNames;
  }

  /** GetLatestValue: for each field, its newest non-null sample. */
  method GetLatestValue(fieldNames: seq<string>, table: string) returns (queries: seq<string>)
    ensures queries == PerField(fieldNames, LatestValueQuery(table))
  {
    queries := AppendQueries(fieldNames, LatestValueQuery(table));
  }

  /** GetTimeSeriesValues: for each field, its samples between start and end. */
  method GetTimeSeriesValues(fieldNames: seq<string>, table: string, start: string, end: string)
    returns (queries: seq<string>)
    ensures queries == PerField(fieldNames, TimeSeriesQuery(table, start, end))
  {
    queries := AppendQueries(fieldNames, TimeSeriesQuery(table, start, end));
  }

  /** GetDownSampledValues: for each field, its averages per bucket of `seconds`. */
  method GetDownSampledValues(fieldNames: seq<string>, table: string, start: string, end: string, seconds: int)
    returns (queries: seq<string>)
    ensures queries == PerField(fieldNames, DownSampledQuery(table, start, end, seconds))
  {
    queries := AppendQueries(fieldNames, DownSampledQuery(table, start, end, seconds));
  }

  /** GetInterpolatedValues: for each field, its gap-filled bucket averages. */
  method GetInterpolatedValues(fieldNames: seq<string>, table: string, start: string, end: string, seconds: int)
    returns (queries: seq<string>)
    ensures queries == PerField(fieldNames, InterpolatedQuery(table, start, end, seconds))
  {
    queries := AppendQueries(fieldNames, InterpolatedQuery(table, start, end, seconds));
  }

  /** Distinct field names get distinct queries, so each result of the batch
      belongs to exactly one field. */
  lemma PerFieldDistinct(fieldNames: seq<string>, render: string -> string, i: nat, j: nat)
    requires i < |fieldNames| && j < |fieldNames| && fieldNames[i] != fieldNames[j]
    requires forall a, b :: render(a) == render(b) ==> a == b
    ensures PerField(fieldNames, render)[i] != PerField(fieldNames, render)[j]
  {
  }

  /** A query whose field name follows a fixed prefix, and whose length grows
      by once or twice the name's length, names its field unambiguously. */
  lemma InjectiveByShape(render: string -> string, prefix: string, copies: nat, a: string, b: string)
    requires copies == 1 || copies == 2
    requires prefix + a <= render(a) && |render(a)| == copies * |a| + |render("")|
    requires prefix + b <= render(b) && |render(b)| == copies * |b| + |render("")|
    requires render(a) == render(b)
    ensures a == b
  {
    var q := render(a);
    assert |a| == |b| by {
      if copies == 2 {
        assert 2 * |a| == 2 * |b|;
      }
    }
    assert q[..|prefix| + |a|] == prefix + a;
    assert q[..|prefix| + |b|] == prefix + b;
    assert (prefix + a)[|prefix|..] == a;
    assert (prefix + b)[|prefix|..] == b;
  }

  lemma LatestValueQueryShape(table: string, a: string)
    ensures "SELECT \"Time\", \"" + a <= LatestValueQuery(table)(a)
    ensures |LatestValueQuery(table)(a)| == 2 * |a| + |LatestValueQuery(table)("")|
  {
    var head := "SELECT \"Time\", " + QuotedName(a);
    assert ("SELECT \"Time\", \"" + a) <= head;
  }

  lemma TimeSeriesQueryShape(table: string, start: string, end: string, a: string)
    ensures "SELECT \"Time\", \"" + a <= TimeSeriesQuery(table, start, end)(a)
    ensures |TimeSeriesQuery(table, start, end)(a)| == |a| + |TimeSeriesQuery(table, start, end)("")|
  {
    var head := "SELECT \"Time\", " + QuotedName(a);
    assert ("SELECT \"Time\", \"" + a) <= head;
  }

  function DownSampledPrefix(seconds: int): string
  {
    "SELECT time_bucket('" + IntText(seconds) + " seconds', \"Time\") AS dateTime,avg(\""
  }

  lemma DownSampledQueryShape(table: string, start: string, end: string, seconds: int, a: string)
    ensures DownSampledPrefix(seconds) + a <= DownSampledQuery(table, start, end, seconds)(a)
  {
    var head := "SELECT time_bucket('" + IntText(seconds) + " seconds', \"Time\") AS dateTime,avg(" + QuotedName(a);
    assert DownSampledPrefix(seconds) + a <= head;
  }

  lemma DownSampledQueryLength(table: string, start: string, end: string, seconds: int, a: string)
    ensures |DownSampledQuery(table, start, end, seconds)(a)| == |a| + |DownSampledQuery(table, start, end, seconds)("")|
  {
  }

  function InterpolatedPrefix(start: string, end: string, seconds: int): string
  {
    "SELECT time_bucket_gapfill('" + IntText(seconds) + " seconds', \"Time\", '" + start + "','" + end
      + "') AS dateTime, locf(avg(\""
  }

  lemma InterpolatedQueryShape(table: string, start: string, end: string, seconds: int, a: string)
    ensures InterpolatedPrefix(start, end, seconds) + a <= InterpolatedQuery(table, start, end, seconds)(a)
  {
    var head := "SELECT time_bucket_gapfill('" + IntText(seconds) + " seconds', \"Time\", '" + start + "','" + end
      + "') AS dateTime, locf(avg(" + QuotedName(a);
    assert InterpolatedPrefix(start, end, seconds) + a <= head;
  }

  lemma InterpolatedQueryLength(table: string, start: string, end: string, seconds: int, a: string)
    ensures |InterpolatedQuery(table, start, end, seconds)(a)| == |a| + |InterpolatedQuery(table, start, end, seconds)("")|
  {
  }

  /** Each batch reader's queries tell their fields apart. */
  lemma LatestValueQueryInjective(table: string)
    ensures forall a, b :: LatestValueQuery(table)(a) == LatestValueQuery(table)(b) ==> a == b
  {
    forall a, b | LatestValueQuery(table)(a) == LatestValueQuery(table)(b)
      ensures a == b
    {
      LatestValueQueryShape(table, a);
      LatestValueQueryShape(table, b);
      InjectiveByShape(LatestValueQuery(table), "SELECT \"Time\", \"", 2, a, b);
    }
  }

  lemma TimeSeriesQueryInjective(table: string, start: string, end: string)
    ensures forall a, b :: TimeSeriesQuery(table, start, end)(a) == TimeSeriesQuery(table, start, end)(b) ==> a == b
  {
    forall a, b | TimeSeriesQuery(table, start, end)(a) == TimeSeriesQuery(table, start, end)(b)
      ensures a == b
    {
      TimeSeriesQueryShape(table, start, end, a);
      TimeSeriesQueryShape(table, start, end, b);
      InjectiveByShape(TimeSeriesQuery(table, start, end), "SELECT \"Time\", \"", 1, a, b);
    }
  }

  lemma DownSampledQueryInjective(table: string, start: string, end: string, seconds: int)
    ensures forall a, b ::
      (DownSampledQuery(table, start, end, seconds)(a) == DownSampledQuery(table, start, end, seconds)(b)) ==> a == b
  {
    forall a, b | DownSampledQuery(table, start, end, seconds)(a) == DownSampledQuery(table, start, end, seconds)(b)
      ensures a == b
    {
      DownSampledQueryShape(table, start, end, seconds, a);
      DownSampledQueryShape(table, start, end, seconds, b);
      DownSampledQueryLength(table, start, end, seconds, a);
      DownSampledQueryLength(table, start, end, seconds, b);
      InjectiveByShape(DownSampledQuery(table, start, end, seconds), DownSampledPrefix(seconds), 1, a, b);
    }
  }

  lemma InterpolatedQueryInjective(table: string, start: string, end: string, seconds: int)
    ensures forall a, b ::
      (InterpolatedQuery(table, start, end, seconds)(a) == InterpolatedQuery(table, start, end, seconds)(b)) ==> a == b
  {
    forall a, b | InterpolatedQuery(table, start, end, seconds)(a) == InterpolatedQuery(table, start, end, seconds)(b)
      ensures a == b
    {
      InterpolatedQueryShape(table, start, end, seconds, a);
      InterpolatedQueryShape(table, start, end, seconds, b);
      InterpolatedQueryLength(table, start, end, seconds, a);
      InterpolatedQueryLength(table, start, end, seconds, b);
      InjectiveByShape(InterpolatedQuery(table, start, end, seconds), InterpolatedPrefix(start, end, seconds), 1, a, b);
    }
  }

  // ---- Historian query ----

  /** The ORDER BY of the historian query. */
  function OrderBy(desc: bool): string
  {
    if desc then Queries.OrderByDesc else Queries.OrderByAsc
  }

  /** GetHistorianTimeSeriesValues: select, the WHERE fragment of the kind
      numbered `where` (none for a number that names no kind), the not-null
      filter, the order, the limit when positive, and the terminator. */
  function HistorianQuery(field: string, table: string, start: string, end: string,
                          desc: bool, where: nat, limit: nat): (r: string)
    requires where < 0x100 && limit < 0x1_0000_0000
    ensures Queries.SelectFrom(field, table) <= r && r[|r| - 1] == ';'
  {
    var w := Queries.FromOrdinal(where);
    Queries.SelectFrom(field, table)
      + (if w.Some? then Queries.WhereFragment(w.value, start, end) else "")
      + Queries.IsNotNull(field)
      + OrderBy(desc)
      + (if limit > 0 then Queries.SetLimit(limit) else "")
      + Queries.End
  }

  /** For a kind of time bound, the query filters with exactly that kind's
      conditions, then orders and limits. */
  lemma HistorianQueryFilters(field: string, table: string, start: string, end: string,
                              desc: bool, w: Queries.HistoricWhere, limit: nat)
    requires limit < 0x1_0000_0000
    ensures HistorianQuery(field, table, start, end, desc, Queries.Ordinal(w), limit)
         == Queries.SelectFrom(field, table)
          + Queries.RenderWhere(Queries.Conditions(w), start, end)
          + Queries.IsNotNull(field)
          + OrderBy(desc)
          + (if limit > 0 then Queries.SetLimit(limit) else "")
          + ";"
  {
    Queries.OrdinalRoundTrip(w);
    Queries.WhereFragmentRendersConditions(w, start, end);
  }

  /** A number naming no kind writes no WHERE at all: the not-null filter then
      follows the table name directly. */
  lemma HistorianQueryUnknownKind(field: string, table: string, start: string, end: string,
                                  desc: bool, where: nat, limit: nat)
    requires 5 <= where < 0x100 && limit < 0x1_0000_0000
    ensures HistorianQuery(field, table, start, end, desc, where, limit)
         == Queries.SelectFrom(field, table) + Queries.IsNotNull(field) + OrderBy(desc)
          + (if limit > 0 then Queries.SetLimit(limit) else "") + ";"
  {
    assert Queries.FromOrdinal(where).None?;
    assert Queries.SelectFrom(field, table) + "" == Queries.SelectFrom(field, table);
  }

  /** The limit written after ` LIMIT ` reads back as the requested limit. */
  lemma HistorianLimitReadsBack(limit: nat)
    requires 0 < limit < 0x1_0000_0000
    ensures Queries.SetLimit(limit) == " LIMIT " + IntText(limit)
    ensures Atoi(Queries.SetLimit(limit)[7..]) == Some(limit)
  {
    AtoiReadsIntText(limit);
  }
}
