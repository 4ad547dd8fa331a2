/** The SQL templates of the driver (drivers/sql/queries.go), each filled the
    way fmt.Sprintf fills its verbs, and the HistoricWhere enumeration with a
    structured reading of the WHERE fragments it selects. Arguments are the
    already rendered texts (identifiers, formatted timestamps, numbers). */
module Queries {
  import opened Common

  // ---- Schema and retention templates ----

  function CreateTable(definition: string): string
  {
    "CREATE TABLE IF NOT EXISTS " + definition
  }

  function CreateHyperTable(quotedTable: string): string
  {
    "SELECT create_hypertable('" + quotedTable + HyperTableOptions
  }

  /** What follows the table name: partitioned on Time in one-day chunks,
      and a no-op for an existing hypertable. */
  const HyperTableOptions: string := "','Time',chunk_time_interval => interval '1 days',if_not_exists => TRUE)"

  function CreateIndex(name: string, table: string, columns: string): string
  {
    "CREATE INDEX IF NOT EXISTS " + name + " ON " + table + " " + columns
  }

  const CheckTsdbAvailability: string := "SELECT * FROM pg_extension WHERE \"extname\" ='timescaledb'"

  /** Plain retention delete: the table comes first, then the number of days. */
  function PgDeleteValuesByInterval(table: string, days: string): string
  {
    "DELETE FROM \"" + table + "\" WHERE \"Time\" < now() - interval '" + days + " days'"
  }

  /** TimescaleDB retention: the number of days comes first, then the table. */
  function TsdbDeleteValuesByInterval(days: string, table: string): string
  {
    "SELECT drop_chunks(interval '" + days + " days', '" + table + "')"
  }

  const TsdbGetHypertables: string := "SELECT table_name from _timescaledb_catalog.hypertable;"

  // ---- Write templates ----

  function Upsert(table: string, fields: string, values: string, quotedConstraint: string, assignments: string): string
  {
    "INSERT INTO " + table + " " + fields + " VALUES " + values
      + " ON CONFLICT(" + quotedConstraint + ") DO UPDATE SET " + assignments
  }

  function Insert(table: string, fields: string, values: string): string
  {
    "INSERT INTO " + table + " " + fields + " VALUES " + values
  }

  // ---- Time-series read templates ----

  /** Latest non-null sample of one column: newest first, one row. */
  function GetLatestValue(field: string, table: string, filterField: string): string
  {
    "SELECT \"Time\", " + field + " FROM " + table + " WHERE " + filterField
      + " IS NOT NULL ORDER BY TIME DESC LIMIT 1;"
  }

  /** Raw samples with start <= Time <= end (BETWEEN is inclusive), newest first. */
  function GetTimeSeriesValues(field: string, table: string, start: string, end: string): string
  {
    "SELECT \"Time\", " + field + " FROM " + table + " WHERE \"Time\" BETWEEN '" + start
      + "' AND '" + end + "' ORDER BY \"Time\" DESC"
  }

  function GetDownSampledValues(seconds: string, field: string, table: string, start: string, end: string): string
  {
    "SELECT time_bucket('" + seconds + " seconds', \"Time\") AS dateTime,avg(" + field + ") FROM " + table
      + " WHERE \"Time\" BETWEEN '" + start + "' AND '" + end + "' GROUP BY dateTime ORDER BY dateTime DESC"
  }

  function GetInterpolatedValues(seconds: string, bucketStart: string, bucketEnd: string, field: string,
                                 table: string, start: string, end: string): string
  {
    "SELECT time_bucket_gapfill('" + seconds + " seconds', \"Time\", '" + bucketStart + "','" + bucketEnd
      + "') AS dateTime, locf(avg(" + field + ")) FROM " + table + " WHERE \"Time\" BETWEEN '" + start
      + "' and '" + end + "' GROUP BY dateTime ORDER BY dateTime DESC;"
  }

  // ---- Historian fragments ----

  function SelectFrom(field: string, table: string): string
  {
    "SELECT \"Time\", \"" + field + "\" FROM \"" + table + "\""
  }

  function SetLimit(limit: nat): string
  {
    " LIMIT " + IntText(limit)
  }

  function WhereTimeSlot(start: string, end: string): string
  {
    " WHERE \"Time\" > '" + start + "' AND \"Time\" < '" + end + "'"
  }

  function WhereTimeSlotEqStart(start: string, end: string): string
  {
    " WHERE \"Time\" >= '" + start + "' AND \"Time\" < '" + end + "'"
  }

  function WhereTimeSlotEqEnd(start: string, end: string): string
  {
    " WHERE \"Time\" > '" + start + "' AND \"Time\" <= '" + end + "'"
  }

  function WhereTimeLess(start: string): string
  {
    " WHERE \"Time\" > '" + start + "'"
  }

  function WhereTimetGreater(start: string): string
  {
    " WHERE \"Time\" < '" + start + "'"
  }

  function IsNotNull(field: string): string
  {
    " AND \"" + field + "\" IS NOT NULL"
  }

  const OrderByAsc: string := " ORDER BY \"Time\" ASC"
  const OrderByDesc: string := " ORDER BY \"Time\" DESC"
  const End: string := ";"

  // ---- HistoricWhere ----

  /** The kinds of time bound a historian read can use, in declaration order. */
  datatype HistoricWhere =
    | HistoricWhereTimeGreater
    | HistoricWhereTimeLess
    | HistoricWhereTimeSlot
    | HistoricWhereTimeSlotEqStart
    | HistoricWhereTimeSlotEqEnd

  /** The value iota gives each kind (the Go type is uint8). */
  function Ordinal(w: HistoricWhere): (n: nat)
    ensures n < 5
  {
    match w
    case HistoricWhereTimeGreater => 0
    case HistoricWhereTimeLess => 1
    case HistoricWhereTimeSlot => 2
    case HistoricWhereTimeSlotEqStart => 3
    case HistoricWhereTimeSlotEqEnd => 4
  }

  /** The kind a uint8 value names; 5..255 name none. */
  function FromOrdinal(n: nat): (w: Option<HistoricWhere>)
    ensures w.Some? <==> n < 5
    ensures w.Some? ==> Ordinal(w.value) == n
  {
    if n == 0 then Some(HistoricWhereTimeGreater)
    else if n == 1 then Some(HistoricWhereTimeLess)
    else if n == 2 then Some(HistoricWhereTimeSlot)
    else if n == 3 then Some(HistoricWhereTimeSlotEqStart)
    else if n == 4 then Some(HistoricWhereTimeSlotEqEnd)
    else None
  }

  lemma OrdinalRoundTrip(w: HistoricWhere)
    ensures FromOrdinal(Ordinal(w)) == Some(w)
  {
  }

  /** The WHERE fragment the historian query writes for a kind. */
  function WhereFragment(w: HistoricWhere, start: string, end: string): string
  {
    match w
    case HistoricWhereTimeGreater => WhereTimetGreater(start)
    case HistoricWhereTimeLess => WhereTimeLess(start)
    case HistoricWhereTimeSlot => WhereTimeSlot(start, end)
    case HistoricWhereTimeSlotEqStart => WhereTimeSlotEqStart(start, end)
    case HistoricWhereTimeSlotEqEnd => WhereTimeSlotEqEnd(start, end)
  }

  // ---- A structured reading of the WHERE fragments ----

  datatype Comparison = Above | AtLeast | Below | AtMost
  datatype Bound = StartBound | EndBound

  /** `"Time" <op> '<bound>'` */
  datatype TimeCondition = TimeCondition(op: Comparison, bound: Bound)

  function OperatorText(c: Comparison): string
  {
    match c
    case Above => ">"
    case AtLeast => ">="
    case Below => "<"
    case AtMost => "<="
  }

  function Compare(c: Comparison, t: int, b: int): bool
  {
    match c
    case Above => t > b
    case AtLeast => t >= b
    case Below => t < b
    case AtMost => t <= b
  }

  function ConditionText(c: TimeCondition, start: string, end: string): string
  {
    "\"Time\" " + OperatorText(c.op) + " '" + (if c.bound == StartBound then start else end) + "'"
  }

  function ConditionTexts(cs: seq<TimeCondition>, start: string, end: string): (r: seq<string>)
    ensures |r| == |cs|
  {
    if cs == [] then [] else ConditionTexts(cs[..|cs| - 1], start, end) + [ConditionText(cs[|cs| - 1], start, end)]
  }

  function RenderWhere(cs: seq<TimeCondition>, start: string, end: string): string
  {
    " WHERE " + Join(ConditionTexts(cs, start, end), " AND ")
  }

  /** The conditions each kind stands for. */
  function Conditions(w: HistoricWhere): seq<TimeCondition>
  {
    match w
    case HistoricWhereTimeGreater => [TimeCondition(Below, StartBound)]
    case HistoricWhereTimeLess => [TimeCondition(Above, StartBound)]
    case HistoricWhereTimeSlot => [TimeCondition(Above, StartBound), TimeCondition(Below, EndBound)]
    case HistoricWhereTimeSlotEqStart => [TimeCondition(AtLeast, StartBound), TimeCondition(Below, EndBound)]
    case HistoricWhereTimeSlotEqEnd => [TimeCondition(Above, StartBound), TimeCondition(AtMost, EndBound)]
  }

  /** A row whose Time is `t` passes every condition. */
  predicate Admits(cs: seq<TimeCondition>, start: int, end: int, t: int)
  {
    forall i :: 0 <= i < |cs| ==> Compare(cs[i].op, t, if cs[i].bound == StartBound then start else end)
  }

  /** Two rendered conditions joined by AND, spelled out. */
  lemma RenderTwo(c0: TimeCondition, c1: TimeCondition, start: string, end: string)
    ensures RenderWhere([c0, c1], start, end)
         == " WHERE " + ConditionText(c0, start, end) + " AND " + ConditionText(c1, start, end)
  {
    var a, b := ConditionText(c0, start, end), ConditionText(c1, start, end);
    assert [c0, c1][..1] == [c0];
    assert ConditionTexts([c0, c1], start, end) == [a, b];
    assert [a, b][..1] == [a];
    assert Join([a, b], " AND ") == a + " AND " + b;
    assert " WHERE " + (a + " AND " + b) == " WHERE " + a + " AND " + b;
  }

  lemma TimeGreaterRenders(start: string, end: string)
    ensures WhereTimetGreater(start) == RenderWhere(Conditions(HistoricWhereTimeGreater), start, end)
  {
    var cs := Conditions(HistoricWhereTimeGreater);
    assert ConditionTexts(cs, start, end) == [ConditionText(cs[0], start, end)];
    calc {
      RenderWhere(cs, start, end);
      " WHERE " + ("\"Time\" " + "<" + " '" + start + "'");
      (" WHERE " + "\"Time\" " + "<" + " '") + start + "'";
      { assert " WHERE " + "\"Time\" " + "<" + " '" == " WHERE \"Time\" < '"; }
      " WHERE \"Time\" < '" + start + "'";
    }
  }

  lemma TimeLessRenders(start: string, end: string)
    ensures WhereTimeLess(start) == RenderWhere(Conditions(HistoricWhereTimeLess), start, end)
  {
    var cs := Conditions(HistoricWhereTimeLess);
    assert ConditionTexts(cs, start, end) == [ConditionText(cs[0], start, end)];
    calc {
      RenderWhere(cs, start, end);
      " WHERE " + ("\"Time\" " + ">" + " '" + start + "'");
      (" WHERE " + "\"Time\" " + ">" + " '") + start + "'";
      { assert " WHERE " + "\"Time\" " + ">" + " '" == " WHERE \"Time\" > '"; }
      " WHERE \"Time\" > '" + start + "'";
    }
  }

  /** A two-condition rendering, regrouped around the two time texts. */
  lemma RegroupTwo(op0: string, op1: string, start: string, end: string)
    ensures " WHERE " + ("\"Time\" " + op0 + " '" + start + "'") + " AND " + ("\"Time\" " + op1 + " '" + end + "'")
         == (" WHERE \"Time\" " + op0 + " '") + start + ("' AND \"Time\" " + op1 + " '") + end + "'"
  {
    assert " WHERE " + "\"Time\" " == " WHERE \"Time\" ";
    assert "'" + " AND " + "\"Time\" " == "' AND \"Time\" ";
  }

  lemma TimeSlotRenders(start: string, end: string)
    ensures WhereTimeSlot(start, end) == RenderWhere(Conditions(HistoricWhereTimeSlot), start, end)
  {
    var cs := Conditions(HistoricWhereTimeSlot);
    RenderTwo(cs[0], cs[1], start, end);
    RegroupTwo(">", "<", start, end);
    assert " WHERE \"Time\" " + ">" + " '" == " WHERE \"Time\" > '";
    assert "' AND \"Time\" " + "<" + " '" == "' AND \"Time\" < '";
  }

  lemma TimeSlotEqStartRenders(start: string, end: string)
    ensures WhereTimeSlotEqStart(start, end) == RenderWhere(Conditions(HistoricWhereTimeSlotEqStart), start, end)
  {
    var cs := Conditions(HistoricWhereTimeSlotEqStart);
    RenderTwo(cs[0], cs[1], start, end);
    RegroupTwo(">=", "<", start, end);
    assert " WHERE \"Time\" " + ">=" + " '" == " WHERE \"Time\" >= '";
    assert "' AND \"Time\" " + "<" + " '" == "' AND \"Time\" < '";
  }

  lemma TimeSlotEqEndRenders(start: string, end: string)
    ensures WhereTimeSlotEqEnd(start, end) == RenderWhere(Conditions(HistoricWhereTimeSlotEqEnd), start, end)
  {
    var cs := Conditions(HistoricWhereTimeSlotEqEnd);
    RenderTwo(cs[0], cs[1], start, end);
    RegroupTwo(">", "<=", start, end);
    assert " WHERE \"Time\" " + ">" + " '" == " WHERE \"Time\" > '";
    assert "' AND \"Time\" " + "<=" + " '" == "' AND \"Time\" <= '";
  }

  /** Every template fragment is exactly the rendering of its kind's conditions. */
  lemma WhereFragmentRendersConditions(w: HistoricWhere, start: string, end: string)
    ensures WhereFragment(w, start, end) == RenderWhere(Conditions(w), start, end)
  {
    match w
    case HistoricWhereTimeGreater => TimeGreaterRenders(start, end);
    case HistoricWhereTimeLess => TimeLessRenders(start, end);
    case HistoricWhereTimeSlot => TimeSlotRenders(start, end);
    case HistoricWhereTimeSlotEqStart => TimeSlotEqStartRenders(start, end);
    case HistoricWhereTimeSlotEqEnd => TimeSlotEqEndRenders(start, end);
  }

  /** What each kind lets through, for times ordered like the formatted
      texts: the two one-bound kinds test the start only, and their names are
      the reverse of their operators (TimeGreater keeps times BEFORE start). */
  lemma WhereSemantics(w: HistoricWhere, start: int, end: int, t: int)
    ensures Admits(Conditions(w), start, end, t) <==>
      match w
      case HistoricWhereTimeGreater => t < start
      case HistoricWhereTimeLess => t > start
      case HistoricWhereTimeSlot => start < t < end
      case HistoricWhereTimeSlotEqStart => start <= t < end
      case HistoricWhereTimeSlotEqEnd => start < t <= end
  {
    var cs := Conditions(w);
    if |cs| == 1 {
      assert Admits(cs, start, end, t) <==> Compare(cs[0].op, t, start);
    } else {
      assert Admits(cs, start, end, t) <==> Compare(cs[0].op, t, start) && Compare(cs[1].op, t, end) by {
        if Compare(cs[0].op, t, start) && Compare(cs[1].op, t, end) {
          forall i | 0 <= i < |cs|
            ensures Compare(cs[i].op, t, if cs[i].bound == StartBound then start else end)
          {
            assert i == 0 || i == 1;
          }
        }
      }
    }
  }
}
