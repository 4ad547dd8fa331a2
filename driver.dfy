/** The statement-issuing operations of the pgx driver (drivers/sql/sql.go):
    what text each of Insert, BuildInsertQuery, Upsert, Delete, DeleteByID,
    Update, CreateTable, createHyperTable and CreateIndex hands to the
    database. The database itself is not modelled: each operation returns the
    call it makes, an `Exec` (a statement) or a `Query` (rows expected back). */
module SqlDriver {
  import opened Common
  import opened SqlTypes
  import opened SqlBuilders
  import Queries

  /** The call an operation makes on the connection pool. */
  datatype Call = Exec(sql: string) | Query(sql: string)

  /** `schema."table"`, with an empty schema read as "public". */
  function QualifiedTable(schema: string, table: string): string
  {
    (if schema == "" then "public" else schema) + "." + QuotedName(table)
  }

  /** The column list of an insert. */
  function Columns(rows: Rows): string
  {
    ColumnList(QuotedNames(rows.fields))
  }

  /** BuildInsertQuery's optional tail: the bare returned names after the list trim. */
  function ReturningSuffix(returning: seq<Field>): string
  {
    if returning == [] then "" else " returning " + TrimRight(Terminated(Names(returning), ", "), ListCut)
  }

  /** BuildInsertQuery: the insert template on the qualified table, the quoted
      column list and the values string; a builder panic is the result. */
  method BuildInsertQuery(rows: Rows, returning: seq<Field>, quote: string -> string) returns (r: Result<string>)
    ensures r.Ok? <==> ValuesText(rows, quote).Ok?
    ensures r.Err? ==> r == ValuesText(rows, quote)
    ensures r.Ok? ==> r.value == Queries.Insert(QualifiedTable(rows.schemaName, rows.tableName), Columns(rows),
                                                ValuesText(rows, quote).value) + ReturningSuffix(returning)
  {
    var schema := rows.schemaName;
    if schema == "" {
      schema := "public";
    }
    var target := schema + "." + QuotedName(rows.tableName);
    var fieldsString := BuildFieldsString(rows.fields);
    var values := BuildValuesString(rows, quote);
    if values.Err? {
      return Err(values.error);
    }
    var query := Queries.Insert(target, fieldsString, values.value);
    if |returning| > 0 {
      var clause := BuildReturningClause(returning);
      query := query + (" returning " + clause);
    }
    r := Ok(query);
  }

  /** Insert: without returned fields the insert is executed; with them, the
      values string is followed by " returning " and the QUOTED, parenthesised
      column list of the returned fields, and the statement is run as a query. */
  method Insert(rows: Rows, returning: seq<Field>, quote: string -> string) returns (r: Result<Call>)
    ensures r.Ok? <==> ValuesText(rows, quote).Ok?
    ensures r.Err? ==> r.error == ValuesText(rows, quote).error
    ensures r.Ok? && returning == [] ==>
      r.value == Exec(Queries.Insert(QualifiedTable(rows.schemaName, rows.tableName), Columns(rows),
                                     ValuesText(rows, quote).value))
    ensures r.Ok? && returning != [] ==>
      r.value == Query(Queries.Insert(QualifiedTable(rows.schemaName, rows.tableName), Columns(rows),
                                      ValuesText(rows, quote).value + " returning " + ColumnList(QuotedNames(returning))))
  {
    var schema := rows.schemaName;
    if schema == "" {
      schema := "public";
    }
    var target := schema + "." + QuotedName(rows.tableName);
    var fieldsString := BuildFieldsString(rows.fields);
    var values := BuildValuesString(rows, quote);
    if values.Err? {
      return Err(values.error);
    }
    if |returning| == 0 {
      return Ok(Exec(Queries.Insert(target, fieldsString, values.value)));
    }
    var returned := BuildFieldsString(returning);
    r := Ok(Query(Queries.Insert(target, fieldsString, values.value + " returning " + returned)));
  }

  /** For well-typed rows whose literals survive the list trim, the insert
      statement lists the quoted columns and then every tuple's literals in
      parentheses, tuples separated by ", ". */
  lemma InsertOfCleanRows(rows: Rows, quote: string -> string, lits: seq<seq<string>>)
    requires AllLiterals(rows.fields, rows.values, quote) == Ok(lits)
    requires forall i :: 0 <= i < |lits| ==> CleanRow(lits[i])
    ensures ValuesText(rows, quote) == Ok(Join(Parenthesised(RowTexts(lits)), ", "))
    ensures rows.values == [] ==> ValuesText(rows, quote) == Ok("")
  {
    ValuesStringOfCleanRows(lits);
  }

  /** Upsert: the insert on the double-quoted table name (the schema is not
      used), with ON CONFLICT on the %q-quoted constraint column and an
      EXCLUDED assignment for every other field. */
  method Upsert(rows: Rows, constraint: string, quote: string -> string) returns (r: Result<Call>)
    ensures r.Ok? <==> ValuesText(rows, quote).Ok?
    ensures r.Err? ==> r.error == ValuesText(rows, quote).error
    ensures r.Ok? ==>
      r.value == Exec(Queries.Upsert(QuotedName(rows.tableName), Columns(rows), ValuesText(rows, quote).value,
                                     GoQuote(constraint), Join(Assignments(rows.fields, constraint), ", ")))
  {
    var table := QuotedName(rows.tableName);
    var fieldsString := BuildFieldsString(rows.fields);
    var values := BuildValuesString(rows, quote);
    if values.Err? {
      return Err(values.error);
    }
    var assignments := BuildOnConstrainString(rows.fields, constraint);
    r := Ok(Exec(Queries.Upsert(table, fieldsString, values.value, GoQuote(constraint), assignments)));
  }

  lemma ExcludedInjective(a: string, b: string)
    requires Excluded(a) == Excluded(b)
    ensures a == b
  {
    assert |Excluded(a)| == 2 * |a| + 14;
    assert |Excluded(b)| == 2 * |b| + 14;
    forall i | 0 <= i < |a|
      ensures a[i] == b[i]
    {
      assert a[i] == Excluded(a)[i + 1];
      assert b[i] == Excluded(b)[i + 1];
    }
  }

  /** The conflict column is never overwritten by the upsert, and every other
      field is. */
  lemma UpsertKeepsConstraintColumn(fields: seq<Field>, constraint: string)
    ensures Excluded(constraint) !in Assignments(fields, constraint)
    ensures forall f :: f in fields && f.name != constraint ==> Excluded(f.name) in Assignments(fields, constraint)
  {
    if Excluded(constraint) in Assignments(fields, constraint) {
      var f :| f in fields && f.name != constraint && Excluded(constraint) == Excluded(f.name);
      ExcludedInjective(constraint, f.name);
    }
    forall f | f in fields && f.name != constraint
      ensures Excluded(f.name) in Assignments(fields, constraint)
    {
      AssignmentsCover(fields, constraint, f);
    }
  }

  lemma {:induction false} AssignmentsCover(fields: seq<Field>, constraint: string, f: Field)
    requires f in fields && f.name != constraint
    ensures Excluded(f.name) in Assignments(fields, constraint)
  {
    var n := |fields| - 1;
    if fields[n] != f {
      assert f in fields[..n] by {
        var k :| 0 <= k < |fields| && fields[k] == f;
        assert fields[..n][k] == f;
      }
      AssignmentsCover(fields[..n], constraint, f);
    }
  }

  /** Delete: an executed `delete from <table> where <column> = ` followed by
      the QuoteString of the value. */
  function Delete(table: string, column: string, value: string, quote: string -> string): (r: Call)
    ensures r.Exec? && "delete from " + table + " where " + column + " = " <= r.sql
    ensures |quote(value)| <= |r.sql| && r.sql[|r.sql| - |quote(value)|..] == quote(value)
    ensures |r.sql| == |"delete from " + table + " where " + column + " = "| + |quote(value)|
  {
    Exec("delete from " + table + " where " + column + " = " + quote(value))
  }

  /** On one table and column, two deletes are the same statement exactly
      when the quoted values are the same: the value is all that follows ` = `. */
  lemma DeleteDeterminesValue(table: string, column: string, a: string, b: string, quote: string -> string)
    ensures Delete(table, column, a, quote) == Delete(table, column, b, quote) <==> quote(a) == quote(b)
  {
    var head := "delete from " + table + " where " + column + " = ";
    if Delete(table, column, a, quote) == Delete(table, column, b, quote) {
      assert (head + quote(a))[|head|..] == quote(a);
      assert (head + quote(b))[|head|..] == quote(b);
    }
  }

  /** DeleteByID: a delete on the "id" column with strconv.Itoa's decimal
      text of `id`, which Atoi reads back as `id`. */
  function DeleteById(table: string, id: int, quote: string -> string): (r: Call)
    requires MinInt64 <= id <= MaxInt64
    ensures r == Delete(table, "id", IntText(id), quote) && Atoi(IntText(id)) == Some(id)
  {
    AtoiReadsIntText(id);
    Delete(table, "id", IntText(id), quote)
  }

  // ---- Update ----

  /** The cell of an update: kept as is when it holds a brace (what isString
      decides, see GoDecision), otherwise single-quoted. */
  function SetValue(s: string): string
  {
    if '{' in s then s else "'" + s + "'"
  }

  /** Update's own test, isString, makes the same decision. */
  lemma GoDecision(s: string)
    ensures SetValue(s) == if IsString(s) then s else "'" + s + "'"
  {
    IsStringIffBrace(s);
  }

  /** The j-th assignment `column = value` of the argument list. */
  function Pair(q: seq<string>, j: nat, val: string -> string): string
    requires 2 * j + 2 < |q|
  {
    q[2 * j + 1] + " = " + val(q[2 * j + 2])
  }

  /** The first `k` assignments of the argument list. */
  function SetPairs(q: seq<string>, k: nat, val: string -> string): (r: seq<string>)
    requires 2 * k < |q|
    ensures |r| == k
  {
    seq(k, j requires 0 <= j < k => Pair(q, j, val))
  }

  /** ` where <key> = <value>`; the key value is written as quoted, without SetValue. */
  function WhereClause(key: string, value: string): string
  {
    " where " + key + " = " + value
  }

  /** The text Update builds from its (already quoted) arguments, with each
      assignment's value rendered by `val` (SetValue in Update), in closed
      form: with an odd count of at least five, the assignments joined by ", "
      and a WHERE on the last two arguments; otherwise every complete pair
      followed by ", " and no WHERE at all (an even count drops the last
      argument). */
  function UpdateText(q: seq<string>, val: string -> string): string
    requires |q| > 0
  {
    var n := |q|;
    "update " + q[0] + " set "
      + (if n % 2 == 1 && n >= 5
         then Join(SetPairs(q, (n - 3) / 2, val), ", ") + WhereClause(q[n - 2], q[n - 1])
         else Terminated(SetPairs(q, (n - 1) / 2, val), ", "))
  }

  lemma JoinIsTerminatedThenLast(parts: seq<string>, sep: string)
    requires |parts| > 0
    ensures Join(parts, sep) == Terminated(parts[..|parts| - 1], sep) + parts[|parts| - 1]
  {
    var n := |parts| - 1;
    JoinEndsWithLast(parts, sep);
    if n > 0 {
      TerminatedIsJoinThenSep(parts[..n], sep);
    }
  }

  /** The text before the assignments. */
  function UpdateHead(q: seq<string>): string
    requires |q| > 0
  {
    "update " + q[0] + " set "
  }

  /** An odd index writes one more assignment followed by ", ". */
  lemma PairsStep(sb: string, q: seq<string>, k: nat, index: nat, val: string -> string)
    requires index == 2 * k + 1 && index + 1 < |q|
    requires sb == UpdateHead(q) + Terminated(SetPairs(q, k, val), ", ")
    ensures sb + Pair(q, index / 2, val) + ", " == UpdateHead(q) + Terminated(SetPairs(q, k + 1, val), ", ")
  {
    assert index / 2 == k;
    var t := Terminated(SetPairs(q, k, val), ", ");
    assert SetPairs(q, k + 1, val)[..k] == SetPairs(q, k, val);
    assert Terminated(SetPairs(q, k + 1, val), ", ") == t + Pair(q, k, val) + ", ";
    Regroup(UpdateHead(q), t, Pair(q, k, val), ", ");
  }

  /** At index len-4 the last assignment and the WHERE complete the statement. */
  lemma PairsThenWhere(sb: string, q: seq<string>, k: nat, index: nat, val: string -> string)
    requires index == 2 * k + 1 && index == |q| - 4
    requires sb == UpdateHead(q) + Terminated(SetPairs(q, k, val), ", ")
    ensures sb + Pair(q, index / 2, val) + WhereClause(q[index + 2], q[index + 3])
         == UpdateHead(q) + (Join(SetPairs(q, (|q| - 3) / 2, val), ", ") + WhereClause(q[|q| - 2], q[|q| - 1]))
  {
    assert index / 2 == k;
    Halves(k + 2, |q|);
    assert (|q| - 3) / 2 == k + 1;
    var pairs := SetPairs(q, k + 1, val);
    assert pairs[..k] == SetPairs(q, k, val);
    JoinIsTerminatedThenLast(pairs, ", ");
    var w := WhereClause(q[|q| - 2], q[|q| - 1]);
    Regroup(UpdateHead(q), Terminated(SetPairs(q, k, val), ", "), Pair(q, k, val), w);
  }

  /** The closed form, in the case with a WHERE clause. */
  lemma UpdateTextWithWhere(q: seq<string>, val: string -> string)
    requires |q| % 2 == 1 && |q| >= 5
    ensures UpdateText(q, val) == UpdateHead(q)
      + (Join(SetPairs(q, (|q| - 3) / 2, val), ", ") + WhereClause(q[|q| - 2], q[|q| - 1]))
  {
  }

  /** The closed form, in the case without one. */
  lemma UpdateTextWithoutWhere(q: seq<string>, val: string -> string)
    requires |q| > 0 && !(|q| % 2 == 1 && |q| >= 5)
    ensures UpdateText(q, val) == UpdateHead(q) + Terminated(SetPairs(q, (|q| - 1) / 2, val), ", ")
  {
  }

  /** Running off the end of the loop: every complete pair was written. */
  lemma AllPairsWritten(sb: string, q: seq<string>, k: nat, val: string -> string)
    requires |q| - 1 == 2 * k || |q| - 1 == 2 * k + 1
    requires sb == UpdateHead(q) + Terminated(SetPairs(q, k, val), ", ")
    ensures sb == UpdateHead(q) + Terminated(SetPairs(q, (|q| - 1) / 2, val), ", ")
  {
    Halves(k, |q| - 1);
  }

  lemma Halves(p: nat, x: int)
    requires x == 2 * p || x == 2 * p + 1
    ensures x / 2 == p && (x % 2 == 1 <==> x == 2 * p + 1)
  {
  }

  /** Update's string building: the loop over `args[1:]` whose odd indexes
      write an assignment and which stops at index len(args)-4 with the WHERE.
      The two cases are the two halves of UpdateText. */
  method BuildUpdate(q: seq<string>, val: string -> string) returns (r: string)
    requires |q| > 0
    ensures |q| % 2 == 1 && |q| >= 5 ==>
      r == UpdateHead(q) + (Join(SetPairs(q, (|q| - 3) / 2, val), ", ") + WhereClause(q[|q| - 2], q[|q| - 1]))
    ensures !(|q| % 2 == 1 && |q| >= 5) ==> r == UpdateHead(q) + Terminated(SetPairs(q, (|q| - 1) / 2, val), ", ")
  {
    var n := |q|;
    var sb := "update " + q[0] + " set ";
    var index := 0;
    ghost var k: nat := 0;
    while index < n - 1
      invariant 0 <= index <= n - 1
      invariant index == 2 * k || index == 2 * k + 1
      invariant n % 2 == 1 && n >= 5 ==> index <= n - 4
      invariant sb == UpdateHead(q) + Terminated(SetPairs(q, k, val), ", ")
    {
      Halves(k, index);
      if index % 2 > 0 {
        if index == n - 4 {
          PairsThenWhere(sb, q, k, index, val);
          Halves(k + 2, n);
          sb := sb + Pair(q, index / 2, val);
          sb := sb + WhereClause(q[index + 2], q[index + 3]);
          return sb;
        }
        PairsStep(sb, q, k, index, val);
        sb := sb + Pair(q, index / 2, val) + ", ";
        k := k + 1;
      }
      index := index + 1;
    }
    AllPairsWritten(sb, q, k, val);
    r := sb;
  }

  /** The arguments after QuoteString. */
  function QuotedArgs(args: seq<string>, quote: string -> string): (r: seq<string>)
    ensures |r| == |args| && forall i :: 0 <= i < |args| ==> r[i] == quote(args[i])
  {
    seq(|args|, i requires 0 <= i < |args| => quote(args[i]))
  }

  /** The first loop of Update: every argument replaced by its QuoteString, in place. */
  method QuoteArgs(args: array<string>, quote: string -> string)
    modifies args
    ensures args[..] == QuotedArgs(old(args[..]), quote)
  {
    var idx := 0;
    while idx < args.Length
      invariant 0 <= idx <= args.Length
      invariant forall i :: 0 <= i < idx ==> args[i] == quote(old(args[i]))
      invariant forall i :: idx <= i < args.Length ==> args[i] == old(args[i])
    {
      args[idx] := quote(args[idx]);
      idx := idx + 1;
    }
  }

  /** Update: quotes every argument in place, then builds the statement; with
      no arguments at all, reading args[0] panics. */
  method Update(args: array<string>, quote: string -> string) returns (r: Result<Call>)
    modifies args
    ensures args[..] == QuotedArgs(old(args[..]), quote)
    ensures args.Length == 0 ==> r == Err(IndexPanic)
    ensures args.Length > 0 ==> r == Ok(Exec(UpdateText(args[..], SetValue)))
  {
    QuoteArgs(args, quote);
    if args.Length == 0 {
      return Err(IndexPanic);
    }
    var q := args[..];
    var text := BuildUpdate(q, SetValue);
    if |q| % 2 == 1 && |q| >= 5 {
      UpdateTextWithWhere(q, SetValue);
    } else {
      UpdateTextWithoutWhere(q, SetValue);
    }
    r := Ok(Exec(text));
  }

  /** The intended call shape: a table, one assignment, a key column and its
      value, gives an update of that one column on the rows matching the key. */
  lemma UpdateOneColumn(table: string, column: string, value: string, key: string, keyValue: string)
    requires '{' !in value
    ensures UpdateText([table, column, value, key, keyValue], SetValue)
         == "update " + table + " set " + (column + " = " + "'" + value + "'") + WhereClause(key, keyValue)
  {
    var q := [table, column, value, key, keyValue];
    UpdateTextWithWhere(q, SetValue);
    var p := column + " = " + SetValue(value);
    assert SetPairs(q, 1, SetValue) == [p];
    assert Join([p], ", ") == p;
    AppendAssociates("update " + table + " set ", p, WhereClause(key, keyValue));
  }

  /** Three arguments give no WHERE clause (every row is updated) and leave a
      trailing ", " in the statement. */
  lemma UpdateThreeArgsHasNoWhere(table: string, column: string, value: string)
    requires '{' !in value
    ensures UpdateText([table, column, value], SetValue) == "update " + table + " set " + (column + " = " + "'" + value + "'") + ", "
  {
    var q := [table, column, value];
    UpdateTextWithoutWhere(q, SetValue);
    var p := column + " = " + SetValue(value);
    assert SetPairs(q, 1, SetValue) == [p];
    TerminatedSingle(p, ", ");
    AppendAssociates("update " + table + " set ", p, ", ");
  }

  // ---- Schema statements ----

  /** One column definition: `"name" type`, with ` not null unique` for a constraint column. */
  function ColumnDef(f: Field, unique: bool): string
  {
    QuotedName(f.name) + " " + DatatypeName(f.kind) + (if unique then " not null unique" else "")
  }

  /** The definitions CreateTable writes for one field: one per constraint
      name (unique only against its own name), or a single plain one when
      there are no constraints. */
  function FieldDefs(f: Field, constraints: seq<string>): (r: seq<string>)
    ensures |r| == if constraints == [] then 1 else |constraints|
  {
    if constraints == [] then [ColumnDef(f, false)]
    else seq(|constraints|, j requires 0 <= j < |constraints| => ColumnDef(f, f.name == constraints[j]))
  }

  /** Every field's definitions, in field order. */
  function ColumnDefs(fields: seq<Field>, constraints: seq<string>): seq<string>
  {
    if fields == [] then []
    else ColumnDefs(fields[..|fields| - 1], constraints) + FieldDefs(fields[|fields| - 1], constraints)
  }

  /** Each field is defined once per constraint name (or once with none). */
  lemma {:induction false} ColumnDefsCount(fields: seq<Field>, constraints: seq<string>)
    ensures |ColumnDefs(fields, constraints)| == |fields| * (if constraints == [] then 1 else |constraints|)
  {
    if fields != [] {
      var m := if constraints == [] then 1 else |constraints|;
      ColumnDefsCount(fields[..|fields| - 1], constraints);
      assert (|fields| - 1) * m + m == |fields| * m;
    }
  }

  /** The parenthesised table definition after the list trim. */
  function TableDefinition(table: string, defs: seq<string>): string
  {
    TrimRight(QuotedName(table) + " (" + Terminated(defs, ", "), ListCut) + ")"
  }

  /** When the last definition survives the trim, the definition is the
      definitions joined by ", " in parentheses; no fields give `"t" ()`. */
  lemma TableDefinitionJoins(table: string, defs: seq<string>)
    requires defs == [] || EndsOutside(defs[|defs| - 1], ListCut)
    ensures TableDefinition(table, defs) == QuotedName(table) + " (" + Join(defs, ", ") + ")"
  {
    var p := QuotedName(table) + " (";
    assert p[|p| - 1] == '(';
    TrimTerminated(p, defs, ListCut);
  }

  /** createHyperTable: the create_hypertable call on the double-quoted table
      name, executed. */
  function CreateHyperTable(table: string): (r: Call)
    ensures r == Exec("SELECT create_hypertable('\"" + table + "\"" + Queries.HyperTableOptions)
  {
    HyperTableText(table);
    Exec(Queries.CreateHyperTable(QuotedName(table)))
  }

  lemma HyperTableText(table: string)
    ensures Queries.CreateHyperTable(QuotedName(table))
         == "SELECT create_hypertable('\"" + table + "\"" + Queries.HyperTableOptions
  {
    var open := "SELECT create_hypertable('";
    Regroup(open, "\"", table, "\"");
    assert open + "\"" == "SELECT create_hypertable('\"";
  }

  /** Distinct tables get distinct create_hypertable calls. */
  lemma CreateHyperTableInjective(a: string, b: string)
    requires CreateHyperTable(a) == CreateHyperTable(b)
    ensures a == b
  {
    var head := "SELECT create_hypertable('\"";
    var tail := "\"" + Queries.HyperTableOptions;
    HyperTableText(a);
    HyperTableText(b);
    AppendAssociates(head + a, "\"", Queries.HyperTableOptions);
    AppendAssociates(head + b, "\"", Queries.HyperTableOptions);
    assert head + a + tail == head + b + tail;
    assert |a| == |b|;
    assert (head + a + tail)[|head|..|head| + |a|] == a;
    assert (head + b + tail)[|head|..|head| + |b|] == b;
  }

  /** Writing the definitions of field i after those of the fields before it. */
  lemma WrittenDefsStep(sb: string, start: string, fields: seq<Field>, i: nat, constraints: seq<string>)
    requires i < |fields|
    requires sb == start + Terminated(ColumnDefs(fields[..i], constraints), ", ")
    ensures sb + Terminated(FieldDefs(fields[i], constraints), ", ")
         == start + Terminated(ColumnDefs(fields[..i + 1], constraints), ", ")
  {
    var before := ColumnDefs(fields[..i], constraints);
    var defs := FieldDefs(fields[i], constraints);
    assert fields[..i + 1][..i] == fields[..i];
    assert ColumnDefs(fields[..i + 1], constraints) == before + defs;
    TerminatedAppend(before, defs, ", ");
    AppendAssociates(start, Terminated(before, ", "), Terminated(defs, ", "));
  }

  lemma TerminatedSingle(s: string, sep: string)
    ensures Terminated([s], sep) == s + sep
  {
    assert [s][..0] == [];
  }

  /** The inner loop of CreateTable: one definition per constraint name for
      field `f`, each followed by ", ". */
  method WriteFieldDefs(start: string, f: Field, constraints: seq<string>) returns (sb: string)
    requires |constraints| > 0
    ensures sb == start + Terminated(FieldDefs(f, constraints), ", ")
  {
    sb := start;
    var j := 0;
    while j < |constraints|
      invariant 0 <= j <= |constraints|
      invariant sb == start + Terminated(FieldDefs(f, constraints)[..j], ", ")
    {
      assert FieldDefs(f, constraints)[..j + 1][..j] == FieldDefs(f, constraints)[..j];
      if f.name == constraints[j] {
        sb := sb + ColumnDef(f, true) + ", ";
      } else {
        sb := sb + ColumnDef(f, false) + ", ";
      }
      j := j + 1;
    }
    assert FieldDefs(f, constraints)[..j] == FieldDefs(f, constraints);
  }

  /** CreateTable: the create statement, then for a time series the hypertable
      call (each issued only if the previous one succeeded). */
  method CreateTable(rows: Rows, isTimeSeries: bool, constraints: seq<string>) returns (calls: seq<Call>)
    ensures |calls| > 0 && calls[0] == Exec(Queries.CreateTable(TableDefinition(rows.tableName, ColumnDefs(rows.fields, constraints))))
    ensures |calls| == if isTimeSeries then 2 else 1
    ensures isTimeSeries ==> calls[1] == CreateHyperTable(rows.tableName)
  {
    var fields := rows.fields;
    var start := QuotedName(rows.tableName) + " (";
    var sb := start;
    var i := 0;
    while i < |fields|
      invariant 0 <= i <= |fields|
      invariant sb == start + Terminated(ColumnDefs(fields[..i], constraints), ", ")
    {
      var f := fields[i];
      WrittenDefsStep(sb, start, fields, i, constraints);
      if |constraints| > 0 {
        sb := WriteFieldDefs(sb, f, constraints);
      } else {
        TerminatedSingle(ColumnDef(f, false), ", ");
        sb := sb + (ColumnDef(f, false) + ", ");
      }
      i := i + 1;
    }
    assert fields[..i] == fields;
    var definition := TrimRight(sb, ListCut) + ")";
    calls := [Exec(Queries.CreateTable(definition))];
    if isTimeSeries {
      calls := calls + [CreateHyperTable(rows.tableName)];
    }
  }

  /** With two constraint names, CreateTable defines the same column twice
      (once unique, once plain), which PostgreSQL refuses. */
  lemma ColumnDefsDuplicateColumns()
    ensures ColumnDefs([Field(Integer, "a")], ["a", "b"])
         == ["\"a\" integer not null unique", "\"a\" integer"]
  {
    var f := Field(Integer, "a");
    assert [f][..0] == [];
    assert ColumnDefs([f], ["a", "b"]) == FieldDefs(f, ["a", "b"]);
    assert FieldDefs(f, ["a", "b"]) == [ColumnDef(f, true), ColumnDef(f, false)];
    assert ColumnDef(f, true) == "\"a\" integer not null unique";
    assert ColumnDef(f, false) == "\"a\" integer";
  }

  /** The definitions CreateTable evidently means: exactly one per field, in
      field order, unique when the field's name is among the constraint names
      (where ColumnDefs gives |fields| * |constraints| of them). */
  function IntendedColumnDefs(fields: seq<Field>, constraints: seq<string>): (r: seq<string>)
    ensures |r| == |fields|
    ensures forall i :: 0 <= i < |fields| ==> r[i] == ColumnDef(fields[i], fields[i].name in constraints)
  {
    seq(|fields|, i requires 0 <= i < |fields| => ColumnDef(fields[i], fields[i].name in constraints))
  }

  /** With at most one constraint name the source's definitions are the
      intended ones. */
  lemma {:induction false} ColumnDefsAgree(fields: seq<Field>, constraints: seq<string>)
    requires |constraints| <= 1
    ensures ColumnDefs(fields, constraints) == IntendedColumnDefs(fields, constraints)
  {
    if fields != [] {
      var n := |fields| - 1;
      var f := fields[n];
      ColumnDefsAgree(fields[..n], constraints);
      assert FieldDefs(f, constraints) == [ColumnDef(f, f.name in constraints)];
      assert IntendedColumnDefs(fields, constraints)
          == IntendedColumnDefs(fields[..n], constraints) + [ColumnDef(f, f.name in constraints)];
    }
  }

  /** CreateIndex: `CREATE INDEX IF NOT EXISTS "i" ON "t" ("c1", "c2")`. */
  method CreateIndex(indexName: string, tableName: string, fieldNames: seq<string>) returns (call: Call)
    ensures call == Exec(Queries.CreateIndex(QuotedName(indexName), QuotedName(tableName),
                                             ColumnList(QuotedStrings(fieldNames))))
  {
    var sb := "(";
    var i := 0;
    while i < |fieldNames|
      invariant 0 <= i <= |fieldNames|
      invariant sb == "(" + Terminated(QuotedStrings(fieldNames[..i]), ", ")
    {
      assert QuotedStrings(fieldNames[..i + 1]) == QuotedStrings(fieldNames[..i]) + [QuotedName(fieldNames[i])] by {
        assert fieldNames[..i + 1][..i] == fieldNames[..i];
      }
      QuotedNameWritten(sb, fieldNames[i]);
      TerminatedSnoc("(", QuotedStrings(fieldNames[..i]), QuotedName(fieldNames[i]), ", ");
      sb := sb + "\"" + fieldNames[i] + "\", ";
      i := i + 1;
    }
    assert fieldNames[..i] == fieldNames;
    TrimTerminated("(", QuotedStrings(fieldNames), ListCut);
    var details := TrimRight(sb, ListCut) + ")";
    call := Exec(Queries.CreateIndex("\"" + indexName + "\"", "\"" + tableName + "\"", details));
  }
}
