/** The query-text builders of the SQL driver (drivers/sql/sql.go). Each Go
    builder appends pieces to a strings.Builder in a loop and then cuts the
    trailing separator with strings.TrimRight; each is a method here with the
    same loop, proved equal to a reference rendering (a Join of the pieces)
    wherever the cutset trim provably removes only the separator. */
module SqlBuilders {
  import opened Common
  import opened SqlTypes
  import Queries

  /** The cutset ", " used after a list (commas and spaces). */
  const ListCut: set<char> := {',', ' '}

  /** The cutset ", (" used at the end of buildValuesString. */
  const TupleCut: set<char> := {',', ' ', '('}

  /** A text whose last character survives a trim with `cut`. */
  predicate EndsOutside(s: string, cut: set<char>)
  {
    |s| > 0 && s[|s| - 1] !in cut
  }

  /** Everything Join writes before the last part. */
  function JoinInit(parts: seq<string>, sep: string): string
    requires |parts| > 0
  {
    if |parts| == 1 then "" else Join(parts[..|parts| - 1], sep) + sep
  }

  lemma JoinEndsWithLast(parts: seq<string>, sep: string)
    requires |parts| > 0
    ensures Join(parts, sep) == JoinInit(parts, sep) + parts[|parts| - 1]
  {
    if |parts| == 1 {
      assert Join(parts, sep) == "" + parts[0];
    }
  }

  lemma EndsOutsideAppend(a: string, b: string, cut: set<char>)
    requires EndsOutside(b, cut)
    ensures EndsOutside(a + b, cut)
  {
    assert (a + b)[|a + b| - 1] == b[|b| - 1];
  }

  lemma TrimJoinedThenSep(prefix: string, parts: seq<string>, cut: set<char>)
    requires ',' in cut && ' ' in cut
    requires |parts| > 0 && EndsOutside(parts[|parts| - 1], cut)
    ensures TrimRight(prefix + Join(parts, ", ") + ", ", cut) == prefix + Join(parts, ", ")
  {
    var init := prefix + JoinInit(parts, ", ");
    JoinEndsWithLast(parts, ", ");
    assert prefix + Join(parts, ", ") == init + parts[|parts| - 1];
    EndsOutsideAppend(init, parts[|parts| - 1], cut);
    TrimRightOfCleanHead(prefix + Join(parts, ", "), ", ", cut);
  }

  /** Trimming the separator off what a builder holds after writing every
      part followed by ", " leaves the parts joined by ", ", as long as the
      last part survives the trim (or, with no parts, the prefix does). */
  lemma TrimTerminated(prefix: string, parts: seq<string>, cut: set<char>)
    requires ',' in cut && ' ' in cut
    requires |parts| == 0 ==> prefix == [] || prefix[|prefix| - 1] !in cut
    requires |parts| > 0 ==> EndsOutside(parts[|parts| - 1], cut)
    ensures TrimRight(prefix + Terminated(parts, ", "), cut) == prefix + Join(parts, ", ")
  {
    if |parts| == 0 {
      TrimRightOfCleanHead(prefix, "", cut);
      assert prefix + "" == prefix;
    } else {
      TerminatedIsJoinThenSep(parts, ", ");
      assert prefix + Terminated(parts, ", ") == prefix + Join(parts, ", ") + ", ";
      TrimJoinedThenSep(prefix, parts, cut);
    }
  }

  function QuotedName(name: string): string
  {
    "\"" + name + "\""
  }

  /** The double-quoted names of `fields`, in field order. */
  function QuotedNames(fields: seq<Field>): (r: seq<string>)
    ensures |r| == |fields|
    ensures forall i :: 0 <= i < |fields| ==> r[i] == QuotedName(fields[i].name)
  {
    if fields == [] then [] else QuotedNames(fields[..|fields| - 1]) + [QuotedName(fields[|fields| - 1].name)]
  }

  /** The bare names of `fields`, in field order. */
  function Names(fields: seq<Field>): (r: seq<string>)
    ensures |r| == |fields|
    ensures forall i :: 0 <= i < |fields| ==> r[i] == fields[i].name
  {
    if fields == [] then [] else Names(fields[..|fields| - 1]) + [fields[|fields| - 1].name]
  }

  /** Reference rendering of a column list: `("a", "b")`, or `()` for none. */
  function ColumnList(quoted: seq<string>): string
  {
    "(" + Join(quoted, ", ") + ")"
  }

  /** Writing `"`, a name and `", ` writes its quoted name and the separator. */
  lemma QuotedNameWritten(sb: string, name: string)
    ensures sb + "\"" + name + "\", " == sb + QuotedName(name) + ", "
  {
    assert "\", " == "\"" + ", ";
  }

  /** buildFieldsString: every name double-quoted, in field order, separated
      by ", " and parenthesised. The trim cannot eat into a name, because
      each quoted name ends in a double quote. */
  method BuildFieldsString(fields: seq<Field>) returns (r: string)
    ensures r == ColumnList(QuotedNames(fields))
  {
    var sb := "(";
    var i := 0;
    while i < |fields|
      invariant 0 <= i <= |fields|
      invariant sb == "(" + Terminated(QuotedNames(fields[..i]), ", ")
    {
      assert QuotedNames(fields[..i + 1]) == QuotedNames(fields[..i]) + [QuotedName(fields[i].name)] by {
        assert fields[..i + 1][..i] == fields[..i];
      }
      QuotedNameWritten(sb, fields[i].name);
      TerminatedSnoc("(", QuotedNames(fields[..i]), QuotedName(fields[i].name), ", ");
      sb := sb + "\"" + fields[i].name + "\", ";
      i := i + 1;
    }
    assert fields[..i] == fields;
    TrimTerminated("(", QuotedNames(fields), ListCut);
    r := TrimRight(sb, ListCut) + ")";
  }

  /** buildReturningClause: the bare names, each followed by ", ", with the
      cutset trim applied. When the last name survives the trim the result is
      the names joined by ", "; otherwise the trim also eats into it. */
  method BuildReturningClause(fields: seq<Field>) returns (r: string)
    ensures r == TrimRight(Terminated(Names(fields), ", "), ListCut)
    ensures fields == [] ==> r == ""
    ensures |fields| > 0 && EndsOutside(fields[|fields| - 1].name, ListCut) ==> r == Join(Names(fields), ", ")
  {
    var sb := "";
    var i := 0;
    while i < |fields|
      invariant 0 <= i <= |fields|
      invariant sb == Terminated(Names(fields[..i]), ", ")
    {
      assert fields[..i + 1][..i] == fields[..i];
      sb := sb + fields[i].name + ", ";
      i := i + 1;
    }
    assert fields[..i] == fields;
    if |fields| > 0 && EndsOutside(fields[|fields| - 1].name, ListCut) {
      TrimTerminated("", Names(fields), ListCut);
      assert "" + Terminated(Names(fields), ", ") == sb;
      assert "" + Join(Names(fields), ", ") == Join(Names(fields), ", ");
    }
    r := TrimRight(sb, ListCut);
  }

  /** `"f"=EXCLUDED."f"` */
  function Excluded(name: string): string
  {
    QuotedName(name) + "=EXCLUDED." + QuotedName(name)
  }

  /** The upsert assignments: one per field not named `constraint`, in field order. */
  function Assignments(fields: seq<Field>, constraint: string): (r: seq<string>)
    ensures |r| <= |fields|
    ensures forall a :: a in r ==> exists f :: f in fields && f.name != constraint && a == Excluded(f.name)
    ensures forall i :: 0 <= i < |r| ==> EndsOutside(r[i], TupleCut)
    ensures (forall f :: f in fields ==> f.name != constraint) ==> |r| == |fields|
  {
    if fields == [] then []
    else
      var last := fields[|fields| - 1];
      var before := Assignments(fields[..|fields| - 1], constraint);
      assert forall f :: f in fields[..|fields| - 1] ==> f in fields;
      if last.name != constraint then before + [Excluded(last.name)] else before
  }

  /** One more field adds its assignment unless it is the constraint column. */
  lemma AssignmentsStep(fields: seq<Field>, i: nat, constraint: string)
    requires i < |fields|
    ensures fields[i].name != constraint ==>
      Assignments(fields[..i + 1], constraint) == Assignments(fields[..i], constraint) + [Excluded(fields[i].name)]
    ensures fields[i].name == constraint ==> Assignments(fields[..i + 1], constraint) == Assignments(fields[..i], constraint)
  {
    assert fields[..i + 1][..i] == fields[..i];
  }

  /** One iteration of buildOnConstrainString's loop. */
  lemma OnConstrainStep(sb: string, fields: seq<Field>, i: nat, constraint: string)
    requires i < |fields| && sb == Terminated(Assignments(fields[..i], constraint), ", ")
    ensures fields[i].name != constraint ==>
      sb + Excluded(fields[i].name) + ", " == Terminated(Assignments(fields[..i + 1], constraint), ", ")
    ensures fields[i].name == constraint ==> sb == Terminated(Assignments(fields[..i + 1], constraint), ", ")
  {
    AssignmentsStep(fields, i, constraint);
    if fields[i].name != constraint {
      TerminatedSnoc("", Assignments(fields[..i], constraint), Excluded(fields[i].name), ", ");
      assert "" + sb == sb;
    }
  }

  /** The trim after the loop only removes the last separator. */
  lemma OnConstrainTrim(fields: seq<Field>, constraint: string)
    ensures TrimRight(Terminated(Assignments(fields, constraint), ", "), ListCut) == Join(Assignments(fields, constraint), ", ")
  {
    var a := Assignments(fields, constraint);
    if |a| > 0 {
      assert EndsOutside(a[|a| - 1], TupleCut);
      assert EndsOutside(a[|a| - 1], ListCut);
    }
    TrimTerminated("", a, ListCut);
    assert "" + Terminated(a, ", ") == Terminated(a, ", ");
    assert "" + Join(a, ", ") == Join(a, ", ");
  }

  /** buildOnConstrainString: the assignments joined by ", " (the trim only
      removes the separator, since each assignment ends in a double quote). */
  method BuildOnConstrainString(fields: seq<Field>, constraint: string) returns (r: string)
    ensures r == Join(Assignments(fields, constraint), ", ")
  {
    var sb := "";
    var i := 0;
    while i < |fields|
      invariant 0 <= i <= |fields|
      invariant sb == Terminated(Assignments(fields[..i], constraint), ", ")
    {
      OnConstrainStep(sb, fields, i, constraint);
      if fields[i].name != constraint {
        sb := sb + Excluded(fields[i].name) + ", ";
      }
      i := i + 1;
    }
    assert fields[..i] == fields;
    OnConstrainTrim(fields, constraint);
    r := TrimRight(sb, ListCut);
  }

  /** The double-quoted index column names. */
  function QuotedStrings(names: seq<string>): (r: seq<string>)
    ensures |r| == |names|
    ensures forall i :: 0 <= i < |names| ==> r[i] == QuotedName(names[i])
  {
    if names == [] then [] else QuotedStrings(names[..|names| - 1]) + [QuotedName(names[|names| - 1])]
  }

  /** The literals of one value tuple, in column order. The first cell past
      the last field is Go's index-out-of-range panic, and the first cell whose
      literal fails stops the row with that failure. */
  function RowLiterals(fields: seq<Field>, tuple: seq<Value>, quote: string -> string): (r: Result<seq<string>>)
    ensures r.Ok? ==> |r.value| == |tuple| <= |fields|
    ensures r.Ok? ==> forall j :: 0 <= j < |tuple| ==> Literal(fields[j].kind, tuple[j], quote) == Ok(r.value[j])
    ensures |tuple| <= |fields| && (forall j :: 0 <= j < |tuple| ==> Literal(fields[j].kind, tuple[j], quote).Ok?) ==> r.Ok?
    ensures r.Err? ==> r.error == IndexPanic || r.error == TypeAssertionPanic
  {
    if tuple == [] then Ok([])
    else
      var n := |tuple| - 1;
      match RowLiterals(fields, tuple[..n], quote)
      case Err(e) => Err(e)
      case Ok(before) =>
        if n >= |fields| then Err(IndexPanic)
        else
          match Literal(fields[n].kind, tuple[n], quote)
          case Err(e) => Err(e)
          case Ok(lit) => Ok(before + [lit])
  }

  /** Once a prefix of the tuple has failed, the whole tuple fails the same way. */
  lemma {:induction false} RowLiteralsStops(fields: seq<Field>, tuple: seq<Value>, j: nat, quote: string -> string)
    requires j <= |tuple| && RowLiterals(fields, tuple[..j], quote).Err?
    ensures RowLiterals(fields, tuple, quote) == RowLiterals(fields, tuple[..j], quote)
  {
    if j < |tuple| {
      var n := |tuple| - 1;
      assert tuple[..n][..j] == tuple[..j];
      RowLiteralsStops(fields, tuple[..n], j, quote);
    } else {
      assert tuple[..j] == tuple;
    }
  }

  /** The literals of every tuple, or the first failure in row-major order. */
  function AllLiterals(fields: seq<Field>, values: seq<seq<Value>>, quote: string -> string): Result<seq<seq<string>>>
  {
    if values == [] then Ok([])
    else
      var n := |values| - 1;
      match AllLiterals(fields, values[..n], quote)
      case Err(e) => Err(e)
      case Ok(before) =>
        match RowLiterals(fields, values[n], quote)
        case Err(e) => Err(e)
        case Ok(row) => Ok(before + [row])
  }

  /** The rows render exactly when every row does, one literal row per value row. */
  lemma {:induction false} AllLiteralsRows(fields: seq<Field>, values: seq<seq<Value>>, quote: string -> string)
    ensures AllLiterals(fields, values, quote).Ok? <==> forall i :: 0 <= i < |values| ==> RowLiterals(fields, values[i], quote).Ok?
    ensures AllLiterals(fields, values, quote).Ok? ==> |AllLiterals(fields, values, quote).value| == |values|
    ensures AllLiterals(fields, values, quote).Ok? ==>
      forall i :: 0 <= i < |values| ==> RowLiterals(fields, values[i], quote) == Ok(AllLiterals(fields, values, quote).value[i])
  {
    if values != [] {
      var n := |values| - 1;
      AllLiteralsRows(fields, values[..n], quote);
      assert forall i :: 0 <= i < n ==> values[..n][i] == values[i];
    }
  }

  /** One more tuple after rows that rendered: its literals are appended, or
      its panic is the panic of the rows so far. */
  lemma AllLiteralsStep(fields: seq<Field>, values: seq<seq<Value>>, i: nat, quote: string -> string, done: seq<seq<string>>)
    requires i < |values| && AllLiterals(fields, values[..i], quote) == Ok(done)
    ensures RowLiterals(fields, values[i], quote).Err? ==>
      AllLiterals(fields, values[..i + 1], quote) == Err(RowLiterals(fields, values[i], quote).error)
    ensures RowLiterals(fields, values[i], quote).Ok? ==>
      AllLiterals(fields, values[..i + 1], quote) == Ok(done + [RowLiterals(fields, values[i], quote).value])
  {
    assert values[..i + 1][..i] == values[..i];
  }

  /** A panic among all rows but the last is the panic of all rows. */
  lemma AllLiteralsErrLast(fields: seq<Field>, values: seq<seq<Value>>, quote: string -> string)
    requires |values| > 0 && AllLiterals(fields, values[..|values| - 1], quote).Err?
    ensures AllLiterals(fields, values, quote) == AllLiterals(fields, values[..|values| - 1], quote)
  {
  }

  lemma {:induction false} AllLiteralsStops(fields: seq<Field>, values: seq<seq<Value>>, i: nat, quote: string -> string)
    requires i <= |values| && AllLiterals(fields, values[..i], quote).Err?
    ensures AllLiterals(fields, values, quote) == AllLiterals(fields, values[..i], quote)
  {
    if i < |values| {
      var n := |values| - 1;
      assert values[..n][..i] == values[..i];
      AllLiteralsStops(fields, values[..n], i, quote);
      AllLiteralsErrLast(fields, values, quote);
    } else {
      assert values[..i] == values;
    }
  }

  /** What buildValuesString's builder holds after the given rows: an opening
      parenthesis, then per row its literals each followed by ", ", trimmed
      with the list cutset and closed by "), (". */
  function ValuesFold(rows: seq<seq<string>>): string
  {
    if rows == [] then "("
    else TrimRight(ValuesFold(rows[..|rows| - 1]) + Terminated(rows[|rows| - 1], ", "), ListCut) + "), ("
  }

  /** The final cutset trim of buildValuesString. */
  function ValuesString(rows: seq<seq<string>>): string
  {
    TrimRight(ValuesFold(rows), TupleCut)
  }

  /** buildValuesString's result for a whole set of rows: the first panic, or the text. */
  function ValuesText(rows: Rows, quote: string -> string): Result<string>
  {
    match AllLiterals(rows.fields, rows.values, quote)
    case Err(e) => Err(e)
    case Ok(lits) => Ok(ValuesString(lits))
  }

  /** One more cell of a tuple whose prefix rendered: past the fields it is
      the index panic, otherwise the cell's literal decides. */
  lemma RowLiteralsStep(fields: seq<Field>, tuple: seq<Value>, j: nat, quote: string -> string, row: seq<string>)
    requires j < |tuple| && RowLiterals(fields, tuple[..j], quote) == Ok(row)
    ensures j >= |fields| ==> RowLiterals(fields, tuple, quote) == Err(IndexPanic)
    ensures j < |fields| && Literal(fields[j].kind, tuple[j], quote).Err? ==>
      RowLiterals(fields, tuple, quote) == Err(Literal(fields[j].kind, tuple[j], quote).error)
    ensures j < |fields| && Literal(fields[j].kind, tuple[j], quote).Ok? ==>
      RowLiterals(fields, tuple[..j + 1], quote) == Ok(row + [Literal(fields[j].kind, tuple[j], quote).value])
  {
    assert tuple[..j + 1][..j] == tuple[..j];
    if j >= |fields| || Literal(fields[j].kind, tuple[j], quote).Err? {
      RowLiteralsStops(fields, tuple, j + 1, quote);
    }
  }

  /** The inner loop of buildValuesString: every cell's literal followed by
      ", ", written after `start`; a panic stops it. */
  method WriteTuple(start: string, fields: seq<Field>, tuple: seq<Value>, quote: string -> string)
      returns (r: Result<string>)
    ensures RowLiterals(fields, tuple, quote).Err? ==> r == Err(RowLiterals(fields, tuple, quote).error)
    ensures RowLiterals(fields, tuple, quote).Ok? ==> r == Ok(start + Terminated(RowLiterals(fields, tuple, quote).value, ", "))
  {
    var sb := start;
    ghost var row: seq<string> := [];
    var j := 0;
    while j < |tuple|
      invariant 0 <= j <= |tuple|
      invariant RowLiterals(fields, tuple[..j], quote) == Ok(row)
      invariant sb == start + Terminated(row, ", ")
    {
      RowLiteralsStep(fields, tuple, j, quote, row);
      if j >= |fields| {
        return Err(IndexPanic);
      }
      var lit := Literal(fields[j].kind, tuple[j], quote);
      if lit.Err? {
        return Err(lit.error);
      }
      TerminatedSnoc(start, row, lit.value, ", ");
      row := row + [lit.value];
      sb := sb + lit.value + ", ";
      j := j + 1;
    }
    assert tuple[..j] == tuple;
    r := Ok(sb);
  }

  /** buildValuesString: per tuple the cells' literals, the list trim and
      "), ("; at the end the trim with ", (". A panic stops the build and is
      returned as an error. */
  method BuildValuesString(rows: Rows, quote: string -> string) returns (r: Result<string>)
    ensures r == ValuesText(rows, quote)
  {
    var sb := "(";
    var i := 0;
    ghost var done: seq<seq<string>> := [];
    while i < |rows.values|
      invariant 0 <= i <= |rows.values|
      invariant AllLiterals(rows.fields, rows.values[..i], quote) == Ok(done)
      invariant sb == ValuesFold(done)
    {
      AllLiteralsStep(rows.fields, rows.values, i, quote, done);
      var written := WriteTuple(sb, rows.fields, rows.values[i], quote);
      if written.Err? {
        AllLiteralsStops(rows.fields, rows.values, i + 1, quote);
        return Err(written.error);
      }
      ghost var row := RowLiterals(rows.fields, rows.values[i], quote).value;
      assert (done + [row])[..|done|] == done;
      done := done + [row];
      sb := TrimRight(written.value, ListCut) + "), (";
      i := i + 1;
    }
    assert rows.values[..i] == rows.values;
    r := Ok(TrimRight(sb, TupleCut));
  }

  /** A row whose literals survive the list trim: none, or a last literal that
      does not end in a comma or a space. */
  predicate CleanRow(lits: seq<string>)
  {
    lits == [] || EndsOutside(lits[|lits| - 1], ListCut)
  }

  /** Each row's literals joined by ", ". */
  function RowTexts(rows: seq<seq<string>>): (r: seq<string>)
    ensures |r| == |rows| && forall i :: 0 <= i < |rows| ==> r[i] == Join(rows[i], ", ")
  {
    seq(|rows|, i requires 0 <= i < |rows| => Join(rows[i], ", "))
  }

  /** Each text in parentheses. */
  function Parenthesised(texts: seq<string>): (r: seq<string>)
    ensures |r| == |texts| && forall i :: 0 <= i < |texts| ==> r[i] == "(" + texts[i] + ")"
  {
    seq(|texts|, i requires 0 <= i < |texts| => "(" + texts[i] + ")")
  }

  /** A builder that opened a parenthesis and then wrote texts each followed
      by "), (" ends in an opening parenthesis. */
  lemma EndsInParen(texts: seq<string>)
    ensures var p := "(" + Terminated(texts, "), ("); p[|p| - 1] == '('
  {
    if texts != [] {
      var t := Terminated(texts[..|texts| - 1], "), (") + texts[|texts| - 1];
      assert "(" + Terminated(texts, "), (") == ("(" + t) + "), (";
    }
  }

  /** One clean row more: the fold gains the row's text followed by "), (". */
  lemma FoldCleanStep(rows: seq<seq<string>>, texts: seq<string>)
    requires rows != [] && CleanRow(rows[|rows| - 1])
    requires |texts| == |rows| && texts[|rows| - 1] == Join(rows[|rows| - 1], ", ")
    requires ValuesFold(rows[..|rows| - 1]) == "(" + Terminated(texts[..|rows| - 1], "), (")
    ensures ValuesFold(rows) == "(" + Terminated(texts, "), (")
  {
    var n := |rows| - 1;
    var p := "(" + Terminated(texts[..n], "), (");
    EndsInParen(texts[..n]);
    var step := p + Terminated(rows[n], ", ");
    assert ValuesFold(rows) == TrimRight(step, ListCut) + "), (";
    TrimCleanRow(p, rows[n]);
    assert ValuesFold(rows) == p + texts[n] + "), (";
    var t := Terminated(texts[..n], "), (");
    assert Terminated(texts, "), (") == t + texts[n] + "), (";
    Regroup("(", t, texts[n], "), (");
  }

  lemma CloseThenSeparate(b: string)
    ensures "(" + (b + "), (") == ("(" + b + ")") + ", ("
  {
    assert "), (" == ")" + ", (";
  }


  lemma TrimCleanRow(p: string, row: seq<string>)
    requires p == "(" || (|p| > 0 && p[|p| - 1] == '(')
    requires CleanRow(row)
    ensures TrimRight(p + Terminated(row, ", "), ListCut) == p + Join(row, ", ")
  {
    TrimTerminated(p, row, ListCut);
  }

  lemma {:induction false} FoldOfCleanRows(rows: seq<seq<string>>)
    requires forall i :: 0 <= i < |rows| ==> CleanRow(rows[i])
    ensures ValuesFold(rows) == "(" + Terminated(RowTexts(rows), "), (")
  {
    if rows != [] {
      var n := |rows| - 1;
      FoldOfCleanRows(rows[..n]);
      assert RowTexts(rows[..n]) == RowTexts(rows)[..n];
      FoldCleanStep(rows, RowTexts(rows));
    }
  }

  lemma {:induction false} JoinParenthesised(texts: seq<string>)
    requires |texts| > 0
    ensures "(" + Join(texts, "), (") + ")" == Join(Parenthesised(texts), ", ")
  {
    if |texts| > 1 {
      var n := |texts| - 1;
      JoinParenthesised(texts[..n]);
      assert Parenthesised(texts)[..n] == Parenthesised(texts[..n]);
      calc {
        "(" + Join(texts, "), (") + ")";
        "(" + (Join(texts[..n], "), (") + "), (" + texts[n]) + ")";
        ("(" + Join(texts[..n], "), (") + ")") + ", " + ("(" + texts[n] + ")");
        Join(Parenthesised(texts[..n]), ", ") + ", " + Parenthesised(texts)[n];
      }
    }
  }

  /** When every row survives the list trim, buildValuesString renders each
      row as its literals joined by ", " in parentheses, and the rows joined by
      ", "; no rows at all give the empty text. */
  lemma ValuesStringOfCleanRows(rows: seq<seq<string>>)
    requires forall i :: 0 <= i < |rows| ==> CleanRow(rows[i])
    ensures ValuesString(rows) == Join(Parenthesised(RowTexts(rows)), ", ")
  {
    FoldOfCleanRows(rows);
    var texts := RowTexts(rows);
    if rows == [] {
      assert ValuesFold(rows) == "(";
      assert "("[..0] == "";
    } else {
      TerminatedIsJoinThenSep(texts, "), (");
      var head := "(" + Join(texts, "), (") + ")";
      CloseThenSeparate(Join(texts, "), ("));
      TrimRightOfCleanHead(head, ", (", TupleCut);
      JoinParenthesised(texts);
    }
  }
}
