/** The row model of the SQL driver (drivers/sql/sql.go): column datatypes,
    fields, the dynamically typed cell values a `Rows` carries, the table of
    rules that turns a cell into an SQL literal, the quoting heuristic used by
    Update, and the shape check of Unmarshal. */
module SqlTypes {
  import opened Common

  /** The spellings of the ten kinds the driver names. */
  const KnownNames: set<string> := {
    "boolean", "text", "integer", "bigint", "real", "double precision",
    "timestamp without time zone", "bytea", "jsonb", "uuid" }

  /** A catalog type name that is none of the ten known spellings. */
  type OtherName = n: string | n !in KnownNames witness "smallint"

  /** The column kinds the driver names; any other catalog type name is
      `Named`. A Go Datatype is its name, so the named kinds keep their own
      spellings out of `Named`. */
  datatype Datatype =
    | Boolean | Text | Integer | Bigint | Real | Double | Timestamp | Blob | JSONB | UUID
    | Named(name: OtherName)

  /** The PostgreSQL type name a Datatype stands for. */
  function DatatypeName(d: Datatype): string
  {
    match d
    case Boolean => "boolean"
    case Text => "text"
    case Integer => "integer"
    case Bigint => "bigint"
    case Real => "real"
    case Double => "double precision"
    case Timestamp => "timestamp without time zone"
    case Blob => "bytea"
    case JSONB => "jsonb"
    case UUID => "uuid"
    case Named(n) => n
  }

  /** `Datatype(name)`: the conversion of a catalog type name. */
  function DatatypeOf(name: string): (d: Datatype)
  {
    match name
    case "boolean" => Boolean
    case "text" => Text
    case "integer" => Integer
    case "bigint" => Bigint
    case "real" => Real
    case "double precision" => Double
    case "timestamp without time zone" => Timestamp
    case "bytea" => Blob
    case "jsonb" => JSONB
    case "uuid" => UUID
    case _ => Named(name)
  }

  /** A Datatype and its name determine each other, as a Go string type does. */
  lemma DatatypeNameRoundTrip(name: string, d: Datatype)
    ensures DatatypeName(DatatypeOf(name)) == name
    ensures DatatypeOf(DatatypeName(d)) == d
  {
  }

  datatype Field = Field(kind: Datatype, name: string)

  /** A float64 as far as the literal rules care: finite (with its %v text) or one of the three IEEE specials. */
  datatype Float64 = Finite(text: string) | NaN | PosInf | NegInf

  /** A cell of a value tuple (Go interface{}); `Other` is any further Go
      value (a []byte, a bool, a time), carried by the texts fmt's %v and %s
      render for it. */
  datatype Value = Nil | Str(s: string) | Int(i: int) | Float(f: Float64) | Other(text: string, sText: string)

  /** A set of rows: schema and table names, ordered fields, value tuples. */
  datatype Rows = Rows(schemaName: string, tableName: string, fields: seq<Field>, values: seq<seq<Value>>)

  /** fmt's %v for a float64. */
  function FloatText(f: Float64): string
  {
    match f
    case Finite(t) => t
    case NaN => "NaN"
    case PosInf => "+Inf"
    case NegInf => "-Inf"
  }

  /** fmt's %v for a value. */
  function Render(v: Value): string
  {
    match v
    case Nil => "<nil>"
    case Str(s) => s
    case Int(i) => IntText(i)
    case Float(f) => FloatText(f)
    case Other(t, _) => t
  }

  /** fmt's %s for a value: a string is itself; an int or a float64 is the
      bad-verb form `%!s(type=%v)`. */
  function RenderS(v: Value): string
  {
    match v
    case Nil => "%!s(<nil>)"
    case Str(s) => s
    case Int(i) => "%!s(int=" + IntText(i) + ")"
    case Float(f) => "%!s(float64=" + FloatText(f) + ")"
    case Other(_, t) => t
  }

  /** The kinds whose literals are written between single quotes after QuoteString. */
  predicate IsQuotedKind(d: Datatype)
  {
    d == Timestamp || d == Text || d == JSONB || d == UUID
  }

  const TypeAssertionPanic: string := "panic: interface conversion"
  const IndexPanic: string := "panic: index out of range"

  /** The literal buildValuesString writes for one cell of a column of kind `d`
      (without the separator that follows it). A failed type assertion is a
      Go panic, returned here as an error. */
  function Literal(d: Datatype, v: Value, quote: string -> string): (r: Result<string>)
    ensures d != Double && v == Nil ==> r == Ok("NULL")
    ensures d == Double ==> (r.Ok? <==> v.Float?)
    ensures d == Double && v.Float? && !v.f.Finite? ==> r == Ok("'" + FloatText(v.f) + "'")
    ensures d == Double && v.Float? && v.f.Finite? ==> r == Ok(v.f.text)
    ensures IsQuotedKind(d) ==> (r.Ok? <==> v.Nil? || v.Str?)
    ensures IsQuotedKind(d) && v.Str? ==> r == Ok("'" + quote(v.s) + "'")
    ensures d == Blob && v != Nil ==> r == Ok("E'" + RenderS(v) + "'")
    ensures !IsQuotedKind(d) && d != Double && d != Blob && v != Nil ==> r == Ok(Render(v))
  {
    match d
    case Timestamp | Text | JSONB | UUID =>
      (match v
       case Nil => Ok("NULL")
       case Str(s) => Ok("'" + quote(s) + "'")
       case _ => Err(TypeAssertionPanic))
    case Double =>
      (match v
       case Float(f) => if f.Finite? then Ok(FloatText(f)) else Ok("'" + FloatText(f) + "'")
       case _ => Err(TypeAssertionPanic))
    case Blob =>
      if v == Nil then Ok("NULL") else Ok("E'" + RenderS(v) + "'")
    case _ =>
      if v == Nil then Ok("NULL") else Ok(Render(v))
  }

  /** isJSON: the text contains an opening brace. */
  predicate IsJson(s: string)
  {
    '{' in s
  }

  /** isString: not an integer Atoi accepts, and looks like JSON. */
  predicate IsString(s: string)
  {
    if Atoi(s).Some? then false else IsJson(s)
  }

  /** The Atoi test in isString never decides anything: a text with a brace
      is never an integer, so isString is exactly "contains a brace". */
  lemma IsStringIffBrace(s: string)
    ensures IsString(s) <==> '{' in s
  {
    if '{' in s && Atoi(s).Some? {
      var i :| 0 <= i < |s| && s[i] == '{';
      AtoiAcceptsOnlySignAndDigits(s, i);
    }
  }

  const ShapeMismatch: string := "source and destination doesn't match"

  /** Unmarshal: a length mismatch is an error; otherwise every non-nil source
      value lands in its destination and a nil one leaves the destination as
      it was. (Go's reflective assignment, and its panic on a type mismatch,
      are not modelled.) */
  function Unmarshal(source: seq<Value>, dest: seq<Value>): (r: Result<seq<Value>>)
    ensures r.Err? <==> |source| != |dest|
    ensures r.Err? ==> r.error == ShapeMismatch
    ensures r.Ok? ==> |r.value| == |dest|
    ensures r.Ok? ==> forall i :: 0 <= i < |dest| ==> r.value[i] == if source[i] == Nil then dest[i] else source[i]
  {
    if |source| != |dest| then Err(ShapeMismatch)
    else Ok(seq(|dest|, i requires 0 <= i < |dest| => if source[i] == Nil then dest[i] else source[i]))
  }
}
