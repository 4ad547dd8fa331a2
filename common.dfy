/** Shared vocabulary of the model: optional values and results, the string
    helpers Go's standard library provides to the driver (strings.Join-like
    joining, strings.TrimRight with a cutset, decimal formatting with %d / %v,
    strconv.Atoi). */
module Common {

  datatype Option<T> = None | Some(value: T)

  /** A Go `(value, error)` pair: either a value or the error's text. */
  datatype Result<T> = Ok(value: T) | Err(error: string)

  /** `parts` separated by `sep`, as strings.Join does. */
  function Join(parts: seq<string>, sep: string): string
  {
    if |parts| == 0 then ""
    else if |parts| == 1 then parts[0]
    else Join(parts[..|parts| - 1], sep) + sep + parts[|parts| - 1]
  }

  /** What a strings.Builder holds after writing every part followed by `sep`. */
  function Terminated(parts: seq<string>, sep: string): string
  {
    if |parts| == 0 then "" else Terminated(parts[..|parts| - 1], sep) + parts[|parts| - 1] + sep
  }

  lemma {:induction false} TerminatedIsJoinThenSep(parts: seq<string>, sep: string)
    requires |parts| > 0
    ensures Terminated(parts, sep) == Join(parts, sep) + sep
  {
    if |parts| > 1 {
      TerminatedIsJoinThenSep(parts[..|parts| - 1], sep);
    }
  }

  /** Writing two lists of parts one after the other. */
  lemma {:induction false} TerminatedAppend(a: seq<string>, b: seq<string>, sep: string)
    ensures Terminated(a + b, sep) == Terminated(a, sep) + Terminated(b, sep)
    decreases |b|
  {
    if b == [] {
      assert a + b == a;
    } else {
      var n := |b| - 1;
      assert (a + b)[..|a + b| - 1] == a + b[..n];
      TerminatedAppend(a, b[..n], sep);
    }
  }

  /** Concatenation regrouped; stated once so that callers need not rely on
      the solver to find the grouping in a large context. */
  /** Writing one more part and its separator after a terminated list. */
  lemma TerminatedSnoc(start: string, parts: seq<string>, x: string, sep: string)
    ensures start + Terminated(parts, sep) + x + sep == start + Terminated(parts + [x], sep)
  {
    assert (parts + [x])[..|parts|] == parts;
    Regroup(start, Terminated(parts, sep), x, sep);
  }

  lemma Regroup(a: string, b: string, c: string, d: string)
    ensures a + (b + c + d) == (a + b) + c + d
  {
  }

  lemma AppendAssociates(a: string, b: string, c: string)
    ensures (a + b) + c == a + (b + c)
  {
  }

  /** strings.TrimRight(s, cutset): drops every trailing character that is in
      the cutset (a set of characters, not a suffix). The contract pins the
      result down completely: a prefix of `s` that does not end in the cutset
      and that leaves only cutset characters behind. */
  function TrimRight(s: string, cut: set<char>): (r: string)
    ensures r <= s
    ensures r == [] || r[|r| - 1] !in cut
    ensures forall i :: |r| <= i < |s| ==> s[i] in cut
  {
    if |s| > 0 && s[|s| - 1] in cut then TrimRight(s[..|s| - 1], cut) else s
  }

  /** Trimming a text made of a clean head and a tail of cutset characters
      gives back exactly the head. */
  lemma {:induction false} TrimRightOfCleanHead(head: string, tail: string, cut: set<char>)
    requires head == [] || head[|head| - 1] !in cut
    requires forall i :: 0 <= i < |tail| ==> tail[i] in cut
    ensures TrimRight(head + tail, cut) == head
    decreases |tail|
  {
    if tail == [] {
      assert head + tail == head;
    } else {
      var shorter := tail[..|tail| - 1];
      assert (head + tail)[..|head + tail| - 1] == head + shorter;
      TrimRightOfCleanHead(head, shorter, cut);
    }
  }

  const MinInt64: int := -0x8000_0000_0000_0000
  const MaxInt64: int := 0x7FFF_FFFF_FFFF_FFFF

  predicate IsDigit(c: char)
  {
    '0' <= c <= '9'
  }

  predicate AllDigits(s: string)
  {
    forall i :: 0 <= i < |s| ==> IsDigit(s[i])
  }

  function DigitChar(d: nat): (c: char)
    requires d < 10
    ensures IsDigit(c) && c as int - '0' as int == d
  {
    ('0' as int + d) as char
  }

  /** The decimal digits of `n`, most significant first, no leading zeros. */
  function NatText(n: nat): (s: string)
    ensures |s| > 0 && AllDigits(s)
    decreases n
  {
    if n < 10 then [DigitChar(n)] else NatText(n / 10) + [DigitChar(n % 10)]
  }

  /** Go's %d (and %v) rendering of an integer. */
  function IntText(n: int): string
  {
    if n < 0 then "-" + NatText(-n) else NatText(n)
  }

  function DigitsValue(s: string): nat
    requires AllDigits(s)
  {
    if s == [] then 0 else DigitsValue(s[..|s| - 1]) * 10 + (s[|s| - 1] as int - '0' as int)
  }

  lemma {:induction false} DigitsValueOfNatText(n: nat)
    ensures DigitsValue(NatText(n)) == n
    decreases n
  {
    if n >= 10 {
      var s := NatText(n);
      DigitsValueOfNatText(n / 10);
      assert s[..|s| - 1] == NatText(n / 10);
    }
  }

  /** strconv.Atoi on a 64-bit platform: an optional sign, at least one
      decimal digit and nothing else, with a value that fits in an int. */
  function Atoi(s: string): (r: Option<int>)
    ensures r.Some? ==> MinInt64 <= r.value <= MaxInt64
  {
    var signed := |s| > 0 && (s[0] == '+' || s[0] == '-');
    var body := if signed then s[1..] else s;
    if |body| == 0 || !AllDigits(body) then None
    else
      var v: int := DigitsValue(body);
      var n: int := if signed && s[0] == '-' then -v else v;
      if MinInt64 <= n <= MaxInt64 then Some(n) else None
  }

  /** Round trip: Atoi reads back every 64-bit integer that %d writes. */
  lemma AtoiReadsIntText(n: int)
    requires MinInt64 <= n <= MaxInt64
    ensures Atoi(IntText(n)) == Some(n)
  {
    var s := IntText(n);
    if n < 0 {
      assert s[1..] == NatText(-n);
      DigitsValueOfNatText(-n);
    } else {
      assert IsDigit(s[0]);
      DigitsValueOfNatText(n);
    }
  }

  /** Whatever Atoi accepts consists of a sign and digits only. */
  lemma AtoiAcceptsOnlySignAndDigits(s: string, i: nat)
    requires Atoi(s).Some? && i < |s|
    ensures IsDigit(s[i]) || (i == 0 && (s[i] == '+' || s[i] == '-'))
  {
    if |s| > 0 && (s[0] == '+' || s[0] == '-') {
      if i > 0 {
        assert s[i] == s[1..][i - 1];
      }
    }
  }

  /** Go's %q verb (strconv.Quote) applied to an identifier: the text in
      double quotes, escaped by GoEscape. */
  function GoQuote(s: string): (r: string)
    ensures |r| >= |s| + 2 && r[0] == '"' && r[|r| - 1] == '"'
    ensures r[1..|r| - 1] == GoEscape(s)
  {
    "\"" + GoEscape(s) + "\""
  }

  /** strconv.IsPrint below U+0100: printable ASCII, and Latin-1 from U+00A1
      except the soft hyphen U+00AD. Runes from U+0100 on are taken as
      printable (Go decides them by a Unicode table). */
  predicate GoPrintable(c: char)
  {
    var n := c as int;
    (0x20 <= n <= 0x7E) || (0xA1 <= n <= 0xFF && n != 0xAD) || n >= 0x100
  }

  const HexDigits: string := "0123456789abcdef"

  /** Two lower-case hex digits of a number below 256. */
  function Hex2(n: nat): string
    requires n < 0x100
  {
    [HexDigits[n / 16], HexDigits[n % 16]]
  }

  /** strconv.Quote's text for one rune: the quote and the backslash get a
      backslash; a printable rune stays; the seven C escapes; other ASCII
      controls and DEL as \xNN; the unprintable Latin-1 runes as \u00NN. */
  function GoEscapeRune(c: char): string
  {
    var n := c as int;
    if c == '"' || c == '\\' then ['\\', c]
    else if GoPrintable(c) then [c]
    else if n == 7 then "\\a"
    else if n == 8 then "\\b"
    else if n == 12 then "\\f"
    else if n == 10 then "\\n"
    else if n == 13 then "\\r"
    else if n == 9 then "\\t"
    else if n == 11 then "\\v"
    else if n < 0x20 || n == 0x7F then "\\x" + Hex2(n)
    else "\\u00" + Hex2(n)
  }

  /** The body of %q: the escape of each rune in turn. Printable ASCII other
      than `"` and `\` passes unchanged, and nothing unprintable survives. */
  function GoEscape(s: string): (r: string)
    ensures |r| >= |s|
    ensures (forall i :: 0 <= i < |s| ==> ' ' <= s[i] <= '~' && s[i] != '"' && s[i] != '\\') ==> r == s
  {
    if s == [] then ""
    else
      assert forall i :: 0 <= i < |s[1..]| ==> s[1..][i] == s[i + 1];
      GoEscapeRune(s[0]) + GoEscape(s[1..])
  }

  lemma GoEscapeRunePrintable(c: char)
    ensures |GoEscapeRune(c)| >= 1
    ensures forall i :: 0 <= i < |GoEscapeRune(c)| ==> GoPrintable(GoEscapeRune(c)[i])
  {
    var n := c as int;
    if !(c == '"' || c == '\\' || GoPrintable(c) || n in {7, 8, 9, 10, 11, 12, 13}) {
      assert n < 0x100;
      HexDigitReads(n / 16);
      HexDigitReads(n % 16);
    }
  }

  /** Nothing unprintable survives %q. */
  lemma {:induction false} GoEscapePrintable(s: string)
    ensures forall i :: 0 <= i < |GoEscape(s)| ==> GoPrintable(GoEscape(s)[i])
  {
    if s != [] {
      GoEscapeRunePrintable(s[0]);
      GoEscapePrintable(s[1..]);
    }
  }

  /** The value of a hex digit, in either case. */
  function HexValue(c: char): (r: Option<nat>)
    ensures r.Some? ==> r.value < 16
  {
    if '0' <= c <= '9' then Some(c as int - '0' as int)
    else if 'a' <= c <= 'f' then Some(c as int - 'a' as int + 10)
    else if 'A' <= c <= 'F' then Some(c as int - 'A' as int + 10)
    else None
  }

  /** The rune a two-character escape `\e` stands for. */
  function SimpleEscape(e: char): Option<char>
  {
    if e == '"' || e == '\\' then Some(e)
    else if e == 'a' then Some(7 as char)
    else if e == 'b' then Some(8 as char)
    else if e == 'f' then Some(12 as char)
    else if e == 'n' then Some(10 as char)
    else if e == 'r' then Some(13 as char)
    else if e == 't' then Some(9 as char)
    else if e == 'v' then Some(11 as char)
    else None
  }

  function Prepend(c: char, rest: Option<string>): Option<string>
  {
    if rest.Some? then Some([c] + rest.value) else None
  }

  /** Reading back the body of a double-quoted Go literal (the escapes
      strconv.Unquote accepts for runes below U+0100): None for a bare
      double quote, a dangling backslash or an unknown escape. */
  function GoUnescape(s: string): (r: Option<string>)
    decreases |s|
  {
    if s == [] then Some("")
    else if s[0] == '"' then None
    else if s[0] != '\\' then Prepend(s[0], GoUnescape(s[1..]))
    else if |s| < 2 then None
    else
      var e := s[1];
      if SimpleEscape(e).Some? then Prepend(SimpleEscape(e).value, GoUnescape(s[2..]))
      else if e == 'x' && |s| >= 4 && HexValue(s[2]).Some? && HexValue(s[3]).Some? then
        Prepend((16 * HexValue(s[2]).value + HexValue(s[3]).value) as char, GoUnescape(s[4..]))
      else if e == 'u' && |s| >= 6 && s[2] == '0' && s[3] == '0' && HexValue(s[4]).Some? && HexValue(s[5]).Some? then
        Prepend((16 * HexValue(s[4]).value + HexValue(s[5]).value) as char, GoUnescape(s[6..]))
      else None
  }

  /** Each hex digit reads back as its value, and is printable ASCII. */
  lemma HexDigitReads(k: nat)
    requires k < 16
    ensures HexValue(HexDigits[k]) == Some(k) && '0' <= HexDigits[k] <= 'f'
  {
    if k < 10 {
      assert HexDigits[k] as int == '0' as int + k;
    } else {
      assert HexDigits[k] as int == 'a' as int + (k - 10);
    }
  }

  lemma Hex2Reads(n: nat)
    requires n < 0x100
    ensures HexValue(Hex2(n)[0]) == Some(n / 16) && HexValue(Hex2(n)[1]) == Some(n % 16)
    ensures 16 * (n / 16) + n % 16 == n
  {
    HexDigitReads(n / 16);
    HexDigitReads(n % 16);
  }

  lemma GoUnescapeKept(c: char, rest: string)
    requires c != '"' && c != '\\'
    ensures GoUnescape([c] + rest) == Prepend(c, GoUnescape(rest))
  {
    assert ([c] + rest)[1..] == rest;
  }

  lemma GoUnescapeSimple(e: char, rest: string)
    requires SimpleEscape(e).Some?
    ensures GoUnescape(['\\', e] + rest) == Prepend(SimpleEscape(e).value, GoUnescape(rest))
  {
    assert (['\\', e] + rest)[2..] == rest;
  }

  lemma GoUnescapeHex(x: char, n: nat, rest: string)
    requires n < 0x100 && (x == 'x' || x == 'u')
    ensures var lead := if x == 'x' then "\\x" else "\\u00";
            GoUnescape(lead + Hex2(n) + rest) == Prepend(n as char, GoUnescape(rest))
  {
    var lead := if x == 'x' then "\\x" else "\\u00";
    var s := lead + Hex2(n) + rest;
    Hex2Reads(n);
    assert s[1] == x && SimpleEscape(x).None?;
    assert s[|lead|] == Hex2(n)[0] && s[|lead| + 1] == Hex2(n)[1];
    assert s[|lead| + 2..] == rest;
  }

  /** One rune's escape reads back as that rune, whatever follows it. */
  lemma GoUnescapeRune(c: char, rest: string)
    ensures GoUnescape(GoEscapeRune(c) + rest) == Prepend(c, GoUnescape(rest))
  {
    var n := c as int;
    if c == '"' || c == '\\' {
      GoUnescapeSimple(c, rest);
    } else if GoPrintable(c) {
      GoUnescapeKept(c, rest);
    } else if n == 7 {
      GoUnescapeSimple('a', rest);
    } else if n == 8 {
      GoUnescapeSimple('b', rest);
    } else if n == 12 {
      GoUnescapeSimple('f', rest);
    } else if n == 10 {
      GoUnescapeSimple('n', rest);
    } else if n == 13 {
      GoUnescapeSimple('r', rest);
    } else if n == 9 {
      GoUnescapeSimple('t', rest);
    } else if n == 11 {
      GoUnescapeSimple('v', rest);
    } else if n < 0x20 || n == 0x7F {
      GoUnescapeHex('x', n, rest);
    } else {
      GoUnescapeHex('u', n, rest);
    }
  }

  /** %q loses nothing: unescaping the body gives the text back. */
  lemma {:induction false} GoEscapeRoundTrip(s: string)
    ensures GoUnescape(GoEscape(s)) == Some(s)
  {
    if s != [] {
      GoEscapeRoundTrip(s[1..]);
      GoUnescapeRune(s[0], GoEscape(s[1..]));
      assert [s[0]] + s[1..] == s;
    }
  }

  /** Distinct identifiers get distinct %q texts. */
  lemma GoQuoteInjective(a: string, b: string)
    requires GoQuote(a) == GoQuote(b)
    ensures a == b
  {
    GoEscapeRoundTrip(a);
    GoEscapeRoundTrip(b);
  }
}
