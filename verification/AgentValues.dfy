/** How the Agent Record protocol prints a value, and how a reader takes it back. */
module AgentValues {
  import opened Options

  /** A primitive of a CLI result; a number is its printed form. */
  datatype Primitive = Null | Bool(value: bool) | Number(printed: string) | Text(text: string)

  predicate IsControl(c: char) {
    c as int <= 0x1f || 0x7f <= c as int <= 0x9f
  }

  // The characters with Unicode's White_Space property.
  predicate IsWhitespace(c: char) {
    var n := c as int;
    || 0x09 <= n <= 0x0d || n == 0x20 || n == 0x85 || n == 0xa0 || n == 0x1680 || 0x2000 <= n <= 0x200a
    || n == 0x2028 || n == 0x2029 || n == 0x202f || n == 0x205f || n == 0x3000
  }

  const HEX: string := "0123456789abcdef"

  function EscapeChar(c: char): string {
    if c == '\\' then "\\\\"
    else if c == '\n' then "\\n"
    else if c == '\r' then "\\r"
    else if c == '"' then "\\\""
    else if IsControl(c) then ['\\', 'u', '0', '0', HEX[c as int / 16], HEX[c as int % 16]]
    else [c]
  }

  function Escape(s: string): string {
    if s == "" then "" else EscapeChar(s[0]) + Escape(s[1..])
  }

  predicate NeedsQuotes(escaped: string) {
    escaped == "" || exists k :: 0 <= k < |escaped| && (IsWhitespace(escaped[k]) || escaped[k] in {'=', '"', '\\'})
  }

  function Quote(escaped: string): string {
    if NeedsQuotes(escaped) then "\"" + escaped + "\"" else escaped
  }

  function FormatValue(v: Primitive): string {
    match v
    case Null => "null"
    case Bool(b) => if b then "true" else "false"
    case Number(printed) => printed
    case Text(text) => Quote(Escape(text))
  }

  method EscapeValue(value: string) returns (output: string)
    ensures output == Escape(value)
  {
    output := "";
    var k := 0;
    while k < |value|
      invariant k <= |value|
      invariant Escape(value) == output + Escape(value[k..])
    {
      EscapeUnfolds(value, k, output);
      var c := value[k];
      var piece: string;
      if c == '\\' {
        piece := "\\\\";
      } else if c == '\n' {
        piece := "\\n";
      } else if c == '\r' {
        piece := "\\r";
      } else if c == '"' {
        piece := "\\\"";
      } else if IsControl(c) {
        piece := ['\\', 'u', '0', '0', HEX[c as int / 16], HEX[c as int % 16]];
      } else {
        piece := [c];
      }
      output := output + piece;
      k := k + 1;
    }
  }

  lemma EscapeUnfolds(value: string, k: nat, output: string)
    requires k < |value|
    ensures output + Escape(value[k..]) == output + EscapeChar(value[k]) + Escape(value[k + 1..])
  {
    assert value[k..][1..] == value[k + 1..];
  }

  // ---------- Reading back ----------

  function HexDigit(c: char): Option<nat> {
    if '0' <= c <= '9' then Some(c as int - '0' as int)
    else if 'a' <= c <= 'f' then Some(c as int - 'a' as int + 10)
    else None
  }

  datatype Read = Done(value: string, rest: string) | Broken

  function Cons(c: char, read: Read): Read {
    match read
    case Broken => Broken
    case Done(value, rest) => Done([c] + value, rest)
  }

  // Reads an escaped text up to its closing quotation mark.
  function ReadEscaped(t: string): Read {
    if t == "" then Broken
    else if t[0] == '"' then Done("", t[1..])
    else if t[0] != '\\' then Cons(t[0], ReadEscaped(t[1..]))
    else if |t| < 2 then Broken
    else if t[1] == '\\' || t[1] == '"' then Cons(t[1], ReadEscaped(t[2..]))
    else if t[1] == 'n' then Cons('\n', ReadEscaped(t[2..]))
    else if t[1] == 'r' then Cons('\r', ReadEscaped(t[2..]))
    else if t[1] == 'u' && |t| >= 6 && HexDigit(t[4]).Some? && HexDigit(t[5]).Some? then
      Cons((HexDigit(t[4]).value * 16 + HexDigit(t[5]).value) as char, ReadEscaped(t[6..]))
    else Broken
  }

  // Reads a bare text up to a space or the end.
  function ReadBare(t: string): Read {
    if t == "" || t[0] == ' ' then Done("", t) else Cons(t[0], ReadBare(t[1..]))
  }

  function ReadValue(t: string): Read {
    if t != "" && t[0] == '"' then ReadEscaped(t[1..]) else ReadBare(t)
  }

  lemma {:induction false} ReadEscapedOf(s: string, rest: string)
    ensures ReadEscaped(Escape(s) + "\"" + rest) == Done(s, rest)
  {
    if s != "" {
      ReadEscapedOf(s[1..], rest);
      var c, tail := s[0], Escape(s[1..]) + "\"" + rest;
      var all := Escape(s) + "\"" + rest;
      assert all == EscapeChar(c) + tail;
      EscapedCharReads(c, tail);
      assert [c] + s[1..] == s;
    }
  }

  lemma HexReads(n: nat)
    requires n < 16
    ensures HexDigit(HEX[n]) == Some(n)
  {}

  lemma EscapedCharReads(c: char, tail: string)
    ensures ReadEscaped(EscapeChar(c) + tail) == Cons(c, ReadEscaped(tail))
  {
    var e := EscapeChar(c);
    var t := e + tail;
    assert t[|e|..] == tail;
    assert t[0] == e[0];
    if |e| == 6 {
      HexReads(c as int / 16);
      HexReads(c as int % 16);
      assert t[1] == 'u' && t[4] == e[4] && t[5] == e[5];
    } else if |e| == 2 {
      assert t[1] == e[1];
    }
  }

  /** Escaping loses nothing. */
  lemma EscapeIsInjective(a: string, b: string)
    ensures Escape(a) == Escape(b) <==> a == b
  {
    ReadEscapedOf(a, "");
    ReadEscapedOf(b, "");
  }

  /** No code of Unicode's general category Cc is left. */
  lemma {:induction false} EscapeHasNoControls(s: string)
    ensures forall c :: c in Escape(s) ==> 0x20 <= c as int < 0x7f || 0x9f < c as int
  {
    if s != "" {
      EscapeHasNoControls(s[1..]);
      EscapedCharHasNone(s[0]);
    }
  }

  lemma EscapedCharHasNone(c: char)
    ensures forall d :: d in EscapeChar(c) ==> 0x20 <= d as int < 0x7f || 0x9f < d as int
  {
    assert forall k :: 0 <= k < 16 ==> 0x20 <= HEX[k] as int < 0x7f;
  }

  // A text whose escaped form needs no quotes was not changed by escaping.
  lemma {:induction false} BareIsUnchanged(s: string)
    requires '\\' !in Escape(s)
    ensures Escape(s) == s
  {
    if s != "" {
      assert forall c :: c in Escape(s[1..]) ==> c in Escape(s);
      assert forall c :: c in EscapeChar(s[0]) ==> c in Escape(s);
      assert EscapeChar(s[0])[0] in EscapeChar(s[0]);
      BareIsUnchanged(s[1..]);
    }
  }

  lemma {:induction false} ReadBareOf(s: string, rest: string)
    requires ' ' !in s && (rest == "" || rest[0] == ' ')
    ensures ReadBare(s + rest) == Done(s, rest)
  {
    if s == "" {
      assert s + rest == rest;
    } else {
      assert (s + rest)[1..] == s[1..] + rest;
      ReadBareOf(s[1..], rest);
    }
  }

  // Never empty, and none of the characters that a value is quoted for: a number as it is printed, a name, a key.
  predicate IsPlain(text: string) {
    !NeedsQuotes(text) && forall c :: c in text ==> !IsControl(c)
  }

  predicate Printable(v: Primitive) {
    v.Number? ==> IsPlain(v.printed)
  }

  /** What a reader can know of a value: numbers and booleans are the texts they are printed as. */
  function Meaning(v: Primitive): string {
    match v
    case Null => "null"
    case Bool(b) => if b then "true" else "false"
    case Number(printed) => printed
    case Text(text) => text
  }

  lemma BareValueReads(s: string, rest: string)
    requires !NeedsQuotes(s) && (rest == "" || rest[0] == ' ')
    ensures ReadValue(s + rest) == Done(s, rest)
  {
    assert s != "" && (s + rest)[0] == s[0];
    ReadBareOf(s, rest);
  }

  lemma QuotedValueReads(s: string, rest: string)
    ensures ReadValue("\"" + Escape(s) + "\"" + rest) == Done(s, rest)
  {
    var t := "\"" + Escape(s) + "\"" + rest;
    assert t[1..] == Escape(s) + "\"" + rest;
    ReadEscapedOf(s, rest);
  }

  /** A printed value reads back, whatever follows it on the line. */
  lemma ValueReadsBack(v: Primitive, rest: string)
    requires Printable(v) && (rest == "" || rest[0] == ' ')
    ensures ReadValue(FormatValue(v) + rest) == Done(Meaning(v), rest)
  {
    if v.Text? {
      var escaped := Escape(v.text);
      if NeedsQuotes(escaped) {
        QuotedValueReads(v.text, rest);
      } else {
        NoBackslash(escaped);
        BareIsUnchanged(v.text);
        BareValueReads(v.text, rest);
      }
    } else {
      PlainValue(v);
      BareValueReads(FormatValue(v), rest);
    }
  }

  lemma NoBackslash(escaped: string)
    requires !NeedsQuotes(escaped)
    ensures '\\' !in escaped
  {}

  lemma PlainValue(v: Primitive)
    requires Printable(v) && !v.Text?
    ensures !NeedsQuotes(FormatValue(v)) && FormatValue(v) == Meaning(v)
  {}

  lemma {:induction false} PlainEscapes(s: string)
    requires forall k :: 0 <= k < |s| ==> !IsControl(s[k]) && s[k] != '\\' && s[k] != '"'
    ensures Escape(s) == s
  {
    if s != "" {
      PlainEscapes(s[1..]);
      assert EscapeChar(s[0]) == [s[0]];
    }
  }

  /** Two values print alike exactly when they mean the same to the reader. */
  lemma PrintsAlike(a: Primitive, b: Primitive)
    requires Printable(a) && Printable(b)
    ensures FormatValue(a) == FormatValue(b) <==> Meaning(a) == Meaning(b)
  {
    ValueReadsBack(a, "");
    ValueReadsBack(b, "");
    assert FormatValue(a) + "" == FormatValue(a) && FormatValue(b) + "" == FormatValue(b);
    AsText(a);
    AsText(b);
  }

  lemma AsText(v: Primitive)
    requires Printable(v)
    ensures FormatValue(v) == FormatValue(Text(Meaning(v)))
  {
    if !v.Text? {
      PlainValue(v);
      PlainEscapes(Meaning(v));
    }
  }

  lemma FormatHasNoControls(v: Primitive)
    requires Printable(v)
    ensures forall c :: c in FormatValue(v) ==> !IsControl(c)
  {
    if v.Text? {
      EscapeHasNoControls(v.text);
    }
  }
}
