/** Quoting one argument for a Windows command line, and the argument rules of the Microsoft C run-time
    ("Parsing C command-line arguments") that read it back. */
module CommandLine {

  function Backslashes(count: nat): (text: string)
    ensures |text| == count && forall k :: 0 <= k < count ==> text[k] == '\\'
  {
    seq(count, _ => '\\')
  }

  // ---------- Reading arguments ----------

  predicate IsSeparator(c: char) {
    c == ' ' || c == '\t'
  }

  /** Reads one argument after `slashes` backslashes, inside quotation marks or not. `pairs` says whether
      two quotation marks inside a quoted part stand for one, as later run-times read them. */
  function ReadArgument(t: string, quoted: bool, slashes: nat, pairs: bool): (string, string)
    decreases |t|
  {
    if t == "" || (!quoted && IsSeparator(t[0])) then (Backslashes(slashes), t)
    else if t[0] == '\\' then ReadArgument(t[1..], quoted, slashes + 1, pairs)
    else if t[0] == '"' && slashes % 2 == 1 then
      var (argument, rest) := ReadArgument(t[1..], quoted, 0, pairs);
      (Backslashes(slashes / 2) + ['"'] + argument, rest)
    else if t[0] == '"' && pairs && quoted && |t| > 1 && t[1] == '"' then
      var (argument, rest) := ReadArgument(t[2..], quoted, 0, pairs);
      (Backslashes(slashes / 2) + ['"'] + argument, rest)
    else if t[0] == '"' then
      var (argument, rest) := ReadArgument(t[1..], !quoted, 0, pairs);
      (Backslashes(slashes / 2) + argument, rest)
    else
      var (argument, rest) := ReadArgument(t[1..], quoted, 0, pairs);
      (Backslashes(slashes) + [t[0]] + argument, rest)
  }

  function ReadArguments(t: string, pairs: bool): seq<string>
    decreases |t|
  {
    if t == "" then []
    else if IsSeparator(t[0]) then ReadArguments(t[1..], pairs)
    else
      var (argument, rest) := ReadArgument(t, false, 0, pairs);
      if |rest| >= |t| then [argument] else [argument] + ReadArguments(rest, pairs)
  }

  // ---------- Quoting ----------

  // The rest of a quoted argument after `slashes` backslashes that are not written yet.
  function Quoted(value: string, slashes: nat): string {
    if value == "" then Backslashes(slashes * 2) + "\""
    else if value[0] == '\\' then Quoted(value[1..], slashes + 1)
    else if value[0] == '"' then Backslashes(slashes * 2 + 1) + "\"" + Quoted(value[1..], 0)
    else Backslashes(slashes) + [value[0]] + Quoted(value[1..], 0)
  }

  method QuoteWindowsCommandLineArgument(value: string) returns (quoted: string)
    ensures quoted == "\"" + Quoted(value, 0)
  {
    quoted := "\"";
    var backslashes := 0;
    ghost var all := "\"" + Quoted(value, 0);
    for k := 0 to |value|
      invariant all == quoted + Quoted(value[k..], backslashes)
    {
      assert value[k..][1..] == value[k + 1..];
      var character := value[k];
      if character == '\\' {
        backslashes := backslashes + 1;
      } else if character == '"' {
        quoted := quoted + Backslashes(backslashes * 2 + 1);
        quoted := quoted + "\"";
        backslashes := 0;
      } else {
        quoted := quoted + Backslashes(backslashes);
        quoted := quoted + [character];
        backslashes := 0;
      }
    }
    quoted := quoted + Backslashes(backslashes * 2);
    quoted := quoted + "\"";
  }

  // ---------- Round trip ----------

  lemma {:induction false} SlashesAreCounted(count: nat, t: string, quoted: bool, slashes: nat, pairs: bool)
    ensures ReadArgument(Backslashes(count) + t, quoted, slashes, pairs)
                == ReadArgument(t, quoted, slashes + count, pairs)
  {
    if count == 0 {
      assert Backslashes(0) + t == t;
    } else {
      var all := Backslashes(count) + t;
      assert all[0] == '\\' && all[1..] == Backslashes(count - 1) + t;
      SlashesAreCounted(count - 1, t, quoted, slashes + 1, pairs);
    }
  }

  lemma ReadClosing(slashes: nat, rest: string, pairs: bool)
    requires rest == "" || IsSeparator(rest[0])
    ensures ReadArgument("\"" + rest, true, slashes * 2, pairs) == (Backslashes(slashes), rest)
  {
    var t := "\"" + rest;
    assert t[1..] == rest;
    assert ReadArgument(rest, false, 0, pairs) == (Backslashes(0), rest);
    assert Backslashes(slashes) + Backslashes(0) == Backslashes(slashes);
  }

  lemma ReadEscapedQuote(slashes: nat, t: string, pairs: bool)
    ensures ReadArgument("\"" + t, true, slashes * 2 + 1, pairs)
         == (Backslashes(slashes) + ['"'] + ReadArgument(t, true, 0, pairs).0, ReadArgument(t, true, 0, pairs).1)
  {
    assert ("\"" + t)[1..] == t;
  }

  lemma ReadOrdinary(slashes: nat, c: char, t: string, pairs: bool)
    requires c != '\\' && c != '"'
    ensures ReadArgument([c] + t, true, slashes, pairs)
         == (Backslashes(slashes) + [c] + ReadArgument(t, true, 0, pairs).0, ReadArgument(t, true, 0, pairs).1)
  {
    assert ([c] + t)[1..] == t;
  }

  /** What is written of a value, with any backslashes still to be written, reads back as both. */
  lemma {:induction false} QuotedReadsBack(value: string, slashes: nat, rest: string, pairs: bool)
    requires rest == "" || IsSeparator(rest[0])
    ensures ReadArgument(Quoted(value, slashes) + rest, true, 0, pairs) == (Backslashes(slashes) + value, rest)
  {
    if value == "" {
      assert Quoted(value, slashes) + rest == Backslashes(slashes * 2) + ("\"" + rest);
      SlashesAreCounted(slashes * 2, "\"" + rest, true, 0, pairs);
      ReadClosing(slashes, rest, pairs);
      assert Backslashes(slashes) + value == Backslashes(slashes);
    } else {
      var tail := value[1..];
      assert value == [value[0]] + tail;
      if value[0] == '\\' {
        QuotedReadsBack(tail, slashes + 1, rest, pairs);
        assert Backslashes(slashes + 1) + tail == Backslashes(slashes) + value;
      } else if value[0] == '"' {
        var after := Quoted(tail, 0) + rest;
        assert Quoted(value, slashes) + rest == Backslashes(slashes * 2 + 1) + ("\"" + after);
        SlashesAreCounted(slashes * 2 + 1, "\"" + after, true, 0, pairs);
        ReadEscapedQuote(slashes, after, pairs);
        QuotedReadsBack(tail, 0, rest, pairs);
        assert Backslashes(slashes) + ['"'] + (Backslashes(0) + tail) == Backslashes(slashes) + value;
      } else {
        var after := Quoted(tail, 0) + rest;
        assert Quoted(value, slashes) + rest == Backslashes(slashes) + ([value[0]] + after);
        SlashesAreCounted(slashes, [value[0]] + after, true, 0, pairs);
        ReadOrdinary(slashes, value[0], after, pairs);
        QuotedReadsBack(tail, 0, rest, pairs);
        assert Backslashes(slashes) + [value[0]] + (Backslashes(0) + tail) == Backslashes(slashes) + value;
      }
    }
  }

  /** For every text, the quoted argument is read as exactly that one argument, and what follows it on
      the command line is left as it is. */
  lemma ArgumentReadsBack(value: string, rest: string, pairs: bool)
    requires rest == "" || IsSeparator(rest[0])
    ensures ReadArguments("\"" + Quoted(value, 0) + rest, pairs) == [value] + ReadArguments(rest, pairs)
  {
    var line := "\"" + Quoted(value, 0) + rest;
    assert line[1..] == Quoted(value, 0) + rest;
    QuotedReadsBack(value, 0, rest, pairs);
    assert Backslashes(0) + value == value;
    assert Backslashes(0) + (Backslashes(0) + value) == value;
    assert ReadArgument(line, false, 0, pairs) == (value, rest);
  }
}
