/** The Agent Record printer, a reader for what it prints, and what a reader cannot tell apart. */
module AgentRecords {
  import opened Options
  import opened TextOrder
  import opened AgentValues
  import opened Flattening

  datatype Field = Field(key: string, value: Primitive)

  // The fields of one object, as the map iterates them: by key.
  type Fields = seq<Field>

  datatype Record = Record(name: string, fields: Fields)

  datatype CliResult =
    | Ok(command: string, records: seq<Record>, fields: Fields)
    | Error(command: string, code: string, log: Option<string>, records: seq<Record>, fields: Fields)

  // ---------- The order of fields ----------

  function RecordFieldOrder(name: string): seq<string> {
    match name
    case "model" => ["id", "summary"]
    case "operation" => ["id", "model_kind", "state", "accepted_at", "shape", "model", "item_count", "concurrency",
                         "timeout_seconds", "active", "succeeded", "failed", "log"]
    case "batch_item" => ["item_index", "model", "status", "log"]
    case "artifact" => ["artifact_index", "output_path", "mime_type", "width", "height"]
    case "diagnostic" => ["id", "severity", "code", "message", "path", "item_index"]
    case "command" => ["name", "scope", "risk", "requires", "writes", "input", "output", "errors"]
    case _ => []
  }

  function ResultFieldOrder(command: string): seq<string> {
    if command == "runtime.status" then ["runtime_state"]
    else if command in {"models.image.describe", "models.video.describe", "models.tts.describe",
        "models.music.describe",
                        "models.sfx.describe"} then ["arguments_schema", "manual_markdown"]
    else if command in {"project.status", "project.validate"}
        then ["project_root", "project_name", "errors", "warnings"]
    else if command == "workbench.start" then ["frontend", "target", "outcome"]
    else if command == "workbench.url" then ["url"]
    else []
  }

  function Keys(fields: Fields): (keys: seq<string>)
    ensures |keys| == |fields| && forall k :: 0 <= k < |keys| ==> keys[k] == fields[k].key
  {
    seq(|fields|, k requires 0 <= k < |fields| => fields[k].key)
  }

  function Find(fields: Fields, key: string): (found: seq<Field>)
    ensures |found| <= 1
    ensures forall f :: f in found ==> f in fields && f.key == key
    ensures found == [] ==> forall f :: f in fields ==> f.key != key
  {
    if fields == [] then []
    else if fields[0].key == key then [fields[0]]
    else Find(fields[1..], key)
  }

  function Prioritized(fields: Fields, priority: seq<string>): seq<Field> {
    if priority == [] then []
    else Prioritized(fields, priority[..|priority| - 1]) + Find(fields, priority[|priority| - 1])
  }

  function Others(fields: Fields, priority: seq<string>): seq<Field> {
    if fields == [] then []
    else
      Others(fields[..|fields| - 1], priority)
      + if fields[|fields| - 1].key in priority then [] else [fields[|fields| - 1]]
  }

  function InOrder(fields: Fields, priority: seq<string>): seq<Field> {
    Prioritized(fields, priority) + Others(fields, priority)
  }

  method OrderedFields(fields: Fields, priority: seq<string>) returns (output: seq<Field>)
    ensures output == InOrder(fields, priority)
  {
    output := [];
    for k := 0 to |priority|
      invariant output == Prioritized(fields, priority[..k])
    {
      assert priority[..k + 1][..k] == priority[..k];
      output := output + Find(fields, priority[k]);
    }
    assert priority[..|priority|] == priority;
    for k := 0 to |fields|
      invariant output == Prioritized(fields, priority) + Others(fields[..k], priority)
    {
      assert fields[..k + 1][..k] == fields[..k];
      if fields[k].key !in priority {
        output := output + [fields[k]];
      }
    }
    assert fields[..|fields|] == fields;
  }

  ghost predicate DistinctFields(fields: seq<Field>) {
    forall i, j :: 0 <= i < j < |fields| ==> fields[i].key != fields[j].key
  }

  lemma {:induction false} PrioritizedAre(fields: Fields, priority: seq<string>)
    requires Distinct(priority)
    ensures DistinctFields(Prioritized(fields, priority))
    ensures forall f :: f in Prioritized(fields, priority) ==> f in fields && f.key in priority
  {
    if priority == [] {
    } else {
      var last := priority[|priority| - 1];
      var before := Prioritized(fields, priority[..|priority| - 1]);
      PrioritizedAre(fields, priority[..|priority| - 1]);
      forall f | f in before
        ensures f.key != last
      {
        var k :| 0 <= k < |priority| - 1 && priority[..|priority| - 1][k] == f.key;
      }
    }
  }

  lemma {:induction false} PrioritizedIsAll(fields: Fields, priority: seq<string>)
    ensures forall f :: f in fields && f.key in priority ==>
                exists g :: g in Prioritized(fields, priority) && g.key == f.key
  {
    if priority == [] {
    } else {
      var last := priority[|priority| - 1];
      var before := Prioritized(fields, priority[..|priority| - 1]);
      PrioritizedIsAll(fields, priority[..|priority| - 1]);
      forall f | f in fields && f.key in priority
        ensures exists g :: g in Prioritized(fields, priority) && g.key == f.key
      {
        if f.key == last {
          assert Find(fields, last) != [];
          assert Find(fields, last)[0] in Prioritized(fields, priority);
        } else {
          assert f.key in priority[..|priority| - 1];
          var g :| g in before && g.key == f.key;
          assert g in Prioritized(fields, priority);
        }
      }
    }
  }

  lemma {:induction false} OthersAre(fields: Fields, priority: seq<string>)
    requires DistinctFields(fields)
    ensures DistinctFields(Others(fields, priority))
    ensures forall f :: f in Others(fields, priority) <==> f in fields && f.key !in priority
  {
    if fields == [] {
    } else {
      var last := fields[|fields| - 1];
      OthersAre(fields[..|fields| - 1], priority);
      forall f | f in Others(fields[..|fields| - 1], priority)
        ensures f.key != last.key
      {
        var k :| 0 <= k < |fields| - 1 && fields[..|fields| - 1][k] == f;
      }
      assert forall f :: f in fields <==> f in fields[..|fields| - 1] || f == last;
    }
  }

  // Fields with the same key are the same field.
  lemma SameKey(fields: Fields, f: Field, g: Field)
    requires DistinctFields(fields) && f in fields && g in fields && f.key == g.key
    ensures f == g
  {
    var i :| 0 <= i < |fields| && fields[i] == f;
    var j :| 0 <= j < |fields| && fields[j] == g;
  }

  /** Ordering the fields lists every field, each once. */
  lemma OrderingKeepsFields(fields: Fields, priority: seq<string>)
    requires DistinctFields(fields) && Distinct(priority)
    ensures DistinctFields(InOrder(fields, priority))
    ensures forall f :: f in InOrder(fields, priority) <==> f in fields
    ensures |InOrder(fields, priority)| == |fields|
  {
    var first, others := Prioritized(fields, priority), Others(fields, priority);
    PrioritizedAre(fields, priority);
    PrioritizedIsAll(fields, priority);
    OthersAre(fields, priority);
    forall f | f in fields && f.key in priority
      ensures f in first
    {
      var g :| g in first && g.key == f.key;
      SameKey(fields, f, g);
    }
    SameSize(InOrder(fields, priority), fields);
  }

  lemma SameSize(a: seq<Field>, b: seq<Field>)
    requires DistinctFields(a) && DistinctFields(b) && forall f :: f in a <==> f in b
    ensures |a| == |b|
  {
    SizeOf(a);
    SizeOf(b);
    assert (set f | f in a) == set f | f in b;
  }

  lemma {:induction false} SizeOf(a: seq<Field>)
    requires DistinctFields(a)
    ensures |set f | f in a| == |a|
  {
    if a == [] {
    } else {
      SizeOf(a[1..]);
      assert (set f | f in a) == (set f | f in a[1..]) + {a[0]};
    }
  }

  /** No order table names a field twice. */
  lemma RecordOrderIsDistinct(name: string)
    ensures Distinct(RecordFieldOrder(name))
  {}

  lemma ResultOrderIsDistinct(command: string)
    ensures Distinct(ResultFieldOrder(command))
  {}

  function Shown(fields: seq<Field>): (shown: seq<Field>)
    ensures forall f :: f in shown <==> f in fields && !f.value.Null?
  {
    if fields == [] then []
    else (if fields[0].value.Null? then [] else [fields[0]]) + Shown(fields[1..])
  }

  function RecordFields(record: Record): seq<Field> {
    Shown(InOrder(record.fields, RecordFieldOrder(record.name)))
  }

  function ResultFields(result: CliResult): seq<Field> {
    Shown(InOrder(result.fields, ResultFieldOrder(result.command)))
  }

  // ---------- What is printed ----------

  /** A line is words with a space between; a word is a name, or a key with a value. */
  datatype Word = Name(name: string) | Pair(field: Field)

  type Line = seq<Word>

  function Pairs(fields: seq<Field>): (words: seq<Word>)
    ensures |words| == |fields| && forall k :: 0 <= k < |words| ==> words[k] == Pair(fields[k])
  {
    seq(|fields|, k requires 0 <= k < |fields| => Pair(fields[k]))
  }

  function RecordLine(record: Record): Line {
    [Name(record.name)] + Pairs(RecordFields(record))
  }

  function RecordLines(records: seq<Record>): (lines: seq<Line>)
    ensures |lines| == |records| && forall k :: 0 <= k < |lines| ==> lines[k] == RecordLine(records[k])
  {
    seq(|records|, k requires 0 <= k < |records| => RecordLine(records[k]))
  }

  function FieldLines(fields: seq<Field>): (lines: seq<Line>)
    ensures |lines| == |fields| && forall k :: 0 <= k < |lines| ==> lines[k] == [Pair(fields[k])]
  {
    seq(|fields|, k requires 0 <= k < |fields| => [Pair(fields[k])])
  }

  function Header(result: CliResult): seq<Line> {
    match result
    case Ok(command, _, _) => [[Name("debrute"), Name("ok"), Pair(Field("cmd", Text(command)))]]
    case Error(command, code, log, _, _) =>
      [[Name("debrute"), Name("error"), Pair(Field("cmd", Text(command))), Pair(Field("code", Text(code)))]]
      + if log.Some? then [[Pair(Field("log", Text(log.value)))]] else []
  }

  function ResultLines(result: CliResult): seq<Line> {
    Header(result) + RecordLines(result.records) + FieldLines(ResultFields(result))
  }

  function WordText(word: Word): string {
    match word
    case Name(name) => name
    case Pair(field) => field.key + "=" + FormatValue(field.value)
  }

  function LineText(line: Line): string {
    if line == [] then ""
    else if |line| == 1 then WordText(line[0])
    else WordText(line[0]) + " " + LineText(line[1..])
  }

  function Join(texts: seq<string>): string {
    if texts == [] then ""
    else if |texts| == 1 then texts[0]
    else texts[0] + "\n" + Join(texts[1..])
  }

  function Texts(lines: seq<Line>): (texts: seq<string>)
    ensures |texts| == |lines| && forall k :: 0 <= k < |texts| ==> texts[k] == LineText(lines[k])
  {
    seq(|lines|, k requires 0 <= k < |lines| => LineText(lines[k]))
  }

  // " key=value" for each field.
  function Suffix(fields: seq<Field>): string {
    if fields == [] then "" else " " + (WordText(Pair(fields[0])) + Suffix(fields[1..]))
  }

  lemma {:induction false} SuffixIs(first: Word, fields: seq<Field>)
    ensures LineText([first] + Pairs(fields)) == WordText(first) + Suffix(fields)
    decreases |fields|
  {
    if fields == [] {
      assert [first] + Pairs(fields) == [first];
    } else {
      SuffixIs(Pair(fields[0]), fields[1..]);
      assert Pairs(fields) == [Pair(fields[0])] + Pairs(fields[1..]);
      OneMoreWord(first, Pairs(fields));
      Regroup(WordText(first), " ", WordText(Pair(fields[0])) + Suffix(fields[1..]));
    }
  }

  lemma TextsAppend(a: seq<Line>, b: seq<Line>)
    ensures Texts(a + b) == Texts(a) + Texts(b)
  {}

  method PushRecords(lines: seq<string>, records: seq<Record>) returns (out: seq<string>)
    ensures out == lines + Texts(RecordLines(records))
  {
    out := lines;
    for k := 0 to |records|
      invariant out == lines + Texts(RecordLines(records[..k]))
    {
      var ordered := OrderedFields(records[k].fields, RecordFieldOrder(records[k].name));
      SuffixIs(Name(records[k].name), Shown(ordered));
      out := out + [records[k].name + Suffix(Shown(ordered))];
      assert RecordLines(records[..k + 1]) == RecordLines(records[..k]) + [RecordLine(records[k])];
      TextsAppend(RecordLines(records[..k]), [RecordLine(records[k])]);
    }
    assert records[..|records|] == records;
  }

  // What is shown of each field that is not null.
  function ShownTexts(ordered: seq<Field>, show: Field -> string): seq<string> {
    if ordered == [] then []
    else (if ordered[0].value.Null? then [] else [show(ordered[0])]) + ShownTexts(ordered[1..], show)
  }

  function Each(fields: seq<Field>, show: Field -> string): (texts: seq<string>)
    ensures |texts| == |fields| && forall k :: 0 <= k < |fields| ==> texts[k] == show(fields[k])
  {
    seq(|fields|, k requires 0 <= k < |fields| => show(fields[k]))
  }

  lemma {:induction false} ShownTextsAre(ordered: seq<Field>, show: Field -> string)
    ensures ShownTexts(ordered, show) == Each(Shown(ordered), show)
  {
    if ordered == [] {
    } else {
      ShownTextsAre(ordered[1..], show);
    }
  }

  function FieldText(field: Field): string {
    WordText(Pair(field))
  }

  lemma FieldLineTexts(fields: seq<Field>)
    ensures Texts(FieldLines(fields)) == Each(fields, FieldText)
  {
    forall k | 0 <= k < |fields|
      ensures Texts(FieldLines(fields))[k] == Each(fields, FieldText)[k]
    {
      OneWord(Pair(fields[k]));
    }
  }

  lemma OneWord(word: Word)
    ensures LineText([word]) == WordText(word)
  {}

  // The lines of the fields, with any way to show one.
  method PushShown(lines: seq<string>, ordered: seq<Field>, show: Field -> string) returns (out: seq<string>)
    ensures out == lines + ShownTexts(ordered, show)
  {
    out := lines;
    for k := 0 to |ordered|
      invariant out + ShownTexts(ordered[k..], show) == lines + ShownTexts(ordered, show)
    {
      assert ordered[k..][1..] == ordered[k + 1..];
      if !ordered[k].value.Null? {
        out := out + [show(ordered[k])];
      }
    }
  }

  method PushFields(lines: seq<string>, ordered: seq<Field>) returns (out: seq<string>)
    ensures out == lines + Texts(FieldLines(Shown(ordered)))
  {
    out := PushShown(lines, ordered, FieldText);
    ShownTextsAre(ordered, FieldText);
    FieldLineTexts(Shown(ordered));
  }

  // The first line, word by word.
  function HeaderText(result: CliResult): string {
    match result
    case Ok(command, _, _) => "debrute" + " " + ("ok" + " " + ("cmd" + "=" + FormatValue(Text(command))))
    case Error(command, code, _, _, _) =>
      "debrute" + " " + ("error" + " " + ("cmd" + "=" + FormatValue(Text(command)) + " "
                                          + ("code" + "=" + FormatValue(Text(code)))))
  }

  lemma OneMoreWord(first: Word, rest: Line)
    requires rest != []
    ensures LineText([first] + rest) == WordText(first) + " " + LineText(rest)
  {
    assert ([first] + rest)[1..] == rest;
  }

  lemma WordsJoin(a: Word, b: Word, c: Word, d: Word)
    ensures LineText([a, b, c]) == WordText(a) + " " + (WordText(b) + " " + WordText(c))
    ensures LineText([a, b, c, d]) == WordText(a) + " " + (WordText(b) + " " + (WordText(c) + " " + WordText(d)))
  {
    assert [c, d] == [c] + [d] && [b, c, d] == [b] + [c, d] && [a, b, c, d] == [a] + [b, c, d];
    assert [b, c] == [b] + [c] && [a, b, c] == [a] + [b, c];
    OneMoreWord(c, [d]);
    OneMoreWord(b, [c, d]);
    OneMoreWord(a, [b, c, d]);
    OneMoreWord(b, [c]);
    OneMoreWord(a, [b, c]);
  }

  lemma HeaderIs(result: CliResult)
    ensures Texts(Header(result)) ==
              [HeaderText(result)]
              + if result.Error? && result.log.Some? then ["log" + "=" + FormatValue(Text(result.log.value))] else []
  {
    var cmd := Pair(Field("cmd", Text(result.command)));
    if result.Ok? {
      WordsJoin(Name("debrute"), Name("ok"), cmd, cmd);
    } else {
      WordsJoin(Name("debrute"), Name("error"), cmd, Pair(Field("code", Text(result.code))));
    }
  }

  lemma AllTexts(result: CliResult)
    ensures Texts(ResultLines(result))
         == Texts(Header(result)) + Texts(RecordLines(result.records)) + Texts(FieldLines(ResultFields(result)))
  {
    TextsAppend(Header(result), RecordLines(result.records));
    TextsAppend(Header(result) + RecordLines(result.records), FieldLines(ResultFields(result)));
  }

  method AgentRecord(result: CliResult) returns (text: string)
    ensures text == Join(Texts(ResultLines(result)))
  {
    var lines := [HeaderText(result)];
    if result.Error? && result.log.Some? {
      lines := lines + ["log" + "=" + FormatValue(Text(result.log.value))];
    }
    HeaderIs(result);
    assert lines == Texts(Header(result));
    lines := PushRecords(lines, result.records);
    var ordered := OrderedFields(result.fields, ResultFieldOrder(result.command));
    lines := PushFields(lines, ordered);
    AllTexts(result);
    text := Join(lines);
  }
}
