/** A reader of printed Agent Records: it recovers every line, word and value, and what is left
    ambiguous is stated exactly. */
module AgentReader {
  import opened Options
  import opened TextOrder
  import opened AgentValues
  import opened AgentRecords

  datatype Seen = Bare(name: string) | Keyed(key: string, value: string)

  // ---------- Reading ----------

  // Up to a space, an equals sign or the end.
  function ReadName(t: string): (r: (string, string))
    ensures |r.1| <= |t|
    ensures t != "" && t[0] != ' ' && t[0] != '=' ==> |r.1| < |t|
  {
    if t == "" || t[0] == ' ' || t[0] == '=' then ("", t)
    else
      var (name, rest) := ReadName(t[1..]);
      ([t[0]] + name, rest)
  }

  function ReadLine(t: string): Option<seq<Seen>>
    decreases |t|
  {
    var (name, rest) := ReadName(t);
    if name == "" then None
    else if rest != "" && rest[0] == '=' then
      match ReadValue(rest[1..])
      case Broken => None
      case Done(value, after) => if |after| < |t| then More([Keyed(name, value)], after) else None
    else More([Bare(name)], rest)
  }

  function More(words: seq<Seen>, rest: string): Option<seq<Seen>>
    decreases |rest|
  {
    if rest == "" then Some(words)
    else if rest[0] != ' ' then None
    else
      match ReadLine(rest[1..])
      case None => None
      case Some(others) => Some(words + others)
  }

  function FirstLine(text: string): string {
    if text == "" || text[0] == '\n' then "" else [text[0]] + FirstLine(text[1..])
  }

  function Lines(text: string): seq<string>
    decreases |text|
  {
    var first := FirstLine(text);
    if |first| >= |text| then [text] else [first] + Lines(text[|first| + 1..])
  }

  // ---------- What there is to recover ----------

  function Sight(word: Word): Seen {
    match word
    case Name(name) => Bare(name)
    case Pair(field) => Keyed(field.key, Meaning(field.value))
  }

  function Sights(line: Line): (seen: seq<Seen>)
    ensures |seen| == |line| && forall k :: 0 <= k < |line| ==> seen[k] == Sight(line[k])
  {
    seq(|line|, k requires 0 <= k < |line| => Sight(line[k]))
  }

  function AllSights(lines: seq<Line>): (seen: seq<seq<Seen>>)
    ensures |seen| == |lines| && forall k :: 0 <= k < |lines| ==> seen[k] == Sights(lines[k])
  {
    seq(|lines|, k requires 0 <= k < |lines| => Sights(lines[k]))
  }

  predicate WordOk(word: Word) {
    match word
    case Name(name) => IsPlain(name)
    case Pair(field) => IsPlain(field.key) && Printable(field.value)
  }

  ghost predicate LineOk(line: Line) {
    line != [] && forall k :: 0 <= k < |line| ==> WordOk(line[k])
  }

  predicate IsName(name: string) {
    forall k :: 0 <= k < |name| ==> name[k] != ' ' && name[k] != '='
  }

  lemma {:induction false} ReadNameOf(name: string, rest: string)
    requires IsName(name) && (rest == "" || rest[0] == ' ' || rest[0] == '=')
    ensures ReadName(name + rest) == (name, rest)
  {
    if name == "" {
      assert name + rest == rest;
    } else {
      assert (name + rest)[0] == name[0] && (name + rest)[1..] == name[1..] + rest;
      ReadNameOf(name[1..], rest);
      assert [name[0]] + name[1..] == name;
    }
  }

  lemma PlainIsName(name: string)
    requires IsPlain(name)
    ensures IsName(name) && name != ""
  {}

  lemma NameReads(name: string, rest: string)
    requires IsPlain(name) && (rest == "" || rest[0] == ' ')
    ensures ReadLine(name + rest) == More([Bare(name)], rest)
  {
    PlainIsName(name);
    ReadNameOf(name, rest);
  }

  lemma PairReads(key: string, printed: string, value: string, rest: string)
    requires IsName(key) && key != "" && ReadValue(printed + rest) == Done(value, rest)
    ensures ReadLine(key + "=" + printed + rest) == More([Keyed(key, value)], rest)
  {
    var tail := "=" + printed + rest;
    assert tail[1..] == printed + rest;
    assert key + "=" + printed + rest == key + tail;
    ReadNameOf(key, tail);
  }

  lemma WordReads(word: Word, rest: string)
    requires WordOk(word) && (rest == "" || rest[0] == ' ')
    ensures ReadLine(WordText(word) + rest) == More([Sight(word)], rest)
  {
    if word.Name? {
      NameReads(word.name, rest);
    } else {
      var field := word.field;
      PlainIsName(field.key);
      ValueReadsBack(field.value, rest);
      PairReads(field.key, FormatValue(field.value), Meaning(field.value), rest);
    }
  }

  /** A printed line reads back word by word. */
  lemma {:induction false} LineReads(line: Line)
    requires LineOk(line)
    ensures ReadLine(LineText(line)) == Some(Sights(line))
    decreases |line|
  {
    if |line| == 1 {
      WordReads(line[0], "");
      assert WordText(line[0]) + "" == WordText(line[0]);
      assert [Sight(line[0])] == Sights(line);
    } else {
      var rest := " " + LineText(line[1..]);
      LineReads(line[1..]);
      WordReads(line[0], rest);
      assert WordText(line[0]) + rest == LineText(line);
      assert rest[1..] == LineText(line[1..]);
      assert [Sight(line[0])] + Sights(line[1..]) == Sights(line);
    }
  }

  lemma {:induction false} LineHasNoBreak(line: Line)
    requires LineOk(line)
    ensures '\n' !in LineText(line)
    decreases |line|
  {
    WordHasNoBreak(line[0]);
    if |line| > 1 {
      LineHasNoBreak(line[1..]);
    }
  }

  lemma WordHasNoBreak(word: Word)
    requires WordOk(word)
    ensures '\n' !in WordText(word)
  {
    if word.Pair? {
      FormatHasNoControls(word.field.value);
    }
  }

  lemma {:induction false} FirstLineOf(first: string, rest: string)
    requires '\n' !in first && (rest == "" || rest[0] == '\n')
    ensures FirstLine(first + rest) == first
  {
    if first == "" {
      assert first + rest == rest;
    } else {
      assert (first + rest)[1..] == first[1..] + rest;
      FirstLineOf(first[1..], rest);
    }
  }

  lemma {:induction false} LinesOfJoined(texts: seq<string>)
    requires texts != [] && forall k :: 0 <= k < |texts| ==> '\n' !in texts[k]
    ensures Lines(Join(texts)) == texts
    decreases |texts|
  {
    if |texts| == 1 {
      FirstLineOf(texts[0], "");
      assert texts[0] + "" == texts[0];
    } else {
      var rest := "\n" + Join(texts[1..]);
      FirstLineOf(texts[0], rest);
      assert Join(texts) == texts[0] + rest;
      assert Join(texts)[|texts[0]| + 1..] == Join(texts[1..]);
      LinesOfJoined(texts[1..]);
    }
  }

  /** The printed text of some lines has exactly those lines, and each reads back. */
  lemma TextReads(lines: seq<Line>)
    requires lines != [] && forall k :: 0 <= k < |lines| ==> LineOk(lines[k])
    ensures var texts := Lines(Join(Texts(lines)));
            |texts| == |lines| && forall k :: 0 <= k < |lines| ==> ReadLine(texts[k]) == Some(AllSights(lines)[k])
  {
    forall k | 0 <= k < |lines|
      ensures '\n' !in Texts(lines)[k] && ReadLine(Texts(lines)[k]) == Some(Sights(lines[k]))
    {
      LineHasNoBreak(lines[k]);
      LineReads(lines[k]);
    }
    LinesOfJoined(Texts(lines));
  }

  // ---------- Results ----------

  ghost predicate FieldsOk(fields: Fields) {
    forall f :: f in fields ==> IsPlain(f.key) && Printable(f.value)
  }

  // Names and keys are identifiers, numbers are numbers.
  ghost predicate ResultOk(result: CliResult) {
    && (forall r :: r in result.records ==> IsPlain(r.name) && FieldsOk(r.fields))
    && FieldsOk(result.fields)
  }

  lemma {:induction false} FindOk(fields: Fields, priority: seq<string>)
    ensures forall f :: f in Prioritized(fields, priority) ==> f in fields
  {
    if priority == [] {
    } else {
      FindOk(fields, priority[..|priority| - 1]);
    }
  }

  lemma {:induction false} OthersOk(fields: Fields, priority: seq<string>)
    ensures forall f :: f in Others(fields, priority) ==> f in fields
  {
    if fields == [] {
    } else {
      OthersOk(fields[..|fields| - 1], priority);
    }
  }

  lemma ShownOk(fields: Fields, priority: seq<string>)
    requires FieldsOk(fields)
    ensures forall f :: f in Shown(InOrder(fields, priority)) ==> IsPlain(f.key) && Printable(f.value)
  {
    FindOk(fields, priority);
    OthersOk(fields, priority);
  }

  lemma RecordLineOk(record: Record)
    requires IsPlain(record.name) && FieldsOk(record.fields)
    ensures LineOk(RecordLine(record))
  {
    ShownOk(record.fields, RecordFieldOrder(record.name));
    var fields := RecordFields(record);
    forall k | 0 <= k < |RecordLine(record)|
      ensures WordOk(RecordLine(record)[k])
    {
      assert k > 0 ==> fields[k - 1] in fields;
    }
  }

  lemma ConstantsArePlain()
    ensures IsPlain("debrute") && IsPlain("ok") && IsPlain("error") && IsPlain("cmd") && IsPlain("code")
                && IsPlain("log")
  {}

  lemma ResultLinesOk(result: CliResult)
    requires ResultOk(result)
    ensures forall k :: 0 <= k < |ResultLines(result)| ==> LineOk(ResultLines(result)[k])
  {
    ConstantsArePlain();
    ShownOk(result.fields, ResultFieldOrder(result.command));
    var records, fields := RecordLines(result.records), FieldLines(ResultFields(result));
    forall k | 0 <= k < |records|
      ensures LineOk(records[k])
    {
      assert result.records[k] in result.records;
      RecordLineOk(result.records[k]);
    }
    forall k | 0 <= k < |fields|
      ensures LineOk(fields[k])
    {
      assert ResultFields(result)[k] in ResultFields(result);
    }
  }

  function SeenOf(result: CliResult): seq<seq<Seen>> {
    AllSights(ResultLines(result))
  }

  /** Reading what is printed of a result gives back every line with its names, keys and values. */
  lemma ResultReadsBack(result: CliResult)
    requires ResultOk(result)
    ensures var texts := Lines(Join(Texts(ResultLines(result))));
            && |texts| == |SeenOf(result)|
            && forall k :: 0 <= k < |texts| ==> ReadLine(texts[k]) == Some(SeenOf(result)[k])
  {
    ResultLinesOk(result);
    assert Header(result) != [];
    TextReads(ResultLines(result));
  }

  lemma SameSights(a: Line, b: Line)
    requires LineOk(a) && LineOk(b) && Sights(a) == Sights(b)
    ensures LineText(a) == LineText(b)
    decreases |a|
  {
    assert Sights(a)[0] == Sights(b)[0];
    if a[0].Pair? && b[0].Pair? {
      PrintsAlike(a[0].field.value, b[0].field.value);
    }
    if |a| > 1 {
      assert Sights(a)[1..] == Sights(a[1..]) && Sights(b)[1..] == Sights(b[1..]);
      SameSights(a[1..], b[1..]);
    }
  }

  /** Two results are printed alike exactly when they look alike line by line. */
  lemma PrintedAlike(a: CliResult, b: CliResult)
    requires ResultOk(a) && ResultOk(b)
    ensures Join(Texts(ResultLines(a))) == Join(Texts(ResultLines(b))) <==> SeenOf(a) == SeenOf(b)
  {
    ResultReadsBack(a);
    ResultReadsBack(b);
    ResultLinesOk(a);
    ResultLinesOk(b);
    if SeenOf(a) == SeenOf(b) {
      forall k | 0 <= k < |ResultLines(a)|
        ensures LineText(ResultLines(a)[k]) == LineText(ResultLines(b)[k])
      {
        assert SeenOf(a)[k] == SeenOf(b)[k];
        SameSights(ResultLines(a)[k], ResultLines(b)[k]);
      }
      assert Texts(ResultLines(a)) == Texts(ResultLines(b));
    }
    if Join(Texts(ResultLines(a))) == Join(Texts(ResultLines(b))) {
      forall k | 0 <= k < |SeenOf(a)|
        ensures SeenOf(a)[k] == SeenOf(b)[k]
      {
        assert Some(SeenOf(a)[k]) == Some(SeenOf(b)[k]);
      }
    }
  }

  // ---------- What stays ambiguous ----------

  predicate StartsBare(seen: seq<Seen>) {
    seen != [] && seen[0].Bare?
  }

  ghost predicate AllBare(lines: seq<seq<Seen>>) {
    forall k :: 0 <= k < |lines| ==> StartsBare(lines[k])
  }

  ghost predicate NoneBare(lines: seq<seq<Seen>>) {
    forall k :: 0 <= k < |lines| ==> !StartsBare(lines[k])
  }

  // Record lines start with a name, field lines with a key: where the ones end is where the others start.
  lemma SplitIsFixed(r1: seq<seq<Seen>>, f1: seq<seq<Seen>>, r2: seq<seq<Seen>>, f2: seq<seq<Seen>>)
    requires AllBare(r1) && AllBare(r2) && NoneBare(f1) && NoneBare(f2)
    requires r1 + f1 == r2 + f2
    ensures r1 == r2 && f1 == f2
  {
    var all := r1 + f1;
    var end1 := if |r1| < |all| then StartsBare(all[|r1|]) else false;
    var end2 := if |r2| < |all| then StartsBare(all[|r2|]) else false;
    assert forall k :: 0 <= k < |r1| ==> StartsBare(all[k]);
    assert forall k :: |r1| <= k < |all| ==> all[k] == f1[k - |r1|] && !StartsBare(all[k]);
    assert forall k :: 0 <= k < |r2| ==> all[k] == r2[k] && StartsBare(all[k]);
    assert forall k :: |r2| <= k < |all| ==> all[k] == f2[k - |r2|] && !StartsBare(all[k]);
    assert r1 == all[..|r1|] && r2 == all[..|r2|] && f1 == all[|r1|..] && f2 == all[|r2|..];
  }

  lemma PartsAreFixed(x1: seq<Seen>, l1: seq<seq<Seen>>, r1: seq<seq<Seen>>, f1: seq<seq<Seen>>,
                      x2: seq<Seen>, l2: seq<seq<Seen>>, r2: seq<seq<Seen>>, f2: seq<seq<Seen>>)
    requires AllBare(r1) && AllBare(r2) && NoneBare(f1) && NoneBare(f2) && |l1| == |l2|
    requires [x1] + l1 + r1 + f1 == [x2] + l2 + r2 + f2
    ensures x1 == x2 && l1 == l2 && r1 == r2 && f1 == f2
  {
    var a, b := [x1] + l1 + r1 + f1, [x2] + l2 + r2 + f2;
    assert a[0] == x1 && b[0] == x2;
    assert a[1..1 + |l1|] == l1 && b[1..1 + |l2|] == l2;
    assert a[1 + |l1|..] == r1 + f1 && b[1 + |l2|..] == r2 + f2;
    SplitIsFixed(r1, f1, r2, f2);
  }

  // A field line taken for a log line.
  lemma LogIsFirstField(x1: seq<Seen>, log: seq<Seen>, r1: seq<seq<Seen>>, f1: seq<seq<Seen>>,
                        x2: seq<Seen>, r2: seq<seq<Seen>>, f2: seq<seq<Seen>>)
    requires AllBare(r1) && AllBare(r2) && NoneBare(f1) && NoneBare(f2) && !StartsBare(log)
    ensures [x1] + [log] + r1 + f1 == [x2] + [] + r2 + f2 <==> x1 == x2 && r1 == [] && r2 == [] && f2 == [log] + f1
  {
    var a, b := [x1] + [log] + r1 + f1, [x2] + [] + r2 + f2;
    if a == b {
      assert a[0] == x1 && b[0] == x2;
      assert a[1..] == [log] + (r1 + f1) && b[1..] == r2 + f2;
      BareFirst(r2, f2);
      assert r2 + f2 == f2;
      assert f2[1..] == r1 + f1;
      BareFirst(r1, f1);
      assert r1 + f1 == f1;
    }
  }

  predicate FirstIsBare(lines: seq<seq<Seen>>) {
    lines != [] && StartsBare(lines[0])
  }

  lemma BareFirst(r: seq<seq<Seen>>, f: seq<seq<Seen>>)
    requires AllBare(r) && NoneBare(f)
    ensures FirstIsBare(r + f) <==> r != []
  {
    if r == [] {
      assert r + f == f;
    } else {
      assert (r + f)[0] == r[0];
    }
  }

  function RecordsSeen(result: CliResult): seq<seq<Seen>> {
    AllSights(RecordLines(result.records))
  }

  function FieldsSeen(result: CliResult): seq<seq<Seen>> {
    AllSights(FieldLines(ResultFields(result)))
  }

  function LogOf(result: CliResult): Option<string> {
    if result.Ok? then None else result.log
  }

  // The line of a log.
  function LogSeen(log: Option<string>): seq<seq<Seen>> {
    match log
    case None => []
    case Some(text) => [[Keyed("log", text)]]
  }

  function FirstSeen(result: CliResult): seq<Seen> {
    match result
    case Ok(command, _, _) => [Bare("debrute"), Bare("ok"), Keyed("cmd", command)]
    case Error(command, code, _, _, _) => [Bare("debrute"), Bare("error"), Keyed("cmd", command), Keyed("code", code)]
  }

  lemma SightsAppend(a: seq<Line>, b: seq<Line>)
    ensures AllSights(a + b) == AllSights(a) + AllSights(b)
  {}

  lemma HeaderSeen(result: CliResult)
    ensures AllSights(Header(result)) == [FirstSeen(result)] + LogSeen(LogOf(result))
  {
    assert Sights(Header(result)[0]) == FirstSeen(result);
    if LogOf(result).Some? {
      assert Sights(Header(result)[1]) == [Keyed("log", LogOf(result).value)];
    }
  }

  lemma SeenParts(result: CliResult)
    ensures SeenOf(result) == [FirstSeen(result)] + LogSeen(LogOf(result)) + RecordsSeen(result) + FieldsSeen(result)
    ensures AllBare(RecordsSeen(result)) && NoneBare(FieldsSeen(result))
  {
    HeaderSeen(result);
    SightsAppend(Header(result), RecordLines(result.records));
    SightsAppend(Header(result) + RecordLines(result.records), FieldLines(ResultFields(result)));
    assert forall k :: 0 <= k < |RecordsSeen(result)| ==> RecordsSeen(result)[k][0] == Bare(result.records[k].name);
  }

  /** Of two results that both have a log, or both have none, nothing is lost: they are printed alike
      exactly when their status, command, code, log, records and fields all look alike. */
  lemma NothingIsLost(a: CliResult, b: CliResult)
    requires ResultOk(a) && ResultOk(b) && LogOf(a).Some? == LogOf(b).Some?
    ensures Join(Texts(ResultLines(a))) == Join(Texts(ResultLines(b))) <==>
              && FirstSeen(a) == FirstSeen(b) && LogOf(a) == LogOf(b)
              && RecordsSeen(a) == RecordsSeen(b) && FieldsSeen(a) == FieldsSeen(b)
  {
    PrintedAlike(a, b);
    SeenParts(a);
    SeenParts(b);
    LogsSeen(LogOf(a), LogOf(b));
    if SeenOf(a) == SeenOf(b) {
      PartsAreFixed(FirstSeen(a), LogSeen(LogOf(a)), RecordsSeen(a), FieldsSeen(a),
                    FirstSeen(b), LogSeen(LogOf(b)), RecordsSeen(b), FieldsSeen(b));
    }
  }

  lemma LogsSeen(a: Option<string>, b: Option<string>)
    requires a.Some? == b.Some?
    ensures |LogSeen(a)| == |LogSeen(b)| && (LogSeen(a) == LogSeen(b) <==> a == b)
  {
    if a.Some? && LogSeen(a) == LogSeen(b) {
      assert LogSeen(a)[0] == LogSeen(b)[0];
    }
  }

  /** A log is mistaken for a field, and only so: an error with a log is printed like a result without one
      exactly when neither has records and the other's first printed field is a `log` with that text. */
  lemma LogMistakenExactly(a: CliResult, b: CliResult)
    requires ResultOk(a) && ResultOk(b) && LogOf(a).Some? && LogOf(b).None?
    ensures Join(Texts(ResultLines(a))) == Join(Texts(ResultLines(b))) <==>
              && FirstSeen(a) == FirstSeen(b) && RecordsSeen(a) == [] && RecordsSeen(b) == []
              && FieldsSeen(b) == LogSeen(LogOf(a)) + FieldsSeen(a)
  {
    PrintedAlike(a, b);
    SeenParts(a);
    SeenParts(b);
    LogIsFirstField(FirstSeen(a), [Keyed("log", LogOf(a).value)], RecordsSeen(a), FieldsSeen(a),
                    FirstSeen(b), RecordsSeen(b), FieldsSeen(b));
  }

  /** It does happen. */
  lemma LogIsMistaken() returns (a: CliResult, b: CliResult)
    ensures ResultOk(a) && ResultOk(b) && a != b
    ensures Join(Texts(ResultLines(a))) == Join(Texts(ResultLines(b)))
  {
    var log := Field("log", Text("x"));
    a := Error("run", "failed", Some("x"), [], []);
    b := Error("run", "failed", None, [], [log]);
    ConstantsArePlain();
    RunHasNoOrder();
    OneFieldIsShown(log);
    LinesWithoutRecords(a);
    LinesWithoutRecords(b);
    LogLine(a, b, log);
  }

  lemma RunHasNoOrder()
    ensures ResultFieldOrder("run") == []
  {}

  lemma LogLine(a: CliResult, b: CliResult, log: Field)
    requires a.Error? && b.Error? && a.command == b.command && a.code == b.code
    requires a.log == Some("x") && b.log == None && log == Field("log", Text("x"))
    ensures Header(a) + [] == Header(b) + [[Pair(log)]]
  {}


  lemma OneFieldIsShown(f: Field)
    requires !f.value.Null?
    ensures Shown(InOrder([f], [])) == [f] && FieldLines([f]) == [[Pair(f)]] && Shown(InOrder([], [])) == []
  {
    assert [f][..0] == [];
    assert Others([f], []) == Others([], []) + [f];
    assert InOrder([f], []) == [f];
  }

  lemma LinesWithoutRecords(result: CliResult)
    requires result.records == []
    ensures ResultLines(result) == Header(result) + FieldLines(ResultFields(result))
  {}
}
