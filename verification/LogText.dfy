/** Log lines as text: finding the level token, splitting a line into spans, formatting entries, and the
    preview strip. Text is ASCII, so byte offsets are character offsets. */
module LogText {
  import opened Bytes
  import opened Text

  predicate IsAlnum(c: char) {
    'a' <= c <= 'z' || 'A' <= c <= 'Z' || '0' <= c <= '9'
  }

  predicate AlnumWord(word: string) {
    word != "" && forall i :: 0 <= i < |word| ==> IsAlnum(word[i])
  }

  /** An occurrence with no letter or digit touching it on either side. */
  predicate WordAt(line: string, word: string, i: int) {
    && OccursAt(line, word, i)
    && (i == 0 || !IsAlnum(line[i - 1]))
    && (i + |word| == |line| || !IsAlnum(line[i + |word|]))
  }

  // ---------- searching ----------

  /** Plain substring search from a position on. */
  function Find(line: string, word: string, from: nat): (r: Option<nat>)
    requires from <= |line|
    ensures r.Some? ==> from <= r.value && OccursAt(line, word, r.value)
                        && forall j :: from <= j < r.value ==> !OccursAt(line, word, j)
    ensures r.None? ==> forall j :: from <= j ==> !OccursAt(line, word, j)
    decreases |line| - from
  {
    if OccursAt(line, word, from) then Some(from)
    else if from == |line| then None
    else Find(line, word, from + 1)
  }

  /** The first whole-word occurrence, position by position. */
  function FirstWord(line: string, word: string, from: nat): (r: Option<nat>)
    requires from <= |line|
    ensures r.Some? ==> from <= r.value && WordAt(line, word, r.value)
                        && forall j :: from <= j < r.value ==> !WordAt(line, word, j)
    ensures r.None? ==> forall j :: from <= j ==> !WordAt(line, word, j)
    decreases |line| - from
  {
    if WordAt(line, word, from) then Some(from)
    else if from == |line| then None
    else FirstWord(line, word, from + 1)
  }

  /** A word stands between two neighbours exactly when neither is an ASCII letter or digit. */
  lemma WordBetween(word: string, before: char, after: char)
    ensures WordAt([before] + word + [after], word, 1)
       <==> !('a' <= before <= 'z' || 'A' <= before <= 'Z' || '0' <= before <= '9')
            && !('a' <= after <= 'z' || 'A' <= after <= 'Z' || '0' <= after <= '9')
    ensures WordAt(word, word, 0)
  {
    var line := [before] + word + [after];
    assert line[1..1 + |word|] == word && word[0..|word|] == word;
  }

  /** After a match with a letter or digit beside it, no whole-word occurrence starts inside the match. */
  lemma NoWordInsideRejected(line: string, word: string, at: nat, j: nat)
    requires AlnumWord(word)
    requires OccursAt(line, word, at) && !WordAt(line, word, at)
    requires at <= j < at + |word|
    ensures !WordAt(line, word, j)
  {
  }

  /** The search loop. It skips a whole word after every rejected match and still misses nothing. */
  method FindWord(line: string, word: string) returns (r: Option<nat>)
    requires AlnumWord(word)
    ensures r == FirstWord(line, word, 0)
  {
    var search := 0;
    while true
      invariant search <= |line|
      invariant forall j :: 0 <= j < search ==> !WordAt(line, word, j)
      decreases |line| - search
    {
      var rel := Find(line, word, search);
      if rel.None? {
        return None;
      }
      var at := rel.value;
      var end := at + |word|;
      var beforeOk := at == 0 || !IsAlnum(line[at - 1]);
      var afterOk := end >= |line| || !IsAlnum(line[end]);
      if beforeOk && afterOk {
        assert WordAt(line, word, at);
        return Some(at);
      }
      forall j | search <= j < end
        ensures !WordAt(line, word, j)
      {
        if j >= at {
          NoWordInsideRejected(line, word, at, j);
        }
      }
      search := end;
    }
  }

  /** The skip is only right for words of letters and digits: here a dash word is missed. */
  lemma SkipNeedsLetters()
    ensures WordAt("a---", "--", 2) && OccursAt("a---", "--", 1) && !WordAt("a---", "--", 1)
    ensures Find("a---", "--", 3) == None
  {
  }

  const LEVELS: seq<string> := ["TRACE", "DEBUG", "INFO", "WARN", "ERROR"]

  datatype LevelMatch = LevelMatch(at: nat, level: string)

  /** Some level token stands at position `i`. */
  predicate LevelAt(line: string, i: int) {
    exists k :: 0 <= k < |LEVELS| && WordAt(line, LEVELS[k], i)
  }

  /** `r` is the earliest level token of the line, or there is none. */
  ghost predicate EarliestLevel(line: string, r: Option<LevelMatch>) {
    match r
    case None => forall i :: !LevelAt(line, i)
    case Some(m) =>
      && m.level in LEVELS && WordAt(line, m.level, m.at)
      && forall i :: 0 <= i < m.at ==> !LevelAt(line, i)
  }

  /** No two level names can stand at the same position. */
  lemma EarliestLevelUnique(line: string, a: Option<LevelMatch>, b: Option<LevelMatch>)
    requires EarliestLevel(line, a) && EarliestLevel(line, b)
    ensures a == b
  {
    forall r: Option<LevelMatch> | r.Some? && EarliestLevel(line, r)
      ensures LevelAt(line, r.value.at)
    {
      var k :| 0 <= k < |LEVELS| && LEVELS[k] == r.value.level;
    }
    if a.Some? && b.Some? {
      assert a.value.at == b.value.at;
      assert line[a.value.at] == a.value.level[0] == b.value.level[0];
    }
  }

  function LevelHere(line: string, i: nat): Option<string> {
    if WordAt(line, "TRACE", i) then Some("TRACE")
    else if WordAt(line, "DEBUG", i) then Some("DEBUG")
    else if WordAt(line, "INFO", i) then Some("INFO")
    else if WordAt(line, "WARN", i) then Some("WARN")
    else if WordAt(line, "ERROR", i) then Some("ERROR")
    else None
  }

  function FirstLevel(line: string, from: nat): (r: Option<LevelMatch>)
    requires from <= |line|
    ensures r.Some? ==> from <= r.value.at
    decreases |line| - from
  {
    match LevelHere(line, from)
    case Some(level) => Some(LevelMatch(from, level))
    case None => if from == |line| then None else FirstLevel(line, from + 1)
  }

  lemma LevelHereIff(line: string, i: nat)
    ensures LevelHere(line, i).Some? <==> LevelAt(line, i)
    ensures LevelHere(line, i).Some? ==>
              LevelHere(line, i).value in LEVELS && WordAt(line, LevelHere(line, i).value, i)
  {
  }

  lemma {:induction false} FirstLevelIsEarliest(line: string, from: nat)
    requires from <= |line|
    requires forall i :: 0 <= i < from ==> !LevelAt(line, i)
    ensures EarliestLevel(line, FirstLevel(line, from))
    decreases |line| - from
  {
    LevelHereIff(line, from);
    if LevelHere(line, from).None? && from < |line| {
      FirstLevelIsEarliest(line, from + 1);
    }
  }

  lemma LevelsAreWords(k: nat)
    requires k < |LEVELS|
    ensures AlnumWord(LEVELS[k]) && 4 <= |LEVELS[k]| <= 5
  {
  }

  /** The minimum over all five searches. */
  method FindLevel(line: string) returns (best: Option<LevelMatch>)
    ensures best == FirstLevel(line, 0)
  {
    best := None;
    var k := 0;
    while k < |LEVELS|
      invariant k <= |LEVELS|
      invariant best.Some? ==> best.value.level in LEVELS && WordAt(line, best.value.level, best.value.at)
      invariant forall n, i :: 0 <= n < k && WordAt(line, LEVELS[n], i) ==> best.Some? && best.value.at <= i
    {
      LevelsAreWords(k);
      var pos := FindWord(line, LEVELS[k]);
      if pos.Some? && (best.None? || pos.value < best.value.at) {
        best := Some(LevelMatch(pos.value, LEVELS[k]));
      }
      k := k + 1;
    }
    assert EarliestLevel(line, best);
    FirstLevelIsEarliest(line, 0);
    EarliestLevelUnique(line, best, FirstLevel(line, 0));
  }

  // ---------- spans of a line ----------

  predicate IsSpace(c: char) {
    c == ' ' || c == '\t' || c == '\n' || c == '\r' || c as int == 11 || c as int == 12
  }

  function TrimmedLength(s: string): (n: nat)
    ensures n <= |s|
    ensures n > 0 ==> !IsSpace(s[n - 1])
    ensures forall i :: n <= i < |s| ==> IsSpace(s[i])
  {
    if s == "" || !IsSpace(s[|s| - 1]) then |s| else TrimmedLength(s[..|s| - 1])
  }

  datatype Range = Range(start: nat, end: nat)

  datatype Spans = Spans(timestamp: Range, level: Range, levelName: string, target: Option<Range>)

  /** From `from` through the first colon that a space follows. */
  function TargetRange(line: string, from: nat): Option<Range> {
    if from < |line| then
      match Find(line, ": ", from)
      case Some(colon) => Some(Range(from, colon + 1))
      case None => None
    else None
  }

  function SpansOf(line: string, found: Option<LevelMatch>): Option<Spans> {
    match found
    case None => None
    case Some(m) =>
      Some(Spans(Range(0, if m.at <= |line| then TrimmedLength(line[..m.at]) else 0),
                 Range(m.at, m.at + |m.level|), m.level,
                 TargetRange(line, m.at + |m.level| + 1)))
  }

  function SpansForLine(line: string): Option<Spans> {
    SpansOf(line, FirstLevel(line, 0))
  }

  // ---------- formatting ----------

  datatype LogEntry = LogEntry(timestamp: string, level: string, target: string, message: string)

  /** Right-aligned to five columns. */
  function Pad5(s: string): string {
    if |s| >= 5 then s else seq(5 - |s|, _ => ' ') + s
  }

  function Body(e: LogEntry): string {
    if e.target == "" then e.message else e.target + ": " + e.message
  }

  function FormatLine(e: LogEntry): string {
    e.timestamp + "  " + Pad5(e.level) + " " + Body(e)
  }

  function FormatEntry(e: LogEntry): string {
    FormatLine(e) + "\n"
  }

  lemma EntryParts(e: LogEntry)
    ensures var head := e.timestamp + "  " + Pad5(e.level) + " ";
            FormatEntry(e) == if e.target == "" then head + e.message + "\n"
                              else head + (e.target + ": ") + e.message + "\n"
  {
    Assoc(e.timestamp + "  " + Pad5(e.level) + " ", e.target + ": ", e.message);
  }

  method FormatLogs(logs: seq<LogEntry>) returns (out: string)
    ensures out == FlatMap(FormatEntry, logs)
  {
    out := "";
    for k := 0 to |logs|
      invariant out == FlatMap(FormatEntry, logs[..k])
    {
      assert logs[..k + 1] == logs[..k] + [logs[k]];
      FlatMapSnoc(FormatEntry, logs[..k], logs[k]);
      var log := logs[k];
      EntryParts(log);
      var head := log.timestamp + "  " + Pad5(log.level) + " ";
      if log.target == "" {
        out := out + (head + log.message + "\n");
      } else {
        out := out + (head + (log.target + ": ") + log.message + "\n");
      }
    }
    assert logs[..|logs|] == logs;
  }

  /** Timestamps are digits, separators and the letters T and Z; levels are the five known ones. */
  predicate Standard(e: LogEntry) {
    && e.timestamp != ""
    && (forall i :: 0 <= i < |e.timestamp| ==> '0' <= e.timestamp[i] <= '9' || e.timestamp[i] in "-+:.TZ")
    && e.level in LEVELS
  }

  /** Nothing in the line can be mistaken for the end of the target. */
  predicate Unambiguous(e: LogEntry) {
    !Contains(if e.target == "" then e.message else e.target, ": ")
  }

  function LevelOffset(e: LogEntry): nat {
    |e.timestamp| + 2 + if |e.level| >= 5 then 0 else 5 - |e.level|
  }

  /** What the spans should be, from the entry alone. */
  function ExpectedSpans(e: LogEntry): Spans {
    var at := LevelOffset(e);
    var targetStart := at + |e.level| + 1;
    Spans(Range(0, |e.timestamp|), Range(at, at + |e.level|), e.level,
          if e.target == "" then None else Some(Range(targetStart, targetStart + |e.target| + 1)))
  }

  lemma LineLayout(e: LogEntry)
    requires e.level in LEVELS
    ensures var line, at := FormatLine(e), LevelOffset(e);
            && |line| == at + |e.level| + 1 + |Body(e)|
            && line[..at] == e.timestamp + seq(at - |e.timestamp|, _ => ' ')
            && line[at..at + |e.level|] == e.level
            && line[at + |e.level|] == ' '
            && line[at + |e.level| + 1..] == Body(e)
  {
  }

  /** Every level name starts with D, I, W or E, or with TR. */
  lemma NotLevelStart(line: string, i: nat)
    requires i + 1 < |line|
    requires line[i] !in "DIWE" && !(line[i] == 'T' && line[i + 1] == 'R')
    ensures !LevelAt(line, i)
  {
  }

  /** No level name fits inside the timestamp or the padding after it. */
  lemma NoLevelBeforeLevel(e: LogEntry, i: nat)
    requires Standard(e) && i < LevelOffset(e)
    ensures !LevelAt(FormatLine(e), i)
  {
    var line, at := FormatLine(e), LevelOffset(e);
    LineLayout(e);
    var k :| 0 <= k < |LEVELS| && LEVELS[k] == e.level;
    LevelsAreWords(k);
    assert line[i] == line[..at][i];
    assert i + 1 < at ==> line[i + 1] == line[..at][i + 1];
    assert i < |e.timestamp| ==> i + 1 < at;
    NotLevelStart(line, i);
  }

  lemma LevelFound(e: LogEntry)
    requires Standard(e)
    ensures FirstLevel(FormatLine(e), 0) == Some(LevelMatch(LevelOffset(e), e.level))
  {
    var line, at := FormatLine(e), LevelOffset(e);
    LineLayout(e);
    assert line[at - 1] == line[..at][at - 1] == ' ';
    assert WordAt(line, e.level, at);
    forall i | 0 <= i < at
      ensures !LevelAt(line, i)
    {
      NoLevelBeforeLevel(e, i);
    }
    FirstLevelIsEarliest(line, 0);
    EarliestLevelUnique(line, FirstLevel(line, 0), Some(LevelMatch(at, e.level)));
  }

  lemma TimestampTrimmed(e: LogEntry)
    requires Standard(e)
    ensures TrimmedLength(FormatLine(e)[..LevelOffset(e)]) == |e.timestamp|
  {
    LineLayout(e);
    var head := FormatLine(e)[..LevelOffset(e)];
    assert !IsSpace(head[|e.timestamp| - 1]);
    assert forall i :: |e.timestamp| <= i < |head| ==> IsSpace(head[i]);
  }

  lemma OccursInTail(line: string, from: nat, tail: string, i: int)
    requires from <= |line| && line[from..] == tail && 0 <= i
    ensures OccursAt(line, ": ", from + i) <==> OccursAt(tail, ": ", i)
  {
  }

  lemma FindInTail(line: string, from: nat, tail: string, i: nat)
    requires from <= |line| && line[from..] == tail && i <= |tail|
    ensures Find(line, ": ", from + i) == match Find(tail, ": ", i)
                                          case Some(at) => Some(from + at)
                                          case None => None
  {
    forall j | from <= j
      ensures OccursAt(line, ": ", j) <==> OccursAt(tail, ": ", j - from)
    {
      OccursInTail(line, from, tail, j - from);
    }
    var found := Find(tail, ": ", i);
    assert found.Some? ==> OccursAt(line, ": ", from + found.value);
  }

  lemma ContainsIffFound(s: string)
    ensures Contains(s, ": ") <==> Find(s, ": ", 0).Some?
  {
  }

  /** Where a reader finds the end of the target. */
  lemma ColonAfterTarget(target: string, message: string)
    ensures var r := Find(target + ": " + message, ": ", 0);
            && r.Some? && r.value <= |target|
            && (r.value == |target| <==> !Contains(target, ": "))
  {
    var body := target + ": " + message;
    var r := Find(body, ": ", 0);
    assert body[|target|..|target| + 2] == ": ";
    assert OccursAt(body, ": ", |target|);
    ContainsIffFound(target);
    var t := Find(target, ": ", 0);
    if t.Some? {
      assert body[t.value..t.value + 2] == target[t.value..t.value + 2];
      assert OccursAt(body, ": ", t.value);
    }
    if r.value < |target| {
      assert body[r.value..r.value + 2][1] == body[r.value + 1];
      assert r.value + 2 <= |target|;
      assert target[r.value..r.value + 2] == body[r.value..r.value + 2];
      assert OccursAt(target, ": ", r.value);
    }
  }

  lemma TargetOfFormatted(e: LogEntry, line: string, from: nat)
    requires from <= |line| && line[from..] == Body(e)
    ensures TargetRange(line, from) == (if e.target == "" then None else Some(Range(from, from + |e.target| + 1)))
       <==> Unambiguous(e)
  {
    FindInTail(line, from, Body(e), 0);
    if e.target == "" {
      ContainsIffFound(e.message);
    } else {
      ColonAfterTarget(e.target, e.message);
    }
  }

  lemma SpansMatchIff(e: LogEntry, line: string, target: Option<Range>)
    requires LevelOffset(e) <= |line| && TrimmedLength(line[..LevelOffset(e)]) == |e.timestamp|
    requires TargetRange(line, LevelOffset(e) + |e.level| + 1) == target
    ensures SpansOf(line, Some(LevelMatch(LevelOffset(e), e.level))) == Some(ExpectedSpans(e))
       <==> target == ExpectedSpans(e).target
  {
  }

  /** The formatted line and where a parser looks in it. */
  lemma LineParts(e: LogEntry)
    requires Standard(e)
    ensures var line, at := FormatLine(e), LevelOffset(e);
            && SpansForLine(line) == SpansOf(line, Some(LevelMatch(at, e.level)))
            && at + |e.level| + 1 <= |line|
            && TrimmedLength(line[..at]) == |e.timestamp|
            && line[at + |e.level| + 1..] == Body(e)
  {
    LineLayout(e);
    LevelFound(e);
    TimestampTrimmed(e);
  }

  /** Formatting and re-parsing gives back timestamp, level and target exactly when nothing in the line
      can be mistaken for the end of the target. */
  lemma SpansRoundTripIff(e: LogEntry)
    requires Standard(e)
    ensures SpansForLine(FormatLine(e)) == Some(ExpectedSpans(e)) <==> Unambiguous(e)
  {
    LineParts(e);
    SpansOfPartsIff(e, FormatLine(e), LevelOffset(e) + |e.level| + 1);
  }

  lemma SpansOfPartsIff(e: LogEntry, line: string, from: nat)
    requires from == LevelOffset(e) + |e.level| + 1 <= |line| && line[from..] == Body(e)
    requires TrimmedLength(line[..LevelOffset(e)]) == |e.timestamp|
    ensures SpansOf(line, Some(LevelMatch(LevelOffset(e), e.level))) == Some(ExpectedSpans(e)) <==> Unambiguous(e)
  {
    TargetOfFormatted(e, line, from);
    SpansMatchIff(e, line, TargetRange(line, from));
  }

  // ---------- the document ----------

  /** Rows of a text, as the editor and the highlighter split it. */
  function Lines(text: string): (lines: seq<string>)
    ensures |lines| > 0
  {
    if text == "" then [""]
    else
      var rest := Lines(text[1..]);
      if text[0] == '\n' then [""] + rest else [[text[0]] + rest[0]] + rest[1..]
  }

  lemma {:induction false} LinesOfLineThen(line: string, rest: string)
    requires '\n' !in line
    ensures Lines(line + "\n" + rest) == [line] + Lines(rest)
    ensures Lines(line) == [line]
  {
    if line == "" {
      assert (line + "\n" + rest)[1..] == rest;
    } else {
      LinesOfLineThen(line[1..], rest);
      assert (line + "\n" + rest)[1..] == line[1..] + "\n" + rest;
      assert [line[0]] + line[1..] == line;
    }
  }

  predicate OneLine(e: LogEntry) {
    '\n' !in FormatLine(e)
  }

  /** What the console output looks like: two spaces, the level in five columns, target and message. */
  lemma ConsoleLine(at: string, target: string, message: string)
    requires target != ""
    ensures FormatLine(LogEntry(at, "INFO", target, message)) == at + "  " + " INFO" + " " + (target + ": " + message)
    ensures FormatLine(LogEntry(at, "ERROR", target, message)) == at + "  " + "ERROR" + " " + (target + ": " + message)
    ensures FormatLine(LogEntry(at, "WARN", "", message)) == at + "  " + " WARN" + " " + message
  {
    assert Pad5("INFO") == " INFO" && Pad5("WARN") == " WARN";
  }

  /** One more entry in front is one more row in front. */
  lemma RowOfFirst(e: LogEntry, rest: string)
    requires OneLine(e)
    ensures Lines(FormatEntry(e) + rest) == [FormatLine(e)] + Lines(rest)
  {
    LinesOfLineThen(FormatLine(e), rest);
  }

  lemma TextOfFirst(logs: seq<LogEntry>)
    requires logs != []
    ensures FlatMap(FormatEntry, logs) == FormatEntry(logs[0]) + FlatMap(FormatEntry, logs[1..])
    ensures Map(FormatLine, logs) == [FormatLine(logs[0])] + Map(FormatLine, logs[1..])
  {
    assert logs == [logs[0]] + logs[1..];
    FlatMapAppend(FormatEntry, [logs[0]], logs[1..]);
    FlatMapOne(FormatEntry, logs[0]);
    MapCons(FormatLine, logs[0], logs[1..]);
  }

  /** A formatted log has one row per entry, in order, and an empty row at the end. */
  lemma {:induction false} RowsOfFormattedLogs(logs: seq<LogEntry>)
    requires forall e :: e in logs ==> OneLine(e)
    ensures Lines(FlatMap(FormatEntry, logs)) == Map(FormatLine, logs) + [""]
  {
    if logs == [] {
      assert Map(FormatLine, logs) + [""] == [""];
    } else {
      RowsOfFormattedLogs(logs[1..]);
      assert logs[0] in logs;
      TextOfFirst(logs);
      RowOfFirst(logs[0], FlatMap(FormatEntry, logs[1..]));
      Assoc([FormatLine(logs[0])], Map(FormatLine, logs[1..]), [""]);
    }
  }

  // ---------- the preview strip ----------

  /** Colour and opacity in percent. */
  datatype Color = Color(rgb: int, alpha: int)

  const TRANSPARENT := Color(0, 0)

  function PreviewColor(level: string): Option<Color> {
    if level == "TRACE" then Some(Color(0x9A6FCE, 40))
    else if level == "DEBUG" then Some(Color(0x4F9CF6, 50))
    else if level == "INFO" then Some(Color(0x3FB950, 60))
    else if level == "WARN" then Some(Color(0xD29922, 85))
    else if level == "ERROR" then Some(Color(0xF85149, 100))
    else None
  }

  function RowColor(line: string): Color {
    match FirstLevel(line, 0)
    case None => TRANSPARENT
    case Some(m) => if PreviewColor(m.level).Some? then PreviewColor(m.level).value else TRANSPARENT
  }

  method ScrollbarPreview(rows: seq<string>, windowStart: nat, windowEnd: nat) returns (strip: seq<Color>)
    ensures var start := if windowStart <= |rows| then windowStart else |rows|;
            var end := if windowEnd <= |rows| then windowEnd else |rows|;
            && |strip| == (if end <= start then 0 else end - start)
            && forall k :: 0 <= k < |strip| ==> strip[k] == RowColor(rows[start + k])
  {
    var start := if windowStart <= |rows| then windowStart else |rows|;
    var end := if windowEnd <= |rows| then windowEnd else |rows|;
    strip := [];
    if end <= start {
      return;
    }
    for row := start to end
      invariant |strip| == row - start
      invariant forall k :: 0 <= k < |strip| ==> strip[k] == RowColor(rows[start + k])
    {
      var found := FindLevel(rows[row]);
      var color := if found.Some? then PreviewColor(found.value.level) else None;
      strip := strip + [if color.Some? then color.value else TRANSPARENT];
    }
  }

  lemma LevelsHaveOwnColors(a: string, b: string)
    requires a in LEVELS && b in LEVELS
    ensures PreviewColor(a).Some? && PreviewColor(a) != Some(TRANSPARENT)
    ensures PreviewColor(a) == PreviewColor(b) ==> a == b
  {
  }

  lemma RowColorOfEntry(e: LogEntry)
    requires Standard(e)
    ensures PreviewColor(e.level) == Some(RowColor(FormatLine(e)))
  {
    LevelFound(e);
    LevelsHaveOwnColors(e.level, e.level);
  }

  /** Preview row `i` shows the colour of entry `i`'s own level, which tells the levels apart; the row
      after the last entry is transparent. */
  lemma PreviewFollowsEntries(logs: seq<LogEntry>, i: nat)
    requires forall e :: e in logs ==> Standard(e) && OneLine(e)
    requires i < |logs|
    ensures var rows := Lines(FlatMap(FormatEntry, logs));
            && |rows| == |logs| + 1
            && PreviewColor(logs[i].level) == Some(RowColor(rows[i]))
            && RowColor(rows[|logs|]) == TRANSPARENT
            && forall k :: 0 <= k < |logs| && RowColor(rows[k]) == RowColor(rows[i]) ==> logs[k].level == logs[i].level
  {
    RowsOfFormattedLogs(logs);
    var rows := Lines(FlatMap(FormatEntry, logs));
    assert logs[i] in logs && rows[i] == FormatLine(logs[i]);
    RowColorOfEntry(logs[i]);
    EmptyRowTransparent();
    forall k | 0 <= k < |logs| && RowColor(rows[k]) == RowColor(rows[i])
      ensures logs[k].level == logs[i].level
    {
      assert logs[k] in logs && rows[k] == FormatLine(logs[k]);
      RowColorOfEntry(logs[k]);
      LevelsHaveOwnColors(logs[k].level, logs[i].level);
    }
  }

  lemma EmptyRowTransparent()
    ensures RowColor("") == TRANSPARENT
  {
  }
}
