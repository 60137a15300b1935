/** Highlight runs of the visible text: a contiguous partition whose styled runs sit exactly on the spans. */
module Highlight {
  import opened Bytes
  import opened LogText

  datatype Style = Plain | Dim | Colored(rgb: int)

  datatype Run = Run(start: nat, end: nat, style: Style)

  function LevelColor(level: string): Option<int> {
    if level == "TRACE" then Some(0x9A6FCE)
    else if level == "DEBUG" then Some(0x4F9CF6)
    else if level == "INFO" then Some(0x3FB950)
    else if level == "WARN" then Some(0xD29922)
    else if level == "ERROR" then Some(0xF85149)
    else None
  }

  /** The two colour tables agree, no other level has a colour, and the preview makes a line the more opaque the
      more severe it is. */
  lemma Palette(level: string)
    ensures LevelColor(level).Some? <==> level in LEVELS
    ensures PreviewColor(level).Some? <==> level in LEVELS
    ensures level in LEVELS ==> LevelColor(level) == Some(PreviewColor(level).value.rgb)
    ensures PreviewColor("TRACE").value.alpha < PreviewColor("DEBUG").value.alpha < PreviewColor("INFO").value.alpha
          < PreviewColor("WARN").value.alpha < PreviewColor("ERROR").value.alpha == 100
    ensures LevelColor("TRACE") == Some(0x9A6FCE) && LevelColor("DEBUG") == Some(0x4F9CF6)
    ensures LevelColor("INFO") == Some(0x3FB950) && LevelColor("WARN") == Some(0xD29922)
    ensures LevelColor("ERROR") == Some(0xF85149)
  {
    assert LEVELS[0] == "TRACE" && LEVELS[1] == "DEBUG" && LEVELS[2] == "INFO" && LEVELS[3] == "WARN"
        && LEVELS[4] == "ERROR";
  }

  // ---------- what every character should look like ----------

  predicate Inside(r: Range, i: nat) {
    r.start <= i < r.end
  }

  function StyleAt(spans: Option<Spans>, i: nat): Style {
    if spans.None? || LevelColor(spans.value.levelName).None? then Plain
    else
      var s := spans.value;
      if Inside(s.timestamp, i) then Dim
      else if Inside(s.level, i) then Colored(LevelColor(s.levelName).value)
      else if s.target.Some? && Inside(s.target.value, i) then Dim
      else Plain
  }

  function LinePaint(length: nat, spans: Option<Spans>): (p: seq<Style>)
    ensures |p| == length
  {
    seq(length, i requires 0 <= i => StyleAt(spans, i))
  }

  /** The line breaks between lines are plain. */
  function TextPaint(parse: string -> Option<Spans>, lines: seq<string>): seq<Style>
    requires lines != []
  {
    var first := LinePaint(|lines[0]|, parse(lines[0]));
    if |lines| == 1 then first else first + [Plain] + TextPaint(parse, lines[1..])
  }

  // ---------- what a list of runs looks like ----------

  function Repeat(style: Style, n: nat): (p: seq<Style>)
    ensures |p| == n
  {
    seq(n, _ => style)
  }

  function RunPaint(r: Run): seq<Style> {
    if r.start <= r.end then Repeat(r.style, r.end - r.start) else []
  }

  /** Non-empty, each starting where the previous one ends, from `from` to `to`. */
  predicate Contiguous(runs: seq<Run>, from: nat, to: nat) {
    if runs == [] then from == to
    else
      var last := |runs| - 1;
      && runs[last].start < runs[last].end == to
      && Contiguous(runs[..last], from, runs[last].start)
  }

  /** Non-empty and in order, with gaps allowed, between `from` and `to`. */
  predicate Ordered(segments: seq<Run>, from: nat, to: nat) {
    if segments == [] then from <= to
    else from <= segments[0].start < segments[0].end && Ordered(segments[1..], segments[0].end, to)
  }

  lemma {:induction false} OrderedWithin(segments: seq<Run>, from: nat, to: nat)
    requires Ordered(segments, from, to)
    ensures from <= to
  {
    if segments != [] {
      OrderedWithin(segments[1..], segments[0].end, to);
    }
  }

  /** Segments with the gaps filled plain. */
  function Filled(segments: seq<Run>, from: nat, to: nat): seq<Style>
    requires Ordered(segments, from, to)
  {
    if segments == [] then Repeat(Plain, to - from)
    else Repeat(Plain, segments[0].start - from) + RunPaint(segments[0]) + Filled(segments[1..], segments[0].end, to)
  }

  /** Filling the gaps of `segments` between `from` and `to` gives `paint`. */
  predicate Paints(segments: seq<Run>, from: nat, to: nat, paint: seq<Style>) {
    Ordered(segments, from, to) && Filled(segments, from, to) == paint
  }

  // ---------- segments of a line ----------

  function Shifted(r: Range, offset: nat, style: Style): Run {
    Run(offset + r.start, offset + r.end, style)
  }

  function LineSegments(spans: Option<Spans>, offset: nat): seq<Run> {
    if spans.None? || LevelColor(spans.value.levelName).None? then []
    else
      var s := spans.value;
      (if s.timestamp.start < s.timestamp.end then [Shifted(s.timestamp, offset, Dim)] else [])
      + [Shifted(s.level, offset, Colored(LevelColor(s.levelName).value))]
      + (if s.target.Some? then [Shifted(s.target.value, offset, Dim)] else [])
  }

  function Segments(parse: string -> Option<Spans>, lines: seq<string>, offset: nat): seq<Run>
    decreases |lines|
  {
    if lines == [] then []
    else LineSegments(parse(lines[0]), offset) + Segments(parse, lines[1..], offset + |lines[0]| + 1)
  }

  /** Spans lie inside their line in the order timestamp, level, target. */
  predicate SpansFit(spans: Option<Spans>, length: nat) {
    spans.Some? ==>
      var s := spans.value;
      && s.timestamp.start == 0 && s.timestamp.end <= s.level.start < s.level.end <= length
      && (s.target.Some? ==> s.level.end < s.target.value.start < s.target.value.end <= length)
  }

  lemma SpansAlwaysFit(line: string)
    ensures SpansFit(SpansForLine(line), |line|)
    ensures SpansForLine(line).Some? ==> LevelColor(SpansForLine(line).value.levelName).Some?
  {
    var found := FirstLevel(line, 0);
    FirstLevelIsEarliest(line, 0);
    if found.Some? {
      SpansOfFit(line, found.value);
    }
  }

  lemma SpansOfFit(line: string, m: LevelMatch)
    requires m.level in LEVELS && WordAt(line, m.level, m.at)
    ensures SpansFit(SpansOf(line, Some(m)), |line|)
    ensures LevelColor(m.level).Some?
  {
  }

  // ---------- filling one line ----------

  /** Plain characters may be moved out in front of the segments. */
  lemma FilledFromEarlier(segments: seq<Run>, from: nat, later: nat, to: nat)
    requires from <= later && Ordered(segments, later, to)
    ensures Ordered(segments, from, to)
    ensures Filled(segments, from, to) == Repeat(Plain, later - from) + Filled(segments, later, to)
  {
  }

  lemma FilledStep(segments: seq<Run>, from: nat, to: nat)
    requires segments != [] && Ordered(segments, from, to)
    ensures Filled(segments, from, to)
         == Repeat(Plain, segments[0].start - from)
            + (RunPaint(segments[0]) + Filled(segments[1..], segments[0].end, to))
  {
  }

  lemma FilledCons(segment: Run, rest: seq<Run>, from: nat, to: nat)
    requires from <= segment.start < segment.end && Ordered(rest, segment.end, to)
    ensures Ordered([segment] + rest, from, to)
    ensures Filled([segment] + rest, from, to)
         == Repeat(Plain, segment.start - from) + (RunPaint(segment) + Filled(rest, segment.end, to))
  {
  }

  /** Paint of the part of a line from `from` on. */
  function PaintTail(length: nat, spans: Option<Spans>, from: nat): seq<Style>
    requires from <= length
  {
    LinePaint(length, spans)[from..]
  }

  /** The run of one style after some plain characters. */
  lemma TailWithRun(length: nat, spans: Option<Spans>, from: nat, r: Range, style: Style)
    requires from <= r.start < r.end <= length
    requires forall i :: from <= i < r.start ==> StyleAt(spans, i) == Plain
    requires forall i :: r.start <= i < r.end ==> StyleAt(spans, i) == style
    ensures PaintTail(length, spans, from)
         == Repeat(Plain, r.start - from) + (Repeat(style, r.end - r.start) + PaintTail(length, spans, r.end))
  {
  }

  lemma PaintsInFront(segment: Run, rest: seq<Run>, from: nat, to: nat, paint: seq<Style>, tail: seq<Style>)
    requires from <= segment.start < segment.end
    requires Paints(rest, segment.end, to, paint + tail)
    ensures Paints([segment] + rest, from, to,
                   Repeat(Plain, segment.start - from) + (RunPaint(segment) + paint) + tail)
  {
    FilledCons(segment, rest, from, to);
    Regroup(Repeat(Plain, segment.start - from), RunPaint(segment), paint, tail);
  }

  /** One segment of a line in front of the rest of that line. */
  lemma SegmentInLine(length: nat, spans: Option<Spans>, offset: nat, from: nat, r: Range, style: Style,
                      rest: seq<Run>, to: nat, tail: seq<Style>)
    requires from <= r.start < r.end <= length
    requires forall i :: from <= i < r.start ==> StyleAt(spans, i) == Plain
    requires forall i :: r.start <= i < r.end ==> StyleAt(spans, i) == style
    requires Paints(rest, offset + r.end, to, PaintTail(length, spans, r.end) + tail)
    ensures Paints([Shifted(r, offset, style)] + rest, offset + from, to, PaintTail(length, spans, from) + tail)
  {
    TailWithRun(length, spans, from, r, style);
    PaintsInFront(Shifted(r, offset, style), rest, offset + from, to, PaintTail(length, spans, r.end), tail);
  }

  lemma Regroup<T>(a: seq<T>, b: seq<T>, c: seq<T>, d: seq<T>)
    ensures a + (b + (c + d)) == (a + (b + c)) + d
  {
  }

  predicate Styled(spans: Option<Spans>) {
    spans.Some? && LevelColor(spans.value.levelName).Some?
  }

  function ColorOf(spans: Option<Spans>): Style
    requires Styled(spans)
  {
    Colored(LevelColor(spans.value.levelName).value)
  }

  lemma StylesInOrder(spans: Option<Spans>, length: nat)
    requires SpansFit(spans, length) && Styled(spans)
    ensures var s := spans.value;
            && (forall i :: 0 <= i < s.timestamp.end ==> StyleAt(spans, i) == Dim)
            && (forall i :: s.timestamp.end <= i < s.level.start ==> StyleAt(spans, i) == Plain)
            && (forall i :: s.level.start <= i < s.level.end ==> StyleAt(spans, i) == ColorOf(spans))
            && (s.target.None? ==> forall i :: s.level.end <= i ==> StyleAt(spans, i) == Plain)
            && (s.target.Some? ==>
                  && (forall i :: s.level.end <= i < s.target.value.start ==> StyleAt(spans, i) == Plain)
                  && (forall i :: s.target.value.start <= i < s.target.value.end ==> StyleAt(spans, i) == Dim)
                  && (forall i :: s.target.value.end <= i ==> StyleAt(spans, i) == Plain))
  {
  }

  /** What follows the level token: the target, if any, then whatever comes after the line. */
  function AfterLevel(spans: Option<Spans>, offset: nat, rest: seq<Run>): seq<Run>
    requires Styled(spans)
  {
    if spans.value.target.Some? then [Shifted(spans.value.target.value, offset, Dim)] + rest else rest
  }

  lemma PlainRest(length: nat, spans: Option<Spans>, offset: nat, from: nat, rest: seq<Run>, to: nat, tail: seq<Style>)
    requires from <= length && Paints(rest, offset + length, to, tail)
    requires forall i :: from <= i < length ==> StyleAt(spans, i) == Plain
    ensures Paints(rest, offset + from, to, PaintTail(length, spans, from) + tail)
  {
  }

  lemma AfterLevelFilled(length: nat, spans: Option<Spans>, offset: nat, rest: seq<Run>, to: nat, tail: seq<Style>)
    requires SpansFit(spans, length) && Styled(spans)
    requires Paints(rest, offset + length, to, tail)
    ensures var end := spans.value.level.end;
            Paints(AfterLevel(spans, offset, rest), offset + end, to, PaintTail(length, spans, end) + tail)
  {
    var s := spans.value;
    StylesInOrder(spans, length);
    if s.target.Some? {
      PlainRest(length, spans, offset, s.target.value.end, rest, to, tail);
      SegmentInLine(length, spans, offset, s.level.end, s.target.value, Dim, rest, to, tail);
    } else {
      PlainRest(length, spans, offset, s.level.end, rest, to, tail);
    }
  }

  /** The timestamp and level segments in front of `after`. */
  lemma FromLineStart(length: nat, spans: Option<Spans>, offset: nat, after: seq<Run>, to: nat, tail: seq<Style>)
    requires SpansFit(spans, length) && Styled(spans)
    requires Paints(after, offset + spans.value.level.end, to, PaintTail(length, spans, spans.value.level.end) + tail)
    ensures var s := spans.value;
            var segments := (if s.timestamp.start < s.timestamp.end then [Shifted(s.timestamp, offset, Dim)] else [])
                            + ([Shifted(s.level, offset, ColorOf(spans))] + after);
            Paints(segments, offset, to, LinePaint(length, spans) + tail)
  {
    var s := spans.value;
    StylesInOrder(spans, length);
    assert PaintTail(length, spans, 0) == LinePaint(length, spans);
    var fromLevel := [Shifted(s.level, offset, ColorOf(spans))] + after;
    SegmentInLine(length, spans, offset, s.timestamp.end, s.level, ColorOf(spans), after, to, tail);
    if s.timestamp.start < s.timestamp.end {
      SegmentInLine(length, spans, offset, 0, s.timestamp, Dim, fromLevel, to, tail);
    } else {
      assert [] + fromLevel == fromLevel;
    }
  }

  lemma LineSegmentsSplit(spans: Option<Spans>, offset: nat, rest: seq<Run>)
    requires Styled(spans)
    ensures LineSegments(spans, offset) + rest
         == (if spans.value.timestamp.start < spans.value.timestamp.end
             then [Shifted(spans.value.timestamp, offset, Dim)] else [])
            + ([Shifted(spans.value.level, offset, ColorOf(spans))] + AfterLevel(spans, offset, rest))
  {
  }

  /** Filling a line's segments, followed by segments beyond the line, paints the line. */
  lemma LineFilled(length: nat, spans: Option<Spans>, offset: nat, rest: seq<Run>, to: nat, tail: seq<Style>)
    requires SpansFit(spans, length)
    requires Paints(rest, offset + length, to, tail)
    ensures Paints(LineSegments(spans, offset) + rest, offset, to, LinePaint(length, spans) + tail)
  {
    if Styled(spans) {
      AfterLevelFilled(length, spans, offset, rest, to, tail);
      FromLineStart(length, spans, offset, AfterLevel(spans, offset, rest), to, tail);
      LineSegmentsSplit(spans, offset, rest);
    } else {
      PlainRest(length, spans, offset, 0, rest, to, tail);
      assert PaintTail(length, spans, 0) == LinePaint(length, spans);
      assert LineSegments(spans, offset) + rest == rest;
    }
  }

  // ---------- filling the text ----------

  /** Length of the lines joined by single breaks. */
  function JoinedLength(lines: seq<string>): nat
    requires lines != []
  {
    if |lines| == 1 then |lines[0]| else |lines[0]| + 1 + JoinedLength(lines[1..])
  }

  lemma {:induction false} LinesKeepLength(text: string)
    ensures JoinedLength(Lines(text)) == |text|
  {
    if text != "" {
      LinesKeepLength(text[1..]);
      var rest := Lines(text[1..]);
      if text[0] == '\n' {
        assert ([""] + rest)[1..] == rest;
      } else {
        assert ([[text[0]] + rest[0]] + rest[1..])[1..] == rest[1..];
      }
    }
  }

  /** One line, its line break, and the lines after it. */
  lemma LineThenMore(length: nat, spans: Option<Spans>, offset: nat, rest: seq<Run>, to: nat, after: seq<Style>)
    requires SpansFit(spans, length)
    requires Paints(rest, offset + length + 1, to, after)
    ensures Paints(LineSegments(spans, offset) + rest, offset, to, LinePaint(length, spans) + [Plain] + after)
  {
    FilledFromEarlier(rest, offset + length, offset + length + 1, to);
    assert Repeat(Plain, 1) == [Plain];
    LineFilled(length, spans, offset, rest, to, [Plain] + after);
    Assoc(LinePaint(length, spans), [Plain], after);
  }

  lemma OneLineFilled(parse: string -> Option<Spans>, lines: seq<string>, offset: nat)
    requires |lines| == 1 && SpansFit(parse(lines[0]), |lines[0]|)
    ensures Paints(Segments(parse, lines, offset), offset, offset + |lines[0]|, TextPaint(parse, lines))
  {
    var paint := LinePaint(|lines[0]|, parse(lines[0]));
    LineFilled(|lines[0]|, parse(lines[0]), offset, [], offset + |lines[0]|, []);
    SegmentsStep(parse, lines, offset);
    assert paint + [] == paint;
  }

  lemma FirstLineFilled(parse: string -> Option<Spans>, lines: seq<string>, offset: nat, next: nat, to: nat)
    requires |lines| > 1 && SpansFit(parse(lines[0]), |lines[0]|)
    requires next == offset + |lines[0]| + 1
    requires Paints(Segments(parse, lines[1..], next), next, to, TextPaint(parse, lines[1..]))
    ensures Paints(Segments(parse, lines, offset), offset, to, TextPaint(parse, lines))
  {
    SegmentsStep(parse, lines, offset);
    LineThenMore(|lines[0]|, parse(lines[0]), offset, Segments(parse, lines[1..], next), to,
                 TextPaint(parse, lines[1..]));
  }

  lemma {:induction false} TextFilled(parse: string -> Option<Spans>, lines: seq<string>, offset: nat, to: nat)
    requires forall k :: 0 <= k < |lines| ==> SpansFit(parse(lines[k]), |lines[k]|)
    requires lines != [] && to == offset + JoinedLength(lines)
    ensures Paints(Segments(parse, lines, offset), offset, to, TextPaint(parse, lines))
    decreases |lines|
  {
    if |lines| == 1 {
      OneLineFilled(parse, lines, offset);
    } else {
      TextFilled(parse, lines[1..], offset + |lines[0]| + 1, to);
      FirstLineFilled(parse, lines, offset, offset + |lines[0]| + 1, to);
    }
  }

  // ---------- the highlighter ----------

  lemma SegmentsStep(parse: string -> Option<Spans>, lines: seq<string>, offset: nat)
    requires lines != []
    ensures Segments(parse, lines, offset)
         == LineSegments(parse(lines[0]), offset) + Segments(parse, lines[1..], offset + |lines[0]| + 1)
  {
  }

  /** Pushes the segments of one line. */
  method PushSegments(segments: seq<Run>, spans: Option<Spans>, lineStart: nat) returns (segments': seq<Run>)
    ensures segments' == segments + LineSegments(spans, lineStart)
  {
    segments' := segments;
    if spans.Some? && LevelColor(spans.value.levelName).Some? {
      var s := spans.value;
      if s.timestamp.start < s.timestamp.end {
        segments' := segments' + [Shifted(s.timestamp, lineStart, Dim)];
      }
      segments' := segments' + [Shifted(s.level, lineStart, Colored(LevelColor(s.levelName).value))];
      if s.target.Some? {
        segments' := segments' + [Shifted(s.target.value, lineStart, Dim)];
      }
    }
  }

  method CollectSegments(parse: string -> Option<Spans>, lines: seq<string>) returns (segments: seq<Run>)
    ensures segments == Segments(parse, lines, 0)
  {
    segments := [];
    var lineStart: nat := 0;
    var k: nat := 0;
    assert lines[0..] == lines;
    while k < |lines|
      invariant k <= |lines|
      invariant segments + Segments(parse, lines[k..], lineStart) == Segments(parse, lines, 0)
    {
      var spans := parse(lines[k]);
      var next := lineStart + |lines[k]| + 1;
      SegmentsStep(parse, lines[k..], lineStart);
      assert lines[k..][1..] == lines[k + 1..];
      Assoc(segments, LineSegments(spans, lineStart), Segments(parse, lines[k + 1..], next));
      segments := PushSegments(segments, spans, lineStart);
      lineStart, k := next, k + 1;
    }
    assert Segments(parse, lines[k..], lineStart) == [];
  }

  lemma ContiguousSnoc(runs: seq<Run>, r: Run, from: nat)
    requires Contiguous(runs, from, r.start) && r.start < r.end
    ensures Contiguous(runs + [r], from, r.end)
    ensures FlatMap(RunPaint, runs + [r]) == FlatMap(RunPaint, runs) + RunPaint(r)
  {
  }

  /** One turn of the gap-filling loop. */
  method PushWithGap(runs: seq<Run>, cursor: nat, segment: Run, visible: nat)
    returns (runs': seq<Run>, cursor': nat)
    requires Contiguous(runs, 0, cursor) && cursor <= segment.start < segment.end <= visible
    ensures Contiguous(runs', 0, cursor') && cursor' == segment.end
    ensures FlatMap(RunPaint, runs')
         == FlatMap(RunPaint, runs) + Repeat(Plain, segment.start - cursor) + RunPaint(segment)
  {
    runs', cursor' := runs, cursor;
    if segment.start > cursor && cursor < visible {
      ContiguousSnoc(runs, Run(cursor, segment.start, Plain), 0);
      runs' := runs' + [Run(cursor, segment.start, Plain)];
    }
    if segment.end > cursor {
      ContiguousSnoc(runs', segment, 0);
      runs' := runs' + [segment];
      cursor' := segment.end;
    }
  }

  lemma FillTurn(done: seq<Style>, segments: seq<Run>, k: nat, cursor: nat, visible: nat)
    requires k < |segments| && Ordered(segments[k..], cursor, visible)
    ensures segments[k].end <= visible
    ensures cursor <= segments[k].start < segments[k].end && Ordered(segments[k + 1..], segments[k].end, visible)
    ensures done + Filled(segments[k..], cursor, visible)
         == done + Repeat(Plain, segments[k].start - cursor) + RunPaint(segments[k])
            + Filled(segments[k + 1..], segments[k].end, visible)
  {
    var rest, gap := segments[k..], Repeat(Plain, segments[k].start - cursor);
    assert rest[0] == segments[k] && rest[1..] == segments[k + 1..];
    OrderedWithin(rest[1..], rest[0].end, visible);
    FilledStep(rest, cursor, visible);
    var tail := Filled(rest[1..], rest[0].end, visible);
    Assoc(done, gap, RunPaint(rest[0]) + tail);
    Assoc(done + gap, RunPaint(rest[0]), tail);
  }

  /** Fills the gaps between ordered segments. */
  method FillGaps(segments: seq<Run>, visible: nat) returns (runs: seq<Run>)
    requires Ordered(segments, 0, visible)
    ensures Contiguous(runs, 0, visible)
    ensures FlatMap(RunPaint, runs) == Filled(segments, 0, visible)
  {
    runs := [];
    var cursor: nat := 0;
    var k: nat := 0;
    assert segments[0..] == segments;
    while k < |segments|
      invariant k <= |segments| && cursor <= visible
      invariant Ordered(segments[k..], cursor, visible)
      invariant Contiguous(runs, 0, cursor)
      invariant FlatMap(RunPaint, runs) + Filled(segments[k..], cursor, visible) == Filled(segments, 0, visible)
    {
      FillTurn(FlatMap(RunPaint, runs), segments, k, cursor, visible);
      runs, cursor := PushWithGap(runs, cursor, segments[k], visible);
      k := k + 1;
    }
    if cursor < visible {
      ContiguousSnoc(runs, Run(cursor, visible, Plain), 0);
      runs := runs + [Run(cursor, visible, Plain)];
    }
  }

  /** For a text as long as the visible range, the runs are non-empty, contiguous, cover it exactly, and
      give every character the style its line's spans prescribe. */
  method HighlightRange(text: string, visible: nat) returns (runs: seq<Run>)
    requires visible == |text|
    ensures Contiguous(runs, 0, visible)
    ensures FlatMap(RunPaint, runs) == TextPaint(SpansForLine, Lines(text))
  {
    LinesKeepLength(text);
    var lines := Lines(text);
    forall k | 0 <= k < |lines|
      ensures SpansFit(SpansForLine(lines[k]), |lines[k]|)
    {
      SpansAlwaysFit(lines[k]);
    }
    TextFilled(SpansForLine, lines, 0, visible);
    var segments := CollectSegments(SpansForLine, lines);
    runs := FillGaps(segments, visible);
  }

  /** A formatted entry in full: the timestamp and the target with its colon are dimmed, the level has its
      colour, everything else is plain. */
  lemma PaintOfEntry(e: LogEntry, i: nat)
    requires Standard(e) && Unambiguous(e) && i < |FormatLine(e)|
    ensures var at := |e.timestamp| + 2 + (5 - |e.level|);
            var target := at + |e.level| + 1;
            LinePaint(|FormatLine(e)|, SpansForLine(FormatLine(e)))[i]
            == if i < |e.timestamp| then Dim
               else if at <= i < at + |e.level| then Colored(LevelColor(e.level).value)
               else if e.target != "" && target <= i < target + |e.target| + 1 then Dim
               else Plain
    ensures LevelColor(e.level).Some?
  {
    SpansRoundTripIff(e);
    Palette(e.level);
    var k :| 0 <= k < |LEVELS| && LEVELS[k] == e.level;
    LevelsAreWords(k);
  }
}
