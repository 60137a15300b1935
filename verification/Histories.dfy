/** Two capped histories: the desktop's log buffer with the window's copy of it, and the gateway's audit
    file with its one rotated predecessor. */
module Histories {
  import opened Bytes

  // ---------- capped lists ----------

  function LastOf<T>(n: nat, s: seq<T>): seq<T> {
    if |s| <= n then s else s[|s| - n..]
  }

  /** Capping early loses nothing that a late cap would keep. */
  lemma CapTwice<T>(n: nat, s: seq<T>, t: seq<T>)
    ensures LastOf(n, LastOf(n, s) + t) == LastOf(n, s + t)
  {
  }

  const MAX_LOGS: nat := 1000

  // ---------- the desktop as a state machine over its inputs ----------

  type Entry = string

  /** What happens to the event pump: events arrive, the channel runs empty for a while, the user closes the
      window to the tray. */
  datatype Input = Log(entry: Entry) | Popup | Quit | OtherEvent | Pause | Close

  /** `window` is the list of the open window, if one is open; `batch` the log events received but not yet
      processed. */
  datatype Desktop = Desktop(shared: seq<Entry>, window: Option<seq<Entry>>, batch: Option<seq<Entry>>, quit: bool)

  function Capped(logs: seq<Entry>, batch: seq<Entry>): seq<Entry> {
    LastOf(MAX_LOGS, logs + batch)
  }

  function Flush(d: Desktop): Desktop {
    if d.batch.None? || d.quit then d
    else Desktop(Capped(d.shared, d.batch.value),
                 if d.window.Some? then Some(Capped(d.window.value, d.batch.value)) else None, None, false)
  }

  function Next(d: Desktop, input: Input): Desktop {
    if d.quit then d
    else
      match input
      case Log(e) => d.(batch := Some((if d.batch.Some? then d.batch.value else []) + [e]))
      case Popup => if d.window.None? then d.(window := Some(d.shared)) else d
      case Quit => d.(quit := true)
      case OtherEvent => d
      case Pause => Flush(d)
      case Close => d.(window := None)
  }

  function Start(): Desktop {
    Desktop([], Some([]), None, false)
  }

  function Exec(inputs: seq<Input>): Desktop {
    if inputs == [] then Start() else Next(Exec(inputs[..|inputs| - 1]), inputs[|inputs| - 1])
  }

  // ---------- what the buffers should hold ----------

  function LogOf(): Input -> seq<Entry> {
    (i: Input) => if i.Log? then [i.entry] else []
  }

  function LogsOf(inputs: seq<Input>): seq<Entry> {
    FlatMap(LogOf(), inputs)
  }

  /** How many inputs come before the first Quit. */
  function UntilQuit(inputs: seq<Input>): (q: nat)
    ensures q <= |inputs|
    ensures q < |inputs| ==> inputs[q] == Quit
    ensures forall i :: 0 <= i < q ==> inputs[i] != Quit
  {
    FirstIndex(inputs, (i: Input) => i == Quit)
  }

  /** How many inputs end with the last Pause. */
  function UntilPause(inputs: seq<Input>): (p: nat)
    ensures p <= |inputs|
    ensures p > 0 ==> inputs[p - 1] == Pause
    ensures forall i :: p <= i < |inputs| ==> inputs[i] != Pause
  {
    if inputs == [] || inputs[|inputs| - 1] == Pause then |inputs| else UntilPause(inputs[..|inputs| - 1])
  }

  /** The inputs the pump acts on. */
  function Seen(inputs: seq<Input>): seq<Input> {
    inputs[..UntilQuit(inputs)]
  }

  function UpToPause(inputs: seq<Input>): seq<Input> {
    inputs[..UntilPause(inputs)]
  }

  /** The log events that have been processed: those up to the last moment the channel was found empty, and
      nothing from Quit on. */
  function Processed(inputs: seq<Input>): seq<Entry> {
    LogsOf(UpToPause(Seen(inputs)))
  }

  lemma SeenSnoc(inputs: seq<Input>, input: Input)
    ensures Seen(inputs + [input])
         == if Quit in inputs || input == Quit then Seen(inputs) else Seen(inputs) + [input]
    ensures Quit !in inputs ==> Seen(inputs) == inputs
  {
    var all := inputs + [input];
    assert forall i :: 0 <= i < |inputs| ==> all[i] == inputs[i];
    assert all[|inputs|] == input;
    var p, q := UntilQuit(inputs), UntilQuit(all);
    assert p <= q;
    assert q == if p == |inputs| && input != Quit then |inputs| + 1 else p;
  }

  lemma UpToPauseSnoc(inputs: seq<Input>, input: Input)
    ensures UpToPause(inputs + [input]) == if input == Pause then inputs + [input] else UpToPause(inputs)
  {
  }

  /** `all` are the log events seen, `processed` those of them that are already in the buffers. */
  ghost predicate Holds(d: Desktop, quit: bool, processed: seq<Entry>, all: seq<Entry>) {
    && d.quit == quit
    && d.shared == LastOf(MAX_LOGS, processed)
    && (d.window.Some? ==> d.window.value == d.shared)
    && all == processed + (if d.batch.Some? then d.batch.value else [])
  }

  lemma NextHolds(d: Desktop, quit: bool, processed: seq<Entry>, all: seq<Entry>, input: Input)
    requires Holds(d, quit, processed, all)
    ensures Holds(Next(d, input), quit || input == Quit,
                  if input == Pause && !quit then all else processed,
                  if input.Log? && !quit then all + [input.entry] else all)
  {
  }

  ghost predicate Tracks(d: Desktop, inputs: seq<Input>) {
    Holds(d, Quit in inputs, Processed(inputs), LogsOf(Seen(inputs)))
  }

  lemma ProcessedSnoc(inputs: seq<Input>, input: Input)
    ensures Processed(inputs + [input])
         == if input == Pause && Quit !in inputs then LogsOf(Seen(inputs)) else Processed(inputs)
    ensures LogsOf(Seen(inputs + [input]))
         == if input.Log? && Quit !in inputs then LogsOf(Seen(inputs)) + [input.entry] else LogsOf(Seen(inputs))
  {
    SeenSnoc(inputs, input);
    if Quit !in inputs && input != Quit {
      UpToPauseSnoc(inputs, input);
      FlatMapSnoc(LogOf(), inputs, input);
    }
  }

  lemma NextTracks(d: Desktop, inputs: seq<Input>, input: Input)
    requires Tracks(d, inputs)
    ensures Tracks(Next(d, input), inputs + [input])
  {
    NextHolds(d, Quit in inputs, Processed(inputs), LogsOf(Seen(inputs)), input);
    ProcessedSnoc(inputs, input);
    assert Quit in inputs + [input] <==> Quit in inputs || input == Quit;
  }

  lemma NothingTracks()
    ensures Tracks(Exec([]), [])
  {
    assert Seen([]) == [] && Processed([]) == [];
  }

  lemma OneMoreTracks(inputs: seq<Input>, input: Input)
    requires Tracks(Exec(inputs), inputs)
    ensures Tracks(Exec(inputs + [input]), inputs + [input])
  {
    assert (inputs + [input])[..|inputs|] == inputs;
    NextTracks(Exec(inputs), inputs, input);
  }

  lemma {:induction false} RunsTrack(inputs: seq<Input>)
    ensures Tracks(Exec(inputs), inputs)
  {
    if inputs == [] {
      NothingTracks();
    } else {
      var init, input := inputs[..|inputs| - 1], inputs[|inputs| - 1];
      RunsTrack(init);
      OneMoreTracks(init, input);
      assert inputs == init + [input];
    }
  }

  /** After every input of every run, whatever was closed and reopened in between: the shared buffer is the
      last 1000 of all log events processed so far, in order, and an open window lists exactly that. */
  lemma HistoriesAgree(inputs: seq<Input>)
    ensures var d := Exec(inputs);
            d.shared == LastOf(MAX_LOGS, Processed(inputs)) && (d.window.Some? ==> d.window.value == d.shared)
  {
    RunsTrack(inputs);
  }

  /** Position by position: with `p` the log events processed so far, the buffer has the smaller of 1000 and
      |p| entries, and counted from the newest they are those of `p`. */
  lemma NewestAreKept(inputs: seq<Input>, i: nat)
    ensures var d, p := Exec(inputs), Processed(inputs);
            && |d.shared| == (if |p| <= 1000 then |p| else 1000)
            && (d.window.Some? ==> |d.window.value| == |d.shared|)
            && (i < |d.shared| ==>
                  && d.shared[|d.shared| - 1 - i] == p[|p| - 1 - i]
                  && (d.window.Some? ==> d.window.value[|d.shared| - 1 - i] == p[|p| - 1 - i]))
  {
    HistoriesAgree(inputs);
  }

  /** A window is open exactly when no closing has come after the last popup that the pump still acted on; it
      is open at the start. */
  lemma {:induction false} WindowOpenIff(inputs: seq<Input>)
    ensures Exec(inputs).window.Some? <==> Reopened(Seen(inputs))
  {
    if inputs == [] {
      assert Seen(inputs) == [];
    } else {
      var init, input := inputs[..|inputs| - 1], inputs[|inputs| - 1];
      assert inputs == init + [input];
      WindowOpenIff(init);
      RunsTrack(init);
      SeenSnoc(init, input);
      ReopenedSnoc(Seen(init), input);
      NextWindow(Exec(init), input);
    }
  }

  /** Every closing is followed by a popup. */
  predicate Reopened(inputs: seq<Input>) {
    forall k :: 0 <= k < |inputs| && inputs[k] == Close ==> Popup in inputs[k..]
  }

  lemma ReopenedSnoc(inputs: seq<Input>, input: Input)
    ensures Reopened(inputs + [input]) <==> input == Popup || (Reopened(inputs) && input != Close)
  {
    var all := inputs + [input];
    forall k | 0 <= k <= |inputs|
      ensures Popup in all[k..] <==> Popup in inputs[k..] || input == Popup
    {
      assert all[k..] == inputs[k..] + [input];
    }
    assert all[|inputs|] == input && inputs[|inputs|..] == [];
    if Reopened(all) {
      forall k | 0 <= k < |inputs| && inputs[k] == Close
        ensures Popup in inputs[k..] || input == Popup
      {
        assert all[k] == Close;
      }
    }
  }

  lemma NextWindow(d: Desktop, input: Input)
    ensures Next(d, input).window.Some?
       <==> if d.quit then d.window.Some? else input == Popup || (d.window.Some? && input != Close)
  {
  }

  /** When the channel closes, the pending batch is still processed, so batching shows only after a Quit:
      without one the buffer ends as if every log event had been handled on its own. */
  lemma NothingLostWithoutQuit(inputs: seq<Input>)
    requires Quit !in inputs
    ensures var d := Flush(Exec(inputs));
            d.shared == LastOf(MAX_LOGS, LogsOf(inputs)) && (d.window.Some? ==> d.window.value == d.shared)
  {
    RunsTrack(inputs);
    assert Seen(inputs) == inputs;
    var d := Exec(inputs);
    if d.batch.Some? {
      CapTwice(MAX_LOGS, Processed(inputs), d.batch.value);
    }
  }

  /** A Quit drops the log events received since the channel was last empty, and no others; so it drops
      nothing exactly when there were none. */
  lemma QuitDropsBatch(before: seq<Input>, after: seq<Input>)
    requires Quit !in before
    ensures var inputs := before + [Quit] + after;
            var d := Flush(Exec(inputs));
            && d.quit
            && Processed(inputs) == LogsOf(UpToPause(before))
            && d.shared == LastOf(MAX_LOGS, Processed(inputs))
            && (Processed(inputs) == LogsOf(before)
                <==> forall i :: UntilPause(before) <= i < |before| ==> !before[i].Log?)
  {
    var inputs := before + [Quit] + after;
    RunsTrack(inputs);
    assert inputs[|before|] == Quit;
    assert forall i :: 0 <= i < |before| ==> inputs[i] == before[i];
    assert UntilQuit(inputs) == |before|;
    assert Seen(inputs) == before;
    LogsAfterPause(before, UntilPause(before));
  }

  /** Cutting an input sequence short loses log events exactly when some come after the cut. */
  lemma LogsAfterPause(inputs: seq<Input>, p: nat)
    requires p <= |inputs|
    ensures LogsOf(inputs[..p]) == LogsOf(inputs) <==> forall i :: p <= i < |inputs| ==> !inputs[i].Log?
  {
    var rest := inputs[p..];
    assert inputs == inputs[..p] + rest;
    FlatMapAppend(LogOf(), inputs[..p], rest);
    NoLogsIff(rest);
    assert forall i :: 0 <= i < |rest| ==> rest[i] == inputs[p + i];
    assert forall i :: p <= i < |inputs| ==> inputs[i] == rest[i - p];
  }

  lemma {:induction false} NoLogsIff(inputs: seq<Input>)
    ensures LogsOf(inputs) == [] <==> forall i :: 0 <= i < |inputs| ==> !inputs[i].Log?
  {
    if inputs != [] {
      NoLogsIff(inputs[..|inputs| - 1]);
    }
  }

  // ---------- the desktop as the program changes it ----------

  class RootView {
    var logs: seq<Entry>
    var open: bool

    constructor (logs: seq<Entry>)
      ensures this.logs == logs && open
    {
      this.logs, open := logs, true;
    }

    method HandleLogs(entries: seq<Entry>)
      modifies this`logs
      ensures logs == LastOf(MAX_LOGS, old(logs) + entries)
    {
      logs := logs + entries;
      if |logs| > MAX_LOGS {
        var excess := |logs| - MAX_LOGS;
        logs := logs[excess..];
      }
    }
  }

  datatype Event = Logs(batch: seq<Entry>) | PopupEvent | QuitEvent | Ignored

  class App {
    var logs: seq<Entry>
    var handle: RootView?   // stays set after the window is gone

    ghost function Window(): Option<seq<Entry>>
      reads this, handle
    {
      if handle != null && handle.open then Some(handle.logs) else None
    }

    constructor ()
      ensures Shows(Start()) && fresh(handle)
    {
      logs := [];
      handle := new RootView([]);
    }

    ghost predicate Shows(d: Desktop)
      reads this, handle
    {
      logs == d.shared && Window() == d.window
    }

    method CloseWindow()
      modifies handle
      ensures logs == old(logs) && handle == old(handle) && Window() == None
    {
      if handle != null {
        handle.open := false;
      }
    }

    method ProcessEvent(event: Event) returns (quit: bool)
      modifies this, handle
      ensures handle == old(handle) || fresh(handle)
      ensures quit == event.QuitEvent?
      ensures logs == if event.Logs? then Capped(old(logs), event.batch) else old(logs)
      ensures Window() == match event
                          case Logs(batch) =>
                            if old(Window()).Some? then Some(Capped(old(Window()).value, batch)) else None
                          case PopupEvent => if old(Window()).None? then Some(logs) else old(Window())
                          case _ => old(Window())
    {
      quit := false;
      match event {
        case QuitEvent => quit := true;
        case PopupEvent =>
          if handle == null || !handle.open {
            handle := new RootView(logs);
          }
        case Logs(batch) =>
          ghost var all := logs + batch;
          logs := logs + batch;
          while |logs| > MAX_LOGS
            invariant LastOf(MAX_LOGS, logs) == LastOf(MAX_LOGS, all)
            invariant Window() == old(Window()) && handle == old(handle)
          {
            logs := logs[1..];
          }
          if handle != null && handle.open {
            handle.HandleLogs(batch);
          }
        case Ignored =>
      }
    }

    /** An event other than a log line, or the user closing the window. */
    method ProcessInput(input: Input) returns (quit: bool)
      requires !input.Log? && !input.Pause?
      modifies this, handle
      ensures handle == old(handle) || fresh(handle)
      ensures quit == input.Quit?
      ensures Shows(Next(Desktop(old(logs), old(Window()), None, false), input))
    {
      if input.Close? {
        CloseWindow();
        return false;
      }
      quit := ProcessEvent(EventOf(input));
    }

    /** What the loop does with a log event: more log events are gathered until the channel is empty, other
        events overtake them, and then the batch is processed. */
    method Gather(inputs: seq<Input>, from: nat, first: Entry) returns (i: nat, quit: bool)
      requires from <= |inputs| && Shows(Exec(inputs[..from]))
      requires !Exec(inputs[..from]).quit && Exec(inputs[..from]).batch == Some([first])
      modifies this, handle
      ensures from <= i <= |inputs| && (handle == old(handle) || fresh(handle))
      ensures Exec(inputs[..i]).quit == quit && Shows(Flush(Exec(inputs[..i])))
      ensures !quit && i < |inputs| ==> inputs[i].Pause?
    {
      var batch: seq<Entry>;
      i, batch := from, [first];
      while i < |inputs| && !inputs[i].Pause?
        invariant from <= i <= |inputs|
        invariant handle == old(handle) || fresh(handle)
        invariant Shows(Exec(inputs[..i])) && !Exec(inputs[..i]).quit && Exec(inputs[..i]).batch == Some(batch)
      {
        ExecStep(inputs, i);
        var input := inputs[i];
        i := i + 1;
        if input.Log? {
          batch := batch + [input.entry];
        } else {
          quit := ProcessInput(input);
          if quit {
            return;
          }
        }
      }
      quit := ProcessEvent(Logs(batch));
    }

    /** The event loop, until a quit or the end of the channel. */
    method Pump(inputs: seq<Input>)
      requires Shows(Start())
      modifies this, handle
      ensures Shows(Flush(Exec(inputs)))
    {
      var i := 0;
      while i < |inputs|
        invariant i <= |inputs|
        invariant handle == old(handle) || fresh(handle)
        invariant Shows(Flush(Exec(inputs[..i]))) && !Exec(inputs[..i]).quit
        invariant Exec(inputs[..i]).batch.Some? ==> i == |inputs| || inputs[i].Pause?
      {
        ExecStep(inputs, i);
        var input := inputs[i];
        i := i + 1;
        var quit := false;
        if input.Log? {
          assert [] + [input.entry] == [input.entry];
          i, quit := Gather(inputs, i, input.entry);
        } else if !input.Pause? {
          quit := ProcessInput(input);
        }
        if quit {
          QuitIsFinal(inputs, i);
          return;
        }
      }
      assert inputs[..i] == inputs;
    }
  }

  function EventOf(input: Input): Event {
    match input
    case Popup => PopupEvent
    case Quit => QuitEvent
    case _ => Ignored
  }

  lemma ExecStep(inputs: seq<Input>, i: nat)
    requires i < |inputs|
    ensures Exec(inputs[..i + 1]) == Next(Exec(inputs[..i]), inputs[i])
  {
    assert inputs[..i + 1][..i] == inputs[..i];
  }

  lemma {:induction false} QuitIsFinal(inputs: seq<Input>, i: nat)
    requires i <= |inputs| && Exec(inputs[..i]).quit
    ensures Exec(inputs) == Exec(inputs[..i])
    decreases |inputs|
  {
    if i < |inputs| {
      assert inputs[..|inputs| - 1][..i] == inputs[..i];
      QuitIsFinal(inputs[..|inputs| - 1], i);
    } else {
      assert inputs[..i] == inputs;
    }
  }

  // ---------- the audit file ----------

  const ROTATE_AT: nat := 16 * 1024 * 1024

  type Content = seq<byte>

  datatype Files = Files(live: Option<Content>, rotated: Option<Content>)

  function ContentOf(file: Option<Content>): Content {
    if file.Some? then file.value else []
  }

  /** Whether deleting the old rotated file and renaming the live one work, if they are tried. A rename takes
      the place of a file that could not be deleted. */
  datatype Disk = Disk(removes: bool, renames: bool)

  function Ended(): Content -> Content {
    (line: Content) => line + [10]
  }

  function Joined(lines: seq<Content>): Content {
    FlatMap(Ended(), lines)
  }

  class AuditFile {
    var live: Option<Content>
    var rotated: Option<Content>

    constructor ()
      ensures live == rotated == None
    {
      live, rotated := None, None;
    }

    method Append(line: Content, disk: Disk) returns (ok: bool)
      modifies this
      ensures (Files(live, rotated), ok) == Appended(Files(old(live), old(rotated)), line, disk)
    {
      if live.Some? && |live.value| >= ROTATE_AT {
        if disk.removes {
          rotated := None;
        }
        if !disk.renames {
          return false;
        }
        rotated := live;
        live := None;
      }
      live := Some((if live.Some? then live.value else []) + line + [10]);
      assert [] + line == line;
      ok := true;
    }
  }

  function Appended(f: Files, line: Content, disk: Disk): (Files, bool) {
    if |ContentOf(f.live)| >= ROTATE_AT then
      if disk.renames then (Files(Some(line + [10]), f.live), true)
      else (f.(rotated := if disk.removes then None else f.rotated), false)
    else (f.(live := Some(ContentOf(f.live) + line + [10])), true)
  }

  datatype Append = Append(line: Content, disk: Disk)

  /** The files after a run, and the lines whose append reported success. */
  function ExecAudit(appends: seq<Append>): (Files, seq<Content>) {
    if appends == [] then (Files(None, None), [])
    else
      var (files, lines) := ExecAudit(appends[..|appends| - 1]);
      var last := appends[|appends| - 1];
      var (files', ok) := Appended(files, last.line, last.disk);
      (files', if ok then lines + [last.line] else lines)
  }

  /** The rotated file is lines a..b, the live file the rest. */
  ghost predicate Split(f: Files, lines: seq<Content>, a: nat, b: nat) {
    && a <= b <= |lines|
    && ContentOf(f.rotated) == Joined(lines[a..b])
    && ContentOf(f.live) == Joined(lines[b..])
    && (a > 0 ==> |ContentOf(f.rotated)| + |ContentOf(f.live)| >= ROTATE_AT)
    && (a < b ==> |ContentOf(f.rotated)| <= ROTATE_AT + |lines[b - 1]|)
    && (b < |lines| ==> |ContentOf(f.live)| <= ROTATE_AT + |lines[|lines| - 1]|)
  }

  ghost predicate Splits(f: Files, lines: seq<Content>) {
    exists a: nat, b: nat :: Split(f, lines, a, b)
  }

  lemma JoinedSnoc(lines: seq<Content>, line: Content)
    ensures Joined(lines + [line]) == Joined(lines) + (line + [10])
  {
  }

  /** The live file grows by a line. */
  lemma LineAdded(f: Files, lines: seq<Content>, a: nat, b: nat, line: Content)
    requires Split(f, lines, a, b) && |ContentOf(f.live)| < ROTATE_AT
    ensures Split(f.(live := Some(ContentOf(f.live) + line + [10])), lines + [line], a, b)
  {
    assert (lines + [line])[a..b] == lines[a..b];
    JoinedFrom(lines, b, line);
  }

  lemma JoinedFrom(lines: seq<Content>, b: nat, line: Content)
    requires b <= |lines|
    ensures Joined((lines + [line])[b..]) == Joined(lines[b..]) + line + [10]
  {
    assert (lines + [line])[b..] == lines[b..] + [line];
    JoinedSnoc(lines[b..], line);
    Assoc(Joined(lines[b..]), line, [10]);
  }

  /** The live file takes the place of the rotated one. */
  lemma Rotated(f: Files, lines: seq<Content>, a: nat, b: nat)
    requires Split(f, lines, a, b) && |ContentOf(f.live)| >= ROTATE_AT
    ensures Split(Files(None, f.live), lines, b, |lines|)
  {
    NothingJoined(lines);
    assert lines[b..|lines|] == lines[b..];
  }

  lemma Unrotated(f: Files, lines: seq<Content>, a: nat, b: nat)
    requires Split(f, lines, a, b) && |ContentOf(f.live)| >= ROTATE_AT
    ensures Split(f.(rotated := None), lines, b, b)
  {
  }

  lemma NothingJoined(lines: seq<Content>)
    ensures Joined(lines[|lines|..]) == []
  {
  }

  lemma AppendKeepsSplit(f: Files, lines: seq<Content>, a: nat, b: nat, line: Content, disk: Disk)
    requires Split(f, lines, a, b)
    ensures var (f', ok) := Appended(f, line, disk);
            Splits(f', if ok then lines + [line] else lines)
  {
    if |ContentOf(f.live)| < ROTATE_AT {
      LineAdded(f, lines, a, b, line);
    } else if disk.renames {
      Rotated(f, lines, a, b);
      LineAdded(Files(None, f.live), lines, b, |lines|, line);
      assert [] + line == line;
    } else if disk.removes {
      Unrotated(f, lines, a, b);
    }
  }

  lemma {:induction false} RunsSplit(appends: seq<Append>)
    ensures Splits(ExecAudit(appends).0, ExecAudit(appends).1)
  {
    if appends == [] {
      assert Split(Files(None, None), [], 0, 0);
    } else {
      var init, last := appends[..|appends| - 1], appends[|appends| - 1];
      RunsSplit(init);
      var (files, lines) := ExecAudit(init);
      var a: nat, b: nat :| Split(files, lines, a, b);
      AppendKeepsSplit(files, lines, a, b, last.line, last.disk);
    }
  }

  /** The files hold, together, the lines from a on. */
  ghost predicate KeptFrom(f: Files, lines: seq<Content>, a: nat) {
    && a <= |lines|
    && ContentOf(f.rotated) + ContentOf(f.live) == Joined(lines[a..])
    && (a > 0 ==> |Joined(lines[a..])| >= 16_777_216)
  }

  lemma SplitIsSuffix(f: Files, lines: seq<Content>, a: nat, b: nat)
    requires Split(f, lines, a, b)
    ensures KeptFrom(f, lines, a)
  {
    FlatMapAppend(Ended(), lines[a..b], lines[b..]);
    assert lines[a..b] + lines[b..] == lines[a..];
  }

  lemma SplitsAreSuffixes(f: Files, lines: seq<Content>)
    requires Splits(f, lines)
    ensures exists a: nat :: KeptFrom(f, lines, a)
  {
    var a: nat, b: nat :| Split(f, lines, a, b);
    SplitIsSuffix(f, lines, a, b);
  }

  lemma SplitIsSmall(f: Files, lines: seq<Content>, a: nat, b: nat, longest: nat)
    requires Split(f, lines, a, b)
    requires forall k :: 0 <= k < |lines| ==> |lines[k]| <= longest
    ensures |ContentOf(f.rotated)| <= ROTATE_AT + longest && |ContentOf(f.live)| <= ROTATE_AT + longest
  {
  }

  /** Over any run, with any renames and deletions failing: the rotated and the live file together are the
      last lines that were appended, each of them whole, and lines are missing only when at least 16 MiB of
      later ones are kept. */
  lemma AuditIsWholeLineSuffix(appends: seq<Append>)
    ensures exists a: nat :: KeptFrom(ExecAudit(appends).0, ExecAudit(appends).1, a)
  {
    RunsSplit(appends);
    SplitsAreSuffixes(ExecAudit(appends).0, ExecAudit(appends).1);
  }

  /** Neither file outgrows 16 MiB by more than one appended line. */
  lemma AuditFilesStaySmall(appends: seq<Append>, longest: nat)
    requires forall k :: 0 <= k < |ExecAudit(appends).1| ==> |ExecAudit(appends).1[k]| <= longest
    ensures |ContentOf(ExecAudit(appends).0.rotated)| <= 16_777_216 + longest
    ensures |ContentOf(ExecAudit(appends).0.live)| <= 16_777_216 + longest
  {
    RunsSplit(appends);
    var (f, lines) := ExecAudit(appends);
    var a: nat, b: nat :| Split(f, lines, a, b);
    SplitIsSmall(f, lines, a, b, longest);
  }
}
