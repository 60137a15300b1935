/** One captured connection from end to end: two proxies in a row, the far one being the gateway, whose every
    counted message is also an `observe` call on the capture ledger. */
module EndToEnd {
  import opened Bytes
  import opened Pcap
  import L = Ledger
  import P = Proxy
  import C = Contention

  /** In `chain`, the near side is the client and the far side the gateway with the target behind it. Ledger
      client 0 observes what goes to the target, client 1 what comes from it. */
  datatype Connection = Connection(chain: P.Chain, ledger: L.Ledger)

  datatype Step =
    | Net(step: P.Step)         // anything but the gateway counting a message
    | TakeFromClient            // the gateway receives a WebSocket message
    | TakeFromTarget            // the gateway decodes what the target sent
    | Capture(call: L.Step)     // the calls in progress, the writer, and finish

  function Start(max: nat): Connection {
    Connection(P.Exec([]), L.Init(max, L.BOTH))
  }

  /** The next WebSocket message will be counted. */
  predicate Counts(w: P.Way) {
    w.down && w.held2.None? && w.outbound == [] && w.wire != [] && P.FromWs(w.wire[0]).Binary?
  }

  /** The forwarding loop of a direction is not inside an `observe` call. */
  predicate Free(l: L.Ledger, i: nat) {
    i < |l.clients| && l.clients[i].phase.Idle? && !l.finishing
  }

  function Next(s: Connection, step: Step): Connection {
    match step
    case Net(p) =>
      if p == P.Forth(P.ReceiveWs) || p == P.Back(P.DecodeInbound) then s
      else s.(chain := P.Next(s.chain, p))
    case TakeFromClient =>
      if !Free(s.ledger, 0) then s
      else
        Connection(P.Next(s.chain, P.Forth(P.ReceiveWs)),
                   if Counts(s.chain.forth) then L.Next(s.ledger, L.Begin(0, P.WireData(s.chain.forth.wire[0])))
                   else s.ledger)
    case TakeFromTarget =>
      if !Free(s.ledger, 1) || !s.chain.back.up || s.chain.back.held1.Some? || s.chain.back.inbound == [] then s
      else
        Connection(P.Next(s.chain, P.Back(P.DecodeInbound)),
                   L.Next(s.ledger, L.Begin(1, s.chain.back.inbound)))
    case Capture(l) =>
      // finish is called when the gateway's proxy has ended
      if l.Begin? || (l.Finish? && s.chain.forth.down) then s else s.(ledger := L.Next(s.ledger, l))
  }

  function Exec(max: nat, steps: seq<Step>): Connection {
    if steps == [] then Start(max) else Next(Exec(max, steps[..|steps| - 1]), steps[|steps| - 1])
  }

  // ---------- the two parts run as they do on their own ----------

  ghost predicate ChainReached(c: P.Chain) {
    exists steps :: c == P.Exec(steps)
  }

  ghost predicate LedgerReached(max: nat, l: L.Ledger) {
    exists steps :: l == L.Exec(L.Init(max, L.BOTH), steps)
  }

  lemma ChainSteps(c: P.Chain, step: P.Step)
    requires ChainReached(c)
    ensures ChainReached(P.Next(c, step))
  {
    var steps :| c == P.Exec(steps);
    assert (steps + [step])[..|steps|] == steps;
    assert P.Next(c, step) == P.Exec(steps + [step]);
  }

  lemma LedgerSteps(max: nat, l: L.Ledger, step: L.Step)
    requires LedgerReached(max, l)
    ensures LedgerReached(max, L.Next(l, step))
  {
    var steps :| l == L.Exec(L.Init(max, L.BOTH), steps);
    L.ExecSnoc(L.Init(max, L.BOTH), steps, step);
    assert L.Next(l, step) == L.Exec(L.Init(max, L.BOTH), steps + [step]);
  }

  // ---------- what they agree on ----------

  function Stream(l: L.Ledger, i: nat): seq<byte> {
    if i < |l.clients| then Flatten(l.clients[i].observed) else []
  }

  ghost predicate Linked(max: nat, s: Connection) {
    && ChainReached(s.chain) && LedgerReached(max, s.ledger)
    && Stream(s.ledger, 0) == s.chain.forth.seen2
    && Stream(s.ledger, 1) == s.chain.back.seen1
  }

  lemma BeginObserves(l: L.Ledger, i: nat, data: seq<byte>, j: nat)
    requires Free(l, i)
    ensures Stream(L.Next(l, L.Begin(i, data)), j) == if j == i then Stream(l, i) + data else Stream(l, j)
  {
  }

  lemma OthersObserveNothing(l: L.Ledger, step: L.Step, j: nat)
    requires !step.Begin?
    ensures Stream(L.Next(l, step), j) == Stream(l, j)
  {
    assert |L.Next(l, step).clients| == |l.clients|;
    assert j < |l.clients| ==> L.Next(l, step).clients[j].observed == l.clients[j].observed;
  }

  lemma NetCountsNothing(c: P.Chain, step: P.Step)
    requires step != P.Forth(P.ReceiveWs) && step != P.Back(P.DecodeInbound)
    ensures P.Next(c, step).forth.seen2 == c.forth.seen2 && P.Next(c, step).back.seen1 == c.back.seen1
  {
  }

  lemma ClientMessageCounted(c: P.Chain)
    ensures var c' := P.Next(c, P.Forth(P.ReceiveWs));
            && c'.back == c.back
            && c'.forth.seen2 == c.forth.seen2 + if Counts(c.forth) then P.WireData(c.forth.wire[0]) else []
  {
  }

  lemma NextLinked(max: nat, s: Connection, step: Step)
    requires Linked(max, s)
    ensures Linked(max, Next(s, step))
  {
    match step
    case Net(p) =>
      if Next(s, step) != s {
        ChainSteps(s.chain, p);
        NetCountsNothing(s.chain, p);
      }
    case TakeFromClient =>
      if Free(s.ledger, 0) {
        ChainSteps(s.chain, P.Forth(P.ReceiveWs));
        ClientMessageCounted(s.chain);
        if Counts(s.chain.forth) {
          var data := P.WireData(s.chain.forth.wire[0]);
          LedgerSteps(max, s.ledger, L.Begin(0, data));
          BeginObserves(s.ledger, 0, data, 0);
          BeginObserves(s.ledger, 0, data, 1);
        }
      }
    case TakeFromTarget =>
      if Next(s, step) != s {
        var data := s.chain.back.inbound;
        ChainSteps(s.chain, P.Back(P.DecodeInbound));
        LedgerSteps(max, s.ledger, L.Begin(1, data));
        BeginObserves(s.ledger, 1, data, 0);
        BeginObserves(s.ledger, 1, data, 1);
      }
    case Capture(l) =>
      if Next(s, step) != s {
        LedgerSteps(max, s.ledger, l);
        OthersObserveNothing(s.ledger, l, 0);
        OthersObserveNothing(s.ledger, l, 1);
      }
  }

  lemma {:induction false} RunsLinked(max: nat, steps: seq<Step>)
    ensures Linked(max, Exec(max, steps))
  {
    if steps == [] {
      assert P.Exec([]) == Start(max).chain;
      assert L.Exec(L.Init(max, L.BOTH), []) == Start(max).ledger;
    } else {
      RunsLinked(max, steps[..|steps| - 1]);
      NextLinked(max, Exec(max, steps[..|steps| - 1]), steps[|steps| - 1]);
    }
  }

  // ---------- results ----------

  lemma {:induction false} LengthOfParts(parts: seq<seq<byte>>)
    ensures Sum(L.Length, parts) == |Flatten(parts)|
  {
    if parts != [] {
      LengthOfParts(parts[..|parts| - 1]);
    }
  }

  lemma CountersAreStreams(max: nat, l: L.Ledger)
    requires LedgerReached(max, l)
    ensures L.Inv(l)
    ensures |l.clients| == 2 && l.clients[0].direction == ClientToTarget && l.clients[1].direction == TargetToClient
    ensures l.toTarget == |Stream(l, 0)| && l.toClient == |Stream(l, 1)|
  {
    var steps :| l == L.Exec(L.Init(max, L.BOTH), steps);
    L.RunsKeepInv(max, L.BOTH, steps);
    L.DirectionsFixed(max, L.BOTH, steps);
    assert l.clients == [l.clients[0]] + [l.clients[1]];
    forall d: Direction
      ensures Sum(L.SeenBytes(d), l.clients) == L.SeenBytes(d)(l.clients[0]) + L.SeenBytes(d)(l.clients[1])
    {
      SumAppend(L.SeenBytes(d), [l.clients[0]], [l.clients[1]]);
      assert [l.clients[0]][..0] == [] && [l.clients[1]][..0] == [];
    }
    LengthOfParts(l.clients[0].observed);
    LengthOfParts(l.clients[1].observed);
  }

  lemma PrefixOfLonger<T>(a: seq<T>, b: seq<T>, whole: seq<T>)
    requires a <= whole && b <= whole && |a| <= |b|
    ensures a <= b
  {
  }

  /** At every moment of every run, the observed bytes of a direction lie between what was handed to its reader
      and what its writer has written, as prefixes of each other, and the audited counter is their number. */
  lemma ObservedBetweenDeliveredAndWritten(max: nat, steps: seq<Step>)
    ensures var s := Exec(max, steps);
            && s.chain.forth.delivered <= Stream(s.ledger, 0) <= s.chain.forth.written
            && s.chain.back.delivered <= Stream(s.ledger, 1) <= s.chain.back.written
            && s.ledger.toTarget == |Stream(s.ledger, 0)| && s.ledger.toClient == |Stream(s.ledger, 1)|
  {
    RunsLinked(max, steps);
    var s := Exec(max, steps);
    CountersAreStreams(max, s.ledger);
    var run :| s.chain == P.Exec(run);
    P.RunsKeepInv(run);
    var back := s.chain.back;
    PrefixOfLonger(back.seen2, back.seen1, back.written);
  }

  /** What an observer reads in the capture file for one direction. */
  function Captured(link: Link, l: L.Ledger, d: Direction): seq<byte> {
    FlatMap(PayloadIf(Travelling(link, d)), CaptureRecords(link, L.Messages(L.Written(l))))
  }

  /** Once the writer has closed: the file parses, its payload is the audited figure, and unless it was
      truncated it shows, for each direction, every byte handed to the reader and nothing the writer did not write,
      as many as the audited counter says. */
  lemma CaptureShowsTheConnection(max: nat, link: Link, steps: seq<Step>)
    requires Exec(max, steps).ledger.closed && link.client != link.target
    ensures var s := Exec(max, steps);
            var file := CaptureFile(link, L.Messages(L.Written(s.ledger)));
            var rs := CaptureRecords(link, L.Messages(L.Written(s.ledger)));
            && ParseFile(file) == Some(rs)
            && |FlatMap(PayloadIf(Everything()), rs)| == s.ledger.captured <= s.ledger.toTarget + s.ledger.toClient
            && (!s.ledger.truncated ==>
                  && s.chain.forth.delivered <= Captured(link, s.ledger, ClientToTarget) <= s.chain.forth.written
                  && s.chain.back.delivered <= Captured(link, s.ledger, TargetToClient) <= s.chain.back.written
                  && |Captured(link, s.ledger, ClientToTarget)| == s.ledger.toTarget
                  && |Captured(link, s.ledger, TargetToClient)| == s.ledger.toClient)
  {
    ObservedBetweenDeliveredAndWritten(max, steps);
    RunsLinked(max, steps);
    var s := Exec(max, steps);
    CountersAreStreams(max, s.ledger);
    var run :| s.ledger == L.Exec(L.Init(max, L.BOTH), run);
    L.ClosedCaptureFile(max, link, run, 0);
    L.ClosedCaptureFile(max, link, run, 1);
    L.QuietLedger(max, L.BOTH, run);
  }

  // ---------- the end of the gateway's proxy ----------

  ghost predicate Over(s: Connection) {
    P.Ended(s.chain, P.Far)
  }

  lemma OverObservesNothing(s: Connection, step: Step)
    requires Over(s)
    ensures var s' := Next(s, step);
            && Over(s') && P.PassedBy(s'.chain, P.Far) == P.PassedBy(s.chain, P.Far)
            && Stream(s'.ledger, 0) == Stream(s.ledger, 0) && Stream(s'.ledger, 1) == Stream(s.ledger, 1)
  {
    match step
    case Net(p) => P.EndedPassesNothing(s.chain, p, P.Far);
    case TakeFromClient => P.EndedPassesNothing(s.chain, P.Forth(P.ReceiveWs), P.Far);
    case TakeFromTarget =>
    case Capture(l) =>
      if !l.Begin? {
        OthersObserveNothing(s.ledger, l, 0);
        OthersObserveNothing(s.ledger, l, 1);
      }
  }

  lemma ExecPush(max: nat, steps: seq<Step>, step: Step)
    ensures Exec(max, steps + [step]) == Next(Exec(max, steps), step)
  {
    assert (steps + [step])[..|steps|] == steps;
  }

  /** Once the gateway's proxy has ended, nothing more is delivered to the target, sent to the client, counted
      or observed, in either direction. */
  lemma {:induction false} ObservingEndsWithTheProxy(max: nat, steps: seq<Step>, later: seq<Step>)
    ensures var s, e := Exec(max, steps), Exec(max, steps + [Net(P.Stop(P.Far))] + later);
            && Over(e) && P.PassedBy(e.chain, P.Far) == P.PassedBy(s.chain, P.Far)
            && Stream(e.ledger, 0) == Stream(s.ledger, 0) && Stream(e.ledger, 1) == Stream(s.ledger, 1)
  {
    var stopped := steps + [Net(P.Stop(P.Far))];
    if later == [] {
      assert stopped + later == stopped;
      ExecPush(max, steps, Net(P.Stop(P.Far)));
      P.StopEndsBoth(Exec(max, steps).chain, P.Far);
    } else {
      var init, last := later[..|later| - 1], later[|later| - 1];
      ObservingEndsWithTheProxy(max, steps, init);
      Assoc(stopped, init, [last]);
      assert later == init + [last];
      ExecPush(max, stopped + init, last);
      OverObservesNothing(Exec(max, stopped + init), last);
    }
  }

  // ---------- progress ----------

  /** The capture finishes only after the gateway's proxy. */
  lemma {:induction false} FinishComesLast(max: nat, steps: seq<Step>)
    ensures Exec(max, steps).ledger.finishing ==> !Exec(max, steps).chain.forth.down
  {
    if steps != [] {
      FinishComesLast(max, steps[..|steps| - 1]);
      StepFinishesLast(Exec(max, steps[..|steps| - 1]), steps[|steps| - 1]);
    }
  }

  lemma StepFinishesLast(s: Connection, step: Step)
    requires s.ledger.finishing ==> !s.chain.forth.down
    ensures Next(s, step).ledger.finishing ==> !Next(s, step).chain.forth.down
  {
  }

  /** No step that the two proxies, the calls in progress or the writer can take would change anything. */
  predicate Stuck(s: Connection) {
    && Next(s, TakeFromClient) == Next(s, TakeFromTarget) == s
    && IdleStep(s, P.Forth(P.DecodeInbound)) && IdleStep(s, P.Forth(P.SendWs)) && IdleStep(s, P.Forth(P.EncodeHeld))
    && IdleStep(s, P.Back(P.ReceiveWs)) && IdleStep(s, P.Back(P.SendWs)) && IdleStep(s, P.Back(P.EncodeHeld))
    && (forall side :: CopiesNothing(s, side))
    && (forall i :: 0 <= i < |s.ledger.clients| ==> Next(s, Capture(C.Move(s.ledger.clients[i], i))) == s)
    && Next(s, Capture(L.Take)) == Next(s, Capture(L.Finish)) == Next(s, Capture(L.Close)) == s
  }

  predicate IdleStep(s: Connection, p: P.Step) {
    Next(s, Net(p)) == s
  }

  /** Nothing left to read from or to flush to the application's socket. */
  predicate CopiesNothing(s: Connection, side: P.Side) {
    var w := if side.Near? then s.chain.back else s.chain.forth;
    var copy := (step: P.WayStep) => if side.Near? then P.Back(step) else P.Forth(step);
    && (w.read < |w.written| ==> IdleStep(s, copy(P.Read(1))))
    && (w.outbound != [] ==> IdleStep(s, copy(P.Flush(1))))
  }

  lemma CallReachesLedger(s: Connection, i: nat)
    requires i < |s.ledger.clients|
    ensures Next(s, Capture(C.Move(s.ledger.clients[i], i))).ledger
         == L.Next(s.ledger, C.Move(s.ledger.clients[i], i))
  {
  }

  lemma StuckCalls(s: Connection)
    requires Stuck(s)
    ensures C.Waiting(s.ledger)
  {
    forall i | 0 <= i < |s.ledger.clients|
      ensures L.Next(s.ledger, C.Move(s.ledger.clients[i], i)) == s.ledger
    {
      CallReachesLedger(s, i);
    }
  }

  lemma StuckIsQuiet(max: nat, s: Connection)
    requires LedgerReached(max, s.ledger) && Stuck(s)
    ensures L.Quiet(s.ledger)
  {
    StuckCalls(s);
    CountersAreStreams(max, s.ledger);
    C.NobodyWaits(s.ledger);
  }

  lemma StuckForth(s: Connection)
    requires Stuck(s) && Free(s.ledger, 0)
    ensures P.Stuck(s.chain.forth)
  {
    assert CopiesNothing(s, P.Far);
    assert Next(s, TakeFromClient).chain == s.chain;
  }

  lemma StuckBack(s: Connection)
    requires Stuck(s) && Free(s.ledger, 1)
    ensures P.Stuck(s.chain.back)
  {
    assert CopiesNothing(s, P.Near);
    assert Next(s, TakeFromTarget).chain == s.chain;
  }

  /** Where nothing is left to do, the connection is complete: with both proxies up, everything written on
      either side has been delivered, observed and counted; with the gateway's proxy ended, the capture file is
      closed behind all packets. */
  lemma StuckMeansDone(max: nat, steps: seq<Step>)
    requires Stuck(Exec(max, steps))
    ensures var s := Exec(max, steps);
            && L.Quiet(s.ledger)
            && (s.chain.forth.up && s.chain.forth.down ==>
                  && s.chain.forth.delivered == Stream(s.ledger, 0) == s.chain.forth.written
                  && s.chain.back.delivered == Stream(s.ledger, 1) == s.chain.back.written)
            && (!s.chain.forth.down ==> s.ledger.closed && s.ledger.taken == |s.ledger.queue|)
  {
    RunsLinked(max, steps);
    var s := Exec(max, steps);
    CountersAreStreams(max, s.ledger);
    StuckIsQuiet(max, s);
    var run :| s.chain == P.Exec(run);
    P.RunsKeepInv(run);
    P.DirectionsEndTogether(run);
    FinishComesLast(max, steps);
    ObservedBetweenDeliveredAndWritten(max, steps);
    if s.chain.forth.up && s.chain.forth.down {
      assert s.ledger.clients[0] in s.ledger.clients && s.ledger.clients[1] in s.ledger.clients;
      StuckForth(s);
      StuckBack(s);
      P.StuckMeansDelivered(s.chain.forth);
      P.StuckMeansDelivered(s.chain.back);
    }
    if !s.chain.forth.down {
      assert Next(s, Capture(L.Take)).ledger == Next(s, Capture(L.Finish)).ledger == s.ledger;
      L.StuckMeansClosed(s.ledger);
    }
  }

  /** And then an untruncated capture file shows both conversations whole. */
  lemma CompleteCapture(max: nat, link: Link, steps: seq<Step>, last: seq<Step>)
    requires Stuck(Exec(max, steps)) && Exec(max, steps).chain.forth.up && Exec(max, steps).chain.forth.down
    requires Exec(max, steps + [Net(P.Stop(P.Far))] + last).ledger.closed && link.client != link.target
    ensures var s, e := Exec(max, steps), Exec(max, steps + [Net(P.Stop(P.Far))] + last);
            !e.ledger.truncated ==>
              && Captured(link, e.ledger, ClientToTarget) == s.chain.forth.written
              && Captured(link, e.ledger, TargetToClient) == s.chain.back.written
  {
    StuckMeansDone(max, steps);
    ObservingEndsWithTheProxy(max, steps, last);
    ClosedStreams(max, link, steps + [Net(P.Stop(P.Far))] + last);
  }

  lemma ClosedStreams(max: nat, link: Link, steps: seq<Step>)
    requires Exec(max, steps).ledger.closed && link.client != link.target
    ensures var l := Exec(max, steps).ledger;
            !l.truncated ==> Captured(link, l, ClientToTarget) == Stream(l, 0)
                             && Captured(link, l, TargetToClient) == Stream(l, 1)
  {
    RunsLinked(max, steps);
    var l := Exec(max, steps).ledger;
    CountersAreStreams(max, l);
    var run :| l == L.Exec(L.Init(max, L.BOTH), run);
    L.ClosedCaptureFile(max, link, run, 0);
    L.ClosedCaptureFile(max, link, run, 1);
  }
}
