/** How one upgraded connection is served, from the dial to its audit record. */
module Connection {
  import opened Bytes
  import opened Pcap
  import L = Ledger
  import Text

  datatype Dial = Connected | DialFailed(error: string) | DialTimeout

  datatype ProxyEnd = Completed | ProxyFailed(error: string) | DeadlinePassed

  datatype Audit = Audit(
    clientToTarget: nat, targetToClient: nat, result: string, hasPath: bool, captured: int, truncated: bool)

  const RESET := "Connection reset without closing handshake"

  function ClassifyProxyError(error: string, clientToTarget: nat, targetToClient: nat): string {
    if (clientToTarget > 0 || targetToClient > 0) && Text.Contains(error, RESET) then "completed_ungraceful_close"
    else "proxy_error:" + error
  }

  class AuditLog {
    var records: seq<Audit>
    var attempts: nat

    constructor ()
      ensures records == [] && attempts == 0
    {
      records, attempts := [], 0;
    }

    /** `stored` is whether serialising and appending succeeded; a failure is only logged. */
    method Write(a: Audit, stored: bool)
      modifies this
      ensures attempts == old(attempts) + 1
      ensures records == old(records) + if stored then [a] else []
    {
      attempts := attempts + 1;
      if stored {
        records := records + [a];
      }
    }
  }

  /** The ledger when the proxy has ended. */
  function Traffic(max: nat, steps: seq<L.Step>): L.Ledger {
    L.Exec(L.Init(max, L.BOTH), steps)
  }

  /** `steps` is whatever the two forwarding directions and the writer did while the proxy ran. An
      `observe` call has no suspension point, so none is in progress once the proxy future is done or
      dropped, and `finish` has not been called yet. */
  predicate ProxyStopped(max: nat, steps: seq<L.Step>) {
    L.Quiet(Traffic(max, steps)) && !Traffic(max, steps).finishing
  }

  /** `writer` is what happens while `finish` waits: the marker joins the queue whenever there is room, and
      the answer comes when the writer has handled it. */
  predicate FinishWaited(max: nat, steps: seq<L.Step>, writer: seq<L.Step>) {
    (forall step :: step in writer ==> L.WriterStep(step)) && Finished(max, steps, writer).closed
  }

  /** Every outcome makes exactly one attempt to write exactly one record. */
  method ServeConnection(log: AuditLog, wantsCapture: bool, dial: Dial, captureStarts: bool, max: nat,
                         steps: seq<L.Step>, end: ProxyEnd, writer: seq<L.Step>, stored: bool)
    returns (a: Audit)
    requires ProxyStopped(max, steps)
    requires wantsCapture && captureStarts ==> FinishWaited(max, steps, writer)
    modifies log
    ensures log.attempts == old(log.attempts) + 1
    ensures log.records == old(log.records) + if stored then [a] else []
    ensures !dial.Connected? ==>
              a.clientToTarget == a.targetToClient == a.captured == 0 && !a.hasPath && !a.truncated
    ensures dial.Connected? ==>
              && a.clientToTarget == Traffic(max, steps).toTarget
              && a.targetToClient == Traffic(max, steps).toClient
              && a.hasPath == (wantsCapture && captureStarts)
    ensures a.result == match dial
                        case DialFailed(error) => "target_connect_failed:" + error
                        case DialTimeout => "target_connect_timeout"
                        case Connected =>
                          match end
                          case Completed => "completed"
                          case DeadlinePassed => "connection_timeout"
                          case ProxyFailed(error) => ClassifyProxyError(error, a.clientToTarget, a.targetToClient)
    ensures a.captured <= max && 0 <= a.captured <= a.clientToTarget + a.targetToClient
    ensures !a.hasPath ==> a.captured == 0 && !a.truncated
    ensures a.hasPath && !a.truncated ==> a.captured == a.clientToTarget + a.targetToClient
    ensures a.hasPath ==>
              var s := Finished(max, steps, writer);
              s.closed && a.captured == s.captured && a.truncated == s.truncated
  {
    match dial {
      case DialFailed(error) =>
        a := Audit(0, 0, "target_connect_failed:" + error, false, 0, false);
        log.Write(a, stored);
        return;
      case DialTimeout =>
        a := Audit(0, 0, "target_connect_timeout", false, 0, false);
        log.Write(a, stored);
        return;
      case Connected =>
    }
    var s := Traffic(max, steps);
    var result := "completed";
    match end {
      case Completed =>
      case ProxyFailed(error) => result := ClassifyProxyError(error, s.toTarget, s.toClient);
      case DeadlinePassed => result := "connection_timeout";
    }
    NumbersWhenStopped(max, steps);
    if wantsCapture && captureStarts {
      FinishedNumbers(max, steps, writer);
      var done := Finished(max, steps, writer);
      a := Audit(s.toTarget, s.toClient, result, true, done.captured, done.truncated);
    } else {
      a := Audit(s.toTarget, s.toClient, result, false, 0, false);
    }
    log.Write(a, stored);
  }

  /** The ledger when `finish` has its answer. */
  function Finished(max: nat, steps: seq<L.Step>, writer: seq<L.Step>): L.Ledger {
    L.Exec(Traffic(max, steps), writer)
  }

  lemma NumbersWhenStopped(max: nat, steps: seq<L.Step>)
    requires ProxyStopped(max, steps)
    ensures var s := Traffic(max, steps);
            && 0 <= s.captured <= max && s.captured <= s.toTarget + s.toClient
            && (!s.truncated ==> s.captured == s.toTarget + s.toClient)
  {
    L.QuietLedger(max, L.BOTH, steps);
    L.BudgetIsConserved(max, L.BOTH, steps);
  }

  /** However the writer and the marker get there, the answer carries the numbers of the moment the proxy
      stopped. */
  lemma FinishedNumbers(max: nat, steps: seq<L.Step>, writer: seq<L.Step>)
    requires ProxyStopped(max, steps) && forall step :: step in writer ==> L.WriterStep(step)
    ensures var s, done := Traffic(max, steps), Finished(max, steps, writer);
            && done.captured == s.captured && done.truncated == s.truncated
            && done.toTarget == s.toTarget && done.toClient == s.toClient
            && done.clients == s.clients && done.queue == s.queue
  {
    L.RunsKeepInv(max, L.BOTH, steps);
    L.WriterKeepsNumbers(Traffic(max, steps), writer);
  }

  lemma {:induction false} ExecConcat(s: L.Ledger, a: seq<L.Step>, b: seq<L.Step>)
    ensures L.Exec(s, a + b) == L.Exec(L.Exec(s, a), b)
  {
    if b == [] {
      assert a + b == a;
    } else {
      ExecConcat(s, a, b[..|b| - 1]);
      assert (a + b)[..|a + b| - 1] == a + b[..|b| - 1];
    }
  }

  /** The audited figure is the UDP payload of the file on disk, and an untruncated file holds both
      byte streams. */
  lemma AuditMatchesFile(max: nat, link: Link, steps: seq<L.Step>, writer: seq<L.Step>, i: nat)
    requires ProxyStopped(max, steps) && FinishWaited(max, steps, writer) && i < 2
    ensures var done := Finished(max, steps, writer);
            var rs := CaptureRecords(link, L.Messages(L.Written(done)));
            && ParseFile(CaptureFile(link, L.Messages(L.Written(done)))) == Some(rs)
            && |FlatMap(PayloadIf(Everything()), rs)| == Traffic(max, steps).captured
            && |done.clients| == 2
            && (!done.truncated && link.client != link.target ==>
                  FlatMap(PayloadIf(Travelling(link, done.clients[i].direction)), rs)
                  == Flatten(done.clients[i].observed))
  {
    FinishedNumbers(max, steps, writer);
    ExecConcat(L.Init(max, L.BOTH), steps, writer);
    L.ClosedCaptureFile(max, link, steps + writer, i);
  }

  /** A reset without a closing handshake, anywhere in the error text, counts as completed as soon as anything
      has been transferred; every other error is passed on in the result. */
  lemma UngracefulClose(before: string, after: string, other: string, clientToTarget: nat, targetToClient: nat)
    requires !Text.Contains(other, "Connection reset without closing handshake")
    ensures var reset := before + "Connection reset without closing handshake" + after;
            ClassifyProxyError(reset, clientToTarget, targetToClient)
            == if clientToTarget + targetToClient > 0 then "completed_ungraceful_close" else "proxy_error:" + reset
    ensures ClassifyProxyError(other, clientToTarget, targetToClient) == "proxy_error:" + other
  {
    var reset := before + RESET + after;
    assert reset[|before|..|before| + |RESET|] == RESET;
    assert Text.OccursAt(reset, RESET, |before|);
  }
}
