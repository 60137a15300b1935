/** When concurrent `observe` calls may raise the truncation flag, and that every call can go on. */
module Contention {
  import opened Bytes
  import opened Pcap
  import opened Ledger

  /** All bytes counted so far, in both directions. */
  function Traffic(s: Ledger): nat {
    s.toTarget + s.toClient
  }

  // ---------- stale copies and cut reservations ----------

  /** A copy of the budget, stale or not, leaves room in the traffic for the caller's own message; a message
      is cut only when the traffic exceeds the budget. */
  predicate Honest(c: Client, max: nat, traffic: nat) {
    match c.phase
    case Loaded(data, already) => already + |data| <= traffic
    case Reserved(data, length) => length < |data| ==> traffic > max
    case Sending(data, length) => length < |data| ==> traffic > max
    case _ => true
  }

  predicate AllHonest(s: Ledger) {
    forall i :: 0 <= i < |s.clients| ==> Honest(s.clients[i], s.max, Traffic(s))
  }

  lemma {:induction false} PendingCoversOutstanding(clients: seq<Client>, i: nat)
    requires i < |clients|
    requires forall j :: 0 <= j < |clients| ==> Outstanding(clients[j]) <= PendingBytes(clients[j])
    ensures Sum(Outstanding, clients) <= Sum(PendingBytes, clients)
    ensures clients[i].phase.Loaded? ==>
              Sum(Outstanding, clients) + PendingBytes(clients[i]) <= Sum(PendingBytes, clients)
  {
    var last := |clients| - 1;
    if i < last {
      PendingCoversOutstanding(clients[..last], i);
    } else if last > 0 {
      PendingCoversOutstanding(clients[..last], 0);
    }
  }

  /** What is reserved and enqueued leaves room in the traffic for a message that has reserved nothing yet. */
  lemma CapturedBehindTraffic(s: Ledger, i: nat)
    requires Budget(s) && Counted(s) && i < |s.clients|
    ensures s.captured <= Traffic(s)
    ensures s.clients[i].phase.Loaded? ==> s.captured + |s.clients[i].phase.data| <= Traffic(s)
  {
    PendingCoversOutstanding(s.clients, i);
  }

  lemma OthersStay(s: Ledger, step: Step, j: nat)
    requires j < |s.clients| && (ClientStep(step) ==> step.i != j)
    ensures j < |Next(s, step).clients| && Next(s, step).clients[j] == s.clients[j]
    ensures Traffic(Next(s, step)) >= Traffic(s) && Next(s, step).max == s.max
  {
  }

  lemma BeginIsHonest(s: Ledger, i: nat, data: seq<byte>)
    requires Budget(s) && Counted(s) && AllHonest(s) && i < |s.clients|
    ensures var s' := Next(s, Begin(i, data)); Honest(s'.clients[i], s'.max, Traffic(s'))
  {
    CapturedBehindTraffic(s, i);
  }

  lemma MoverIsHonest(s: Ledger, step: Step)
    requires Budget(s) && Counted(s) && AllHonest(s)
    requires ClientStep(step) && step.i < |s.clients|
    ensures var s' := Next(s, step); |s'.clients| == |s.clients| && Honest(s'.clients[step.i], s'.max, Traffic(s'))
  {
    if step.Begin? {
      BeginIsHonest(s, step.i, step.data);
    } else {
      CapturedBehindTraffic(s, step.i);
      assert Honest(s.clients[step.i], s.max, Traffic(s));
    }
  }

  lemma StepKeepsHonest(s: Ledger, step: Step)
    requires Budget(s) && Counted(s) && AllHonest(s)
    ensures AllHonest(Next(s, step))
  {
    var s' := Next(s, step);
    assert |s'.clients| == |s.clients|;
    forall j | 0 <= j < |s.clients|
      ensures Honest(s'.clients[j], s'.max, Traffic(s'))
    {
      if ClientStep(step) && step.i == j {
        MoverIsHonest(s, step);
      } else {
        OthersStay(s, step, j);
        assert Honest(s.clients[j], s.max, Traffic(s));
      }
    }
  }

  lemma {:induction false} RunsKeepHonest(max: nat, directions: seq<Direction>, steps: seq<Step>)
    ensures AllHonest(Exec(Init(max, directions), steps))
  {
    if steps != [] {
      RunsKeepHonest(max, directions, steps[..|steps| - 1]);
      RunsKeepInv(max, directions, steps[..|steps| - 1]);
      StepKeepsHonest(Exec(Init(max, directions), steps[..|steps| - 1]), steps[|steps| - 1]);
    }
  }

  // ---------- which steps raise the flag ----------

  /** A call that finds the budget used up, a cut reservation, or a refused packet. */
  predicate Raises(s: Ledger, step: Step) {
    && ClientStep(step) && step.i < |s.clients|
    && match s.clients[step.i].phase
       case Loaded(_, already) => step.Attempt? && already >= s.max
       case Reserved(data, length) => step.Flag? && length < |data|
       case Flagging(_) => step.FlagRefused?
       case _ => false
  }

  lemma RaisedHereIff(s: Ledger, step: Step)
    ensures Next(s, step).truncated <==> s.truncated || Raises(s, step)
  {
  }

  /** The state the k-th step finds. */
  function Before(max: nat, directions: seq<Direction>, steps: seq<Step>, k: nat): Ledger
    requires k <= |steps|
  {
    Exec(Init(max, directions), steps[..k])
  }

  lemma BeforePrefix(max: nat, directions: seq<Direction>, steps: seq<Step>, n: nat, k: nat)
    requires k <= n <= |steps|
    ensures Before(max, directions, steps[..n], k) == Before(max, directions, steps, k)
  {
    assert steps[..n][..k] == steps[..k];
  }

  predicate RaisesAt(max: nat, directions: seq<Direction>, steps: seq<Step>, k: nat)
    requires k < |steps|
  {
    Raises(Before(max, directions, steps, k), steps[k])
  }

  lemma LastStep(max: nat, directions: seq<Direction>, steps: seq<Step>)
    requires steps != []
    ensures var last := |steps| - 1;
            Exec(Init(max, directions), steps) == Next(Before(max, directions, steps, last), steps[last])
  {
  }

  predicate RaisedIn(max: nat, directions: seq<Direction>, steps: seq<Step>) {
    exists k :: 0 <= k < |steps| && RaisesAt(max, directions, steps, k)
  }

  lemma RaisedInSnoc(max: nat, directions: seq<Direction>, steps: seq<Step>)
    requires steps != []
    ensures var last := |steps| - 1;
            RaisedIn(max, directions, steps)
            <==> RaisedIn(max, directions, steps[..last]) || RaisesAt(max, directions, steps, last)
  {
    var last := |steps| - 1;
    var init := steps[..last];
    forall k | 0 <= k < last
      ensures RaisesAt(max, directions, init, k) == RaisesAt(max, directions, steps, k)
    {
      BeforePrefix(max, directions, steps, last, k);
    }
    if RaisedIn(max, directions, init) {
      var k :| 0 <= k < |init| && RaisesAt(max, directions, init, k);
      assert RaisesAt(max, directions, steps, k);
    }
    if RaisedIn(max, directions, steps) {
      var k :| 0 <= k < |steps| && RaisesAt(max, directions, steps, k);
      assert k < last ==> RaisesAt(max, directions, init, k);
    }
  }

  /** Over every interleaving, the flag is up exactly when some call found the budget used up, some message
      was cut, or some packet was refused by the queue: contention alone never raises it. */
  lemma {:induction false} FlagUpIff(max: nat, directions: seq<Direction>, steps: seq<Step>)
    ensures Exec(Init(max, directions), steps).truncated <==> RaisedIn(max, directions, steps)
  {
    if steps != [] {
      var last := |steps| - 1;
      FlagUpIff(max, directions, steps[..last]);
      LastStep(max, directions, steps);
      RaisedHereIff(Before(max, directions, steps, last), steps[last]);
      RaisedInSnoc(max, directions, steps);
    }
  }

  /** And the traffic tells: a call that finds the budget used up has the traffic beyond it by its own message,
      and a cut means that the traffic exceeds it. */
  lemma RaisersExceedBudget(max: nat, directions: seq<Direction>, steps: seq<Step>, step: Step)
    requires Raises(Exec(Init(max, directions), steps), step)
    ensures var s := Exec(Init(max, directions), steps);
            && (step.Attempt? ==> Traffic(s) >= max + |s.clients[step.i].phase.data|)
            && (step.Flag? ==> Traffic(s) > max)
  {
    RunsKeepHonest(max, directions, steps);
    MaxFixed(Init(max, directions), steps);
    var s := Exec(Init(max, directions), steps);
    assert Honest(s.clients[step.i], s.max, Traffic(s));
  }

  // ---------- a capture that fits ----------

  predicate MeetsFullQueue(s: Ledger, step: Step) {
    && step.TrySend? && step.i < |s.clients| && s.clients[step.i].phase.Sending?
    && (s.closed || |s.queue| - s.taken >= 1024)
  }

  predicate NeverFull(max: nat, directions: seq<Direction>, steps: seq<Step>) {
    forall k :: 0 <= k < |steps| ==> !FullAt(max, directions, steps, k)
  }

  predicate FullAt(max: nat, directions: seq<Direction>, steps: seq<Step>, k: nat)
    requires k < |steps|
  {
    MeetsFullQueue(Before(max, directions, steps, k), steps[k])
  }

  lemma NeverFullSnoc(max: nat, directions: seq<Direction>, steps: seq<Step>)
    requires steps != []
    ensures var last := |steps| - 1;
            NeverFull(max, directions, steps) <==>
              NeverFull(max, directions, steps[..last])
              && !MeetsFullQueue(Before(max, directions, steps, last), steps[last])
  {
    var last := |steps| - 1;
    forall k | 0 <= k < last
      ensures FullAt(max, directions, steps[..last], k) == FullAt(max, directions, steps, k)
    {
      BeforePrefix(max, directions, steps, last, k);
    }
    assert FullAt(max, directions, steps, last) == MeetsFullQueue(Before(max, directions, steps, last), steps[last]);
  }

  predicate NoneRefused(s: Ledger) {
    forall i :: 0 <= i < |s.clients| ==> !s.clients[i].phase.Refused? && !s.clients[i].phase.Flagging?
  }

  /** The traffic is below the budget, or uses it up exactly and without empty messages. */
  predicate FitsBudget(s: Ledger) {
    || Traffic(s) < s.max
    || (Traffic(s) == s.max && NoEmptyMessage(s))
  }

  predicate NoEmptyMessage(s: Ledger) {
    forall i :: 0 <= i < |s.clients| ==> [] !in s.clients[i].observed
  }

  lemma TrafficGrows(s: Ledger, step: Step)
    ensures Traffic(s) <= Traffic(Next(s, step)) && Next(s, step).max == s.max
    ensures |Next(s, step).clients| == |s.clients|
  {
  }

  lemma ObservedGrows(s: Ledger, step: Step, i: nat)
    requires i < |s.clients|
    ensures i < |Next(s, step).clients| && s.clients[i].observed <= Next(s, step).clients[i].observed
  {
  }

  lemma FittedBefore(s: Ledger, step: Step)
    requires FitsBudget(Next(s, step))
    ensures FitsBudget(s)
  {
    TrafficGrows(s, step);
    forall i | 0 <= i < |s.clients|
      ensures s.clients[i].observed <= Next(s, step).clients[i].observed
    {
      ObservedGrows(s, step, i);
    }
  }

  lemma NoRaiseWhenFitting(s: Ledger, step: Step)
    requires Traced(s) && AllHonest(s) && NoneRefused(s) && FitsBudget(s)
    ensures !Raises(s, step)
  {
    if ClientStep(step) && step.i < |s.clients| {
      assert Honest(s.clients[step.i], s.max, Traffic(s));
    }
  }

  lemma NoneRefusedNext(s: Ledger, step: Step)
    requires NoneRefused(s) && !MeetsFullQueue(s, step)
    ensures NoneRefused(Next(s, step))
  {
  }

  lemma {:induction false} FittingRuns(max: nat, directions: seq<Direction>, steps: seq<Step>)
    requires NeverFull(max, directions, steps) && FitsBudget(Exec(Init(max, directions), steps))
    ensures !Exec(Init(max, directions), steps).truncated && NoneRefused(Exec(Init(max, directions), steps))
  {
    if steps != [] {
      var last := |steps| - 1;
      var init := steps[..last];
      var s := Exec(Init(max, directions), init);
      FittedBefore(s, steps[last]);
      NeverFullSnoc(max, directions, steps);
      FittingRuns(max, directions, init);
      RunsKeepInv(max, directions, init);
      RunsKeepHonest(max, directions, init);
      NoRaiseWhenFitting(s, steps[last]);
      RaisedHereIff(s, steps[last]);
      NoneRefusedNext(s, steps[last]);
    }
  }

  /** Over every interleaving in which no packet met a full queue: a capture that fits in the budget is never
      flagged, and once no call is in progress it has every message of every client whole and in order. */
  lemma CompleteWhenItFits(max: nat, directions: seq<Direction>, steps: seq<Step>)
    requires NeverFull(max, directions, steps) && FitsBudget(Exec(Init(max, directions), steps))
    ensures var s := Exec(Init(max, directions), steps);
            && !s.truncated
            && (Quiet(s) ==>
                  && s.captured == Traffic(s)
                  && forall i :: 0 <= i < |s.clients| ==> FlatMap(From(i), s.queue) == s.clients[i].observed)
  {
    FittingRuns(max, directions, steps);
    if Quiet(Exec(Init(max, directions), steps)) {
      QuietLedger(max, directions, steps);
    }
  }

  /** With messages that all carry bytes and a queue that never was full, a finished capture is flagged exactly
      when the traffic exceeds the budget. */
  lemma FlagMeansOverflow(max: nat, directions: seq<Direction>, steps: seq<Step>)
    requires NeverFull(max, directions, steps)
    requires Quiet(Exec(Init(max, directions), steps)) && NoEmptyMessage(Exec(Init(max, directions), steps))
    ensures var s := Exec(Init(max, directions), steps); s.truncated <==> Traffic(s) > max
  {
    var s := Exec(Init(max, directions), steps);
    MaxFixed(Init(max, directions), steps);
    QuietLedger(max, directions, steps);
    BudgetIsConserved(max, directions, steps);
    if Traffic(s) <= max {
      FittingRuns(max, directions, steps);
    }
  }

  /** The queue cannot be full before 1024 packets have gone in. */
  lemma {:induction false} FewPacketsNeverFull(max: nat, directions: seq<Direction>, steps: seq<Step>)
    requires |Exec(Init(max, directions), steps).queue| < 1024
    ensures NeverFull(max, directions, steps)
  {
    if steps != [] {
      var last := |steps| - 1;
      var init := steps[..last];
      var s := Exec(Init(max, directions), init);
      QueueGrows(s, steps[last]);
      FewPacketsNeverFull(max, directions, init);
      RunsKeepInv(max, directions, init);
      SendersKeepItOpen(s, steps[last]);
      NeverFullSnoc(max, directions, steps);
    }
  }

  lemma QueueGrows(s: Ledger, step: Step)
    ensures |s.queue| <= |Next(s, step).queue|
  {
  }

  lemma SendersKeepItOpen(s: Ledger, step: Step)
    requires Queued(s) && |s.queue| < 1024
    ensures !MeetsFullQueue(s, step)
  {
    if step.TrySend? && step.i < |s.clients| && s.clients[step.i].phase.Sending? {
      assert s.clients[step.i] in s.clients;
    }
  }

  // ---------- every call can go on ----------

  /** An exchange that fails because the budget has changed takes the new figure and reserves at the next
      undisturbed try; nothing is lost and no flag goes up in between. */
  lemma RetryReserves(s: Ledger, i: nat)
    requires i < |s.clients| && s.clients[i].phase.Loaded?
    requires s.clients[i].phase.already < s.max && s.clients[i].phase.already != s.captured
    ensures var data := s.clients[i].phase.data;
            var retried := Next(Next(s, Attempt(i, false)), Attempt(i, false));
            && (s.captured < s.max ==>
                  var length := if |data| <= s.max - s.captured then |data| else s.max - s.captured;
                  && retried.clients[i].phase == Reserved(data, length)
                  && retried.captured == s.captured + length && retried.truncated == s.truncated)
            && (s.captured >= s.max ==> retried.clients[i].phase == Idle && retried.truncated)
            && retried.clients[i].observed == s.clients[i].observed
  {
    var reloaded := Next(s, Attempt(i, false));
    assert reloaded.clients[i].phase == Loaded(s.clients[i].phase.data, s.captured);
  }

  /** What a call does next. */
  function Move(c: Client, i: nat): Step {
    match c.phase
    case Idle => Take
    case Loaded(_, _) => Attempt(i, false)
    case Reserved(_, _) => Flag(i)
    case Sending(_, _) => TrySend(i, Timestamp(0, 0))
    case Refused(_, _) => Rollback(i)
    case Flagging(_) => FlagRefused(i)
  }

  lemma BusyCanMove(s: Ledger, i: nat)
    requires Budget(s) && i < |s.clients| && !s.clients[i].phase.Idle?
    ensures Next(s, Move(s.clients[i], i)) != s
  {
    var s' := Next(s, Move(s.clients[i], i));
    assert s'.clients[i].phase != s.clients[i].phase;
  }

  predicate Waiting(s: Ledger) {
    forall i :: 0 <= i < |s.clients| && !s.clients[i].phase.Idle? ==> Next(s, Move(s.clients[i], i)) == s
  }

  /** So calls never wait for each other: where none can move, none is in progress. */
  lemma NobodyWaits(s: Ledger)
    requires Budget(s) && Waiting(s)
    ensures Quiet(s)
  {
    forall i | 0 <= i < |s.clients|
      ensures s.clients[i].phase.Idle?
    {
      if !s.clients[i].phase.Idle? {
        BusyCanMove(s, i);
      }
    }
  }
}
