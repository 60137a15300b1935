/** The capture budget shared by any number of concurrent `observe` calls, as a system of atomic steps.

    Each call loads the budget, reserves bytes by compare-and-swap, flags truncation, and tries to put
    the packet on a bounded queue; a refused packet gives its reservation back. One writer takes packets
    off the queue. A run is an arbitrary list of steps; a step that is not enabled does nothing. */
module Ledger {
  import opened Bytes
  import opened Pcap

  const CAPACITY := 1024

  /** Where one `observe` call stands. */
  datatype Phase =
    | Idle
    | Loaded(data: seq<byte>, already: int)    // holds a possibly stale copy of the budget
    | Reserved(data: seq<byte>, length: nat)   // compare-and-swap done, truncation flag still to be set
    | Sending(data: seq<byte>, length: nat)    // about to try the queue
    | Refused(data: seq<byte>, length: nat)    // queue refused, reservation still held
    | Flagging(data: seq<byte>)                // reservation returned, truncation flag still to be set

  /** One observing task: it makes its calls one after the other, for one direction. `observed` lists
      the messages of all its calls so far, including the one in progress. */
  datatype Client = Client(direction: Direction, observed: seq<seq<byte>>, phase: Phase)

  datatype Item = Item(client: nat, message: Message)

  datatype Ledger = Ledger(
    max: nat,
    captured: int,
    truncated: bool,
    toTarget: nat,
    toClient: nat,
    clients: seq<Client>,
    queue: seq<Item>,     // everything ever enqueued
    taken: nat,           // how many of those the writer has taken
    finishing: bool,      // the finish marker is on the queue
    closed: bool)         // the writer has handled it

  datatype Step =
    | Begin(i: nat, data: seq<byte>)
    | Attempt(i: nat, spurious: bool)
    | Flag(i: nat)
    | TrySend(i: nat, at: Timestamp)
    | Rollback(i: nat)
    | FlagRefused(i: nat)
    | Take
    | Finish
    | Close

  /** One forwarding loop per direction. */
  const BOTH: seq<Direction> := [ClientToTarget, TargetToClient]

  function Init(max: nat, directions: seq<Direction>): Ledger {
    Ledger(max, 0, false, 0, 0, Map(d => Client(d, [], Idle), directions), [], 0, false, false)
  }

  predicate Quiet(s: Ledger) {
    forall c :: c in s.clients ==> c.phase.Idle?
  }

  function Min(a: int, b: int): int {
    if a <= b then a else b
  }

  function SetPhase(s: Ledger, i: nat, phase: Phase): Ledger
    requires i < |s.clients|
  {
    s.(clients := s.clients[i := s.clients[i].(phase := phase)])
  }

  function Next(s: Ledger, step: Step): Ledger {
    match step
    case Begin(i, data) =>
      if i >= |s.clients| || !s.clients[i].phase.Idle? || s.finishing then s
      else
        var c := s.clients[i];
        var counted := if c.direction.ClientToTarget? then s.(toTarget := s.toTarget + |data|)
                       else s.(toClient := s.toClient + |data|);
        counted.(clients := s.clients[i := c.(observed := c.observed + [data], phase := Loaded(data, s.captured))])
    case Attempt(i, spurious) =>
      if i >= |s.clients| || !s.clients[i].phase.Loaded? then s
      else
        var Loaded(data, already) := s.clients[i].phase;
        if already >= s.max then SetPhase(s.(truncated := true), i, Idle)
        else if s.captured != already || spurious then SetPhase(s, i, Loaded(data, s.captured))
        else
          var length := Min(s.max - already, |data|);
          SetPhase(s.(captured := already + length), i, Reserved(data, length))
    case Flag(i) =>
      if i >= |s.clients| || !s.clients[i].phase.Reserved? then s
      else
        var Reserved(data, length) := s.clients[i].phase;
        SetPhase(s.(truncated := s.truncated || length < |data|), i, Sending(data, length))
    case TrySend(i, at) =>
      if i >= |s.clients| || !s.clients[i].phase.Sending? then s
      else
        var Sending(data, length) := s.clients[i].phase;
        if length > |data| then s
        else if s.closed || |s.queue| - s.taken >= CAPACITY then SetPhase(s, i, Refused(data, length))
        else SetPhase(
            s.(queue := s.queue + [Item(i, Message(s.clients[i].direction, data[..length], at))]), i, Idle)
    case Rollback(i) =>
      if i >= |s.clients| || !s.clients[i].phase.Refused? then s
      else SetPhase(s.(captured := s.captured - s.clients[i].phase.length), i, Flagging(s.clients[i].phase.data))
    case FlagRefused(i) =>
      if i >= |s.clients| || !s.clients[i].phase.Flagging? then s
      else SetPhase(s.(truncated := true), i, Idle)
    case Take =>
      if s.taken < |s.queue| then s.(taken := s.taken + 1) else s
    case Finish =>
      if Quiet(s) && |s.queue| - s.taken < CAPACITY then s.(finishing := true) else s
    case Close =>
      if s.finishing && s.taken == |s.queue| then s.(closed := true) else s
  }

  function Exec(s: Ledger, steps: seq<Step>): Ledger {
    if steps == [] then s else Next(Exec(s, steps[..|steps| - 1]), steps[|steps| - 1])
  }

  // ---------- what is conserved ----------

  /** Bytes reserved in the budget but not (yet) on the queue. */
  function Outstanding(c: Client): nat {
    if c.phase.Reserved? || c.phase.Sending? || c.phase.Refused? then c.phase.length else 0
  }

  /** The message of the call in progress, if any. */
  function InProgress(c: Client): seq<seq<byte>> {
    if c.phase.Idle? then [] else [c.phase.data]
  }

  function PendingBytes(c: Client): nat {
    if c.phase.Idle? then 0 else |c.phase.data|
  }

  function Length(data: seq<byte>): nat {
    |data|
  }

  function SeenBytes(d: Direction): Client -> nat {
    (c: Client) => if c.direction == d then Sum(Length, c.observed) else 0
  }

  function ItemBytes(item: Item): nat {
    |item.message.data|
  }

  function From(i: nat): Item -> seq<seq<byte>> {
    (item: Item) => if item.client == i then [item.message.data] else []
  }

  function Messages(queue: seq<Item>): seq<Message> {
    Map((item: Item) => item.message, queue)
  }

  predicate CutFromOne(data: seq<byte>, messages: seq<seq<byte>>) {
    exists j :: 0 <= j < |messages| && data <= messages[j]
  }

  /** The budget is exactly what is on the queue plus what is reserved, and never above its limit. */
  predicate Budget(s: Ledger) {
    && s.captured == Sum(ItemBytes, s.queue) + Sum(Outstanding, s.clients)
    && s.captured <= s.max
    && (forall i :: 0 <= i < |s.clients| ==> Outstanding(s.clients[i]) <= PendingBytes(s.clients[i]))
    && (forall i :: 0 <= i < |s.clients| && s.clients[i].phase.Sending? && !s.truncated
          ==> s.clients[i].phase.length == |s.clients[i].phase.data|)
  }

  /** The two counters hold everything observed; the queue holds no more, and no less while untruncated. */
  predicate Counted(s: Ledger) {
    && s.toTarget == Sum(SeenBytes(ClientToTarget), s.clients)
    && s.toClient == Sum(SeenBytes(TargetToClient), s.clients)
    && Sum(ItemBytes, s.queue) + Sum(PendingBytes, s.clients) <= s.toTarget + s.toClient
    && (!s.truncated ==>
          Sum(ItemBytes, s.queue) + Sum(PendingBytes, s.clients) == s.toTarget + s.toClient)
  }

  /** A packet is cut from a message of its own client. */
  predicate GoodItem(clients: seq<Client>, item: Item) {
    && item.client < |clients|
    && item.message.direction == clients[item.client].direction
    && CutFromOne(item.message.data, clients[item.client].observed)
  }

  /** Every packet is cut from a message of its own client; while untruncated, each client's packets are
      its completed messages, whole and in order. */
  predicate Traced(s: Ledger) {
    && (forall k :: 0 <= k < |s.queue| ==> GoodItem(s.clients, s.queue[k]))
    && (forall i :: 0 <= i < |s.clients| && !s.clients[i].phase.Idle? ==>
          s.clients[i].phase.data in s.clients[i].observed)
    && (!s.truncated ==> forall i :: 0 <= i < |s.clients| ==>
          FlatMap(From(i), s.queue) + InProgress(s.clients[i]) == s.clients[i].observed)
  }

  predicate Queued(s: Ledger) {
    && s.taken <= |s.queue|
    && |s.queue| - s.taken <= CAPACITY
    && (s.finishing ==> Quiet(s))
    && (s.closed ==> s.finishing && s.taken == |s.queue|)
  }

  ghost predicate Inv(s: Ledger) {
    Budget(s) && Counted(s) && Traced(s) && Queued(s)
  }

  // ---------- every step keeps it ----------

  /** A step of one client: everything it changes, and how its own changes balance. `add` is what it
      put on the queue. */
  predicate Local(s: Ledger, s': Ledger, i: nat, add: seq<Item>) {
    && i < |s.clients| && |s'.clients| == |s.clients|
    && s'.clients == s.clients[i := s'.clients[i]]
    && s'.queue == s.queue + add
    && s'.max == s.max
    && (s.truncated ==> s'.truncated)
    && LocalClient(s.clients[i], s'.clients[i], s'.truncated)
    && s'.captured - s.captured
       == Sum(ItemBytes, add) + Outstanding(s'.clients[i]) - Outstanding(s.clients[i])
    && s'.captured <= s.max
    && s'.toTarget - s.toTarget
       == SeenBytes(ClientToTarget)(s'.clients[i]) - SeenBytes(ClientToTarget)(s.clients[i])
    && s'.toClient - s.toClient
       == SeenBytes(TargetToClient)(s'.clients[i]) - SeenBytes(TargetToClient)(s.clients[i])
    && LocalCount(s, s', i, add)
    && LocalTrace(s, s', i, add)
  }

  predicate LocalClient(c: Client, c': Client, truncated: bool) {
    && c'.direction == c.direction
    && Outstanding(c') <= PendingBytes(c')
    && (c'.phase.Sending? && !truncated ==> c'.phase.length == |c'.phase.data|)
    && (!c'.phase.Idle? ==> c'.phase.data in c'.observed)
  }

  predicate LocalCount(s: Ledger, s': Ledger, i: nat, add: seq<Item>)
    requires i < |s.clients| && i < |s'.clients|
  {
    var grown := s'.toTarget + s'.toClient - s.toTarget - s.toClient;
    var held := Sum(ItemBytes, add) + PendingBytes(s'.clients[i]) - PendingBytes(s.clients[i]);
    held <= grown && (!s'.truncated ==> held == grown)
  }

  predicate LocalTrace(s: Ledger, s': Ledger, i: nat, add: seq<Item>)
    requires i < |s.clients| && i < |s'.clients|
  {
    var c, c' := s.clients[i], s'.clients[i];
    && c.observed <= c'.observed
    && (forall item :: item in add ==>
          && item.client == i && item.message.direction == c.direction
          && CutFromOne(item.message.data, c.observed))
    && (!s'.truncated ==>
          || (c'.observed == c.observed && InProgress(c) == FlatMap(From(i), add) + InProgress(c'))
          || (c.phase.Idle? && add == [] && c'.observed == c.observed + InProgress(c')))
  }

  lemma SumsAfterUpdate(clients: seq<Client>, i: nat, c: Client)
    requires i < |clients|
    ensures var after := clients[i := c];
            && Sum(Outstanding, after) + Outstanding(clients[i]) == Sum(Outstanding, clients) + Outstanding(c)
            && Sum(PendingBytes, after) + PendingBytes(clients[i]) == Sum(PendingBytes, clients) + PendingBytes(c)
            && forall d :: Sum(SeenBytes(d), after) + SeenBytes(d)(clients[i])
                        == Sum(SeenBytes(d), clients) + SeenBytes(d)(c)
  {
    SumUpdate(Outstanding, clients, i, c);
    SumUpdate(PendingBytes, clients, i, c);
    forall d {
      SumUpdate(SeenBytes(d), clients, i, c);
    }
  }

  lemma LocalKeepsSums(s: Ledger, s': Ledger, i: nat, add: seq<Item>)
    requires Local(s, s', i, add)
    requires Budget(s) && Counted(s)
    ensures Budget(s') && Counted(s')
  {
    SumAppend(ItemBytes, s.queue, add);
    SumsAfterUpdate(s.clients, i, s'.clients[i]);
  }

  lemma CutFromLonger(data: seq<byte>, before: seq<seq<byte>>, after: seq<seq<byte>>)
    requires CutFromOne(data, before) && before <= after
    ensures CutFromOne(data, after)
  {
    var j :| 0 <= j < |before| && data <= before[j];
    assert after[j] == before[j];
  }

  lemma GoodItemStays(s: Ledger, s': Ledger, i: nat, add: seq<Item>, item: Item)
    requires Local(s, s', i, add) && GoodItem(s.clients, item)
    ensures GoodItem(s'.clients, item)
  {
    CutFromLonger(item.message.data, s.clients[item.client].observed, s'.clients[item.client].observed);
  }

  lemma AddedItemIsGood(s: Ledger, s': Ledger, i: nat, add: seq<Item>, item: Item)
    requires Local(s, s', i, add) && item in add
    ensures GoodItem(s.clients, item)
  {
  }

  lemma LocalKeepsItem(s: Ledger, s': Ledger, i: nat, add: seq<Item>, item: Item)
    requires Local(s, s', i, add) && (item in s.queue ==> GoodItem(s.clients, item))
    requires item in s.queue + add
    ensures GoodItem(s'.clients, item)
  {
    if item !in s.queue {
      AddedItemIsGood(s, s', i, add, item);
    }
    GoodItemStays(s, s', i, add, item);
  }

  lemma LocalKeepsHistory(s: Ledger, s': Ledger, i: nat, add: seq<Item>, n: nat)
    requires Local(s, s', i, add) && n < |s.clients|
    requires FlatMap(From(n), s.queue) + InProgress(s.clients[n]) == s.clients[n].observed
    requires !s'.truncated
    ensures FlatMap(From(n), s'.queue) + InProgress(s'.clients[n]) == s'.clients[n].observed
  {
    FlatMapAppend(From(n), s.queue, add);
    if n != i {
      NothingFromOthers(n, add);
    } else if s'.clients[i].observed == s.clients[i].observed {
      Assoc(FlatMap(From(i), s.queue), FlatMap(From(i), add), InProgress(s'.clients[i]));
    }
  }

  lemma LocalKeepsTrace(s: Ledger, s': Ledger, i: nat, add: seq<Item>)
    requires Local(s, s', i, add)
    requires Traced(s)
    ensures Traced(s')
  {
    forall k | 0 <= k < |s'.queue|
      ensures GoodItem(s'.clients, s'.queue[k])
    {
      var item := s'.queue[k];
      assert item in s.queue + add;
      LocalKeepsItem(s, s', i, add, item);
    }
    if !s'.truncated {
      forall n | 0 <= n < |s'.clients|
        ensures FlatMap(From(n), s'.queue) + InProgress(s'.clients[n]) == s'.clients[n].observed
      {
        LocalKeepsHistory(s, s', i, add, n);
      }
    }
  }

  lemma {:induction false} NothingFromOthers(n: nat, add: seq<Item>)
    requires forall item :: item in add ==> item.client != n
    ensures FlatMap(From(n), add) == []
  {
    if add != [] {
      NothingFromOthers(n, add[..|add| - 1]);
    }
  }

  /** What a single client's step may rely on. */
  predicate Ready(s: Ledger, i: nat) {
    && i < |s.clients|
    && s.captured <= s.max
    && LocalClient(s.clients[i], s.clients[i], s.truncated)
  }

  lemma SeenMore(c: Client, data: seq<byte>, phase: Phase, d: Direction)
    ensures SeenBytes(d)(Client(c.direction, c.observed + [data], phase))
         == SeenBytes(d)(c) + if c.direction == d then |data| else 0
  {
    assert (c.observed + [data])[..|c.observed|] == c.observed;
  }

  lemma BeginIsLocal(s: Ledger, i: nat, data: seq<byte>)
    requires Ready(s, i) && Next(s, Begin(i, data)) != s
    ensures Local(s, Next(s, Begin(i, data)), i, [])
  {
    var c, s' := s.clients[i], Next(s, Begin(i, data));
    SeenMore(c, data, Loaded(data, s.captured), ClientToTarget);
    SeenMore(c, data, Loaded(data, s.captured), TargetToClient);
    assert s'.clients[i] == Client(c.direction, c.observed + [data], Loaded(data, s.captured));
    assert s'.queue == s.queue + [];
  }

  lemma RejectIsLocal(s: Ledger, i: nat)
    requires Ready(s, i) && s.clients[i].phase.Loaded?
    ensures Local(s, SetPhase(s.(truncated := true), i, Idle), i, [])
  {
  }

  lemma ReloadIsLocal(s: Ledger, i: nat)
    requires Ready(s, i) && s.clients[i].phase.Loaded?
    ensures Local(s, SetPhase(s, i, Loaded(s.clients[i].phase.data, s.captured)), i, [])
  {
  }

  lemma ReserveIsLocal(s: Ledger, i: nat, length: nat)
    requires Ready(s, i) && s.clients[i].phase.Loaded?
    requires s.captured + length <= s.max && length <= |s.clients[i].phase.data|
    ensures Local(s, SetPhase(s.(captured := s.captured + length), i, Reserved(s.clients[i].phase.data, length)), i, [])
  {
  }

  lemma AttemptIsLocal(s: Ledger, i: nat, spurious: bool)
    requires Ready(s, i) && s.clients[i].phase.Loaded?
    ensures Local(s, Next(s, Attempt(i, spurious)), i, [])
  {
    var Loaded(data, already) := s.clients[i].phase;
    if already >= s.max {
      RejectIsLocal(s, i);
    } else if s.captured != already || spurious {
      ReloadIsLocal(s, i);
    } else {
      ReserveIsLocal(s, i, Min(s.max - already, |data|));
    }
  }

  lemma FlagIsLocal(s: Ledger, i: nat)
    requires Ready(s, i) && s.clients[i].phase.Reserved?
    ensures Local(s, Next(s, Flag(i)), i, [])
  {
  }

  lemma RollbackIsLocal(s: Ledger, i: nat)
    requires Ready(s, i) && s.clients[i].phase.Refused?
    ensures Local(s, Next(s, Rollback(i)), i, [])
  {
  }

  lemma FlagRefusedIsLocal(s: Ledger, i: nat)
    requires Ready(s, i) && s.clients[i].phase.Flagging?
    ensures Local(s, Next(s, FlagRefused(i)), i, [])
  {
  }

  lemma RefusalIsLocal(s: Ledger, i: nat)
    requires Ready(s, i) && s.clients[i].phase.Sending?
    ensures Local(s, SetPhase(s, i, Refused(s.clients[i].phase.data, s.clients[i].phase.length)), i, [])
  {
  }

  /** The queue grows only here. */
  lemma SendIsLocal(s: Ledger, i: nat, item: Item)
    requires Ready(s, i) && s.clients[i].phase.Sending?
    requires item.client == i && item.message.direction == s.clients[i].direction
    requires item.message.data == s.clients[i].phase.data[..s.clients[i].phase.length]
    ensures Local(s, SetPhase(s.(queue := s.queue + [item]), i, Idle), i, [item])
  {
    var c := s.clients[i];
    assert [item][..0] == [];
    FlatMapOne(From(i), item);
    CutFromObserved(item.message.data, c.phase.data, c.observed);
    assert !s.truncated ==> item.message.data == c.phase.data;
  }

  lemma CutFromObserved(data: seq<byte>, message: seq<byte>, observed: seq<seq<byte>>)
    requires data <= message && message in observed
    ensures CutFromOne(data, observed)
  {
  }

  predicate ClientStep(step: Step) {
    !step.Take? && !step.Finish? && !step.Close?
  }

  lemma StepIsLocal(s: Ledger, step: Step) returns (add: seq<Item>)
    requires ClientStep(step) && Ready(s, step.i) && Next(s, step) != s
    ensures Local(s, Next(s, step), step.i, add)
  {
    add := [];
    match step
    case Begin(i, data) => BeginIsLocal(s, i, data);
    case Attempt(i, spurious) => AttemptIsLocal(s, i, spurious);
    case Flag(i) => FlagIsLocal(s, i);
    case Rollback(i) => RollbackIsLocal(s, i);
    case FlagRefused(i) => FlagRefusedIsLocal(s, i);
    case TrySend(i, at) =>
      if s.closed || |s.queue| - s.taken >= CAPACITY {
        RefusalIsLocal(s, i);
      } else {
        var item := Item(i, Message(s.clients[i].direction, s.clients[i].phase.data[..s.clients[i].phase.length], at));
        add := [item];
        SendIsLocal(s, i, item);
      }
  }

  lemma StepKeepsQueued(s: Ledger, step: Step)
    requires Queued(s)
    ensures Queued(Next(s, step))
  {
  }

  lemma WriterStepKeepsRest(s: Ledger, step: Step)
    requires Budget(s) && Counted(s) && Traced(s) && !ClientStep(step)
    ensures var s' := Next(s, step); Budget(s') && Counted(s') && Traced(s')
  {
  }

  lemma ClientIsReady(s: Ledger, i: nat)
    requires Budget(s) && Traced(s) && i < |s.clients|
    ensures Ready(s, i)
  {
  }

  lemma OutOfRange(s: Ledger, step: Step)
    requires ClientStep(step) && step.i >= |s.clients|
    ensures Next(s, step) == s
  {
  }

  lemma StepKeepsInv(s: Ledger, step: Step)
    requires Inv(s)
    ensures Inv(Next(s, step))
  {
    StepKeepsQueued(s, step);
    if !ClientStep(step) {
      WriterStepKeepsRest(s, step);
    } else if step.i >= |s.clients| {
      OutOfRange(s, step);
    } else if Next(s, step) != s {
      ClientIsReady(s, step.i);
      var add := StepIsLocal(s, step);
      LocalKeepsSums(s, Next(s, step), step.i, add);
      LocalKeepsTrace(s, Next(s, step), step.i, add);
    }
  }

  // ---------- over whole runs ----------

  lemma InitHasInv(max: nat, directions: seq<Direction>)
    ensures Inv(Init(max, directions))
  {
    var s := Init(max, directions);
    SumZero(Outstanding, s.clients);
    SumZero(PendingBytes, s.clients);
    SumZero(SeenBytes(ClientToTarget), s.clients);
    SumZero(SeenBytes(TargetToClient), s.clients);
  }

  /** Any number of clients, any interleaving. */
  lemma {:induction false} RunsKeepInv(max: nat, directions: seq<Direction>, steps: seq<Step>)
    ensures Inv(Exec(Init(max, directions), steps))
  {
    if steps == [] {
      InitHasInv(max, directions);
    } else {
      var before := Exec(Init(max, directions), steps[..|steps| - 1]);
      RunsKeepInv(max, directions, steps[..|steps| - 1]);
      StepKeepsInv(before, steps[|steps| - 1]);
    }
  }

  lemma {:induction false} MaxFixed(s: Ledger, steps: seq<Step>)
    ensures Exec(s, steps).max == s.max
  {
    if steps != [] {
      MaxFixed(s, steps[..|steps| - 1]);
    }
  }

  /** At every moment the budget is the enqueued bytes plus the reservations, within its limit, and a
      rollback has enough to give back. */
  lemma BudgetIsConserved(max: nat, directions: seq<Direction>, steps: seq<Step>)
    ensures var s := Exec(Init(max, directions), steps);
            && s.captured == Sum(ItemBytes, s.queue) + Sum(Outstanding, s.clients)
            && 0 <= s.captured <= max
            && forall i :: 0 <= i < |s.clients| && s.clients[i].phase.Refused? ==>
                 s.clients[i].phase.length <= s.captured
  {
    RunsKeepInv(max, directions, steps);
    MaxFixed(Init(max, directions), steps);
    var s := Exec(Init(max, directions), steps);
    forall i | 0 <= i < |s.clients| && s.clients[i].phase.Refused?
      ensures s.clients[i].phase.length <= s.captured
    {
      SumAtLeast(Outstanding, s.clients, i);
    }
  }

  /** With no call in progress, an untruncated ledger has enqueued every message of every client whole
      and in order, and the budget equals the two traffic counters; a truncated one holds no more. */
  lemma QuietLedger(max: nat, directions: seq<Direction>, steps: seq<Step>)
    requires Quiet(Exec(Init(max, directions), steps))
    ensures var s := Exec(Init(max, directions), steps);
            && s.captured == Sum(ItemBytes, s.queue)
            && s.captured <= s.toTarget + s.toClient
            && (!s.truncated ==>
                  && s.captured == s.toTarget + s.toClient
                  && forall i :: 0 <= i < |s.clients| ==> FlatMap(From(i), s.queue) == s.clients[i].observed)
  {
    RunsKeepInv(max, directions, steps);
    var s := Exec(Init(max, directions), steps);
    SumZero(Outstanding, s.clients);
    SumZero(PendingBytes, s.clients);
    forall i | 0 <= i < |s.clients| && !s.truncated
      ensures FlatMap(From(i), s.queue) == s.clients[i].observed
    {
      assert InProgress(s.clients[i]) == [];
    }
  }

  // ---------- finishing ----------

  lemma ExecSnoc(s: Ledger, steps: seq<Step>, step: Step)
    ensures Exec(s, steps + [step]) == Next(Exec(s, steps), step)
  {
  }

  predicate WriterStep(step: Step) {
    step.Take? || step.Finish? || step.Close?
  }

  /** None of the steps is idle. */
  predicate AllMove(s: Ledger, steps: seq<Step>) {
    forall k :: 0 <= k < |steps| ==> Next(Exec(s, steps[..k]), steps[k]) != Exec(s, steps[..k])
  }

  /** What `finish` still has to wait for. */
  function Remaining(s: Ledger): int {
    |s.queue| - s.taken + (if s.finishing then 0 else 1) + (if s.closed then 0 else 1)
  }

  lemma WriterStepMoves(s: Ledger, step: Step)
    requires Queued(s) && Quiet(s) && WriterStep(step)
    ensures var e := Next(s, step);
            && e == s.(taken := e.taken, finishing := e.finishing, closed := e.closed)
            && Queued(e) && (e != s ==> Remaining(e) == Remaining(s) - 1)
  {
  }

  /** While anything remains, some writer step can move. */
  lemma StuckMeansClosed(s: Ledger)
    requires Queued(s) && Quiet(s)
    requires Next(s, Take) == Next(s, Finish) == Next(s, Close) == s
    ensures s.closed && s.taken == |s.queue|
  {
  }

  /** Whatever the writer does from a quiet ledger, and in whatever order the marker and the packets go, none
      of the audited numbers changes. */
  lemma {:induction false} WriterKeepsNumbers(s: Ledger, steps: seq<Step>)
    requires Queued(s) && Quiet(s) && forall step :: step in steps ==> WriterStep(step)
    ensures var e := Exec(s, steps);
            && e == s.(taken := e.taken, finishing := e.finishing, closed := e.closed)
            && Queued(e)
            && (AllMove(s, steps) ==> Remaining(e) + |steps| == Remaining(s))
  {
    if steps != [] {
      var init, last := steps[..|steps| - 1], steps[|steps| - 1];
      assert forall k :: 0 <= k < |init| ==> init[..k] == steps[..k];
      WriterKeepsNumbers(s, init);
      WriterStepMoves(Exec(s, init), last);
      assert AllMove(s, steps) ==> AllMove(s, init);
    }
  }

  /** Every schedule of the writer finishes: it takes a bounded number of steps, and where none is left the
      marker has been handled behind all packets. */
  lemma FinishCloses(s: Ledger, steps: seq<Step>)
    requires Queued(s) && Quiet(s) && forall step :: step in steps ==> WriterStep(step)
    requires AllMove(s, steps)
    ensures var e := Exec(s, steps);
            && |steps| <= |s.queue| - s.taken + 2
            && (Next(e, Take) == Next(e, Finish) == Next(e, Close) == e ==>
                  e == s.(taken := |s.queue|, finishing := true, closed := true))
  {
    WriterKeepsNumbers(s, steps);
    var e := Exec(s, steps);
    if Next(e, Take) == Next(e, Finish) == Next(e, Close) == e {
      StuckMeansClosed(e);
    }
  }

  // ---------- from the ledger to the file ----------

  /** What the writer has written. */
  function Written(s: Ledger): seq<Item> {
    if s.taken <= |s.queue| then s.queue[..s.taken] else s.queue
  }

  lemma {:induction false} DirectionOfQueue(queue: seq<Item>, i: nat, d: Direction)
    requires forall k :: 0 <= k < |queue| ==> (queue[k].message.direction == d <==> queue[k].client == i)
    ensures FlatMap(DataIf(Only(d)), Messages(queue)) == Flatten(FlatMap(From(i), queue))
  {
    if queue != [] {
      var init, item := queue[..|queue| - 1], queue[|queue| - 1];
      DirectionOfQueue(init, i, d);
      assert Messages(queue) == Messages(init) + [item.message];
      FlatMapSnoc(DataIf(Only(d)), Messages(init), item.message);
      FlattenAppend(FlatMap(From(i), init), From(i)(item));
      if item.client == i {
        FlattenSingle(item.message.data);
      }
    }
  }

  lemma {:induction false} AllDataLength(queue: seq<Item>)
    ensures |FlatMap(DataIf(Any()), Messages(queue))| == Sum(ItemBytes, queue)
  {
    if queue != [] {
      var init, item := queue[..|queue| - 1], queue[|queue| - 1];
      AllDataLength(init);
      assert Messages(queue) == Messages(init) + [item.message];
      FlatMapSnoc(DataIf(Any()), Messages(init), item.message);
    }
  }

  lemma ClosedQueue(s: Ledger, link: Link, i: nat, d: Direction)
    requires Traced(s) && s.taken == |s.queue| && s.captured == Sum(ItemBytes, s.queue)
    requires i < |s.clients| && forall j :: 0 <= j < |s.clients| ==> (s.clients[j].direction == d <==> j == i)
    requires !s.truncated ==> FlatMap(From(i), s.queue) == s.clients[i].observed
    ensures var rs := CaptureRecords(link, Messages(Written(s)));
            && ParseFile(CaptureFile(link, Messages(Written(s)))) == Some(rs)
            && |FlatMap(PayloadIf(Everything()), rs)| == s.captured
            && (!s.truncated && link.client != link.target ==>
                  FlatMap(PayloadIf(Travelling(link, d)), rs) == Flatten(s.clients[i].observed))
  {
    assert Written(s) == s.queue;
    CaptureReadsBack(link, Messages(s.queue), d);
    AllDataLength(s.queue);
    DirectionOfQueue(s.queue, i, d);
  }

  /** End to end, once the writer has closed: the file the writer made reads back, its UDP payload is
      exactly as long as the audited figure, and with one client per direction an untruncated capture
      holds each direction's whole byte stream. */
  lemma ClosedCaptureFile(max: nat, link: Link, steps: seq<Step>, i: nat)
    requires i < 2
    requires Exec(Init(max, [ClientToTarget, TargetToClient]), steps).closed
    ensures var s := Exec(Init(max, [ClientToTarget, TargetToClient]), steps);
            var rs := CaptureRecords(link, Messages(Written(s)));
            && ParseFile(CaptureFile(link, Messages(Written(s)))) == Some(rs)
            && |FlatMap(PayloadIf(Everything()), rs)| == s.captured
            && |s.clients| == 2
            && (!s.truncated && link.client != link.target ==>
                  FlatMap(PayloadIf(Travelling(link, s.clients[i].direction)), rs) == Flatten(s.clients[i].observed))
  {
    var dirs := [ClientToTarget, TargetToClient];
    var s := Exec(Init(max, dirs), steps);
    RunsKeepInv(max, dirs, steps);
    QuietLedger(max, dirs, steps);
    DirectionsFixed(max, dirs, steps);
    ClosedQueue(s, link, i, dirs[i]);
  }

  lemma StepKeepsDirections(s: Ledger, step: Step)
    ensures |Next(s, step).clients| == |s.clients|
    ensures forall i :: 0 <= i < |s.clients| ==> Next(s, step).clients[i].direction == s.clients[i].direction
  {
  }

  lemma {:induction false} DirectionsFixed(max: nat, directions: seq<Direction>, steps: seq<Step>)
    ensures var s := Exec(Init(max, directions), steps);
            |s.clients| == |directions| && forall i :: 0 <= i < |directions| ==> s.clients[i].direction == directions[i]
  {
    if steps != [] {
      DirectionsFixed(max, directions, steps[..|steps| - 1]);
      StepKeepsDirections(Exec(Init(max, directions), steps[..|steps| - 1]), steps[|steps| - 1]);
    }
  }
}
