/** The capture observer and the per-connection traffic counters as objects, called one message at a time. */
module Observer {
  import opened Bytes
  import opened Pcap
  import L = Ledger

  /** What one observer has done so far; `sent` is everything it enqueued. */
  datatype State = State(captured: nat, truncated: bool, sent: seq<Message>)

  /** One uninterrupted call. `room` tells whether the queue takes the packet. */
  function Observed(max: nat, s: State, m: Message, room: bool): State {
    if s.captured >= max || !room then s.(truncated := true)
    else
      var length := L.Min(max - s.captured, |m.data|);
      State(s.captured + length, s.truncated || length < |m.data|, s.sent + [m.(data := m.data[..length])])
  }

  class CaptureObserver {
    const maxBytes: nat
    var captured: nat
    var truncated: bool
    var queue: seq<Message>      // waiting for the writer
    ghost var sent: seq<Message> // everything ever enqueued

    constructor (maxBytes: nat)
      ensures this.maxBytes == maxBytes && Abstract() == State(0, false, []) && queue == []
    {
      this.maxBytes := maxBytes;
      captured, truncated, queue, sent := 0, false, [], [];
    }

    ghost function Abstract(): State
      reads this
    {
      State(captured, truncated, sent)
    }

    /** The reservation loop: `failures` counts the spurious failures of the weak compare-and-swap. */
    method Observe(m: Message, failures: nat)
      modifies this
      ensures Abstract() == Observed(maxBytes, old(Abstract()), m, old(|queue|) < L.CAPACITY)
      ensures queue == old(queue) + sent[|old(sent)|..]
    {
      var already := captured;
      var length := 0;
      var left := failures;
      while true
        invariant already == captured == old(captured)
        invariant Abstract() == old(Abstract()) && queue == old(queue)
        decreases left
      {
        if already >= maxBytes {
          truncated := true;
          return;
        }
        length := if maxBytes - already <= |m.data| then maxBytes - already else |m.data|;
        if left == 0 {
          captured := already + length;
          break;
        }
        left := left - 1;
        already := captured;
      }
      if length < |m.data| {
        truncated := true;
      }
      var packet := m.(data := m.data[..length]);
      if |queue| < L.CAPACITY {
        queue := queue + [packet];
        sent := sent + [packet];
      } else {
        captured := captured - length;
        truncated := true;
      }
    }

    /** The writer takes the oldest packet. */
    method Take() returns (m: Message)
      requires queue != []
      modifies this
      ensures Abstract() == old(Abstract())
      ensures [m] + queue == old(queue)
    {
      m := queue[0];
      queue := queue[1..];
    }
  }

  class ConnectionObserver {
    var clientToTarget: nat
    var targetToClient: nat
    const capture: CaptureObserver?

    constructor (capture: CaptureObserver?)
      ensures this.capture == capture && clientToTarget == 0 && targetToClient == 0
    {
      this.capture := capture;
      clientToTarget, targetToClient := 0, 0;
    }

    /** Counts first, then lets the capture see the message. */
    method Observe(m: Message, failures: nat)
      modifies this, capture
      ensures clientToTarget == old(clientToTarget) + (if m.direction.ClientToTarget? then |m.data| else 0)
      ensures targetToClient == old(targetToClient) + (if m.direction.TargetToClient? then |m.data| else 0)
      ensures capture != null ==>
                capture.Abstract() == Observed(capture.maxBytes, old(capture.Abstract()), m,
                                               old(|capture.queue|) < L.CAPACITY)
    {
      match m.direction {
        case ClientToTarget => clientToTarget := clientToTarget + |m.data|;
        case TargetToClient => targetToClient := targetToClient + |m.data|;
      }
      if capture != null {
        capture.Observe(m, failures);
      }
    }
  }

  // ---------- an uninterrupted call of the step system is this function ----------

  /** One client's whole call with no other step in between. */
  function SoloCall(s: L.Ledger, i: nat, data: seq<byte>, at: Timestamp): L.Ledger {
    SoloSend(SoloReserve(s, i, data), i, at)
  }

  function SoloReserve(s: L.Ledger, i: nat, data: seq<byte>): L.Ledger {
    L.Next(L.Next(s, L.Begin(i, data)), L.Attempt(i, false))
  }

  lemma SoloReserveOutcome(s: L.Ledger, i: nat, data: seq<byte>)
    requires i < |s.clients| && s.clients[i].phase.Idle?
    requires 0 <= s.captured && !s.finishing
    ensures var r := SoloReserve(s, i, data);
            var length := L.Min(s.max - s.captured, |data|);
            var phase := if s.captured >= s.max then L.Idle else L.Reserved(data, length);
            && r.clients == s.clients[i := L.Client(s.clients[i].direction, s.clients[i].observed + [data], phase)]
            && (r.max, r.queue, r.taken, r.closed) == (s.max, s.queue, s.taken, s.closed)
            && r.captured == (if s.captured >= s.max then s.captured else s.captured + length)
            && r.truncated == (s.truncated || s.captured >= s.max)
  {
  }

  /** The second half of a call that holds a reservation. */
  function SoloSend(s: L.Ledger, i: nat, at: Timestamp): L.Ledger {
    var sent := L.Next(L.Next(s, L.Flag(i)), L.TrySend(i, at));
    L.Next(L.Next(sent, L.Rollback(i)), L.FlagRefused(i))
  }

  lemma SoloSendOutcome(s: L.Ledger, i: nat, data: seq<byte>, length: nat, at: Timestamp)
    requires i < |s.clients| && s.clients[i].phase == L.Reserved(data, length) && length <= |data| && !s.closed
    ensures var idle := s.clients[i := s.clients[i].(phase := L.Idle)];
            var flag := s.truncated || length < |data|;
            var item := L.Item(i, Message(s.clients[i].direction, data[..length], at));
            SoloSend(s, i, at) ==
            if |s.queue| - s.taken < L.CAPACITY
            then s.(clients := idle, truncated := flag, queue := s.queue + [item])
            else s.(clients := idle, truncated := true, captured := s.captured - length)
  {
  }

  lemma SoloSendIdle(s: L.Ledger, i: nat, at: Timestamp)
    requires i < |s.clients| && s.clients[i].phase.Idle?
    ensures SoloSend(s, i, at) == s
  {
  }

  lemma SoloCallIsObserve(s: L.Ledger, i: nat, data: seq<byte>, at: Timestamp)
    requires i < |s.clients| && s.clients[i].phase.Idle?
    requires 0 <= s.captured && !s.finishing && !s.closed
    ensures var m := Message(s.clients[i].direction, data, at);
            var s' := SoloCall(s, i, data, at);
            var o := Observed(s.max, State(s.captured, s.truncated, L.Messages(s.queue)), m,
                              |s.queue| - s.taken < L.CAPACITY);
            && s'.clients == s.clients[i := s.clients[i].(observed := s.clients[i].observed + [data])]
            && (s'.captured, s'.truncated, L.Messages(s'.queue)) == (o.captured, o.truncated, o.sent)
  {
    var reserved := SoloReserve(s, i, data);
    SoloReserveOutcome(s, i, data);
    if s.captured < s.max {
      var length := L.Min(s.max - s.captured, |data|);
      SoloSendOutcome(reserved, i, data, length, at);
      MessagesSnoc(s.queue, L.Item(i, Message(s.clients[i].direction, data[..length], at)));
    } else {
      SoloSendIdle(reserved, i, at);
    }
  }

  lemma MessagesSnoc(queue: seq<L.Item>, item: L.Item)
    ensures L.Messages(queue + [item]) == L.Messages(queue) + [item.message]
  {
  }

  // ---------- sequential calls ----------

  /** `rooms[k]` is whether the queue had room at call `k`. */
  function ObservedAll(max: nat, messages: seq<Message>, rooms: seq<bool>): State
    requires |rooms| == |messages|
  {
    if messages == [] then State(0, false, [])
    else
      var last := |messages| - 1;
      Observed(max, ObservedAll(max, messages[..last], rooms[..last]), messages[last], rooms[last])
  }

  function AllData(messages: seq<Message>): seq<byte> {
    FlatMap(DataIf(Any()), messages)
  }

  function TakeUpTo(max: nat, data: seq<byte>): seq<byte> {
    if |data| <= max then data else data[..max]
  }

  /** A queue that never fills. */
  function AlwaysRoom(n: nat): seq<bool> {
    seq(n, i => true)
  }

  /** With room in the queue, the enqueued payload is exactly the first `max` bytes of the traffic. */
  lemma {:induction false} ObserverTruncates(max: nat, messages: seq<Message>)
    ensures var s := ObservedAll(max, messages, AlwaysRoom(|messages|));
            && AllData(s.sent) == TakeUpTo(max, AllData(messages))
            && s.captured == L.Min(max, |AllData(messages)|)
  {
    if messages != [] {
      var init, m := messages[..|messages| - 1], messages[|messages| - 1];
      ObserverTruncates(max, init);
      assert messages == init + [m];
      assert AlwaysRoom(|messages|)[..|init|] == AlwaysRoom(|init|);
      FlatMapSnoc(DataIf(Any()), init, m);
      CallTruncates(max, ObservedAll(max, init, AlwaysRoom(|init|)), AllData(init), m);
    }
  }

  lemma CallTruncates(max: nat, s: State, seen: seq<byte>, m: Message)
    requires AllData(s.sent) == TakeUpTo(max, seen) && s.captured == L.Min(max, |seen|)
    ensures var s' := Observed(max, s, m, true);
            && AllData(s'.sent) == TakeUpTo(max, seen + m.data)
            && s'.captured == L.Min(max, |seen + m.data|)
  {
    if s.captured < max {
      var length := L.Min(max - s.captured, |m.data|);
      FlatMapSnoc(DataIf(Any()), s.sent, m.(data := m.data[..length]));
      assert seen + m.data[..length] == TakeUpTo(max, seen + m.data);
    }
  }

  // ---------- what the flag and the loss depend on ----------

  /** The budget is used up, the message does not fit in what is left of it, or the queue is full. */
  predicate Flagged(max: nat, captured: nat, m: Message, room: bool) {
    captured >= max || captured + |m.data| > max || !room
  }

  function CapturedBefore(max: nat, messages: seq<Message>, rooms: seq<bool>, k: nat): nat
    requires |rooms| == |messages| && k <= |messages|
  {
    ObservedAll(max, messages[..k], rooms[..k]).captured
  }

  predicate FlaggedAt(max: nat, messages: seq<Message>, rooms: seq<bool>, k: nat)
    requires |rooms| == |messages| && k < |messages|
  {
    Flagged(max, CapturedBefore(max, messages, rooms, k), messages[k], rooms[k])
  }

  lemma FlaggedAtPrefix(max: nat, messages: seq<Message>, rooms: seq<bool>, n: nat, k: nat)
    requires |rooms| == |messages| && k < n <= |messages|
    ensures FlaggedAt(max, messages[..n], rooms[..n], k) == FlaggedAt(max, messages, rooms, k)
  {
    assert messages[..n][..k] == messages[..k] && rooms[..n][..k] == rooms[..k];
  }

  /** The flag is up exactly when some call came late, was cut, or met a full queue. */
  lemma {:induction false} FlagIff(max: nat, messages: seq<Message>, rooms: seq<bool>)
    requires |rooms| == |messages|
    ensures ObservedAll(max, messages, rooms).truncated
       <==> exists k :: 0 <= k < |messages| && FlaggedAt(max, messages, rooms, k)
  {
    if messages != [] {
      var last := |messages| - 1;
      var init, open := messages[..last], rooms[..last];
      FlagIff(max, init, open);
      assert ObservedAll(max, messages, rooms).truncated
        <==> ObservedAll(max, init, open).truncated || FlaggedAt(max, messages, rooms, last);
      forall k | 0 <= k < last
        ensures FlaggedAt(max, init, open, k) == FlaggedAt(max, messages, rooms, k)
      {
        FlaggedAtPrefix(max, messages, rooms, last, k);
      }
    }
  }

  /** Everything fits, and every message that carries bytes found room. */
  predicate Fits(max: nat, messages: seq<Message>, rooms: seq<bool>)
    requires |rooms| == |messages|
  {
    && |AllData(messages)| <= max
    && forall k :: 0 <= k < |messages| && messages[k].data != [] ==> rooms[k]
  }

  lemma FitsSnoc(max: nat, messages: seq<Message>, rooms: seq<bool>)
    requires |rooms| == |messages| > 0
    ensures var last := |messages| - 1;
            && Fits(max, messages, rooms)
               == (Fits(max, messages[..last], rooms[..last])
                   && (messages[last].data == []
                       || (rooms[last] && |AllData(messages[..last])| + |messages[last].data| <= max)))
            && AllData(messages) == AllData(messages[..last]) + messages[last].data
  {
    var last := |messages| - 1;
    assert messages == messages[..last] + [messages[last]];
    FlatMapSnoc(DataIf(Any()), messages[..last], messages[last]);
    if Fits(max, messages[..last], rooms[..last]) {
      assert forall k :: 0 <= k < last && messages[k].data != [] ==> messages[..last][k].data != [] && rooms[..last][k];
    }
    if Fits(max, messages, rooms) {
      assert forall k :: 0 <= k < last && messages[..last][k].data != [] ==> messages[k].data != [] && rooms[k];
    }
  }

  /** What one call enqueues: the whole message, or less. */
  lemma CallKeeps(max: nat, s: State, m: Message, room: bool)
    requires s.captured == |AllData(s.sent)| <= max
    ensures var s' := Observed(max, s, m, room);
            && s'.captured == |AllData(s'.sent)| <= max
            && |AllData(s'.sent)| <= |AllData(s.sent)| + |m.data|
            && (if m.data == [] || (room && s.captured + |m.data| <= max)
                then AllData(s'.sent) == AllData(s.sent) + m.data
                else |AllData(s'.sent)| < |AllData(s.sent)| + |m.data|)
  {
    if s.captured < max && room {
      var length := L.Min(max - s.captured, |m.data|);
      FlatMapSnoc(DataIf(Any()), s.sent, m.(data := m.data[..length]));
    }
  }

  /** Nothing is lost exactly when the whole traffic fits in the budget and every message with bytes found
      room in the queue. */
  lemma {:induction false} NothingLostIff(max: nat, messages: seq<Message>, rooms: seq<bool>)
    requires |rooms| == |messages|
    ensures var s := ObservedAll(max, messages, rooms);
            && s.captured == |AllData(s.sent)| <= max
            && |AllData(s.sent)| <= |AllData(messages)|
            && (AllData(s.sent) == AllData(messages) <==> Fits(max, messages, rooms))
            && (|AllData(s.sent)| == |AllData(messages)| ==> AllData(s.sent) == AllData(messages))
  {
    if messages != [] {
      var last := |messages| - 1;
      NothingLostIff(max, messages[..last], rooms[..last]);
      FitsSnoc(max, messages, rooms);
      CallKeeps(max, ObservedAll(max, messages[..last], rooms[..last]), messages[last], rooms[last]);
    }
  }

  /** So a raised flag does not prove a loss. It is raised without one exactly when everything fits and some
      empty message came after an exactly full budget or met a full queue. */
  lemma FlagWithoutLossIff(max: nat, messages: seq<Message>, rooms: seq<bool>)
    requires |rooms| == |messages|
    ensures var s := ObservedAll(max, messages, rooms);
            s.truncated && AllData(s.sent) == AllData(messages)
            <==> Fits(max, messages, rooms)
                 && exists k :: 0 <= k < |messages| && messages[k].data == []
                                && (!rooms[k] || |AllData(messages[..k])| == max)
  {
    NothingLostIff(max, messages, rooms);
    FlagIff(max, messages, rooms);
    if Fits(max, messages, rooms) {
      forall k | 0 <= k < |messages|
        ensures FlaggedAt(max, messages, rooms, k)
           <==> messages[k].data == [] && (!rooms[k] || |AllData(messages[..k])| == max)
      {
        FitsPrefix(max, messages, rooms, k);
        NothingLostIff(max, messages[..k], rooms[..k]);
      }
    }
  }

  /** For example an empty message after one that filled the budget, or one that meets a full queue. */
  lemma FlagWithoutLoss(full: Message, empty: Message)
    requires empty.data == []
    ensures var s := ObservedAll(|full.data|, [full, empty], [true, true]);
            s.truncated && AllData(s.sent) == AllData([full, empty])
    ensures var s := ObservedAll(1, [empty], [false]);
            s.truncated && AllData(s.sent) == AllData([empty])
  {
    var two := [full, empty];
    assert two[..1] == [full];
    FlatMapOne(DataIf(Any()), full);
    FlatMapSnoc(DataIf(Any()), [full], empty);
    FlagWithoutLossIff(|full.data|, two, [true, true]);
    assert two[1].data == [] && |AllData(two[..1])| == |full.data|;
    FlatMapOne(DataIf(Any()), empty);
    FlagWithoutLossIff(1, [empty], [false]);
    assert [empty][0].data == [] && ![false][0];
  }

  lemma FitsPrefix(max: nat, messages: seq<Message>, rooms: seq<bool>, k: nat)
    requires |rooms| == |messages| && k < |messages| && Fits(max, messages, rooms)
    ensures Fits(max, messages[..k], rooms[..k])
    ensures |AllData(messages[..k])| + |messages[k].data| <= max
  {
    DataUpTo(messages, k);
    assert forall j :: 0 <= j < k ==> messages[..k][j] == messages[j] && rooms[..k][j] == rooms[j];
  }

  lemma DataUpTo(messages: seq<Message>, k: nat)
    requires k < |messages|
    ensures |AllData(messages[..k])| + |messages[k].data| <= |AllData(messages)|
  {
    var until := messages[..k + 1];
    assert messages == until + messages[k + 1..] && until == messages[..k] + [messages[k]];
    FlatMapAppend(DataIf(Any()), until, messages[k + 1..]);
    FlatMapSnoc(DataIf(Any()), messages[..k], messages[k]);
  }
}
