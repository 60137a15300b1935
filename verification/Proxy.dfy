/** Two proxies in a row: TCP to WebSocket on one machine, WebSocket to TCP on the other. */
module Proxy {
  import opened Bytes

  datatype Message = Binary(data: seq<byte>) | Others

  /** What the WebSocket library hands over; control frames and the like are `Control`. */
  datatype WsMessage = WsBinary(data: seq<byte>) | WsText(data: seq<byte>) | Control

  function FromWs(m: WsMessage): Message {
    match m
    case WsBinary(data) => Binary(data)
    case WsText(data) => Binary(data)
    case Control => Others
  }

  /** Starting to send: `Others` puts nothing on the socket. */
  function ToWs(m: Message): seq<WsMessage> {
    match m
    case Binary(data) => [WsBinary(data)]
    case Others => []
  }

  /** The bytes a message stands for. */
  function DataOf(m: Message): seq<byte> {
    match m
    case Binary(data) => data
    case Others => []
  }

  function WireData(m: WsMessage): seq<byte> {
    DataOf(FromWs(m))
  }

  /** Binary and text frames carry their bytes, anything else nothing, and what is sent arrives. */
  lemma ConversionsKeepData(m: Message, data: seq<byte>)
    ensures FlatMap(WireData, ToWs(m)) == DataOf(m)
    ensures WireData(WsBinary(data)) == WireData(WsText(data)) == data && WireData(Control) == []
    ensures DataOf(Binary(data)) == data && DataOf(Others) == []
  {
    if m.Binary? {
      FlatMapOne(WireData, WsBinary(m.data));
    }
  }

  // ---------- the codec and the forwarding loop ----------

  class ByteBuffer {
    var bytes: seq<byte>
  }

  /** Takes the whole buffer as one message. */
  method Decode(buffer: ByteBuffer) returns (m: Option<Message>)
    modifies buffer
    ensures buffer.bytes == []
    ensures m.None? <==> old(buffer.bytes) == []
    ensures m.Some? ==> m.value == Binary(old(buffer.bytes))
  {
    if buffer.bytes != [] {
      var data := buffer.bytes;
      buffer.bytes := [];
      m := Some(Binary(data));
    } else {
      m := None;
    }
  }

  method Encode(m: Message, buffer: ByteBuffer)
    modifies buffer
    ensures buffer.bytes == old(buffer.bytes) + DataOf(m)
  {
    match m {
      case Binary(data) => buffer.bytes := buffer.bytes + data;
      case Others =>
    }
  }

  /** Whatever was encoded, decoding gives back all of it as one message. */
  method EncodeThenDecode(messages: seq<Message>) returns (m: Option<Message>)
    ensures FlatMap(DataOf, messages) == [] <==> m.None?
    ensures m.Some? ==> m.value == Binary(FlatMap(DataOf, messages))
  {
    var buffer := new ByteBuffer;
    buffer.bytes := [];
    for i := 0 to |messages|
      invariant buffer.bytes == FlatMap(DataOf, messages[..i])
    {
      Encode(messages[i], buffer);
      assert messages[..i + 1] == messages[..i] + [messages[i]];
      FlatMapSnoc(DataOf, messages[..i], messages[i]);
    }
    assert messages[..|messages|] == messages;
    m := Decode(buffer);
  }

  datatype Item = Received(m: Message) | Failed

  class Counter {
    var value: nat
  }

  class Sink {
    var accepted: seq<Message>
    var room: nat // messages it still takes before failing

    method Send(m: Message) returns (ok: bool)
      modifies this
      ensures ok == (old(room) > 0)
      ensures accepted == old(accepted) + if ok then [m] else []
    {
      ok := room > 0;
      if ok {
        accepted := accepted + [m];
        room := room - 1;
      }
    }
  }

  function ItemData(item: Item): seq<byte> {
    if item.Received? then DataOf(item.m) else []
  }

  function MessagesOf(items: seq<Item>): seq<Message>
    requires forall item :: item in items ==> item.Received?
  {
    seq(|items|, i requires 0 <= i < |items| => items[i].m)
  }

  /** The bytes of a stream are those of its binary messages, and the messages those received, in order. */
  lemma StreamData(items: seq<Item>, data: seq<byte>)
    ensures FlatMap(ItemData, items + [Received(Binary(data))]) == FlatMap(ItemData, items) + data
    ensures FlatMap(ItemData, items + [Received(Others)]) == FlatMap(ItemData, items)
    ensures (forall k :: 0 <= k < |items| ==> items[k].Received?) ==>
              |MessagesOf(items)| == |items|
              && forall k :: 0 <= k < |items| ==> items[k] == Received(MessagesOf(items)[k])
  {
    FlatMapSnoc(ItemData, items, Received(Binary(data)));
    FlatMapSnoc(ItemData, items, Received(Others));
  }

  /** Counts and observes each message before forwarding it. `taken` messages were counted; all of them
      were forwarded, except the last one when its send failed. */
  method ForwardObserved(stream: seq<Item>, sink: Sink, bytes: Counter, observed: ByteBuffer)
    returns (ok: bool, taken: nat, forwarded: nat)
    modifies sink, bytes, observed
    ensures forwarded <= taken <= |stream| && taken <= forwarded + 1
    ensures forall k :: 0 <= k < taken ==> stream[k].Received?
    ensures bytes.value == old(bytes.value) + |FlatMap(ItemData, stream[..taken])|
    ensures observed.bytes == old(observed.bytes) + FlatMap(ItemData, stream[..taken])
    ensures sink.accepted == old(sink.accepted) + MessagesOf(stream[..forwarded])
    ensures ok ==> forwarded == taken == |stream|
    ensures !ok && forwarded == taken ==> taken < |stream| && stream[taken].Failed?
  {
    taken, forwarded := 0, 0;
    while taken < |stream|
      invariant forwarded == taken <= |stream|
      invariant forall k :: 0 <= k < taken ==> stream[k].Received?
      invariant bytes.value == old(bytes.value) + |FlatMap(ItemData, stream[..taken])|
      invariant observed.bytes == old(observed.bytes) + FlatMap(ItemData, stream[..taken])
      invariant sink.accepted == old(sink.accepted) + MessagesOf(stream[..forwarded])
    {
      if stream[taken].Failed? {
        return false, taken, forwarded;
      }
      var message := stream[taken].m;
      assert stream[..taken + 1] == stream[..taken] + [stream[taken]];
      FlatMapSnoc(ItemData, stream[..taken], stream[taken]);
      if message.Binary? {
        bytes.value := bytes.value + |message.data|;
        observed.bytes := observed.bytes + message.data;
      }
      taken := taken + 1;
      var sent := sink.Send(message);
      if !sent {
        return false, taken, forwarded;
      }
      assert MessagesOf(stream[..taken]) == MessagesOf(stream[..forwarded]) + [message];
      forwarded := taken;
    }
    ok := true;
  }

  // ---------- one direction through both proxies ----------

  /** Everything between the writer on one side and the reader on the other. `up` is the proxy next to
      the writer, `down` the one next to the reader. */
  datatype Way = Way(
    up: bool, down: bool,            // still running
    written: seq<byte>,              // written by the application so far
    read: nat,                       // how much of it the first proxy has read
    inbound: seq<byte>,              // read, not yet decoded
    held1: Option<seq<byte>>,        // counted by the first proxy, not yet handed to the socket
    latest: seq<byte>,               // the message it counted last
    count1: nat, sent1: nat,
    wire: seq<WsMessage>,
    held2: Option<seq<byte>>,        // counted by the second proxy, not yet encoded
    current: seq<byte>,              // the message it counted last
    count2: nat,
    outbound: seq<byte>,             // encoded, not yet flushed
    delivered: seq<byte>,            // handed to the reader's socket; what the reader has got is a prefix of it
    seen1: seq<byte>, seen2: seq<byte>) // everything the first and the second proxy have counted

  datatype WayStep =
    | Write(data: seq<byte>)
    | Read(n: nat)
    | DecodeInbound
    | SendWs
    | ControlFrame
    | ReceiveWs
    | EncodeHeld
    | Flush(n: nat)
    | LoseTail(n: nat)  // the socket of a stopped sender may drop what it had not transmitted
    | StopUp            // end of stream, error or cancellation: everything the proxy holds is gone
    | StopDown

  const FRESH := Way(true, true, [], 0, [], None, [], 0, 0, [], None, [], 0, [], [], [], [])

  function Held(h: Option<seq<byte>>): seq<byte> {
    if h.Some? then h.value else []
  }

  function NextWay(w: Way, step: WayStep): Way {
    match step
    case Write(data) => w.(written := w.written + data)
    case Read(n) =>
      if w.up && w.read + n <= |w.written| then
        w.(read := w.read + n, inbound := w.inbound + w.written[w.read..w.read + n])
      else w
    case DecodeInbound =>
      if w.up && w.held1.None? && w.inbound != [] then
        w.(held1 := Some(w.inbound), latest := w.inbound, inbound := [], count1 := w.count1 + |w.inbound|,
            seen1 := w.seen1 + w.inbound)
      else w
    case SendWs =>
      if w.up && w.held1.Some? then
        w.(wire := w.wire + ToWs(Binary(w.held1.value)), sent1 := w.sent1 + |w.held1.value|, held1 := None)
      else w
    case ControlFrame => w.(wire := w.wire + [Control])
    case ReceiveWs =>
      if w.down && w.held2.None? && w.outbound == [] && w.wire != [] then
        match FromWs(w.wire[0])
        case Binary(data) =>
          w.(wire := w.wire[1..], held2 := Some(data), current := data,
            count2 := w.count2 + |data|, seen2 := w.seen2 + data)
        case Others => w.(wire := w.wire[1..])
      else w
    case EncodeHeld =>
      if w.down && w.held2.Some? then w.(outbound := w.outbound + w.held2.value, held2 := None) else w
    case Flush(n) =>
      if w.down && n <= |w.outbound| then
        w.(delivered := w.delivered + w.outbound[..n], outbound := w.outbound[n..])
      else w
    case LoseTail(n) =>
      if !w.up && n <= |w.wire| then w.(wire := w.wire[..n]) else w
    case StopUp => w.(up := false, inbound := [], held1 := None)
    case StopDown => w.(down := false, held2 := None, outbound := [])
  }

  /** Past the first proxy but not yet delivered, in order. */
  function InTransit(w: Way): seq<byte> {
    w.outbound + Held(w.held2) + FlatMap(WireData, w.wire)
  }

  /** The bytes are conserved in order while a proxy runs, and a prefix survives when one stops. */
  predicate WayInv(w: Way) {
    && w.read <= |w.written|
    && (w.down ==> w.delivered + InTransit(w) <= w.written[..w.read])
    && (w.up && w.down ==> w.delivered + InTransit(w) + Held(w.held1) + w.inbound == w.written[..w.read])
    && w.delivered <= w.written
    && (w.up ==> w.count1 == w.sent1 + |Held(w.held1)|)
    && w.sent1 <= w.count1
    && (w.down ==> w.count2 == |w.delivered| + |w.outbound| + |Held(w.held2)|
                   && |w.outbound| + |Held(w.held2)| <= |w.current|)
    && (w.held2.Some? ==> w.outbound == [])
    && |w.delivered| <= w.count2 <= |w.delivered| + |w.current|
  }

  /** Along the way the figures only get smaller, and each counter is ahead of what its proxy passed on by
      at most the message counted last. */
  predicate Figures(w: Way) {
    && w.count2 <= w.sent1 <= w.count1 <= w.read <= |w.written|
    && w.count1 <= w.sent1 + |w.latest|
    && (w.up ==> w.count1 + |w.inbound| == w.read && w.count1 == w.sent1 + |Held(w.held1)|)
    && (w.down ==> w.count2 + |FlatMap(WireData, w.wire)| <= w.sent1)
  }

  lemma ReadKeepsFigures(w: Way, n: nat)
    requires Figures(w)
    ensures Figures(NextWay(w, Read(n)))
  {
  }

  lemma DecodeKeepsFigures(w: Way)
    requires Figures(w)
    ensures Figures(NextWay(w, DecodeInbound))
  {
  }

  lemma SendKeepsFigures(w: Way)
    requires Figures(w)
    ensures Figures(NextWay(w, SendWs))
  {
    if w.up && w.held1.Some? {
      FlatMapSnoc(WireData, w.wire, WsBinary(w.held1.value));
    }
  }

  lemma ControlKeepsFigures(w: Way)
    requires Figures(w)
    ensures Figures(NextWay(w, ControlFrame))
  {
    FlatMapSnoc(WireData, w.wire, Control);
  }

  /** The bytes on the wire are those of its first message and of the rest. */
  lemma FirstOnWire(wire: seq<WsMessage>)
    requires wire != []
    ensures FlatMap(WireData, wire) == WireData(wire[0]) + FlatMap(WireData, wire[1..])
  {
    assert wire == [wire[0]] + wire[1..];
    FlatMapAppend(WireData, [wire[0]], wire[1..]);
    FlatMapOne(WireData, wire[0]);
  }

  lemma ReceiveKeepsFigures(w: Way)
    requires Figures(w)
    ensures Figures(NextWay(w, ReceiveWs))
  {
    if w.wire != [] {
      FirstOnWire(w.wire);
    }
  }

  lemma LostOnWire(wire: seq<WsMessage>, n: nat)
    requires n <= |wire|
    ensures |FlatMap(WireData, wire[..n])| <= |FlatMap(WireData, wire)|
  {
    assert wire == wire[..n] + wire[n..];
    FlatMapAppend(WireData, wire[..n], wire[n..]);
  }

  lemma LoseKeepsFigures(w: Way, n: nat)
    requires Figures(w)
    ensures Figures(NextWay(w, LoseTail(n)))
  {
    if n <= |w.wire| {
      LostOnWire(w.wire, n);
    }
  }

  lemma StopKeepsFigures(w: Way)
    requires Figures(w)
    ensures Figures(NextWay(w, StopUp)) && Figures(NextWay(w, StopDown))
  {
  }

  lemma StepKeepsFigures(w: Way, step: WayStep)
    requires Figures(w)
    ensures Figures(NextWay(w, step))
  {
    match step
    case Read(n) => ReadKeepsFigures(w, n);
    case DecodeInbound => DecodeKeepsFigures(w);
    case SendWs => SendKeepsFigures(w);
    case ControlFrame => ControlKeepsFigures(w);
    case ReceiveWs => ReceiveKeepsFigures(w);
    case LoseTail(n) => LoseKeepsFigures(w, n);
    case StopUp => StopKeepsFigures(w);
    case StopDown => StopKeepsFigures(w);
    case Write(_) =>
    case EncodeHeld =>
    case Flush(_) =>
  }

  /** What the proxies have counted are prefixes of what was written, the reader's bytes one of those. */
  predicate History(w: Way) {
    && |w.seen1| == w.count1 && |w.seen2| == w.count2
    && w.delivered <= w.seen2 <= w.written
    && w.seen1 <= w.written
    && (w.up ==> w.read <= |w.written| && w.seen1 + w.inbound == w.written[..w.read])
    && (w.down ==> w.seen2 == w.delivered + w.outbound + Held(w.held2))
  }

  lemma ReadKeepsHistory(w: Way, n: nat)
    requires History(w)
    ensures History(NextWay(w, Read(n)))
  {
  }

  lemma ReceiveKeepsHistory(w: Way)
    requires History(w) && w.read <= |w.written|
    requires w.down ==> w.delivered + InTransit(NextWay(w, ReceiveWs)) <= w.written[..w.read]
    ensures History(NextWay(w, ReceiveWs))
  {
    var next := NextWay(w, ReceiveWs);
    if w.down && w.held2.None? && w.outbound == [] && w.wire != [] && FromWs(w.wire[0]).Binary? {
      var rest := FlatMap(WireData, next.wire);
      assert InTransit(next) == next.current + rest;
      Assoc(w.delivered, next.current, rest);
      PrefixWithTail(w.delivered + next.current, rest, w.written[..w.read]);
      assert next.seen2 == w.delivered + next.current;
    }
  }

  lemma FlushKeepsHistory(w: Way, n: nat)
    requires History(w)
    ensures History(NextWay(w, Flush(n)))
  {
  }

  lemma DecodeKeepsHistory(w: Way)
    requires History(w)
    ensures History(NextWay(w, DecodeInbound))
  {
  }

  lemma EncodeKeepsHistory(w: Way)
    requires History(w) && (w.held2.Some? ==> w.outbound == [])
    ensures History(NextWay(w, EncodeHeld))
  {
  }

  lemma StepKeepsHistory(w: Way, step: WayStep)
    requires History(w) && WayInv(w) && WayInv(NextWay(w, step))
    ensures History(NextWay(w, step))
  {
    match step
    case Write(data) => assert w.up ==> (w.written + data)[..w.read] == w.written[..w.read];
    case Read(n) => ReadKeepsHistory(w, n);
    case DecodeInbound => DecodeKeepsHistory(w);
    case ReceiveWs => ReceiveKeepsHistory(w);
    case EncodeHeld => EncodeKeepsHistory(w);
    case Flush(n) => FlushKeepsHistory(w, n);
    case SendWs =>
    case ControlFrame =>
    case LoseTail(n) =>
    case StopUp =>
    case StopDown =>
  }

  lemma PrefixWithTail<T>(a: seq<T>, b: seq<T>, whole: seq<T>)
    requires a + b <= whole
    ensures a <= whole
  {
  }

  lemma ReadKeepsInv(w: Way, n: nat)
    requires WayInv(w)
    ensures WayInv(NextWay(w, Read(n)))
  {
  }

  lemma SendKeepsInv(w: Way)
    requires WayInv(w)
    ensures WayInv(NextWay(w, SendWs))
  {
    if w.up && w.held1.Some? {
      var message := WsBinary(w.held1.value);
      assert ToWs(Binary(w.held1.value)) == [message];
      FlatMapSnoc(WireData, w.wire, message);
      Assoc(w.outbound + Held(w.held2), FlatMap(WireData, w.wire), w.held1.value);
      Assoc(w.delivered, InTransit(w), w.held1.value);
      assert w.down ==> w.delivered + InTransit(NextWay(w, SendWs)) <= w.written[..w.read];
    }
  }

  lemma ControlKeepsInv(w: Way)
    requires WayInv(w)
    ensures WayInv(NextWay(w, ControlFrame))
  {
    FlatMapSnoc(WireData, w.wire, Control);
    assert InTransit(NextWay(w, ControlFrame)) == InTransit(w);
  }

  lemma ReceiveKeepsInv(w: Way)
    requires WayInv(w)
    ensures WayInv(NextWay(w, ReceiveWs))
  {
    if w.down && w.held2.None? && w.outbound == [] && w.wire != [] {
      FirstOnWire(w.wire);
      assert InTransit(NextWay(w, ReceiveWs)) == InTransit(w);
    }
  }

  lemma EncodeKeepsInv(w: Way)
    requires WayInv(w)
    ensures WayInv(NextWay(w, EncodeHeld))
  {
  }

  lemma FlushKeepsInv(w: Way, n: nat)
    requires WayInv(w)
    ensures WayInv(NextWay(w, Flush(n)))
  {
    if w.down && n <= |w.outbound| {
      var rest := Held(w.held2) + FlatMap(WireData, w.wire);
      assert InTransit(w) == w.outbound[..n] + (w.outbound[n..] + rest);
      assert InTransit(NextWay(w, Flush(n))) == w.outbound[n..] + rest;
      Assoc(w.delivered, w.outbound[..n], w.outbound[n..] + rest);
      PrefixWithTail(w.delivered + w.outbound[..n], w.outbound[n..] + rest, w.written[..w.read]);
    }
  }

  lemma DropTail<T>(a: seq<T>, b: seq<T>, c: seq<T>, d: seq<T>, whole: seq<T>)
    requires a + (b + (c + d)) <= whole
    ensures a + (b + c) <= whole
  {
  }

  lemma LoseKeepsInv(w: Way, n: nat)
    requires WayInv(w)
    ensures WayInv(NextWay(w, LoseTail(n)))
  {
    if !w.up && n <= |w.wire| {
      assert w.wire == w.wire[..n] + w.wire[n..];
      FlatMapAppend(WireData, w.wire[..n], w.wire[n..]);
      if w.down {
        DropTail(w.delivered, w.outbound + Held(w.held2), FlatMap(WireData, w.wire[..n]),
                 FlatMap(WireData, w.wire[n..]), w.written[..w.read]);
      }
    }
  }

  lemma WayStepKeepsInv(w: Way, step: WayStep)
    requires WayInv(w)
    ensures WayInv(NextWay(w, step))
  {
    match step
    case Read(n) => ReadKeepsInv(w, n);
    case SendWs => SendKeepsInv(w);
    case ControlFrame => ControlKeepsInv(w);
    case ReceiveWs => ReceiveKeepsInv(w);
    case EncodeHeld => EncodeKeepsInv(w);
    case Flush(n) => FlushKeepsInv(w, n);
    case LoseTail(n) => LoseKeepsInv(w, n);
    case Write(data) => assert (w.written + data)[..w.read] == w.written[..w.read];
    case DecodeInbound =>
    case StopUp =>
    case StopDown =>
  }

  // ---------- both directions of the chain ----------

  /** `forth` runs from the application next to the near proxy to the one next to the far proxy. */
  datatype Chain = Chain(forth: Way, back: Way)

  datatype Side = Near | Far

  /** Stopping a proxy ends both of its directions at once. */
  datatype Step = Forth(step: WayStep) | Back(step: WayStep) | Stop(side: Side)

  function Next(c: Chain, step: Step): Chain {
    match step
    case Forth(s) => if s.StopUp? || s.StopDown? then c else c.(forth := NextWay(c.forth, s))
    case Back(s) => if s.StopUp? || s.StopDown? then c else c.(back := NextWay(c.back, s))
    case Stop(Near) => Chain(NextWay(c.forth, StopUp), NextWay(c.back, StopDown))
    case Stop(Far) => Chain(NextWay(c.forth, StopDown), NextWay(c.back, StopUp))
  }

  function Exec(steps: seq<Step>): Chain {
    if steps == [] then Chain(FRESH, FRESH) else Next(Exec(steps[..|steps| - 1]), steps[|steps| - 1])
  }

  ghost predicate Sound(w: Way) {
    WayInv(w) && Figures(w) && History(w)
  }

  lemma OneStep(w: Way, step: WayStep)
    requires Sound(w)
    ensures Sound(NextWay(w, step))
  {
    WayStepKeepsInv(w, step);
    StepKeepsFigures(w, step);
    StepKeepsHistory(w, step);
  }

  ghost predicate ChainInv(c: Chain) {
    Sound(c.forth) && Sound(c.back)
  }

  lemma StepKeepsInv(c: Chain, step: Step)
    requires ChainInv(c)
    ensures ChainInv(Next(c, step))
  {
    match step
    case Forth(s) => OneStep(c.forth, s);
    case Back(s) => OneStep(c.back, s);
    case Stop(Near) =>
      OneStep(c.forth, StopUp);
      OneStep(c.back, StopDown);
    case Stop(Far) =>
      OneStep(c.forth, StopDown);
      OneStep(c.back, StopUp);
  }

  lemma {:induction false} RunsKeepInv(steps: seq<Step>)
    ensures ChainInv(Exec(steps))
  {
    if steps != [] {
      RunsKeepInv(steps[..|steps| - 1]);
      StepKeepsInv(Exec(steps[..|steps| - 1]), steps[|steps| - 1]);
    }
  }

  /** What the application at the start of each direction has written, taken from the steps alone. */
  function WritesForth(): Step -> seq<byte> {
    (step: Step) => if step.Forth? && step.step.Write? then step.step.data else []
  }

  function WritesBack(): Step -> seq<byte> {
    (step: Step) => if step.Back? && step.step.Write? then step.step.data else []
  }

  lemma StepWrites(c: Chain, step: Step)
    ensures Next(c, step).forth.written == c.forth.written + WritesForth()(step)
    ensures Next(c, step).back.written == c.back.written + WritesBack()(step)
  {
  }

  lemma {:induction false} WrittenIsWrites(steps: seq<Step>)
    ensures Exec(steps).forth.written == FlatMap(WritesForth(), steps)
    ensures Exec(steps).back.written == FlatMap(WritesBack(), steps)
  {
    if steps != [] {
      WrittenIsWrites(steps[..|steps| - 1]);
      StepWrites(Exec(steps[..|steps| - 1]), steps[|steps| - 1]);
    }
  }

  /** Both applications always hold a prefix of what the other one wrote, whatever the chunking, the
      interleaving and the moment of cancellation. Each counter lies between what its proxy passed on and
      that plus the one message counted last, and the far counter never runs ahead of the near one. */
  lemma ChainDeliversPrefixes(steps: seq<Step>)
    ensures var c := Exec(steps);
            && DeliversPrefix(c.forth) && c.forth.written == FlatMap(WritesForth(), steps)
            && DeliversPrefix(c.back) && c.back.written == FlatMap(WritesBack(), steps)
  {
    RunsKeepInv(steps);
    WrittenIsWrites(steps);
  }

  predicate DeliversPrefix(w: Way) {
    && w.delivered <= w.written
    && |w.delivered| <= w.count2 <= |w.delivered| + |w.current|
    && w.sent1 <= w.count1 <= w.sent1 + |w.latest|
    && w.count2 <= w.sent1
  }

  // ---------- a proxy that has ended ----------

  /** What one proxy has passed on, counted and shown to its observer, in both directions. */
  datatype Passed = Passed(delivered: seq<byte>, counted: nat, seen: seq<byte>,
                           sent: nat, countedBack: nat, seenBack: seq<byte>)

  /** The near proxy delivers `back` and sends `forth`; the far one the other way round. */
  function PassedBy(c: Chain, side: Side): Passed {
    var incoming, outgoing := if side.Near? then c.back else c.forth, if side.Near? then c.forth else c.back;
    Passed(incoming.delivered, incoming.count2, incoming.seen2, outgoing.sent1, outgoing.count1, outgoing.seen1)
  }

  /** Neither of its directions runs. */
  predicate Ended(c: Chain, side: Side) {
    match side
    case Near => !c.forth.up && !c.back.down
    case Far => !c.forth.down && !c.back.up
  }

  lemma StopEndsBoth(c: Chain, side: Side)
    ensures Ended(Next(c, Stop(side)), side) && PassedBy(Next(c, Stop(side)), side) == PassedBy(c, side)
  {
  }

  lemma EndedPassesNothing(c: Chain, step: Step, side: Side)
    requires Ended(c, side)
    ensures Ended(Next(c, step), side) && PassedBy(Next(c, step), side) == PassedBy(c, side)
  {
  }

  /** Once a proxy has stopped, whichever direction ended it and whatever happens later, it delivers, sends and
      counts nothing more in either direction. */
  lemma {:induction false} StoppedPassesNothing(steps: seq<Step>, side: Side, later: seq<Step>)
    ensures var c := Exec(steps + [Stop(side)] + later);
            Ended(c, side) && PassedBy(c, side) == PassedBy(Exec(steps), side)
  {
    var stopped := steps + [Stop(side)];
    if later == [] {
      assert stopped + later == stopped && stopped[..|steps|] == steps;
      StopEndsBoth(Exec(steps), side);
    } else {
      var init, last := later[..|later| - 1], later[|later| - 1];
      StoppedPassesNothing(steps, side, init);
      assert (stopped + later)[..|stopped + later| - 1] == stopped + init;
      EndedPassesNothing(Exec(stopped + init), last, side);
    }
  }

  /** A proxy's two directions start and end together. */
  lemma {:induction false} DirectionsEndTogether(steps: seq<Step>)
    ensures var c := Exec(steps); c.forth.up == c.back.down && c.forth.down == c.back.up
  {
    if steps != [] {
      DirectionsEndTogether(steps[..|steps| - 1]);
    }
  }

  function ExecWay(w: Way, steps: seq<WayStep>): Way {
    if steps == [] then w else NextWay(ExecWay(w, steps[..|steps| - 1]), steps[|steps| - 1])
  }

  /** What the two proxies do themselves. */
  predicate ProxyStep(step: WayStep) {
    step.Read? || step.DecodeInbound? || step.SendWs? || step.ReceiveWs? || step.EncodeHeld? || step.Flush?
  }

  /** A message on the wire costs two steps and every byte of it one flush at most. */
  function WireWork(m: WsMessage): nat {
    2 + |WireData(m)|
  }

  /** An upper bound on the steps left. A byte gets cheaper as it moves on. */
  function Work(w: Way): int {
    6 * (|w.written| - w.read) + 5 * |w.inbound|
    + (if w.held1.Some? then 3 + |w.held1.value| else 0)
    + Sum(WireWork, w.wire)
    + (if w.held2.Some? then 1 + |w.held2.value| else 0)
    + |w.outbound|
  }

  lemma WireWorkMoves(wire: seq<WsMessage>, m: WsMessage)
    ensures Sum(WireWork, wire + [m]) == Sum(WireWork, wire) + WireWork(m)
    ensures wire != [] ==> Sum(WireWork, wire) == WireWork(wire[0]) + Sum(WireWork, wire[1..])
  {
    assert (wire + [m])[..|wire|] == wire;
    if wire != [] {
      assert wire == [wire[0]] + wire[1..];
      SumAppend(WireWork, [wire[0]], wire[1..]);
      assert [wire[0]][..0] == [];
    }
  }

  predicate Cheaper(w: Way, next: Way) {
    && (next != w ==> Work(next) < Work(w))
    && next.written == w.written && next.up == w.up && next.down == w.down
  }

  lemma ReadWorks(w: Way, n: nat)
    ensures Cheaper(w, NextWay(w, Read(n)))
  {
    if n == 0 && w.read <= |w.written| {
      assert w.inbound + w.written[w.read..w.read + n] == w.inbound;
    }
  }

  lemma DecodeWorks(w: Way)
    ensures Cheaper(w, NextWay(w, DecodeInbound))
  {
  }

  lemma SendWorks(w: Way)
    ensures Cheaper(w, NextWay(w, SendWs))
  {
    if w.held1.Some? {
      WireWorkMoves(w.wire, WsBinary(w.held1.value));
    }
  }

  lemma ReceiveWorks(w: Way)
    ensures Cheaper(w, NextWay(w, ReceiveWs))
  {
    WireWorkMoves(w.wire, Control);
  }

  lemma EncodeWorks(w: Way)
    ensures Cheaper(w, NextWay(w, EncodeHeld))
  {
  }

  lemma FlushWorks(w: Way, n: nat)
    ensures Cheaper(w, NextWay(w, Flush(n)))
  {
    if n == 0 {
      assert w.outbound[n..] == w.outbound && w.delivered + w.outbound[..n] == w.delivered;
    }
  }

  lemma ProxyStepWorks(w: Way, step: WayStep)
    requires ProxyStep(step)
    ensures Cheaper(w, NextWay(w, step))
  {
    match step
    case Read(n) => ReadWorks(w, n);
    case DecodeInbound => DecodeWorks(w);
    case SendWs => SendWorks(w);
    case ReceiveWs => ReceiveWorks(w);
    case EncodeHeld => EncodeWorks(w);
    case Flush(n) => FlushWorks(w, n);
  }

  /** Nothing the proxies could do would change anything. */
  predicate Stuck(w: Way) {
    && NextWay(w, DecodeInbound) == NextWay(w, SendWs) == NextWay(w, ReceiveWs) == NextWay(w, EncodeHeld) == w
    && (w.read < |w.written| ==> NextWay(w, Read(1)) == w)
    && (w.outbound != [] ==> NextWay(w, Flush(1)) == w)
  }

  lemma StuckMeansDelivered(w: Way)
    requires WayInv(w) && w.up && w.down && Stuck(w)
    ensures w.delivered == w.written && w.count1 == w.sent1 && w.count2 == |w.written|
  {
    var read, flushed, received := NextWay(w, Read(1)), NextWay(w, Flush(1)), NextWay(w, ReceiveWs);
    assert w.read < |w.written| ==> read.read == w.read + 1;
    assert w.outbound != [] ==> |flushed.outbound| == |w.outbound| - 1;
    assert w.held2.None? && w.outbound == [] && w.wire != [] ==> |received.wire| == |w.wire| - 1;
    assert w.written[..w.read] == w.written;
  }

  /** From any point with both proxies up, whatever the order in which they work: no schedule has more than
      `Work` steps that do something, and where none is left everything written has been delivered, and the
      far counter is exactly that. */
  lemma {:induction false} AnyScheduleDelivers(w: Way, steps: seq<WayStep>)
    requires WayInv(w) && w.up && w.down
    requires forall step :: step in steps ==> ProxyStep(step)
    requires forall k :: 0 <= k < |steps| ==> NextWay(ExecWay(w, steps[..k]), steps[k]) != ExecWay(w, steps[..k])
    ensures var end := ExecWay(w, steps);
            && WayInv(end) && end.up && end.down && end.written == w.written
            && 0 <= Work(end) <= Work(w) - |steps|
            && (Stuck(end) ==> end.delivered == w.written && end.count2 == |w.written|)
  {
    if steps != [] {
      var init, last := steps[..|steps| - 1], steps[|steps| - 1];
      assert forall k :: 0 <= k < |init| ==> init[..k] == steps[..k];
      AnyScheduleDelivers(w, init);
      ProxyStepWorks(ExecWay(w, init), last);
      WayStepKeepsInv(ExecWay(w, init), last);
    }
    if Stuck(ExecWay(w, steps)) {
      StuckMeansDelivered(ExecWay(w, steps));
    }
  }
}
