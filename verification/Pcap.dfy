/** The pcap file written for one connection: global header, packet records, and the queue-to-file writer. */
module Pcap {
  import opened Bytes
  import opened Packet

  datatype Direction = ClientToTarget | TargetToClient

  datatype Timestamp = Timestamp(secs: nat, micros: u32)

  /** One queued observation. */
  datatype Message = Message(direction: Direction, data: seq<byte>, at: Timestamp)

  datatype Link = Link(client: Endpoint, target: Endpoint) {
    function Source(d: Direction): Endpoint {
      if d.ClientToTarget? then client else target
    }

    function Dest(d: Direction): Endpoint {
      if d.ClientToTarget? then target else client
    }
  }

  datatype Record = Record(secs: u32, micros: u32, frame: seq<byte>)

  // ---------- file format ----------

  function GlobalHeader(): (h: seq<byte>)
    ensures |h| == 24
  {
    Le32(0xa1b2c3d4) + Le16(2) + Le16(4) + Le32(0) + Le32(0) + Le32(65535) + Le32(1)
  }

  function EncodeRecord(r: Record): (s: seq<byte>)
    ensures |s| == 16 + |r.frame|
  {
    var length := |r.frame| % 0x1_0000_0000;
    Le32(r.secs) + Le32(r.micros) + Le32(length) + Le32(length) + r.frame
  }

  /** Reads one record off the front. It does not compare lengths with the written snaplen: a full
      frame exceeds it. */
  function ParseRecord(s: seq<byte>): (r: Option<Record>)
    ensures r.Some? ==> 16 + |r.value.frame| <= |s|
  {
    if |s| < 16 then None
    else
      var included := FromLe32(s[8..12]);
      if included != FromLe32(s[12..16]) || |s| < 16 + included then None
      else Some(Record(FromLe32(s[..4]), FromLe32(s[4..8]), s[16..16 + included]))
  }

  function ParseRecords(s: seq<byte>): Option<seq<Record>> {
    if s == [] then Some([])
    else match ParseRecord(s)
         case None => None
         case Some(r) =>
           match ParseRecords(s[16 + |r.frame|..])
           case None => None
           case Some(rest) => Some([r] + rest)
  }

  function ParseFile(s: seq<byte>): Option<seq<Record>> {
    if |s| < 24 || s[..24] != GlobalHeader() then None else ParseRecords(s[24..])
  }

  lemma RecordRoundTrip(r: Record, rest: seq<byte>)
    requires |r.frame| < 0x1_0000_0000
    ensures ParseRecord(EncodeRecord(r) + rest) == Some(r)
    ensures (EncodeRecord(r) + rest)[16 + |r.frame|..] == rest
  {
    var s := EncodeRecord(r) + rest;
    assert s[..4] == Le32(r.secs) && s[4..8] == Le32(r.micros);
    assert s[8..12] == Le32(|r.frame|) && s[12..16] == Le32(|r.frame|);
    Le32RoundTrip(r.secs);
    Le32RoundTrip(r.micros);
    Le32RoundTrip(|r.frame|);
    assert s[16..16 + |r.frame|] == r.frame;
  }

  lemma {:induction false} RecordsRoundTrip(rs: seq<Record>)
    requires forall r :: r in rs ==> |r.frame| < 0x1_0000_0000
    ensures ParseRecords(FlatMap(EncodeRecord, rs)) == Some(rs)
  {
    if rs != [] {
      RecordsRoundTrip(rs[1..]);
      RecordRoundTrip(rs[0], FlatMap(EncodeRecord, rs[1..]));
      FlatMapAppend(EncodeRecord, [rs[0]], rs[1..]);
      FlatMapOne(EncodeRecord, rs[0]);
      assert [rs[0]] + rs[1..] == rs;
    }
  }

  // ---------- from messages to records ----------

  function ChunkSize(data: seq<byte>): (n: nat)
    ensures n <= |data|
    ensures data != [] ==> 0 < n
  {
    if |data| <= MAX_PAYLOAD then |data| else MAX_PAYLOAD
  }

  /** Splits a message into datagram-sized chunks; an empty message has none. */
  function Chunks(data: seq<byte>): (cs: seq<seq<byte>>)
    ensures forall c :: c in cs ==> 0 < |c| <= MAX_PAYLOAD
  {
    if data == [] then [] else [data[..ChunkSize(data)]] + Chunks(data[ChunkSize(data)..])
  }

  lemma ChunkStep<R>(f: seq<byte> -> R, data: seq<byte>)
    requires data != []
    ensures data == data[..ChunkSize(data)] + data[ChunkSize(data)..]
    ensures Map(f, Chunks(data)) == [f(data[..ChunkSize(data)])] + Map(f, Chunks(data[ChunkSize(data)..]))
  {
  }

  /** How one chunk of a message becomes a record. */
  function Recorder(link: Link, m: Message): seq<byte> -> Record {
    chunk => Record(m.at.secs % 0x1_0000_0000, m.at.micros,
                    Frame(link.Source(m.direction), link.Dest(m.direction), chunk))
  }

  function MessageRecords(link: Link): Message -> seq<Record> {
    m => Map(Recorder(link, m), Chunks(m.data))
  }

  function CaptureRecords(link: Link, messages: seq<Message>): seq<Record> {
    FlatMap(MessageRecords(link), messages)
  }

  function CaptureFile(link: Link, messages: seq<Message>): seq<byte> {
    GlobalHeader() + FlatMap(EncodeRecord, CaptureRecords(link, messages))
  }

  class OutputFile {
    var bytes: seq<byte>

    constructor ()
      ensures bytes == []
    {
      bytes := [];
    }

    method WriteAll(data: seq<byte>)
      modifies this
      ensures bytes == old(bytes) + data
    {
      bytes := bytes + data;
    }

    method WritePacket(at: Timestamp, packet: seq<byte>)
      modifies this
      ensures bytes == old(bytes) + EncodeRecord(Record(at.secs % 0x1_0000_0000, at.micros, packet))
    {
      var length := |packet| % 0x1_0000_0000;
      WriteAll(Le32(at.secs % 0x1_0000_0000) + Le32(at.micros) + Le32(length) + Le32(length));
      WriteAll(packet);
    }
  }

  /** Builds and writes one chunk. */
  method WriteChunk(file: OutputFile, link: Link, m: Message, chunk: seq<byte>)
    modifies file
    ensures file.bytes == old(file.bytes) + EncodeRecord(Recorder(link, m)(chunk))
  {
    var packet := BuildUdpPacket(link.Source(m.direction), link.Dest(m.direction), chunk);
    file.WritePacket(m.at, packet[..]);
  }

  /** The chunk loop for one message. */
  method WriteMessage(file: OutputFile, link: Link, m: Message)
    modifies file
    ensures file.bytes == old(file.bytes) + FlatMap(EncodeRecord, MessageRecords(link)(m))
  {
    var rest := m.data;
    ghost var record := Recorder(link, m);
    ghost var done: seq<Record> := [];
    assert file.bytes == old(file.bytes) + FlatMap(EncodeRecord, done);
    while rest != []
      invariant done + Map(record, Chunks(rest)) == Map(record, Chunks(m.data))
      invariant file.bytes == old(file.bytes) + FlatMap(EncodeRecord, done)
      decreases |rest|
    {
      var size := ChunkSize(rest);
      ChunkStep(record, rest);
      ghost var r := record(rest[..size]);
      WriteChunk(file, link, m, rest[..size]);
      FlatMapSnoc(EncodeRecord, done, r);
      Assoc(old(file.bytes), FlatMap(EncodeRecord, done), EncodeRecord(r));
      Assoc(done, [r], Map(record, Chunks(rest[size..])));
      done, rest := done + [r], rest[size..];
    }
    assert done == Map(record, Chunks(m.data));
  }

  /** Everything the writer task takes from its queue before the finish marker ends up in the file. */
  method WriteCapture(file: OutputFile, link: Link, messages: seq<Message>)
    requires file.bytes == GlobalHeader()
    modifies file
    ensures file.bytes == CaptureFile(link, messages)
  {
    var i := 0;
    assert messages[..0] == [];
    assert CaptureRecords(link, messages[..0]) == [];
    while i < |messages|
      invariant i <= |messages|
      invariant file.bytes == CaptureFile(link, messages[..i])
    {
      CaptureFileStep(link, messages, i);
      WriteMessage(file, link, messages[i]);
      i := i + 1;
    }
    assert messages[..i] == messages;
  }

  lemma CaptureFileStep(link: Link, messages: seq<Message>, i: nat)
    requires i < |messages|
    ensures CaptureFile(link, messages[..i + 1])
         == CaptureFile(link, messages[..i]) + FlatMap(EncodeRecord, MessageRecords(link)(messages[i]))
  {
    assert messages[..i + 1] == messages[..i] + [messages[i]];
    FlatMapSnoc(MessageRecords(link), messages[..i], messages[i]);
    FlatMapAppend(EncodeRecord, CaptureRecords(link, messages[..i]), MessageRecords(link)(messages[i]));
  }

  // ---------- what a reader of the file recovers ----------

  /** The UDP payload of a record, provided its addresses satisfy `keep`. */
  function PayloadIf(keep: (Endpoint, Endpoint) -> bool): Record -> seq<byte> {
    (r: Record) => match ParseFrame(r.frame)
         case Some(d) => if keep(d.source, d.dest) then d.payload else []
         case None => []
  }

  function DataIf(want: Direction -> bool): Message -> seq<byte> {
    (m: Message) => if want(m.direction) then m.data else []
  }

  lemma PayloadOfChunk(link: Link, m: Message, chunk: seq<byte>, keep: (Endpoint, Endpoint) -> bool)
    requires |chunk| <= MAX_PAYLOAD
    ensures PayloadIf(keep)(Recorder(link, m)(chunk))
         == if keep(link.Source(m.direction), link.Dest(m.direction)) then chunk else []
  {
    FrameRoundTrip(link.Source(m.direction), link.Dest(m.direction), chunk);
  }

  lemma {:induction false} ChunksRestoreData(
    link: Link, m: Message, data: seq<byte>, keep: (Endpoint, Endpoint) -> bool)
    ensures FlatMap(PayloadIf(keep), Map(Recorder(link, m), Chunks(data)))
         == if keep(link.Source(m.direction), link.Dest(m.direction)) then data else []
    decreases |data|
  {
    var record, payload := Recorder(link, m), PayloadIf(keep);
    if data != [] {
      var size := ChunkSize(data);
      ChunkStep(record, data);
      ChunksRestoreData(link, m, data[size..], keep);
      FlatMapAppend(payload, [record(data[..size])], Map(record, Chunks(data[size..])));
      FlatMapOne(payload, record(data[..size]));
      PayloadOfChunk(link, m, data[..size], keep);
    }
  }

  lemma {:induction false} PayloadOfMessages(
    link: Link, messages: seq<Message>, keep: (Endpoint, Endpoint) -> bool, want: Direction -> bool)
    requires forall d :: want(d) == keep(link.Source(d), link.Dest(d))
    ensures FlatMap(PayloadIf(keep), CaptureRecords(link, messages)) == FlatMap(DataIf(want), messages)
  {
    if messages != [] {
      var init, m := messages[..|messages| - 1], messages[|messages| - 1];
      PayloadOfMessages(link, init, keep, want);
      FlatMapAppend(PayloadIf(keep), CaptureRecords(link, init), MessageRecords(link)(m));
      ChunksRestoreData(link, m, m.data, keep);
    }
  }

  lemma {:induction false} RecordFramesBounded(link: Link, messages: seq<Message>)
    ensures forall r :: r in CaptureRecords(link, messages) ==> 42 < |r.frame| <= 65549
  {
    if messages != [] {
      RecordFramesBounded(link, messages[..|messages| - 1]);
    }
  }

  function Everything(): (Endpoint, Endpoint) -> bool {
    (s, d) => true
  }

  function Travelling(link: Link, direction: Direction): (Endpoint, Endpoint) -> bool {
    (s, d) => s == link.Source(direction) && d == link.Dest(direction)
  }

  function Any(): Direction -> bool {
    d => true
  }

  function Only(direction: Direction): Direction -> bool {
    d => d == direction
  }

  /** The capture file reads back to its records, the records carry exactly the queued bytes in order,
      and when the two ends have different addresses each direction can be told apart. */
  lemma CaptureReadsBack(link: Link, messages: seq<Message>, direction: Direction)
    ensures ParseFile(CaptureFile(link, messages)) == Some(CaptureRecords(link, messages))
    ensures FlatMap(PayloadIf(Everything()), CaptureRecords(link, messages)) == FlatMap(DataIf(Any()), messages)
    ensures link.client != link.target ==>
              FlatMap(PayloadIf(Travelling(link, direction)), CaptureRecords(link, messages))
              == FlatMap(DataIf(Only(direction)), messages)
  {
    RecordFramesBounded(link, messages);
    RecordsRoundTrip(CaptureRecords(link, messages));
    var body := FlatMap(EncodeRecord, CaptureRecords(link, messages));
    assert (GlobalHeader() + body)[..24] == GlobalHeader() && (GlobalHeader() + body)[24..] == body;
    PayloadOfMessages(link, messages, Everything(), Any());
    if link.client != link.target {
      PayloadOfMessages(link, messages, Travelling(link, direction), Only(direction));
    }
  }

  // ---------- byte by byte and chunk by chunk ----------

  /** Magic number of microsecond captures, version 2.4, no time correction, snaplen 65535, Ethernet; all
      little-endian. */
  lemma GlobalHeaderBytes()
    ensures GlobalHeader() == [0xD4, 0xC3, 0xB2, 0xA1, 2, 0, 4, 0, 0, 0, 0, 0, 0, 0, 0, 0, 0xFF, 0xFF, 0, 0, 1, 0, 0, 0]
  {
  }

  function LittleEndian(s: seq<byte>): int
    requires |s| == 4
  {
    s[0] as int + 0x100 * s[1] as int + 0x1_0000 * s[2] as int + 0x100_0000 * s[3] as int
  }

  lemma LittleEndianOf(n: u32)
    ensures LittleEndian(Le32(n)) == n
  {
    Digits(n);
  }

  lemma RecordLayout(r: Record)
    requires |r.frame| < 0x1_0000_0000
    ensures var s := EncodeRecord(r);
            && s[0..4] == Le32(r.secs) && s[4..8] == Le32(r.micros)
            && s[8..12] == s[12..16] == Le32(|r.frame|) && s[16..] == r.frame
  {
  }

  /** Seconds, microseconds, stored and original length, frame. */
  lemma RecordBytes(r: Record)
    requires |r.frame| < 0x1_0000_0000
    ensures var s := EncodeRecord(r);
            && LittleEndian(s[0..4]) == r.secs && LittleEndian(s[4..8]) == r.micros
            && LittleEndian(s[8..12]) == LittleEndian(s[12..16]) == |r.frame| && s[16..] == r.frame
  {
    RecordLayout(r);
    LittleEndianOf(r.secs);
    LittleEndianOf(r.micros);
    LittleEndianOf(|r.frame|);
  }

  /** Every record of a message has the message's time and the addresses of its direction: from the client's
      end to the target's for traffic to the target, the other way round for the answers. */
  lemma RecordsTellDirection(link: Link, m: Message, k: nat)
    requires k < |MessageRecords(link)(m)|
    ensures var r := MessageRecords(link)(m)[k];
            && r.secs == m.at.secs % 0x1_0000_0000 && r.micros == m.at.micros
            && ParseFrame(r.frame).Some?
            && (m.direction == ClientToTarget ==>
                  ParseFrame(r.frame).value.source == link.client && ParseFrame(r.frame).value.dest == link.target)
            && (m.direction == TargetToClient ==>
                  ParseFrame(r.frame).value.source == link.target && ParseFrame(r.frame).value.dest == link.client)
  {
    var chunk := Chunks(m.data)[k];
    assert chunk in Chunks(m.data);
    FrameRoundTrip(link.Source(m.direction), link.Dest(m.direction), chunk);
  }

  /** All chunks but the last are full. */
  lemma {:induction false} ChunksAreFull(data: seq<byte>, k: nat)
    requires k < |Chunks(data)|
    ensures k + 1 < |Chunks(data)| ==> |Chunks(data)[k]| == 65507
    ensures k + 1 == |Chunks(data)| ==> |Chunks(data)[k]| == |data| - 65507 * k
    decreases k
  {
    if k > 0 {
      ChunksAreFull(data[ChunkSize(data)..], k - 1);
    }
  }

  /** The longest record the global header announces. */
  function Snaplen(): u32 {
    FromLe32(GlobalHeader()[16..20])
  }

  lemma SnaplenIs65535()
    ensures Snaplen() == 65535
  {
    assert GlobalHeader()[16..20] == Le32(65535);
    Le32RoundTrip(65535);
  }

  predicate Respects(rs: seq<Record>) {
    forall r :: r in rs ==> |r.frame| <= Snaplen()
  }

  lemma MessageRespectsIff(link: Link, m: Message)
    ensures Respects(MessageRecords(link)(m)) <==> |m.data| <= 65493
  {
    SnaplenIs65535();
    if m.data != [] {
      ChunkStep(Recorder(link, m), m.data);
      var first := Recorder(link, m)(m.data[..ChunkSize(m.data)]);
      assert |first.frame| == 42 + ChunkSize(m.data);
      var rest := Map(Recorder(link, m), Chunks(m.data[ChunkSize(m.data)..]));
      RespectsBoth([first], rest);
      assert first in [first];
    }
  }

  predicate AllShort(messages: seq<Message>) {
    forall k :: 0 <= k < |messages| ==> |messages[k].data| <= 65493
  }

  lemma AllShortSnoc(init: seq<Message>, m: Message)
    ensures AllShort(init + [m]) <==> AllShort(init) && |m.data| <= 65493
  {
    var all := init + [m];
    assert all[|init|] == m && forall k :: 0 <= k < |init| ==> all[k] == init[k];
  }

  /** A record is longer than announced exactly when some message has more than 65493 bytes. */
  lemma {:induction false} SnaplenRespectedIff(link: Link, messages: seq<Message>)
    ensures Respects(CaptureRecords(link, messages)) <==> AllShort(messages)
  {
    if messages != [] {
      var init, m := messages[..|messages| - 1], messages[|messages| - 1];
      SnaplenRespectedIff(link, init);
      MessageRespectsIff(link, m);
      AllShortSnoc(init, m);
      assert messages == init + [m];
      FlatMapSnoc(MessageRecords(link), init, m);
      RespectsBoth(CaptureRecords(link, init), MessageRecords(link)(m));
    }
  }

  lemma RespectsBoth(a: seq<Record>, b: seq<Record>)
    ensures Respects(a + b) <==> Respects(a) && Respects(b)
  {
    assert forall r :: r in a ==> r in a + b;
    assert forall r :: r in b ==> r in a + b;
  }

  /** The greatest excess is that of a maximal chunk. */
  lemma FullFrameExceedsSnaplen(link: Link, m: Message)
    requires |m.data| >= MAX_PAYLOAD
    ensures var rs := MessageRecords(link)(m);
            |rs| > 0 && |rs[0].frame| == 65549 > Snaplen()
  {
    SnaplenIs65535();
  }
}
