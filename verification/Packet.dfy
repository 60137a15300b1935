/** The Ethernet/IPv4/UDP frame that carries one captured chunk, and its header checksum. */
module Packet {
  import opened Bytes

  /** Largest payload whose IPv4 total length (20 + 8 + payload) still fits 16 bits. */
  const MAX_PAYLOAD := 65507

  type Ipv4 = s: seq<byte> | |s| == 4 witness [0, 0, 0, 0]

  datatype Endpoint = Endpoint(ip: Ipv4, port: u16)

  datatype Datagram = Datagram(source: Endpoint, dest: Endpoint, payload: seq<byte>)

  // ---------- one's-complement checksum ----------

  function Word(s: seq<byte>, i: nat): u16
    requires 2 * i + 1 < |s|
  {
    FromBe16(s[2 * i..2 * i + 2])
  }

  /** Plain sum of the first `n` big-endian words. */
  function WordSum(s: seq<byte>, n: nat): (sum: nat)
    requires 2 * n <= |s|
    ensures sum <= 65535 * n
  {
    if n == 0 then 0 else WordSum(s, n - 1) + Word(s, n - 1)
  }

  /** End-around carry until the sum fits 16 bits. */
  function Fold(sum: nat): (r: u16)
    ensures r % 65535 == sum % 65535
    ensures r == 0 <==> sum == 0
  {
    if sum < 65536 then sum else Fold(sum % 65536 + sum / 65536)
  }

  function Checksum(header: seq<byte>): u16 {
    65535 - Fold(WordSum(header, |header| / 2))
  }

  /** A receiver accepts a header whose words, checksum included, fold to all ones. */
  predicate Accepted(header: seq<byte>) {
    Fold(WordSum(header, |header| / 2)) == 0xFFFF
  }

  /** The sum is kept in 32 bits, so the header must have at most 65537 words. */
  method Ipv4Checksum(header: seq<byte>) returns (checksum: u16)
    requires |header| / 2 <= 65537
    ensures checksum == Checksum(header)
  {
    var sum: u32 := 0;
    var i := 0;
    while i < |header| / 2
      invariant i <= |header| / 2
      invariant sum == WordSum(header, i)
    {
      sum := sum + FromBe16(header[2 * i..2 * i + 2]);
      i := i + 1;
    }
    while sum / 65536 != 0
      invariant Fold(sum) == Fold(WordSum(header, |header| / 2))
      decreases sum
    {
      sum := sum % 65536 + sum / 65536;
    }
    checksum := 65535 - sum;
  }

  lemma FoldsToOnesIff(sum: nat)
    ensures Fold(sum) == 0xFFFF <==> sum > 0 && sum % 65535 == 0
  {
  }

  function WithWord(s: seq<byte>, i: nat, w: u16): (t: seq<byte>)
    requires 2 * i + 1 < |s|
    ensures |t| == |s|
  {
    s[2 * i := w / 256][2 * i + 1 := w % 256]
  }

  lemma {:induction false} WordSumWithWord(s: seq<byte>, i: nat, w: u16, n: nat)
    requires 2 * i + 1 < |s| && 2 * n <= |s|
    ensures WordSum(WithWord(s, i, w), n)
         == if i < n then WordSum(s, n) - Word(s, i) + w else WordSum(s, n)
  {
    if n > 0 {
      WordSumWithWord(s, i, w, n - 1);
      assert i != n - 1 ==> WithWord(s, i, w)[2 * (n - 1)..2 * n] == s[2 * (n - 1)..2 * n];
      assert Word(WithWord(s, i, w), i) == w;
    }
  }

  /** Writing the checksum over a zero word makes any header acceptable. */
  lemma ChecksumCompletesHeader(header: seq<byte>, i: nat)
    requires 2 * i + 1 < |header|
    requires Word(header, i) == 0
    ensures Accepted(WithWord(header, i, Checksum(header)))
  {
    var n := |header| / 2;
    WordSumWithWord(header, i, Checksum(header), n);
    assert |WithWord(header, i, Checksum(header))| / 2 == n;
    CompletedSum(WordSum(header, n));
  }

  lemma CompletedSum(sum: nat)
    ensures Fold(sum + (65535 - Fold(sum))) == 0xFFFF
  {
    CongruentComplement(sum, Fold(sum));
    FoldsToOnesIff(sum + (65535 - Fold(sum)));
  }

  lemma CongruentComplement(sum: nat, r: u16)
    requires r % 65535 == sum % 65535 && (r == 0 <==> sum == 0)
    ensures sum + (65535 - r) > 0 && (sum + (65535 - r)) % 65535 == 0
  {
  }

  /** Which single-word corruptions a receiver notices: all of them except swapping the two
      one's-complement zeros. */
  lemma AcceptedAfterCorruptionIff(header: seq<byte>, i: nat, w: u16)
    requires 2 * i + 1 < |header|
    requires Accepted(header)
    requires exists j :: 0 <= j < |header| / 2 && j != i && Word(header, j) != 0
    ensures Accepted(WithWord(header, i, w))
       <==> w == Word(header, i) || {w, Word(header, i)} == {0, 0xFFFF}
  {
    var n := |header| / 2;
    var j :| 0 <= j < n && j != i && Word(header, j) != 0;
    var rest := WordSum(WithWord(header, i, 0), n);
    WordSumWithWord(header, i, w, n);
    WordSumWithWord(header, i, 0, n);
    assert WithWord(header, i, 0)[2 * j..2 * j + 2] == header[2 * j..2 * j + 2];
    WordSumPositive(WithWord(header, i, 0), j, n);
    assert |WithWord(header, i, w)| / 2 == n;
    AllOnesAfterChange(rest, Word(header, i), w);
  }

  lemma AllOnesAfterChange(rest: nat, v: u16, w: u16)
    requires rest > 0 && Fold(rest + v) == 0xFFFF
    ensures Fold(rest + w) == 0xFFFF <==> w == v || {w, v} == {0, 0xFFFF}
  {
    FoldsToOnesIff(rest + v);
    FoldsToOnesIff(rest + w);
    CongruentWords(rest, v, w);
    if {w, v} == {0, 0xFFFF} {
      assert w in {0, 0xFFFF} && v in {0, 0xFFFF};
      assert 0 in {w, v} && 0xFFFF in {w, v};
    }
  }

  lemma CongruentWords(rest: nat, v: u16, w: u16)
    requires (rest + v) % 65535 == 0
    ensures (rest + w) % 65535 == 0 <==> w == v || (w == 0 && v == 65535) || (w == 65535 && v == 0)
  {
  }

  lemma {:induction false} WordSumPositive(s: seq<byte>, j: nat, n: nat)
    requires j < n && 2 * n <= |s|
    requires Word(s, j) != 0
    ensures WordSum(s, n) > 0
  {
    if j < n - 1 {
      WordSumPositive(s, j, n - 1);
    }
  }

  // ---------- the frame ----------

  function IpHeader(totalLength: u16, checksum: u16, source: Ipv4, dest: Ipv4): (h: seq<byte>)
    ensures |h| == 20
  {
    [0x45, 0] + Be16(totalLength) + [0, 0] + Be16(0x4000) + [64, 17] + Be16(checksum) + source + dest
  }

  lemma HeaderPatched(totalLength: u16, checksum: u16, source: Ipv4, dest: Ipv4)
    ensures IpHeader(totalLength, checksum, source, dest)
         == WithWord(IpHeader(totalLength, 0, source, dest), 5, checksum)
  {
  }

  function UdpHeader(source: u16, dest: u16, length: u16): (h: seq<byte>)
    ensures |h| == 8
  {
    Be16(source) + Be16(dest) + Be16(length) + [0, 0]
  }

  /** Both length fields are narrowed to 16 bits, as the casts in the builder do. */
  function Frame(source: Endpoint, dest: Endpoint, payload: seq<byte>): (f: seq<byte>)
    ensures |f| == 42 + |payload|
  {
    var totalLength := (28 + |payload|) % 65536;
    var checksum := Checksum(IpHeader(totalLength, 0, source.ip, dest.ip));
    seq(12, _ => 0) + Be16(0x0800)
    + IpHeader(totalLength, checksum, source.ip, dest.ip)
    + UdpHeader(source.port, dest.port, (8 + |payload|) % 65536)
    + payload
  }

  method CopyInto(buffer: array<byte>, at: nat, bytes: seq<byte>)
    requires at + |bytes| <= buffer.Length
    modifies buffer
    ensures forall k :: 0 <= k < buffer.Length ==>
              buffer[k] == if at <= k < at + |bytes| then bytes[k - at] else old(buffer[k])
  {
    forall k | 0 <= k < |bytes| {
      buffer[at + k] := bytes[k];
    }
  }

  lemma HeaderFromParts(h: seq<byte>, totalLength: u16, source: Ipv4, dest: Ipv4)
    requires |h| == 20
    requires h[0] == 0x45 && h[1] == 0 && h[2] == totalLength / 256 && h[3] == totalLength % 256
    requires h[4] == 0 && h[5] == 0 && h[6] == 0x40 && h[7] == 0 && h[8] == 64 && h[9] == 17
    requires h[10] == 0 && h[11] == 0
    requires forall k :: 0 <= k < 4 ==> h[12 + k] == source[k] && h[16 + k] == dest[k]
    ensures h == IpHeader(totalLength, 0, source, dest)
  {
    assert h[12..16] == source && h[16..20] == dest;
    assert h[..12] == [0x45, 0] + Be16(totalLength) + [0, 0] + Be16(0x4000) + [64, 17] + Be16(0);
    assert h == h[..12] + h[12..16] + h[16..20];
  }

  /** Everything but the checksum, over a buffer that is still zero there. */
  method FillIpFields(packet: array<byte>, totalLength: u16, source: Ipv4, dest: Ipv4)
    requires packet.Length >= 34
    requires forall k :: 14 <= k < 34 ==> packet[k] == 0
    modifies packet
    ensures packet[14..34] == IpHeader(totalLength, 0, source, dest)
    ensures forall k :: 0 <= k < packet.Length && !(14 <= k < 34) ==> packet[k] == old(packet[k])
  {
    packet[14] := 0x45;
    CopyInto(packet, 16, Be16(totalLength));
    CopyInto(packet, 20, Be16(0x4000));
    packet[22], packet[23] := 64, 17;
    CopyInto(packet, 26, source);
    CopyInto(packet, 30, dest);
    HeaderFromParts(packet[14..34], totalLength, source, dest);
  }

  /** Fills bytes 14..34, checksum last. */
  method FillIpHeader(packet: array<byte>, totalLength: u16, source: Ipv4, dest: Ipv4)
    requires packet.Length >= 34
    requires forall k :: 14 <= k < 34 ==> packet[k] == 0
    modifies packet
    ensures packet[14..34]
         == IpHeader(totalLength, Checksum(IpHeader(totalLength, 0, source, dest)), source, dest)
    ensures forall k :: 0 <= k < packet.Length && !(14 <= k < 34) ==> packet[k] == old(packet[k])
  {
    FillIpFields(packet, totalLength, source, dest);
    var checksum := Ipv4Checksum(packet[14..34]);
    ghost var before := packet[14..34];
    CopyInto(packet, 24, Be16(checksum));
    assert forall k :: 14 <= k < 34 && k != 24 && k != 25 ==> packet[k] == before[k - 14];
    HeaderPatched(totalLength, checksum, source, dest);
    assert packet[14..34] == WithWord(before, 5, checksum);
  }

  method FillUdp(packet: array<byte>, source: u16, dest: u16, payload: seq<byte>)
    requires packet.Length == 42 + |payload|
    requires packet[40] == 0 && packet[41] == 0
    modifies packet
    ensures packet[34..] == UdpHeader(source, dest, (8 + |payload|) % 65536) + payload
    ensures forall k :: 0 <= k < 34 ==> packet[k] == old(packet[k])
  {
    CopyInto(packet, 34, Be16(source));
    CopyInto(packet, 36, Be16(dest));
    CopyInto(packet, 38, Be16((8 + |payload|) % 65536));
    CopyInto(packet, 42, payload);
    assert packet[34..42] == UdpHeader(source, dest, (8 + |payload|) % 65536);
    assert packet[42..] == payload;
    assert packet[34..] == packet[34..42] + packet[42..];
  }

  method BuildUdpPacket(source: Endpoint, dest: Endpoint, payload: seq<byte>) returns (packet: array<byte>)
    ensures fresh(packet)
    ensures packet[..] == Frame(source, dest, payload)
  {
    var ipLength := 28 + |payload|;
    packet := new byte[14 + ipLength](_ => 0);
    CopyInto(packet, 12, Be16(0x0800));
    FillIpHeader(packet, ipLength % 65536, source.ip, dest.ip);
    FillUdp(packet, source.port, dest.port, payload);
    assert packet[..14] == seq(12, _ => 0) + Be16(0x0800);
    assert packet[..] == packet[..14] + packet[14..34] + packet[34..];
  }

  // ---------- an independent reader ----------

  /** Reads a frame back; it insists on the length fields, the protocol and the header checksum. */
  function ParseFrame(f: seq<byte>): Option<Datagram> {
    if |f| < 42 || f[12..14] != [0x08, 0x00] || f[14] != 0x45 || f[23] != 17 then None
    else if !Accepted(f[14..34]) then None
    else
      var totalLength := FromBe16(f[16..18]);
      var udpLength := FromBe16(f[38..40]);
      if totalLength != |f| - 14 || udpLength != totalLength - 20 then None
      else Some(Datagram(
        Endpoint(f[26..30], FromBe16(f[34..36])),
        Endpoint(f[30..34], FromBe16(f[36..38])),
        f[42..]))
  }

  lemma BuiltHeaderAccepted(totalLength: u16, source: Ipv4, dest: Ipv4)
    ensures var h := IpHeader(totalLength, 0, source, dest);
            Accepted(IpHeader(totalLength, Checksum(h), source, dest))
  {
    var h := IpHeader(totalLength, 0, source, dest);
    ChecksumCompletesHeader(h, 5);
    HeaderPatched(totalLength, Checksum(h), source, dest);
  }

  /** Where the fields of a frame are. */
  lemma FrameFields(source: Endpoint, dest: Endpoint, payload: seq<byte>)
    ensures var f := Frame(source, dest, payload);
            var totalLength := (28 + |payload|) % 65536;
            && f[12..14] == [0x08, 0x00]
            && f[14..34] == IpHeader(totalLength, Checksum(IpHeader(totalLength, 0, source.ip, dest.ip)), source.ip, dest.ip)
            && f[34..42] == UdpHeader(source.port, dest.port, (8 + |payload|) % 65536)
            && f[42..] == payload
  {
  }

  lemma IpFields(f: seq<byte>, totalLength: u16, checksum: u16, source: Ipv4, dest: Ipv4)
    requires |f| >= 42 && f[14..34] == IpHeader(totalLength, checksum, source, dest)
    ensures f[14] == 0x45 && f[23] == 17 && FromBe16(f[16..18]) == totalLength
    ensures f[26..30] == source && f[30..34] == dest
  {
    var h := f[14..34];
    assert f[16..18] == h[2..4] == Be16(totalLength);
    assert f[26..30] == h[12..16] && f[30..34] == h[16..20];
    assert f[14] == h[0] && f[23] == h[9];
  }

  lemma UdpFields(f: seq<byte>, source: u16, dest: u16, length: u16)
    requires |f| >= 42 && f[34..42] == UdpHeader(source, dest, length)
    ensures FromBe16(f[34..36]) == source && FromBe16(f[36..38]) == dest && FromBe16(f[38..40]) == length
  {
    var h := f[34..42];
    assert h == [source / 256, source % 256, dest / 256, dest % 256, length / 256, length % 256, 0, 0];
    assert f[34..36] == [h[0], h[1]] && f[36..38] == [h[2], h[3]] && f[38..40] == [h[4], h[5]];
  }

  /** A built frame reads back to the datagram exactly when its payload keeps the 16-bit bound. */
  lemma FrameRoundTrip(source: Endpoint, dest: Endpoint, payload: seq<byte>)
    ensures ParseFrame(Frame(source, dest, payload))
         == if |payload| <= 65507 then Some(Datagram(source, dest, payload)) else None
  {
    var totalLength := (28 + |payload|) % 65536;
    var checksum := Checksum(IpHeader(totalLength, 0, source.ip, dest.ip));
    var f := Frame(source, dest, payload);
    FrameFields(source, dest, payload);
    BuiltHeaderAccepted(totalLength, source.ip, dest.ip);
    IpFields(f, totalLength, checksum, source.ip, dest.ip);
    UdpFields(f, source.port, dest.port, (8 + |payload|) % 65536);
  }

  // ---------- byte by byte ----------

  /** The fields a reader does not need: addresses of the link layer, identification, "don't fragment", hop
      limit and the unused UDP checksum. */
  lemma FixedBytes(source: Endpoint, dest: Endpoint, payload: seq<byte>)
    ensures var f := Frame(source, dest, payload);
            && (forall i :: 0 <= i < 12 ==> f[i] == 0)
            && f[12] == 0x08 && f[13] == 0x00
            && f[14..16] == [0x45, 0] && f[18..24] == [0, 0, 0x40, 0, 64, 17]
            && f[40..42] == [0, 0]
  {
    FrameFields(source, dest, payload);
    var f := Frame(source, dest, payload);
    var h, u := f[14..34], f[34..42];
    assert f[14..16] == h[..2] && f[18..24] == h[4..10] && f[40..42] == u[6..8];
  }

  /** A textbook header: its checksum is 0xB861. */
  lemma ChecksumOfKnownHeader(h: seq<byte>)
    requires h == [0x45, 0x00, 0x00, 0x73, 0x00, 0x00, 0x40, 0x00, 0x40, 0x11,
                   0x00, 0x00, 0xC0, 0xA8, 0x00, 0x01, 0xC0, 0xA8, 0x00, 0xC7]
    ensures Checksum(h) == 0xB861
  {
    KnownSum(h);
    assert Fold(0x2_479C) == Fold(0x479E) == 0x479E;
  }

  lemma KnownSum(h: seq<byte>)
    requires |h| == 20 && h[..10] == [0x45, 0x00, 0x00, 0x73, 0x00, 0x00, 0x40, 0x00, 0x40, 0x11]
    requires h[10..] == [0x00, 0x00, 0xC0, 0xA8, 0x00, 0x01, 0xC0, 0xA8, 0x00, 0xC7]
    ensures WordSum(h, 10) == 0x2_479C
  {
    NextWord(h, 0, 0);
    NextWord(h, 1, 0x4500);
    NextWord(h, 2, 0x4573);
    NextWord(h, 3, 0x4573);
    NextWord(h, 4, 0x8573);
    assert forall i :: 10 <= i < 20 ==> h[i] == h[10..][i - 10];
    NextWord(h, 5, 0xC584);
    NextWord(h, 6, 0xC584);
    NextWord(h, 7, 0x1_862C);
    NextWord(h, 8, 0x1_862D);
    NextWord(h, 9, 0x2_46D5);
  }

  lemma NextWord(s: seq<byte>, n: nat, sum: nat)
    requires 2 * n + 1 < |s| && WordSum(s, n) == sum
    ensures var high: int, low: int := s[2 * n], s[2 * n + 1]; WordSum(s, n + 1) == sum + 256 * high + low
  {
  }
}
