/** Synthesised UDP over IPv4: header fields, one's-complement checksums, and the truncated reply. */
module DnsPacket {
  import opened Net
  import opened Sequences
  import opened Utf8

  type U16 = v: int | 0 <= v < 0x1_0000

  datatype SocketAddr = SocketV4(octets: (Byte, Byte, Byte, Byte), port: U16) | SocketV6

  datatype Built = Packet(buf: array<Byte>) | Ipv6Unsupported | TooLarge

  const MAX_UDP_PAYLOAD := 0xFFFF - 20 - 8

  // ----- One's-complement arithmetic, RFC 1071 -----

  /** The sum of the big-endian words of some bytes, the last padded with zero. */
  function WordSum(s: seq<Byte>): nat {
    if |s| == 0 then 0
    else if |s| == 1 then s[0] * 256
    else s[0] * 256 + s[1] + WordSum(s[2..])
  }

  /** Carries added back until none is left. */
  function Fold(n: nat): (r: nat)
    ensures r < 0x1_0000
  {
    if n < 0x1_0000 then n else Fold(n / 0x1_0000 + n % 0x1_0000)
  }

  /** What folding computes: the remainder modulo 65535, with zero kept for zero alone. */
  lemma {:induction false} FoldIsRemainder(n: nat)
    ensures Fold(n) == if n == 0 then 0 else if n % 0xFFFF == 0 then 0xFFFF else n % 0xFFFF
    decreases n
  {
    if n >= 0x1_0000 {
      var q, r := n / 0x1_0000, n % 0x1_0000;
      FoldIsRemainder(q + r);
      RemainderDrops(n, q, r);
    }
  }

  lemma RemainderDrops(n: nat, q: nat, r: nat)
    requires n == q * 0x1_0000 + r
    ensures n % 0xFFFF == (q + r) % 0xFFFF
  {
    SameRemainder(n, q + r, q);
  }

  lemma SameRemainder(a: nat, b: nat, q: nat)
    requires a == b + q * 0xFFFF
    ensures a % 0xFFFF == b % 0xFFFF
  {
  }

  function Complement(n: nat): U16 {
    0xFFFF - Fold(n)
  }

  /** Data with its checksum in place sums to all ones. */
  lemma ChecksumVerifies(rest: nat)
    ensures Fold(rest + Complement(rest)) == 0xFFFF
    ensures Complement(rest) == 0 ==> Fold(rest + 0xFFFF) == 0xFFFF
  {
    FoldIsRemainder(rest);
    FoldIsRemainder(rest + Complement(rest));
    FoldIsRemainder(rest + 0xFFFF);
    SameRemainder(rest + 0xFFFF, rest, 1);
    var f := Fold(rest);
    var q := rest / 0xFFFF;
    assert rest == q * 0xFFFF + rest % 0xFFFF;
    if f == 0 {
    } else if rest % 0xFFFF == 0 {
    } else {
      SameRemainder(rest + Complement(rest), 0xFFFF, q);
    }
  }

  lemma {:induction false} WordSumConcat(a: seq<Byte>, b: seq<Byte>)
    requires |a| % 2 == 0
    ensures WordSum(a + b) == WordSum(a) + WordSum(b)
  {
    if |a| == 0 {
      assert a + b == b;
    } else {
      WordSumConcat(a[2..], b);
      assert (a + b)[2..] == a[2..] + b;
    }
  }

  // ----- The packet -----

  function Join(high: int, low: int): int {
    high * 256 + low
  }

  function Be16(v: U16): seq<Byte> {
    [v / 256, v % 256]
  }

  function Word(s: seq<Byte>, i: nat): U16
    requires i + 2 <= |s|
  {
    Join(s[i], s[i + 1])
  }

  function Octets(o: (Byte, Byte, Byte, Byte)): seq<Byte> {
    [o.0, o.1, o.2, o.3]
  }

  /** Section 3.1 of RFC 791: version 4, five words, no options, don't-fragment, ttl 64, protocol UDP. */
  function IpHeader(src: SocketAddr, dst: SocketAddr, total: U16, checksum: U16): seq<Byte>
    requires src.SocketV4? && dst.SocketV4?
  {
    [0x45, 0] + Be16(total) + [0, 0, 0x40, 0, 64, 17] + Be16(checksum) + Octets(src.octets) + Octets(dst.octets)
  }

  /** RFC 768. */
  function UdpHeader(src: SocketAddr, dst: SocketAddr, len: U16, checksum: U16): seq<Byte>
    requires src.SocketV4? && dst.SocketV4?
  {
    Be16(src.port) + Be16(dst.port) + Be16(len) + Be16(checksum)
  }

  /** The pseudo-header of RFC 768. */
  function PseudoHeader(src: (Byte, Byte, Byte, Byte), dst: (Byte, Byte, Byte, Byte), len: U16): seq<Byte> {
    Octets(src) + Octets(dst) + [0, 17] + Be16(len)
  }

  function IpChecksum(src: SocketAddr, dst: SocketAddr, total: U16): U16
    requires src.SocketV4? && dst.SocketV4?
  {
    Complement(WordSum(IpHeader(src, dst, total, 0)))
  }

  /** A computed zero is sent as all ones, zero meaning no checksum. */
  function UdpChecksum(src: SocketAddr, dst: SocketAddr, payload: seq<Byte>): U16
    requires src.SocketV4? && dst.SocketV4? && |payload| <= MAX_UDP_PAYLOAD
  {
    var len := 8 + |payload|;
    var c := Complement(WordSum(PseudoHeader(src.octets, dst.octets, len)) + WordSum(UdpHeader(src, dst, len, 0) + payload));
    if c == 0 then 0xFFFF else c
  }

  function PacketBytes(src: SocketAddr, dst: SocketAddr, payload: seq<Byte>): seq<Byte>
    requires src.SocketV4? && dst.SocketV4? && |payload| <= MAX_UDP_PAYLOAD
  {
    var total := 28 + |payload|;
    IpHeader(src, dst, total, IpChecksum(src, dst, total))
    + UdpHeader(src, dst, 8 + |payload|, UdpChecksum(src, dst, payload)) + payload
  }

  // ----- What a receiver makes of it -----

  datatype Datagram = Datagram(src: SocketAddr, dst: SocketAddr, payload: seq<Byte>)

  function SocketAt(s: seq<Byte>, ip: nat, port: nat): SocketAddr
    requires ip + 4 <= |s| && port + 2 <= |s|
  {
    SocketV4((s[ip], s[ip + 1], s[ip + 2], s[ip + 3]), Word(s, port))
  }

  /** Part of a larger datagram: more fragments to come, or an offset. */
  predicate IsFragment(s: seq<Byte>)
    requires |s| >= 8
  {
    Word(s, 6) % 0x4000 != 0
  }

  /** A receiver by the standards: every length and both checksums must hold, and the packet be whole and in time. */
  function Receive(s: seq<Byte>): Option<Datagram> {
    if |s| < 28 || s[0] != 0x45 || Word(s, 2) != |s| || s[9] != 17 then None
    else if IsFragment(s) || s[8] == 0 then None
    else if Fold(WordSum(s[..20])) != 0xFFFF then None
    else if Word(s, 24) != |s| - 20 then None
    else
      var pseudo := s[12..16] + s[16..20] + [0, 17] + s[24..26];
      if Word(s, 26) != 0 && Fold(WordSum(pseudo) + WordSum(s[20..])) != 0xFFFF then None
      else Some(Datagram(SocketAt(s, 12, 20), SocketAt(s, 16, 22), s[28..]))
  }

  lemma IpHeaderSums(src: SocketAddr, dst: SocketAddr, total: U16, checksum: U16)
    requires src.SocketV4? && dst.SocketV4?
    ensures WordSum(IpHeader(src, dst, total, checksum)) == WordSum(IpHeader(src, dst, total, 0)) + checksum
  {
    var front := [0x45, 0] + Be16(total) + [0, 0, 0x40, 0, 64, 17];
    var back := Octets(src.octets) + Octets(dst.octets);
    assert IpHeader(src, dst, total, checksum) == front + (Be16(checksum) + back);
    assert IpHeader(src, dst, total, 0) == front + (Be16(0) + back);
    WordSumConcat(front, Be16(checksum) + back);
    WordSumConcat(front, Be16(0) + back);
    WordSumConcat(Be16(checksum), back);
    WordSumConcat(Be16(0), back);
    Be16Sums(checksum);
    Be16Sums(0);
  }

  lemma UdpHeaderSums(src: SocketAddr, dst: SocketAddr, len: U16, checksum: U16, payload: seq<Byte>)
    requires src.SocketV4? && dst.SocketV4?
    ensures WordSum(UdpHeader(src, dst, len, checksum) + payload) == WordSum(UdpHeader(src, dst, len, 0) + payload) + checksum
  {
    var front := Be16(src.port) + Be16(dst.port) + Be16(len);
    assert UdpHeader(src, dst, len, checksum) + payload == front + (Be16(checksum) + payload);
    assert UdpHeader(src, dst, len, 0) + payload == front + (Be16(0) + payload);
    WordSumConcat(front, Be16(checksum) + payload);
    WordSumConcat(front, Be16(0) + payload);
    WordSumConcat(Be16(checksum), payload);
    WordSumConcat(Be16(0), payload);
    Be16Sums(checksum);
    Be16Sums(0);
  }

  lemma Be16Sums(v: U16)
    ensures WordSum(Be16(v)) == v
  {
    assert Be16(v)[2..] == [];
  }

  /** Where each part of a packet lies. */
  lemma PacketLayout(src: SocketAddr, dst: SocketAddr, payload: seq<Byte>)
    requires src.SocketV4? && dst.SocketV4? && |payload| <= MAX_UDP_PAYLOAD
    ensures var s := PacketBytes(src, dst, payload);
            var total := 28 + |payload|;
            && |s| == total
            && s[..20] == IpHeader(src, dst, total, IpChecksum(src, dst, total))
            && s[20..] == UdpHeader(src, dst, 8 + |payload|, UdpChecksum(src, dst, payload)) + payload
            && s[28..] == payload
  {
  }

  lemma IpHeaderFields(src: SocketAddr, dst: SocketAddr, total: U16, checksum: U16)
    requires src.SocketV4? && dst.SocketV4?
    ensures var h := IpHeader(src, dst, total, checksum);
            && |h| == 20 && h[0] == 0x45 && h[9] == 17 && Word(h, 2) == total
            && h[1] == 0 && Word(h, 4) == 0 && Word(h, 6) == 0x4000 && h[8] == 64 && !IsFragment(h)
            && h[12..16] == Octets(src.octets) && h[16..20] == Octets(dst.octets)
  {
    var h := IpHeader(src, dst, total, checksum);
    assert h[2..4] == Be16(total);
    WordOfBe16(h, 2, total);
  }

  lemma UdpHeaderFields(src: SocketAddr, dst: SocketAddr, len: U16, checksum: U16)
    requires src.SocketV4? && dst.SocketV4?
    ensures var h := UdpHeader(src, dst, len, checksum);
            && |h| == 8 && Word(h, 0) == src.port && Word(h, 2) == dst.port
            && h[4..6] == Be16(len) && Word(h, 4) == len
  {
    var h := UdpHeader(src, dst, len, checksum);
    assert h[0..2] == Be16(src.port) && h[2..4] == Be16(dst.port) && h[4..6] == Be16(len);
    WordOfBe16(h, 0, src.port);
    WordOfBe16(h, 2, dst.port);
    WordOfBe16(h, 4, len);
  }

  lemma IpHeaderVerifies(src: SocketAddr, dst: SocketAddr, total: U16)
    requires src.SocketV4? && dst.SocketV4?
    ensures Fold(WordSum(IpHeader(src, dst, total, IpChecksum(src, dst, total)))) == 0xFFFF
  {
    IpHeaderSums(src, dst, total, IpChecksum(src, dst, total));
    ChecksumVerifies(WordSum(IpHeader(src, dst, total, 0)));
  }

  lemma UdpVerifies(src: SocketAddr, dst: SocketAddr, payload: seq<Byte>, pseudo: seq<Byte>, segment: seq<Byte>)
    requires src.SocketV4? && dst.SocketV4? && |payload| <= MAX_UDP_PAYLOAD
    requires pseudo == PseudoHeader(src.octets, dst.octets, 8 + |payload|)
    requires segment == UdpHeader(src, dst, 8 + |payload|, UdpChecksum(src, dst, payload)) + payload
    ensures Fold(WordSum(pseudo) + WordSum(segment)) == 0xFFFF
  {
    var checksum := UdpChecksum(src, dst, payload);
    var zeroed := UdpHeader(src, dst, 8 + |payload|, 0) + payload;
    UdpChecksumIs(src, dst, payload, WordSum(pseudo), WordSum(zeroed));
    UdpHeaderSums(src, dst, 8 + |payload|, checksum, payload);
    SentChecksumVerifies(WordSum(pseudo), WordSum(zeroed), checksum);
  }

  lemma UdpChecksumIs(src: SocketAddr, dst: SocketAddr, payload: seq<Byte>, pseudo: nat, rest: nat)
    requires src.SocketV4? && dst.SocketV4? && |payload| <= MAX_UDP_PAYLOAD
    requires pseudo == WordSum(PseudoHeader(src.octets, dst.octets, 8 + |payload|))
    requires rest == WordSum(UdpHeader(src, dst, 8 + |payload|, 0) + payload)
    ensures UdpChecksum(src, dst, payload) == if Complement(pseudo + rest) == 0 then 0xFFFF else Complement(pseudo + rest)
  {
    hide PseudoHeader, UdpHeader, Complement;
  }

  lemma SentChecksumVerifies(pseudo: nat, rest: nat, checksum: U16)
    requires checksum == if Complement(pseudo + rest) == 0 then 0xFFFF else Complement(pseudo + rest)
    ensures Fold(pseudo + (rest + checksum)) == 0xFFFF
  {
    ChecksumVerifies(pseudo + rest);
    assert pseudo + (rest + checksum) == (pseudo + rest) + checksum;
  }

  /**
   * Every datagram that fits is received as it was sent: both checksums are there and verify, no length wraps, it is
   * not a fragment, and the addresses, ports and payload come back.
   */
  lemma ReceivedAsSent(src: SocketAddr, dst: SocketAddr, payload: seq<Byte>)
    requires src.SocketV4? && dst.SocketV4? && |payload| <= MAX_UDP_PAYLOAD
    ensures Receive(PacketBytes(src, dst, payload)) == Some(Datagram(src, dst, payload))
    ensures Word(PacketBytes(src, dst, payload), 26) != 0
  {
    ChecksumIsSent(src, dst, payload);
    assert 28 + |payload| <= 0xFFFF;
    hide *;
    var total, len := 28 + |payload|, 8 + |payload|;
    var s := PacketBytes(src, dst, payload);
    var udp := UdpHeader(src, dst, len, UdpChecksum(src, dst, payload));
    PacketLayout(src, dst, payload);
    IpHeaderFields(src, dst, total, IpChecksum(src, dst, total));
    UdpHeaderFields(src, dst, len, UdpChecksum(src, dst, payload));
    IpHeaderVerifies(src, dst, total);
    UdpVerifies(src, dst, payload, PseudoHeader(src.octets, dst.octets, len), s[20..]);
    HeaderOfPacket(s);
    SegmentOfPacket(s, udp, payload);
    PseudoHeaderIs(src.octets, dst.octets, len);
    SocketsAt(s, src, dst);
    IsReceived(s, src, dst, payload);
  }

  /** The datagram does carry a checksum, zero meaning that it has none. */
  lemma ChecksumIsSent(src: SocketAddr, dst: SocketAddr, payload: seq<Byte>)
    requires src.SocketV4? && dst.SocketV4? && |payload| <= MAX_UDP_PAYLOAD
    ensures Word(PacketBytes(src, dst, payload), 26) != 0
  {
    var s, checksum := PacketBytes(src, dst, payload), UdpChecksum(src, dst, payload);
    var udp := UdpHeader(src, dst, 8 + |payload|, checksum);
    PacketLayout(src, dst, payload);
    assert checksum != 0;
    hide PacketBytes, UdpChecksum, IpHeader;
    assert s[26] == s[20..][6] == udp[6] && s[27] == s[20..][7] == udp[7];
    assert udp[6..8] == Be16(checksum);
    WordOfBe16(udp, 6, checksum);
  }

  lemma PseudoHeaderIs(src: (Byte, Byte, Byte, Byte), dst: (Byte, Byte, Byte, Byte), len: U16)
    ensures PseudoHeader(src, dst, len) == Octets(src) + Octets(dst) + [0, 17] + Be16(len)
  {
  }

  /** What a receiver looks at. */
  lemma IsReceived(s: seq<Byte>, src: SocketAddr, dst: SocketAddr, payload: seq<Byte>)
    requires |s| == 28 + |payload| && s[0] == 0x45 && Word(s, 2) == |s| && s[9] == 17
    requires !IsFragment(s) && s[8] != 0 && Fold(WordSum(s[..20])) == 0xFFFF && Word(s, 24) == |s| - 20
    requires Fold(WordSum(s[12..16] + s[16..20] + [0, 17] + s[24..26]) + WordSum(s[20..])) == 0xFFFF
    requires SocketAt(s, 12, 20) == src && SocketAt(s, 16, 22) == dst && s[28..] == payload
    ensures Receive(s) == Some(Datagram(src, dst, payload))
  {
    hide Word, Fold, WordSum, IsFragment, SocketAt;
  }

  /** A packet's first 20 bytes are its header, byte for byte. */
  lemma HeaderOfPacket(s: seq<Byte>)
    requires |s| >= 28
    ensures var h := s[..20];
            && s[0] == h[0] && s[8] == h[8] && s[9] == h[9] && Word(s, 2) == Word(h, 2) && (IsFragment(s) <==> IsFragment(h))
            && s[12..16] == h[12..16] && s[16..20] == h[16..20]
  {
    var h := s[..20];
    assert Word(s, 6) == Word(h, 6);
  }

  lemma SegmentOfPacket(s: seq<Byte>, udp: seq<Byte>, payload: seq<Byte>)
    requires |s| >= 28 && |udp| == 8 && s[20..] == udp + payload
    ensures Word(s, 20) == Word(udp, 0) && Word(s, 22) == Word(udp, 2) && Word(s, 24) == Word(udp, 4)
    ensures s[24..26] == udp[4..6]
  {
    assert forall i :: 0 <= i < 8 ==> s[20 + i] == s[20..][i] == udp[i];
  }

  lemma SocketsAt(s: seq<Byte>, src: SocketAddr, dst: SocketAddr)
    requires src.SocketV4? && dst.SocketV4? && |s| >= 28
    requires s[12..16] == Octets(src.octets) && s[16..20] == Octets(dst.octets)
    requires Word(s, 20) == src.port && Word(s, 22) == dst.port
    ensures SocketAt(s, 12, 20) == src && SocketAt(s, 16, 22) == dst
  {
    hide Word;
    assert forall i :: 0 <= i < 4 ==> s[12 + i] == s[12..16][i] && s[16 + i] == s[16..20][i];
    assert s[12] == s[12..16][0] && s[13] == s[12..16][1] && s[14] == s[12..16][2] && s[15] == s[12..16][3];
    assert s[16] == s[16..20][0] && s[17] == s[16..20][1] && s[18] == s[16..20][2] && s[19] == s[16..20][3];
  }

  lemma WordOfBe16(s: seq<Byte>, i: nat, v: U16)
    requires i + 2 <= |s| && s[i..i + 2] == Be16(v)
    ensures Word(s, i) == v
  {
    assert s[i] == s[i..i + 2][0] && s[i + 1] == s[i..i + 2][1];
  }

  // ----- The construction, in place -----

  method SumWords(buf: array<Byte>, lo: nat) returns (sum: nat)
    requires lo <= buf.Length
    ensures sum == WordSum(buf[lo..])
  {
    sum := 0;
    var i := lo;
    while i + 1 < buf.Length
      invariant lo <= i <= buf.Length
      invariant sum + WordSum(buf[i..]) == WordSum(buf[lo..])
    {
      assert buf[i..][2..] == buf[i + 2..];
      sum := sum + Join(buf[i], buf[i + 1]);
      i := i + 2;
    }
    if i < buf.Length {
      sum := sum + Join(buf[i], 0);
    }
  }

  lemma IpHeaderIs(src: SocketAddr, dst: SocketAddr, total: U16)
    requires src.SocketV4? && dst.SocketV4?
    ensures IpHeader(src, dst, total, 0) == IpFront(total) + IpAddresses(src.octets, dst.octets)
  {
  }

  function IpFront(total: U16): seq<Byte> {
    [0x45, 0, total / 256, total % 256, 0, 0, 0x40, 0, 64, 17, 0, 0]
  }

  function IpAddresses(s: (Byte, Byte, Byte, Byte), d: (Byte, Byte, Byte, Byte)): seq<Byte> {
    [s.0, s.1, s.2, s.3, d.0, d.1, d.2, d.3]
  }

  lemma UdpHeaderIs(src: SocketAddr, dst: SocketAddr, len: U16)
    requires src.SocketV4? && dst.SocketV4?
    ensures UdpHeader(src, dst, len, 0) ==
            [src.port / 256, src.port % 256, dst.port / 256, dst.port % 256, len / 256, len % 256, 0, 0]
  {
  }

  method FillIpFront(buf: array<Byte>)
    requires 28 <= buf.Length <= 0xFFFF && forall i :: 0 <= i < 12 ==> buf[i] == 0
    modifies buf
    ensures buf[..12] == IpFront(buf.Length)
    ensures buf[12..] == old(buf[12..])
  {
    buf[0] := 0x45;
    buf[2], buf[3] := buf.Length / 256, buf.Length % 256;
    buf[6] := 0x40;
    buf[8] := 64;
    buf[9] := 17;
  }

  method FillIpAddresses(buf: array<Byte>, s: (Byte, Byte, Byte, Byte), d: (Byte, Byte, Byte, Byte))
    requires buf.Length >= 28
    modifies buf
    ensures buf[..12] == old(buf[..12])
    ensures buf[12..20] == IpAddresses(s, d)
    ensures buf[20..] == old(buf[20..])
  {
    buf[12], buf[13], buf[14], buf[15] := s.0, s.1, s.2, s.3;
    buf[16], buf[17], buf[18], buf[19] := d.0, d.1, d.2, d.3;
  }

  /** The version-4 header, its checksum still zero. */
  method FillIp(buf: array<Byte>, src: SocketAddr, dst: SocketAddr)
    requires src.SocketV4? && dst.SocketV4?
    requires 28 <= buf.Length <= 0xFFFF && forall i :: 0 <= i < 20 ==> buf[i] == 0
    modifies buf
    ensures buf[..20] == IpHeader(src, dst, buf.Length, 0)
    ensures buf[20..] == old(buf[20..])
  {
    hide IpHeader, IpFront, IpAddresses;
    ghost var before := buf[20..];
    FillIpFront(buf);
    assert buf[20..] == buf[12..][8..] == before;
    FillIpAddresses(buf, src.octets, dst.octets);
    assert buf[..20] == buf[..12] + buf[12..20];
    IpHeaderIs(src, dst, buf.Length);
  }

  /** The UDP header, its checksum still zero. */
  method FillUdpHeader(buf: array<Byte>, src: SocketAddr, dst: SocketAddr, len: U16)
    requires src.SocketV4? && dst.SocketV4?
    requires buf.Length >= 28 && buf[20..28] == [0, 0, 0, 0, 0, 0, 0, 0]
    modifies buf
    ensures buf[..20] == old(buf[..20])
    ensures buf[20..28] == UdpHeader(src, dst, len, 0)
    ensures buf[28..] == old(buf[28..])
  {
    hide UdpHeader;
    assert buf[26] == buf[20..28][6] && buf[27] == buf[20..28][7];
    buf[20], buf[21] := src.port / 256, src.port % 256;
    buf[22], buf[23] := dst.port / 256, dst.port % 256;
    buf[24], buf[25] := len / 256, len % 256;
    UdpHeaderIs(src, dst, len);
  }

  method FillPayload(buf: array<Byte>, payload: seq<Byte>)
    requires buf.Length == 28 + |payload|
    modifies buf
    ensures buf[..28] == old(buf[..28])
    ensures buf[28..] == payload
  {
    for i := 0 to |payload|
      invariant buf[..28] == old(buf[..28])
      invariant forall j :: 0 <= j < i ==> buf[28 + j] == payload[j]
    {
      buf[28 + i] := payload[i];
    }
  }

  /** The UDP header with its checksum still zero, and the payload. */
  method FillUdp(buf: array<Byte>, src: SocketAddr, dst: SocketAddr, payload: seq<Byte>)
    requires src.SocketV4? && dst.SocketV4? && |payload| <= MAX_UDP_PAYLOAD
    requires buf.Length == 28 + |payload| && buf[20..28] == [0, 0, 0, 0, 0, 0, 0, 0]
    modifies buf
    ensures buf[..20] == old(buf[..20])
    ensures buf[20..] == UdpHeader(src, dst, 8 + |payload|, 0) + payload
  {
    hide UdpHeader;
    FillUdpHeader(buf, src, dst, 8 + |payload|);
    ghost var header := buf[..28];
    FillPayload(buf, payload);
    assert header[..20] == buf[..28][..20] == buf[..20];
    assert header[20..] == buf[..28][20..] == buf[20..28];
    SplitTail(buf[..], 20, 28);
  }

  method Put16(buf: array<Byte>, i: nat, v: U16)
    requires i + 2 <= buf.Length
    modifies buf
    ensures buf[..] == old(buf[..i]) + Be16(v) + old(buf[i + 2..])
  {
    buf[i], buf[i + 1] := v / 256, v % 256;
  }

  /** A store of a word, seen from `base`. */
  lemma Stored(was: seq<Byte>, now: seq<Byte>, base: nat, i: nat, word: seq<Byte>)
    requires base + i + 2 <= |was| && |word| == 2
    requires now[..] == was[..base + i] + word + was[base + i + 2..]
    ensures now[..base] == was[..base]
    ensures now[base..] == was[base..][..i] + word + was[base..][i + 2..]
  {
  }

  method SumUdp(buf: array<Byte>, src: SocketAddr, dst: SocketAddr, ghost payload: seq<Byte>) returns (sent: U16)
    requires src.SocketV4? && dst.SocketV4? && |payload| <= MAX_UDP_PAYLOAD
    requires buf.Length == 28 + |payload|
    requires buf[20..] == UdpHeader(src, dst, 8 + |payload|, 0) + payload
    ensures sent == UdpChecksum(src, dst, payload)
  {
    hide UdpHeader, PseudoHeader;
    var sum := SumWords(buf, 20);
    var c := Complement(WordSum(PseudoHeader(src.octets, dst.octets, buf.Length - 20)) + sum);
    UdpChecksumIs(src, dst, payload, WordSum(PseudoHeader(src.octets, dst.octets, 8 + |payload|)), sum);
    sent := if c == 0 then 0xFFFF else c;
  }

  /** The checksum over the pseudo-header, the UDP header and the payload, put in its place. */
  method FillUdpChecksum(buf: array<Byte>, src: SocketAddr, dst: SocketAddr, ghost payload: seq<Byte>)
    requires src.SocketV4? && dst.SocketV4? && |payload| <= MAX_UDP_PAYLOAD
    requires buf.Length == 28 + |payload|
    requires buf[20..] == UdpHeader(src, dst, 8 + |payload|, 0) + payload
    modifies buf
    ensures buf[..20] == old(buf[..20])
    ensures buf[20..] == UdpHeader(src, dst, 8 + |payload|, UdpChecksum(src, dst, payload)) + payload
  {
    hide UdpHeader, UdpChecksum, Be16;
    ghost var was := buf[..];
    var sent := SumUdp(buf, src, dst, payload);
    Put16(buf, 26, sent);
    UdpHeaderParts(src, dst, 8 + |payload|, sent, payload);
    Stored(was, buf[..], 20, 6, Be16(sent));
  }

  lemma UdpHeaderParts(src: SocketAddr, dst: SocketAddr, len: U16, checksum: U16, payload: seq<Byte>)
    requires src.SocketV4? && dst.SocketV4?
    ensures UdpHeader(src, dst, len, checksum) + payload ==
            (UdpHeader(src, dst, len, 0) + payload)[..6] + Be16(checksum) + (UdpHeader(src, dst, len, 0) + payload)[8..]
  {
  }

  /** The checksum over the version-4 header, put in its place. */
  method FillIpChecksum(buf: array<Byte>, src: SocketAddr, dst: SocketAddr)
    requires src.SocketV4? && dst.SocketV4?
    requires 28 <= buf.Length <= 0xFFFF
    requires buf[..20] == IpHeader(src, dst, buf.Length, 0)
    modifies buf
    ensures buf[..20] == IpHeader(src, dst, buf.Length, IpChecksum(src, dst, buf.Length))
    ensures buf[20..] == old(buf[20..])
  {
    hide IpHeader, Be16;
    ghost var was := buf[..];
    var head := new Byte[20](i requires 0 <= i < 20 reads buf => buf[i]);
    assert head[0..] == buf[..20];
    var sum := SumWords(head, 0);
    Put16(buf, 10, Complement(sum));
    IpHeaderParts(src, dst, buf.Length, Complement(sum));
    StoredBefore(was, buf[..], 10, 20, Be16(Complement(sum)));
  }

  lemma StoredBefore(was: seq<Byte>, now: seq<Byte>, i: nat, end: nat, word: seq<Byte>)
    requires i + 2 <= end <= |was| && |word| == 2
    requires now == was[..i] + word + was[i + 2..]
    ensures now[..end] == was[..end][..i] + word + was[..end][i + 2..]
    ensures now[end..] == was[end..]
  {
  }

  lemma IpHeaderParts(src: SocketAddr, dst: SocketAddr, total: U16, checksum: U16)
    requires src.SocketV4? && dst.SocketV4?
    ensures IpHeader(src, dst, total, checksum) ==
            IpHeader(src, dst, total, 0)[..10] + Be16(checksum) + IpHeader(src, dst, total, 0)[12..]
  {
  }

  /** `build_udp_packet`. */
  method BuildUdpPacket(src: SocketAddr, dst: SocketAddr, payload: seq<Byte>) returns (r: Built)
    ensures r.Ipv6Unsupported? <==> src.SocketV6? || dst.SocketV6?
    ensures r.TooLarge? <==> src.SocketV4? && dst.SocketV4? && |payload| > MAX_UDP_PAYLOAD
    ensures r.Packet? ==> fresh(r.buf) && r.buf[..] == PacketBytes(src, dst, payload)
  {
    if src.SocketV6? || dst.SocketV6? {
      return Ipv6Unsupported;
    }
    if |payload| > MAX_UDP_PAYLOAD {
      return TooLarge;
    }
    var buf := new Byte[28 + |payload|](_ => 0);
    hide IpHeader, UdpHeader, PacketBytes, IpChecksum, UdpChecksum;
    ghost var blank := buf[20..];
    FillIp(buf, src, dst);
    assert buf[20..28] == blank[..8];
    FillUdp(buf, src, dst, payload);
    FillUdpChecksum(buf, src, dst, payload);
    FillIpChecksum(buf, src, dst);
    assert buf[..] == buf[..20] + buf[20..];
    PacketIs(src, dst, payload);
    return Packet(buf);
  }

  lemma PacketIs(src: SocketAddr, dst: SocketAddr, payload: seq<Byte>)
    requires src.SocketV4? && dst.SocketV4? && |payload| <= MAX_UDP_PAYLOAD
    ensures var total := 28 + |payload|;
            PacketBytes(src, dst, payload) == IpHeader(src, dst, total, IpChecksum(src, dst, total)) +
              (UdpHeader(src, dst, 8 + |payload|, UdpChecksum(src, dst, payload)) + payload)
  {
  }

  // ----- The truncated reply, section 4.1.1 of RFC 1035 -----

  const DNS_HEADER_LEN := 12

  /** `b | 0x02`. */
  function WithTc(b: Byte): Byte {
    if b / 2 % 2 == 1 then b else b + 2
  }

  /** The header of an answer, zeros where it is too short to have one. */
  function HeaderOf(answer: seq<Byte>): seq<Byte> {
    seq(DNS_HEADER_LEN, i => if 0 <= i < |answer| then answer[i] else 0)
  }

  /** The id and flags of an answer with TC set, and no records counted. */
  function Truncated(answer: seq<Byte>): seq<Byte> {
    HeaderOf(answer)[..4][2 := WithTc(HeaderOf(answer)[2])] + [0, 0, 0, 0, 0, 0, 0, 0]
  }

  method TruncateDnsReply(answer: seq<Byte>) returns (header: array<Byte>)
    ensures fresh(header) && header[..] == Truncated(answer)
  {
    header := new Byte[DNS_HEADER_LEN](i => if 0 <= i < |answer| then answer[i] else 0);
    header[2] := WithTc(header[2]);
    for i := 4 to DNS_HEADER_LEN
      invariant header[..4] == HeaderOf(answer)[..4][2 := WithTc(HeaderOf(answer)[2])]
      invariant forall j :: 4 <= j < i ==> header[j] == 0
    {
      header[i] := 0;
    }
  }

  function QueryId(message: seq<Byte>): Option<U16> {
    if |message| < 2 then None else Some(Word(message, 0))
  }

  /** Bit `n`, counted from the lowest. */
  predicate Bit(v: nat, n: nat) {
    if n == 0 then v % 2 == 1 else Bit(v / 2, n - 1)
  }

  /** Truncation sets the one flag, bit 1 of its byte, and no other. */
  lemma TcAlone(b: Byte, n: nat)
    ensures Bit(WithTc(b), n) <==> n == 1 || Bit(b, n)
  {
    var c := WithTc(b);
    assert c % 2 == b % 2 && c / 2 % 2 == 1 && c / 2 / 2 == b / 2 / 2;
    if n >= 2 {
      assert Bit(c, n) == Bit(c / 2, n - 1) == Bit(c / 2 / 2, n - 2);
      assert Bit(b, n) == Bit(b / 2, n - 1) == Bit(b / 2 / 2, n - 2);
    }
  }

  // ----- Answers handed to the device -----

  function Max(a: int, b: int): int {
    if a < b then b else a
  }

  /** What the client is sent in place of an answer: the answer if its packet fits the device, else its header. */
  function Offered(answer: seq<Byte>, mtu: nat): seq<Byte> {
    if |answer| > Max(mtu - 28, 0) then Truncated(answer) else answer
  }

  /**
   * Whatever the answer, what is offered has the id and the flags the resolver gave it but for TC, which an
   * oversized answer gains; a cut one counts no records; and it fits a device that can carry a bare header.
   */
  lemma OfferedMatchesTheQuery(answer: seq<Byte>, mtu: nat)
    ensures |answer| >= 2 ==> QueryId(Offered(answer, mtu)) == QueryId(answer)
    ensures |answer| >= DNS_HEADER_LEN ==>
              && Offered(answer, mtu)[3] == answer[3]
              && forall n :: Bit(Offered(answer, mtu)[2], n) <==> Bit(answer[2], n) || (n == 1 && |answer| > Max(mtu - 28, 0))
    ensures |answer| > Max(mtu - 28, 0) ==>
              && |Offered(answer, mtu)| == DNS_HEADER_LEN
              && forall count :: 0 <= count < 4 ==> Word(Offered(answer, mtu), 4 + 2 * count) == 0
    ensures mtu >= 28 + DNS_HEADER_LEN ==> 28 + |Offered(answer, mtu)| <= mtu
  {
    forall n
      ensures Bit(WithTc(HeaderOf(answer)[2]), n) <==> n == 1 || Bit(HeaderOf(answer)[2], n)
    {
      TcAlone(HeaderOf(answer)[2], n);
    }
  }

  class StackCore {
    var tx: seq<seq<Byte>>
    var udpDropped: nat
    const mtu: nat

    constructor (mtu: nat)
      ensures tx == [] && udpDropped == 0 && this.mtu == mtu
    {
      tx, udpDropped, this.mtu := [], 0, mtu;
    }

    /** `inject_datagram`: one packet the client's own stack accepts, or one more datagram counted as dropped. */
    method InjectDatagram(src: SocketAddr, dst: SocketAddr, payload: seq<Byte>)
      modifies this
      ensures src.SocketV4? && dst.SocketV4? && |Offered(payload, mtu)| <= MAX_UDP_PAYLOAD ==>
                && |tx| == |old(tx)| + 1 && tx[..|old(tx)|] == old(tx)
                && Receive(tx[|old(tx)|]) == Some(Datagram(src, dst, Offered(payload, mtu)))
                && (mtu >= 28 + DNS_HEADER_LEN ==> |tx[|old(tx)|]| <= mtu)
                && udpDropped == old(udpDropped)
      ensures !(src.SocketV4? && dst.SocketV4? && |Offered(payload, mtu)| <= MAX_UDP_PAYLOAD) ==>
                tx == old(tx) && udpDropped == old(udpDropped) + 1
    {
      var body := payload;
      if |payload| > Max(mtu - 28, 0) {
        var header := TruncateDnsReply(payload);
        body := header[..];
      }
      var built := BuildUdpPacket(src, dst, body);
      if built.Packet? {
        ReceivedAsSent(src, dst, body);
        OfferedMatchesTheQuery(payload, mtu);
        PacketLayout(src, dst, body);
        tx := tx + [built.buf[..]];
      } else {
        udpDropped := udpDropped + 1;
      }
    }
  }
}
