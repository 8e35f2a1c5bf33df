/**
 * The frame builder of src/packet_mmsg.c: `make_udp_packet` writes a 14-byte
 * Ethernet II header and calls `build_udp_packet`, which writes a 20-byte IPv4
 * header (RFC 791, section 3.1) and an 8-byte UDP header (RFC 768) behind it.
 *
 * The local MAC and IP address (read by `get_eth0_ip_mac` through ioctl) and the
 * IP identification (from `rand()`) are parameters. The UDP checksum field is
 * modelled as the code computes it, which is not the RFC 768 checksum: it only
 * covers the two addresses and the UDP length.
 */
module UdpFrame {
  import opened Bytes
  import opened InternetChecksum

  const EthHeaderLen: nat := 14
  const IpHeaderLen: nat := 20
  const UdpHeaderLen: nat := 8
  /** Bytes written at the start of every frame; the payload behind them is not written. */
  const HeaderLen: nat := 42

  /** The fixed destination MAC address f2:01:0a:32:c8:01. */
  const DstMac: seq<uint8> := [0xf2, 0x01, 0x0a, 0x32, 0xc8, 0x01]
  const EtherTypeIpv4: uint16 := 0x0800
  /** The fixed destination address as the `uint32_t` passed to `build_udp_packet`. */
  const DstAddr: uint32 := 0x6482320a
  const IpProtoUdp: uint8 := 17
  const Ttl: uint8 := 64

  /** The 20-byte IPv4 header: version 4 and header length 5 words share byte 0,
      total length and identification in network order, no fragmentation, the
      checksum field stored in host order, the addresses stored as host-order
      `uint32_t` values. */
  function IpHeader(totLen: uint16, id: uint16, saddr: uint32, daddr: uint32, check: uint16): (h: seq<uint8>)
    ensures |h| == IpHeaderLen
  {
    [0x45, 0, totLen / 0x100, totLen % 0x100, id / 0x100, id % 0x100, 0, 0, Ttl, IpProtoUdp,
     check % 0x100, check / 0x100,
     saddr % 0x100, (saddr / 0x100) % 0x100, (saddr / 0x1_0000) % 0x100, saddr / 0x100_0000,
     daddr % 0x100, (daddr / 0x100) % 0x100, (daddr / 0x1_0000) % 0x100, daddr / 0x100_0000]
  }

  /** The 8-byte UDP header: ports and length in network order, the checksum field
      stored in host order. */
  function UdpHeader(sport: uint16, dport: uint16, len: uint16, check: uint16): (h: seq<uint8>)
    ensures |h| == UdpHeaderLen
  {
    [sport / 0x100, sport % 0x100, dport / 0x100, dport % 0x100, len / 0x100, len % 0x100,
     check % 0x100, check / 0x100]
  }

  /** The UDP checksum field from the checksums `c1` and `c2` of the two stored
      addresses: 0xffff - ((c1 + c2 + htons(udp_len)) mod 2^16). */
  function UdpCheckOf(c1: uint16, c2: uint16, udpLen: uint16): uint16
  {
    0xffff - (c1 + c2 + Htons(udpLen)) % 0x1_0000
  }

  /** The value `build_udp_packet` leaves in the UDP checksum field. */
  function UdpCheck(saddr: uint32, daddr: uint32, udpLen: uint16): uint16
  {
    UdpCheckOf(Checksum(HostOrder32(saddr)), Checksum(HostOrder32(daddr)), udpLen)
  }

  /** The 14-byte Ethernet header: the fixed destination MAC, the source MAC `mac`,
      EtherType IPv4. */
  function EthHeader(mac: seq<uint8>): (h: seq<uint8>)
    requires |mac| == 6
    ensures |h| == EthHeaderLen
  {
    DstMac + mac + BigEndian16(EtherTypeIpv4)
  }

  /** The 28 bytes `build_udp_packet(buffer, size, ...)` writes. */
  function Packet(size: int, sport: uint16, dport: uint16, saddr: uint32, daddr: uint32, id: uint16): seq<uint8>
  {
    var ip0 := IpHeader(Trunc16(size), id, saddr, daddr, 0);
    var udpLen := Trunc16(size - IpHeaderLen);
    IpHeader(Trunc16(size), id, saddr, daddr, Checksum(ip0))
      + UdpHeader(sport, dport, udpLen, UdpCheck(saddr, daddr, udpLen))
  }

  /** The 42 header bytes `make_udp_packet(sport, dport, ether_packet, ether_len)` writes. */
  function Frame(frameLen: int, sport: uint16, dport: uint16, mac: seq<uint8>, ip: uint32, id: uint16): (f: seq<uint8>)
    requires |mac| == 6
    ensures |f| == HeaderLen
  {
    EthHeader(mac) + Packet(frameLen - EthHeaderLen, sport, dport, ip, DstAddr, id)
  }

  // ---------------------------------------------------------------------------
  // Reading the header back, as a receiver would.

  /** The header fields of an Ethernet/IPv4/UDP frame. Addresses are kept as their
      wire bytes; the two checksum fields as the host-order values the code stored. */
  datatype Headers = Headers(
    ethDst: seq<uint8>, ethSrc: seq<uint8>, etherType: uint16,
    version: nat, ihl: nat, tos: uint8, totLen: uint16, id: uint16, fragOff: uint16,
    ttl: uint8, protocol: uint8, ipCheck: uint16, saddr: seq<uint8>, daddr: seq<uint8>,
    sport: uint16, dport: uint16, udpLen: uint16, udpCheck: uint16)

  function Decode(f: seq<uint8>): Option<Headers>
  {
    if |f| < HeaderLen then None
    else Some(Headers(
      f[0..6], f[6..12], ReadBigEndian16(f, 12),
      f[14] / 0x10, f[14] % 0x10, f[15], ReadBigEndian16(f, 16), ReadBigEndian16(f, 18),
      ReadBigEndian16(f, 20), f[22], f[23], ReadHost16(f, 24), f[26..30], f[30..34],
      ReadBigEndian16(f, 34), ReadBigEndian16(f, 36), ReadBigEndian16(f, 38), ReadHost16(f, 40)))
  }

  /** Decoding a built frame gives back the Ethernet header the builder wrote. */
  lemma DecodeEthernet(frameLen: int, sport: uint16, dport: uint16, mac: seq<uint8>, ip: uint32, id: uint16)
    requires |mac| == 6
    ensures var f := Frame(frameLen, sport, dport, mac, ip, id);
      && |f| == HeaderLen
      && Decode(f).Some?
      && var h := Decode(f).value;
      && h.ethDst == DstMac && h.ethSrc == mac && h.etherType == EtherTypeIpv4
  {
    var f := Frame(frameLen, sport, dport, mac, ip, id);
    var e := EthHeader(mac);
    EthHeaderFields(mac);
    assert f[..EthHeaderLen] == e;
    assert f[0..6] == e[0..6] && f[6..12] == e[6..12];
    assert f[12] == e[12] && f[13] == e[13];
  }

  /** The three fields of the Ethernet header read back from its bytes. */
  lemma EthHeaderFields(mac: seq<uint8>)
    requires |mac| == 6
    ensures EthHeader(mac)[0..6] == DstMac && EthHeader(mac)[6..12] == mac
    ensures ReadBigEndian16(EthHeader(mac), 12) == EtherTypeIpv4
  {
    var e := EthHeader(mac);
    assert e[12..] == BigEndian16(EtherTypeIpv4);
  }

  /** ... and the fixed and computed IP header fields, */
  lemma DecodeIpFields(frameLen: int, sport: uint16, dport: uint16, mac: seq<uint8>, ip: uint32, id: uint16)
    requires |mac| == 6
    ensures var f := Frame(frameLen, sport, dport, mac, ip, id);
      && |f| == HeaderLen
      && Decode(f).Some?
      && var h := Decode(f).value;
      && h.version == 4 && h.ihl == 5 && h.tos == 0 && h.totLen == Trunc16(frameLen - 14)
      && h.id == id && h.fragOff == 0 && h.ttl == 64 && h.protocol == 17
  {
  }

  /** ... the source and destination addresses, */
  lemma DecodeAddresses(frameLen: int, sport: uint16, dport: uint16, mac: seq<uint8>, ip: uint32, id: uint16)
    requires |mac| == 6
    ensures var f := Frame(frameLen, sport, dport, mac, ip, id);
      && |f| == HeaderLen
      && Decode(f).Some?
      && var h := Decode(f).value;
      && h.saddr == HostOrder32(ip) && h.daddr == HostOrder32(DstAddr)
  {
  }

  /** ... and the UDP header with its checksum field. */
  lemma DecodeUdpHeader(frameLen: int, sport: uint16, dport: uint16, mac: seq<uint8>, ip: uint32, id: uint16)
    requires |mac| == 6
    ensures var f := Frame(frameLen, sport, dport, mac, ip, id);
      && |f| == HeaderLen
      && Decode(f).Some?
      && var h := Decode(f).value;
      && h.sport == sport && h.dport == dport && h.udpLen == Trunc16(frameLen - 34)
      && h.udpCheck == UdpCheck(ip, DstAddr, Trunc16(frameLen - 34))
  {
  }

  /** The destination address goes on the wire as 10.50.130.100. */
  lemma DstAddrOnWire()
    ensures HostOrder32(DstAddr) == [10, 50, 130, 100]
  {
  }

  /** The IPv4 header of a built frame passes the receiver's check: its checksum,
      recomputed over the whole header with the filled-in field, is 0. */
  lemma IpHeaderChecks(frameLen: int, sport: uint16, dport: uint16, mac: seq<uint8>, ip: uint32, id: uint16)
    requires |mac| == 6
    ensures Checksum(Frame(frameLen, sport, dport, mac, ip, id)[14..34]) == 0
  {
    var totLen := Trunc16(frameLen - 14);
    var ip0 := IpHeader(totLen, id, ip, DstAddr, 0);
    var c := Checksum(ip0);
    ChecksumRoundTrip(ip0, 10);
    FillIpCheck(totLen, id, ip, DstAddr, c);
    FrameIpHeader(frameLen, sport, dport, mac, ip, id);
  }

  lemma FillIpCheck(totLen: uint16, id: uint16, saddr: uint32, daddr: uint32, c: uint16)
    ensures IpHeader(totLen, id, saddr, daddr, 0)[10 := c % 0x100][11 := c / 0x100]
         == IpHeader(totLen, id, saddr, daddr, c)
  {
  }

  lemma FrameIpHeader(frameLen: int, sport: uint16, dport: uint16, mac: seq<uint8>, ip: uint32, id: uint16)
    requires |mac| == 6
    ensures var ip0 := IpHeader(Trunc16(frameLen - 14), id, ip, DstAddr, 0);
      Frame(frameLen, sport, dport, mac, ip, id)[14..34] == IpHeader(Trunc16(frameLen - 14), id, ip, DstAddr, Checksum(ip0))
  {
    assert Frame(frameLen, sport, dport, mac, ip, id)[14..] == Packet(frameLen - 14, sport, dport, ip, DstAddr, id);
  }

  /** The UDP checksum field does not depend on the ports: two frames that differ
      only in their ports carry the same value there. */
  lemma UdpCheckIgnoresPorts(frameLen: int, sport: uint16, dport: uint16, sport': uint16, dport': uint16,
                             mac: seq<uint8>, ip: uint32, id: uint16)
    requires |mac| == 6
    ensures Frame(frameLen, sport, dport, mac, ip, id)[40..42] == Frame(frameLen, sport', dport', mac, ip, id)[40..42]
    ensures Frame(frameLen, sport, dport, mac, ip, id)[..34] == Frame(frameLen, sport', dport', mac, ip, id)[..34]
  {
  }

  // ---------------------------------------------------------------------------
  // The builders, writing into a caller's buffer.

  /** Stores `bytes` at `buf[pos..]`, as the assignments to one header's fields do. */
  method Store(buf: array<uint8>, pos: nat, bytes: seq<uint8>)
    requires pos + |bytes| <= buf.Length
    modifies buf
    ensures buf[pos..pos + |bytes|] == bytes
    ensures forall k :: 0 <= k < buf.Length && !(pos <= k < pos + |bytes|) ==> buf[k] == old(buf[k])
  {
    forall k | 0 <= k < |bytes| {
      buf[pos + k] := bytes[k];
    }
  }

  /** Filling the zeroed UDP checksum field at the end of the packet. */
  lemma FillUdpCheck(ip: seq<uint8>, sport: uint16, dport: uint16, len: uint16, c: uint16)
    requires |ip| == IpHeaderLen
    ensures (ip + UdpHeader(sport, dport, len, 0))[26 := c % 0x100][27 := c / 0x100]
         == ip + UdpHeader(sport, dport, len, c)
  {
  }

  /** Filling the zeroed IP checksum field of the packet. */
  lemma FillPacketIpCheck(totLen: uint16, id: uint16, saddr: uint32, daddr: uint32, udp: seq<uint8>, c: uint16)
    ensures (IpHeader(totLen, id, saddr, daddr, 0) + udp)[10 := c % 0x100][11 := c / 0x100]
         == IpHeader(totLen, id, saddr, daddr, c) + udp
  {
    FillIpCheck(totLen, id, saddr, daddr, c);
  }

  lemma SubWindow(s: seq<uint8>, off: nat, len: nat, i: nat, j: nat)
    requires i <= j <= len && off + len <= |s|
    ensures s[off..off + len][i..j] == s[off + i..off + j]
  {
    var w := s[off..off + len];
    forall k | 0 <= k < j - i
      ensures w[i..j][k] == s[off + i..off + j][k]
    {
      assert w[i..j][k] == w[i + k] == s[off + i + k];
    }
  }

  /** Stores `x` as a host-order 16-bit field at offset `k` of the window `buf[off..off + len]`. */
  method StoreHost16(buf: array<uint8>, off: nat, len: nat, k: nat, x: uint16)
    requires off + len <= buf.Length && k + 2 <= len
    modifies buf
    ensures buf[off..off + len] == old(buf[off..off + len])[k := x % 0x100][k + 1 := x / 0x100]
    ensures forall i :: 0 <= i < buf.Length && !(off <= i < off + len) ==> buf[i] == old(buf[i])
  {
    buf[off + k] := x % 0x100;
    buf[off + k + 1] := x / 0x100;
  }

  lemma PacketParts(size: int, sport: uint16, dport: uint16, saddr: uint32, daddr: uint32, id: uint16)
    ensures var udpLen := Trunc16(size - IpHeaderLen);
      Packet(size, sport, dport, saddr, daddr, id)
        == IpHeader(Trunc16(size), id, saddr, daddr, Checksum(IpHeader(Trunc16(size), id, saddr, daddr, 0)))
           + UdpHeader(sport, dport, udpLen, UdpCheck(saddr, daddr, udpLen))
  {
  }

  /** The updates of the 16-bit checksum field, term by term: the shifted port sum
      leaves nothing, the three sums add modulo 2^16, and the fold of a value that
      already fits in 16 bits changes nothing. */
  lemma UdpCheckSteps(portSum: uint16, c1: uint16, c2: uint16, h: uint16, s0: int, s1: int, s2: int, s3: int)
    requires s0 == (portSum as int * 0x1_0000) % 0x1_0000
    requires s1 == (s0 + c1) % 0x1_0000 && s2 == (s1 + c2) % 0x1_0000 && s3 == (s2 + h) % 0x1_0000
    ensures s3 / 0x1_0000 + s3 % 0x1_0000 == (c1 + c2 + h) % 0x1_0000
  {
    ShiftedOut(portSum);
    assert s1 == c1;
    AddMod16(c1 + c2, h);
  }

  /** Shifting a 16-bit value up by 16 bits leaves nothing in the low 16 bits. */
  lemma ShiftedOut(p: uint16)
    ensures (p as int * 0x1_0000) % 0x1_0000 == 0
  {
  }

  /** Reducing a partial sum modulo 2^16 before adding does not change the result. */
  lemma AddMod16(a: nat, b: nat)
    ensures (a % 0x1_0000 + b) % 0x1_0000 == (a + b) % 0x1_0000
  {
    var q := a / 0x1_0000;
    assert a + b == q * 0x1_0000 + (a % 0x1_0000 + b);
  }

  /** The `udp_data` scratch words of `build_udp_packet`: the two ports in network
      order, each in a 32-bit word, checksummed together. */
  method PortSum(sport: uint16, dport: uint16) returns (portSum: uint16)
    ensures portSum == Checksum(HostOrder32(Htons(sport)) + HostOrder32(Htons(dport)))
  {
    var udpData := new uint8[8];
    Store(udpData, 0, HostOrder32(Htons(sport)) + HostOrder32(Htons(dport)));
    portSum := Csum(udpData, 0, 8);
  }

  /** The 16-bit accumulation of the UDP checksum field in `build_udp_packet`: the
      port sum shifted out of the field, the two address sums and the length added
      with wrap-around, the no-op fold, and the complement. */
  method CombineUdpCheck(portSum: uint16, c1: uint16, c2: uint16, udpLen: uint16) returns (check: uint16)
    ensures check == UdpCheckOf(c1, c2, udpLen)
  {
    var h := Htons(udpLen);
    check := (portSum as int * 0x1_0000) % 0x1_0000;
    ghost var s0 := check;
    check := (check + c1) % 0x1_0000;
    ghost var s1 := check;
    check := (check + c2) % 0x1_0000;
    ghost var s2 := check;
    check := (check + h) % 0x1_0000;
    UdpCheckSteps(portSum, c1, c2, h, s0, s1, s2, check);
    check := check / 0x1_0000 + check % 0x1_0000;
    check := 0xffff - check;
  }

  /** The statements of `build_udp_packet` that compute the UDP checksum field from
      the ports, the two addresses already stored in the IP header at `buf[off..]`
      and the UDP length. */
  method UdpChecksumField(buf: array<uint8>, off: nat, sport: uint16, dport: uint16,
                          saddr: uint32, daddr: uint32, udpLen: uint16) returns (check: uint16)
    requires off + IpHeaderLen <= buf.Length
    requires buf[off + 12..off + 16] == HostOrder32(saddr)
    requires buf[off + 16..off + 20] == HostOrder32(daddr)
    ensures check == UdpCheck(saddr, daddr, udpLen)
  {
    var portSum := PortSum(sport, dport);
    var c1 := Csum(buf, off + 12, 4);
    var c2 := Csum(buf, off + 16, 4);
    check := CombineUdpCheck(portSum, c1, c2, udpLen);
  }

  /** `build_udp_packet(buffer, size, sport, dport, saddr, daddr)` with `buffer` at
      offset `off` of `buf` and the IP identification `id` in place of `rand()`. */
  method BuildUdpPacket(buf: array<uint8>, off: nat, size: int, sport: uint16, dport: uint16,
                        saddr: uint32, daddr: uint32, id: uint16)
    requires off + IpHeaderLen + UdpHeaderLen <= buf.Length
    modifies buf
    ensures buf[off..off + 28] == Packet(size, sport, dport, saddr, daddr, id)
    ensures forall k :: 0 <= k < buf.Length && !(off <= k < off + 28) ==> buf[k] == old(buf[k])
  {
    // The IP and UDP header fields, both checksum fields zeroed
    var totLen := Trunc16(size);
    var udpLen := Trunc16(size - IpHeaderLen);
    var ip0 := IpHeader(totLen, id, saddr, daddr, 0);
    var udp0 := UdpHeader(sport, dport, udpLen, 0);
    Store(buf, off, ip0 + udp0);
    assert buf[off..off + 28] == ip0 + udp0;

    // The UDP checksum, then the IP header checksum over the header as it stands
    SubWindow(buf[..], off, 28, 12, 16);
    SubWindow(buf[..], off, 28, 16, 20);
    var check := UdpChecksumField(buf, off, sport, dport, saddr, daddr, udpLen);
    StoreHost16(buf, off, 28, 26, check);
    FillUdpCheck(ip0, sport, dport, udpLen, check);
    var udp := UdpHeader(sport, dport, udpLen, check);
    SubWindow(buf[..], off, 28, 0, 20);
    var ipCheck := Csum(buf, off, IpHeaderLen);
    StoreHost16(buf, off, 28, 10, ipCheck);
    FillPacketIpCheck(totLen, id, saddr, daddr, udp, ipCheck);
    PacketParts(size, sport, dport, saddr, daddr, id);
  }

  /** The Ethernet header of `make_udp_packet`: destination MAC, source MAC, EtherType. */
  method StoreEthHeader(buf: array<uint8>, off: nat, mac: seq<uint8>)
    requires |mac| == 6 && off + EthHeaderLen <= buf.Length
    modifies buf
    ensures buf[off..off + EthHeaderLen] == EthHeader(mac)
    ensures forall k :: 0 <= k < buf.Length && !(off <= k < off + EthHeaderLen) ==> buf[k] == old(buf[k])
  {
    Store(buf, off, DstMac);
    Store(buf, off + 6, mac);
    Store(buf, off + 12, BigEndian16(EtherTypeIpv4));
    assert buf[off..off + 6] == DstMac;
    assert buf[off + 6..off + 12] == mac;
  }

  /** `make_udp_packet(sport, dport, ether_packet, ether_len)` with `ether_packet` at
      offset `off` of `buf`; `mac` and `ip` are what `get_eth0_ip_mac` reports for the
      egress interface, `id` the value of `rand()`. */
  method MakeUdpPacket(buf: array<uint8>, off: nat, sport: uint16, dport: uint16, frameLen: int,
                       mac: seq<uint8>, ip: uint32, id: uint16)
    requires |mac| == 6
    requires off + HeaderLen <= buf.Length
    modifies buf
    ensures buf[off..off + HeaderLen] == Frame(frameLen, sport, dport, mac, ip, id)
    ensures forall k :: 0 <= k < buf.Length && !(off <= k < off + HeaderLen) ==> buf[k] == old(buf[k])
  {
    StoreEthHeader(buf, off, mac);
    ghost var eth := buf[off..off + EthHeaderLen];
    BuildUdpPacket(buf, off + EthHeaderLen, frameLen - EthHeaderLen, sport, dport, ip, DstAddr, id);
    assert buf[off..off + EthHeaderLen] == eth;
    assert buf[off..off + HeaderLen] == eth + buf[off + EthHeaderLen..off + HeaderLen];
  }
}
