/** The raw-socket sender, and what the modifier makes of its packets. */
module Sender {
  import opened Seqs
  import opened InternetChecksum
  import opened ChecksumLaws
  import opened Packet

  /** "oooi, shia mi shi i" */
  const MESSAGE: Bytes := [111, 111, 111, 105, 44, 32, 115, 104, 105, 97, 32, 109, 105, 32, 115, 104, 105, 32, 105]
  const SOURCE_PORT: nat := 22222

  type Address = a: Bytes | |a| == 4 witness [0, 0, 0, 0]

  /** The first words of the IPv4 header, as a reader of the packet sees them. */
  ghost predicate FirstFields(h: Bytes, totalLen: nat) {
    && |h| == 20
    && h[0] == 0x45 && h[1] == 0 && Net16(h, 2) == totalLen && Net16(h, 4) == SOURCE_PORT
    && h[6] == 0 && h[7] == 0 && h[8] == 64 && h[9] == UDP
  }

  ghost predicate IpFields(h: Bytes, totalLen: nat, src: Address, dst: Address) {
    FirstFields(h, totalLen) && h[12..16] == src && h[16..20] == dst
  }

  ghost predicate UdpFields(u: Bytes, port: int, len: nat) {
    && |u| == 8
    && Net16(u, 0) == SOURCE_PORT && Net16(u, 2) == port % 65536 && Net16(u, 4) == len && u[6] == 0 && u[7] == 0
  }

  /** The header checks to zero, with the representation of zero that the code computes. */
  ghost predicate SealedHeader(h: Bytes) {
    |h| == 20 && Checksum(h) == 0 && LoadWord(h[10], h[11]) != 65535
  }

  /** What the program puts on the wire: the checksum verifies, the UDP checksum is left out. */
  ghost predicate FromSender(p: Bytes, src: Address, dst: Address, port: int) {
    && |p| == 20 + 8 + |MESSAGE|
    && IpFields(p[..20], |p|, src, dst) && SealedHeader(p[..20])
    && UdpFields(p[20..28], port, 8 + |MESSAGE|)
    && p[28..] == MESSAGE
  }

  /** Stores htons(n); the argument is truncated to 16 bits. */
  method StoreHtons(packet: array<Byte>, at: nat, n: int)
    requires at + 1 < packet.Length
    modifies packet
    ensures LoadWord(packet[at + 1], packet[at]) == n % 65536
    ensures forall j :: 0 <= j < packet.Length && j != at && j != at + 1 ==> packet[j] == old(packet[j])
  {
    var w: Word := n % 65536;
    packet[at], packet[at + 1] := w / 256, w % 256;
  }

  /** Builds the packet field by field in a zeroed buffer and sends its first packet_len bytes. */
  method BuildPacket(src: Address, dst: Address, port: int) returns (sent: Bytes)
    ensures FromSender(sent, src, dst, port)
  {
    var packet := new Byte[4096](_ => 0);
    var ipHdrLen, udpHdrLen, dataLen := 20, 8, |MESSAGE|;
    var packetLen := ipHdrLen + udpHdrLen + dataLen;
    for i := 0 to dataLen
      invariant forall j :: 0 <= j < i ==> packet[28 + j] == MESSAGE[j]
    {
      packet[ipHdrLen + udpHdrLen + i] := MESSAGE[i];
    }
    assert packet[28..47] == MESSAGE;
    WriteIpHeader(packet, packetLen, src, dst);
    WriteUdpHeader(packet, ipHdrLen, udpHdrLen + dataLen, port);
    sent := packet[..packetLen];
    SlicesOfPrefix(packet[..], packetLen);
  }

  /** The three parts of a packet are the same stretches of the buffer it was built in. */
  lemma SlicesOfPrefix(p: Bytes, n: nat)
    requires 28 <= n <= |p|
    ensures p[..n][..20] == p[..20] && p[..n][20..28] == p[20..28] && p[..n][28..] == p[28..n]
  {
  }

  lemma SealFresh(h: Bytes, c: Word)
    requires |h| == 20 && h[0] != 0 && h[IP_CHECK] == 0 && h[IP_CHECK + 1] == 0 && c == Checksum(h)
    ensures SealedHeader(StoreWord(h, IP_CHECK, c))
  {
    assert StoreWord(h, IP_CHECK, 0) == h;
    SealedVerifies(h, IP_CHECK);
    ZeroSumIff(h);
    FoldZeroIff(WordSum(h));
  }

  lemma IpFieldsStore(h: Bytes, totalLen: nat, src: Address, dst: Address, c: Word)
    requires IpFields(h, totalLen, src, dst)
    ensures IpFields(StoreWord(h, IP_CHECK, c), totalLen, src, dst)
  {
  }

  method WriteIpFields(packet: array<Byte>, packetLen: nat, src: Address, dst: Address)
    requires packet.Length == 4096 && packetLen < 65536
    modifies packet
    ensures IpFields(packet[..20], packetLen, src, dst) && packet[10] == 0 && packet[11] == 0
    ensures forall j :: 20 <= j < packet.Length ==> packet[j] == old(packet[j])
  {
    WriteFirstFields(packet, packetLen);
    ghost var h := packet[..20];
    WriteAddresses(packet, src, dst);
    assert packet[12..16] == packet[..20][12..16] && packet[16..20] == packet[..20][16..20];
    FirstFieldsStay(h, packet[..20], packetLen);
  }

  lemma FirstFieldsStay(h: Bytes, g: Bytes, totalLen: nat)
    requires FirstFields(h, totalLen) && |g| == 20 && forall j :: 0 <= j < 10 ==> g[j] == h[j]
    ensures FirstFields(g, totalLen)
  {
  }

  method WriteAddresses(packet: array<Byte>, src: Address, dst: Address)
    requires packet.Length == 4096
    modifies packet
    ensures packet[12..16] == src && packet[16..20] == dst && packet[10] == 0 && packet[11] == 0
    ensures forall j :: (0 <= j < 10 || 20 <= j < packet.Length) ==> packet[j] == old(packet[j])
  {
    packet[12], packet[13], packet[14], packet[15] := src[0], src[1], src[2], src[3];
    packet[16], packet[17], packet[18], packet[19] := dst[0], dst[1], dst[2], dst[3];
    packet[10], packet[11] := 0, 0;
  }

  method WriteFirstFields(packet: array<Byte>, packetLen: nat)
    requires packet.Length == 4096 && packetLen < 65536
    modifies packet
    ensures FirstFields(packet[..20], packetLen)
    ensures forall j :: 10 <= j < packet.Length ==> packet[j] == old(packet[j])
  {
    packet[0], packet[1] := 4 * 16 + 5, 0;       // version and ihl, tos
    StoreHtons(packet, 2, packetLen);
    StoreHtons(packet, 4, SOURCE_PORT);          // id
    packet[6], packet[7], packet[8], packet[9] := 0, 0, 64, UDP;
  }

  method WriteIpHeader(packet: array<Byte>, packetLen: nat, src: Address, dst: Address)
    requires packet.Length == 4096 && packetLen < 65536
    modifies packet
    ensures IpFields(packet[..20], packetLen, src, dst) && SealedHeader(packet[..20])
    ensures forall j :: 20 <= j < packet.Length ==> packet[j] == old(packet[j])
  {
    WriteIpFields(packet, packetLen, src, dst);
    ghost var h := packet[..20];
    assert packet[0..20] == h;
    var c := ComputeChecksum(packet, 0, 20);
    packet[IP_CHECK], packet[IP_CHECK + 1] := c % 256, c / 256;
    assert packet[..20] == StoreWord(h, IP_CHECK, c);
    SealFresh(h, c);
    IpFieldsStore(h, packetLen, src, dst, c);
  }

  method WriteUdpHeader(packet: array<Byte>, at: nat, udpLen: nat, port: int)
    requires at + 8 <= packet.Length && udpLen < 65536
    modifies packet
    ensures UdpFields(packet[at..at + 8], port, udpLen)
    ensures packet[..at] == old(packet[..at]) && packet[at + 8..] == old(packet[at + 8..])
  {
    StoreHtons(packet, at, SOURCE_PORT);
    StoreHtons(packet, at + 2, port);
    StoreHtons(packet, at + 4, udpLen);
    packet[at + 6], packet[at + 7] := 0, 0;
  }

  // ---------------------------------------------------------------- sender, then modifier

  lemma FrameFields(eth: Bytes, p: Bytes, src: Address, dst: Address, port: int)
    requires |eth| == ETH_LEN && eth[12] == 8 && eth[13] == 0 && FromSender(p, src, dst, port)
    ensures IsSenderFrame(eth + p, port)
  {
    var f, h, u := eth + p, p[..20], p[20..28];
    assert f[14] == h[0] && f[16] == h[2] && f[17] == h[3] && f[20] == h[6] && f[21] == h[7] && f[23] == h[9];
    assert f[36] == u[2] && f[37] == u[3] && f[38] == u[4] && f[39] == u[5];
  }

  ghost predicate IsSenderFrame(f: Bytes, port: int) {
    && |f| == 61 && Net16(f, 12) == 0x0800 && f[14] == 0x45 && Net16(f, 16) == 47 && Net16(f, 20) == 0
    && f[23] == UDP && Net16(f, 36) == port % 65536 && Net16(f, 38) == 27
  }

  lemma SenderFrameUdp(f: Bytes, port: int, target: int)
    requires IsSenderFrame(f, port)
    ensures ParseUdp(f, 20, 47, target) ==
            if target == port % 65536 then Some(Layout(20, 47, UDP, 27, 8, 6)) else None
  {
  }

  lemma SenderFrameParses(f: Bytes, port: int, target: int)
    requires IsSenderFrame(f, port)
    ensures Parse(f, false, target) == ParseUdp(f, 20, 47, target)
  {
  }

  /** Framed as IPv4, a sender packet is taken by the modifier exactly when it listens on that port. */
  lemma ModifierTakesSenderPacket(eth: Bytes, p: Bytes, src: Address, dst: Address, port: int, target: int)
    requires |eth| == ETH_LEN && eth[12] == 8 && eth[13] == 0 && FromSender(p, src, dst, port)
    ensures Parse(eth + p, false, target) ==
            if target == port % 65536 then Some(Layout(20, 47, UDP, 27, 8, 6)) else None
  {
    FrameFields(eth, p, src, dst, port);
    SenderFrameParses(eth + p, port, target);
    SenderFrameUdp(eth + p, port, target);
  }

  /** A payload as long as the text becomes exactly the text. */
  lemma PayloadIsText(f: Bytes, l: Layout)
    requires Fits(f, l) && l.PayloadLen() == |MODIFY_TEXT|
    ensures Segment(Rewrite(f, l), l)[l.hdrLen..] == MODIFY_TEXT
  {
    RewrittenPayload(f, l);
    TextFits(|MODIFY_TEXT|);
    TailOfStretch(Rewrite(f, l), l.Seg(), l.Payload(), l.Seg() + l.segLen);
  }

  lemma TextFits(n: nat)
    requires n == |MODIFY_TEXT|
    ensures NewPayload(n) == MODIFY_TEXT
  {
  }

  lemma TailOfStretch(g: Bytes, from: nat, mid: nat, to: nat)
    requires from <= mid <= to <= |g|
    ensures g[from..to][mid - from..] == g[mid..to]
  {
  }

  /** Its message and the modifier's text have the same length, so the receiver reads exactly the text;
      and the IPv4 header arrives as it was sent. */
  lemma ReceiverSeesModifiedText(eth: Bytes, p: Bytes, src: Address, dst: Address, port: int)
    requires |eth| == ETH_LEN && eth[12] == 8 && eth[13] == 0 && FromSender(p, src, dst, port)
    ensures var l := Layout(20, 47, UDP, 27, 8, 6);
            && Fits(eth + p, l)
            && Segment(Rewrite(eth + p, l), l)[8..] == MODIFY_TEXT
            && Header(Rewrite(eth + p, l), l) == p[..20]
  {
    var l := Layout(20, 47, UDP, 27, 8, 6);
    var f := eth + p;
    ModifierTakesSenderPacket(eth, p, src, dst, port, port % 65536);
    ParseFits(f, false, port % 65536);
    assert Header(f, l) == p[..20];
    ValidHeaderKept(f, false, port % 65536);
    PayloadIsText(f, l);
  }
}
