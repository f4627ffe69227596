/**
 The packet modifier on values: the guards that accept a received Ethernet frame, and
 the rewritten frame. A frame is exactly the bytes received, so every index below is
 proved to lie inside them.
 */
module Packet {
  import opened Seqs
  import opened InternetChecksum
  import opened ChecksumLaws

  const ETH_LEN: nat := 14       // sizeof(struct ethhdr)
  const PSEUDO_LEN: nat := 12    // sizeof(struct pseudo_header)
  const IP_CHECK: nat := 10      // offset of the checksum in an IPv4 header
  const UDP: Byte := 17
  const TCP: Byte := 6

  /** "MODIFIED_BY_HW5_1_5" */
  const MODIFY_TEXT: Bytes := [77, 79, 68, 73, 70, 73, 69, 68, 95, 66, 89, 95, 72, 87, 53, 95, 49, 95, 53]

  /** What the guards find in an accepted frame: the IPv4 header and total lengths, the protocol,
      the length of the transport segment and of its header, and the offset of its checksum. */
  datatype Layout = Layout(ipLen: nat, totalLen: nat, proto: Byte, segLen: nat, hdrLen: nat, check: nat) {
    function Seg(): nat { ETH_LEN + ipLen }
    function Payload(): nat { Seg() + hdrLen }
    function PayloadLen(): int { segLen - hdrLen }
  }

  /** ntohs of the two bytes at i. */
  function Net16(f: Bytes, i: nat): Word
    requires i + 1 < |f|
  {
    LoadWord(f[i + 1], f[i])
  }

  // ---------------------------------------------------------------- the guards

  function ParseUdp(f: Bytes, ipLen: nat, totalLen: nat, port: int): Option<Layout>
    requires ETH_LEN + totalLen <= |f|
  {
    var seg := ETH_LEN + ipLen;
    if totalLen < ipLen + 8 then None
    else if Net16(f, seg + 2) != port then None
    else
      var udpLen := Net16(f, seg + 4);
      if udpLen < 8 || totalLen < ipLen + udpLen || udpLen - 8 <= 0 then None
      else Some(Layout(ipLen, totalLen, UDP, udpLen, 8, 6))
  }

  function ParseTcp(f: Bytes, ipLen: nat, totalLen: nat, port: int): Option<Layout>
    requires ETH_LEN + totalLen <= |f|
  {
    var seg := ETH_LEN + ipLen;
    if totalLen < ipLen + 20 then None
    else if Net16(f, seg + 2) != port then None
    else
      var hdrLen := f[seg + 12] / 16 * 4;
      if hdrLen < 20 || totalLen < ipLen + hdrLen || totalLen - ipLen - hdrLen <= 0 then None
      else Some(Layout(ipLen, totalLen, TCP, totalLen - ipLen, hdrLen, 16))
  }

  /** The nested length guards, in the order of the receive loop. */
  function Parse(f: Bytes, outgoing: bool, port: int): Option<Layout> {
    if outgoing then None
    else if |f| < ETH_LEN then None
    else if Net16(f, 12) != 0x0800 then None
    else if |f| < ETH_LEN + 20 then None
    else
      var ipLen := f[14] % 16 * 4;
      if f[14] / 16 != 4 then None
      else if ipLen < 20 then None
      else if |f| < ETH_LEN + ipLen then None
      else if Net16(f, 20) % 0x4000 != 0 then None
      else
        var totalLen := Net16(f, 16);
        if totalLen < ipLen then None
        else if |f| < ETH_LEN + totalLen then None
        else if f[23] == UDP then ParseUdp(f, ipLen, totalLen, port)
        else if f[23] == TCP then ParseTcp(f, ipLen, totalLen, port)
        else None
  }

  /** Everything the rewrite relies on. */
  ghost predicate Fits(f: Bytes, l: Layout) {
    && 20 <= l.ipLen <= 60 && l.ipLen % 4 == 0
    && 8 <= l.hdrLen < l.segLen && 6 <= l.check <= l.hdrLen - 2 && l.check % 2 == 0
    && 0 < l.proto && l.ipLen + l.segLen <= l.totalLen < 65536
    && ETH_LEN + l.totalLen <= |f|
  }

  lemma ParseUdpFits(f: Bytes, ipLen: nat, totalLen: nat, port: int)
    requires ETH_LEN + totalLen <= |f| && totalLen < 65536
    ensures match ParseUdp(f, ipLen, totalLen, port)
            case None => true
            case Some(l) =>
              && l.ipLen == ipLen && l.totalLen == totalLen && l.proto == UDP && l.hdrLen == 8 && l.check == 6
              && 8 < l.segLen <= totalLen - ipLen
  {
  }

  lemma ParseTcpFits(f: Bytes, ipLen: nat, totalLen: nat, port: int)
    requires ETH_LEN + totalLen <= |f| && totalLen < 65536
    ensures match ParseTcp(f, ipLen, totalLen, port)
            case None => true
            case Some(l) =>
              && l.ipLen == ipLen && l.totalLen == totalLen && l.proto == TCP && l.check == 16
              && 20 <= l.hdrLen < l.segLen == totalLen - ipLen
  {
  }

  /** Lengths an accepted frame is known to have; the last line is why transport_checksum never takes
      its early return. */
  lemma ParseFits(f: Bytes, outgoing: bool, port: int)
    requires Parse(f, outgoing, port).Some?
    ensures var l := Parse(f, outgoing, port).value;
            && Fits(f, l)
            && (l.proto == UDP ==> l.check == 6 && l.hdrLen == 8)
            && (l.proto == TCP ==> l.check == 16 && l.hdrLen >= 20 && l.segLen == l.totalLen - l.ipLen)
            && PSEUDO_LEN + l.segLen < 65536
  {
    ParseUdpFits(f, f[14] % 16 * 4, Net16(f, 16), port);
    ParseTcpFits(f, f[14] % 16 * 4, Net16(f, 16), port);
  }

  // ---------------------------------------------------------------- the guards, in the standards' terms

  ghost function HeaderWords(f: Bytes): nat requires |f| >= 34 { f[14] % 16 }
  ghost function TotalLength(f: Bytes): nat requires |f| >= 34 { Net16(f, 16) }
  ghost function MoreFragments(f: Bytes): bool requires |f| >= 34 { Net16(f, 20) / 0x2000 % 2 == 1 }
  ghost function FragmentOffset(f: Bytes): nat requires |f| >= 34 { Net16(f, 20) % 0x2000 }

  /** A complete, unfragmented IPv4 datagram in an Ethernet frame (section 3.1 of RFC 791). */
  ghost predicate WholeIpv4(f: Bytes) {
    && |f| >= 34 && Net16(f, 12) == 0x0800 && f[14] / 16 == 4
    && 5 <= HeaderWords(f) && 4 * HeaderWords(f) <= TotalLength(f) && ETH_LEN + TotalLength(f) <= |f|
    && !MoreFragments(f) && FragmentOffset(f) == 0
  }

  /** A UDP datagram with payload for the port, inside the IPv4 datagram (RFC 768). */
  ghost predicate UdpFor(f: Bytes, port: int)
    requires WholeIpv4(f)
  {
    var seg, room := ETH_LEN + 4 * HeaderWords(f), TotalLength(f) - 4 * HeaderWords(f);
    f[23] == 17 && room >= 8 && Net16(f, seg + 2) == port && 8 < Net16(f, seg + 4) <= room
  }

  /** A TCP segment with payload for the port, filling the IPv4 datagram (section 3.1 of RFC 9293). */
  ghost predicate TcpFor(f: Bytes, port: int)
    requires WholeIpv4(f)
  {
    var seg, room := ETH_LEN + 4 * HeaderWords(f), TotalLength(f) - 4 * HeaderWords(f);
    f[23] == 6 && room >= 20 && Net16(f, seg + 2) == port && 5 <= f[seg + 12] / 16 && 4 * (f[seg + 12] / 16) < room
  }

  lemma FragmentBits(v: Word)
    ensures v % 0x4000 == 0 <==> v / 0x2000 % 2 == 0 && v % 0x2000 == 0
  {
    assert v == 0x4000 * (v / 0x4000) + v % 0x4000;
    assert v == 0x2000 * (v / 0x2000) + v % 0x2000;
  }

  /** A frame is taken exactly when it was not sent by this host and holds a whole UDP or TCP payload
      for the port. */
  lemma TakenIff(f: Bytes, outgoing: bool, port: int)
    ensures Parse(f, outgoing, port).Some? <==> !outgoing && WholeIpv4(f) && (UdpFor(f, port) || TcpFor(f, port))
  {
    if |f| >= 34 {
      FragmentBits(Net16(f, 20));
    }
  }

  // ---------------------------------------------------------------- the rewrite

  /** f with part written over it at position at. */
  function Splice(f: Bytes, at: nat, part: Bytes): (r: Bytes)
    requires at + |part| <= |f|
    ensures |r| == |f|
    ensures forall i {:trigger r[i]} :: 0 <= i < |f| ==>
              r[i] == if at <= i < at + |part| then part[i - at] else f[i]
  {
    f[..at] + part + f[at + |part|..]
  }

  /** The text, cut or padded with blanks to n bytes. */
  function NewPayload(n: nat): Bytes {
    seq(n, i => if 0 <= i < |MODIFY_TEXT| then MODIFY_TEXT[i] else 32)
  }

  function Header(f: Bytes, l: Layout): Bytes
    requires Fits(f, l)
  {
    f[ETH_LEN..l.Seg()]
  }

  function Segment(f: Bytes, l: Layout): Bytes
    requires Fits(f, l)
  {
    f[l.Seg()..l.Seg() + l.segLen]
  }

  /** The pseudo-header in memory: both addresses, zero, the protocol and the length in network order. */
  function Pseudo(f: Bytes, l: Layout): (r: Bytes)
    requires Fits(f, l)
    ensures |r| == PSEUDO_LEN
  {
    f[26..34] + [0, l.proto, l.segLen / 256, l.segLen % 256]
  }

  function WithPayload(f: Bytes, l: Layout): (r: Bytes)
    requires Fits(f, l)
    ensures |r| == |f|
  {
    Splice(f, l.Payload(), NewPayload(l.PayloadLen()))
  }

  function WithIpCheck(f: Bytes, l: Layout): (r: Bytes)
    requires Fits(f, l)
    ensures |r| == |f|
  {
    Splice(f, ETH_LEN, Seal(Header(f, l), IP_CHECK))
  }

  function WithSegCheck(f: Bytes, l: Layout): (r: Bytes)
    requires Fits(f, l)
    ensures |r| == |f|
  {
    Splice(f, l.Seg(), Seal(Pseudo(f, l) + Segment(f, l), PSEUDO_LEN + l.check)[PSEUDO_LEN..])
  }

  function Rewrite(f: Bytes, l: Layout): (r: Bytes)
    requires Fits(f, l)
    ensures |r| == |f|
  {
    WithSegCheck(WithIpCheck(WithPayload(f, l), l), l)
  }

  // ---------------------------------------------------------------- what it changes

  ghost predicate InPayload(l: Layout, i: int) { l.Payload() <= i < l.Seg() + l.segLen }
  ghost predicate InIpCheck(i: int) { ETH_LEN + IP_CHECK <= i < ETH_LEN + IP_CHECK + 2 }
  ghost predicate InSegCheck(l: Layout, i: int) { l.Seg() + l.check <= i < l.Seg() + l.check + 2 }

  lemma WithPayloadAt(f: Bytes, l: Layout, i: nat)
    requires Fits(f, l) && i < |f|
    ensures WithPayload(f, l)[i] == if InPayload(l, i) then NewPayload(l.PayloadLen())[i - l.Payload()] else f[i]
  {
  }

  lemma WithIpCheckAt(f: Bytes, l: Layout, i: nat)
    requires Fits(f, l) && i < |f| && !InIpCheck(i)
    ensures WithIpCheck(f, l)[i] == f[i]
  {
  }

  lemma WithSegCheckAt(f: Bytes, l: Layout, i: nat)
    requires Fits(f, l) && i < |f| && !InSegCheck(l, i)
    ensures WithSegCheck(f, l)[i] == f[i]
  {
  }

  /** Only the payload and the two checksum fields change, and the payload becomes the text. */
  lemma RewriteFrame(f: Bytes, l: Layout, i: nat)
    requires Fits(f, l) && i < |f|
    ensures !InPayload(l, i) && !InIpCheck(i) && !InSegCheck(l, i) ==> Rewrite(f, l)[i] == f[i]
    ensures InPayload(l, i) ==> Rewrite(f, l)[i] == NewPayload(l.PayloadLen())[i - l.Payload()]
  {
    var f1 := WithPayload(f, l);
    var f2 := WithIpCheck(f1, l);
    WithPayloadAt(f, l, i);
    if !InIpCheck(i) && !InSegCheck(l, i) {
      WithIpCheckAt(f1, l, i);
      WithSegCheckAt(f2, l, i);
    }
  }

  lemma RewrittenPayload(f: Bytes, l: Layout)
    requires Fits(f, l)
    ensures Rewrite(f, l)[l.Payload()..l.Seg() + l.segLen] == NewPayload(l.PayloadLen())
  {
    var g, part := Rewrite(f, l), NewPayload(l.PayloadLen());
    forall i | l.Payload() <= i < l.Seg() + l.segLen ensures g[i] == part[i - l.Payload()] {
      RewriteFrame(f, l, i);
    }
    assert g[l.Payload()..l.Seg() + l.segLen] == part;
  }

  // ---------------------------------------------------------------- what stays true

  /** The bytes the guards look at. */
  ghost predicate AgreeOnHeaders(f: Bytes, g: Bytes, l: Layout)
    requires Fits(f, l) && |g| == |f|
  {
    && f[12..24] == g[12..24]
    && f[l.Seg()..l.Seg() + 6] == g[l.Seg()..l.Seg() + 6]
    && (l.proto == TCP && l.hdrLen >= 20 ==> f[l.Seg() + 12] == g[l.Seg() + 12])
  }

  lemma AgreeAt(f: Bytes, g: Bytes, from: nat, to: nat, i: nat)
    requires from <= i < to <= |f| && |g| == |f| && f[from..to] == g[from..to]
    ensures f[i] == g[i]
  {
    assert f[from..to][i - from] == g[from..to][i - from];
  }

  lemma SameIpGuards(f: Bytes, g: Bytes, l: Layout)
    requires Fits(f, l) && |g| == |f| && f[12..24] == g[12..24]
    ensures Net16(f, 12) == Net16(g, 12) && f[14] == g[14] && Net16(f, 16) == Net16(g, 16)
    ensures Net16(f, 20) == Net16(g, 20) && f[23] == g[23]
  {
    forall i | 12 <= i < 24 ensures f[i] == g[i] { AgreeAt(f, g, 12, 24, i); }
  }

  lemma SameSegGuards(f: Bytes, g: Bytes, l: Layout)
    requires Fits(f, l) && |g| == |f| && f[l.Seg()..l.Seg() + 6] == g[l.Seg()..l.Seg() + 6]
    ensures Net16(f, l.Seg() + 2) == Net16(g, l.Seg() + 2) && Net16(f, l.Seg() + 4) == Net16(g, l.Seg() + 4)
  {
    forall i | l.Seg() <= i < l.Seg() + 6 ensures f[i] == g[i] { AgreeAt(f, g, l.Seg(), l.Seg() + 6, i); }
  }

  lemma ParseUdpAgrees(f: Bytes, g: Bytes, ipLen: nat, totalLen: nat, port: int)
    requires |g| == |f| && ETH_LEN + totalLen <= |f| && ParseUdp(f, ipLen, totalLen, port).Some?
    requires var seg := ETH_LEN + ipLen;
             Net16(f, seg + 2) == Net16(g, seg + 2) && Net16(f, seg + 4) == Net16(g, seg + 4)
    ensures ParseUdp(g, ipLen, totalLen, port) == ParseUdp(f, ipLen, totalLen, port)
  {
  }

  lemma ParseTcpAgrees(f: Bytes, g: Bytes, ipLen: nat, totalLen: nat, port: int)
    requires |g| == |f| && ETH_LEN + totalLen <= |f| && ParseTcp(f, ipLen, totalLen, port).Some?
    requires var seg := ETH_LEN + ipLen;
             Net16(f, seg + 2) == Net16(g, seg + 2) && f[seg + 12] == g[seg + 12]
    ensures ParseTcp(g, ipLen, totalLen, port) == ParseTcp(f, ipLen, totalLen, port)
  {
  }

  lemma ParseAgrees(f: Bytes, g: Bytes, outgoing: bool, port: int)
    requires Parse(f, outgoing, port).Some? && |g| == |f|
    requires Fits(f, Parse(f, outgoing, port).value)
    requires AgreeOnHeaders(f, g, Parse(f, outgoing, port).value)
    ensures Parse(g, outgoing, port) == Parse(f, outgoing, port)
  {
    var l := Parse(f, outgoing, port).value;
    var ipLen, totalLen := f[14] % 16 * 4, Net16(f, 16);
    ParseUdpFits(f, ipLen, totalLen, port);
    ParseTcpFits(f, ipLen, totalLen, port);
    assert l.ipLen == ipLen;
    SameIpGuards(f, g, l);
    SameSegGuards(f, g, l);
    if f[23] == UDP {
      ParseUdpAgrees(f, g, ipLen, totalLen, port);
    } else {
      ParseTcpAgrees(f, g, ipLen, totalLen, port);
    }
  }

  lemma RewriteKeepsHeaders(f: Bytes, l: Layout)
    requires Fits(f, l) && (l.proto == TCP ==> l.hdrLen >= 20 && l.check == 16)
    ensures AgreeOnHeaders(f, Rewrite(f, l), l)
  {
    forall i | 12 <= i < 24 ensures f[i] == Rewrite(f, l)[i] { RewriteFrame(f, l, i); }
    forall i | l.Seg() <= i < l.Seg() + 6 ensures f[i] == Rewrite(f, l)[i] { RewriteFrame(f, l, i); }
    if l.proto == TCP { RewriteFrame(f, l, l.Seg() + 12); }
  }

  /** A rewritten frame passes the same guards with the same lengths. */
  lemma RewriteParses(f: Bytes, outgoing: bool, port: int)
    requires Parse(f, outgoing, port).Some?
    ensures Fits(f, Parse(f, outgoing, port).value)
    ensures Parse(Rewrite(f, Parse(f, outgoing, port).value), outgoing, port) == Parse(f, outgoing, port)
  {
    ParseFits(f, outgoing, port);
    RewriteKeepsHeaders(f, Parse(f, outgoing, port).value);
    ParseAgrees(f, Rewrite(f, Parse(f, outgoing, port).value), outgoing, port);
  }

  lemma SplicedPart(f: Bytes, at: nat, part: Bytes)
    requires at + |part| <= |f|
    ensures Splice(f, at, part)[at..at + |part|] == part
  {
  }

  lemma SegCheckKeepsHeader(f: Bytes, l: Layout)
    requires Fits(f, l)
    ensures Header(WithSegCheck(f, l), l) == Header(f, l)
    ensures Pseudo(WithSegCheck(f, l), l) == Pseudo(f, l)
  {
  }

  lemma IpCheckKeepsRest(f: Bytes, l: Layout)
    requires Fits(f, l)
    ensures Segment(WithIpCheck(f, l), l) == Segment(f, l)
    ensures Pseudo(WithIpCheck(f, l), l) == Pseudo(f, l)
  {
    var g := WithIpCheck(f, l);
    forall i | 26 <= i < 34 ensures g[i] == f[i] { WithIpCheckAt(f, l, i); }
    assert g[26..34] == f[26..34];
  }

  lemma WithSegCheckSegment(f: Bytes, l: Layout)
    requires Fits(f, l)
    ensures Pseudo(f, l) + Segment(WithSegCheck(f, l), l) ==
            Seal(Pseudo(f, l) + Segment(f, l), PSEUDO_LEN + l.check)
  {
    var p := Pseudo(f, l);
    var sealed := Seal(p + Segment(f, l), PSEUDO_LEN + l.check);
    SplicedPart(f, l.Seg(), sealed[PSEUDO_LEN..]);
    assert sealed[..PSEUDO_LEN] == p;
  }

  /** Both checksums of a rewritten frame verify: the IPv4 header's, and the segment's over the
      pseudo-header. */
  lemma RewriteVerifies(f: Bytes, l: Layout)
    requires Fits(f, l)
    ensures Checksum(Header(Rewrite(f, l), l)) == 0
    ensures Checksum(Pseudo(Rewrite(f, l), l) + Segment(Rewrite(f, l), l)) == 0
  {
    var f1 := WithPayload(f, l);
    var f2 := WithIpCheck(f1, l);
    SegCheckKeepsHeader(f2, l);
    IpCheckVerifies(f1, l);
    SegCheckVerifies(f2, l);
  }

  lemma IpCheckVerifies(f: Bytes, l: Layout)
    requires Fits(f, l)
    ensures Checksum(Header(WithIpCheck(f, l), l)) == 0
  {
    SplicedPart(f, ETH_LEN, Seal(Header(f, l), IP_CHECK));
    SealedVerifies(Header(f, l), IP_CHECK);
  }

  lemma SegCheckVerifies(f: Bytes, l: Layout)
    requires Fits(f, l)
    ensures Checksum(Pseudo(WithSegCheck(f, l), l) + Segment(WithSegCheck(f, l), l)) == 0
  {
    SegCheckKeepsHeader(f, l);
    WithSegCheckSegment(f, l);
    SealedVerifies(Pseudo(f, l) + Segment(f, l), PSEUDO_LEN + l.check);
  }

  // ---------------------------------------------------------------- what is sent

  /** The rewritten IP datagram in its Ethernet frame; bytes received behind it are not sent on. */
  function Sent(f: Bytes, l: Layout): (r: Bytes)
    requires Fits(f, l)
    ensures |r| == ETH_LEN + l.totalLen
  {
    Rewrite(f, l)[..ETH_LEN + l.totalLen]
  }

  lemma UdpPrefixParses(f: Bytes, n: nat, ipLen: nat, totalLen: nat, port: int)
    requires ETH_LEN + totalLen <= n <= |f|
    ensures ParseUdp(f[..n], ipLen, totalLen, port) == ParseUdp(f, ipLen, totalLen, port)
  {
  }

  lemma TcpPrefixParses(f: Bytes, n: nat, ipLen: nat, totalLen: nat, port: int)
    requires ETH_LEN + totalLen <= n <= |f|
    ensures ParseTcp(f[..n], ipLen, totalLen, port) == ParseTcp(f, ipLen, totalLen, port)
  {
  }

  /** The guards before the transport protocol is looked at. */
  ghost predicate IpGuards(f: Bytes, outgoing: bool) {
    && !outgoing && |f| >= ETH_LEN + 20 && Net16(f, 12) == 0x0800 && f[14] / 16 == 4 && Net16(f, 20) % 0x4000 == 0
    && 20 <= f[14] % 16 * 4 <= Net16(f, 16) && ETH_LEN + Net16(f, 16) <= |f|
  }

  lemma ParseInTwo(f: Bytes, outgoing: bool, port: int)
    ensures Parse(f, outgoing, port) ==
            if !IpGuards(f, outgoing) then None
            else if f[23] == UDP then ParseUdp(f, f[14] % 16 * 4, Net16(f, 16), port)
            else if f[23] == TCP then ParseTcp(f, f[14] % 16 * 4, Net16(f, 16), port)
            else None
  {
  }

  lemma PrefixGuards(f: Bytes, n: nat, outgoing: bool)
    requires IpGuards(f, outgoing) && ETH_LEN + Net16(f, 16) <= n <= |f|
    ensures IpGuards(f[..n], outgoing)
    ensures f[..n][14] == f[14] && f[..n][23] == f[23] && Net16(f[..n], 16) == Net16(f, 16)
  {
    var g := f[..n];
    assert forall i :: 0 <= i < 34 ==> g[i] == f[i];
  }

  /** Bytes behind the IP datagram do not matter to the guards. */
  lemma PrefixParses(f: Bytes, n: nat, outgoing: bool, port: int)
    requires IpGuards(f, outgoing) && ETH_LEN + Net16(f, 16) <= n <= |f|
    ensures Parse(f[..n], outgoing, port) == Parse(f, outgoing, port)
  {
    var ipLen, totalLen := f[14] % 16 * 4, Net16(f, 16);
    ParseInTwo(f, outgoing, port);
    ParseInTwo(f[..n], outgoing, port);
    PrefixGuards(f, n, outgoing);
    UdpPrefixParses(f, n, ipLen, totalLen, port);
    TcpPrefixParses(f, n, ipLen, totalLen, port);
  }

  lemma TakenGuards(f: Bytes, outgoing: bool, port: int)
    requires Parse(f, outgoing, port).Some?
    ensures IpGuards(f, outgoing) && Parse(f, outgoing, port).value.totalLen == Net16(f, 16)
  {
    ParseInTwo(f, outgoing, port);
    ParseUdpFits(f, f[14] % 16 * 4, Net16(f, 16), port);
    ParseTcpFits(f, f[14] % 16 * 4, Net16(f, 16), port);
  }

  lemma PrefixParts(f: Bytes, n: nat, l: Layout)
    requires Fits(f, l) && ETH_LEN + l.totalLen <= n <= |f|
    ensures Fits(f[..n], l) && Header(f[..n], l) == Header(f, l) && Segment(f[..n], l) == Segment(f, l)
    ensures Pseudo(f[..n], l) == Pseudo(f, l)
  {
    assert f[..n][26..34] == f[26..34];
  }

  /** What leaves the modifier is a frame that the modifier's own guards accept with the same layout,
      and both of its checksums verify. */
  lemma SentFrameIsValid(f: Bytes, outgoing: bool, port: int)
    requires Parse(f, outgoing, port).Some?
    ensures var l := Parse(f, outgoing, port).value;
            && Fits(f, l) && Fits(Sent(f, l), l)
            && Parse(Sent(f, l), outgoing, port) == Some(l)
            && Checksum(Header(Sent(f, l), l)) == 0
            && Checksum(Pseudo(Sent(f, l), l) + Segment(Sent(f, l), l)) == 0
  {
    var l := Parse(f, outgoing, port).value;
    ParseFits(f, outgoing, port);
    RewriteParses(f, outgoing, port);
    RewriteVerifies(f, l);
    TakenGuards(Rewrite(f, l), outgoing, port);
    PrefixParses(Rewrite(f, l), ETH_LEN + l.totalLen, outgoing, port);
    PrefixParts(Rewrite(f, l), ETH_LEN + l.totalLen, l);
  }

  // ---------------------------------------------------------------- rewriting twice

  lemma SpliceTwice(f: Bytes, at: nat, part: Bytes)
    requires at + |part| <= |f| && f[at..at + |part|] == part
    ensures Splice(f, at, part) == f
  {
    assert f == f[..at] + f[at..at + |part|] + f[at + |part|..];
  }

  lemma PayloadStays(f: Bytes, l: Layout)
    requires Fits(f, l)
    ensures WithPayload(Rewrite(f, l), l) == Rewrite(f, l)
  {
    RewrittenPayload(f, l);
    SpliceTwice(Rewrite(f, l), l.Payload(), NewPayload(l.PayloadLen()));
  }

  lemma IpCheckStays(f: Bytes, l: Layout)
    requires Fits(f, l)
    ensures WithIpCheck(Rewrite(f, l), l) == Rewrite(f, l)
  {
    var f1 := WithPayload(f, l);
    var f2 := WithIpCheck(f1, l);
    var g := Rewrite(f, l);
    SegCheckKeepsHeader(f2, l);
    SplicedPart(f1, ETH_LEN, Seal(Header(f1, l), IP_CHECK));
    assert Header(g, l) == Seal(Header(f1, l), IP_CHECK);
    SealTwice(Header(f1, l), IP_CHECK);
    SpliceTwice(g, ETH_LEN, Seal(Header(g, l), IP_CHECK));
  }

  lemma SegCheckStays(f: Bytes, l: Layout)
    requires Fits(f, l)
    ensures WithSegCheck(WithSegCheck(f, l), l) == WithSegCheck(f, l)
  {
    var g := WithSegCheck(f, l);
    SealedSegment(f, l);
    SpliceTwice(g, l.Seg(), Segment(g, l));
  }

  lemma SealedSegment(f: Bytes, l: Layout)
    requires Fits(f, l)
    ensures var g := WithSegCheck(f, l);
            Seal(Pseudo(g, l) + Segment(g, l), PSEUDO_LEN + l.check)[PSEUDO_LEN..] == Segment(g, l)
  {
    var g := WithSegCheck(f, l);
    SegCheckKeepsHeader(f, l);
    WithSegCheckSegment(f, l);
    SealTwice(Pseudo(f, l) + Segment(f, l), PSEUDO_LEN + l.check);
    assert (Pseudo(g, l) + Segment(g, l))[PSEUDO_LEN..] == Segment(g, l);
  }

  /** The rewrite is idempotent. */
  lemma RewriteTwice(f: Bytes, l: Layout)
    requires Fits(f, l)
    ensures Rewrite(Rewrite(f, l), l) == Rewrite(f, l)
  {
    PayloadStays(f, l);
    IpCheckStays(f, l);
    SegCheckStays(WithIpCheck(WithPayload(f, l), l), l);
  }

  /** A header whose checksum was already right keeps it, except that an all-ones field becomes zero. */
  lemma ValidHeaderKept(f: Bytes, outgoing: bool, port: int)
    requires Parse(f, outgoing, port).Some?
    requires Fits(f, Parse(f, outgoing, port).value)
    requires Checksum(Header(f, Parse(f, outgoing, port).value)) == 0
    ensures var l := Parse(f, outgoing, port).value;
            var h := Header(f, l);
            Header(Rewrite(f, l), l) ==
              if LoadWord(h[10], h[11]) == 65535 then StoreWord(h, IP_CHECK, 0) else h
  {
    var l := Parse(f, outgoing, port).value;
    var f1 := WithPayload(f, l);
    SegCheckKeepsHeader(WithIpCheck(f1, l), l);
    PayloadKeepsHeader(f, l);
    SplicedPart(f1, ETH_LEN, Seal(Header(f1, l), IP_CHECK));
    ResealHeader(Header(f, l));
  }

  lemma PayloadKeepsHeader(f: Bytes, l: Layout)
    requires Fits(f, l)
    ensures Header(WithPayload(f, l), l) == Header(f, l)
  {
  }

  lemma ResealHeader(h: Bytes)
    requires |h| >= 20 && h[0] != 0 && Checksum(h) == 0
    ensures Seal(h, IP_CHECK) == if LoadWord(h[10], h[11]) == 65535 then StoreWord(h, IP_CHECK, 0) else h
  {
    ResealValid(h, IP_CHECK);
    OthersZeroIff(h, IP_CHECK);
  }

  /** The stored field is zero exactly when the sum over pseudo-header and segment, field left out, is a
      multiple of 65535. */
  lemma SegCheckZeroIff(f: Bytes, l: Layout)
    requires Fits(f, l)
    ensures var seg := Segment(WithSegCheck(f, l), l);
            seg[l.check] == 0 && seg[l.check + 1] == 0 <==>
            WordSum(Pseudo(f, l) + StoreWord(Segment(f, l), l.check, 0)) % 65535 == 0
  {
    var p, seg := Pseudo(f, l), Segment(f, l);
    var at := PSEUDO_LEN + l.check;
    var sealed := Seal(p + seg, at);
    WithSegCheckSegment(f, l);
    var out := Segment(WithSegCheck(f, l), l);
    assert sealed[at] == out[l.check] && sealed[at + 1] == out[l.check + 1];
    var z := StoreWord(p + seg, at, 0);
    assert z == p + StoreWord(seg, l.check, 0);
    assert z[9] == l.proto;
    ZeroSumIff(z);
    ChecksumZeroIff(z);
  }

  /** What the new payload changes of the summed bytes. */
  lemma NewSegment(f: Bytes, l: Layout)
    requires Fits(f, l)
    ensures Segment(WithPayload(f, l), l) == f[l.Seg()..l.Payload()] + NewPayload(l.PayloadLen())
    ensures Pseudo(WithPayload(f, l), l) == Pseudo(f, l)
  {
    var g := WithPayload(f, l);
    forall i | 26 <= i < 34 ensures g[i] == f[i] { WithPayloadAt(f, l, i); }
    assert g[26..34] == f[26..34];
  }

  /** The code sends a computed zero as it is: the rewritten frame carries a zero transport checksum
      exactly when the received pseudo-header, the received transport header with its checksum left out
      and the new payload sum to a multiple of 65535. RFC 768 wants 0xFFFF then. */
  lemma ZeroSentIff(f: Bytes, l: Layout)
    requires Fits(f, l)
    ensures var seg, segment := Segment(Rewrite(f, l), l), f[l.Seg()..l.Payload()] + NewPayload(l.PayloadLen());
            seg[l.check] == 0 && seg[l.check + 1] == 0 <==>
            WordSum(Pseudo(f, l) + StoreWord(segment, l.check, 0)) % 65535 == 0
  {
    var f1 := WithPayload(f, l);
    NewSegment(f, l);
    IpCheckKeepsRest(f1, l);
    SegCheckZeroIff(WithIpCheck(f1, l), l);
  }
}
