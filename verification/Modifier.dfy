/** The packet modifier as it runs: one receive buffer, rewritten in place. */
module Modifier {
  import opened Seqs
  import opened InternetChecksum
  import opened ChecksumLaws
  import opened Packet

  const BUFFER_SIZE: nat := 65536

  method Memset(dst: array<Byte>, at: nat, value: Byte, n: nat)
    requires at + n <= dst.Length
    modifies dst
    ensures dst[..] == Splice(old(dst[..]), at, seq(n, _ => value))
  {
    for i := 0 to n
      invariant forall j :: 0 <= j < dst.Length ==> dst[j] == if at <= j < at + i then value else old(dst[j])
    {
      dst[at + i] := value;
    }
  }

  method Memcpy(dst: array<Byte>, at: nat, part: Bytes)
    requires at + |part| <= dst.Length
    modifies dst
    ensures dst[..] == Splice(old(dst[..]), at, part)
  {
    for i := 0 to |part|
      invariant forall j :: 0 <= j < dst.Length ==> dst[j] == if at <= j < at + i then part[j - at] else old(dst[j])
    {
      dst[at + i] := part[i];
    }
  }

  lemma BlanksThenText(f: Bytes, at: nat, n: nat, m: nat)
    requires at + n <= |f| && m == (if |MODIFY_TEXT| > n then n else |MODIFY_TEXT|)
    ensures Splice(Splice(f, at, seq(n, _ => 32)), at, MODIFY_TEXT[..m]) == Splice(f, at, NewPayload(n))
  {
  }

  /** memset with blanks, then memcpy of as much of the text as fits. */
  method ModifyPayloadSameLength(buf: array<Byte>, at: nat, n: nat)
    requires at + n <= buf.Length
    modifies buf
    ensures buf[..] == Splice(old(buf[..]), at, NewPayload(n))
  {
    var modifyLen := |MODIFY_TEXT|;
    Memset(buf, at, 32, n);
    if modifyLen > n {
      modifyLen := n;
    }
    Memcpy(buf, at, MODIFY_TEXT[..modifyLen]);
    BlanksThenText(old(buf[..]), at, n, modifyLen);
  }

  lemma LaidOut(t: Bytes, addresses: Bytes, rest: Bytes, seg: Bytes)
    requires |addresses| == 8 && |rest| == 4 && PSEUDO_LEN + |seg| <= |t|
    requires t[..8] == addresses && t[8..PSEUDO_LEN] == rest && t[PSEUDO_LEN..PSEUDO_LEN + |seg|] == seg
    ensures t[..PSEUDO_LEN + |seg|] == addresses + rest + seg
  {
    assert t[..PSEUDO_LEN + |seg|] == t[..8] + t[8..PSEUDO_LEN] + t[PSEUDO_LEN..PSEUDO_LEN + |seg|];
  }

  /** The pseudo-header goes to the front of the scratch buffer. */
  method WritePseudo(temp: array<Byte>, addresses: Bytes, segLen: nat, proto: Byte)
    requires temp.Length >= PSEUDO_LEN && |addresses| == 8
    modifies temp
    ensures temp[..8] == addresses && temp[8..PSEUDO_LEN] == [0, proto, segLen / 256 % 256, segLen % 256]
  {
    Memcpy(temp, 0, addresses);
    assert temp[..8] == addresses;
    temp[8], temp[9], temp[10], temp[11] := 0, proto, segLen / 256 % 256, segLen % 256;
  }

  /** Builds pseudo-header and segment in a scratch buffer and sums it; gives up on lengths that do
      not fit the scratch buffer. */
  method TransportChecksum(buf: array<Byte>, ip: nat, seg: nat, segLen: nat, proto: Byte) returns (c: Word)
    requires ip + 20 <= buf.Length && seg + segLen <= buf.Length
    ensures c == if PSEUDO_LEN + segLen > BUFFER_SIZE then 0
                 else Checksum(buf[ip + 12..ip + 20] + [0, proto, segLen / 256 % 256, segLen % 256]
                               + buf[seg..seg + segLen])
  {
    if PSEUDO_LEN + segLen > BUFFER_SIZE {
      return 0;
    }
    var temp := new Byte[BUFFER_SIZE](_ => 0);
    WritePseudo(temp, buf[ip + 12..ip + 20], segLen, proto);
    ghost var t := temp[..];
    Memcpy(temp, PSEUDO_LEN, buf[seg..seg + segLen]);
    assert temp[..8] == t[..8] && temp[8..PSEUDO_LEN] == t[8..PSEUDO_LEN];
    assert temp[PSEUDO_LEN..PSEUDO_LEN + segLen] == buf[seg..seg + segLen];
    LaidOut(temp[..], buf[ip + 12..ip + 20], [0, proto, segLen / 256 % 256, segLen % 256], buf[seg..seg + segLen]);
    c := ComputeChecksum(temp, 0, PSEUDO_LEN + segLen);
    assert temp[0..PSEUDO_LEN + segLen] == temp[..][..PSEUDO_LEN + segLen];
  }

  method StoreShort(buf: array<Byte>, p: nat, w: Word)
    requires p + 1 < buf.Length
    modifies buf
    ensures buf[..] == StoreWord(old(buf[..]), p, w)
  {
    buf[p], buf[p + 1] := w % 256, w / 256;
  }

  lemma StoreInside(b: Bytes, at: nat, to: nat, p: nat, w: Word)
    requires at + p + 1 < to <= |b|
    ensures StoreWord(b, at + p, w)[at..to] == StoreWord(b[at..to], p, w)
  {
  }

  lemma StoreIsSplice(b: Bytes, at: nat, to: nat, p: nat, w: Word)
    requires at + p + 1 < to <= |b|
    ensures StoreWord(b, at + p, w) == Splice(b, at, StoreWord(b[at..to], p, w))
  {
  }

  lemma StoreTwice(b: Bytes, p: nat, v: Word, w: Word)
    requires p + 1 < |b|
    ensures StoreWord(StoreWord(b, p, v), p, w) == StoreWord(b, p, w)
  {
  }

  /** The IPv4 checksum field is zeroed, recomputed over the header and stored. */
  method RepairIp(buf: array<Byte>, l: Layout)
    requires Fits(buf[..], l)
    modifies buf
    ensures buf[..] == WithIpCheck(old(buf[..]), l)
  {
    ghost var f := buf[..];
    StoreShort(buf, ETH_LEN + IP_CHECK, 0);
    StoreInside(f, ETH_LEN, l.Seg(), IP_CHECK, 0);
    assert buf[ETH_LEN..ETH_LEN + l.ipLen] == buf[..][ETH_LEN..l.Seg()];
    var c := ComputeChecksum(buf, ETH_LEN, l.ipLen);
    StoreShort(buf, ETH_LEN + IP_CHECK, c);
    StoreTwice(f, ETH_LEN + IP_CHECK, 0, c);
    StoreIsSplice(f, ETH_LEN, l.Seg(), IP_CHECK, c);
  }

  lemma PseudoAndSegment(f: Bytes, l: Layout, w: Word)
    requires Fits(f, l)
    ensures StoreWord(Pseudo(f, l) + Segment(f, l), PSEUDO_LEN + l.check, w) ==
            Pseudo(f, l) + StoreWord(Segment(f, l), l.check, w)
  {
  }

  lemma SegCheckIsStore(f: Bytes, l: Layout, c: Word)
    requires Fits(f, l) && c == Checksum(Pseudo(f, l) + StoreWord(Segment(f, l), l.check, 0))
    ensures WithSegCheck(f, l) == Splice(f, l.Seg(), StoreWord(Segment(f, l), l.check, c))
  {
    var p := Pseudo(f, l);
    PseudoAndSegment(f, l, 0);
    PseudoAndSegment(f, l, c);
    assert (p + StoreWord(Segment(f, l), l.check, c))[PSEUDO_LEN..] == StoreWord(Segment(f, l), l.check, c);
  }

  /** What the scratch buffer holds once the field is zeroed. */
  lemma ScratchContents(f: Bytes, g: Bytes, l: Layout)
    requires Fits(f, l) && g == StoreWord(f, l.Seg() + l.check, 0)
    ensures g[26..34] + [0, l.proto, l.segLen / 256 % 256, l.segLen % 256] + g[l.Seg()..l.Seg() + l.segLen] ==
            Pseudo(f, l) + StoreWord(Segment(f, l), l.check, 0)
  {
    StoreInside(f, l.Seg(), l.Seg() + l.segLen, l.check, 0);
    assert g[26..34] == f[26..34];
    LengthBytes(l.segLen);
  }

  lemma LengthBytes(n: nat)
    requires n < 65536
    ensures n / 256 % 256 == n / 256
  {
  }

  /** The transport checksum field is zeroed, recomputed over the pseudo-header and stored. */
  method RepairSegment(buf: array<Byte>, l: Layout)
    requires Fits(buf[..], l) && PSEUDO_LEN + l.segLen <= BUFFER_SIZE
    modifies buf
    ensures buf[..] == WithSegCheck(old(buf[..]), l)
  {
    ghost var f := buf[..];
    StoreShort(buf, l.Seg() + l.check, 0);
    ghost var g := buf[..];
    var c := TransportChecksum(buf, ETH_LEN, l.Seg(), l.segLen, l.proto);
    assert c == Checksum(Pseudo(f, l) + StoreWord(Segment(f, l), l.check, 0)) by {
      ScratchContents(f, g, l);
      assert buf[26..34] == g[26..34] && buf[l.Seg()..l.Seg() + l.segLen] == g[l.Seg()..l.Seg() + l.segLen];
    }
    StoreShort(buf, l.Seg() + l.check, c);
    StoredIsSegCheck(f, l, c);
  }

  lemma StoredIsSegCheck(f: Bytes, l: Layout, c: Word)
    requires Fits(f, l) && c == Checksum(Pseudo(f, l) + StoreWord(Segment(f, l), l.check, 0))
    ensures StoreWord(StoreWord(f, l.Seg() + l.check, 0), l.Seg() + l.check, c) == WithSegCheck(f, l)
  {
    StoredIsSplice(f, l, c);
    SegCheckIsStore(f, l, c);
  }

  lemma StoredIsSplice(f: Bytes, l: Layout, c: Word)
    requires Fits(f, l)
    ensures StoreWord(StoreWord(f, l.Seg() + l.check, 0), l.Seg() + l.check, c) ==
            Splice(f, l.Seg(), StoreWord(Segment(f, l), l.check, c))
  {
    StoreTwice(f, l.Seg() + l.check, 0, c);
    StoreIsSplice(f, l.Seg(), l.Seg() + l.segLen, l.check, c);
  }

  /** The three repairs both branches of the receive loop make. */
  method RewriteInPlace(buf: array<Byte>, l: Layout)
    requires Fits(buf[..], l) && PSEUDO_LEN + l.segLen <= BUFFER_SIZE
    modifies buf
    ensures buf[..] == Rewrite(old(buf[..]), l)
  {
    ModifyPayloadSameLength(buf, l.Payload(), l.PayloadLen());
    RepairIp(buf, l);
    RepairSegment(buf, l);
  }

  lemma SplicePrefix(b: Bytes, n: nat, at: nat, part: Bytes)
    requires at + |part| <= n <= |b|
    ensures Splice(b, at, part) == Splice(b[..n], at, part) + b[n..]
  {
  }

  /** Rewriting the whole buffer rewrites the received bytes and leaves the rest alone. */
  lemma RewritePrefix(b: Bytes, n: nat, l: Layout)
    requires n <= |b| && Fits(b[..n], l)
    ensures Fits(b, l) && Rewrite(b, l) == Rewrite(b[..n], l) + b[n..]
  {
    var f := b[..n];
    var f1, b1 := WithPayload(f, l), WithPayload(b, l);
    SplicePrefix(b, n, l.Payload(), NewPayload(l.PayloadLen()));
    assert b1[..n] == f1 && b1[n..] == b[n..];
    PrefixIpCheck(b1, n, l);
    var f2, b2 := WithIpCheck(f1, l), WithIpCheck(b1, l);
    assert b2[..n] == f2 && b2[n..] == b[n..];
    PrefixSegCheck(b2, n, l);
  }

  lemma PrefixIpCheck(b: Bytes, n: nat, l: Layout)
    requires n <= |b| && Fits(b[..n], l)
    ensures WithIpCheck(b, l) == WithIpCheck(b[..n], l) + b[n..]
  {
    assert Header(b, l) == Header(b[..n], l);
    SplicePrefix(b, n, ETH_LEN, Seal(Header(b, l), IP_CHECK));
  }

  lemma PrefixSegCheck(b: Bytes, n: nat, l: Layout)
    requires n <= |b| && Fits(b[..n], l)
    ensures WithSegCheck(b, l) == WithSegCheck(b[..n], l) + b[n..]
  {
    assert Segment(b, l) == Segment(b[..n], l);
    assert b[26..34] == b[..n][26..34];
    SplicePrefix(b, n, l.Seg(), Seal(Pseudo(b, l) + Segment(b, l), PSEUDO_LEN + l.check)[PSEUDO_LEN..]);
  }

  /** One trip round the receive loop: bytes were received into buf. Returns what is sent on, if anything,
      and the Ethernet address it is sent to. */
  method ModifyFrame(buf: array<Byte>, bytes: nat, outgoing: bool, targetPort: int)
    returns (sent: Option<Bytes>, to: Bytes)
    requires buf.Length == BUFFER_SIZE && bytes <= BUFFER_SIZE
    modifies buf
    ensures match Parse(old(buf[..bytes]), outgoing, targetPort)
            case None => sent == None && buf[..] == old(buf[..])
            case Some(l) =>
              && Fits(old(buf[..bytes]), l)
              && buf[..] == Rewrite(old(buf[..bytes]), l) + old(buf[bytes..])
              && sent == Some(Sent(old(buf[..bytes]), l)) && sent.value <= buf[..] && to == old(buf[..6])
  {
    sent, to := None, [];
    ghost var f := buf[..bytes];
    var found := FindLayout(buf, bytes, outgoing, targetPort);
    if found.None? { return; }
    var l := found.value;
    ParseFits(f, outgoing, targetPort);
    var datagram;
    datagram, to := RewriteAndSend(buf, bytes, l);
    sent := Some(datagram);
  }

  /** The received bytes are rewritten in the buffer; what is sent is cut at the datagram's end. */
  method RewriteAndSend(buf: array<Byte>, bytes: nat, l: Layout) returns (sent: Bytes, to: Bytes)
    requires bytes <= buf.Length && Fits(buf[..bytes], l) && PSEUDO_LEN + l.segLen <= BUFFER_SIZE
    modifies buf
    ensures Fits(old(buf[..bytes]), l) && buf[..] == Rewrite(old(buf[..bytes]), l) + old(buf[bytes..])
    ensures sent == Sent(old(buf[..bytes]), l) && sent <= buf[..] && to == old(buf[..6])
  {
    ghost var b, f := buf[..], buf[..bytes];
    assert b[..bytes] == f && b[bytes..] == buf[bytes..];
    RewritePrefix(b, bytes, l);
    RewriteInPlace(buf, l);
    sent := buf[..ETH_LEN + l.totalLen];
    PrefixOf(buf[..], Rewrite(f, l), b[bytes..], ETH_LEN + l.totalLen);
    assert sent == buf[..][..ETH_LEN + l.totalLen];
    to := buf[..6];                              // the destination of the Ethernet header
    AddressStays(b, l);
    assert to == buf[..][..6];
  }

  lemma AddressStays(f: Bytes, l: Layout)
    requires Fits(f, l)
    ensures Rewrite(f, l)[..6] == f[..6]
  {
    forall i | 0 <= i < 6 ensures Rewrite(f, l)[i] == f[i] { RewriteFrame(f, l, i); }
  }

  lemma PrefixOf(whole: Bytes, front: Bytes, back: Bytes, n: nat)
    requires whole == front + back && n <= |front|
    ensures whole[..n] == front[..n]
  {
  }

  /** The guards, each of which goes on to the next frame when it fails. */
  method FindLayout(buf: array<Byte>, bytes: nat, outgoing: bool, targetPort: int) returns (r: Option<Layout>)
    requires bytes <= buf.Length
    ensures r == Parse(buf[..bytes], outgoing, targetPort)
  {
    ghost var f := buf[..bytes];
    r := None;
    if outgoing { return; }
    if bytes < ETH_LEN { return; }
    if LoadWord(buf[13], buf[12]) != 0x0800 { return; }
    if bytes < ETH_LEN + 20 { return; }
    var ipLen := buf[14] % 16 * 4;
    if buf[14] / 16 != 4 { return; }
    if ipLen < 20 { return; }
    if bytes < ETH_LEN + ipLen { return; }
    if LoadWord(buf[21], buf[20]) % 0x4000 != 0 { return; }
    var totalLen := LoadWord(buf[17], buf[16]);
    if totalLen < ipLen { return; }
    if bytes < ETH_LEN + totalLen { return; }
    assert Net16(f, 12) == 0x0800 && Net16(f, 20) == LoadWord(buf[21], buf[20]) && Net16(f, 16) == totalLen;
    if buf[23] == UDP {
      r := UdpLayout(buf, bytes, ipLen, totalLen, targetPort);
    } else if buf[23] == TCP {
      r := TcpLayout(buf, bytes, ipLen, totalLen, targetPort);
    }
  }

  /** The guards of the UDP branch. */
  method UdpLayout(buf: array<Byte>, bytes: nat, ipLen: nat, totalLen: nat, targetPort: int) returns (r: Option<Layout>)
    requires ETH_LEN + totalLen <= bytes <= buf.Length
    ensures r == ParseUdp(buf[..bytes], ipLen, totalLen, targetPort)
  {
    if totalLen < ipLen + 8 { return None; }
    var udp := ETH_LEN + ipLen;
    if LoadWord(buf[udp + 3], buf[udp + 2]) != targetPort { return None; }
    var udpHdrLen, udpTotalLen := 8, LoadWord(buf[udp + 5], buf[udp + 4]);
    if udpTotalLen < udpHdrLen { return None; }
    if totalLen < ipLen + udpTotalLen { return None; }
    var payloadLen := udpTotalLen - udpHdrLen;
    if payloadLen <= 0 { return None; }
    r := Some(Layout(ipLen, totalLen, UDP, udpTotalLen, udpHdrLen, 6));
  }

  /** The guards of the TCP branch. */
  method TcpLayout(buf: array<Byte>, bytes: nat, ipLen: nat, totalLen: nat, targetPort: int) returns (r: Option<Layout>)
    requires ETH_LEN + totalLen <= bytes <= buf.Length
    ensures r == ParseTcp(buf[..bytes], ipLen, totalLen, targetPort)
  {
    if totalLen < ipLen + 20 { return None; }
    var tcp := ETH_LEN + ipLen;
    if LoadWord(buf[tcp + 3], buf[tcp + 2]) != targetPort { return None; }
    var tcpHdrLen := buf[tcp + 12] / 16 * 4;
    if tcpHdrLen < 20 { return None; }
    if totalLen < ipLen + tcpHdrLen { return None; }
    var tcpTotalLen := totalLen - ipLen;
    var payloadLen := tcpTotalLen - tcpHdrLen;
    if payloadLen <= 0 { return None; }
    r := Some(Layout(ipLen, totalLen, TCP, tcpTotalLen, tcpHdrLen, 16));
  }
}
