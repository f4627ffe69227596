/** RFC 768 reserves a zero checksum field for "no checksum": a computed zero must be sent as 0xFFFF.
    The modifier stores the zero. Packet.ZeroSentIff says exactly when; here is a frame that does it. */
module UdpZero {
  import opened Seqs
  import opened InternetChecksum
  import opened ChecksumLaws
  import opened Packet

  /** An accepted UDP frame from 127.0.0.1 port 37207 to port 9090 with one payload byte. */
  const ETH: Bytes := [0, 0, 0, 0, 0, 0, 0, 0, 0, 0, 0, 0, 8, 0]
  const IP: Bytes := [69, 0, 0, 29, 0, 0, 0, 0, 64, 17, 0, 0, 127, 0, 0, 1, 127, 0, 0, 1]
  const DATAGRAM: Bytes := [145, 87, 35, 130, 0, 9, 0, 0, 0]

  function Frame(): (f: Bytes)
    ensures |f| == 43
  {
    ETH + IP + DATAGRAM
  }

  const LAYOUT := Layout(20, 29, UDP, 9, 8, 6)

  lemma BytesOfParts(eth: Bytes, ip: Bytes, udp: Bytes)
    requires |eth| == 14 && |ip| == 20 && |udp| == 9
    ensures var f := eth + ip + udp;
            && f[12] == eth[12] && f[13] == eth[13]
            && f[14] == ip[0] && f[16] == ip[2] && f[17] == ip[3] && f[20] == ip[6] && f[21] == ip[7] && f[23] == ip[9]
            && f[36] == udp[2] && f[37] == udp[3] && f[38] == udp[4] && f[39] == udp[5]
            && f[14..34] == ip && f[34..43] == udp
  {
  }

  lemma FrameBytes()
    ensures var f := Frame();
            && Net16(f, 12) == 0x0800 && f[14] == 69 && Net16(f, 16) == 29 && Net16(f, 20) == 0 && f[23] == UDP
            && Net16(f, 36) == 9090 && Net16(f, 38) == 9
    ensures Header(Frame(), LAYOUT) == IP && Segment(Frame(), LAYOUT) == DATAGRAM
  {
    BytesOfParts(ETH, IP, DATAGRAM);
  }

  lemma FrameAccepted()
    ensures Parse(Frame(), false, 9090) == Some(LAYOUT)
  {
    FrameBytes();
    assert ParseUdp(Frame(), 20, 29, 9090) == Some(LAYOUT);
  }

  /** The pseudo-header, and the rewritten segment with its field zeroed. */
  const PSEUDO: Bytes := [127, 0, 0, 1, 127, 0, 0, 1, 0, 17, 0, 9]
  const REWRITTEN: Bytes := [145, 87, 35, 130, 0, 9, 0, 0, 77]

  lemma PseudoSum()
    ensures WordSum(PSEUDO) == 7422
  {
    NextWord(PSEUDO, 0);
    NextWord(PSEUDO, 2);
    NextWord(PSEUDO, 4);
    NextWord(PSEUDO, 6);
    NextWord(PSEUDO, 8);
    NextWord(PSEUDO, 10);
    LastByte(PSEUDO, 12);
    assert PSEUDO[0..] == PSEUDO;
  }

  lemma RewrittenSum()
    ensures WordSum(REWRITTEN) == 58113
  {
    NextWord(REWRITTEN, 0);
    NextWord(REWRITTEN, 2);
    NextWord(REWRITTEN, 4);
    NextWord(REWRITTEN, 6);
    LastByte(REWRITTEN, 8);
    assert REWRITTEN[0..] == REWRITTEN;
  }

  lemma SumIsMultiple()
    ensures WordSum(PSEUDO + REWRITTEN) == 65535
  {
    PseudoSum();
    RewrittenSum();
    SumOfParts(PSEUDO, REWRITTEN, 6);
  }

  lemma SumOfParts(a: Bytes, b: Bytes, words: nat)
    requires |a| == 2 * words
    ensures WordSum(a + b) == WordSum(a) + WordSum(b)
  {
    WordSumConcat(a, b);
  }

  /** Received pseudo-header, received UDP header and new payload. */
  lemma WhatIsSummed()
    ensures Fits(Frame(), LAYOUT) && Pseudo(Frame(), LAYOUT) == PSEUDO
    ensures StoreWord(Frame()[34..42] + NewPayload(1), 6, 0) == REWRITTEN
  {
    var f := Frame();
    assert f[26..34] == IP[12..20];
    assert f[34..42] == DATAGRAM[..8];
    assert NewPayload(1) == [77];
  }

  lemma ZeroIsStored(f: Bytes, l: Layout, pseudo: Bytes, seg: Bytes)
    requires Fits(f, l) && Pseudo(f, l) == pseudo && WordSum(pseudo + seg) % 65535 == 0
    requires StoreWord(f[l.Seg()..l.Payload()] + NewPayload(l.PayloadLen()), l.check, 0) == seg
    ensures var seg := Segment(Rewrite(f, l), l); seg[l.check] == 0 && seg[l.check + 1] == 0
  {
    ZeroSentIff(f, l);
  }

  /** The rewritten frame carries a UDP checksum field of zero. */
  lemma ZeroIsSent()
    ensures Parse(Frame(), false, 9090) == Some(LAYOUT)
    ensures Fits(Frame(), LAYOUT)
    ensures var seg := Segment(Rewrite(Frame(), LAYOUT), LAYOUT); seg[6] == 0 && seg[7] == 0
  {
    FrameAccepted();
    WhatIsSummed();
    SumIsMultiple();
    ZeroIsStored(Frame(), LAYOUT, PSEUDO, REWRITTEN);
  }
}
