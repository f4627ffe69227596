/**
 What the packet modifier does to a frame, in terms of the frame's own fields: where the
 payload and the two checksums are, what is sent on, and what it checks to.
 */
module PacketTheorems {
  import opened Seqs
  import opened InternetChecksum
  import opened Packet

  /** An IPv4 datagram with room for the transport header that its protocol field announces. */
  ghost predicate Carries(f: Bytes) {
    && |f| >= 34 && 20 <= 4 * HeaderWords(f) && 14 + TotalLength(f) <= |f|
    && ((f[23] == 17 && TotalLength(f) - 4 * HeaderWords(f) >= 8)
        || (f[23] == 6 && TotalLength(f) - 4 * HeaderWords(f) >= 20))
  }

  ghost function TransportAt(f: Bytes): nat
    requires Carries(f)
  {
    14 + 4 * HeaderWords(f)
  }

  /** UDP has a length field of its own; TCP fills the datagram. */
  ghost function TransportLength(f: Bytes): nat
    requires Carries(f)
  {
    if f[23] == 17 then Net16(f, TransportAt(f) + 4) else TotalLength(f) - 4 * HeaderWords(f)
  }

  /** The UDP header has 8 bytes; TCP counts its header in words in the data offset. */
  ghost function TransportHeader(f: Bytes): nat
    requires Carries(f)
  {
    if f[23] == 17 then 8 else 4 * (f[TransportAt(f) + 12] / 16)
  }

  ghost function TransportCheck(f: Bytes): nat
    requires Carries(f)
  {
    TransportAt(f) + if f[23] == 17 then 6 else 16
  }

  ghost function PayloadAt(f: Bytes): nat
    requires Carries(f)
  {
    TransportAt(f) + TransportHeader(f)
  }

  ghost function TransportEnd(f: Bytes): nat
    requires Carries(f)
  {
    TransportAt(f) + TransportLength(f)
  }

  /** The layout is what the frame's length fields say. */
  ghost predicate LaidOut(f: Bytes, l: Layout) {
    && Carries(f)
    && l.ipLen == 4 * HeaderWords(f) && l.totalLen == TotalLength(f) && l.proto == f[23]
    && l.segLen == TransportLength(f) && l.hdrLen == TransportHeader(f)
    && l.Seg() == TransportAt(f) && l.Seg() + l.check == TransportCheck(f)
  }

  lemma LayoutIs(f: Bytes, outgoing: bool, port: int)
    requires Parse(f, outgoing, port).Some?
    ensures LaidOut(f, Parse(f, outgoing, port).value)
  {
    ParsedLayout(f, outgoing, port);
    LaidOutBy(f, Parse(f, outgoing, port).value);
  }

  /** The layout of an accepted frame, written out. */
  lemma ParsedLayout(f: Bytes, outgoing: bool, port: int)
    requires Parse(f, outgoing, port).Some?
    ensures WrittenOut(f, Parse(f, outgoing, port).value)
  {
    TakenGuards(f, outgoing, port);
    ParseInTwo(f, outgoing, port);
    if f[23] == 17 {
      UdpLayoutIs(f, f[14] % 16 * 4, Net16(f, 16), port);
    } else {
      TcpLayoutIs(f, f[14] % 16 * 4, Net16(f, 16), port);
    }
  }

  ghost predicate WrittenOut(f: Bytes, l: Layout) {
    && |f| >= 34 && 20 <= 4 * HeaderWords(f) && 14 + TotalLength(f) <= |f|
    && var ipLen, totalLen := 4 * HeaderWords(f), TotalLength(f);
       if f[23] == 17 then
         totalLen >= ipLen + 8 && l == Layout(ipLen, totalLen, 17, Net16(f, 14 + ipLen + 4), 8, 6)
       else
         f[23] == 6 && totalLen >= ipLen + 20
         && l == Layout(ipLen, totalLen, 6, totalLen - ipLen, 4 * (f[14 + ipLen + 12] / 16), 16)
  }

  lemma LaidOutBy(f: Bytes, l: Layout)
    requires WrittenOut(f, l)
    ensures LaidOut(f, l)
  {
  }

  lemma UdpLayoutIs(f: Bytes, ipLen: nat, totalLen: nat, port: int)
    requires ETH_LEN + totalLen <= |f| && ParseUdp(f, ipLen, totalLen, port).Some?
    ensures totalLen >= ipLen + 8
    ensures ParseUdp(f, ipLen, totalLen, port).value == Layout(ipLen, totalLen, 17, Net16(f, 14 + ipLen + 4), 8, 6)
  {
  }

  lemma TcpLayoutIs(f: Bytes, ipLen: nat, totalLen: nat, port: int)
    requires ETH_LEN + totalLen <= |f| && ParseTcp(f, ipLen, totalLen, port).Some?
    ensures totalLen >= ipLen + 20
    ensures ParseTcp(f, ipLen, totalLen, port).value ==
            Layout(ipLen, totalLen, 6, totalLen - ipLen, 4 * (f[14 + ipLen + 12] / 16), 16)
  {
  }

  /** The text a payload is replaced by, as characters. */
  lemma TextIs()
    ensures |MODIFY_TEXT| == |"MODIFIED_BY_HW5_1_5"|
    ensures forall i :: 0 <= i < |MODIFY_TEXT| ==> MODIFY_TEXT[i] == "MODIFIED_BY_HW5_1_5"[i] as int
  {
  }

  /** A short payload becomes the front of the text, a long one the text and then blanks. */
  lemma NewPayloadIs(n: nat)
    ensures n <= |MODIFY_TEXT| ==> NewPayload(n) == MODIFY_TEXT[..n]
    ensures n >= |MODIFY_TEXT| ==> NewPayload(n) == MODIFY_TEXT + seq(n - |MODIFY_TEXT|, _ => ' ' as int)
  {
  }

  /** What is sent on for an accepted frame. */
  function Forwarded(f: Bytes, outgoing: bool, port: int): Bytes
    requires Parse(f, outgoing, port).Some?
  {
    ParseFits(f, outgoing, port);
    Sent(f, Parse(f, outgoing, port).value)
  }

  /** The lengths of a laid out frame, and of what is sent for it. */
  lemma SentLengths(f: Bytes, l: Layout)
    requires LaidOut(f, l) && Fits(f, l)
    ensures |Sent(f, l)| == 14 + TotalLength(f) && 34 <= TransportAt(f)
    ensures 8 <= TransportHeader(f) < TransportLength(f) < 65536
    ensures TransportAt(f) + TransportLength(f) <= 14 + TotalLength(f)
  {
  }

  /** Byte i of a frame whose bytes from at to end are replaced by the text. */
  function WithText(f: Bytes, at: nat, end: nat, i: nat): Byte
    requires at <= end <= |f| && i < |f|
  {
    if at <= i < end then NewPayload(end - at)[i - at] else f[i]
  }

  lemma SentAt(f: Bytes, l: Layout, at: nat, end: nat, check: nat, i: nat)
    requires Fits(f, l) && i < |Sent(f, l)|
    requires at == l.Payload() && end == l.Seg() + l.segLen && check == l.Seg() + l.check
    ensures at < end && (!(24 <= i < 26) && !(check <= i < check + 2) ==> Sent(f, l)[i] == WithText(f, at, end, i))
  {
    RewriteFrame(f, l, i);
  }

  lemma SentParts(f: Bytes, g: Bytes, l: Layout)
    requires LaidOut(f, l) && Fits(g, l)
    ensures 34 <= TransportAt(f) && TransportEnd(f) <= |g| && TransportLength(f) < 65536
    ensures Header(g, l) == g[14..TransportAt(f)]
    ensures Pseudo(g, l) + Segment(g, l) == Summed(g, f[23], TransportAt(f), TransportLength(f))
  {
  }

  /** Byte i of what is sent: the received byte, except in the payload, which is the text, and in the two
      checksum fields. */
  lemma ForwardedBytes(f: Bytes, outgoing: bool, port: int, i: nat)
    requires Parse(f, outgoing, port).Some? && i < |Forwarded(f, outgoing, port)|
    ensures Carries(f) && PayloadAt(f) < TransportEnd(f) <= |Forwarded(f, outgoing, port)| == 14 + TotalLength(f)
    ensures !(24 <= i < 26) && !(TransportCheck(f) <= i < TransportCheck(f) + 2) ==>
              Forwarded(f, outgoing, port)[i] == WithText(f, PayloadAt(f), TransportEnd(f), i)
  {
    var l := Parse(f, outgoing, port).value;
    LayoutIs(f, outgoing, port);
    ParseFits(f, outgoing, port);
    SentLengths(f, l);
    SentAt(f, l, PayloadAt(f), TransportEnd(f), TransportCheck(f), i);
  }

  /** What a receiver sums: the pseudo-header of RFC 768 and of section 3.1 of RFC 9293 (source and
      destination address, zero, protocol, length), then the segment. */
  ghost function Summed(g: Bytes, proto: Byte, at: nat, len: nat): Bytes
    requires 34 <= at && at + len <= |g| && len < 65536
  {
    g[26..34] + [0, proto, len / 256, len % 256] + g[at..at + len]
  }

  /** What is sent carries a header checksum and a transport checksum that verify. */
  lemma ForwardedChecksums(f: Bytes, outgoing: bool, port: int)
    requires Parse(f, outgoing, port).Some?
    ensures var g := Forwarded(f, outgoing, port);
            && Carries(f) && 34 <= TransportAt(f) && TransportLength(f) < 65536
            && TransportEnd(f) <= |g|
            && Checksum(g[14..TransportAt(f)]) == 0
            && Checksum(Summed(g, f[23], TransportAt(f), TransportLength(f))) == 0
  {
    var l := Parse(f, outgoing, port).value;
    LayoutIs(f, outgoing, port);
    ParseFits(f, outgoing, port);
    SentLengths(f, l);
    SentFrameIsValid(f, outgoing, port);
    SentParts(f, Sent(f, l), l);
  }
}
