/**
 The properties RFC 1071 gives for the Internet checksum, proved of the code's
 little-endian form, and its agreement with the RFC's own definition.
 */
module ChecksumLaws {
  import opened Seqs
  import opened InternetChecksum

  // ---------------------------------------------------------------- RFC 1071, section 1

  /** The sum in network byte order, padding an odd last byte with zero on the right. */
  function NetworkSum(b: Bytes): Word {
    if |b| == 0 then 0
    else if |b| == 1 then LoadWord(0, b[0])
    else OnesAdd(LoadWord(b[1], b[0]), NetworkSum(b[2..]))
  }

  function NetworkChecksum(b: Bytes): Word { 65535 - NetworkSum(b) }

  function SwapWord(w: Word): Word { LoadWord(w / 256, w % 256) }

  /** Exchanging the bytes of a word commutes with one's complement addition. */
  lemma SwapOnesAdd(a: Word, b: Word)
    ensures SwapWord(OnesAdd(a, b)) == OnesAdd(SwapWord(a), SwapWord(b))
  {
    SwapIsTimes256(a);
    SwapIsTimes256(b);
    SwapIsTimes256(OnesAdd(a, b));
    FoldAdd(256 * a, 256 * b);
    if a + b >= 65536 {
      FoldAdd(256 * OnesAdd(a, b), 256 * 65535);
      SwapIsTimes256(65535);
    }
  }

  /** Exchanging the bytes is multiplying by 256, in one's complement. */
  lemma SwapIsTimes256(w: Word)
    ensures Fold(256 * w) == SwapWord(w)
  {
    FoldIsRepresentative(256 * w);
    RepresentativeUnique(256 * w, SwapWord(w), w / 256);
  }

  lemma SwapComplement(f: Word)
    ensures SwapWord(65535 - f) == 65535 - SwapWord(f)
  {
    var hi, lo := f / 256, f % 256;
    assert 65535 - f == 256 * (255 - hi) + (255 - lo);
  }

  lemma BytesOf(w: int, lo: int, hi: int)
    requires w == lo + 256 * hi && 0 <= lo < 256
    ensures w / 256 == hi && w % 256 == lo
  {
  }

  lemma SwapLoaded(lo: Byte, hi: Byte)
    ensures SwapWord(LoadWord(lo, hi)) == LoadWord(hi, lo)
  {
    BytesOf(LoadWord(lo, hi), lo, hi);
  }

  /** One more word in front, in either byte order. */
  lemma SwapNext(lo: Byte, hi: Byte, f: Word, g: Word)
    requires g == SwapWord(f)
    ensures OnesAdd(LoadWord(hi, lo), g) == SwapWord(OnesAdd(LoadWord(lo, hi), f))
  {
    SwapLoaded(lo, hi);
    SwapOnesAdd(LoadWord(lo, hi), f);
  }

  lemma FoldNext(b: Bytes)
    requires |b| > 1
    ensures Fold(WordSum(b)) == OnesAdd(LoadWord(b[0], b[1]), Fold(WordSum(b[2..])))
  {
    FoldAdd(LoadWord(b[0], b[1]), WordSum(b[2..]));
  }

  lemma {:induction false} NetworkSumIsSwapped(b: Bytes)
    ensures NetworkSum(b) == SwapWord(Fold(WordSum(b)))
  {
    if |b| == 1 {
      SwapLoaded(b[0], 0);
    } else if |b| > 1 {
      NetworkSumIsSwapped(b[2..]);
      FoldNext(b);
      SwapNext(b[0], b[1], Fold(WordSum(b[2..])), NetworkSum(b[2..]));
    }
  }

  /** The two bytes the code stores, low byte first, are the two bytes of the RFC's checksum in
      network order: for every content and every length, odd ones included. */
  lemma ChecksumIsRfc1071(b: Bytes)
    ensures SwapWord(Checksum(b)) == NetworkChecksum(b)
  {
    NetworkSumIsSwapped(b);
    SwapComplement(Fold(WordSum(b)));
  }

  // ---------------------------------------------------------------- RFC 1071, section 2

  lemma {:induction false} WordSumConcat(a: Bytes, b: Bytes)
    requires |a| % 2 == 0
    ensures WordSum(a + b) == WordSum(a) + WordSum(b)
  {
    if a == [] {
      assert a + b == b;
    } else {
      WordSumConcat(a[2..], b);
      assert (a + b)[2..] == a[2..] + b;
    }
  }

  /** Parts may be summed and folded separately, then added in one's complement. */
  lemma ChecksumOfParts(a: Bytes, b: Bytes)
    requires |a| % 2 == 0
    ensures Checksum(a + b) == 65535 - OnesAdd(Fold(WordSum(a)), Fold(WordSum(b)))
  {
    WordSumConcat(a, b);
    FoldAdd(WordSum(a), WordSum(b));
  }

  /** Section 2 (B): every word with its bytes exchanged. */
  function SwapBytes(b: Bytes): (r: Bytes)
    requires |b| % 2 == 0
    ensures |r| == |b|
  {
    if b == [] then [] else [b[1], b[0]] + SwapBytes(b[2..])
  }

  lemma {:induction false} SwapBytesSum(b: Bytes)
    requires |b| % 2 == 0
    ensures Fold(WordSum(SwapBytes(b))) == SwapWord(Fold(WordSum(b)))
  {
    if b != [] {
      var rest := b[2..];
      SwapBytesSum(rest);
      assert SwapBytes(b)[2..] == SwapBytes(rest);
      FoldNext(b);
      FoldNext(SwapBytes(b));
      SwapNext(b[0], b[1], Fold(WordSum(rest)), Fold(WordSum(SwapBytes(rest))));
    }
  }

  lemma ByteOrderIndependence(b: Bytes)
    requires |b| % 2 == 0
    ensures Checksum(SwapBytes(b)) == SwapWord(Checksum(b))
  {
    SwapBytesSum(b);
    ComplementsSwapped(Fold(WordSum(b)), Fold(WordSum(SwapBytes(b))), Checksum(b), Checksum(SwapBytes(b)));
  }

  lemma ComplementsSwapped(x: Word, y: Word, cx: Word, cy: Word)
    requires y == SwapWord(x) && cx == 65535 - x && cy == 65535 - y
    ensures cy == SwapWord(cx)
  {
    SwapComplement(x);
  }

  /** Section 2 (A): the words of a buffer, in any order, give the same checksum. */
  function Words(b: Bytes): seq<Word> {
    if |b| == 0 then []
    else if |b| == 1 then [b[0]]
    else [LoadWord(b[0], b[1])] + Words(b[2..])
  }

  ghost function Value(w: Word): nat { w }

  lemma {:induction false} WordSumIsTotal(b: Bytes)
    ensures WordSum(b) == Total(Value, Words(b))
  {
    if |b| == 1 {
      assert Words(b) == [] + [b[0]];
      var w: Word := b[0];
      TotalAppend(Value, [], w);
    } else if |b| > 1 {
      WordSumIsTotal(b[2..]);
      var w := LoadWord(b[0], b[1]);
      TotalRemove(Value, Words(b), 0);
      assert Remove(Words(b), 0) == Words(b[2..]);
    }
  }

  lemma OrderIndependence(a: Bytes, b: Bytes)
    requires multiset(Words(a)) == multiset(Words(b))
    ensures Checksum(a) == Checksum(b)
  {
    WordSumIsTotal(a);
    WordSumIsTotal(b);
    TotalPermutation(Value, Words(a), Words(b));
  }

  // ---------------------------------------------------------------- checksum fields

  /** An unsigned short stored at p. */
  function StoreWord(b: Bytes, p: nat, w: Word): (r: Bytes)
    requires p + 1 < |b|
    ensures |r| == |b| && r[p] == w % 256 && r[p + 1] == w / 256
    ensures forall i {:trigger r[i]} :: 0 <= i < |b| && i != p && i != p + 1 ==> r[i] == b[i]
  {
    b[p := w % 256][p + 1 := w / 256]
  }

  lemma {:induction false} StoreWordSum(b: Bytes, p: nat, w: Word)
    requires p % 2 == 0 && p + 1 < |b|
    ensures WordSum(StoreWord(b, p, w)) == WordSum(b) - LoadWord(b[p], b[p + 1]) + w
  {
    var r := StoreWord(b, p, w);
    if p == 0 {
      assert r[2..] == b[2..];
    } else {
      assert r[2..] == StoreWord(b[2..], p - 2, w);
      StoreWordSum(b[2..], p - 2, w);
    }
  }

  lemma ChecksumZeroIff(b: Bytes)
    ensures Checksum(b) == 0 <==> WordSum(b) != 0 && WordSum(b) % M == 0
  {
    FoldIsRepresentative(WordSum(b));
    RepresentativeResidue(WordSum(b));
  }

  /** The sum with a field stored, from the sum without it. */
  lemma StoreFold(b: Bytes, p: nat, v: Word)
    requires p % 2 == 0 && p + 1 < |b|
    ensures Fold(WordSum(StoreWord(b, p, v))) == OnesAdd(Fold(WordSum(StoreWord(b, p, 0))), v)
  {
    var z := StoreWord(b, p, 0);
    StoreWordSum(z, p, v);
    assert StoreWord(z, p, v) == StoreWord(b, p, v);
    FoldAdd(WordSum(z), v);
  }

  /** The sender's rule: zero the field, compute, store. */
  function Seal(b: Bytes, p: nat): (r: Bytes)
    requires p + 1 < |b|
    ensures |r| == |b|
    ensures forall i {:trigger r[i]} :: 0 <= i < |b| && i != p && i != p + 1 ==> r[i] == b[i]
  {
    StoreWord(b, p, Checksum(StoreWord(b, p, 0)))
  }

  /** The receiver's rule: a sealed buffer checks to zero. */
  lemma SealedVerifies(b: Bytes, p: nat)
    requires p % 2 == 0 && p + 1 < |b|
    ensures Checksum(Seal(b, p)) == 0
  {
    StoreFold(b, p, Checksum(StoreWord(b, p, 0)));
  }

  /** A field value passes the receiver's check exactly when it is the computed one, or all ones
      where zero was computed. */
  lemma VerifiesIff(b: Bytes, p: nat, v: Word)
    requires p % 2 == 0 && p + 1 < |b|
    ensures var c := Checksum(StoreWord(b, p, 0));
            Checksum(StoreWord(b, p, v)) == 0 <==> v == c || (v == 65535 && c == 0)
  {
    StoreFold(b, p, v);
  }

  /** Sealing a buffer that already verifies changes nothing, except that an all-ones field
      becomes zero when the rest is not all zero. */
  lemma ResealValid(b: Bytes, p: nat)
    requires p % 2 == 0 && p + 1 < |b| && Checksum(b) == 0
    ensures var v, others := LoadWord(b[p], b[p + 1]), WordSum(StoreWord(b, p, 0));
            Seal(b, p) == if v == 65535 && others > 0 then StoreWord(b, p, 0) else b
  {
    StoreLoaded(b, p);
    VerifiesIff(b, p, LoadWord(b[p], b[p + 1]));
    FoldZeroIff(WordSum(StoreWord(b, p, 0)));
  }

  lemma StoreLoaded(b: Bytes, p: nat)
    requires p + 1 < |b|
    ensures StoreWord(b, p, LoadWord(b[p], b[p + 1])) == b
  {
  }

  /** Sealing is idempotent. */
  lemma SealTwice(b: Bytes, p: nat)
    requires p + 1 < |b|
    ensures Seal(Seal(b, p), p) == Seal(b, p)
  {
    assert StoreWord(Seal(b, p), p, 0) == StoreWord(b, p, 0);
    var c := Checksum(StoreWord(b, p, 0));
    assert StoreWord(StoreWord(b, p, c), p, c) == StoreWord(b, p, c);
  }

  /** Detection: overwriting one word goes unnoticed only if the word is unchanged, or if it turns
      0x0000 into 0xFFFF or back while some other byte is not zero. */
  lemma ChangeDetectedIff(b: Bytes, p: nat, w: Word)
    requires p % 2 == 0 && p + 1 < |b|
    ensures var v := LoadWord(b[p], b[p + 1]);
            Checksum(StoreWord(b, p, w)) == Checksum(b) <==>
            v == w || (((v == 0 && w == 65535) || (v == 65535 && w == 0)) &&
                       exists i :: 0 <= i < |b| && i != p && i != p + 1 && b[i] != 0)
  {
    StoreLoaded(b, p);
    StoreFold(b, p, LoadWord(b[p], b[p + 1]));
    StoreFold(b, p, w);
    FoldZeroIff(WordSum(StoreWord(b, p, 0)));
    OthersZeroIff(b, p);
  }

  lemma OthersZeroIff(b: Bytes, p: nat)
    requires p % 2 == 0 && p + 1 < |b|
    ensures WordSum(StoreWord(b, p, 0)) != 0 <==> exists i :: 0 <= i < |b| && i != p && i != p + 1 && b[i] != 0
  {
    var z := StoreWord(b, p, 0);
    ZeroSumIff(z);
    if WordSum(z) != 0 {
      var i :| 0 <= i < |z| && z[i] != 0;
      assert b[i] != 0;
    } else {
      assert forall i :: 0 <= i < |b| && i != p && i != p + 1 ==> z[i] == b[i];
    }
  }
}
