/**
 The Internet checksum as the programs compute it on a little-endian host: 16-bit
 words of memory are added in a 64-bit accumulator, carries are folded back in, and
 the low 16 bits of the complement are returned.
 */
module InternetChecksum {
  import opened Seqs

  const M: nat := 65535      // 2^16 - 1, the modulus of one's complement addition

  type Word = w: int | 0 <= w < 65536

  /** Two bytes of memory read as an unsigned short. */
  function LoadWord(lo: Byte, hi: Byte): Word { lo + 256 * hi }

  /** The words of a buffer; an odd last byte stands for itself. */
  function WordSum(b: Bytes): nat {
    if |b| == 0 then 0
    else if |b| == 1 then b[0]
    else LoadWord(b[0], b[1]) + WordSum(b[2..])
  }

  function Fold(sum: nat): Word {
    if sum < 65536 then sum else Fold(sum % 65536 + sum / 65536)
  }

  function Checksum(b: Bytes): Word { 65535 - Fold(WordSum(b)) }

  /** How many rounds the fold loop makes. */
  ghost function FoldRounds(sum: nat): nat {
    if sum < 65536 then 0 else 1 + FoldRounds(sum % 65536 + sum / 65536)
  }

  // ---------------------------------------------------------------- the algorithm

  lemma NextWord(b: Bytes, i: nat)
    requires i + 1 < |b|
    ensures WordSum(b[i..]) == LoadWord(b[i], b[i + 1]) + WordSum(b[i + 2..])
  {
    assert b[i..][2..] == b[i + 2..];
  }

  lemma LastByte(b: Bytes, i: nat)
    requires i <= |b| <= i + 1
    ensures WordSum(b[i..]) == if i < |b| then b[i] else 0
  {
  }

  /** checksum(buf + start, len): the two loops over the array. The accumulator is an unsigned long,
      so every addition is taken modulo 2^64. */
  method ComputeChecksum(buf: array<Byte>, start: nat, len: nat) returns (c: Word)
    requires start + len <= buf.Length && len < 0x8000_0000
    ensures c == Checksum(buf[start..start + len])
  {
    var sum := SumWords(buf, start, len);
    ghost var total := sum;
    while sum / 65536 != 0
      invariant 0 <= sum && Fold(sum) == Fold(total)
      decreases sum
    {
      sum := sum % 65536 + sum / 65536;
    }
    c := (0x1_0000_0000_0000_0000 - 1 - sum) % 65536;
  }

  /** The accumulation loop of checksum. */
  method SumWords(buf: array<Byte>, start: nat, len: nat) returns (sum: nat)
    requires start + len <= buf.Length && len < 0x8000_0000
    ensures sum == WordSum(buf[start..start + len])
  {
    var i, left := 0, len;
    sum := 0;
    ghost var all := buf[start..start + len];
    assert all[0..] == all;
    while left > 1
      invariant 0 <= left <= len && i == len - left
      invariant sum + WordSum(all[i..]) == WordSum(all)
      invariant sum <= 65535 * i
    {
      NextWord(all, i);
      var word: Word := LoadWord(buf[start + i], buf[start + i + 1]);
      assert word == LoadWord(all[i], all[i + 1]);
      assert sum + word < 0x1_0000_0000_0000_0000;
      sum := (sum + word) % 0x1_0000_0000_0000_0000;
      i, left := i + 2, left - 2;
    }
    LastByte(all, i);
    if left == 1 {
      sum := (sum + buf[start + i]) % 0x1_0000_0000_0000_0000;
    }
  }

  lemma {:induction false} WordSumBound(b: Bytes)
    ensures 2 * WordSum(b) <= 65535 * (|b| + 1)
  {
    if |b| > 1 {
      WordSumBound(b[2..]);
    }
  }

  /** For anything a 64 KiB buffer can hold, the accumulator fits 32 bits and two folds suffice. */
  lemma AccumulatorFits(b: Bytes)
    requires |b| <= 65536
    ensures WordSum(b) < 0x1_0000_0000
    ensures FoldRounds(WordSum(b)) <= 2
  {
    WordSumBound(b);
    TwoRounds(WordSum(b));
  }

  lemma TwoRounds(sum: nat)
    requires sum < 0x1_0000_0000
    ensures FoldRounds(sum) <= 2
  {
    if sum >= 65536 {
      var once := sum % 65536 + sum / 65536;
      assert once <= 65535 + 65535;
      if once >= 65536 {
        assert once % 65536 + once / 65536 < 65536;
        assert FoldRounds(once % 65536 + once / 65536) == 0;
        assert FoldRounds(once) == 1;
      }
    }
  }

  // ---------------------------------------------------------------- what folding computes

  /** One's complement addition with end-around carry (section 1 of RFC 1071). */
  function OnesAdd(a: Word, b: Word): Word {
    if a + b < 65536 then a + b else a + b - 65535
  }

  /** The one's complement representative of a sum: zero only for zero, otherwise 1..65535. */
  ghost function Representative(sum: nat): Word {
    if sum == 0 then 0 else 1 + (sum - 1) % M
  }

  /** The representative is the only candidate that differs from the sum by a multiple of 65535. */
  lemma RepresentativeUnique(sum: nat, w: Word, q: nat)
    requires sum == w + M * q && (w == 0 ==> sum == 0)
    ensures Representative(sum) == w
  {
    if sum > 0 {
      ModShift(w - 1, q);
    }
  }

  /** Adding a multiple of the modulus changes no residue. */
  lemma {:induction false} ModShift(n: nat, q: nat)
    ensures (n + M * q) % M == n % M
  {
    if q > 0 {
      ModShift(n, q - 1);
      assert n + M * q == (n + M * (q - 1)) + M;
    }
  }

  /** How often 65535 has been taken off. */
  ghost function Rounds(sum: nat): (q: nat)
    ensures sum == Representative(sum) + M * q
  {
    if sum == 0 then 0 else (sum - 1) / M
  }

  lemma FoldStep(sum: nat)
    requires sum >= 65536
    ensures var once := sum % 65536 + sum / 65536;
            0 < once < sum && Representative(once) == Representative(sum)
  {
    var q, r := sum / 65536, sum % 65536;
    var once := r + q;
    RepresentativeUnique(sum, Representative(once), Rounds(once) + q);
  }

  lemma {:induction false} FoldIsRepresentative(sum: nat)
    ensures Fold(sum) == Representative(sum)
    decreases sum
  {
    if sum >= 65536 {
      FoldStep(sum);
      FoldIsRepresentative(sum % 65536 + sum / 65536);
    }
  }

  /** Folding turns addition into one's complement addition. */
  lemma FoldAdd(a: nat, b: nat)
    ensures Fold(a + b) == OnesAdd(Fold(a), Fold(b))
  {
    FoldIsRepresentative(a);
    FoldIsRepresentative(b);
    FoldIsRepresentative(a + b);
    var x: nat, y: nat := Representative(a), Representative(b);
    var carry: nat := if x + y < 65536 then 0 else 1;
    RepresentativeUnique(a + b, OnesAdd(x, y), Rounds(a) + Rounds(b) + carry);
  }

  /** Two sums fold alike exactly when they agree modulo 65535 and on being zero. */
  lemma FoldEqualIff(a: nat, b: nat)
    ensures Fold(a) == Fold(b) <==> (a % M == b % M && (a == 0 <==> b == 0))
  {
    FoldIsRepresentative(a);
    FoldIsRepresentative(b);
    RepresentativeResidue(a);
    RepresentativeResidue(b);
  }

  lemma RepresentativeResidue(a: nat)
    ensures Representative(a) % M == a % M
    ensures Representative(a) == if a == 0 then 0 else if a % M == 0 then M else a % M
  {
    ModShift(Representative(a), Rounds(a));
  }

  lemma FoldZeroIff(a: nat)
    ensures Fold(a) == 0 <==> a == 0
  {
    FoldIsRepresentative(a);
  }

  ghost predicate AllZero(b: Bytes) {
    forall i :: 0 <= i < |b| ==> b[i] == 0
  }

  lemma AllZeroSplit(b: Bytes)
    requires |b| > 1
    ensures AllZero(b) <==> b[0] == 0 && b[1] == 0 && AllZero(b[2..])
  {
    var rest := b[2..];
    forall i | 0 <= i < |rest| ensures rest[i] == b[i + 2] {
    }
    forall i | 2 <= i < |b| ensures b[i] == rest[i - 2] {
    }
  }

  /** The sum is zero only when every byte is. */
  lemma {:induction false} ZeroSumIff(b: Bytes)
    ensures WordSum(b) == 0 <==> AllZero(b)
  {
    if |b| > 1 {
      ZeroSumIff(b[2..]);
      AllZeroSplit(b);
    }
  }
}
