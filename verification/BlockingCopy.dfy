/** The blocking read/write loop, and its agreement with the asynchronous one. */
module BlockingCopy {
  import opened Seqs
  import opened FileCopy
  import opened FileCopyRuns
  import opened FileCopyTheorems

  /** The results of one read and, when the read returned data, of the write after it. */
  datatype Answer = Answer(got: int, put: int)

  /** What the kernel may answer from position pos until the loop stops: a read returns 0 only at
      the end of the file, may be short, and a write may be short or fail. */
  ghost predicate Answers(src: Bytes, pos: nat, a: seq<Answer>)
    requires pos <= |src|
    decreases |a|
  {
    |a| >= 1 &&
    if a[0].got <= 0 then |a| == 1 && (a[0].got == 0 ==> pos == |src|)
    else
      && a[0].got <= Min(SIZE, |src| - pos)
      && (if a[0].put == -1 then |a| == 1
          else 0 <= a[0].put <= a[0].got && Answers(src, pos + a[0].got, a[1..]))
  }

  /** The bytes that reach the destination. */
  function Written(src: Bytes, pos: nat, a: seq<Answer>): Bytes
    requires pos <= |src| && Answers(src, pos, a)
    decreases |a|
  {
    if a[0].got <= 0 || a[0].put == -1 then []
    else src[pos..pos + a[0].put] + Written(src, pos + a[0].got, a[1..])
  }

  function ReadTotal(a: seq<Answer>): nat {
    if a == [] then 0 else (if a[0].got > 0 then a[0].got else 0) + ReadTotal(a[1..])
  }

  predicate WritesFull(a: seq<Answer>) {
    forall i :: 0 <= i < |a| && a[i].got > 0 ==> a[i].put == a[i].got
  }

  /** The destination is complete exactly when the reads covered the file and no write fell short. */
  lemma {:induction false} WrittenExactIff(src: Bytes, pos: nat, a: seq<Answer>)
    requires pos <= |src| && Answers(src, pos, a)
    ensures |Written(src, pos, a)| <= ReadTotal(a) <= |src| - pos
    ensures Written(src, pos, a) == src[pos..] <==> WritesFull(a) && ReadTotal(a) == |src| - pos
    decreases |a|
  {
    if a[0].got <= 0 || a[0].put == -1 {
      assert a[1..] == [];
    } else {
      var next, rest := pos + a[0].got, a[1..];
      WrittenExactIff(src, next, rest);
      FirstWriteFull(a);
      assert src[pos..] == src[pos..next] + src[next..];
      SameHalves(src[pos..pos + a[0].put], Written(src, next, rest), src[pos..next], src[next..]);
    }
  }

  lemma FirstWriteFull(a: seq<Answer>)
    requires a != [] && a[0].got > 0
    ensures WritesFull(a) <==> a[0].put == a[0].got && WritesFull(a[1..])
  {
    var rest := a[1..];
    assert forall i :: 1 <= i < |a| ==> a[i] == rest[i - 1];
    assert forall i :: 0 <= i < |rest| ==> rest[i] == a[i + 1];
  }

  lemma SameHalves(a: Bytes, b: Bytes, c: Bytes, d: Bytes)
    requires |a| <= |c| && |b| <= |d|
    ensures a + b == c + d <==> a == c && b == d
  {
    if a + b == c + d {
      assert |a| == |c|;
      assert (a + b)[..|a|] == a && (c + d)[..|c|] == c && (a + b)[|a|..] == b && (c + d)[|c|..] == d;
    }
  }

  /** One round in which the write did not fail. */
  lemma FirstRound(src: Bytes, pos: nat, a: seq<Answer>)
    requires pos <= |src| && Answers(src, pos, a) && a[0].got > 0 && a[0].put != -1
    ensures pos + a[0].got <= |src| && 0 <= a[0].put <= a[0].got && Answers(src, pos + a[0].got, a[1..])
    ensures Written(src, pos, a) == src[pos..pos + a[0].put] + Written(src, pos + a[0].got, a[1..])
  {
  }

  function Put(x: Answer): nat {
    if x.got > 0 && x.put > 0 then x.put else 0
  }

  function PutTotal(a: seq<Answer>): nat {
    if a == [] then 0 else Put(a[0]) + PutTotal(a[1..])
  }

  lemma {:induction false} WrittenLength(src: Bytes, pos: nat, a: seq<Answer>)
    requires pos <= |src| && Answers(src, pos, a)
    ensures |Written(src, pos, a)| == PutTotal(a)
    decreases |a|
  {
    if a[0].got <= 0 || a[0].put == -1 {
      assert a[1..] == [];
    } else {
      FirstRound(src, pos, a);
      WrittenLength(src, pos + a[0].got, a[1..]);
    }
  }

  lemma TotalsNext(a: seq<Answer>, n: nat)
    requires 0 < n < |a|
    ensures ReadTotal(a[..n]) == (if a[0].got > 0 then a[0].got else 0) + ReadTotal(a[1..][..n - 1])
    ensures PutTotal(a[..n]) == Put(a[0]) + PutTotal(a[1..][..n - 1])
  {
    assert a[..n][0] == a[0] && a[..n][1..] == a[1..][..n - 1];
  }

  lemma BlockAfter(front: Bytes, rest: Bytes, q: nat, block: Bytes)
    requires q + |block| <= |rest| && rest[q..q + |block|] == block
    ensures (front + rest)[|front| + q..|front| + q + |block|] == block
  {
  }

  /** The block of round n stands behind what the rounds before have written, and is taken from where they
      have read to. */
  ghost predicate BlockIs(src: Bytes, pos: nat, w: Bytes, a: seq<Answer>, n: nat)
    requires n < |a|
  {
    var from, at := pos + ReadTotal(a[..n]), PutTotal(a[..n]);
    && from + Put(a[n]) <= |src| && at + Put(a[n]) <= |w|
    && w[at..at + Put(a[n])] == src[from..from + Put(a[n])]
  }

  lemma BlockNext(src: Bytes, pos: nat, front: Bytes, w: Bytes, a: seq<Answer>, n: nat)
    requires 0 < n < |a| && a[0].got > 0 && |front| == Put(a[0])
    requires BlockIs(src, pos + a[0].got, w, a[1..], n - 1)
    ensures BlockIs(src, pos, front + w, a, n)
  {
    TotalsNext(a, n);
    var at := PutTotal(a[1..][..n - 1]);
    BlockAfter(front, w, at, w[at..at + Put(a[n])]);
  }

  /** Round by round, what is written: a short write is not made up for, and later rounds go on behind it. */
  lemma {:induction false} WrittenBlock(src: Bytes, pos: nat, a: seq<Answer>, n: nat)
    requires pos <= |src| && Answers(src, pos, a) && n < |a|
    ensures |Written(src, pos, a)| == PutTotal(a)
    ensures BlockIs(src, pos, Written(src, pos, a), a, n)
    decreases n
  {
    WrittenLength(src, pos, a);
    if n == 0 {
      FirstBlock(src, pos, a);
      BlockZero(src, pos, Written(src, pos, a), a);
    } else {
      FirstRound(src, pos, a);
      WrittenBlock(src, pos + a[0].got, a[1..], n - 1);
      BlockNext(src, pos, src[pos..pos + a[0].put], Written(src, pos + a[0].got, a[1..]), a, n);
    }
  }

  lemma FirstBlock(src: Bytes, pos: nat, a: seq<Answer>)
    requires pos <= |src| && Answers(src, pos, a)
    ensures pos + Put(a[0]) <= |src| && Put(a[0]) <= |Written(src, pos, a)|
    ensures Written(src, pos, a)[..Put(a[0])] == src[pos..pos + Put(a[0])]
  {
  }

  lemma BlockZero(src: Bytes, pos: nat, w: Bytes, a: seq<Answer>)
    requires a != [] && pos + Put(a[0]) <= |src| && Put(a[0]) <= |w| && w[..Put(a[0])] == src[pos..pos + Put(a[0])]
    ensures BlockIs(src, pos, w, a, 0)
  {
    assert a[..0] == [];
    assert ReadTotal(a[..0]) == 0 && PutTotal(a[..0]) == 0;
  }

  /** What the n-th write adds, and what is still to come. */
  lemma OneMoreWritten(dest: Bytes, src: Bytes, pos: nat, a: seq<Answer>, n: nat)
    requires pos <= |src| && n < |a| && Answers(src, pos, a[n..]) && a[n].got > 0 && a[n].put != -1
    ensures n + 1 < |a| && pos + a[n].got <= |src| && 0 <= a[n].put <= a[n].got
    ensures Answers(src, pos + a[n].got, a[n + 1..])
    ensures dest + Written(src, pos, a[n..]) ==
            dest + src[pos..pos + a[n].got][..a[n].put] + Written(src, pos + a[n].got, a[n + 1..])
  {
    assert a[n..][0] == a[n] && a[n..][1..] == a[n + 1..];
    FirstRound(src, pos, a[n..]);
    assert src[pos..pos + a[n].put] == src[pos..pos + a[n].got][..a[n].put];
    Associate(dest, src[pos..pos + a[n].put], Written(src, pos + a[n].got, a[n + 1..]));
  }

  /** The loop itself: read up to SIZE bytes, write what was read, stop at the end or on an error. */
  method BlockingIo(src: Bytes, answers: seq<Answer>) returns (dest: Bytes)
    requires Answers(src, 0, answers)
    ensures dest == src <==> WritesFull(answers) && ReadTotal(answers) == |src|
    ensures dest == Written(src, 0, answers)
  {
    dest := [];
    var pos, n := 0, 0;
    var readBytes := answers[0].got;
    while readBytes > 0
      invariant 0 <= pos <= |src| && n < |answers| && readBytes == answers[n].got
      invariant Answers(src, pos, answers[n..])
      invariant dest + Written(src, pos, answers[n..]) == Written(src, 0, answers)
      decreases |answers| - n
    {
      var buffer := src[pos..pos + readBytes];
      var writeBytes := answers[n].put;
      if writeBytes == -1 { break; }
      OneMoreWritten(dest, src, pos, answers, n);
      dest := dest + buffer[..writeBytes];
      pos, n := pos + readBytes, n + 1;
      readBytes := answers[n].got;
    }
    WrittenExactIff(src, 0, answers);
    assert src[0..] == src;
  }

  /** Every pool size and every completion order of full transfers gives the destination that the
      sequential loop gives, short sequential reads included. */
  lemma AsyncAgreesWithBlocking(src: Bytes, s: State, sched: seq<Event>, answers: seq<Answer>)
    requires Init(src, s) && Started(src, s) && Legal(src, s, sched)
    requires AllFull(src, s, sched) && |sched| == 2 * Chunks(|src|)
    requires Answers(src, 0, answers) && WritesFull(answers) && ReadTotal(answers) == |src|
    ensures Run(src, s, sched).dest == Written(src, 0, answers)
  {
    ExitIff(src, s, sched);
    ExitedCopyIsExact(src, s, sched);
    WrittenExactIff(src, 0, answers);
    assert src[0..] == src;
  }
}
