/**
 Whole runs of the asynchronous copy: every schedule of completions, every mix of
 full, short and failed results.
 */
module FileCopyRuns {
  import opened Seqs
  import opened FileCopy

  // ---------------------------------------------------------------- runs

  /** The copy loop's own condition. */
  predicate Running(src: Bytes, s: State) {
    s.bytesWritten < |src| || s.active > 0
  }

  /** The state once files, pool and ring are set up; the buffers hold anything. */
  ghost predicate Init(src: Bytes, s: State) {
    && |s.info| == |s.inUse| == |s.bufs| >= 1
    && (forall i :: 0 <= i < |s.inUse| ==> !s.inUse[i])
    && (forall i :: 0 <= i < |s.bufs| ==> |s.bufs[i]| == SIZE)
    && s.readOffset == 0 && s.bytesWritten == 0 && s.active == 0
    && s.ring == [] && s.dest == []
  }

  lemma InitInv(src: Bytes, s: State)
    requires Init(src, s)
    ensures Inv(src, s)
  {
    CountAllOrSome(s.inUse);
  }

  /** The state the setup code leaves; the malloc'ed records and buffers hold leftovers. */
  function StartState(src: Bytes, junk: seq<Info>, garbage: seq<Bytes>): (s: State)
    requires |junk| == |garbage| >= 1 && forall i :: 0 <= i < |garbage| ==> |garbage[i]| == SIZE
    ensures Init(src, s) && Inv(src, s)
  {
    var s := State(seq(|junk|, _ => false), junk, garbage, 0, 0, 0, [], []);
    InitInv(src, s);
    s
  }

  /** What can happen on the next trip round the loop. */
  ghost predicate May(src: Bytes, s: State, e: Event)
    requires Inv(src, s)
  {
    match e
    case Completed(k, res) => MayComplete(Fill(src, s), k, res)
    case Idle => Fill(src, s).active == 0
  }

  function Step(src: Bytes, s: State, e: Event): (t: State)
    requires Inv(src, s) && May(src, s, e)
    ensures Inv(src, t) && |t.inUse| == |s.inUse|
  {
    match e
    case Completed(k, res) =>
      CompleteInv(src, Fill(src, s), k, res);
      Complete(src, Fill(src, s), k, res)
    case Idle => Fill(src, s)
  }

  /** A schedule the kernel can play against the loop from s. */
  ghost predicate Legal(src: Bytes, s: State, sched: seq<Event>)
    requires Inv(src, s)
    decreases |sched|
  {
    sched == [] ||
    (Running(src, s) && May(src, s, sched[0]) && Legal(src, Step(src, s, sched[0]), sched[1..]))
  }

  function Run(src: Bytes, s: State, sched: seq<Event>): (t: State)
    requires Inv(src, s) && Legal(src, s, sched)
    ensures Inv(src, t) && |t.inUse| == |s.inUse|
    decreases |sched|
  {
    if sched == [] then s else Run(src, Step(src, s, sched[0]), sched[1..])
  }

  // ---------------------------------------------------------------- bookkeeping

  ghost function Len(r: Request): nat { r.len }

  /** Transfers a request still needs: a read is followed by a write. */
  ghost function Weight(r: Request): nat { if r.op.Read? then 2 else 1 }

  ghost function InFlight(s: State): nat { Total(Len, s.ring) }

  /** The number of 64 KiB chunks, the last one perhaps shorter. */
  function Chunks(n: nat): nat { (n + 65535) / 65536 }

  /** Twice the chunks not yet handed out plus what the outstanding requests need. */
  ghost function Work(src: Bytes, s: State): int {
    2 * (Chunks(|src|) - Chunks(s.readOffset)) + Total(Weight, s.ring)
  }

  /** The bytes an event fails to transfer. */
  ghost function Loss(src: Bytes, s: State, e: Event): nat
    requires Inv(src, s) && May(src, s, e)
  {
    match e
    case Completed(k, res) => Fill(src, s).ring[k].len - (if res > 0 then res else 0)
    case Idle => 0
  }

  ghost function Lost(src: Bytes, s: State, sched: seq<Event>): nat
    requires Inv(src, s) && Legal(src, s, sched)
    decreases |sched|
  {
    if sched == [] then 0
    else Loss(src, s, sched[0]) + Lost(src, Step(src, s, sched[0]), sched[1..])
  }

  /** Every event is a completion that transferred all it was asked to. */
  ghost predicate AllFull(src: Bytes, s: State, sched: seq<Event>)
    requires Inv(src, s) && Legal(src, s, sched)
    decreases |sched|
  {
    sched == [] ||
    (sched[0].Completed? && Loss(src, s, sched[0]) == 0 && AllFull(src, Step(src, s, sched[0]), sched[1..]))
  }

  // ---------------------------------------------------------------- filling

  ghost predicate Covered(ring: seq<Request>, p: nat) {
    exists k :: 0 <= k < |ring| && ring[k].offset <= p < ring[k].offset + ring[k].len
  }

  ghost predicate Landed(src: Bytes, s: State, p: nat)
    requires p < |src|
  {
    p < |s.dest| && s.dest[p] == src[p]
  }

  /** Every byte handed out is in the destination or still in flight. */
  ghost predicate NothingLost(src: Bytes, s: State)
    requires Shape(src, s)
  {
    forall p: nat {:trigger Covered(s.ring, p)} :: p < s.readOffset ==> Landed(src, s, p) || Covered(s.ring, p)
  }

  lemma CoveredAppend(ring: seq<Request>, r: Request, p: nat)
    requires Covered(ring, p) || r.offset <= p < r.offset + r.len
    ensures Covered(ring + [r], p)
  {
    if Covered(ring, p) {
      var k :| 0 <= k < |ring| && ring[k].offset <= p < ring[k].offset + ring[k].len;
      assert (ring + [r])[k] == ring[k];
    } else {
      assert (ring + [r])[|ring|] == r;
    }
  }

  lemma CoveredRemove(ring: seq<Request>, k: nat, p: nat)
    requires k < |ring| && Covered(ring, p)
    ensures Covered(Remove(ring, k), p) || ring[k].offset <= p < ring[k].offset + ring[k].len
  {
    var j :| 0 <= j < |ring| && ring[j].offset <= p < ring[j].offset + ring[j].len;
    if j != k {
      assert Remove(ring, k)[if j < k then j else j - 1] == ring[j];
    }
  }

  /** What one pass over the pool keeps: bytes already accounted for, the work left, the destination. */
  ghost predicate FillKeeps(src: Bytes, s: State, t: State)
    requires Shape(src, s) && Shape(src, t)
  {
    && t.readOffset - InFlight(t) == s.readOffset - InFlight(s)
    && Work(src, t) == Work(src, s)
    && t.bytesWritten == s.bytesWritten && t.dest == s.dest && |t.inUse| == |s.inUse|
    && s.readOffset <= t.readOffset && s.active <= t.active
    && (NothingLost(src, s) ==> NothingLost(src, t))
    && (forall i {:trigger t.inUse[i]} :: 0 <= i < |s.inUse| && s.inUse[i] ==> t.inUse[i])
  }

  lemma FillSlotLosesNothing(src: Bytes, s: State, i: nat)
    requires Inv(src, s) && i < |s.inUse| && NothingLost(src, s) && Inv(src, FillSlot(src, s, i))
    ensures NothingLost(src, FillSlot(src, s, i))
  {
    var t := FillSlot(src, s, i);
    if t != s {
      forall p: nat | p < t.readOffset ensures Landed(src, t, p) || Covered(t.ring, p) {
        if p >= s.readOffset || Covered(s.ring, p) {
          CoveredAppend(s.ring, t.ring[|s.ring|], p);
        } else {
          assert Landed(src, s, p);
        }
      }
    }
  }

  lemma OneMoreChunk(off: nat, size: nat)
    requires off < size && off % SIZE == 0
    ensures Chunks(off + Min(SIZE, size - off)) == Chunks(off) + 1
  {
    assert off == SIZE * (off / SIZE);
  }

  lemma FillSlotTotals(src: Bytes, s: State, i: nat)
    requires Inv(src, s) && i < |s.inUse|
    ensures var t := FillSlot(src, s, i);
            t.readOffset - InFlight(t) == s.readOffset - InFlight(s) && Work(src, t) == Work(src, s)
  {
    if !s.inUse[i] && s.readOffset < |src| {
      var n := Min(SIZE, |src| - s.readOffset);
      var r := Request(Read, i, n, s.readOffset, i);
      OneMoreChunk(s.readOffset, |src|);
      TotalAppend(Len, s.ring, r);
      TotalAppend(Weight, s.ring, r);
    }
  }

  lemma FillSlotKeeps(src: Bytes, s: State, i: nat)
    requires Inv(src, s) && i < |s.inUse|
    ensures Inv(src, FillSlot(src, s, i)) && FillKeeps(src, s, FillSlot(src, s, i))
  {
    FillSlotInv(src, s, i);
    FillSlotTotals(src, s, i);
    if NothingLost(src, s) {
      FillSlotLosesNothing(src, s, i);
    }
  }

  lemma FillKeepsTransitive(src: Bytes, s: State, t: State, u: State)
    requires Shape(src, s) && Shape(src, t) && Shape(src, u)
    requires FillKeeps(src, s, t) && FillKeeps(src, t, u)
    ensures FillKeeps(src, s, u)
  {
  }

  lemma {:induction false} FillFromKeeps(src: Bytes, s: State, i: nat)
    requires Inv(src, s) && i <= |s.inUse|
    ensures FillKeeps(src, s, FillFrom(src, s, i))
    decreases |s.inUse| - i
  {
    if i < |s.inUse| {
      FillSlotKeeps(src, s, i);
      FillFromKeeps(src, FillSlot(src, s, i), i + 1);
      FillKeepsTransitive(src, s, FillSlot(src, s, i), FillFrom(src, s, i));
    }
  }

  ghost predicate BusyFrom(src: Bytes, t: State, i: nat) {
    t.readOffset == |src| || forall j {:trigger t.inUse[j]} :: i <= j < |t.inUse| ==> t.inUse[j]
  }

  lemma {:induction false} FillFromUses(src: Bytes, s: State, i: nat)
    requires Inv(src, s) && i <= |s.inUse|
    ensures BusyFrom(src, FillFrom(src, s, i), i)
    decreases |s.inUse| - i
  {
    if s.readOffset == |src| {
      FillFromEnd(src, s, i);
    } else if i < |s.inUse| {
      var t := FillSlot(src, s, i);
      FillSlotInv(src, s, i);
      FillFromUses(src, t, i + 1);
      StaysBusy(src, t, i + 1, i);
    }
  }

  lemma {:induction false} StaysBusy(src: Bytes, s: State, i: nat, j: nat)
    requires Inv(src, s) && j < i <= |s.inUse| && s.inUse[j]
    ensures FillFrom(src, s, i).inUse[j]
    decreases |s.inUse| - i
  {
    if i < |s.inUse| {
      FillSlotInv(src, s, i);
      StaysBusy(src, FillSlot(src, s, i), i + 1, j);
    }
  }

  /** After a pass, either the source is used up or every slot is busy. */
  lemma FillUsesPool(src: Bytes, s: State)
    requires Inv(src, s) && |s.inUse| >= 1
    ensures var t := Fill(src, s);
            FillKeeps(src, s, t) && (t.readOffset == |src| || t.active == |t.inUse|)
  {
    FillFromKeeps(src, s, 0);
    FillFromUses(src, s, 0);
    CountAllOrSome(Fill(src, s).inUse);
  }

  // ---------------------------------------------------------------- one trip

  lemma CompleteKeeps(src: Bytes, s: State, k: nat, res: int)
    requires Inv(src, s) && MayComplete(s, k, res)
    ensures var t, lost := Complete(src, s, k, res), s.ring[k].len - (if res > 0 then res else 0);
            && t.readOffset == s.readOffset
            && t.bytesWritten + InFlight(t) + lost == s.bytesWritten + InFlight(s)
            && Work(src, t) == Work(src, s) - (if s.ring[k].op.Read? && res <= 0 then 2 else 1)
  {
    var t, r, rest := Complete(src, s, k, res), s.ring[k], Remove(s.ring, k);
    TotalRemove(Len, s.ring, k);
    TotalRemove(Weight, s.ring, k);
    if r.op.Read? && res > 0 {
      var w := Request(Write, r.slot, res, r.offset, r.slot);
      assert t.ring == rest + [w];
      TotalAppend(Len, rest, w);
      TotalAppend(Weight, rest, w);
    }
  }

  lemma FullCompletionLosesNothing(src: Bytes, s: State, k: nat)
    requires Inv(src, s) && k < |s.ring| && NothingLost(src, s)
    ensures Shape(src, Complete(src, s, k, s.ring[k].len))
    ensures NothingLost(src, Complete(src, s, k, s.ring[k].len))
  {
    var r, rest := s.ring[k], Remove(s.ring, k);
    var t := Complete(src, s, k, r.len);
    CompleteInv(src, s, k, r.len);
    forall p: nat | p < t.readOffset ensures Landed(src, t, p) || Covered(t.ring, p) {
      var mine := r.offset <= p < r.offset + r.len;
      if r.op.Read? {
        var w := Request(Write, r.slot, r.len, r.offset, r.slot);
        assert t.ring == rest + [w];
        if Covered(s.ring, p) {
          CoveredRemove(s.ring, k, p);
          CoveredAppend(rest, w, p);
        }
      } else {
        assert t.ring == rest;
        if mine {
          assert s.bufs[r.slot][..r.len][p - r.offset] == src[r.offset..r.offset + r.len][p - r.offset];
        } else if Covered(s.ring, p) {
          CoveredRemove(s.ring, k, p);
        }
      }
    }
  }

  /** One trip conserves bytes, up to what the event loses, and uses up work. */
  lemma StepKeeps(src: Bytes, s: State, e: Event)
    requires Inv(src, s) && May(src, s, e) && |s.inUse| >= 1
    ensures var t := Step(src, s, e);
            && t.readOffset - t.bytesWritten - InFlight(t) ==
               s.readOffset - s.bytesWritten - InFlight(s) + Loss(src, s, e)
            && (e.Completed? ==> Work(src, t) < Work(src, s))
            && (e.Completed? && Loss(src, s, e) == 0 ==> Work(src, t) == Work(src, s) - 1)
            && (e.Completed? && Loss(src, s, e) == 0 && NothingLost(src, s) ==> NothingLost(src, t))
  {
    FillUsesPool(src, s);
    var f := Fill(src, s);
    if e.Completed? {
      CompleteKeeps(src, f, e.pick, e.res);
      if Loss(src, s, e) == 0 && NothingLost(src, s) {
        FullCompletionLosesNothing(src, f, e.pick);
      }
    }
  }
}
