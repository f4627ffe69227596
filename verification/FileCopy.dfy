/**
 The asynchronous file copy as a transition system on values: a pool of buffer
 slots, a ring of outstanding requests and the destination file. One trip round
 the copy loop is Fill (give every free slot a read) followed by one Event of the
 kernel. The kernel may complete any outstanding request, with any result.
 */
module FileCopy {
  import opened Seqs

  const SIZE: nat := 65536

  datatype Op = Read | Write

  /** The record whose address travels with a request as its user data. */
  datatype Info = Info(op: Op, bufIdx: nat, offset: nat)

  /** An outstanding request; slot stands for the user-data pointer into the info array. */
  datatype Request = Request(op: Op, buf: nat, len: nat, offset: nat, slot: nat)

  datatype State = State(
    inUse: seq<bool>,
    info: seq<Info>,
    bufs: seq<Bytes>,
    readOffset: nat,
    bytesWritten: nat,
    active: int,
    ring: seq<Request>,
    dest: Bytes)

  /** What the kernel reports when the loop waits: request number pick ended with
      result res (negative for an error). Idle is a trip on which nothing is
      outstanding, so the loop does not wait at all. */
  datatype Event = Completed(pick: nat, res: int) | Idle

  // ---------------------------------------------------------------- operations

  function Min(a: nat, b: nat): nat { if a <= b then a else b }

  /** A positioned write: a gap before off is filled with zeros. */
  function Pwrite(dest: Bytes, off: nat, data: Bytes): (r: Bytes)
    ensures |r| == if off + |data| > |dest| then off + |data| else |dest|
    ensures forall p {:trigger r[p]} :: off <= p < off + |data| ==> r[p] == data[p - off]
    ensures forall p {:trigger r[p]} :: 0 <= p < |r| && !(off <= p < off + |data|) ==>
              r[p] == if p < |dest| then dest[p] else 0
  {
    seq(if off + |data| > |dest| then off + |data| else |dest|,
        p => if off <= p < off + |data| then data[p - off] else if 0 <= p < |dest| then dest[p] else 0)
  }

  /** Gives slot i the next stretch of the source, if the slot is free and something is left. */
  function FillSlot(src: Bytes, s: State, i: nat): State
    requires Shape(src, s) && i < |s.inUse|
  {
    if s.inUse[i] || s.readOffset >= |src| then s else
      var n := Min(SIZE, |src| - s.readOffset);
      s.(inUse := s.inUse[i := true],
         info := s.info[i := Info(Read, i, s.readOffset)],
         readOffset := s.readOffset + n,
         active := s.active + 1,
         ring := s.ring + [Request(Read, i, n, s.readOffset, i)])
  }

  /** What the kernel has done to memory and to the destination once r has ended with res. */
  function KernelEffect(src: Bytes, s: State, r: Request, res: int): State
    requires r.buf < |s.bufs| && |s.bufs[r.buf]| == SIZE
    requires r.len <= SIZE && r.offset + r.len <= |src| && res <= r.len
  {
    if res <= 0 then s
    else if r.op.Read? then
      s.(bufs := s.bufs[r.buf := src[r.offset..r.offset + res] + s.bufs[r.buf][res..]])
    else
      s.(dest := Pwrite(s.dest, r.offset, s.bufs[r.buf][..res]))
  }

  /** The loop body's reaction to a completion: it looks at its own record, not at the request. */
  function Handle(s: State, slot: nat, res: int): State
    requires slot < |s.info| && s.info[slot].bufIdx < |s.inUse|
  {
    var req := s.info[slot];
    var freed := s.(inUse := s.inUse[req.bufIdx := false], active := s.active - 1);
    match req.op
    case Read =>
      if res > 0 then
        s.(ring := s.ring + [Request(Write, req.bufIdx, res, req.offset, slot)],
           info := s.info[slot := req.(op := Write)])
      else freed
    case Write =>
      if res > 0 then freed.(bytesWritten := s.bytesWritten + res) else freed
  }

  // ---------------------------------------------------------------- invariants

  ghost predicate Shape(src: Bytes, s: State) {
    && |s.info| == |s.inUse| == |s.bufs|
    && (forall i {:trigger s.bufs[i]} :: 0 <= i < |s.bufs| ==> |s.bufs[i]| == SIZE)
    && s.readOffset <= |src|
    && (s.readOffset == |src| || s.readOffset % SIZE == 0)
  }

  /** An outstanding request agrees with its slot's record; a write carries source bytes. */
  ghost predicate ReqOk(src: Bytes, s: State, r: Request)
    requires Shape(src, s)
  {
    && r.slot < |s.inUse| && r.buf == r.slot && s.inUse[r.slot]
    && s.info[r.slot] == Info(r.op, r.slot, r.offset)
    && r.offset % SIZE == 0 && 0 < r.len <= SIZE && r.offset + r.len <= s.readOffset
    && (r.op.Write? ==> s.bufs[r.slot][..r.len] == src[r.offset..r.offset + r.len])
  }

  ghost predicate AllReqOk(src: Bytes, s: State)
    requires Shape(src, s)
  {
    forall k {:trigger s.ring[k]} :: 0 <= k < |s.ring| ==> ReqOk(src, s, s.ring[k])
  }

  /** Two requests never share a slot or a chunk of the file. */
  ghost predicate Distinct(ring: seq<Request>) {
    forall j, k :: 0 <= j < k < |ring| ==>
      ring[j].slot != ring[k].slot && ring[j].offset != ring[k].offset
  }

  ghost predicate HasRequest(ring: seq<Request>, i: nat) {
    exists k :: 0 <= k < |ring| && ring[k].slot == i
  }

  ghost predicate Counted(s: State) {
    && s.active == |s.ring| == Count(s.inUse)
    && (forall i {:trigger s.inUse[i]} :: 0 <= i < |s.inUse| && s.inUse[i] ==> HasRequest(s.ring, i))
  }

  /** Whatever has been written is source content or a zero-filled gap. */
  ghost predicate DestOk(src: Bytes, s: State)
    requires Shape(src, s)
  {
    && |s.dest| <= s.readOffset
    && (forall p {:trigger s.dest[p]} :: 0 <= p < |s.dest| ==> s.dest[p] == src[p] || s.dest[p] == 0)
  }

  ghost predicate Inv(src: Bytes, s: State) {
    && Shape(src, s) && AllReqOk(src, s) && Distinct(s.ring) && Counted(s) && DestOk(src, s)
  }

  // ---------------------------------------------------------------- filling the pool

  lemma AppendRequest(ring: seq<Request>, r: Request)
    requires Distinct(ring)
    requires forall k :: 0 <= k < |ring| ==> ring[k].slot != r.slot && ring[k].offset != r.offset
    ensures Distinct(ring + [r])
    ensures forall i :: HasRequest(ring, i) || i == r.slot ==> HasRequest(ring + [r], i)
  {
    var more := ring + [r];
    forall i | HasRequest(ring, i) || i == r.slot ensures HasRequest(more, i) {
      if i == r.slot {
        assert more[|ring|].slot == i;
      } else {
        var k :| 0 <= k < |ring| && ring[k].slot == i;
        assert more[k].slot == i;
      }
    }
  }

  lemma FillSlotRequests(src: Bytes, s: State, i: nat)
    requires Inv(src, s) && i < |s.inUse| && !s.inUse[i] && s.readOffset < |src|
    ensures Shape(src, FillSlot(src, s, i)) && AllReqOk(src, FillSlot(src, s, i))
  {
    var t := FillSlot(src, s, i);
    forall k | 0 <= k < |t.ring| ensures ReqOk(src, t, t.ring[k]) {
      if k < |s.ring| {
        assert t.ring[k] == s.ring[k];
        assert ReqOk(src, s, s.ring[k]);
      }
    }
  }

  lemma FillSlotInv(src: Bytes, s: State, i: nat)
    requires Inv(src, s) && i < |s.inUse|
    ensures Inv(src, FillSlot(src, s, i))
  {
    var t := FillSlot(src, s, i);
    if t != s {
      FillSlotRequests(src, s, i);
      CountUpdate(s.inUse, i, true);
      forall k | 0 <= k < |s.ring| ensures s.ring[k].slot != i && s.ring[k].offset != s.readOffset {
        assert ReqOk(src, s, s.ring[k]);
      }
      AppendRequest(s.ring, t.ring[|s.ring|]);
    }
  }

  /** Slots i, i+1, ... of the pool are visited in order. */
  function FillFrom(src: Bytes, s: State, i: nat): (t: State)
    requires Inv(src, s) && i <= |s.inUse|
    ensures Inv(src, t) && |t.inUse| == |s.inUse|
    decreases |s.inUse| - i
  {
    if i == |s.inUse| then s
    else
      FillSlotInv(src, s, i);
      FillFrom(src, FillSlot(src, s, i), i + 1)
  }

  function Fill(src: Bytes, s: State): (t: State)
    requires Inv(src, s)
    ensures Inv(src, t) && |t.inUse| == |s.inUse|
  {
    FillFrom(src, s, 0)
  }

  /** The loop may stop early once the whole source has been handed out. */
  lemma {:induction false} FillFromEnd(src: Bytes, s: State, i: nat)
    requires Inv(src, s) && i <= |s.inUse| && s.readOffset >= |src|
    ensures FillFrom(src, s, i) == s
    decreases |s.inUse| - i
  {
    if i < |s.inUse| {
      FillFromEnd(src, s, i + 1);
    }
  }

  // ---------------------------------------------------------------- one completion

  ghost predicate MayComplete(s: State, k: nat, res: int) {
    k < |s.ring| && res <= s.ring[k].len
  }

  function Complete(src: Bytes, s: State, k: nat, res: int): (t: State)
    requires Inv(src, s) && MayComplete(s, k, res)
  {
    var r := s.ring[k];
    Handle(KernelEffect(src, s.(ring := Remove(s.ring, k)), r, res), r.slot, res)
  }

  lemma OthersKeepSlot(src: Bytes, s: State, k: nat)
    requires Inv(src, s) && k < |s.ring|
    ensures forall j {:trigger Remove(s.ring, k)[j]} :: 0 <= j < |s.ring| - 1 ==>
              ReqOk(src, s, Remove(s.ring, k)[j]) && Remove(s.ring, k)[j].slot != s.ring[k].slot
              && Remove(s.ring, k)[j].offset != s.ring[k].offset
    ensures Distinct(Remove(s.ring, k))
  {
  }

  lemma OthersHaveRequests(s: State, k: nat)
    requires Counted(s) && k < |s.ring|
    ensures forall i {:trigger s.inUse[i]} :: 0 <= i < |s.inUse| && s.inUse[i] && i != s.ring[k].slot
              ==> HasRequest(Remove(s.ring, k), i)
  {
    var rest := Remove(s.ring, k);
    forall i | 0 <= i < |s.inUse| && s.inUse[i] && i != s.ring[k].slot
      ensures HasRequest(rest, i)
    {
      var j :| 0 <= j < |s.ring| && s.ring[j].slot == i;
      assert rest[if j < k then j else j - 1].slot == i;
    }
  }

  lemma ReadDoneRequests(src: Bytes, s: State, k: nat, res: int)
    requires Inv(src, s) && MayComplete(s, k, res) && s.ring[k].op.Read? && res > 0
    ensures Shape(src, Complete(src, s, k, res)) && AllReqOk(src, Complete(src, s, k, res))
  {
    OthersKeepSlot(src, s, k);
    var r, t, rest := s.ring[k], Complete(src, s, k, res), Remove(s.ring, k);
    assert ReqOk(src, s, r);
    assert t.bufs[r.slot][..res] == src[r.offset..r.offset + res];
    forall j | 0 <= j < |t.ring| ensures ReqOk(src, t, t.ring[j]) {
      if j < |rest| {
        assert t.ring[j] == rest[j];
        assert t.bufs[rest[j].slot] == s.bufs[rest[j].slot];
      }
    }
  }

  lemma ReadDoneInv(src: Bytes, s: State, k: nat, res: int)
    requires Inv(src, s) && MayComplete(s, k, res) && s.ring[k].op.Read? && res > 0
    ensures Inv(src, Complete(src, s, k, res))
  {
    var r, t, rest := s.ring[k], Complete(src, s, k, res), Remove(s.ring, k);
    ReadDoneRequests(src, s, k, res);
    OthersKeepSlot(src, s, k);
    OthersHaveRequests(s, k);
    assert forall j :: 0 <= j < |rest| ==> rest[j].slot != r.slot && rest[j].offset != r.offset;
    AppendRequest(rest, t.ring[|rest|]);
  }

  /** A finished write leaves the source bytes in its stretch, and elsewhere what was there, or zeros. */
  lemma WriteDoneDest(src: Bytes, s: State, k: nat, res: int)
    requires Inv(src, s) && MayComplete(s, k, res) && s.ring[k].op.Write? && res > 0
    ensures Shape(src, Complete(src, s, k, res)) && DestOk(src, Complete(src, s, k, res))
    ensures var off, dest := s.ring[k].offset, Complete(src, s, k, res).dest;
            off + res <= |src| && dest == Pwrite(s.dest, off, src[off..off + res])
  {
    var r, t := s.ring[k], Complete(src, s, k, res);
    assert ReqOk(src, s, r);
    WrittenPart(s.bufs[r.slot], src, r.offset, r.len, res);
  }

  lemma WrittenPart(buf: Bytes, src: Bytes, off: nat, len: nat, res: nat)
    requires res <= len <= |buf| && off + len <= |src| && buf[..len] == src[off..off + len]
    ensures buf[..res] == src[off..off + res]
  {
    assert buf[..res] == buf[..len][..res];
  }

  /** The slot is given back: after a failed read, or after any write. */
  lemma ReleaseInv(src: Bytes, s: State, k: nat, res: int)
    requires Inv(src, s) && MayComplete(s, k, res) && (s.ring[k].op.Write? || res <= 0)
    ensures Inv(src, Complete(src, s, k, res))
  {
    OthersKeepSlot(src, s, k);
    OthersHaveRequests(s, k);
    var t := Complete(src, s, k, res);
    assert t.ring == Remove(s.ring, k);
    CountUpdate(s.inUse, s.ring[k].slot, false);
    if res > 0 {
      WriteDoneDest(src, s, k, res);
    }
  }

  lemma CompleteInv(src: Bytes, s: State, k: nat, res: int)
    requires Inv(src, s) && MayComplete(s, k, res)
    ensures Inv(src, Complete(src, s, k, res))
    ensures |Complete(src, s, k, res).inUse| == |s.inUse|
  {
    if s.ring[k].op.Read? && res > 0 {
      ReadDoneInv(src, s, k, res);
    } else {
      ReleaseInv(src, s, k, res);
    }
  }

  /** A slot is busy exactly when one outstanding request, and only one, belongs to it. */
  lemma SlotOwnsOneRequest(src: Bytes, s: State, i: nat)
    requires Inv(src, s) && i < |s.inUse|
    ensures s.inUse[i] <==> HasRequest(s.ring, i)
    ensures forall j, k :: 0 <= j < |s.ring| && 0 <= k < |s.ring| && s.ring[j].slot == i && s.ring[k].slot == i ==>
              j == k
    ensures s.active == |s.ring| == Count(s.inUse) <= |s.inUse|
  {
  }

  /** Outstanding requests use different buffers and different stretches of the file. */
  lemma RequestsDisjoint(src: Bytes, s: State, j: nat, k: nat)
    requires Inv(src, s) && j < |s.ring| && k < |s.ring| && j != k
    ensures s.ring[j].buf != s.ring[k].buf
    ensures s.ring[j].offset + s.ring[j].len <= s.ring[k].offset || s.ring[k].offset + s.ring[k].len <= s.ring[j].offset
  {
    var a, b := s.ring[j], s.ring[k];
    assert ReqOk(src, s, a) && ReqOk(src, s, b);
    assert a.offset == SIZE * (a.offset / SIZE) && b.offset == SIZE * (b.offset / SIZE);
  }
}
