/**
 The asynchronous copy program itself: the io_uring loop over arrays that it updates
 in place, proved against the transition system in FileCopy.
 */
module AsyncCopy {
  import opened Seqs
  import opened FileCopy
  import opened FileCopyRuns
  import opened FileCopyTheorems
  import opened FileCopyLedger

  class Copier {
    const src: Bytes
    const capacity: nat              // entries of the submission queue
    const inUse: array<bool>         // buffer_in_use
    const info: array<Info>
    const buffers: array<Bytes>
    var readOffset: nat
    var bytesWritten: nat
    var active: int
    var pending: seq<Request>        // entries taken from the queue, not yet submitted
    var outstanding: seq<Request>    // submitted, not yet completed
    var dest: Bytes

    ghost function Abs(): State
      reads this, inUse, info, buffers
    {
      State(inUse[..], info[..], buffers[..], readOffset, bytesWritten, active, outstanding + pending, dest)
    }

    ghost predicate Valid()
      reads this, inUse, info, buffers
    {
      inUse.Length <= capacity && Inv(src, Abs())
    }

    constructor (src: Bytes, entries: nat, capacity: nat, junk: seq<Info>, garbage: seq<Bytes>)
      requires 1 <= entries <= capacity && |junk| == |garbage| == entries
      requires forall i :: 0 <= i < entries ==> |garbage[i]| == SIZE
      ensures fresh(inUse) && fresh(info) && fresh(buffers)
      ensures this.src == src && Valid() && Abs() == StartState(src, junk, garbage) && pending == []
    {
      this.src := src;
      this.capacity := capacity;
      inUse := new bool[entries](_ => false);
      info := new Info[entries](i requires 0 <= i < entries => junk[i]);
      buffers := new Bytes[entries](i requires 0 <= i < entries => garbage[i]);
      readOffset, bytesWritten, active := 0, 0, 0;
      pending, outstanding, dest := [], [], [];
      new;
      assert inUse[..] == seq(entries, _ => false) && info[..] == junk && buffers[..] == garbage;
      assert outstanding + pending == [];
      assert Abs() == StartState(src, junk, garbage);
    }

    /** io_uring_submit: everything taken from the queue becomes outstanding. */
    method Submit()
      modifies this`pending, this`outstanding
      ensures pending == [] && outstanding == old(outstanding + pending)
    {
      outstanding, pending := outstanding + pending, [];
    }

    /** Prepares a read of the next stretch into buffer i; the caller has a submission entry. */
    method PrepareRead(i: nat)
      requires Valid() && i < inUse.Length && !inUse[i] && readOffset < |src| && |pending| < capacity
      modifies this`readOffset, this`active, this`pending, inUse, info
      ensures Valid() && |pending| == old(|pending|) + 1
      ensures Abs() == FillSlot(src, old(Abs()), i)
    {
      ghost var s := Abs();
      var bytesToRead := SIZE;
      if readOffset + SIZE > |src| {
        bytesToRead := |src| - readOffset;
      }
      pending := pending + [Request(Read, i, bytesToRead, readOffset, i)];
      assert outstanding + pending == s.ring + [Request(Read, i, bytesToRead, s.readOffset, i)];
      info[i] := Info(Read, i, readOffset);
      assert info[..] == s.info[i := Info(Read, i, s.readOffset)];
      readOffset := readOffset + bytesToRead;
      inUse[i] := true;
      assert inUse[..] == s.inUse[i := true];
      active := active + 1;
      assert Abs() == FillSlot(src, s, i);
      FillSlotInv(src, s, i);
    }

    /** The for loop that hands a read to every free slot, and the submit after it. */
    method FillPool()
      requires Valid() && pending == []
      modifies this`readOffset, this`active, this`pending, this`outstanding, inUse, info
      ensures Valid() && pending == [] && Abs() == Fill(src, old(Abs()))
    {
      ghost var s0 := Abs();
      var i, submitThisRound := 0, 0;
      while i < inUse.Length && readOffset < |src|
        invariant 0 <= i <= inUse.Length
        invariant |pending| == submitThisRound <= i
        invariant Valid()
        invariant FillFrom(src, Abs(), i) == Fill(src, s0)
        invariant outstanding == old(outstanding)
        decreases inUse.Length - i
      {
        if !inUse[i] {
          if |pending| == capacity { break; }     // no submission entry left
          PrepareRead(i);
          submitThisRound := submitThisRound + 1;
        }
        i := i + 1;
      }
      if i < inUse.Length {
        FillFromEnd(src, Abs(), i);
      }
      if submitThisRound > 0 {
        assert outstanding + pending + [] == outstanding + pending;
        Submit();
      }
    }

    /** The kernel ends request number k with res: it fills the buffer or writes the file. */
    method KernelCompletes(k: nat, res: int) returns (slot: nat)
      requires Valid() && pending == [] && MayComplete(Abs(), k, res)
      modifies this`outstanding, this`dest, buffers
      ensures slot == old(Abs()).ring[k].slot && pending == []
      ensures Abs() == KernelEffect(src, old(Abs()).(ring := Remove(old(Abs()).ring, k)), old(Abs()).ring[k], res)
    {
      ghost var s := Abs();
      assert outstanding + pending == outstanding;
      var r := outstanding[k];
      assert s.ring[k] == r && ReqOk(src, s, r);
      slot := r.slot;
      outstanding := Remove(outstanding, k);
      if res > 0 {
        if r.op.Read? {
          buffers[r.buf] := src[r.offset..r.offset + res] + buffers[r.buf][res..];
          assert buffers[..] == s.bufs[r.buf := src[r.offset..r.offset + res] + s.bufs[r.buf][res..]];
        } else {
          dest := Pwrite(dest, r.offset, buffers[r.buf][..res]);
        }
      }
      assert outstanding + pending == outstanding;
    }

    /** The loop body's reaction to the completion of the request whose record is info[slot]. */
    method HandleCompletion(slot: nat, res: int)
      requires slot < info.Length && info[slot].bufIdx < inUse.Length && pending == [] && capacity >= 1
      modifies this`active, this`bytesWritten, this`pending, this`outstanding, inUse, info
      ensures pending == [] && Abs() == Handle(old(Abs()), slot, res)
    {
      ghost var s := Abs();
      var req := info[slot];
      if req.op.Read? {
        if res > 0 {
          if |pending| < capacity {
            pending := pending + [Request(Write, req.bufIdx, res, req.offset, slot)];
            info[slot] := req.(op := Write);
            Submit();
          }
          assert info[..] == s.info[slot := req.(op := Write)];
        } else {
          inUse[req.bufIdx] := false;
          active := active - 1;
        }
      } else {
        if res > 0 {
          bytesWritten := bytesWritten + res;
        }
        inUse[req.bufIdx] := false;
        active := active - 1;
      }
      assert outstanding + pending == outstanding;
    }

    /** One trip round the copy loop. */
    method Trip(e: Event)
      requires Valid() && pending == [] && May(src, Abs(), e)
      modifies this, inUse, info, buffers
      ensures Valid() && pending == [] && Abs() == Step(src, old(Abs()), e)
    {
      FillPool();
      ghost var f := Abs();
      if active > 0 {
        CompleteInv(src, f, e.pick, e.res);
        var slot := KernelCompletes(e.pick, e.res);
        HandleCompletion(slot, e.res);
      }
    }

    /** The copy loop, for as long as the given schedule lasts. */
    method CopyLoop(sched: seq<Event>) returns (exited: bool)
      requires Valid() && pending == [] && Legal(src, Abs(), sched)
      modifies this, inUse, info, buffers
      ensures Valid() && Abs() == Run(src, old(Abs()), sched)
      ensures exited == !Running(src, Abs())
    {
      var n := 0;
      assert sched[0..] == sched;
      while n < |sched| && (bytesWritten < |src| || active > 0)
        invariant n <= |sched| && Valid() && pending == []
        invariant Legal(src, Abs(), sched[n..])
        invariant Run(src, Abs(), sched[n..]) == Run(src, old(Abs()), sched)
      {
        assert sched[n..][0] == sched[n] && sched[n..][1..] == sched[n + 1..];
        Trip(sched[n]);
        n := n + 1;
      }
      exited := !(bytesWritten < |src| || active > 0);
    }
  }

  /** The whole asynchronous copy of src, with the given pool size, against any kernel schedule
      that is legal for it: it ends exactly when there were two full transfers per chunk,
      and then the destination is the source. However it goes on, the destination holds what the
      writes landed in each chunk, and bytes_written is their sum. */
  method AsyncIo(src: Bytes, entries: nat, capacity: nat, junk: seq<Info>, garbage: seq<Bytes>, sched: seq<Event>)
    returns (exited: bool, dest: Bytes, written: nat)
    requires 1 <= entries <= capacity && |junk| == |garbage| == entries
    requires forall i :: 0 <= i < entries ==> |garbage[i]| == SIZE
    requires Legal(src, StartState(src, junk, garbage), sched)
    ensures exited <==> AllFull(src, StartState(src, junk, garbage), sched) && |sched| == 2 * Chunks(|src|)
    ensures exited ==> dest == src
    ensures var landed := Ledger(src, StartState(src, junk, garbage), sched, NothingLanded(src));
            Holds(src, dest, landed) && written == Total(Amount, landed)
  {
    ghost var s := StartState(src, junk, garbage);
    var c := new Copier(src, entries, capacity, junk, garbage);
    exited := c.CopyLoop(sched);
    dest, written := c.dest, c.bytesWritten;
    RunLands(src, s, sched);
    InitStarted(src, s);
    ExitIff(src, s, sched);
    if exited {
      ExitedCopyIsExact(src, s, sched);
    }
  }
}
