/**
 Every copy chunk by chunk, losses included: which stretches of the source are handed
 out, and how much of each has reached the destination.
 */
module FileCopyLedger {
  import opened Seqs
  import opened FileCopy
  import opened FileCopyRuns

  // ---------------------------------------------------------------- what is handed out

  /** Reads of adjacent stretches, one after the other, from position from up to position to. */
  ghost predicate Tiles(rs: seq<Request>, from: nat, to: nat)
    decreases |rs|
  {
    if rs == [] then from == to
    else rs[0].op.Read? && rs[0].offset == from && 0 < rs[0].len <= SIZE && Tiles(rs[1..], from + rs[0].len, to)
  }

  lemma {:induction false} TilesConcat(a: seq<Request>, b: seq<Request>, from: nat, mid: nat, to: nat)
    requires Tiles(a, from, mid) && Tiles(b, mid, to)
    ensures Tiles(a + b, from, to)
    decreases |a|
  {
    if a == [] {
      assert a + b == b;
    } else {
      assert (a + b)[1..] == a[1..] + b;
      TilesConcat(a[1..], b, from + a[0].len, mid, to);
    }
  }

  /** Every position is in exactly one of the stretches. */
  lemma {:induction false} TilesCoverOnce(rs: seq<Request>, from: nat, to: nat, p: nat)
    requires Tiles(rs, from, to)
    ensures from <= to
    ensures from <= p < to <==> Covered(rs, p)
    ensures forall j, k :: 0 <= j < k < |rs| ==> rs[j].offset + rs[j].len <= rs[k].offset < to
    decreases |rs|
  {
    if rs != [] {
      var rest, mid := rs[1..], from + rs[0].len;
      TilesCoverOnce(rest, mid, to, p);
      TilesFrom(rest, mid, to);
      CoveredFirst(rs, p);
      forall j, k | 0 <= j < k < |rs| ensures rs[j].offset + rs[j].len <= rs[k].offset < to {
        assert rs[k] == rest[k - 1];
        if j > 0 {
          assert rs[j] == rest[j - 1];
        }
      }
    }
  }

  lemma {:induction false} TilesFrom(rs: seq<Request>, from: nat, to: nat)
    requires Tiles(rs, from, to)
    ensures from <= to
    ensures forall k :: 0 <= k < |rs| ==> from <= rs[k].offset < to
    decreases |rs|
  {
    if rs != [] {
      TilesFrom(rs[1..], from + rs[0].len, to);
      assert forall k :: 1 <= k < |rs| ==> rs[k] == rs[1..][k - 1];
    }
  }

  lemma CoveredFirst(rs: seq<Request>, p: nat)
    requires rs != []
    ensures Covered(rs, p) <==> rs[0].offset <= p < rs[0].offset + rs[0].len || Covered(rs[1..], p)
  {
    var rest := rs[1..];
    if Covered(rest, p) {
      var k :| 0 <= k < |rest| && rest[k].offset <= p < rest[k].offset + rest[k].len;
      assert rs[k + 1] == rest[k];
    }
    if Covered(rs, p) {
      var k :| 0 <= k < |rs| && rs[k].offset <= p < rs[k].offset + rs[k].len;
      assert k > 0 ==> rest[k - 1] == rs[k];
    }
  }

  /** all is ring with reads of the stretches from from to to appended. */
  ghost predicate Extends(ring: seq<Request>, all: seq<Request>, from: nat, to: nat) {
    |ring| <= |all| && all[..|ring|] == ring && Tiles(all[|ring|..], from, to)
  }

  /** A pass only appends to the ring, and what it appends continues where the last pass stopped. */
  lemma {:induction false} FillFromTiles(src: Bytes, s: State, i: nat)
    requires Inv(src, s) && i <= |s.inUse|
    ensures Extends(s.ring, FillFrom(src, s, i).ring, s.readOffset, FillFrom(src, s, i).readOffset)
    decreases |s.inUse| - i
  {
    if i < |s.inUse| {
      var u := FillSlot(src, s, i);
      FillSlotInv(src, s, i);
      FillFromTiles(src, u, i + 1);
      FillSlotTiles(src, s, i, FillFrom(src, u, i + 1).ring, FillFrom(src, u, i + 1).readOffset);
    }
  }

  lemma FillSlotTiles(src: Bytes, s: State, i: nat, all: seq<Request>, to: nat)
    requires Inv(src, s) && i < |s.inUse|
    requires Extends(FillSlot(src, s, i).ring, all, FillSlot(src, s, i).readOffset, to)
    ensures Extends(s.ring, all, s.readOffset, to)
  {
    if !s.inUse[i] && s.readOffset < |src| {
      FirstTile(s.ring, FillSlot(src, s, i).ring[|s.ring|], all, s.readOffset, to);
    }
  }

  lemma FirstTile(ring: seq<Request>, r: Request, all: seq<Request>, from: nat, to: nat)
    requires Extends(ring + [r], all, from + r.len, to)
    requires r.op.Read? && r.offset == from && 0 < r.len <= SIZE
    ensures Extends(ring, all, from, to)
  {
    assert all[..|ring|] == all[..|ring| + 1][..|ring|] == ring;
    assert all[|ring|..][0] == all[..|ring| + 1][|ring|] == r;
    assert all[|ring|..][1..] == all[|ring| + 1..];
  }

  /** All reads handed out in a run, in order. */
  ghost function Issued(src: Bytes, s: State, sched: seq<Event>): seq<Request>
    requires Inv(src, s) && Legal(src, s, sched)
    decreases |sched|
  {
    if sched == [] then []
    else
      FillFromTiles(src, s, 0);
      Fill(src, s).ring[|s.ring|..] + Issued(src, Step(src, s, sched[0]), sched[1..])
  }

  /** The stretches handed out in a run tile the source from the first position to the last, without
      overlap, whatever the results were. */
  lemma {:induction false} IssuedTile(src: Bytes, s: State, sched: seq<Event>)
    requires Inv(src, s) && Legal(src, s, sched)
    ensures Tiles(Issued(src, s, sched), s.readOffset, Run(src, s, sched).readOffset)
    decreases |sched|
  {
    if sched != [] {
      var f, t := Fill(src, s), Step(src, s, sched[0]);
      FillFromTiles(src, s, 0);
      IssuedTile(src, t, sched[1..]);
      assert t.readOffset == f.readOffset;
      var last := Run(src, s, sched).readOffset;
      TilesConcat(f.ring[|s.ring|..], Issued(src, t, sched[1..]), s.readOffset, f.readOffset, last);
    }
  }

  // ---------------------------------------------------------------- what has landed

  ghost function Amount(n: nat): nat { n }

  /** The destination holds the first landed[c] bytes of every chunk c, zeros in between, and ends with
      the last byte landed. */
  ghost predicate Holds(src: Bytes, dest: Bytes, landed: seq<nat>) {
    && |landed| == Chunks(|src|) && |dest| <= |src|
    && (forall c {:trigger landed[c]} :: 0 <= c < |landed| ==>
          landed[c] <= SIZE && (landed[c] > 0 ==> SIZE * c + landed[c] <= |dest|))
    && (forall p {:trigger dest[p]} :: 0 <= p < |dest| ==>
          dest[p] == if p % SIZE < landed[p / SIZE] then src[p] else 0)
    && (|dest| > 0 ==> (|dest| - 1) % SIZE < landed[(|dest| - 1) / SIZE])
  }

  /** The landed lengths determine the destination. */
  lemma HeldOnce(src: Bytes, dest: Bytes, other: Bytes, landed: seq<nat>)
    requires Holds(src, dest, landed) && Holds(src, other, landed)
    ensures dest == other
  {
    HeldLength(src, dest, other, landed);
    HeldLength(src, other, dest, landed);
  }

  lemma HeldLength(src: Bytes, dest: Bytes, other: Bytes, landed: seq<nat>)
    requires Holds(src, dest, landed) && Holds(src, other, landed)
    ensures |dest| <= |other|
  {
    if |dest| > 0 {
      var c := (|dest| - 1) / SIZE;
      assert landed[c] > 0 && SIZE * c + landed[c] <= |other|;
    }
  }

  /** Writing the front of a chunk of which nothing had landed. */
  lemma PwriteLands(src: Bytes, dest: Bytes, landed: seq<nat>, c: nat, res: nat)
    requires Holds(src, dest, landed) && c < |landed| && landed[c] == 0
    requires 0 < res <= SIZE && SIZE * c + res <= |src|
    ensures Holds(src, Pwrite(dest, SIZE * c, src[SIZE * c..SIZE * c + res]), landed[c := res])
  {
    var d, m := Pwrite(dest, SIZE * c, src[SIZE * c..SIZE * c + res]), landed[c := res];
    forall p | 0 <= p < |d| ensures d[p] == if p % SIZE < m[p / SIZE] then src[p] else 0 {
      PwriteLandsAt(src, dest, landed, c, res, p);
    }
    if |d| == |dest| {
      assert landed[(|dest| - 1) / SIZE] > 0;
    } else {
      InChunk(c, res - 1);
    }
  }

  lemma InChunk(c: nat, i: nat)
    requires i < SIZE
    ensures (SIZE * c + i) / SIZE == c && (SIZE * c + i) % SIZE == i
  {
  }

  lemma PwriteLandsAt(src: Bytes, dest: Bytes, landed: seq<nat>, c: nat, res: nat, p: nat)
    requires Holds(src, dest, landed) && c < |landed| && landed[c] == 0
    requires 0 < res <= SIZE && SIZE * c + res <= |src|
    requires p < |Pwrite(dest, SIZE * c, src[SIZE * c..SIZE * c + res])|
    ensures p < |src|
    ensures Pwrite(dest, SIZE * c, src[SIZE * c..SIZE * c + res])[p] ==
            if p % SIZE < landed[c := res][p / SIZE] then src[p] else 0
  {
    var q := p / SIZE;
    assert p == SIZE * q + p % SIZE;
    if q != c && p >= |dest| {
      assert landed[q] > 0 ==> SIZE * q + landed[q] <= |dest|;
    }
  }

  /** The ledger agrees with the state: nothing has landed of a chunk that is not handed out yet or still
      in flight, and bytes_written is the sum. */
  ghost predicate Accounts(src: Bytes, s: State, landed: seq<nat>) {
    && Holds(src, s.dest, landed) && Total(Amount, landed) == s.bytesWritten
    && (forall c {:trigger landed[c]} :: Chunks(s.readOffset) <= c < |landed| ==> landed[c] == 0)
    && (forall k {:trigger s.ring[k]} :: 0 <= k < |s.ring| ==>
          s.ring[k].offset / SIZE < |landed| && landed[s.ring[k].offset / SIZE] == 0)
  }

  /** A completed write lands its result in its chunk. */
  ghost function Land(landed: seq<nat>, r: Request, res: int): seq<nat> {
    if r.op.Write? && res > 0 && r.offset / SIZE < |landed| then landed[r.offset / SIZE := res] else landed
  }

  lemma FillSlotAccounts(src: Bytes, s: State, i: nat, landed: seq<nat>)
    requires Inv(src, s) && i < |s.inUse| && Accounts(src, s, landed)
    ensures Accounts(src, FillSlot(src, s, i), landed)
  {
    if !s.inUse[i] && s.readOffset < |src| {
      OneMoreChunk(s.readOffset, |src|);
      assert Chunks(s.readOffset) == s.readOffset / SIZE;
    }
  }

  lemma {:induction false} FillFromAccounts(src: Bytes, s: State, i: nat, landed: seq<nat>)
    requires Inv(src, s) && i <= |s.inUse| && Accounts(src, s, landed)
    ensures Accounts(src, FillFrom(src, s, i), landed)
    decreases |s.inUse| - i
  {
    if i < |s.inUse| {
      FillSlotInv(src, s, i);
      FillSlotAccounts(src, s, i, landed);
      FillFromAccounts(src, FillSlot(src, s, i), i + 1, landed);
    }
  }

  lemma TotalLanded(landed: seq<nat>, c: nat, n: nat)
    requires c < |landed|
    ensures Total(Amount, landed[c := n]) == Total(Amount, landed) - landed[c] + n
  {
    assert Remove(landed[c := n], c) == Remove(landed, c);
    TotalRemove(Amount, landed, c);
    TotalRemove(Amount, landed[c := n], c);
  }

  lemma WriteAccounts(src: Bytes, s: State, k: nat, res: int, landed: seq<nat>)
    requires Inv(src, s) && MayComplete(s, k, res) && s.ring[k].op.Write? && res > 0 && Accounts(src, s, landed)
    ensures Accounts(src, Complete(src, s, k, res), Land(landed, s.ring[k], res))
  {
    var t, c := Complete(src, s, k, res), s.ring[k].offset / SIZE;
    WriteHolds(src, s, k, res, landed);
    TotalLanded(landed, c, res);
    RestNotLanded(src, s, k, landed, res);
    assert t.ring == Remove(s.ring, k) && t.readOffset == s.readOffset && t.bytesWritten == s.bytesWritten + res;
  }

  lemma WriteHolds(src: Bytes, s: State, k: nat, res: int, landed: seq<nat>)
    requires Inv(src, s) && MayComplete(s, k, res) && s.ring[k].op.Write? && res > 0 && Accounts(src, s, landed)
    ensures Land(landed, s.ring[k], res) == landed[s.ring[k].offset / SIZE := res]
    ensures s.ring[k].offset / SIZE < Chunks(s.readOffset)
    ensures Holds(src, Complete(src, s, k, res).dest, landed[s.ring[k].offset / SIZE := res])
  {
    ChunkStart(src, s, k);
    WriteDoneDest(src, s, k, res);
    PwriteLands(src, s.dest, landed, s.ring[k].offset / SIZE, res);
  }

  lemma ChunkStart(src: Bytes, s: State, k: nat)
    requires Inv(src, s) && k < |s.ring|
    ensures s.ring[k].offset == SIZE * (s.ring[k].offset / SIZE) && s.ring[k].offset / SIZE < Chunks(s.readOffset)
  {
    assert ReqOk(src, s, s.ring[k]);
  }

  lemma RestNotLanded(src: Bytes, s: State, k: nat, landed: seq<nat>, res: nat)
    requires Inv(src, s) && k < |s.ring| && Accounts(src, s, landed)
    ensures var rest, c := Remove(s.ring, k), s.ring[k].offset / SIZE;
            forall j {:trigger rest[j]} :: 0 <= j < |rest| ==>
              rest[j].offset / SIZE < |landed| && landed[c := res][rest[j].offset / SIZE] == 0
  {
    var rest := Remove(s.ring, k);
    OthersKeepSlot(src, s, k);
    assert ReqOk(src, s, s.ring[k]);
    forall j | 0 <= j < |rest| ensures rest[j].offset / SIZE != s.ring[k].offset / SIZE {
      assert ReqOk(src, s, rest[j]);
      assert rest[j].offset == SIZE * (rest[j].offset / SIZE) && s.ring[k].offset == SIZE * (s.ring[k].offset / SIZE);
    }
  }

  lemma CompleteAccounts(src: Bytes, s: State, k: nat, res: int, landed: seq<nat>)
    requires Inv(src, s) && MayComplete(s, k, res) && Accounts(src, s, landed)
    ensures Accounts(src, Complete(src, s, k, res), Land(landed, s.ring[k], res))
  {
    if s.ring[k].op.Write? && res > 0 {
      WriteAccounts(src, s, k, res, landed);
    } else {
      var t, rest := Complete(src, s, k, res), Remove(s.ring, k);
      assert forall j :: 0 <= j < |rest| ==> t.ring[j] == rest[j];
    }
  }

  /** The ledger after a run: what each write landed in its chunk. */
  ghost function Ledger(src: Bytes, s: State, sched: seq<Event>, landed: seq<nat>): seq<nat>
    requires Inv(src, s) && Legal(src, s, sched)
    decreases |sched|
  {
    if sched == [] then landed
    else
      var e := sched[0];
      Ledger(src, Step(src, s, e), sched[1..],
             if e.Completed? then Land(landed, Fill(src, s).ring[e.pick], e.res) else landed)
  }

  lemma {:induction false} RunAccounts(src: Bytes, s: State, sched: seq<Event>, landed: seq<nat>)
    requires Inv(src, s) && Legal(src, s, sched) && Accounts(src, s, landed)
    ensures Accounts(src, Run(src, s, sched), Ledger(src, s, sched, landed))
    decreases |sched|
  {
    if sched != [] {
      var e, f := sched[0], Fill(src, s);
      FillFromAccounts(src, s, 0, landed);
      if e.Completed? {
        CompleteAccounts(src, f, e.pick, e.res, landed);
        RunAccounts(src, Step(src, s, e), sched[1..], Land(landed, f.ring[e.pick], e.res));
      } else {
        RunAccounts(src, Step(src, s, e), sched[1..], landed);
      }
    }
  }

  ghost function NothingLanded(src: Bytes): seq<nat> { seq(Chunks(|src|), _ => 0) }

  lemma {:induction false} TotalZero(landed: seq<nat>)
    requires forall c :: 0 <= c < |landed| ==> landed[c] == 0
    ensures Total(Amount, landed) == 0
  {
    if landed != [] {
      TotalZero(landed[..|landed| - 1]);
    }
  }

  /** What any run leaves in the destination, losses included, byte for byte. */
  lemma RunLands(src: Bytes, s: State, sched: seq<Event>)
    requires Init(src, s) && Inv(src, s) && Legal(src, s, sched)
    ensures var landed := Ledger(src, s, sched, NothingLanded(src));
            Holds(src, Run(src, s, sched).dest, landed) && Total(Amount, landed) == Run(src, s, sched).bytesWritten
  {
    TotalZero(NothingLanded(src));
    RunAccounts(src, s, sched, NothingLanded(src));
  }
}
