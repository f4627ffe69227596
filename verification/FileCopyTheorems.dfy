/** What the copy loop achieves, for every schedule the kernel can play. */
module FileCopyTheorems {
  import opened Seqs
  import opened FileCopy
  import opened FileCopyRuns

  /** Bytes handed out that are neither written nor in flight. */
  ghost function Missing(s: State): int {
    s.readOffset - s.bytesWritten - InFlight(s)
  }

  ghost predicate Started(src: Bytes, s: State) {
    Inv(src, s) && |s.inUse| >= 1
  }

  lemma InitStarted(src: Bytes, s: State)
    requires Init(src, s)
    ensures Started(src, s) && Missing(s) == 0 && NothingLost(src, s)
    ensures Work(src, s) == 2 * Chunks(|src|)
  {
    InitInv(src, s);
  }

  /** Conservation: what is missing at the end is exactly what the events lost. */
  lemma {:induction false} RunConserves(src: Bytes, s: State, sched: seq<Event>)
    requires Started(src, s) && Legal(src, s, sched)
    ensures Missing(Run(src, s, sched)) == Missing(s) + Lost(src, s, sched)
    decreases |sched|
  {
    if sched != [] {
      StepKeeps(src, s, sched[0]);
      RunConserves(src, Step(src, s, sched[0]), sched[1..]);
    }
  }

  /** Without losses every event does one unit of work and no byte goes astray. */
  lemma {:induction false} FullRunWorks(src: Bytes, s: State, sched: seq<Event>)
    requires Started(src, s) && Legal(src, s, sched) && AllFull(src, s, sched)
    ensures Work(src, Run(src, s, sched)) == Work(src, s) - |sched|
    ensures NothingLost(src, s) ==> NothingLost(src, Run(src, s, sched))
    decreases |sched|
  {
    if sched != [] {
      StepKeeps(src, s, sched[0]);
      FullRunWorks(src, Step(src, s, sched[0]), sched[1..]);
    }
  }

  ghost function Completions(sched: seq<Event>): nat {
    if sched == [] then 0 else (if sched[0].Completed? then 1 else 0) + Completions(sched[1..])
  }

  lemma {:induction false} WorkNonNegative(src: Bytes, s: State)
    requires Inv(src, s)
    ensures Work(src, s) >= Total(Weight, s.ring) >= |s.ring|
  {
    assert Chunks(|src|) >= Chunks(s.readOffset);
    WeightAtLeastOne(s.ring);
  }

  lemma {:induction false} WeightAtLeastOne(ring: seq<Request>)
    ensures Total(Weight, ring) >= |ring|
  {
    if ring != [] {
      WeightAtLeastOne(ring[..|ring| - 1]);
    }
  }

  /** Full or not, a run sees at most two completions per chunk: then only idle trips remain. */
  lemma {:induction false} CompletionsBounded(src: Bytes, s: State, sched: seq<Event>)
    requires Started(src, s) && Legal(src, s, sched)
    ensures Completions(sched) <= Work(src, s)
    decreases |sched|
  {
    if sched == [] {
      WorkNonNegative(src, s);
    } else {
      StepKeeps(src, s, sched[0]);
      FillUsesPool(src, s);
      CompletionsBounded(src, Step(src, s, sched[0]), sched[1..]);
    }
  }

  /** With nothing outstanding and the loop still running, a trip changes nothing:
      the loop spins for ever on the state it has. */
  lemma IdleMeansStuck(src: Bytes, s: State)
    requires Started(src, s) && Running(src, s) && May(src, s, Idle)
    ensures Step(src, s, Idle) == s && s.ring == [] && s.readOffset == |src|
    ensures Missing(s) > 0
    ensures forall k, res :: !May(src, s, Completed(k, res))
  {
    FillUsesPool(src, s);
    var f := Fill(src, s);
    assert f.ring == [] && f.readOffset == |src| && s.ring == [];
    if s.readOffset < |src| {
      FillIssues(src, s);
    }
    FillFromEnd(src, s, 0);
  }

  /** A pass over an idle pool with source left puts at least one request in flight. */
  lemma FillIssues(src: Bytes, s: State)
    requires Started(src, s) && s.ring == [] && s.readOffset < |src|
    ensures Fill(src, s).active > 0
  {
    CountAllOrSome(s.inUse);
    var t := FillSlot(src, s, 0);
    FillSlotInv(src, s, 0);
    FillFromKeeps(src, t, 1);
    assert Fill(src, s) == FillFrom(src, t, 1);
  }

  /** The loop never blocks for ever: while it runs, a completion can arrive or the trip is idle. */
  lemma Progress(src: Bytes, s: State)
    requires Started(src, s) && Running(src, s)
    ensures May(src, s, Idle) <==> Fill(src, s).ring == []
    ensures !May(src, s, Idle) ==> May(src, s, Completed(0, Fill(src, s).ring[0].len))
    ensures Missing(s) == 0 ==> !May(src, s, Idle)
  {
    if May(src, s, Idle) {
      IdleMeansStuck(src, s);
    }
  }

  /** A run that lost no byte was full throughout. */
  lemma {:induction false} LosslessIsFull(src: Bytes, s: State, sched: seq<Event>)
    requires Started(src, s) && Legal(src, s, sched)
    requires Missing(s) == 0 && Lost(src, s, sched) == 0
    ensures AllFull(src, s, sched)
    decreases |sched|
  {
    if sched != [] {
      Progress(src, s);
      StepKeeps(src, s, sched[0]);
      LosslessIsFull(src, Step(src, s, sched[0]), sched[1..]);
    }
  }

  lemma NoWorkMeansAllHandedOut(src: Bytes, s: State)
    requires Inv(src, s) && Work(src, s) == 0
    ensures s.ring == [] && s.readOffset == |src|
  {
    WorkNonNegative(src, s);
  }

  lemma NothingOutstanding(src: Bytes, s: State)
    requires Inv(src, s) && s.ring == [] && s.readOffset == |src|
    ensures Work(src, s) == 0
    ensures NothingLost(src, s) ==> s.dest == src
  {
    if NothingLost(src, s) {
      forall p | 0 <= p < |src| ensures Landed(src, s, p) {
        assert !Covered(s.ring, p);
      }
      if src != [] {
        assert Landed(src, s, |src| - 1);
      }
      assert forall p {:trigger src[p]} :: 0 <= p < |src| ==> Landed(src, s, p);
    }
  }

  /** The copy loop leaves through its own condition exactly when every transfer was full
      and there were two per chunk. */
  lemma ExitIff(src: Bytes, s: State, sched: seq<Event>)
    requires Init(src, s) && Started(src, s) && Legal(src, s, sched)
    ensures !Running(src, Run(src, s, sched)) <==>
            AllFull(src, s, sched) && |sched| == 2 * Chunks(|src|)
  {
    var t := Run(src, s, sched);
    InitStarted(src, s);
    RunConserves(src, s, sched);
    if !Running(src, t) {
      LosslessIsFull(src, s, sched);
      FullRunWorks(src, s, sched);
      NothingOutstanding(src, t);
    }
    if AllFull(src, s, sched) && |sched| == 2 * Chunks(|src|) {
      FullRunWorks(src, s, sched);
      NoWorkMeansAllHandedOut(src, t);
      FullLosesNothing(src, s, sched);
    }
  }

  lemma {:induction false} FullLosesNothing(src: Bytes, s: State, sched: seq<Event>)
    requires Inv(src, s) && Legal(src, s, sched) && AllFull(src, s, sched)
    ensures Lost(src, s, sched) == 0
    decreases |sched|
  {
    if sched != [] {
      FullLosesNothing(src, Step(src, s, sched[0]), sched[1..]);
    }
  }

  /** Safety: a copy that ends is byte for byte the source. */
  lemma ExitedCopyIsExact(src: Bytes, s: State, sched: seq<Event>)
    requires Init(src, s) && Started(src, s) && Legal(src, s, sched)
    requires !Running(src, Run(src, s, sched))
    ensures Run(src, s, sched).dest == src
  {
    ExitIff(src, s, sched);
    InitStarted(src, s);
    FullRunWorks(src, s, sched);
    RunConserves(src, s, sched);
    NothingOutstanding(src, Run(src, s, sched));
  }

  /** The other half: one short or failed transfer and the loop never ends, whatever follows. */
  lemma LossyCopyNeverEnds(src: Bytes, s: State, sched: seq<Event>)
    requires Init(src, s) && Started(src, s) && Legal(src, s, sched)
    requires Lost(src, s, sched) > 0
    ensures Running(src, Run(src, s, sched))
  {
    InitStarted(src, s);
    RunConserves(src, s, sched);
  }

  // ---------------------------------------------------------------- runs that never end

  /** The loop runs on with nothing outstanding. */
  ghost predicate Stuck(src: Bytes, s: State)
    requires Inv(src, s)
  {
    Running(src, s) && May(src, s, Idle)
  }

  /** From a stuck state every trip, and there can be any number of them, leaves the state as it is. */
  lemma {:induction false} StuckForever(src: Bytes, s: State, sched: seq<Event>)
    requires Started(src, s) && Stuck(src, s)
    ensures Legal(src, s, sched) <==> forall e :: e in sched ==> e == Idle
    ensures Legal(src, s, sched) ==> Run(src, s, sched) == s
    decreases |sched|
  {
    if sched != [] {
      var e, rest := sched[0], sched[1..];
      IdleMeansStuck(src, s);
      StuckForever(src, s, rest);
      assert e in sched && forall x :: x in sched <==> x == e || x in rest;
      match e
      case Completed(k, res) => assert !May(src, s, Completed(k, res));
      case Idle => assert Legal(src, s, sched) <==> Legal(src, s, rest);
    }
  }

  lemma NoWorkMeansIdle(src: Bytes, s: State)
    requires Inv(src, s) && Work(src, s) == 0
    ensures May(src, s, Idle)
  {
    NoWorkMeansAllHandedOut(src, s);
    FillFromEnd(src, s, 0);
  }

  /** After a loss, whatever the kernel does, the loop is stuck for ever once as many trips are made as
      there was work left. */
  lemma {:induction false} LossEndsStuck(src: Bytes, s: State, sched: seq<Event>)
    requires Started(src, s) && Missing(s) > 0 && Legal(src, s, sched) && |sched| >= Work(src, s)
    ensures Stuck(src, Run(src, s, sched))
    decreases |sched|
  {
    WorkNonNegative(src, s);
    if Work(src, s) == 0 {
      NoWorkMeansIdle(src, s);
    }
    if May(src, s, Idle) {
      StuckForever(src, s, sched);
    } else {
      StepKeeps(src, s, sched[0]);
      FillUsesPool(src, s);
      LossEndsStuck(src, Step(src, s, sched[0]), sched[1..]);
    }
  }

  /** A kernel that fails every request. */
  lemma {:induction false} FailingRun(src: Bytes, s: State) returns (sched: seq<Event>)
    requires Started(src, s) && s.bytesWritten < |src|
    ensures Legal(src, s, sched) && Stuck(src, Run(src, s, sched))
    decreases Work(src, s)
  {
    sched := [];
    if !May(src, s, Idle) {
      Progress(src, s);
      FillUsesPool(src, s);
      WorkNonNegative(src, s);
      StepKeeps(src, s, Completed(0, -1));
      var rest := FailingRun(src, Step(src, s, Completed(0, -1)));
      sched := [Completed(0, -1)] + rest;
      assert sched[1..] == rest;
    }
  }

  /** The copy of any non-empty file can lose bytes and then spin for ever. */
  lemma SomeRunNeverEnds(src: Bytes, s: State) returns (sched: seq<Event>)
    requires Init(src, s) && Started(src, s) && src != []
    ensures Legal(src, s, sched) && Lost(src, s, sched) > 0 && Stuck(src, Run(src, s, sched))
  {
    InitStarted(src, s);
    sched := FailingRun(src, s);
    RunConserves(src, s, sched);
    IdleMeansStuck(src, Run(src, s, sched));
  }

  /** While nothing has been lost the kernel can still finish the copy with full transfers. */
  lemma {:induction false} CanFinish(src: Bytes, s: State) returns (sched: seq<Event>)
    requires Started(src, s) && Missing(s) == 0
    ensures Legal(src, s, sched) && AllFull(src, s, sched)
    ensures !Running(src, Run(src, s, sched))
    decreases Work(src, s)
  {
    sched := [];
    if Running(src, s) {
      Progress(src, s);
      FillUsesPool(src, s);
      WorkNonNegative(src, s);
      var e := Completed(0, Fill(src, s).ring[0].len);
      StepKeeps(src, s, e);
      var rest := CanFinish(src, Step(src, s, e));
      sched := [e] + rest;
      assert sched[1..] == rest;
    }
  }
}
