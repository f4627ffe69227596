/**
 A run of the threaded server in which a client speaks under another client's number. Every
 accept in it returns the lowest free descriptor.
 */
module WrongNumber {
  import opened Seqs
  import opened ChatRoom
  import opened ChatServer
  import opened Threads
  import opened ThreadsTheorems
  import opened OwnNumber

  const ZERO: Table := seq(MAX_CLIENTS, _ => Slot(0, 0, false))

  const BEGIN := State(ZERO, 0, Os(map[], []), None, Accepting, map[], NO_HISTORY)

  lemma OneMove(s: State, x: Move)
    requires Enabled(s, x) && (x.Accept? ==> LowestFree(s.os, x.fd))
    ensures Reaches(s, [x], Next(s, x))
  {
    assert [x][1..] == [];
  }

  lemma TwoMoves(s: State, x: Move, y: Move)
    requires Enabled(s, x) && (x.Accept? ==> LowestFree(s.os, x.fd)) && Enabled(Next(s, x), y) && !y.Accept?
    ensures Reaches(s, [x, y], Next(Next(s, x), y))
  {
    OneMove(s, x);
    OneMove(Next(s, x), y);
    Chain(s, [x], Next(s, x), [y], Next(Next(s, x), y));
    assert [x, y] == [x] + [y];
  }

  lemma ThreeMoves(s: State, x: Move, y: Move, z: Move)
    requires Enabled(s, x) && (x.Accept? ==> LowestFree(s.os, x.fd))
    requires Enabled(Next(s, x), y) && !y.Accept? && Enabled(Next(Next(s, x), y), z) && !z.Accept?
    ensures Reaches(s, [x, y, z], Next(Next(Next(s, x), y), z))
  {
    var t := Next(Next(s, x), y);
    TwoMoves(s, x, y);
    OneMove(t, z);
    Chain(s, [x, y], t, [z], Next(t, z));
    assert [x, y, z] == [x, y] + [z];
  }

  /** A client arrives on descriptor fd, the lowest that is free. */
  lemma Arrives(s: State, fd: int) returns (ms: seq<Move>, t: State)
    requires s.main == Accepting && s.holder == None && LowestFree(s.os, fd) && |s.os.out| !in s.threads
    requires FirstFree(s.table, 0) < MAX_CLIENTS
    ensures Reaches(s, ms, t)
    ensures var k, c := FirstFree(s.table, 0), |s.os.out|;
            && t.table == s.table[k := Slot(fd, s.total + 1, true)] && t.total == s.total + 1
            && t.threads == s.threads[c := Thread(fd, k, s.total + 1, 0, false, Scan(0, None))]
            && t.os.conn == s.os.conn[fd := c] && t.os.out == s.os.out + [[]]
            && t.main == Accepting && t.holder == None
  {
    ms := [Accept(fd), Admit, Spawn];
    t := Next(Next(Next(s, Accept(fd)), Admit), Spawn);
    ThreeMoves(s, Accept(fd), Admit, Spawn);
  }

  /** A client whose handler has just started searches, fails to receive, and gives up its slot. Its
      descriptor is still open. */
  lemma GivesUpSlot(s: State, c: nat) returns (ms: seq<Move>, t: State)
    requires c in s.threads && s.threads[c].phase == Scan(0, None) && s.holder == None
    ensures Reaches(s, ms, t)
    ensures t.table == Release(s.table, s.threads[c].fd) && t.total == s.total
    ensures t.threads == s.threads[c := ScanAll(s.table, s.threads[c]).(phase := Closing)]
    ensures t.os == s.os && t.main == s.main && t.holder == None
  {
    var search := SearchRuns(s, c);
    var a := RunMoves(s, search);
    ScanAllKeeps(s.table, s.threads[c]);
    t := Next(Next(a, Receive(c, Error)), Clear(c));
    TwoMoves(a, Receive(c, Error), Clear(c));
    ms := search + [Receive(c, Error), Clear(c)];
    Chain(s, search, a, [Receive(c, Error), Clear(c)], t);
  }

  /** The same, and the descriptor is closed too. */
  lemma Departs(s: State, c: nat) returns (ms: seq<Move>, t: State)
    requires c in s.threads && s.threads[c].phase == Scan(0, None) && s.holder == None
    ensures Reaches(s, ms, t)
    ensures t.table == Release(s.table, s.threads[c].fd) && t.total == s.total && t.threads == s.threads - {c}
    ensures t.os == CloseFd(s.os, s.threads[c].fd) && t.main == s.main && t.holder == None
  {
    var m, a := GivesUpSlot(s, c);
    ScanAllKeeps(s.table, s.threads[c]);
    t := Next(a, Close(c));
    assert t.threads == s.threads - {c};
    OneMove(a, Close(c));
    Chain(s, m, a, [Close(c)], t);
    ms := m + [Close(c)];
  }

  lemma {:induction false} NoMoreMatches(t: Table, th: Thread)
    requires th.phase.Scan? && th.phase.found.Some?
    requires forall q :: th.phase.i <= q < MAX_CLIENTS ==> t[q].fd != th.fd
    ensures ScanAll(t, th).id == th.phase.found.value && ScanAll(t, th).misled == th.misled
    decreases MAX_CLIENTS - th.phase.i
  {
    if th.phase.i < MAX_CLIENTS {
      NoMoreMatches(t, ScanOne(t, th));
    }
  }

  // ---------------------------------------------------------------- the run

  lemma FirstArrives() returns (ms: seq<Move>, t: State)
    ensures Start(BEGIN) && Reaches(BEGIN, ms, t)
    ensures t.table == ZERO[0 := Slot(4, 1, true)] && t.total == 1
    ensures t.threads == map[0 := Thread(4, 0, 1, 0, false, Scan(0, None))]
    ensures t.os.conn == map[4 := 0] && |t.os.out| == 1 && t.main == Accepting && t.holder == None
  {
    ms, t := Arrives(BEGIN, 4);
  }

  lemma SecondArrives() returns (ms: seq<Move>, t: State)
    ensures Reaches(BEGIN, ms, t)
    ensures t.table == ZERO[0 := Slot(4, 1, true)][1 := Slot(5, 2, true)] && t.total == 2
    ensures t.threads == map[0 := Thread(4, 0, 1, 0, false, Scan(0, None)),
                             1 := Thread(5, 1, 2, 0, false, Scan(0, None))]
    ensures t.os.conn == map[4 := 0, 5 := 1] && |t.os.out| == 2 && t.main == Accepting && t.holder == None
  {
    var m1, s1 := FirstArrives();
    assert FirstFree(s1.table, 0) == 1;
    var m2, s2 := Arrives(s1, 5);
    Chain(BEGIN, m1, s1, m2, s2);
    ms, t := m1 + m2, s2;
  }

  /** The first client has given up its slot, but not yet its descriptor; the second is gone. */
  lemma BothGo() returns (ms: seq<Move>, t: State)
    ensures Reaches(BEGIN, ms, t)
    ensures t.table == ZERO[0 := Slot(4, 1, false)][1 := Slot(5, 2, false)] && t.total == 2
    ensures t.threads.Keys == {0} && t.threads[0].phase == Closing
    ensures t.os.conn == map[4 := 0] && |t.os.out| == 2 && t.main == Accepting && t.holder == None
  {
    var m1, s1 := SecondArrives();
    var m2, s2 := GivesUpSlot(s1, 0);
    Chain(BEGIN, m1, s1, m2, s2);
    var m3, s3 := Departs(s2, 1);
    Chain(BEGIN, m1 + m2, s2, m3, s3);
    TablesOfRun(s1.table, s2.table, s3.table);
    ms, t := m1 + m2 + m3, s3;
  }

  lemma TablesOfRun(t1: Table, t2: Table, t3: Table)
    requires t1 == ZERO[0 := Slot(4, 1, true)][1 := Slot(5, 2, true)]
    requires t2 == Release(t1, 4) && t3 == Release(t2, 5)
    ensures t3 == ZERO[0 := Slot(4, 1, false)][1 := Slot(5, 2, false)]
  {
    assert Find(t1, 4, 0) == 0;
    assert Find(t2, 5, 0) == 1;
  }

  /** Descriptor 4 is still open, so the third client gets 5; slot 0 is free, so it gets that. */
  lemma ThirdArrives() returns (ms: seq<Move>, t: State)
    ensures Reaches(BEGIN, ms, t)
    ensures t.table == ZERO[0 := Slot(5, 3, true)][1 := Slot(5, 2, false)] && t.total == 3
    ensures t.threads.Keys == {0, 2} && t.threads[2] == Thread(5, 0, 3, 0, false, Scan(0, None))
    ensures t.os.conn == map[4 := 0, 5 := 2] && |t.os.out| == 3 && t.main == Accepting && t.holder == None
  {
    var m1, s1 := BothGo();
    assert !s1.table[0].active;
    var m2, s2 := Arrives(s1, 5);
    Chain(BEGIN, m1, s1, m2, s2);
    ms, t := m1 + m2, s2;
  }

  /** The second client's slot still holds 5, comes after the third client's own, and wins: client 3
      believes that it is client 2. */
  lemma ThirdClientIsMisled() returns (ms: seq<Move>, t: State)
    ensures Start(BEGIN) && Reaches(BEGIN, ms, t)
    ensures t.table == ZERO[0 := Slot(5, 3, true)][1 := Slot(5, 2, false)] && t.total == 3
    ensures t.threads.Keys == {0, 2} && t.threads[2] == Thread(5, 0, 3, 2, true, Receiving)
    ensures t.os.conn == map[4 := 0, 5 := 2] && |t.os.out| == 3 && t.main == Accepting && t.holder == None
  {
    var m1, s1 := ThirdArrives();
    var m2 := SearchRuns(s1, 2);
    LastSearch(s1.table, s1.threads[2]);
    t := RunMoves(s1, m2);
    Chain(BEGIN, m1, s1, m2, t);
    ms := m1 + m2;
  }

  lemma LastSearch(t: Table, th: Thread)
    requires t == ZERO[0 := Slot(5, 3, true)][1 := Slot(5, 2, false)]
    requires th == Thread(5, 0, 3, 0, false, Scan(0, None))
    ensures ScanAll(t, th) == Thread(5, 0, 3, 2, true, Receiving)
  {
    ScanAllKeeps(t, th);
    var a := ScanOne(t, th);
    var b := ScanOne(t, a);
    assert b.phase == Scan(2, Some(2));
    NoMoreMatches(t, b);
    assert ScanAll(t, th) == ScanAll(t, a) == ScanAll(t, b);
  }

  /** A fourth client arrives; the third says something; the fourth is told that client 2 said it. */
  lemma ThirdClientSpeaksAsSecond(data: Bytes) returns (ms: seq<Move>, t: State)
    ensures Start(BEGIN) && Reaches(BEGIN, ms, t)
    ensures 2 in t.threads && t.threads[2].number == 3
    ensures t.h.log != [] && t.h.log[|t.h.log| - 1] == Entry(2, Said(2, CString(data)))
    ensures |t.os.out| == 4 && t.os.out[3] == [Said(2, CString(data))]
  {
    var m1, s1 := ThirdClientIsMisled();
    assert s1.table[0].active && !s1.table[1].active;
    assert FirstFree(s1.table, 0) == 1;
    var m2, s2 := Arrives(s1, 6);
    Chain(BEGIN, m1, s1, m2, s2);
    var m3, s3 := Speaks(s2, data);
    Chain(BEGIN, m1 + m2, s2, m3, s3);
    ms, t := m1 + m2 + m3, s3;
  }

  /** The third client, in slot 0, has locked the mutex and sent to slot 1. */
  lemma Speaks(s: State, data: Bytes) returns (ms: seq<Move>, t: State)
    requires 2 in s.threads && s.threads[2] == Thread(5, 0, 3, 2, true, Receiving) && s.holder == None
    requires s.table[0] == Slot(5, 3, true) && s.table[1] == Slot(6, 4, true)
    requires 6 in s.os.conn && s.os.conn[6] == 3 && |s.os.out| == 4 && s.os.out[3] == []
    ensures Reaches(s, ms, t)
    ensures 2 in t.threads && t.threads[2].number == 3
    ensures t.h.log == s.h.log + [Entry(2, Said(2, CString(data)))]
    ensures |t.os.out| == 4 && t.os.out[3] == [Said(2, CString(data))]
  {
    var a := Next(s, Receive(2, Data(data)));
    var b := Next(a, Lock(2));
    var c := Next(b, SendSlot(2));
    t := Next(c, SendSlot(2));
    ThreeMoves(s, Receive(2, Data(data)), Lock(2), SendSlot(2));
    OneMove(c, SendSlot(2));
    ms := [Receive(2, Data(data)), Lock(2), SendSlot(2)] + [SendSlot(2)];
    Chain(s, [Receive(2, Data(data)), Lock(2), SendSlot(2)], c, [SendSlot(2)], t);
  }
}
