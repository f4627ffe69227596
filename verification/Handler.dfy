/**
 What a handler of the threaded server does, step by step, whatever the other threads do in
 between: after each answer of recv, after a broadcast, and at the end; and what the accept
 loop does with a new descriptor. Stated by what can happen next, what is logged and what
 changes in the table.
 */
module Handler {
  import opened Seqs
  import opened ChatRoom
  import opened ChatServer
  import opened Answers
  import opened Threads
  import opened ThreadsSafety
  import opened ThreadsTheorems
  import opened OwnNumber

  // ---------------------------------------------------------------- the others

  ghost predicate ByHandler(m: Move, c: nat) {
    match m
    case ScanSlot(d) => d == c
    case Receive(d, _) => d == c
    case Lock(d) => d == c
    case SendSlot(d) => d == c
    case Unlock(d) => d == c
    case Clear(d) => d == c
    case Close(d) => d == c
    case _ => false
  }

  ghost predicate OthersOnly(ms: seq<Move>, c: nat) {
    forall m :: m in ms ==> !ByHandler(m, c)
  }

  /** A started handler's local variables are its own. */
  lemma OthersKeepThread(s: State, m: Move, c: nat)
    requires Sound(s) && Enabled(s, m) && c in s.threads && !s.threads[c].phase.Starting? && !ByHandler(m, c)
    ensures c in Next(s, m).threads && Next(s, m).threads[c] == s.threads[c]
  {
    if m.Admit? {
      NewcomerIsNew(s);
    }
  }

  lemma {:induction false} OthersRun(s: State, ms: seq<Move>, c: nat)
    requires Sound(s) && LegalMoves(s, ms) && OthersOnly(ms, c)
    requires c in s.threads && !s.threads[c].phase.Starting?
    ensures Sound(RunMoves(s, ms)) && c in RunMoves(s, ms).threads
    ensures RunMoves(s, ms).threads[c] == s.threads[c]
    decreases |ms|
  {
    if ms != [] {
      assert ms[0] in ms && OthersOnly(ms[1..], c);
      OthersKeepThread(s, ms[0], c);
      NextSound(s, ms[0]);
      OthersRun(Next(s, ms[0]), ms[1..], c);
    }
  }

  // ---------------------------------------------------------------- what can happen next

  /** c waits for the mutex in order to broadcast msg, and can do nothing else. */
  ghost predicate WillAnnounce(t: State, c: nat, msg: Msg) {
    && (Enabled(t, Lock(c)) <==> t.holder == None)
    && !Enabled(t, Clear(c)) && (forall a :: !Enabled(t, Receive(c, a)))
    && (Enabled(t, Lock(c)) ==> Next(t, Lock(c)).h.log == t.h.log + [Entry(c, msg)])
  }

  /** c waits for the mutex in order to give up its slot, and can do nothing else. */
  ghost predicate WillLeave(t: State, c: nat) {
    && (Enabled(t, Clear(c)) <==> t.holder == None)
    && !Enabled(t, Lock(c)) && (forall a :: !Enabled(t, Receive(c, a)))
  }

  /** c is in recv, which can answer anything. */
  ghost predicate WillReceive(t: State, c: nat) {
    && (forall a :: Enabled(t, Receive(c, a)) <==> a.Data? || a.End? || a.Error?)
    && !Enabled(t, Lock(c)) && !Enabled(t, Clear(c))
  }

  lemma PhaseSays(t: State, c: nat)
    requires c in t.threads
    ensures t.threads[c].phase.Wanting? ==> WillAnnounce(t, c, t.threads[c].phase.msg)
    ensures t.threads[c].phase.Leaving? ==> WillLeave(t, c)
    ensures t.threads[c].phase.Receiving? ==> WillReceive(t, c)
  {
  }

  // ---------------------------------------------------------------- after recv

  /** After the end of the stream the handler announces the departure, and does nothing before. */
  lemma EndIsAnnounced(s: State, c: nat, ms: seq<Move>)
    requires Sound(s) && Enabled(s, Receive(c, End))
    requires LegalMoves(Next(s, Receive(c, End)), ms) && OthersOnly(ms, c)
    ensures WillAnnounce(RunMoves(Next(s, Receive(c, End)), ms), c, Left(s.threads[c].id))
  {
    NextSound(s, Receive(c, End));
    OthersRun(Next(s, Receive(c, End)), ms, c);
    PhaseSays(RunMoves(Next(s, Receive(c, End)), ms), c);
  }

  /** After data the handler broadcasts the text under the number it found. */
  lemma DataIsRelayed(s: State, c: nat, bytes: Bytes, ms: seq<Move>)
    requires Sound(s) && Enabled(s, Receive(c, Data(bytes)))
    requires LegalMoves(Next(s, Receive(c, Data(bytes))), ms) && OthersOnly(ms, c)
    ensures WillAnnounce(RunMoves(Next(s, Receive(c, Data(bytes))), ms), c, Said(s.threads[c].id, CString(bytes)))
  {
    NextSound(s, Receive(c, Data(bytes)));
    OthersRun(Next(s, Receive(c, Data(bytes))), ms, c);
    PhaseSays(RunMoves(Next(s, Receive(c, Data(bytes))), ms), c);
  }

  /** After an error the handler leaves without a word. */
  lemma ErrorIsSilent(s: State, c: nat, ms: seq<Move>)
    requires Sound(s) && Enabled(s, Receive(c, Error))
    requires LegalMoves(Next(s, Receive(c, Error)), ms) && OthersOnly(ms, c)
    ensures WillLeave(RunMoves(Next(s, Receive(c, Error)), ms), c)
    ensures Next(s, Receive(c, Error)).h == s.h && Next(s, Receive(c, Error)).os == s.os
  {
    NextSound(s, Receive(c, Error));
    OthersRun(Next(s, Receive(c, Error)), ms, c);
    PhaseSays(RunMoves(Next(s, Receive(c, Error)), ms), c);
  }

  // ---------------------------------------------------------------- after a broadcast

  /** After broadcasting a message the handler receives again; after announcing the departure, which is
      then the last entry of the log, it leaves. */
  lemma AfterBroadcasting(s: State, c: nat, ms: seq<Move>)
    requires Sound(s) && MessagesOk(s.threads) && Enabled(s, Unlock(c))
    requires LegalMoves(Next(s, Unlock(c)), ms) && OthersOnly(ms, c)
    ensures s.h.log != []
    ensures s.h.log[|s.h.log| - 1].msg.Said? ==> WillReceive(RunMoves(Next(s, Unlock(c)), ms), c)
    ensures s.h.log[|s.h.log| - 1].msg.Left? ==> WillLeave(RunMoves(Next(s, Unlock(c)), ms), c)
    ensures Next(s, Unlock(c)).holder == None
  {
    NextSound(s, Unlock(c));
    HoldsLastEntry(s, c);
    OthersRun(Next(s, Unlock(c)), ms, c);
    PhaseSays(RunMoves(Next(s, Unlock(c)), ms), c);
  }

  lemma HoldsLastEntry(s: State, c: nat)
    requires LockOk(s) && MessagesOk(s.threads) && Enabled(s, Unlock(c))
    ensures s.h.log != [] && s.h.log[|s.h.log| - 1] == Entry(c, s.threads[c].phase.msg)
    ensures s.threads[c].phase.msg.Left? <==> s.threads[c].phase.last
  {
    assert s.holder == Some(c);
    assert MessageOk(s.threads[c]);
  }

  // ---------------------------------------------------------------- at the end

  /** Leaving: the handler's slot is given up, and no other; then its descriptor is closed. */
  lemma LeavesForGood(s: State, c: nat, ms: seq<Move>)
    requires Sound(s) && Enabled(s, Clear(c)) && LegalMoves(Next(s, Clear(c)), ms) && OthersOnly(ms, c)
    ensures SlotGivenUp(s.table, Next(s, Clear(c)).table, s.threads[c].fd)
    ensures var t, fd := RunMoves(Next(s, Clear(c)), ms), s.threads[c].fd;
            && fd in t.os.conn && t.os.conn[fd] == c && Enabled(t, Close(c))
            && Next(t, Close(c)).os.conn == t.os.conn - {fd} && c !in Next(t, Close(c)).threads
  {
    GivesUpSlot(s, c);
    NextSound(s, Clear(c));
    OthersRun(Next(s, Clear(c)), ms, c);
    ThenCloses(RunMoves(Next(s, Clear(c)), ms), c);
  }

  lemma GivesUpSlot(s: State, c: nat)
    requires Links(s) && Enabled(s, Clear(c))
    ensures SlotGivenUp(s.table, Next(s, Clear(c)).table, s.threads[c].fd)
    ensures c in Next(s, Clear(c)).threads && Next(s, Clear(c)).threads[c] == s.threads[c].(phase := Closing)
  {
    ClearsOwnSlot(s, c);
    OneSlotWith(s, c);
  }

  lemma ThenCloses(t: State, c: nat)
    requires Links(t) && c in t.threads && t.threads[c].phase.Closing?
    ensures var fd := t.threads[c].fd;
            && fd in t.os.conn && t.os.conn[fd] == c && Enabled(t, Close(c))
            && Next(t, Close(c)).os.conn == t.os.conn - {fd} && c !in Next(t, Close(c)).threads
  {
    assert ThreadLinked(t.table, t.os, t.threads[c], c);
  }

  lemma OneSlotWith(s: State, c: nat)
    requires Links(s) && Present(s.threads, c)
    ensures var th := s.threads[c];
            && th.slot < MAX_CLIENTS && s.table[th.slot] == Slot(th.fd, th.number, true)
            && forall i :: 0 <= i < MAX_CLIENTS && s.table[i].active && s.table[i].fd == th.fd ==> i == th.slot
  {
    assert ThreadLinked(s.table, s.os, s.threads[c], c);
    forall i | 0 <= i < MAX_CLIENTS && s.table[i].active && s.table[i].fd == s.threads[c].fd
      ensures i == s.threads[c].slot {
      SlotOwner(s, i);
    }
  }

  // ---------------------------------------------------------------- the accept loop

  /** A descriptor that accept returns leads to a new connection that was sent nothing, and is dealt with
      as soon as the mutex is free. */
  lemma AcceptedIsNew(s: State, fd: int)
    requires s.main == Accepting && fd !in s.os.conn
    ensures Enabled(s, Accept(fd))
    ensures var t := Next(s, Accept(fd));
            && t.os.conn == s.os.conn[fd := |s.os.out|] && t.os.out == s.os.out + [[]]
            && t.table == s.table && t.threads == s.threads && (Enabled(t, Admit) <==> t.holder == None)
  {
  }

  /** With a free slot the client gets the lowest one and the next number, and its handler is started;
      otherwise its descriptor is closed. Either way the loop accepts again. */
  lemma Admission(s: State)
    requires Sound(s) && Enabled(s, Admit)
    ensures if exists i :: 0 <= i < MAX_CLIENTS && !s.table[i].active then HasRoom(s) else IsFull(s)
  {
    RoomIff(s.table);
    if FirstFree(s.table, 0) < MAX_CLIENTS {
      TakesSlot(s);
    } else {
      IsTurnedAway(s);
    }
  }

  lemma TakesSlot(s: State)
    requires Sound(s) && Enabled(s, Admit) && FirstFree(s.table, 0) < MAX_CLIENTS
    ensures HasRoom(s)
  {
    NewcomerIsNew(s);
    assert LowestFreeSlot(s.table, FirstFree(s.table, 0));
  }

  lemma IsTurnedAway(s: State)
    requires Enabled(s, Admit) && FirstFree(s.table, 0) == MAX_CLIENTS
    ensures IsFull(s)
  {
  }

  ghost predicate HasRoom(s: State)
    requires Enabled(s, Admit)
  {
    var t, fd, c := Next(s, Admit), s.main.fd, s.os.conn[s.main.fd];
    && t.total == s.total + 1 && t.os == s.os && c !in s.threads
    && (exists k: nat :: LowestFreeSlot(s.table, k) && t.table == s.table[k := Slot(fd, s.total + 1, true)])
    && Enabled(t, Spawn) && Enabled(Next(t, Spawn), ScanSlot(c)) && Next(t, Spawn).main == Accepting
    && c in Next(t, Spawn).threads && Next(t, Spawn).threads[c].fd == fd
  }

  ghost predicate IsFull(s: State)
    requires Enabled(s, Admit)
  {
    var t, fd := Next(s, Admit), s.main.fd;
    && t.total == s.total && t.table == s.table && t.os == s.os && t.threads == s.threads
    && Enabled(t, Reject) && Next(t, Reject).main == Accepting && Next(t, Reject).os.conn == s.os.conn - {fd}
  }

  // ---------------------------------------------------------------- nobody is stuck

  ghost predicate MoveOf(s: State, m: Move, c: nat) {
    ByHandler(m, c) || (m == Spawn && s.main == Spawning(c))
  }

  /** In every reachable state each handler can go on, or it waits for the mutex and its holder can. */
  lemma SomeoneMoves(s: State, c: nat) returns (m: Move, d: nat)
    requires Sound(s) && c in s.threads
    ensures Enabled(s, m) && MoveOf(s, m, d)
    ensures d == c || ((s.threads[c].phase.Wanting? || s.threads[c].phase.Leaving?) && s.holder == Some(d))
  {
    var p := s.threads[c].phase;
    d := c;
    match p
    case Starting => m := Spawn;
    case Scan(_, _) => m := ScanSlot(c);
    case Receiving => m := Receive(c, End);
    case Sending(_, i, _) => m := if i < MAX_CLIENTS then SendSlot(c) else Unlock(c);
    case Closing => m := Close(c);
    case _ =>
      if s.holder == None {
        m := if p.Wanting? then Lock(c) else Clear(c);
      } else {
        d := s.holder.value;
        HolderSends(s, d);
        m := if s.threads[d].phase.i < MAX_CLIENTS then SendSlot(d) else Unlock(d);
      }
  }
}
