/** Every move of every thread keeps the invariant of the threaded server. */
module ThreadsSafety {
  import opened Seqs
  import opened ChatRoom
  import opened ChatServer
  import opened Threads

  // ---------------------------------------------------------------- a thread moves on

  /** th' is th at another point of its handler, slot still held. */
  ghost predicate Advances(th: Thread, th': Thread) {
    && th'.fd == th.fd && th'.slot == th.slot && th'.number == th.number
    && !th.phase.Closing? && !th'.phase.Closing? && !th'.phase.Starting?
  }

  lemma AdvanceLinks(s: State, s': State, c: nat)
    requires Links(s) && c in s.threads && s'.table == s.table
    requires s'.os.conn == s.os.conn && |s'.os.out| == |s.os.out|
    requires c in s'.threads && s'.threads == s.threads[c := s'.threads[c]]
    requires Advances(s.threads[c], s'.threads[c])
    requires if s.threads[c].phase.Starting? then s'.main == Accepting else s'.main == s.main
    ensures Links(s')
  {
    forall i | 0 <= i < MAX_CLIENTS && s.table[i].active
      ensures s.table[i].fd in s.os.conn && Present(s'.threads, s.os.conn[s.table[i].fd])
              && s'.threads[s.os.conn[s.table[i].fd]].slot == i {
    }
    forall fd | fd in s.os.conn
      ensures s.os.conn[fd] < |s.os.out|
              && if s.os.conn[fd] in s'.threads then s'.threads[s.os.conn[fd]].fd == fd && !Pending(s'.main, fd)
                 else Pending(s'.main, fd) {
      assert s.os.conn[fd] < |s.os.out|;
    }
  }

  lemma AdvanceNumbers(t: Table, total: int, threads: map<nat, Thread>, threads': map<nat, Thread>, c: nat)
    requires Numbers(t, total, threads) && c in threads && c in threads' && threads' == threads[c := threads'[c]]
    requires threads'[c].slot == threads[c].slot && threads'[c].number == threads[c].number
    ensures Numbers(t, total, threads')
  {
    assert forall d :: d in threads ==> threads'[d].number == threads[d].number && threads'[d].slot == threads[d].slot;
  }

  lemma AdvanceScans(threads: map<nat, Thread>, threads': map<nat, Thread>, c: nat)
    requires ScansOk(threads) && c in threads' && threads' == threads[c := threads'[c]] && ScanOk(threads'[c])
    ensures ScansOk(threads')
  {
  }

  /** Moves that touch neither the mutex nor the log nor any output. */
  lemma QuietMove(s: State, s': State, c: nat)
    requires Sound(s) && c in s.threads && s'.table == s.table && s'.os == s.os && s'.total == s.total
    requires s'.holder == s.holder && s'.h == s.h
    requires c in s'.threads && s'.threads == s.threads[c := s'.threads[c]]
    requires Advances(s.threads[c], s'.threads[c]) && ScanOk(s'.threads[c])
    requires !s.threads[c].phase.Sending? && !s'.threads[c].phase.Sending?
    requires if s.threads[c].phase.Starting? then s'.main == Accepting else s'.main == s.main
    ensures Sound(s')
  {
    AdvanceLinks(s, s', c);
    AdvanceNumbers(s.table, s.total, s.threads, s'.threads, c);
    AdvanceScans(s.threads, s'.threads, c);
    QuietLock(s, s', c);
    QuietDelivered(s, s', c);
  }

  lemma QuietLock(s: State, s': State, c: nat)
    requires LockOk(s) && c in s.threads && s'.holder == s.holder && s'.h == s.h
    requires c in s'.threads && s'.threads == s.threads[c := s'.threads[c]]
    requires !s.threads[c].phase.Sending? && !s'.threads[c].phase.Sending?
    ensures LockOk(s')
  {
    assert s.holder != Some(c);
  }

  lemma QuietDelivered(s: State, s': State, c: nat)
    requires AllDelivered(s) && LockOk(s) && c in s.threads && s'.holder == s.holder && s'.h == s.h && s'.os == s.os
    requires c in s'.threads && s'.threads == s.threads[c := s'.threads[c]]
    requires Advances(s.threads[c], s'.threads[c])
    requires !s.threads[c].phase.Sending? && !s'.threads[c].phase.Sending?
    requires s'.main == s.main || s'.main == Accepting
    ensures AllDelivered(s')
  {
    assert s.holder != Some(c);
    forall d: nat | d < |s.os.out| ensures DeliveredTo(s', d) {
      assert DeliveredTo(s, d);
      assert Upto(s', d) == Upto(s, d);
    }
  }

  lemma SpawnSound(s: State)
    requires Sound(s) && Enabled(s, Spawn)
    ensures Sound(Next(s, Spawn))
  {
    QuietMove(s, Next(s, Spawn), s.main.c);
  }

  /** The search, one slot at a time. */
  lemma ScanOneOk(t: Table, th: Thread)
    requires th.phase.Scan? && ScanOk(th) && th.slot < MAX_CLIENTS && t[th.slot] == Slot(th.fd, th.number, true)
    requires forall i :: 0 <= i < MAX_CLIENTS && i != th.slot ==> t[i].id != th.number
    ensures ScanOk(ScanOne(t, th)) && Advances(th, ScanOne(t, th))
  {
  }

  lemma ScanSlotSound(s: State, c: nat)
    requires Sound(s) && Enabled(s, ScanSlot(c))
    ensures Sound(Next(s, ScanSlot(c)))
  {
    var th := s.threads[c];
    assert ThreadLinked(s.table, s.os, th, c);
    forall i | 0 <= i < MAX_CLIENTS && i != th.slot ensures s.table[i].id != th.number {
      assert s.threads[c].number != s.table[i].id;
    }
    ScanOneOk(s.table, th);
    QuietMove(s, Next(s, ScanSlot(c)), c);
  }

  lemma ReceiveSound(s: State, c: nat, a: Answer)
    requires Sound(s) && Enabled(s, Receive(c, a))
    ensures Sound(Next(s, Receive(c, a)))
  {
    assert ScanOk(s.threads[c]);
    QuietMove(s, Next(s, Receive(c, a)), c);
  }

  // ---------------------------------------------------------------- broadcasting

  lemma LockSound(s: State, c: nat)
    requires Sound(s) && Enabled(s, Lock(c))
    ensures Sound(Next(s, Lock(c)))
  {
    var s' := Next(s, Lock(c));
    assert ScanOk(s.threads[c]);
    AdvanceLinks(s, s', c);
    AdvanceNumbers(s.table, s.total, s.threads, s'.threads, c);
    AdvanceScans(s.threads, s'.threads, c);
    LockTaken(s, c);
    LockDelivered(s, c);
  }

  lemma LockTaken(s: State, c: nat)
    requires LockOk(s) && Enabled(s, Lock(c))
    ensures LockOk(Next(s, Lock(c)))
  {
  }

  lemma LockDelivered(s: State, c: nat)
    requires Sound(s) && Enabled(s, Lock(c))
    ensures AllDelivered(Next(s, Lock(c)))
  {
    var s' := Next(s, Lock(c));
    forall d: nat | d < |s.os.out| ensures DeliveredTo(s', d) {
      assert DeliveredTo(s, d);
      LockUpto(s, c, d);
    }
  }

  lemma LockUpto(s: State, c: nat, d: nat)
    requires LockOk(s) && Membership(s) && Enabled(s, Lock(c)) && d < |s.os.out| && DeliveredTo(s, d)
    ensures DeliveredTo(Next(s, Lock(c)), d)
  {
    var s' := Next(s, Lock(c));
    if d in s.h.joined {
      assert Upto(s, d) == Until(s.h, d);
      assert Upto(s', d) == Upto(s, d);
      assert s'.h.log[s.h.joined[d]..Upto(s, d)] == s.h.log[s.h.joined[d]..Upto(s, d)];
    }
  }

  lemma UnlockSound(s: State, c: nat)
    requires Sound(s) && Enabled(s, Unlock(c))
    ensures Sound(Next(s, Unlock(c)))
  {
    var s' := Next(s, Unlock(c));
    assert ScanOk(s.threads[c]);
    AdvanceLinks(s, s', c);
    AdvanceNumbers(s.table, s.total, s.threads, s'.threads, c);
    AdvanceScans(s.threads, s'.threads, c);
    UnlockDelivered(s, c);
    LockReleased(s, c);
  }

  lemma LockReleased(s: State, c: nat)
    requires LockOk(s) && Enabled(s, Unlock(c))
    ensures LockOk(Next(s, Unlock(c)))
  {
    assert s.holder == Some(c);
  }

  lemma UnlockDelivered(s: State, c: nat)
    requires Sound(s) && Enabled(s, Unlock(c))
    ensures AllDelivered(Next(s, Unlock(c)))
  {
    var s' := Next(s, Unlock(c));
    assert s.holder == Some(c);
    forall d: nat | d < |s.os.out| ensures DeliveredTo(s', d) {
      assert DeliveredTo(s, d);
      if d in s.threads {
        assert ThreadLinked(s.table, s.os, s.threads[d], d);
      }
      assert Upto(s', d) == Upto(s, d);
    }
  }

  /** The descriptor in an active slot leads to the present thread that owns the slot. */
  lemma SlotOwner(s: State, i: nat)
    requires Links(s) && i < MAX_CLIENTS && s.table[i].active
    ensures s.table[i].fd in s.os.conn
    ensures var d := s.os.conn[s.table[i].fd];
            Present(s.threads, d) && s.threads[d].slot == i && s.threads[d].fd == s.table[i].fd && d < |s.os.out|
  {
    assert ThreadLinked(s.table, s.os, s.threads[s.os.conn[s.table[i].fd]], s.os.conn[s.table[i].fd]);
  }

  /** One send step appends to one box: that of the thread whose slot it is at, unless it is the sender. */
  lemma SendOneOut(s: State, c: nat, d: nat)
    requires Links(s) && Enabled(s, SendSlot(c)) && d < |s.os.out|
    ensures var p := s.threads[c].phase;
            var os := Next(s, SendSlot(c)).os;
            && os.conn == s.os.conn && |os.out| == |s.os.out|
            && os.out[d] == s.os.out[d] +
                 (if Present(s.threads, d) && s.threads[d].slot == p.i && d != c then [p.msg] else [])
  {
    var i := s.threads[c].phase.i;
    assert ThreadLinked(s.table, s.os, s.threads[c], c);
    if s.table[i].active {
      SlotOwner(s, i);
    }
    if d in s.threads {
      assert ThreadLinked(s.table, s.os, s.threads[d], d);
    }
  }

  lemma SendDeliveredTo(s: State, c: nat, d: nat)
    requires Links(s) && LockOk(s) && AllDelivered(s) && Enabled(s, SendSlot(c)) && d < |s.os.out|
    ensures |Next(s, SendSlot(c)).os.out| == |s.os.out| && DeliveredTo(Next(s, SendSlot(c)), d)
  {
    var s', p := Next(s, SendSlot(c)), s.threads[c].phase;
    SendOneOut(s, c, d);
    assert DeliveredTo(s, d);
    assert s.holder == Some(c) && s'.threads[c].phase == Sending(p.msg, p.i + 1, p.last);
    var here := Present(s.threads, d) && s.threads[d].slot == p.i;
    if here {
      SendHere(s, c, d);
    } else {
      assert Upto(s', d) == Upto(s, d);
    }
  }

  lemma SendHere(s: State, c: nat, d: nat)
    requires Links(s) && LockOk(s) && Membership(s) && Enabled(s, SendSlot(c)) && d < |s.os.out| && DeliveredTo(s, d)
    requires Present(s.threads, d) && s.threads[d].slot == s.threads[c].phase.i
    ensures |Next(s, SendSlot(c)).os.out| == |s.os.out| && DeliveredTo(Next(s, SendSlot(c)), d)
  {
    var s', log, j := Next(s, SendSlot(c)), s.h.log, s.h.joined[d];
    SendOneOut(s, c, d);
    UptoHere(s, c, d);
    HeardLast(log, j, d);
  }

  lemma HeardLast(log: seq<Entry>, j: nat, d: nat)
    requires j < |log|
    ensures var e := log[|log| - 1];
            Heard(log[j..|log|], d) == Heard(log[j..|log| - 1], d) + (if e.sender == d then [] else [e.msg])
  {
    assert log[j..|log|] == log[j..|log| - 1] + [log[|log| - 1]];
    HeardAppend(log[j..|log| - 1], log[|log| - 1], d);
  }

  lemma UptoHere(s: State, c: nat, d: nat)
    requires LockOk(s) && Membership(s) && Enabled(s, SendSlot(c)) && Present(s.threads, d)
    requires s.threads[d].slot == s.threads[c].phase.i
    ensures d in s.h.joined && d !in s.h.left
    ensures Upto(s, d) == |s.h.log| - 1 && Upto(Next(s, SendSlot(c)), d) == |s.h.log|
  {
    assert s.holder == Some(c);
  }

  lemma SendSlotRest(s: State, c: nat)
    requires Sound(s) && Enabled(s, SendSlot(c))
    ensures var s' := Next(s, SendSlot(c));
            && Links(s') && Numbers(s'.table, s'.total, s'.threads) && ScansOk(s'.threads)
            && s'.os.conn == s.os.conn && |s'.os.out| == |s.os.out|
  {
    var s' := Next(s, SendSlot(c));
    assert ThreadLinked(s.table, s.os, s.threads[c], c);
    SendOneOut(s, c, c);
    assert ScanOk(s.threads[c]);
    AdvanceLinks(s, s', c);
    AdvanceNumbers(s.table, s.total, s.threads, s'.threads, c);
    AdvanceScans(s.threads, s'.threads, c);
  }

  lemma SendSlotLock(s: State, c: nat)
    requires Sound(s) && Enabled(s, SendSlot(c))
    ensures LockOk(Next(s, SendSlot(c)))
  {
    assert s.holder == Some(c);
  }

  lemma SendSlotSound(s: State, c: nat)
    requires Sound(s) && Enabled(s, SendSlot(c))
    ensures Sound(Next(s, SendSlot(c)))
  {
    SendSlotRest(s, c);
    SendSlotLock(s, c);
    SendSlotDelivered(s, c);
  }

  lemma SendSlotDelivered(s: State, c: nat)
    requires Sound(s) && Enabled(s, SendSlot(c)) && |Next(s, SendSlot(c)).os.out| == |s.os.out|
    ensures AllDelivered(Next(s, SendSlot(c)))
  {
    forall d: nat | d < |s.os.out| ensures DeliveredTo(Next(s, SendSlot(c)), d) {
      SendDeliveredTo(s, c, d);
    }
  }

  // ---------------------------------------------------------------- the accept loop

  lemma AcceptLinks(s: State, fd: int)
    requires Sound(s) && Enabled(s, Accept(fd))
    ensures Links(Next(s, Accept(fd)))
  {
    var s' := Next(s, Accept(fd));
    forall c | c in s.threads ensures ThreadLinked(s'.table, s'.os, s'.threads[c], c) {
      assert ThreadLinked(s.table, s.os, s.threads[c], c);
    }
    forall i | 0 <= i < MAX_CLIENTS && s.table[i].active
      ensures s.table[i].fd in s'.os.conn && s'.os.conn[s.table[i].fd] == s.os.conn[s.table[i].fd] {
      SlotOwner(s, i);
    }
    forall g | g in s.os.conn ensures s'.os.conn[g] == s.os.conn[g] < |s.os.out| {
      assert s.os.conn[g] < |s.os.out|;
    }
    forall d | d in s.threads ensures d < |s.os.out| {
      assert ThreadLinked(s.table, s.os, s.threads[d], d);
    }
  }

  lemma AcceptSound(s: State, fd: int)
    requires Sound(s) && Enabled(s, Accept(fd))
    ensures Sound(Next(s, Accept(fd)))
  {
    var s' := Next(s, Accept(fd));
    AcceptLinks(s, fd);
    assert |s.os.out| !in s.h.joined;
    forall d: nat | d < |s'.os.out| ensures DeliveredTo(s', d) {
      if d < |s.os.out| {
        assert DeliveredTo(s, d) && Upto(s', d) == Upto(s, d);
      }
    }
  }

  lemma RejectLinks(s: State)
    requires Sound(s) && Enabled(s, Reject)
    ensures Links(Next(s, Reject))
  {
    var s', fd := Next(s, Reject), s.main.fd;
    assert s.os.conn[fd] !in s.threads;
    forall c | c in s.threads ensures ThreadLinked(s'.table, s'.os, s'.threads[c], c) {
      assert ThreadLinked(s.table, s.os, s.threads[c], c);
    }
    forall i | 0 <= i < MAX_CLIENTS && s.table[i].active
      ensures s.table[i].fd in s'.os.conn && s'.os.conn[s.table[i].fd] == s.os.conn[s.table[i].fd] {
      SlotOwner(s, i);
    }
    forall g | g in s'.os.conn ensures s'.os.conn[g] == s.os.conn[g] < |s.os.out| && s.os.conn[g] in s.threads {
      assert s.os.conn[g] < |s.os.out|;
    }
  }

  lemma RejectSound(s: State)
    requires Sound(s) && Enabled(s, Reject)
    ensures Sound(Next(s, Reject))
  {
    var s' := Next(s, Reject);
    RejectLinks(s);
    forall d: nat | d < |s'.os.out| ensures DeliveredTo(s', d) {
      assert DeliveredTo(s, d) && Upto(s', d) == Upto(s, d);
    }
  }

  lemma AdmitThreads(s: State)
    requires Links(s) && Enabled(s, Admit) && FirstFree(s.table, 0) < MAX_CLIENTS
    ensures var s' := Next(s, Admit); ThreadsLinked(s'.table, s'.os, s'.threads)
  {
    var s', c := Next(s, Admit), s.os.conn[s.main.fd];
    assert c < |s.os.out|;
    forall d | d in s'.threads ensures ThreadLinked(s'.table, s'.os, s'.threads[d], d) {
      if d != c { assert ThreadLinked(s.table, s.os, s.threads[d], d); }
    }
  }

  lemma AdmitSlots(s: State)
    requires Links(s) && Enabled(s, Admit) && FirstFree(s.table, 0) < MAX_CLIENTS
    ensures var s' := Next(s, Admit); SlotsLinked(s'.table, s'.os, s'.threads)
  {
    var s', k := Next(s, Admit), FirstFree(s.table, 0);
    assert s.os.conn[s.main.fd] < |s.os.out| && s.os.conn[s.main.fd] !in s.threads;
    forall i | 0 <= i < MAX_CLIENTS && s'.table[i].active
      ensures s'.table[i].fd in s'.os.conn && Present(s'.threads, s'.os.conn[s'.table[i].fd])
              && s'.threads[s'.os.conn[s'.table[i].fd]].slot == i {
      if i != k { SlotOwner(s, i); }
    }
  }

  lemma AdmitLinks(s: State)
    requires Links(s) && Enabled(s, Admit)
    ensures Links(Next(s, Admit))
  {
    if FirstFree(s.table, 0) < MAX_CLIENTS {
      AdmitThreads(s);
      AdmitSlots(s);
      AdmitOpen(s);
    } else {
      TurnedAway(s);
    }
  }

  lemma TurnedAway(s: State)
    requires Links(s) && Enabled(s, Admit) && FirstFree(s.table, 0) == MAX_CLIENTS
    ensures Links(Next(s, Admit))
  {
    forall g | g in s.os.conn ensures s.os.conn[g] < |s.os.out| {
    }
  }

  lemma AdmitOpen(s: State)
    requires Links(s) && Enabled(s, Admit) && FirstFree(s.table, 0) < MAX_CLIENTS
    ensures OpenLinked(Next(s, Admit))
  {
    var s', fd := Next(s, Admit), s.main.fd;
    forall g | g in s'.os.conn
      ensures s'.os.conn[g] < |s'.os.out| && s'.os.conn[g] in s'.threads && s'.threads[s'.os.conn[g]].fd == g {
      assert s.os.conn[g] < |s.os.out| && s.os.conn[fd] < |s.os.out|;
    }
  }

  lemma AdmitNumbers(s: State)
    requires Sound(s) && Enabled(s, Admit)
    ensures Numbers(Next(s, Admit).table, Next(s, Admit).total, Next(s, Admit).threads)
  {
    var s', k := Next(s, Admit), FirstFree(s.table, 0);
    if k < MAX_CLIENTS {
      var c := s.os.conn[s.main.fd];
      assert c !in s.threads by { assert s.os.conn[s.main.fd] < |s.os.out|; }
      assert forall d :: d in s.threads ==> s.threads[d].number <= s.total;
    }
  }

  lemma AdmitSound(s: State)
    requires Sound(s) && Enabled(s, Admit)
    ensures Sound(Next(s, Admit))
  {
    AdmitLinks(s);
    AdmitNumbers(s);
    AdmitDelivered(s);
  }

  lemma NewcomerIsNew(s: State)
    requires Sound(s) && Enabled(s, Admit)
    ensures var c := s.os.conn[s.main.fd];
            c < |s.os.out| && c !in s.threads && c !in s.h.joined && c !in s.h.left && s.holder != Some(c)
  {
    assert s.os.conn[s.main.fd] < |s.os.out|;
  }

  lemma RoomGrows(h: History, threads: map<nat, Thread>, conns: nat, c: nat, th: Thread)
    requires InRoom(h, threads, conns) && c !in h.left && c < conns && !th.phase.Closing?
    ensures InRoom(h.(joined := h.joined[c := |h.log|]), threads[c := th], conns)
  {
    var g, more := h.(joined := h.joined[c := |h.log|]), threads[c := th];
    forall d: nat ensures d in g.joined && d !in g.left <==> Present(more, d) {
      assert Present(threads, d) <==> d in h.joined && d !in h.left;
    }
  }

  lemma AdmitMembership(s: State)
    requires Sound(s) && Enabled(s, Admit)
    ensures Membership(Next(s, Admit))
  {
    NewcomerIsNew(s);
    var s', c := Next(s, Admit), s.os.conn[s.main.fd];
    if FirstFree(s.table, 0) < MAX_CLIENTS {
      RoomGrows(s.h, s.threads, |s.os.out|, c, s'.threads[c]);
    }
  }

  lemma AdmitLockScans(s: State)
    requires Sound(s) && Enabled(s, Admit)
    ensures LockOk(Next(s, Admit)) && ScansOk(Next(s, Admit).threads)
  {
    NewcomerIsNew(s);
  }

  lemma AdmitDelivered(s: State)
    requires Sound(s) && Enabled(s, Admit)
    ensures AllDelivered(Next(s, Admit)) && LockOk(Next(s, Admit)) && ScansOk(Next(s, Admit).threads)
  {
    AdmitMembership(s);
    AdmitLockScans(s);
    forall d: nat | d < |s.os.out| ensures Next(s, Admit).os == s.os && DeliveredTo(Next(s, Admit), d) {
      assert DeliveredTo(s, d);
      AdmitDeliveredTo(s, d);
    }
  }

  lemma AdmitDeliveredTo(s: State, d: nat)
    requires Sound(s) && Enabled(s, Admit) && d < |s.os.out| && DeliveredTo(s, d)
    ensures Next(s, Admit).os == s.os && DeliveredTo(Next(s, Admit), d)
  {
    NewcomerIsNew(s);
    if d == s.os.conn[s.main.fd] {
      assert s.h.log[|s.h.log|..|s.h.log|] == [];
    } else {
      AdmitUpto(s, d);
    }
  }

  lemma AdmitUpto(s: State, d: nat)
    requires Enabled(s, Admit) && d != s.os.conn[s.main.fd]
    ensures Upto(Next(s, Admit), d) == Upto(s, d)
  {
  }

  // ---------------------------------------------------------------- leaving

  /** A handler clears its own slot and no other. */
  lemma ClearsOwnSlot(s: State, c: nat)
    requires Links(s) && Present(s.threads, c)
    ensures var th := s.threads[c];
            th.slot < MAX_CLIENTS && Release(s.table, th.fd) == s.table[th.slot := Slot(th.fd, th.number, false)]
  {
    var th := s.threads[c];
    assert ThreadLinked(s.table, s.os, th, c);
    var k := Find(s.table, th.fd, 0);
    assert k <= th.slot;
    SlotOwner(s, k);
  }

  lemma ClearThreads(s: State, c: nat)
    requires Links(s) && Enabled(s, Clear(c))
    ensures ThreadsLinked(Next(s, Clear(c)).table, s.os, Next(s, Clear(c)).threads)
  {
    var s' := Next(s, Clear(c));
    ClearsOwnSlot(s, c);
    assert ThreadLinked(s.table, s.os, s.threads[c], c);
    forall d | d in s'.threads ensures ThreadLinked(s'.table, s'.os, s'.threads[d], d) {
      assert ThreadLinked(s.table, s.os, s.threads[d], d);
      if d != c && Present(s.threads, d) {
        assert s.threads[d].slot != s.threads[c].slot;
      }
    }
  }

  lemma ClearSlots(s: State, c: nat)
    requires Links(s) && Enabled(s, Clear(c))
    ensures SlotsLinked(Next(s, Clear(c)).table, s.os, Next(s, Clear(c)).threads)
  {
    var s' := Next(s, Clear(c));
    ClearsOwnSlot(s, c);
    forall i | 0 <= i < MAX_CLIENTS && s'.table[i].active
      ensures s'.table[i].fd in s.os.conn && Present(s'.threads, s.os.conn[s'.table[i].fd])
              && s'.threads[s.os.conn[s'.table[i].fd]].slot == i {
      SlotOwner(s, i);
    }
  }

  lemma ClearLinks(s: State, c: nat)
    requires Links(s) && Enabled(s, Clear(c))
    ensures Links(Next(s, Clear(c)))
  {
    ClearThreads(s, c);
    ClearSlots(s, c);
    ClearOpen(s, c);
  }

  lemma ClearOpen(s: State, c: nat)
    requires Links(s) && Enabled(s, Clear(c))
    ensures OpenLinked(Next(s, Clear(c)))
  {
    forall g | g in s.os.conn ensures s.os.conn[g] < |s.os.out| {
    }
  }

  lemma ClearDelivered(s: State, c: nat)
    requires Sound(s) && Enabled(s, Clear(c))
    ensures AllDelivered(Next(s, Clear(c)))
  {
    var s' := Next(s, Clear(c));
    forall d: nat | d < |s'.os.out| ensures DeliveredTo(s', d) {
      assert DeliveredTo(s, d);
      assert d == c ==> d in s.h.joined && d !in s.h.left;
      assert Upto(s', d) == Upto(s, d);
    }
  }

  lemma ClearNumbers(s: State, c: nat)
    requires Sound(s) && Enabled(s, Clear(c))
    ensures Numbers(Next(s, Clear(c)).table, s.total, Next(s, Clear(c)).threads)
  {
    var s', th := Next(s, Clear(c)), s.threads[c];
    ClearsOwnSlot(s, c);
    assert ThreadLinked(s.table, s.os, th, c);
    AdvanceNumbers(s.table, s.total, s.threads, s'.threads, c);
    assert forall i :: 0 <= i < MAX_CLIENTS ==> s'.table[i].id == s.table[i].id;
  }

  lemma ClearLockScans(s: State, c: nat)
    requires Sound(s) && Enabled(s, Clear(c))
    ensures LockOk(Next(s, Clear(c))) && ScansOk(Next(s, Clear(c)).threads)
  {
    assert ScanOk(s.threads[c]);
  }

  lemma ClearSound(s: State, c: nat)
    requires Sound(s) && Enabled(s, Clear(c))
    ensures Sound(Next(s, Clear(c)))
  {
    ClearLinks(s, c);
    ClearNumbers(s, c);
    ClearLockScans(s, c);
    ClearDelivered(s, c);
  }

  lemma CloseThreads(s: State, c: nat)
    requires Links(s) && Enabled(s, Close(c))
    ensures var s' := Next(s, Close(c)); ThreadsLinked(s'.table, s'.os, s'.threads)
  {
    var s' := Next(s, Close(c));
    assert ThreadLinked(s.table, s.os, s.threads[c], c);
    forall d | d in s'.threads ensures ThreadLinked(s'.table, s'.os, s'.threads[d], d) {
      assert ThreadLinked(s.table, s.os, s.threads[d], d);
    }
  }

  lemma CloseSlots(s: State, c: nat)
    requires Links(s) && Enabled(s, Close(c))
    ensures var s' := Next(s, Close(c)); SlotsLinked(s'.table, s'.os, s'.threads)
  {
    var s' := Next(s, Close(c));
    assert ThreadLinked(s.table, s.os, s.threads[c], c);
    forall i | 0 <= i < MAX_CLIENTS && s.table[i].active
      ensures s.table[i].fd in s'.os.conn && Present(s'.threads, s'.os.conn[s.table[i].fd])
              && s'.threads[s'.os.conn[s.table[i].fd]].slot == i {
      SlotOwner(s, i);
    }
  }

  lemma CloseOpen(s: State, c: nat)
    requires Links(s) && Enabled(s, Close(c))
    ensures OpenLinked(Next(s, Close(c)))
  {
    var s' := Next(s, Close(c));
    assert ThreadLinked(s.table, s.os, s.threads[c], c);
    forall g | g in s'.os.conn
      ensures s'.os.conn[g] == s.os.conn[g] < |s.os.out| && s.os.conn[g] != c {
      assert s.os.conn[g] < |s.os.out|;
    }
  }

  lemma CloseLinks(s: State, c: nat)
    requires Links(s) && Enabled(s, Close(c))
    ensures Links(Next(s, Close(c)))
  {
    CloseThreads(s, c);
    CloseSlots(s, c);
    CloseOpen(s, c);
  }

  lemma CloseDelivered(s: State, c: nat)
    requires Sound(s) && Enabled(s, Close(c))
    ensures AllDelivered(Next(s, Close(c)))
  {
    var s' := Next(s, Close(c));
    CloseMembership(s, c);
    forall d: nat | d < |s'.os.out| ensures DeliveredTo(s', d) {
      assert DeliveredTo(s, d);
      CloseUpto(s, c, d);
    }
  }

  lemma CloseMembership(s: State, c: nat)
    requires Links(s) && Membership(s) && Enabled(s, Close(c))
    ensures Membership(Next(s, Close(c)))
  {
    assert ThreadLinked(s.table, s.os, s.threads[c], c);
  }

  lemma CloseUpto(s: State, c: nat, d: nat)
    requires LockOk(s) && Enabled(s, Close(c))
    ensures Upto(Next(s, Close(c)), d) == Upto(s, d)
  {
    assert s.holder != Some(c);
  }

  lemma CloseSound(s: State, c: nat)
    requires Sound(s) && Enabled(s, Close(c))
    ensures Sound(Next(s, Close(c)))
  {
    CloseLinks(s, c);
    CloseRest(s, c);
    CloseDelivered(s, c);
  }

  lemma CloseRest(s: State, c: nat)
    requires Numbers(s.table, s.total, s.threads) && ScansOk(s.threads) && LockOk(s) && Enabled(s, Close(c))
    ensures var s' := Next(s, Close(c));
            Numbers(s'.table, s'.total, s'.threads) && LockOk(s') && ScansOk(s'.threads)
  {
    CloseNumbers(s.table, s.total, s.threads, c);
    assert s.holder != Some(c);
  }

  lemma CloseNumbers(t: Table, total: int, threads: map<nat, Thread>, c: nat)
    requires Numbers(t, total, threads)
    ensures Numbers(t, total, threads - {c})
  {
    assert forall d :: d in threads - {c} ==> d in threads && (threads - {c})[d] == threads[d];
  }
}
