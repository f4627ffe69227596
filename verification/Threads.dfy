/**
 The threaded server as a transition system: the accept loop and one handler per client,
 interleaved at every step they take without holding the mutex, and at every single send
 of a broadcast. Connection numbers, slot and number of a thread, misled and the history
 are bookkeeping of the model; the program has none of them.
 */
module Threads {
  import opened Seqs
  import opened ChatRoom
  import opened ChatServer

  /** Where a handler is. */
  datatype Phase =
    | Starting                                      // admitted, thread not yet created
    | Scan(i: nat, found: Option<int>)              // unlocked search for its number, at slot i
    | Receiving                                     // in recv
    | Wanting(msg: Msg, last: bool)                 // waiting for the mutex to broadcast msg
    | Sending(msg: Msg, i: nat, last: bool)         // holding the mutex, at slot i
    | Leaving                                       // waiting for the mutex to clear its slot
    | Closing                                       // slot cleared, descriptor not yet closed

  /** slot and number are what admission gave the client; id is what its own search found; misled
      records that the search met the descriptor again in a later slot. */
  datatype Thread = Thread(fd: int, slot: nat, number: int, id: int, misled: bool, phase: Phase)

  datatype Main = Accepting | Admitting(fd: int) | Rejecting(fd: int) | Spawning(c: nat)

  /** holder is the connection whose handler is inside a broadcast. */
  datatype State = State(
    table: Table, total: int, os: Os,
    holder: Option<nat>, main: Main, threads: map<nat, Thread>, h: History)

  datatype Move =
    | Accept(fd: int)
    | Admit
    | Reject
    | Spawn
    | ScanSlot(c: nat)
    | Receive(c: nat, a: Answer)
    | Lock(c: nat)
    | SendSlot(c: nat)
    | Unlock(c: nat)
    | Clear(c: nat)
    | Close(c: nat)

  // ---------------------------------------------------------------- moves

  ghost predicate Enabled(s: State, m: Move) {
    match m
    case Accept(fd) => s.main.Accepting? && fd !in s.os.conn
    case Admit => s.main.Admitting? && s.holder.None? && s.main.fd in s.os.conn
    case Reject => s.main.Rejecting?
    case Spawn => s.main.Spawning? && s.main.c in s.threads
    case ScanSlot(c) => c in s.threads && s.threads[c].phase.Scan?
    case Receive(c, a) => c in s.threads && s.threads[c].phase.Receiving? && (a.Data? || a.End? || a.Error?)
    case Lock(c) => c in s.threads && s.threads[c].phase.Wanting? && s.holder.None?
    case SendSlot(c) => c in s.threads && s.threads[c].phase.Sending? && s.threads[c].phase.i < MAX_CLIENTS
    case Unlock(c) => c in s.threads && s.threads[c].phase.Sending? && s.threads[c].phase.i >= MAX_CLIENTS
    case Clear(c) => c in s.threads && s.threads[c].phase.Leaving? && s.holder.None?
    case Close(c) => c in s.threads && s.threads[c].phase.Closing?
  }

  function WithPhase(s: State, c: nat, p: Phase): State
    requires c in s.threads
  {
    s.(threads := s.threads[c := s.threads[c].(phase := p)])
  }

  function AdmitClient(s: State): State
    requires s.main.Admitting? && s.main.fd in s.os.conn
  {
    var fd := s.main.fd;
    var k, c := FirstFree(s.table, 0), s.os.conn[fd];
    if k == MAX_CLIENTS then s.(main := Rejecting(fd))
    else s.(table := s.table[k := Slot(fd, s.total + 1, true)],
            total := s.total + 1,
            threads := s.threads[c := Thread(fd, k, s.total + 1, 0, false, Starting)],
            h := s.h.(joined := s.h.joined[c := |s.h.log|]),
            main := Spawning(c))
  }

  /** One slot of the unlocked search: activity is not looked at, and a later match overrides. */
  function ScanOne(t: Table, th: Thread): Thread
    requires th.phase.Scan?
  {
    var i := th.phase.i;
    if i >= MAX_CLIENTS then
      th.(id := if th.phase.found.Some? then th.phase.found.value else 0, phase := Receiving)
    else if t[i].fd == th.fd then
      th.(phase := Scan(i + 1, Some(t[i].id)), misled := th.misled || i > th.slot)
    else th.(phase := Scan(i + 1, th.phase.found))
  }

  function AfterReceive(th: Thread, a: Answer): Phase {
    match a
    case Data(bytes) => Wanting(Said(th.id, CString(bytes)), false)
    case End => Wanting(Left(th.id), true)
    case _ => Leaving
  }

  function SendOne(s: State, c: nat): State
    requires c in s.threads && s.threads[c].phase.Sending? && s.threads[c].phase.i < MAX_CLIENTS
  {
    var p := s.threads[c].phase;
    var slot := s.table[p.i];
    WithPhase(s, c, Sending(p.msg, p.i + 1, p.last)).(
      os := if slot.active && slot.fd != s.threads[c].fd then Send(s.os, slot.fd, p.msg) else s.os)
  }

  function Next(s: State, m: Move): State
    requires Enabled(s, m)
  {
    match m
    case Accept(fd) => s.(os := OpenFd(s.os, fd), main := Admitting(fd))
    case Admit => AdmitClient(s)
    case Reject => s.(os := CloseFd(s.os, s.main.fd), main := Accepting)
    case Spawn => WithPhase(s, s.main.c, Scan(0, None)).(main := Accepting)
    case ScanSlot(c) => s.(threads := s.threads[c := ScanOne(s.table, s.threads[c])])
    case Receive(c, a) => WithPhase(s, c, AfterReceive(s.threads[c], a))
    case Lock(c) =>
      var p := s.threads[c].phase;
      WithPhase(s, c, Sending(p.msg, 0, p.last)).(
        holder := Some(c), h := s.h.(log := s.h.log + [Entry(c, p.msg)]))
    case SendSlot(c) => SendOne(s, c)
    case Unlock(c) =>
      WithPhase(s, c, if s.threads[c].phase.last then Leaving else Receiving).(holder := None)
    case Clear(c) =>
      WithPhase(s, c, Closing).(table := Release(s.table, s.threads[c].fd),
                                h := s.h.(left := s.h.left[c := |s.h.log|]))
    case Close(c) => s.(os := CloseFd(s.os, s.threads[c].fd), threads := s.threads - {c})
  }

  // ---------------------------------------------------------------- invariants

  /** A thread that has not cleared its slot: its connection is in the room. */
  ghost predicate Present(threads: map<nat, Thread>, c: nat) {
    c in threads && !threads[c].phase.Closing?
  }

  ghost predicate ThreadLinked(t: Table, os: Os, th: Thread, c: nat) {
    && th.fd in os.conn && os.conn[th.fd] == c < |os.out| && th.slot < MAX_CLIENTS
    && (!th.phase.Closing? ==> t[th.slot] == Slot(th.fd, th.number, true))
  }

  ghost predicate ThreadsLinked(t: Table, os: Os, threads: map<nat, Thread>) {
    forall c {:trigger threads[c]} :: c in threads ==> ThreadLinked(t, os, threads[c], c)
  }

  /** An active slot holds the open descriptor of the present thread that owns the slot. */
  ghost predicate SlotsLinked(t: Table, os: Os, threads: map<nat, Thread>) {
    forall i {:trigger t[i]} :: 0 <= i < MAX_CLIENTS && t[i].active ==>
      && t[i].fd in os.conn && Present(threads, os.conn[t[i].fd])
      && threads[os.conn[t[i].fd]].slot == i
  }

  ghost predicate Pending(main: Main, fd: int) {
    (main.Admitting? || main.Rejecting?) && main.fd == fd
  }

  /** Every open client descriptor belongs to one thread, or is in the accept loop's hands. */
  ghost predicate OpenLinked(s: State) {
    && (forall fd {:trigger s.os.conn[fd]} :: fd in s.os.conn ==>
          s.os.conn[fd] < |s.os.out| &&
          if s.os.conn[fd] in s.threads then s.threads[s.os.conn[fd]].fd == fd && !Pending(s.main, fd)
          else Pending(s.main, fd))
    && (s.main.Admitting? || s.main.Rejecting? ==> s.main.fd in s.os.conn)
    && (s.main.Spawning? ==> s.main.c in s.threads && s.threads[s.main.c].phase.Starting?)
    && (forall c :: c in s.threads && s.threads[c].phase.Starting? ==> s.main == Spawning(c))
  }

  ghost predicate Links(s: State) {
    ThreadsLinked(s.table, s.os, s.threads) && SlotsLinked(s.table, s.os, s.threads) && OpenLinked(s)
  }

  /** Numbers are 1..total, no two threads share one, and no other slot carries a thread's number. */
  ghost predicate Numbers(t: Table, total: int, threads: map<nat, Thread>) {
    && total >= 0
    && (forall i {:trigger t[i]} :: 0 <= i < MAX_CLIENTS ==> t[i].id <= total)
    && (forall c {:trigger threads[c]} :: c in threads ==> 1 <= threads[c].number <= total)
    && (forall c, d {:trigger threads[c], threads[d]} ::
          c in threads && d in threads && c != d ==> threads[c].number != threads[d].number)
    && (forall c, i {:trigger threads[c], t[i]} ::
          c in threads && 0 <= i < MAX_CLIENTS && i != threads[c].slot ==> t[i].id != threads[c].number)
  }

  /** The mutex: a thread is inside a broadcast exactly when it is the holder. */
  ghost predicate LockOk(s: State) {
    && (s.holder.Some? ==> s.holder.value in s.threads)
    && (forall c {:trigger s.threads[c]} :: c in s.threads ==> (s.threads[c].phase.Sending? <==> s.holder == Some(c)))
    && (s.holder.Some? ==>
          s.h.log != [] && s.h.log[|s.h.log| - 1] == Entry(s.holder.value, s.threads[s.holder.value].phase.msg))
  }

  /** What the search has found so far, and why it can be wrong. */
  ghost predicate ScanOk(th: Thread) {
    match th.phase
    case Starting => !th.misled
    case Scan(i, found) =>
      if i <= th.slot then !th.misled && (found.Some? ==> found.value != th.number)
      else found.Some? && (found.value == th.number <==> !th.misled)
    case _ => th.id == th.number <==> !th.misled
  }

  ghost predicate ScansOk(threads: map<nat, Thread>) {
    forall c {:trigger threads[c]} :: c in threads ==> ScanOk(threads[c])
  }

  /** How much of the log has been sent to a connection: in the middle of a broadcast, the slots not
      yet visited miss the last entry. */
  function Upto(s: State, c: nat): int {
    if s.holder.Some? && s.holder.value in s.threads && s.threads[s.holder.value].phase.Sending?
       && c in s.threads && !s.threads[c].phase.Closing?
       && s.threads[c].slot >= s.threads[s.holder.value].phase.i
    then |s.h.log| - 1 else Until(s.h, c)
  }

  ghost predicate DeliveredTo(s: State, c: nat)
    requires c < |s.os.out|
  {
    if c in s.h.joined then
      && 0 <= s.h.joined[c] <= Upto(s, c) <= |s.h.log|
      && s.os.out[c] == Heard(s.h.log[s.h.joined[c]..Upto(s, c)], c)
    else s.os.out[c] == []
  }

  /** The history agrees with the threads on who is in the room. */
  ghost predicate InRoom(h: History, threads: map<nat, Thread>, conns: nat) {
    && (forall c {:trigger c in h.joined} {:trigger Present(threads, c)} ::
          c in h.joined && c !in h.left <==> Present(threads, c))
    && (forall c {:trigger c in h.left} :: c in h.left ==> c in h.joined)
    && (forall c {:trigger c in h.joined} :: c in h.joined ==> c < conns)
  }

  ghost predicate Membership(s: State) {
    && InRoom(s.h, s.threads, |s.os.out|)
    && (s.main.Admitting? && s.main.fd in s.os.conn ==> s.os.conn[s.main.fd] !in s.h.joined)
  }

  ghost predicate AllDelivered(s: State) {
    && Membership(s)
    && (forall c: nat {:trigger DeliveredTo(s, c)} :: c < |s.os.out| ==> DeliveredTo(s, c))
  }

  ghost predicate Sound(s: State) {
    Links(s) && Numbers(s.table, s.total, s.threads) && LockOk(s) && ScansOk(s.threads) && AllDelivered(s)
  }

  ghost predicate Start(s: State) {
    && (forall i {:trigger s.table[i]} :: 0 <= i < MAX_CLIENTS ==> !s.table[i].active && s.table[i].id == 0)
    && s.total == 0 && s.os == Os(map[], []) && s.holder == None && s.main == Accepting
    && s.threads == map[] && s.h == NO_HISTORY
  }

  lemma StartSound(s: State)
    requires Start(s)
    ensures Sound(s)
  {
  }
}
