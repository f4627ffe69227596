/** The slot-scanning server is the abstract chat room, outcome by outcome and run by run. */
module ChatRefinement {
  import opened Seqs
  import opened ChatRoom
  import opened ChatServer

  type Conn = map<int, nat>

  ghost predicate HoldsConn(t: Table, conn: Conn, i: nat, c: nat)
    requires i < MAX_CLIENTS
  {
    t[i].active && t[i].fd in conn && conn[t[i].fd] == c
  }

  ghost predicate InTable(t: Table, conn: Conn, c: nat) {
    exists i :: 0 <= i < MAX_CLIENTS && HoldsConn(t, conn, i, c)
  }

  ghost predicate SlotsShown(t: Table, conn: Conn, members: map<nat, int>) {
    forall i {:trigger t[i]} :: 0 <= i < MAX_CLIENTS && t[i].active && t[i].fd in conn ==>
      conn[t[i].fd] in members && members[conn[t[i].fd]] == t[i].id
  }

  ghost predicate MembersShown(t: Table, conn: Conn, members: map<nat, int>) {
    forall c {:trigger InTable(t, conn, c)} :: c in members ==> InTable(t, conn, c)
  }

  ghost predicate Matches(t: Table, conn: Conn, members: map<nat, int>) {
    |members| == Count(Flags(t)) && SlotsShown(t, conn, members) && MembersShown(t, conn, members)
  }

  /** The table and the open descriptors, read as a room. */
  ghost predicate Shows(ch: Chat, r: Room) {
    r.boxes == ch.os.out && r.total == ch.total && Matches(ch.table, ch.os.conn, r.members)
  }

  /** What an outcome means for the room; a failed accept means nothing. */
  function EventOf(ch: Chat, o: Outcome): (e: seq<Event>)
    requires Inv(ch) && May(ch, o)
  {
    match o
    case Accepted(fd) => [Join]
    case AcceptFailed => []
    case Got(fd, data) => [Say(ch.os.conn[fd], CString(data))]
    case Eof(fd) => [Quit(ch.os.conn[fd])]
    case RecvFailed(fd) => [Drop(ch.os.conn[fd])]
  }

  // ---------------------------------------------------------------- broadcasting

  ghost predicate Reached(t: Table, conn: map<int, nat>, sender: int, c: nat, i: nat) {
    exists j :: i <= j < MAX_CLIENTS && t[j].active && t[j].fd != sender && t[j].fd in conn && conn[t[j].fd] == c
  }

  ghost predicate Sendable(t: Table, os: Os) {
    && SlotsDistinct(t) && ConnDistinct(os)
    && (forall i {:trigger t[i]} :: 0 <= i < MAX_CLIENTS && t[i].active ==>
          t[i].fd in os.conn && os.conn[t[i].fd] < |os.out|)
  }

  lemma ReachedStep(t: Table, os: Os, sender: int, c: nat, i: nat)
    requires Sendable(t, os) && i < MAX_CLIENTS
    ensures var here := t[i].active && t[i].fd != sender && os.conn[t[i].fd] == c;
            && (Reached(t, os.conn, sender, c, i) <==> here || Reached(t, os.conn, sender, c, i + 1))
            && !(here && Reached(t, os.conn, sender, c, i + 1))
  {
    var here := t[i].active && t[i].fd != sender && os.conn[t[i].fd] == c;
    if Reached(t, os.conn, sender, c, i + 1) {
      var j :| i + 1 <= j < MAX_CLIENTS && t[j].active && t[j].fd != sender && t[j].fd in os.conn
               && os.conn[t[j].fd] == c;
      assert t[i].active ==> t[i].fd != t[j].fd;
    }
  }

  /** A broadcast appends its message once to every connection in an active slot but the sender's. */
  lemma {:induction false} SendFromReaches(t: Table, os: Os, sender: int, m: Msg, i: nat, c: nat)
    requires Sendable(t, os) && i <= MAX_CLIENTS && c < |os.out|
    ensures var o := SendFrom(t, os, sender, m, i);
            && o.conn == os.conn && |o.out| == |os.out|
            && o.out[c] == os.out[c] + (if Reached(t, os.conn, sender, c, i) then [m] else [])
    decreases MAX_CLIENTS - i
  {
    if i < MAX_CLIENTS {
      var next := if t[i].active && t[i].fd != sender then Send(os, t[i].fd, m) else os;
      ReachedStep(t, os, sender, c, i);
      SendFromReaches(t, next, sender, m, i + 1, c);
    }
  }

  lemma InvSendable(ch: Chat)
    requires Inv(ch)
    ensures Sendable(ch.table, ch.os)
  {
    forall i | 0 <= i < MAX_CLIENTS && ch.table[i].active
      ensures ch.table[i].fd in ch.os.conn && ch.os.conn[ch.table[i].fd] < |ch.os.out| {
      assert ch.table[i].fd in ch.os.conn;
      assert ch.os.conn[ch.table[i].fd] < |ch.os.out|;
    }
  }

  lemma ReachedIsMember(ch: Chat, r: Room, sender: int, c: nat)
    requires Inv(ch) && Shows(ch, r) && sender in ch.os.conn
    ensures Reached(ch.table, ch.os.conn, sender, c, 0) <==> c in r.members && c != ch.os.conn[sender]
  {
    if c in r.members && c != ch.os.conn[sender] {
      assert InTable(ch.table, ch.os.conn, c);
      var i :| 0 <= i < MAX_CLIENTS && HoldsConn(ch.table, ch.os.conn, i, c);
      assert ch.table[i].active && ch.table[i].fd != sender;
    }
  }

  /** The looked-up number is the number of the connection the descriptor leads to. */
  lemma LookupIsNumber(ch: Chat, r: Room, fd: int)
    requires Inv(ch) && Shows(ch, r) && fd in ch.os.conn
    ensures ch.os.conn[fd] in r.members && IdOf(ch.table, fd) == r.members[ch.os.conn[fd]]
    ensures ch.os.conn[fd] < |ch.os.out|
  {
    assert ch.os.conn[fd] < |ch.os.out|;
    var k := Find(ch.table, fd, 0);
    assert ch.table[k].active && ch.table[k].fd == fd;
  }

  lemma BroadcastShows(ch: Chat, r: Room, fd: int, m: Msg)
    requires Inv(ch) && Shows(ch, r) && fd in ch.os.conn
    ensures var os := SendFrom(ch.table, ch.os, fd, m, 0);
            os.conn == ch.os.conn && Shows(ch.(os := os), Deliver(r, ch.os.conn[fd], m))
  {
    var os := SendFrom(ch.table, ch.os, fd, m, 0);
    var d := Deliver(r, ch.os.conn[fd], m);
    SendFromFrame(ch.table, ch.os, fd, m, 0);
    InvSendable(ch);
    forall c: nat | c < |os.out| ensures os.out[c] == d.boxes[c] {
      BroadcastBox(ch, r, fd, m, c);
    }
    SentShows(ch, r, os, d);
  }

  lemma SentShows(ch: Chat, r: Room, os: Os, d: Room)
    requires Shows(ch, r) && os.conn == ch.os.conn && d.members == r.members && d.total == r.total
    requires |os.out| == |d.boxes| && forall c {:trigger os.out[c]} :: 0 <= c < |os.out| ==> os.out[c] == d.boxes[c]
    ensures Shows(ch.(os := os), d)
  {
    assert os.out == d.boxes;
  }

  lemma BroadcastBox(ch: Chat, r: Room, fd: int, m: Msg, c: nat)
    requires Inv(ch) && Shows(ch, r) && fd in ch.os.conn && c < |ch.os.out| && Sendable(ch.table, ch.os)
    ensures |SendFrom(ch.table, ch.os, fd, m, 0).out| == |ch.os.out|
    ensures SendFrom(ch.table, ch.os, fd, m, 0).out[c] == Deliver(r, ch.os.conn[fd], m).boxes[c]
  {
    SendFromReaches(ch.table, ch.os, fd, m, 0, c);
    ReachedIsMember(ch, r, fd, c);
  }

  // ---------------------------------------------------------------- joining and leaving

  /** The scan finds a free slot exactly when the room is not full. */
  lemma FreeSlotIff(t: Table, conn: Conn, members: map<nat, int>)
    requires Matches(t, conn, members)
    ensures FirstFree(t, 0) < MAX_CLIENTS <==> |members| < MAX_CLIENTS
  {
    CountAllOrSome(Flags(t));
    var k := FirstFree(t, 0);
    if k < MAX_CLIENTS {
      assert !Flags(t)[k];
    } else {
      assert forall i :: 0 <= i < MAX_CLIENTS ==> Flags(t)[i];
    }
  }

  lemma MembersAreOld(ch: Chat, r: Room, c: nat)
    requires Inv(ch) && Shows(ch, r) && c in r.members
    ensures c < |ch.os.out|
  {
    assert InTable(ch.table, ch.os.conn, c);
    var i :| 0 <= i < MAX_CLIENTS && HoldsConn(ch.table, ch.os.conn, i, c);
    assert ch.os.conn[ch.table[i].fd] < |ch.os.out|;
  }

  lemma AdmitMatches(t: Table, conn: Conn, members: map<nat, int>, k: nat, fd: int, id: int, c: nat)
    requires Matches(t, conn, members) && k < MAX_CLIENTS && !t[k].active && fd !in conn && c !in members
    requires forall i :: 0 <= i < MAX_CLIENTS && t[i].active ==> t[i].fd in conn
    ensures Matches(t[k := Slot(fd, id, true)], conn[fd := c], members[c := id])
  {
    var t', conn', members' := t[k := Slot(fd, id, true)], conn[fd := c], members[c := id];
    assert Flags(t') == Flags(t)[k := true];
    CountUpdate(Flags(t), k, true);
    forall d | d in members' ensures InTable(t', conn', d) {
      if d == c {
        assert HoldsConn(t', conn', k, d);
      } else {
        assert InTable(t, conn, d);
        var i :| 0 <= i < MAX_CLIENTS && HoldsConn(t, conn, i, d);
        assert HoldsConn(t', conn', i, d);
      }
    }
  }

  lemma AdmitShows(ch: Chat, r: Room, fd: int)
    requires Inv(ch) && Shows(ch, r) && fd !in ch.os.conn
    ensures Shows(Admit(ch, fd), Step(r, Join))
  {
    FreeSlotIff(ch.table, ch.os.conn, r.members);
    if FirstFree(ch.table, 0) < MAX_CLIENTS {
      JoinShows(ch, r, fd);
    } else {
      FullShows(ch, r, fd);
    }
  }

  lemma JoinShows(ch: Chat, r: Room, fd: int)
    requires Inv(ch) && Shows(ch, r) && fd !in ch.os.conn
    requires FirstFree(ch.table, 0) < MAX_CLIENTS && |r.members| < MAX_CLIENTS
    ensures Shows(Admit(ch, fd), Step(r, Join))
  {
    var k := FirstFree(ch.table, 0);
    if |r.boxes| in r.members {
      MembersAreOld(ch, r, |r.boxes|);
    }
    AdmitMatches(ch.table, ch.os.conn, r.members, k, fd, r.total + 1, |r.boxes|);
  }

  lemma FullShows(ch: Chat, r: Room, fd: int)
    requires Shows(ch, r) && fd !in ch.os.conn
    requires FirstFree(ch.table, 0) == MAX_CLIENTS && |r.members| >= MAX_CLIENTS
    ensures Shows(Admit(ch, fd), Step(r, Join))
  {
    assert CloseFd(OpenFd(ch.os, fd), fd).conn == ch.os.conn;
  }

  lemma CloseMatches(t: Table, conn: Conn, members: map<nat, int>, fd: int)
    requires Matches(t, conn, members) && SlotsDistinct(t) && fd in conn && Find(t, fd, 0) < MAX_CLIENTS
    requires forall f, g :: f in conn && g in conn && f != g ==> conn[f] != conn[g]
    ensures Matches(Release(t, fd), conn - {fd}, members - {conn[fd]})
  {
    var k := Find(t, fd, 0);
    var t', conn', members' := Release(t, fd), conn - {fd}, members - {conn[fd]};
    assert Flags(t') == Flags(t)[k := false];
    CountUpdate(Flags(t), k, false);
    assert t[k].active && conn[fd] in members;
    assert members'.Keys == members.Keys - {conn[fd]};
    forall d | d in members' ensures InTable(t', conn', d) {
      assert InTable(t, conn, d);
      var i :| 0 <= i < MAX_CLIENTS && HoldsConn(t, conn, i, d);
      assert HoldsConn(t', conn', i, d);
    }
  }

  lemma CloseShows(ch: Chat, r: Room, fd: int)
    requires Inv(ch) && Shows(ch, r) && fd in ch.os.conn
    ensures Shows(Chat(Release(ch.table, fd), ch.total, CloseFd(ch.os, fd)),
                  r.(members := r.members - {ch.os.conn[fd]}))
  {
    assert ch.os.conn[fd] < |ch.os.out|;
    CloseMatches(ch.table, ch.os.conn, r.members, fd);
  }

  // ---------------------------------------------------------------- refinement

  function StepAll(r: Room, es: seq<Event>): Room
    requires |es| <= 1 && forall e :: e in es ==> Allowed(r, e)
  {
    if es == [] then r else Step(r, es[0])
  }

  lemma SayRefines(ch: Chat, r: Room, fd: int, data: Bytes)
    requires Inv(ch) && Shows(ch, r) && fd in ch.os.conn
    ensures Allowed(r, Say(ch.os.conn[fd], CString(data)))
    ensures Shows(Handle(ch, Got(fd, data)), Step(r, Say(ch.os.conn[fd], CString(data))))
  {
    LookupIsNumber(ch, r, fd);
    BroadcastShows(ch, r, fd, Said(IdOf(ch.table, fd), CString(data)));
  }

  lemma SentInv(ch: Chat, fd: int, m: Msg)
    requires Inv(ch)
    ensures Inv(ch.(os := SendFrom(ch.table, ch.os, fd, m, 0)))
  {
    SendFromFrame(ch.table, ch.os, fd, m, 0);
  }

  lemma QuitRefines(ch: Chat, r: Room, fd: int)
    requires Inv(ch) && Shows(ch, r) && fd in ch.os.conn
    ensures Allowed(r, Quit(ch.os.conn[fd]))
    ensures Shows(Handle(ch, Eof(fd)), Step(r, Quit(ch.os.conn[fd])))
  {
    var m := Left(IdOf(ch.table, fd));
    LookupIsNumber(ch, r, fd);
    BroadcastShows(ch, r, fd, m);
    var sent, told := ch.(os := SendFrom(ch.table, ch.os, fd, m, 0)), Deliver(r, ch.os.conn[fd], m);
    SentInv(ch, fd, m);
    CloseShows(sent, told, fd);
    QuitParts(ch, r, fd, m);
  }

  /** The end of a stream: announce, then close. */
  lemma QuitParts(ch: Chat, r: Room, fd: int, m: Msg)
    requires fd in ch.os.conn && ch.os.conn[fd] in r.members
    requires m == Left(IdOf(ch.table, fd)) && IdOf(ch.table, fd) == r.members[ch.os.conn[fd]]
    ensures var os, told := SendFrom(ch.table, ch.os, fd, m, 0), Deliver(r, ch.os.conn[fd], m);
            && Handle(ch, Eof(fd)) == Chat(Release(ch.table, fd), ch.total, CloseFd(os, fd))
            && Step(r, Quit(ch.os.conn[fd])) == told.(members := told.members - {ch.os.conn[fd]})
  {
  }

  lemma DropRefines(ch: Chat, r: Room, fd: int)
    requires Inv(ch) && Shows(ch, r) && fd in ch.os.conn
    ensures Allowed(r, Drop(ch.os.conn[fd]))
    ensures Shows(Handle(ch, RecvFailed(fd)), Step(r, Drop(ch.os.conn[fd])))
  {
    LookupIsNumber(ch, r, fd);
    CloseShows(ch, r, fd);
  }

  /** One outcome, handled by scanning slots, is one step of the room. */
  lemma HandleRefines(ch: Chat, r: Room, o: Outcome)
    requires Inv(ch) && Shows(ch, r) && May(ch, o)
    ensures forall e :: e in EventOf(ch, o) ==> Allowed(r, e)
    ensures Shows(Handle(ch, o), StepAll(r, EventOf(ch, o)))
  {
    match o
    case Accepted(fd) => AdmitShows(ch, r, fd);
    case AcceptFailed =>
    case Got(fd, data) => SayRefines(ch, r, fd, data);
    case Eof(fd) => QuitRefines(ch, r, fd);
    case RecvFailed(fd) => DropRefines(ch, r, fd);
  }
}
