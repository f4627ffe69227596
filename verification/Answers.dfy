/**
 What the single-threaded servers do with each answer of accept and recv: which slots
 and descriptors change, and what every connection is sent.
 */
module Answers {
  import opened Seqs
  import opened ChatRoom
  import opened ChatServer
  import opened ChatRefinement

  /** Every connection that an active slot other than the sender's leads to is sent m, and no other. */
  ghost predicate AllTold(ch: Chat, out: seq<seq<Msg>>, sender: int, m: Msg) {
    && |out| == |ch.os.out|
    && forall c {:trigger out[c]} :: 0 <= c < |out| ==>
         out[c] == ch.os.out[c] + (if Reached(ch.table, ch.os.conn, sender, c, 0) then [m] else [])
  }

  /** The active slot with fd is given up, the others stay as they are. */
  ghost predicate SlotGivenUp(t: Table, t': Table, fd: int) {
    forall i {:trigger t'[i]} :: 0 <= i < MAX_CLIENTS ==>
      t'[i] == if t[i].active && t[i].fd == fd then Slot(fd, t[i].id, false) else t[i]
  }

  /** The client in the active slot with fd has number id. */
  ghost predicate HasNumber(t: Table, fd: int, id: int) {
    exists i :: 0 <= i < MAX_CLIENTS && t[i].active && t[i].fd == fd && t[i].id == id
  }

  /** Data is relayed, the end of the stream is announced, an error is not; after the end and after an
      error the client is gone. */
  ghost predicate RecvAnswered(ch: Chat, r: Chat, fd: int, a: Answer) {
    && r.total == ch.total
    && match a
       case Data(bytes) =>
         && r.table == ch.table && r.os.conn == ch.os.conn
         && (exists id :: HasNumber(ch.table, fd, id) && AllTold(ch, r.os.out, fd, Said(id, CString(bytes))))
       case End =>
         && SlotGivenUp(ch.table, r.table, fd) && r.os.conn == ch.os.conn - {fd}
         && (exists id :: HasNumber(ch.table, fd, id) && AllTold(ch, r.os.out, fd, Left(id)))
       case _ =>
         SlotGivenUp(ch.table, r.table, fd) && r.os.conn == ch.os.conn - {fd} && r.os.out == ch.os.out
  }

  ghost predicate LowestFreeSlot(t: Table, k: nat) {
    k < MAX_CLIENTS && !t[k].active && forall j :: 0 <= j < k ==> t[j].active
  }

  /** A new descriptor opens a new connection that was sent nothing; it gets the next number and the
      lowest free slot, or is closed at once when there is no free slot. */
  ghost predicate AcceptAnswered(ch: Chat, r: Chat, a: Answer) {
    match a
    case NewFd(fd) =>
      && r.os.out == ch.os.out + [[]]
      && if exists i :: 0 <= i < MAX_CLIENTS && !ch.table[i].active then
           && r.total == ch.total + 1 && r.os.conn == ch.os.conn[fd := |ch.os.out|]
           && (exists k: nat :: LowestFreeSlot(ch.table, k) && r.table == ch.table[k := Slot(fd, ch.total + 1, true)])
         else r.total == ch.total && r.os.conn == ch.os.conn && r.table == ch.table
    case _ => r == ch
  }

  lemma NumberIs(ch: Chat, fd: int)
    requires Inv(ch) && fd in ch.os.conn
    ensures HasNumber(ch.table, fd, IdOf(ch.table, fd))
  {
    assert ch.os.conn[fd] < |ch.os.out|;
    assert ch.table[Find(ch.table, fd, 0)].active;
  }

  lemma BroadcastTells(ch: Chat, fd: int, m: Msg)
    requires Inv(ch)
    ensures SendFrom(ch.table, ch.os, fd, m, 0).conn == ch.os.conn
    ensures AllTold(ch, SendFrom(ch.table, ch.os, fd, m, 0).out, fd, m)
  {
    InvSendable(ch);
    SendFromFrame(ch.table, ch.os, fd, m, 0);
    forall c: nat | c < |ch.os.out|
      ensures SendFrom(ch.table, ch.os, fd, m, 0).out[c] ==
              ch.os.out[c] + (if Reached(ch.table, ch.os.conn, fd, c, 0) then [m] else []) {
      SendFromReaches(ch.table, ch.os, fd, m, 0, c);
    }
  }

  lemma ReleaseGivesUp(ch: Chat, fd: int)
    requires Inv(ch)
    ensures SlotGivenUp(ch.table, Release(ch.table, fd), fd)
  {
    var k := Find(ch.table, fd, 0);
    forall i | 0 <= i < MAX_CLIENTS && ch.table[i].active && ch.table[i].fd == fd ensures i == k {
    }
  }

  /** What follows from an answer of recv. */
  lemma RecvEffect(ch: Chat, fd: int, a: Answer)
    requires Inv(ch) && fd in ch.os.conn && (a.Data? || a.End? || a.Error?)
    ensures RecvAnswered(ch, Handle(ch, ResultOf(false, fd, a)), fd, a)
  {
    match a
    case Data(bytes) => DataEffect(ch, fd, bytes);
    case End => EndEffect(ch, fd);
    case _ => ReleaseGivesUp(ch, fd);
  }

  lemma DataEffect(ch: Chat, fd: int, bytes: Bytes)
    requires Inv(ch) && fd in ch.os.conn
    ensures RecvAnswered(ch, Handle(ch, ResultOf(false, fd, Data(bytes))), fd, Data(bytes))
  {
    NumberIs(ch, fd);
    BroadcastTells(ch, fd, Said(IdOf(ch.table, fd), CString(bytes)));
  }

  lemma EndEffect(ch: Chat, fd: int)
    requires Inv(ch) && fd in ch.os.conn
    ensures RecvAnswered(ch, Handle(ch, ResultOf(false, fd, End)), fd, End)
  {
    var m := Left(IdOf(ch.table, fd));
    NumberIs(ch, fd);
    ReleaseGivesUp(ch, fd);
    BroadcastTells(ch, fd, m);
    EndIs(ch, fd, m);
  }

  lemma EndIs(ch: Chat, fd: int, m: Msg)
    requires m == Left(IdOf(ch.table, fd))
    ensures Handle(ch, ResultOf(false, fd, End)) ==
            Chat(Release(ch.table, fd), ch.total, CloseFd(SendFrom(ch.table, ch.os, fd, m, 0), fd))
  {
  }

  /** What follows from an answer of accept. */
  lemma AcceptEffect(ch: Chat, fd: int, a: Answer)
    requires Inv(ch) && (a.NoFd? || (a.NewFd? && a.fd !in ch.os.conn))
    ensures AcceptAnswered(ch, Handle(ch, ResultOf(true, fd, a)), a)
  {
    if a.NewFd? {
      RoomIff(ch.table);
      if FirstFree(ch.table, 0) < MAX_CLIENTS {
        assert LowestFreeSlot(ch.table, FirstFree(ch.table, 0));
      } else {
        NoRoom(ch, a.fd);
      }
    }
  }

  lemma RoomIff(t: Table)
    ensures FirstFree(t, 0) < MAX_CLIENTS <==> exists i :: 0 <= i < MAX_CLIENTS && !t[i].active
  {
  }

  lemma NoRoom(ch: Chat, fd: int)
    requires FirstFree(ch.table, 0) == MAX_CLIENTS && fd !in ch.os.conn
    ensures Admit(ch, fd) == ch.(os := ch.os.(out := ch.os.out + [[]]))
  {
    assert ch.os.conn[fd := |ch.os.out|] - {fd} == ch.os.conn;
  }
}
