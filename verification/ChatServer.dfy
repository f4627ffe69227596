/**
 The client table the servers share, the operating system's descriptors, and what one
 accept or receive outcome does to both. Descriptors are reused; connection numbers,
 which only the model has, are not.
 */
module ChatServer {
  import opened Seqs
  import opened ChatRoom

  datatype Slot = Slot(fd: int, id: int, active: bool)
  type Table = t: seq<Slot> | |t| == MAX_CLIENTS witness seq(MAX_CLIENTS, _ => Slot(0, 0, false))

  /** conn maps an open client descriptor to its connection, out[c] is what was sent to connection c. */
  datatype Os = Os(conn: map<int, nat>, out: seq<seq<Msg>>)

  datatype Chat = Chat(table: Table, total: int, os: Os)

  /** What the kernel hands to the server. */
  datatype Outcome =
    | Accepted(fd: int)
    | AcceptFailed
    | Got(fd: int, data: Bytes)
    | Eof(fd: int)
    | RecvFailed(fd: int)

  /** What accept or recv returns. */
  datatype Answer = NewFd(fd: int) | NoFd | Data(bytes: Bytes) | End | Error

  /** The answer of an accept, or of a recv on fd, as an outcome. */
  function ResultOf(accepting: bool, fd: int, a: Answer): Outcome {
    if accepting then (if a.NewFd? then Accepted(a.fd) else AcceptFailed)
    else match a
      case Data(bytes) => Got(fd, bytes)
      case End => Eof(fd)
      case _ => RecvFailed(fd)
  }

  /** accept returns a descriptor that is not open, or fails; recv returns data, the end or an error. */
  ghost predicate KernelMay(ch: Chat, listener: int, accepting: bool, a: Answer) {
    if accepting then a.NoFd? || (a.NewFd? && a.fd !in ch.os.conn && a.fd != listener)
    else a.Data? || a.End? || a.Error?
  }

  // ---------------------------------------------------------------- the operating system

  function OpenFd(os: Os, fd: int): Os {
    Os(os.conn[fd := |os.out|], os.out + [[]])
  }

  function CloseFd(os: Os, fd: int): Os {
    os.(conn := os.conn - {fd})
  }

  /** Sending on a closed descriptor fails and changes nothing. */
  function Send(os: Os, fd: int, m: Msg): Os {
    if fd in os.conn && os.conn[fd] < |os.out| then
      os.(out := os.out[os.conn[fd] := os.out[os.conn[fd]] + [m]])
    else os
  }

  // ---------------------------------------------------------------- the table

  /** The first slot from i on that is free; MAX_CLIENTS if there is none. */
  function FirstFree(t: Table, i: nat): (k: nat)
    requires i <= MAX_CLIENTS
    ensures i <= k <= MAX_CLIENTS
    ensures k < MAX_CLIENTS ==> !t[k].active
    ensures forall j :: i <= j < k ==> t[j].active
    decreases MAX_CLIENTS - i
  {
    if i == MAX_CLIENTS || !t[i].active then i else FirstFree(t, i + 1)
  }

  /** The first active slot from i on that holds fd; MAX_CLIENTS if there is none. */
  function Find(t: Table, fd: int, i: nat): (k: nat)
    requires i <= MAX_CLIENTS
    ensures i <= k <= MAX_CLIENTS
    ensures k < MAX_CLIENTS ==> t[k].active && t[k].fd == fd
    ensures forall j :: i <= j < k ==> !(t[j].active && t[j].fd == fd)
    decreases MAX_CLIENTS - i
  {
    if i == MAX_CLIENTS || (t[i].active && t[i].fd == fd) then i else Find(t, fd, i + 1)
  }

  function IdOf(t: Table, fd: int): int {
    var k := Find(t, fd, 0);
    if k < MAX_CLIENTS then t[k].id else -1
  }

  function Release(t: Table, fd: int): Table {
    var k := Find(t, fd, 0);
    if k < MAX_CLIENTS then t[k := t[k].(active := false)] else t
  }

  /** The sends of a broadcast, slot by slot from i on. */
  function SendFrom(t: Table, os: Os, sender: int, m: Msg, i: nat): Os
    requires i <= MAX_CLIENTS
    decreases MAX_CLIENTS - i
  {
    if i == MAX_CLIENTS then os
    else SendFrom(t, if t[i].active && t[i].fd != sender then Send(os, t[i].fd, m) else os, sender, m, i + 1)
  }

  /** The text of a message stops at the first zero byte, as "%s" does. */
  function CString(data: Bytes): (s: Bytes)
    ensures s <= data && 0 !in s
    ensures s == data || data[|s|] == 0
  {
    if data == [] || data[0] == 0 then [] else [data[0]] + CString(data[1..])
  }

  // ---------------------------------------------------------------- one outcome

  function Admit(ch: Chat, fd: int): Chat {
    var k := FirstFree(ch.table, 0);
    var os := OpenFd(ch.os, fd);
    if k < MAX_CLIENTS then Chat(ch.table[k := Slot(fd, ch.total + 1, true)], ch.total + 1, os)
    else ch.(os := CloseFd(os, fd))
  }

  function Handle(ch: Chat, o: Outcome): Chat {
    match o
    case Accepted(fd) => Admit(ch, fd)
    case AcceptFailed => ch
    case Got(fd, data) =>
      ch.(os := SendFrom(ch.table, ch.os, fd, Said(IdOf(ch.table, fd), CString(data)), 0))
    case Eof(fd) =>
      var os := SendFrom(ch.table, ch.os, fd, Left(IdOf(ch.table, fd)), 0);
      Chat(Release(ch.table, fd), ch.total, CloseFd(os, fd))
    case RecvFailed(fd) => Chat(Release(ch.table, fd), ch.total, CloseFd(ch.os, fd))
  }

  // ---------------------------------------------------------------- the invariant

  function Flags(t: Table): seq<bool> { seq(MAX_CLIENTS, i requires 0 <= i < MAX_CLIENTS => t[i].active) }

  ghost predicate SlotsOpen(ch: Chat) {
    forall i {:trigger ch.table[i]} :: 0 <= i < MAX_CLIENTS && ch.table[i].active ==>
      ch.table[i].fd in ch.os.conn && 1 <= ch.table[i].id <= ch.total
  }

  ghost predicate SlotsDistinct(t: Table) {
    forall i, j {:trigger t[i], t[j]} :: 0 <= i < j < MAX_CLIENTS && t[i].active && t[j].active ==>
      t[i].fd != t[j].fd && t[i].id != t[j].id
  }

  ghost predicate OpenHasSlot(ch: Chat) {
    forall fd {:trigger ch.os.conn[fd]} :: fd in ch.os.conn ==>
      ch.os.conn[fd] < |ch.os.out| && Find(ch.table, fd, 0) < MAX_CLIENTS
  }

  ghost predicate ConnDistinct(os: Os) {
    forall f, g {:trigger os.conn[f], os.conn[g]} ::
      f in os.conn && g in os.conn && f != g ==> os.conn[f] != os.conn[g]
  }

  /** Active slots hold distinct open descriptors and distinct numbers; every open client descriptor
      is in an active slot; descriptors lead to distinct connections. */
  ghost predicate Inv(ch: Chat) {
    && ch.total >= 0 && SlotsOpen(ch) && SlotsDistinct(ch.table) && OpenHasSlot(ch) && ConnDistinct(ch.os)
  }

  /** The kernel reports on open descriptors, and accept returns a descriptor that is not open. */
  ghost predicate May(ch: Chat, o: Outcome) {
    match o
    case Accepted(fd) => fd !in ch.os.conn
    case AcceptFailed => true
    case _ => o.fd in ch.os.conn
  }

  lemma AdmitSlots(ch: Chat, fd: int)
    requires SlotsOpen(ch) && SlotsDistinct(ch.table) && ch.total >= 0 && fd !in ch.os.conn
    ensures SlotsOpen(Admit(ch, fd)) && SlotsDistinct(Admit(ch, fd).table)
  {
    var k := FirstFree(ch.table, 0);
    if k < MAX_CLIENTS {
      TakeSlotOpen(ch, fd, k);
      TakeSlotDistinct(ch, fd, k);
      assert Admit(ch, fd) == Chat(ch.table[k := Slot(fd, ch.total + 1, true)], ch.total + 1, OpenFd(ch.os, fd));
    } else {
      assert CloseFd(OpenFd(ch.os, fd), fd).conn == ch.os.conn;
    }
  }

  lemma TakeSlotOpen(ch: Chat, fd: int, k: nat)
    requires SlotsOpen(ch) && ch.total >= 0 && k < MAX_CLIENTS
    ensures SlotsOpen(Chat(ch.table[k := Slot(fd, ch.total + 1, true)], ch.total + 1, OpenFd(ch.os, fd)))
  {
  }

  lemma TakeSlotDistinct(ch: Chat, fd: int, k: nat)
    requires SlotsOpen(ch) && SlotsDistinct(ch.table) && fd !in ch.os.conn && k < MAX_CLIENTS
    ensures SlotsDistinct(ch.table[k := Slot(fd, ch.total + 1, true)])
  {
    forall i | 0 <= i < MAX_CLIENTS && ch.table[i].active
      ensures ch.table[i].fd != fd && ch.table[i].id <= ch.total {
    }
  }

  lemma AdmitOpen(ch: Chat, fd: int)
    requires Inv(ch) && fd !in ch.os.conn
    ensures OpenHasSlot(Admit(ch, fd)) && ConnDistinct(Admit(ch, fd).os)
  {
    var r, k := Admit(ch, fd), FirstFree(ch.table, 0);
    forall g | g in r.os.conn ensures r.os.conn[g] < |r.os.out| && Find(r.table, g, 0) < MAX_CLIENTS {
      if g == fd {
        assert r.table[k].active && r.table[k].fd == g;
      } else {
        assert r.os.conn[g] == ch.os.conn[g] && ch.os.conn[g] < |ch.os.out|;
        var j := Find(ch.table, g, 0);
        assert r.table[j] == ch.table[j];
      }
    }
    assert forall g :: g in r.os.conn && g != fd ==> g in ch.os.conn && r.os.conn[g] == ch.os.conn[g] < |ch.os.out|;
  }

  lemma AdmitInv(ch: Chat, fd: int)
    requires Inv(ch) && fd !in ch.os.conn
    ensures Inv(Admit(ch, fd))
  {
    AdmitSlots(ch, fd);
    AdmitOpen(ch, fd);
  }

  lemma SendFromFrame(t: Table, os: Os, sender: int, m: Msg, i: nat)
    requires i <= MAX_CLIENTS
    ensures SendFrom(t, os, sender, m, i).conn == os.conn && |SendFrom(t, os, sender, m, i).out| == |os.out|
    decreases MAX_CLIENTS - i
  {
    if i < MAX_CLIENTS {
      SendFromFrame(t, if t[i].active && t[i].fd != sender then Send(os, t[i].fd, m) else os, sender, m, i + 1);
    }
  }

  lemma CloseInv(ch: Chat, fd: int)
    requires Inv(ch) && fd in ch.os.conn
    ensures Inv(Chat(Release(ch.table, fd), ch.total, CloseFd(ch.os, fd)))
  {
    var k := Find(ch.table, fd, 0);
    assert ch.os.conn[fd] < |ch.os.out|;
    var r := Chat(Release(ch.table, fd), ch.total, CloseFd(ch.os, fd));
    forall g | g in r.os.conn ensures Find(r.table, g, 0) < MAX_CLIENTS {
      assert ch.os.conn[g] < |ch.os.out|;
      var j := Find(ch.table, g, 0);
      assert r.table[j] == ch.table[j];
    }
  }

  lemma HandleInv(ch: Chat, o: Outcome)
    requires Inv(ch) && May(ch, o)
    ensures Inv(Handle(ch, o))
  {
    match o
    case Accepted(fd) => AdmitInv(ch, fd);
    case AcceptFailed =>
    case Got(fd, data) => SendFromFrame(ch.table, ch.os, fd, Said(IdOf(ch.table, fd), CString(data)), 0);
    case Eof(fd) =>
      var m := Left(IdOf(ch.table, fd));
      SendFromFrame(ch.table, ch.os, fd, m, 0);
      CloseInv(ch.(os := SendFrom(ch.table, ch.os, fd, m, 0)), fd);
    case RecvFailed(fd) => CloseInv(ch, fd);
  }

  /** Which descriptors are open after an outcome, and where they lead. */
  function ConnAfter(ch: Chat, o: Outcome): map<int, nat> {
    match o
    case Accepted(fd) =>
      if FirstFree(ch.table, 0) < MAX_CLIENTS then ch.os.conn[fd := |ch.os.out|] else ch.os.conn - {fd}
    case AcceptFailed => ch.os.conn
    case Got(_, _) => ch.os.conn
    case Eof(fd) => ch.os.conn - {fd}
    case RecvFailed(fd) => ch.os.conn - {fd}
  }

  lemma HandleConn(ch: Chat, o: Outcome)
    ensures Handle(ch, o).os.conn == ConnAfter(ch, o)
  {
    match o
    case Accepted(fd) => assert ch.os.conn[fd := |ch.os.out|] - {fd} == ch.os.conn - {fd};
    case Got(fd, data) => SendFromFrame(ch.table, ch.os, fd, Said(IdOf(ch.table, fd), CString(data)), 0);
    case Eof(fd) => SendFromFrame(ch.table, ch.os, fd, Left(IdOf(ch.table, fd)), 0);
    case _ =>
  }
}
