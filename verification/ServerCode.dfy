/** What the servers have in the same words: the loops over the client table, and what the two
    single-threaded ones do with them. */
module ServerCode {
  import opened ChatRoom
  import opened ChatServer

  class Server {
    const clients: array<Slot>
    var totalConnections: int
    var os: Os

    ghost predicate Valid() { clients.Length == MAX_CLIENTS }

    ghost function Abs(): Chat
      reads this, clients
      requires Valid()
    {
      Chat(clients[..], totalConnections, os)
    }

    /** Static storage is zeroed, and main clears every is_active. */
    constructor ()
      ensures Valid() && fresh(clients)
      ensures Abs() == Chat(seq(MAX_CLIENTS, _ => Slot(0, 0, false)), 0, Os(map[], []))
    {
      clients := new Slot[MAX_CLIENTS](_ => Slot(0, 0, false));
      totalConnections, os := 0, Os(map[], []);
      new;
      assert clients[..] == seq(MAX_CLIENTS, _ => Slot(0, 0, false));
    }

    method BroadcastMsg(msg: Msg, senderFd: int)
      requires Valid()
      modifies this`os
      ensures os == SendFrom(clients[..], old(os), senderFd, msg, 0)
    {
      for i := 0 to MAX_CLIENTS
        invariant SendFrom(clients[..], os, senderFd, msg, i) == SendFrom(clients[..], old(os), senderFd, msg, 0)
      {
        if clients[i].active && clients[i].fd != senderFd {
          os := Send(os, clients[i].fd, msg);
        }
      }
    }

    /** Takes the first free slot, if there is one. */
    method AddClient(clientFd: int) returns (added: bool)
      requires Valid()
      modifies this`totalConnections, clients
      ensures var k := FirstFree(old(clients[..]), 0);
              && added == (k < MAX_CLIENTS)
              && totalConnections == old(totalConnections) + (if added then 1 else 0)
              && clients[..] == if added then old(clients[..])[k := Slot(clientFd, totalConnections, true)]
                                else old(clients[..])
    {
      added := false;
      for i := 0 to MAX_CLIENTS
        invariant !added && clients[..] == old(clients[..]) && totalConnections == old(totalConnections)
        invariant FirstFree(clients[..], i) == FirstFree(clients[..], 0)
      {
        if !clients[i].active {
          totalConnections := totalConnections + 1;
          clients[i] := Slot(clientFd, totalConnections, true);
          added := true;
          break;
        }
      }
    }

    method ClientId(clientFd: int) returns (id: int)
      requires Valid()
      ensures id == IdOf(clients[..], clientFd)
    {
      id := -1;
      for i := 0 to MAX_CLIENTS
        invariant id == -1 && Find(clients[..], clientFd, i) == Find(clients[..], clientFd, 0)
      {
        if clients[i].active && clients[i].fd == clientFd {
          id := clients[i].id;
          break;
        }
      }
    }

    method Deactivate(clientFd: int)
      requires Valid()
      modifies clients
      ensures clients[..] == Release(old(clients[..]), clientFd)
    {
      for j := 0 to MAX_CLIENTS
        invariant clients[..] == old(clients[..])
        invariant Find(clients[..], clientFd, j) == Find(clients[..], clientFd, 0)
      {
        if clients[j].active && clients[j].fd == clientFd {
          clients[j] := clients[j].(active := false);
          break;
        }
      }
    }

    /** Finds the client that accept returned a slot, or closes its descriptor. */
    method Register(fd: int) returns (added: bool)
      requires Valid()
      modifies this, clients
      ensures Abs() == Admit(old(Abs()), fd)
      ensures added == (FirstFree(old(clients[..]), 0) < MAX_CLIENTS)
    {
      ghost var ch := Abs();
      os := OpenFd(os, fd);
      added := AddClient(fd);
      if !added {
        os := CloseFd(os, fd);
      }
      assert clients[..] == Admit(ch, fd).table && totalConnections == Admit(ch, fd).total;
      assert os == Admit(ch, fd).os;
    }

    /** What a receive on fd leads to: look up the number, broadcast, perhaps close. */
    method Relay(fd: int, a: Answer)
      requires Valid() && (a.Data? || a.End? || a.Error?)
      modifies this, clients
      ensures Abs() == Handle(old(Abs()), ResultOf(false, fd, a))
    {
      var id := ClientId(fd);
      if a.Data? {
        BroadcastMsg(Said(id, CString(a.bytes)), fd);
      } else {
        if a.End? {
          BroadcastMsg(Left(id), fd);
        }
        os := CloseFd(os, fd);
        Deactivate(fd);
      }
    }
  }
}
