/** The threaded program over its shared table: each method is one step that runs without interruption. */
module ThreadedServer {
  import opened Seqs
  import opened ChatRoom
  import opened ChatServer
  import opened ServerCode
  import opened Threads
  import opened ThreadsTheorems

  class ThreadedServer {
    const server: Server                  // clients, total_connections and the open sockets
    var holder: Option<nat>               // client_mutex, while a broadcast holds it
    var main: Main
    var threads: map<nat, Thread>         // the handlers' local variables
    ghost var history: History

    ghost function Abs(): State
      reads this, server, server.clients
      requires server.Valid()
    {
      State(server.clients[..], server.totalConnections, server.os, holder, main, threads, history)
    }

    constructor ()
      ensures server.Valid() && Start(Abs()) && fresh(server) && fresh(server.clients)
    {
      server := new Server();
      holder, main, threads, history := None, Accepting, map[], NO_HISTORY;
      new;
      assert server.clients[..] == server.Abs().table;
    }

    /** accept returned fd. */
    method AcceptConnection(fd: int)
      requires server.Valid() && Enabled(Abs(), Accept(fd))
      modifies this, server
      ensures Abs() == Next(old(Abs()), Accept(fd))
    {
      server.os := OpenFd(server.os, fd);
      main := Admitting(fd);
    }

    /** The accept loop's critical section: a slot for the new client, if one is free. */
    method AdmitOne()
      requires server.Valid() && Enabled(Abs(), Admit)
      modifies this, server, server.clients
      ensures Abs() == Next(old(Abs()), Admit)
    {
      var fd := main.fd;
      var k := FirstFree(server.clients[..], 0);       // bookkeeping: which slot AddClient will take
      var added := server.AddClient(fd);
      if added {
        var c := server.os.conn[fd];
        threads := threads[c := Thread(fd, k, server.totalConnections, 0, false, Starting)];
        history := history.(joined := history.joined[c := |history.log|]);
        main := Spawning(c);
      } else {
        main := Rejecting(fd);
      }
    }

    /** One slot of the unlocked search for the client's number. */
    method ScanSlotOnce(c: nat)
      requires server.Valid() && Enabled(Abs(), ScanSlot(c))
      modifies this
      ensures Abs() == Next(old(Abs()), ScanSlot(c))
    {
      var th := threads[c];
      var i := th.phase.i;
      if i >= MAX_CLIENTS {
        th := th.(id := if th.phase.found.Some? then th.phase.found.value else 0, phase := Receiving);
      } else if server.clients[i].fd == th.fd {
        th := th.(phase := Scan(i + 1, Some(server.clients[i].id)), misled := th.misled || i > th.slot);
      } else {
        th := th.(phase := Scan(i + 1, th.phase.found));
      }
      threads := threads[c := th];
    }

    /** One slot of broadcast_msg, inside the mutex. */
    method SendSlotOnce(c: nat)
      requires server.Valid() && Enabled(Abs(), SendSlot(c))
      modifies this, server
      ensures Abs() == Next(old(Abs()), SendSlot(c))
    {
      var p := threads[c].phase;
      if server.clients[p.i].active && server.clients[p.i].fd != threads[c].fd {
        server.os := Send(server.os, server.clients[p.i].fd, p.msg);
      }
      threads := threads[c := threads[c].(phase := Sending(p.msg, p.i + 1, p.last))];
    }

    /** The handler's last critical section. */
    method ClearOwnSlot(c: nat)
      requires server.Valid() && Enabled(Abs(), Clear(c))
      modifies this, server.clients
      ensures Abs() == Next(old(Abs()), Clear(c))
    {
      server.Deactivate(threads[c].fd);
      threads := threads[c := threads[c].(phase := Closing)];
      history := history.(left := history.left[c := |history.log|]);
    }

    /** The steps that touch no slot. */
    method LocalStep(m: Move)
      requires server.Valid() && Enabled(Abs(), m)
      requires m.Reject? || m.Spawn? || m.Receive? || m.Lock? || m.Unlock? || m.Close?
      modifies this, server
      ensures Abs() == Next(old(Abs()), m)
    {
      match m
      case Reject =>
        server.os := CloseFd(server.os, main.fd);
        main := Accepting;
      case Spawn =>
        threads := threads[main.c := threads[main.c].(phase := Scan(0, None))];
        main := Accepting;
      case Receive(c, a) =>
        threads := threads[c := threads[c].(phase := AfterReceive(threads[c], a))];
      case Lock(c) =>
        var p := threads[c].phase;
        threads := threads[c := threads[c].(phase := Sending(p.msg, 0, p.last))];
        holder := Some(c);
        history := history.(log := history.log + [Entry(c, p.msg)]);
      case Unlock(c) =>
        threads := threads[c := threads[c].(phase := if threads[c].phase.last then Leaving else Receiving)];
        holder := None;
      case Close(c) =>
        server.os := CloseFd(server.os, threads[c].fd);
        threads := threads - {c};
    }

    /** Any interleaving of the threads' steps. */
    method Interleave(ms: seq<Move>)
      requires server.Valid() && Sound(Abs()) && LegalMoves(Abs(), ms)
      modifies this, server, server.clients
      ensures Sound(Abs()) && Abs() == RunMoves(old(Abs()), ms)
    {
      RunSound(Abs(), ms);
      assert ms[0..] == ms;
      for n := 0 to |ms|
        invariant LegalMoves(Abs(), ms[n..]) && RunMoves(Abs(), ms[n..]) == RunMoves(old(Abs()), ms)
      {
        assert ms[n..][0] == ms[n] && ms[n..][1..] == ms[n + 1..];
        match ms[n]
        case Accept(fd) => AcceptConnection(fd);
        case Admit => AdmitOne();
        case ScanSlot(c) => ScanSlotOnce(c);
        case SendSlot(c) => SendSlotOnce(c);
        case Clear(c) => ClearOwnSlot(c);
        case m => LocalStep(m);
      }
    }
  }
}
