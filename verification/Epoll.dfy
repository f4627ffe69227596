/** The epoll server: batches of ready descriptors, each handled in turn. */
module Epoll {
  import opened ChatRoom
  import opened ChatServer
  import opened ChatRuns
  import opened Answers
  import opened ServerCode

  const MAX_EVENTS: nat := 10

  function OutcomeOf(listener: int, fd: int, a: Answer): Outcome {
    ResultOf(fd == listener, fd, a)
  }

  /** accept answers for the listener, recv for all others. */
  ghost predicate AnswerOk(ch: Chat, listener: int, fd: int, a: Answer) {
    KernelMay(ch, listener, fd == listener, a)
  }

  /** Kernel and loop take turns over one batch. Nothing here says the batch's descriptors stay open. */
  ghost predicate AnswersOk(ch: Chat, listener: int, fds: seq<int>, answers: seq<Answer>)
    decreases |fds|
  {
    |answers| == |fds| &&
    (fds == [] || (AnswerOk(ch, listener, fds[0], answers[0]) &&
                   AnswersOk(Handle(ch, OutcomeOf(listener, fds[0], answers[0])), listener, fds[1..], answers[1..])))
  }

  function Outcomes(listener: int, fds: seq<int>, answers: seq<Answer>): (os: seq<Outcome>)
    requires |answers| == |fds|
    ensures |os| == |fds|
  {
    if fds == [] then []
    else [OutcomeOf(listener, fds[0], answers[0])] + Outcomes(listener, fds[1..], answers[1..])
  }

  ghost predicate AllDistinct(fds: seq<int>) {
    forall i, j :: 0 <= i < j < |fds| ==> fds[i] != fds[j]
  }

  /** The rest of a batch names the listener or descriptors that still lead to the connections they
      led to when the batch was returned. */
  ghost predicate StillMeant(ch: Chat, ch0: Chat, listener: int, fds: seq<int>) {
    forall f :: f in fds && f != listener ==>
      f in ch.os.conn && f in ch0.os.conn && ch.os.conn[f] == ch0.os.conn[f]
  }

  /** Handling one event leaves the meaning of the others alone, even if it closes a descriptor or
      accepts one. */
  lemma OneEvent(ch: Chat, ch0: Chat, listener: int, fds: seq<int>, a: Answer)
    requires Inv(ch) && listener !in ch.os.conn && fds != [] && AllDistinct(fds)
    requires StillMeant(ch, ch0, listener, fds) && AnswerOk(ch, listener, fds[0], a)
    ensures var o := OutcomeOf(listener, fds[0], a);
            && May(ch, o) && Inv(Handle(ch, o)) && listener !in Handle(ch, o).os.conn
            && AllDistinct(fds[1..]) && StillMeant(Handle(ch, o), ch0, listener, fds[1..])
  {
    var o := OutcomeOf(listener, fds[0], a);
    assert fds[0] in fds;
    RestDistinct(fds);
    HandleInv(ch, o);
    HandleConn(ch, o);
    forall f | f in fds[1..] && f != listener
      ensures f in Handle(ch, o).os.conn && Handle(ch, o).os.conn[f] == ch.os.conn[f] {
      OthersStayOpen(ch, listener, fds[0], a, f);
    }
  }

  lemma RestDistinct(fds: seq<int>)
    requires fds != [] && AllDistinct(fds)
    ensures AllDistinct(fds[1..]) && forall f :: f in fds[1..] ==> f in fds && f != fds[0]
  {
  }

  /** An event closes or opens no descriptor but its own and the one accept returns. */
  lemma OthersStayOpen(ch: Chat, listener: int, fd: int, a: Answer, f: int)
    requires AnswerOk(ch, listener, fd, a) && f in ch.os.conn && f != fd
    ensures var conn := ConnAfter(ch, OutcomeOf(listener, fd, a)); f in conn && conn[f] == ch.os.conn[f]
  {
  }

  /** Batch safety: when the i-th event is reached, it still means what it meant when epoll_wait
      returned; and the whole batch is a legal sequence of outcomes. */
  lemma {:induction false} BatchSafe(ch: Chat, ch0: Chat, listener: int, fds: seq<int>, answers: seq<Answer>)
    requires Inv(ch) && listener !in ch.os.conn && AllDistinct(fds)
    requires StillMeant(ch, ch0, listener, fds) && AnswersOk(ch, listener, fds, answers)
    ensures Legal(ch, Outcomes(listener, fds, answers))
    ensures listener !in HandleAll(ch, Outcomes(listener, fds, answers)).os.conn
    ensures forall i {:trigger fds[..i]} :: 0 <= i <= |fds| ==>
              StillMeant(HandleAll(ch, Outcomes(listener, fds[..i], answers[..i])), ch0, listener, fds[i..])
    decreases |fds|
  {
    if fds != [] {
      var o := OutcomeOf(listener, fds[0], answers[0]);
      OneEvent(ch, ch0, listener, fds, answers[0]);
      BatchSafe(Handle(ch, o), ch0, listener, fds[1..], answers[1..]);
      forall i | 1 <= i <= |fds|
        ensures StillMeant(HandleAll(ch, Outcomes(listener, fds[..i], answers[..i])), ch0, listener, fds[i..]) {
        FirstThenRest(ch, listener, fds, answers, i);
        assert fds[i..] == fds[1..][i - 1..];
      }
      assert fds[..0] == [] && fds[0..] == fds;
    }
  }

  /** The first i events are the first one and then the first i - 1 of the rest. */
  lemma FirstThenRest(ch: Chat, listener: int, fds: seq<int>, answers: seq<Answer>, i: nat)
    requires 1 <= i <= |fds| == |answers|
    ensures HandleAll(ch, Outcomes(listener, fds[..i], answers[..i])) ==
            HandleAll(Handle(ch, OutcomeOf(listener, fds[0], answers[0])),
                      Outcomes(listener, fds[1..][..i - 1], answers[1..][..i - 1]))
  {
    assert fds[..i][1..] == fds[1..][..i - 1] && answers[..i][1..] == answers[1..][..i - 1];
  }

  /** How the interest list has to follow the open descriptors. */
  function Follow(ch: Chat, listener: int, registered: set<int>, fd: int, a: Answer): set<int> {
    if fd == listener then
      if a.NewFd? && FirstFree(ch.table, 0) < MAX_CLIENTS then registered + {a.fd} else registered
    else if a.Data? then registered else registered - {fd}
  }

  lemma FollowKeys(ch: Chat, listener: int, fd: int, a: Answer)
    requires listener !in ch.os.conn && AnswerOk(ch, listener, fd, a)
    ensures var conn := ConnAfter(ch, OutcomeOf(listener, fd, a));
            && listener !in conn
            && conn.Keys + {listener} == Follow(ch, listener, ch.os.conn.Keys + {listener}, fd, a)
  {
    var o := OutcomeOf(listener, fd, a);
    if o.Accepted? {
      assert (ch.os.conn - {o.fd}).Keys == ch.os.conn.Keys;
      assert ch.os.conn[o.fd := |ch.os.out|].Keys == ch.os.conn.Keys + {o.fd};
    } else if o.Eof? || o.RecvFailed? {
      assert (ch.os.conn - {o.fd}).Keys == ch.os.conn.Keys - {o.fd};
    }
  }

  lemma FollowIsOpen(ch: Chat, listener: int, fd: int, a: Answer)
    requires Inv(ch) && listener !in ch.os.conn && AnswerOk(ch, listener, fd, a)
    requires May(ch, OutcomeOf(listener, fd, a))
    ensures var r := Handle(ch, OutcomeOf(listener, fd, a));
            && Inv(r) && listener !in r.os.conn
            && r.os.conn.Keys + {listener} == Follow(ch, listener, ch.os.conn.Keys + {listener}, fd, a)
  {
    HandleInv(ch, OutcomeOf(listener, fd, a));
    HandleConn(ch, OutcomeOf(listener, fd, a));
    FollowKeys(ch, listener, fd, a);
  }

  // ---------------------------------------------------------------- runs of batches

  datatype Batch = Batch(fds: seq<int>, answers: seq<Answer>)

  /** epoll_wait returns at most MAX_EVENTS distinct registered descriptors: the listener and the
      open client descriptors. */
  ghost predicate BatchOk(ch: Chat, listener: int, b: Batch) {
    && |b.fds| <= MAX_EVENTS && AllDistinct(b.fds)
    && (forall f :: f in b.fds ==> f == listener || f in ch.os.conn)
    && AnswersOk(ch, listener, b.fds, b.answers)
  }

  function RunBatch(ch: Chat, listener: int, b: Batch): Chat
    requires |b.answers| == |b.fds|
  {
    HandleAll(ch, Outcomes(listener, b.fds, b.answers))
  }

  ghost predicate BatchesOk(ch: Chat, listener: int, bs: seq<Batch>)
    decreases |bs|
  {
    bs == [] || (BatchOk(ch, listener, bs[0]) && BatchesOk(RunBatch(ch, listener, bs[0]), listener, bs[1..]))
  }

  function AllOutcomes(ch: Chat, listener: int, bs: seq<Batch>): seq<Outcome>
    requires BatchesOk(ch, listener, bs)
    decreases |bs|
  {
    if bs == [] then []
    else Outcomes(listener, bs[0].fds, bs[0].answers) + AllOutcomes(RunBatch(ch, listener, bs[0]), listener, bs[1..])
  }

  /** The state after the last batch. */
  function RunBatches(ch: Chat, listener: int, bs: seq<Batch>): Chat
    requires BatchesOk(ch, listener, bs)
    decreases |bs|
  {
    if bs == [] then ch else RunBatches(RunBatch(ch, listener, bs[0]), listener, bs[1..])
  }

  /** Every run of the epoll loop is a legal sequence of outcomes, handled one by one. */
  lemma {:induction false} EpollRunIsOutcomes(ch: Chat, listener: int, bs: seq<Batch>)
    requires Inv(ch) && listener !in ch.os.conn && BatchesOk(ch, listener, bs)
    ensures Legal(ch, AllOutcomes(ch, listener, bs))
    ensures RunBatches(ch, listener, bs) == HandleAll(ch, AllOutcomes(ch, listener, bs))
    decreases |bs|
  {
    if bs != [] {
      var b := bs[0];
      var os := Outcomes(listener, b.fds, b.answers);
      BatchSafe(ch, ch, listener, b.fds, b.answers);
      HandleAllInv(ch, os);
      EpollRunIsOutcomes(RunBatch(ch, listener, b), listener, bs[1..]);
      HandleAllConcat(ch, os, AllOutcomes(RunBatch(ch, listener, b), listener, bs[1..]));
    }
  }

  /** What an event leads to, in terms of the table, the descriptors and what is sent. */
  lemma EventEffect(ch: Chat, listener: int, fd: int, a: Answer)
    requires Inv(ch) && AnswerOk(ch, listener, fd, a) && May(ch, OutcomeOf(listener, fd, a))
    ensures fd == listener ==> AcceptAnswered(ch, Handle(ch, OutcomeOf(listener, fd, a)), a)
    ensures fd != listener ==> fd in ch.os.conn && RecvAnswered(ch, Handle(ch, OutcomeOf(listener, fd, a)), fd, a)
  {
    if fd == listener {
      AcceptEffect(ch, fd, a);
    } else {
      RecvEffect(ch, fd, a);
    }
  }

  // ---------------------------------------------------------------- the program

  class EpollServer {
    const server: Server
    const listener: int
    var registered: set<int>      // the epoll interest list

    ghost predicate Valid()
      reads this, server, server.clients
    {
      && server.Valid() && Inv(server.Abs()) && listener !in server.os.conn
      && registered == server.os.conn.Keys + {listener}
    }

    constructor (listener: int)
      ensures Valid() && Start(server.Abs()) && fresh(server) && fresh(server.clients)
    {
      this.listener := listener;
      server := new Server();
      registered := {listener};
      new;
      StartShowsEmpty(server.Abs());
    }

    /** The branch for the listening descriptor. */
    method AcceptClient(a: Answer)
      requires server.Valid() && (a.NoFd? || a.NewFd?)
      modifies this`registered, server, server.clients
      ensures server.Abs() == Handle(old(server.Abs()), OutcomeOf(listener, listener, a))
      ensures registered == Follow(old(server.Abs()), listener, old(registered), listener, a)
    {
      if a.NoFd? { return; }
      var added := server.Register(a.fd);
      if !added { return; }
      registered := registered + {a.fd};
    }

    /** The branch for a client descriptor: recv and what follows from it; a closed one is unregistered. */
    method ServeClient(fd: int, a: Answer)
      requires server.Valid() && fd != listener && (a.Data? || a.End? || a.Error?)
      modifies this`registered, server, server.clients
      ensures server.Abs() == Handle(old(server.Abs()), OutcomeOf(listener, fd, a))
      ensures registered == Follow(old(server.Abs()), listener, old(registered), fd, a)
    {
      server.Relay(fd, a);
      if !a.Data? {
        registered := registered - {fd};
      }
    }

    /** One event: what the listener or the client asks for is done. */
    method HandleEvent(fd: int, a: Answer)
      requires Valid() && AnswerOk(server.Abs(), listener, fd, a) && May(server.Abs(), OutcomeOf(listener, fd, a))
      modifies this`registered, server, server.clients
      ensures Valid() && server.Abs() == Handle(old(server.Abs()), OutcomeOf(listener, fd, a))
      ensures if fd == listener then AcceptAnswered(old(server.Abs()), server.Abs(), a)
              else RecvAnswered(old(server.Abs()), server.Abs(), fd, a)
    {
      FollowIsOpen(server.Abs(), listener, fd, a);
      EventEffect(server.Abs(), listener, fd, a);
      if fd == listener {
        AcceptClient(a);
      } else {
        ServeClient(fd, a);
      }
      assert server.os == server.Abs().os;
    }

    /** The for loop over one batch of events. */
    method HandleBatch(b: Batch)
      requires Valid() && BatchOk(server.Abs(), listener, b)
      modifies this`registered, server, server.clients
      ensures Valid() && server.Abs() == RunBatch(old(server.Abs()), listener, b)
    {
      ghost var ch0 := server.Abs();
      assert b.fds[0..] == b.fds && b.answers[0..] == b.answers;
      for i := 0 to |b.fds|
        invariant Valid() && |b.answers| == |b.fds|
        invariant AllDistinct(b.fds[i..]) && StillMeant(server.Abs(), ch0, listener, b.fds[i..])
        invariant AnswersOk(server.Abs(), listener, b.fds[i..], b.answers[i..])
        invariant HandleAll(server.Abs(), Outcomes(listener, b.fds[i..], b.answers[i..])) == RunBatch(ch0, listener, b)
      {
        ghost var fds, answers := b.fds[i..], b.answers[i..];
        assert fds[0] == b.fds[i] && fds[1..] == b.fds[i + 1..];
        assert answers[0] == b.answers[i] && answers[1..] == b.answers[i + 1..];
        assert fds[0] in fds;
        OneEvent(server.Abs(), ch0, listener, fds, b.answers[i]);
        HandleEvent(b.fds[i], b.answers[i]);
      }
    }

    /** The server loop, for as long as the given batches last. */
    method Serve(bs: seq<Batch>)
      requires Valid() && BatchesOk(server.Abs(), listener, bs)
      modifies this`registered, server, server.clients
      ensures Valid() && server.Abs() == HandleAll(old(server.Abs()), AllOutcomes(old(server.Abs()), listener, bs))
    {
      EpollRunIsOutcomes(server.Abs(), listener, bs);
      assert bs[0..] == bs;
      for n := 0 to |bs|
        invariant Valid() && BatchesOk(server.Abs(), listener, bs[n..])
        invariant RunBatches(server.Abs(), listener, bs[n..]) == RunBatches(old(server.Abs()), listener, bs)
      {
        assert bs[n..][0] == bs[n] && bs[n..][1..] == bs[n + 1..];
        HandleBatch(bs[n]);
      }
    }
  }
}
