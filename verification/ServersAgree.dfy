/** The epoll server and the io_uring server are the same chat room, and have the same behaviours. */
module ServersAgree {
  import ChatRoom
  import opened ChatServer
  import opened ChatRefinement
  import opened ChatRuns
  import Epoll
  import Uring

  /** Given the same accept and receive outcomes, the epoll loop and the io_uring loop hold the same
      table and have sent the same messages to the same connections; and both are the run of the
      abstract room on those outcomes. */
  lemma SameOutcomesSameServer(ch: Chat, listener: int, bs: seq<Epoll.Batch>, s: Uring.State, cs: seq<Uring.Completion>)
    requires Start(ch) && Epoll.BatchesOk(ch, listener, bs)
    requires s.chat == ch && Uring.Owned(s, listener) && Uring.LegalCompletions(s, listener, cs)
    requires Epoll.AllOutcomes(ch, listener, bs) == Uring.RunOutcomes(s, listener, cs)
    ensures Epoll.RunBatches(ch, listener, bs) == Uring.RunCompletions(s, listener, cs).chat
    ensures Inv(ch) && Legal(ch, Uring.RunOutcomes(s, listener, cs))
    ensures var es := Events(ch, Uring.RunOutcomes(s, listener, cs));
            && ChatRoom.LegalRun(ChatRoom.EMPTY, es)
            && Shows(Epoll.RunBatches(ch, listener, bs), ChatRoom.Run(ChatRoom.EMPTY, es))
  {
    StartShowsEmpty(ch);
    Epoll.EpollRunIsOutcomes(ch, listener, bs);
    Uring.UringRunIsOutcomes(s, listener, cs);
    RunRefines(ch, ChatRoom.EMPTY, Uring.RunOutcomes(s, listener, cs));
  }

  // ---------------------------------------------------------------- delivery

  /** Whole-run delivery for the epoll server: over any batches. */
  lemma EpollDelivers(ch: Chat, listener: int, bs: seq<Epoll.Batch>, c: nat)
    requires Start(ch) && Epoll.BatchesOk(ch, listener, bs) && c < |Epoll.RunBatches(ch, listener, bs).os.out|
    ensures Legal(ch, Epoll.AllOutcomes(ch, listener, bs))
    ensures SentItsStay(HistoryOf(ch, Epoll.AllOutcomes(ch, listener, bs)),
                        Epoll.RunBatches(ch, listener, bs).os.out, c)
  {
    StartShowsEmpty(ch);
    Epoll.EpollRunIsOutcomes(ch, listener, bs);
    WholeRunDelivery(ch, Epoll.AllOutcomes(ch, listener, bs), c);
  }

  /** Whole-run delivery for the io_uring server: over any completions. */
  lemma UringDelivers(s: Uring.State, listener: int, cs: seq<Uring.Completion>, c: nat)
    requires Start(s.chat) && Uring.Owned(s, listener) && Uring.LegalCompletions(s, listener, cs)
    requires c < |Uring.RunCompletions(s, listener, cs).chat.os.out|
    ensures Legal(s.chat, Uring.RunOutcomes(s, listener, cs))
    ensures SentItsStay(HistoryOf(s.chat, Uring.RunOutcomes(s, listener, cs)),
                        Uring.RunCompletions(s, listener, cs).chat.os.out, c)
  {
    Uring.UringRunIsOutcomes(s, listener, cs);
    WholeRunDelivery(s.chat, Uring.RunOutcomes(s, listener, cs), c);
  }

  // ---------------------------------------------------------------- each can follow the other

  /** Accept never returns the listening descriptor. */
  ghost predicate Avoids(outcomes: seq<Outcome>, listener: int) {
    forall o :: o in outcomes && o.Accepted? ==> o.fd != listener
  }

  function AnswerOf(o: Outcome): Answer {
    match o
    case Accepted(fd) => NewFd(fd)
    case AcceptFailed => NoFd
    case Got(_, data) => Data(data)
    case Eof(_) => End
    case RecvFailed(_) => Error
  }

  function FdOf(o: Outcome, listener: int): int {
    if o.Accepted? || o.AcceptFailed? then listener else o.fd
  }

  /** The request an outcome completes is outstanding. */
  lemma FindRequest(s: Uring.State, listener: int, o: Outcome) returns (c: Uring.Completion)
    requires Uring.Owned(s, listener) && May(s.chat, o) && (o.Accepted? ==> o.fd != listener)
    ensures Uring.MayComplete(s, listener, c) && Uring.OutcomeOf(s, c) == o
  {
    var fd := FdOf(o, listener);
    var kind := if o.Accepted? || o.AcceptFailed? then Uring.AcceptReq else Uring.RecvReq;
    Uring.OwnedCovers(s, listener, fd);
    assert Uring.IsOutstanding(s.outstanding, kind, fd);
    var k :| 0 <= k < |s.outstanding| && s.outstanding[k].kind == kind && s.outstanding[k].fd == fd;
    c := Uring.Completion(k, AnswerOf(o));
  }

  lemma {:induction false} UringRealizes(s: Uring.State, listener: int, outcomes: seq<Outcome>)
    returns (cs: seq<Uring.Completion>)
    requires Uring.Owned(s, listener) && Legal(s.chat, outcomes) && Avoids(outcomes, listener)
    ensures Uring.LegalCompletions(s, listener, cs) && Uring.RunOutcomes(s, listener, cs) == outcomes
    decreases |outcomes|
  {
    if outcomes == [] {
      cs := [];
    } else {
      AvoidsRest(outcomes, listener);
      var c := FindRequest(s, listener, outcomes[0]);
      Uring.CompleteOwned(s, listener, c);
      var rest := UringRealizes(Uring.Complete(s, listener, c), listener, outcomes[1..]);
      cs := [c] + rest;
      PrependCompletion(s, listener, c, rest, outcomes);
    }
  }

  lemma AvoidsRest(outcomes: seq<Outcome>, listener: int)
    requires Avoids(outcomes, listener) && outcomes != []
    ensures (outcomes[0].Accepted? ==> outcomes[0].fd != listener) && Avoids(outcomes[1..], listener)
  {
    assert outcomes[0] in outcomes;
  }

  lemma PrependCompletion(s: Uring.State, listener: int, c: Uring.Completion, rest: seq<Uring.Completion>,
                          outcomes: seq<Outcome>)
    requires outcomes != [] && Uring.MayComplete(s, listener, c) && Uring.OutcomeOf(s, c) == outcomes[0]
    requires Uring.LegalCompletions(Uring.Complete(s, listener, c), listener, rest)
    requires Uring.RunOutcomes(Uring.Complete(s, listener, c), listener, rest) == outcomes[1..]
    ensures Uring.LegalCompletions(s, listener, [c] + rest)
    ensures Uring.RunOutcomes(s, listener, [c] + rest) == outcomes
  {
    assert ([c] + rest)[0] == c && ([c] + rest)[1..] == rest;
  }

  lemma SingleBatch(ch: Chat, listener: int, o: Outcome)
    requires Inv(ch) && listener !in ch.os.conn && May(ch, o) && (o.Accepted? ==> o.fd != listener)
    ensures var b := Epoll.Batch([FdOf(o, listener)], [AnswerOf(o)]);
            Epoll.BatchOk(ch, listener, b) && Epoll.Outcomes(listener, b.fds, b.answers) == [o]
            && Epoll.RunBatch(ch, listener, b) == Handle(ch, o)
  {
    var fds, answers := [FdOf(o, listener)], [AnswerOf(o)];
    assert fds[1..] == [] && answers[1..] == [];
    assert Epoll.OutcomeOf(listener, fds[0], answers[0]) == o;
    assert Epoll.AnswersOk(Handle(ch, o), listener, [], []);
    assert HandleAll(ch, [o]) == HandleAll(Handle(ch, o), []);
  }

  lemma {:induction false} EpollRealizes(ch: Chat, listener: int, outcomes: seq<Outcome>)
    returns (bs: seq<Epoll.Batch>)
    requires Inv(ch) && listener !in ch.os.conn && Legal(ch, outcomes) && Avoids(outcomes, listener)
    ensures Epoll.BatchesOk(ch, listener, bs) && Epoll.AllOutcomes(ch, listener, bs) == outcomes
    decreases |outcomes|
  {
    if outcomes == [] {
      bs := [];
    } else {
      var o := outcomes[0];
      AvoidsRest(outcomes, listener);
      SingleBatch(ch, listener, o);
      HandleInv(ch, o);
      HandleConn(ch, o);
      var b := Epoll.Batch([FdOf(o, listener)], [AnswerOf(o)]);
      var rest := EpollRealizes(Handle(ch, o), listener, outcomes[1..]);
      bs := [b] + rest;
      assert bs[1..] == rest && outcomes == [o] + outcomes[1..];
    }
  }

  lemma {:induction false} BatchAvoids(ch: Chat, listener: int, fds: seq<int>, answers: seq<Answer>)
    requires Epoll.AnswersOk(ch, listener, fds, answers)
    ensures Avoids(Epoll.Outcomes(listener, fds, answers), listener)
    decreases |fds|
  {
    if fds != [] {
      BatchAvoids(Handle(ch, Epoll.OutcomeOf(listener, fds[0], answers[0])), listener, fds[1..], answers[1..]);
    }
  }

  lemma {:induction false} EpollAvoids(ch: Chat, listener: int, bs: seq<Epoll.Batch>)
    requires Epoll.BatchesOk(ch, listener, bs)
    ensures Avoids(Epoll.AllOutcomes(ch, listener, bs), listener)
    decreases |bs|
  {
    if bs != [] {
      BatchAvoids(ch, listener, bs[0].fds, bs[0].answers);
      EpollAvoids(Epoll.RunBatch(ch, listener, bs[0]), listener, bs[1..]);
    }
  }

  lemma {:induction false} UringAvoids(s: Uring.State, listener: int, cs: seq<Uring.Completion>)
    requires Uring.LegalCompletions(s, listener, cs)
    ensures Avoids(Uring.RunOutcomes(s, listener, cs), listener)
    decreases |cs|
  {
    if cs != [] {
      UringAvoids(Uring.Complete(s, listener, cs[0]), listener, cs[1..]);
    }
  }

  /** Whatever the epoll server can do, the io_uring server can do, to the last byte sent. */
  lemma UringFollowsEpoll(ch: Chat, listener: int, bs: seq<Epoll.Batch>, s: Uring.State)
    returns (cs: seq<Uring.Completion>)
    requires Inv(ch) && Epoll.BatchesOk(ch, listener, bs) && s.chat == ch && Uring.Owned(s, listener)
    ensures Uring.LegalCompletions(s, listener, cs)
    ensures Uring.RunCompletions(s, listener, cs).chat == Epoll.RunBatches(ch, listener, bs)
  {
    Epoll.EpollRunIsOutcomes(ch, listener, bs);
    EpollAvoids(ch, listener, bs);
    cs := UringRealizes(s, listener, Epoll.AllOutcomes(ch, listener, bs));
    Uring.UringRunIsOutcomes(s, listener, cs);
  }

  /** And the other way round. */
  lemma EpollFollowsUring(s: Uring.State, listener: int, cs: seq<Uring.Completion>)
    returns (bs: seq<Epoll.Batch>)
    requires Uring.Owned(s, listener) && Uring.LegalCompletions(s, listener, cs)
    ensures Epoll.BatchesOk(s.chat, listener, bs)
    ensures Epoll.RunBatches(s.chat, listener, bs) == Uring.RunCompletions(s, listener, cs).chat
  {
    Uring.UringRunIsOutcomes(s, listener, cs);
    UringAvoids(s, listener, cs);
    bs := EpollRealizes(s.chat, listener, Uring.RunOutcomes(s, listener, cs));
    Epoll.EpollRunIsOutcomes(s.chat, listener, bs);
  }
}
