/** Runs of the single-threaded servers: any sequence of accept and receive outcomes. */
module ChatRuns {
  import opened Seqs
  import ChatRoom
  import opened ChatServer
  import opened ChatRefinement

  /** A server just started: no client, whatever the table's idle slots hold. */
  ghost predicate Start(ch: Chat) {
    && ch.total == 0 && ch.os == Os(map[], [])
    && forall i {:trigger ch.table[i]} :: 0 <= i < ChatRoom.MAX_CLIENTS ==> !ch.table[i].active
  }

  ghost predicate Legal(ch: Chat, outcomes: seq<Outcome>)
    decreases |outcomes|
  {
    outcomes == [] || (May(ch, outcomes[0]) && Legal(Handle(ch, outcomes[0]), outcomes[1..]))
  }

  function HandleAll(ch: Chat, outcomes: seq<Outcome>): Chat
    decreases |outcomes|
  {
    if outcomes == [] then ch else HandleAll(Handle(ch, outcomes[0]), outcomes[1..])
  }

  function Events(ch: Chat, outcomes: seq<Outcome>): seq<ChatRoom.Event>
    requires Inv(ch) && Legal(ch, outcomes)
    decreases |outcomes|
  {
    if outcomes == [] then [] else
      HandleInv(ch, outcomes[0]);
      EventOf(ch, outcomes[0]) + Events(Handle(ch, outcomes[0]), outcomes[1..])
  }

  lemma StartShowsEmpty(ch: Chat)
    requires Start(ch)
    ensures Inv(ch) && Shows(ch, ChatRoom.EMPTY)
  {
    CountAllOrSome(Flags(ch.table));
  }

  lemma {:induction false} HandleAllInv(ch: Chat, outcomes: seq<Outcome>)
    requires Inv(ch) && Legal(ch, outcomes)
    ensures Inv(HandleAll(ch, outcomes))
    decreases |outcomes|
  {
    if outcomes != [] {
      HandleInv(ch, outcomes[0]);
      HandleAllInv(Handle(ch, outcomes[0]), outcomes[1..]);
    }
  }

  lemma {:induction false} HandleAllConcat(ch: Chat, a: seq<Outcome>, b: seq<Outcome>)
    ensures HandleAll(ch, a + b) == HandleAll(HandleAll(ch, a), b)
    ensures Legal(ch, a + b) <==> Legal(ch, a) && Legal(HandleAll(ch, a), b)
    decreases |a|
  {
    if a == [] {
      assert a + b == b;
    } else {
      assert (a + b)[0] == a[0] && (a + b)[1..] == a[1..] + b;
      HandleAllConcat(Handle(ch, a[0]), a[1..], b);
    }
  }

  /** Every run of the table-scanning server is a run of the abstract room. */
  lemma {:induction false} RunRefines(ch: Chat, r: ChatRoom.Room, outcomes: seq<Outcome>)
    requires Inv(ch) && Shows(ch, r) && Legal(ch, outcomes)
    ensures ChatRoom.LegalRun(r, Events(ch, outcomes))
    ensures Shows(HandleAll(ch, outcomes), ChatRoom.Run(r, Events(ch, outcomes)))
    decreases |outcomes|
  {
    if outcomes != [] {
      var o, rest := outcomes[0], outcomes[1..];
      HandleInv(ch, o);
      HandleRefines(ch, r, o);
      RunRefines(Handle(ch, o), StepAll(r, EventOf(ch, o)), rest);
      PrependEvents(r, EventOf(ch, o), Events(Handle(ch, o), rest));
    }
  }

  lemma PrependEvents(r: ChatRoom.Room, e: seq<ChatRoom.Event>, es: seq<ChatRoom.Event>)
    requires |e| <= 1 && (forall x :: x in e ==> ChatRoom.Allowed(r, x)) && ChatRoom.LegalRun(StepAll(r, e), es)
    ensures ChatRoom.LegalRun(r, e + es)
    ensures ChatRoom.Run(r, e + es) == ChatRoom.Run(StepAll(r, e), es)
  {
    if e == [] {
      assert e + es == es;
    } else {
      assert (e + es)[0] == e[0] && (e + es)[1..] == es;
    }
  }

  /** The log of broadcasts of a server that started with no client. */
  ghost function HistoryOf(ch: Chat, outcomes: seq<Outcome>): ChatRoom.History
    requires Start(ch) && Legal(ch, outcomes)
  {
    StartShowsEmpty(ch);
    RunRefines(ch, ChatRoom.EMPTY, outcomes);
    ChatRoom.RunHistory(ChatRoom.EMPTY, ChatRoom.NO_HISTORY, Events(ch, outcomes))
  }

  /** What an outcome announces: received data under the client's number, and a departure. */
  ghost function AnnouncedBy(ch: Chat, o: Outcome): seq<ChatRoom.Entry>
    requires Inv(ch) && May(ch, o)
  {
    match o
    case Got(fd, data) => [ChatRoom.Entry(ch.os.conn[fd], ChatRoom.Said(IdOf(ch.table, fd), CString(data)))]
    case Eof(fd) => [ChatRoom.Entry(ch.os.conn[fd], ChatRoom.Left(IdOf(ch.table, fd)))]
    case _ => []
  }

  ghost function Announced(ch: Chat, outcomes: seq<Outcome>): seq<ChatRoom.Entry>
    requires Inv(ch) && Legal(ch, outcomes)
    decreases |outcomes|
  {
    if outcomes == [] then []
    else
      HandleInv(ch, outcomes[0]);
      AnnouncedBy(ch, outcomes[0]) + Announced(Handle(ch, outcomes[0]), outcomes[1..])
  }

  ghost function RecordAll(r: ChatRoom.Room, h: ChatRoom.History, es: seq<ChatRoom.Event>): ChatRoom.History
    requires |es| <= 1 && forall e :: e in es ==> ChatRoom.Allowed(r, e)
  {
    if es == [] then h else ChatRoom.Record(r, h, es[0])
  }

  lemma OutcomeIsLogged(ch: Chat, r: ChatRoom.Room, h: ChatRoom.History, o: Outcome)
    requires Inv(ch) && Shows(ch, r) && May(ch, o)
    ensures forall e :: e in EventOf(ch, o) ==> ChatRoom.Allowed(r, e)
    ensures RecordAll(r, h, EventOf(ch, o)).log == h.log + AnnouncedBy(ch, o)
  {
    HandleRefines(ch, r, o);
    if o.Got? || o.Eof? || o.RecvFailed? {
      LookupIsNumber(ch, r, o.fd);
    }
  }

  lemma AnnouncedFirst(ch: Chat, outcomes: seq<Outcome>, log: seq<ChatRoom.Entry>)
    requires Inv(ch) && Legal(ch, outcomes) && outcomes != []
    ensures May(ch, outcomes[0]) && Inv(Handle(ch, outcomes[0]))
    ensures log + Announced(ch, outcomes) ==
            log + AnnouncedBy(ch, outcomes[0]) + Announced(Handle(ch, outcomes[0]), outcomes[1..])
  {
    HandleInv(ch, outcomes[0]);
    Associate(log, AnnouncedBy(ch, outcomes[0]), Announced(Handle(ch, outcomes[0]), outcomes[1..]));
  }

  lemma PrependHistory(r: ChatRoom.Room, h: ChatRoom.History, e: seq<ChatRoom.Event>, es: seq<ChatRoom.Event>)
    requires |e| <= 1 && (forall x :: x in e ==> ChatRoom.Allowed(r, x)) && ChatRoom.LegalRun(StepAll(r, e), es)
    ensures ChatRoom.LegalRun(r, e + es)
    ensures ChatRoom.RunHistory(r, h, e + es) == ChatRoom.RunHistory(StepAll(r, e), RecordAll(r, h, e), es)
  {
    PrependEvents(r, e, es);
    if e == [] {
      assert e + es == es;
    } else {
      assert (e + es)[0] == e[0] && (e + es)[1..] == es;
    }
  }

  /** The log of a run is what its outcomes announced, in order. */
  lemma {:induction false} RunIsLogged(ch: Chat, r: ChatRoom.Room, h: ChatRoom.History, outcomes: seq<Outcome>)
    requires Inv(ch) && Shows(ch, r) && Legal(ch, outcomes)
    ensures ChatRoom.LegalRun(r, Events(ch, outcomes))
    ensures ChatRoom.RunHistory(r, h, Events(ch, outcomes)).log == h.log + Announced(ch, outcomes)
    decreases |outcomes|
  {
    if outcomes != [] {
      var o, rest := outcomes[0], outcomes[1..];
      HandleInv(ch, o);
      HandleRefines(ch, r, o);
      OutcomeIsLogged(ch, r, h, o);
      AnnouncedFirst(ch, outcomes, h.log);
      RunIsLogged(Handle(ch, o), StepAll(r, EventOf(ch, o)), RecordAll(r, h, EventOf(ch, o)), rest);
      PrependHistory(r, h, EventOf(ch, o), Events(Handle(ch, o), rest));
    }
  }

  /** What was sent to connection c is the log between its joining and its leaving, or now, without its
      own messages; nothing if it found no slot. */
  ghost predicate SentItsStay(h: ChatRoom.History, out: seq<seq<ChatRoom.Msg>>, c: nat) {
    && c < |out|
    && if c in h.joined then
         && h.joined[c] <= ChatRoom.Until(h, c) <= |h.log|
         && out[c] == ChatRoom.Heard(h.log[h.joined[c]..ChatRoom.Until(h, c)], c)
       else out[c] == []
  }

  /** The log against which delivery is stated holds every message and every departure, in order. */
  lemma HistoryIsLog(ch: Chat, outcomes: seq<Outcome>)
    requires Start(ch) && Legal(ch, outcomes)
    ensures Inv(ch) && HistoryOf(ch, outcomes).log == Announced(ch, outcomes)
  {
    StartShowsEmpty(ch);
    RunIsLogged(ch, ChatRoom.EMPTY, ChatRoom.NO_HISTORY, outcomes);
  }

  /** Whole-run delivery for the servers: from the start, and whatever descriptors are reused, every
      connection has been sent the broadcasts between its joining and its leaving, its own left out. */
  lemma WholeRunDelivery(ch: Chat, outcomes: seq<Outcome>, c: nat)
    requires Start(ch) && Legal(ch, outcomes) && c < |HandleAll(ch, outcomes).os.out|
    ensures SentItsStay(HistoryOf(ch, outcomes), HandleAll(ch, outcomes).os.out, c)
  {
    StartShowsEmpty(ch);
    RunRefines(ch, ChatRoom.EMPTY, outcomes);
    ChatRoom.RoomDelivers(Events(ch, outcomes), c);
  }
}
