/**
 The io_uring server: one event loop that owns every outstanding request. IoRequest objects
 carry an allocation tag, so that each malloc, reuse and free can be followed.
 */
module Uring {
  import opened Seqs
  import opened ChatRoom
  import opened ChatServer
  import opened ChatRuns
  import opened Answers
  import opened ServerCode

  const ENTRIES: nat := 1024

  datatype Kind = AcceptReq | RecvReq
  datatype IoRequest = IoRequest(tag: nat, kind: Kind, fd: int)

  /** live holds the tags that are allocated and not freed. */
  datatype State = State(chat: Chat, outstanding: seq<IoRequest>, live: set<nat>, nextTag: nat)

  /** Outstanding request number pick completes with answer. */
  datatype Completion = Completion(pick: nat, answer: Answer)

  // ---------------------------------------------------------------- one completion

  /** malloc an IoRequest and submit it. */
  function Issue(s: State, kind: Kind, fd: int): State {
    s.(outstanding := s.outstanding + [IoRequest(s.nextTag, kind, fd)],
       live := s.live + {s.nextTag}, nextTag := s.nextTag + 1)
  }

  function OutcomeOf(s: State, c: Completion): Outcome
    requires c.pick < |s.outstanding|
  {
    var r := s.outstanding[c.pick];
    ResultOf(r.kind.AcceptReq?, r.fd, c.answer)
  }

  /** An accept ended: maybe a new client with its first receive, always a new accept; then free. */
  function AcceptDone(s: State, listener: int, r: IoRequest, a: Answer): State {
    var t := s.(chat := Handle(s.chat, ResultOf(true, r.fd, a)));
    var joined := if a.NewFd? && FirstFree(s.chat.table, 0) < MAX_CLIENTS then Issue(t, RecvReq, a.fd) else t;
    var again := Issue(joined, AcceptReq, listener);
    again.(live := again.live - {r.tag})
  }

  /** A receive ended: with data, its object receives again; otherwise it is freed. */
  function RecvDone(s: State, r: IoRequest, a: Answer): State {
    var t := s.(chat := Handle(s.chat, ResultOf(false, r.fd, a)));
    if a.Data? then t.(outstanding := t.outstanding + [r]) else t.(live := t.live - {r.tag})
  }

  function Complete(s: State, listener: int, c: Completion): State
    requires c.pick < |s.outstanding|
  {
    var r := s.outstanding[c.pick];
    var rest := s.(outstanding := Remove(s.outstanding, c.pick));
    match r.kind
    case AcceptReq => AcceptDone(rest, listener, r, c.answer)
    case RecvReq => RecvDone(rest, r, c.answer)
  }

  // ---------------------------------------------------------------- who owns what

  function Fds(rs: seq<IoRequest>): seq<int> { seq(|rs|, i requires 0 <= i < |rs| => rs[i].fd) }
  function Tags(rs: seq<IoRequest>): seq<nat> { seq(|rs|, i requires 0 <= i < |rs| => rs[i].tag) }

  /** Exactly one request for the listener and one for every open client descriptor, and no other. */
  ghost predicate FdsOwned(s: State, listener: int) {
    multiset(Fds(s.outstanding)) == multiset(s.chat.os.conn.Keys + {listener})
  }

  /** Every live object is outstanding exactly once, and every outstanding object is live. */
  ghost predicate TagsOwned(s: State) {
    multiset(Tags(s.outstanding)) == multiset(s.live) && forall t :: t in s.live ==> t < s.nextTag
  }

  ghost predicate KindsOk(rs: seq<IoRequest>, listener: int) {
    forall k {:trigger rs[k]} :: 0 <= k < |rs| ==> (rs[k].kind.AcceptReq? <==> rs[k].fd == listener)
  }

  ghost predicate Owned(s: State, listener: int) {
    && Inv(s.chat) && listener !in s.chat.os.conn
    && FdsOwned(s, listener) && TagsOwned(s) && KindsOk(s.outstanding, listener)
  }

  ghost predicate MayComplete(s: State, listener: int, c: Completion) {
    c.pick < |s.outstanding| && KernelMay(s.chat, listener, s.outstanding[c.pick].kind.AcceptReq?, c.answer)
  }

  lemma FdsRemove(rs: seq<IoRequest>, k: nat)
    requires k < |rs|
    ensures multiset(Fds(Remove(rs, k))) == multiset(Fds(rs)) - multiset{rs[k].fd}
    ensures multiset(Tags(Remove(rs, k))) == multiset(Tags(rs)) - multiset{rs[k].tag}
    ensures rs[k].fd in multiset(Fds(rs)) && rs[k].tag in multiset(Tags(rs))
  {
    assert Fds(rs) == Fds(rs)[..k] + [rs[k].fd] + Fds(rs)[k + 1..];
    assert Fds(Remove(rs, k)) == Fds(rs)[..k] + Fds(rs)[k + 1..];
    assert Tags(rs) == Tags(rs)[..k] + [rs[k].tag] + Tags(rs)[k + 1..];
    assert Tags(Remove(rs, k)) == Tags(rs)[..k] + Tags(rs)[k + 1..];
  }

  lemma FdsAppend(rs: seq<IoRequest>, r: IoRequest)
    ensures multiset(Fds(rs + [r])) == multiset(Fds(rs)) + multiset{r.fd}
    ensures multiset(Tags(rs + [r])) == multiset(Tags(rs)) + multiset{r.tag}
  {
    assert Fds(rs + [r]) == Fds(rs) + [r.fd];
    assert Tags(rs + [r]) == Tags(rs) + [r.tag];
  }

  /** The kernel reports only on open descriptors: a receive never outlives its client. */
  lemma CompletionIsLegal(s: State, listener: int, c: Completion)
    requires Owned(s, listener) && MayComplete(s, listener, c)
    ensures May(s.chat, OutcomeOf(s, c))
  {
    TakeFd(s.outstanding, c.pick, s.chat.os.conn.Keys + {listener});
  }

  lemma KindsAfter(s: State, listener: int, c: Completion)
    requires Owned(s, listener) && MayComplete(s, listener, c)
    ensures KindsOk(Complete(s, listener, c).outstanding, listener)
  {
  }

  /** While a completion is handled, its object is live but not outstanding. */
  ghost predicate TagsOwnedBut(s: State, tag: nat) {
    && multiset(Tags(s.outstanding)) + multiset{tag} == multiset(s.live)
    && forall t :: t in s.live ==> t < s.nextTag
  }

  lemma TakeTags(s: State, k: nat)
    requires TagsOwned(s) && k < |s.outstanding|
    ensures TagsOwnedBut(s.(outstanding := Remove(s.outstanding, k)), s.outstanding[k].tag)
  {
    FdsRemove(s.outstanding, k);
  }

  lemma IssueTags(s: State, kind: Kind, fd: int, tag: nat)
    requires TagsOwnedBut(s, tag)
    ensures TagsOwnedBut(Issue(s, kind, fd), tag)
  {
    FdsAppend(s.outstanding, IoRequest(s.nextTag, kind, fd));
    assert s.nextTag !in s.live;
    assert multiset(s.live + {s.nextTag}) == multiset(s.live) + multiset{s.nextTag};
  }

  lemma FreeTag(s: State, tag: nat)
    requires TagsOwnedBut(s, tag)
    ensures TagsOwned(s.(live := s.live - {tag}))
  {
    assert tag in multiset(s.live);
    assert multiset(s.live - {tag}) == multiset(s.live) - multiset{tag};
  }

  lemma TagsAfter(s: State, listener: int, c: Completion)
    requires Owned(s, listener) && MayComplete(s, listener, c)
    ensures TagsOwned(Complete(s, listener, c))
  {
    var r := s.outstanding[c.pick];
    var t := s.(outstanding := Remove(s.outstanding, c.pick));
    TakeTags(s, c.pick);
    if r.kind.AcceptReq? {
      AcceptTags(t, listener, r, c.answer);
    } else {
      RecvTags(t, r, c.answer);
    }
  }

  lemma AcceptTags(s: State, listener: int, r: IoRequest, a: Answer)
    requires TagsOwnedBut(s, r.tag)
    ensures TagsOwned(AcceptDone(s, listener, r, a))
  {
    var t := s.(chat := Handle(s.chat, ResultOf(true, r.fd, a)));
    if a.NewFd? && FirstFree(s.chat.table, 0) < MAX_CLIENTS {
      IssueTags(t, RecvReq, a.fd, r.tag);
      IssueTags(Issue(t, RecvReq, a.fd), AcceptReq, listener, r.tag);
      FreeTag(Issue(Issue(t, RecvReq, a.fd), AcceptReq, listener), r.tag);
    } else {
      IssueTags(t, AcceptReq, listener, r.tag);
      FreeTag(Issue(t, AcceptReq, listener), r.tag);
    }
  }

  lemma RecvTags(s: State, r: IoRequest, a: Answer)
    requires TagsOwnedBut(s, r.tag)
    ensures TagsOwned(RecvDone(s, r, a))
  {
    var t := s.(chat := Handle(s.chat, ResultOf(false, r.fd, a)));
    if a.Data? {
      FdsAppend(t.outstanding, r);
    } else {
      FreeTag(t, r.tag);
    }
  }

  lemma AddFd(fds: set<int>, fd: int)
    requires fd !in fds
    ensures multiset(fds) + multiset{fd} == multiset(fds + {fd})
  {
  }

  lemma TakeFd(rs: seq<IoRequest>, k: nat, fds: set<int>)
    requires k < |rs| && multiset(Fds(rs)) == multiset(fds)
    ensures rs[k].fd in fds && multiset(Fds(Remove(rs, k))) == multiset(fds - {rs[k].fd})
  {
    FdsRemove(rs, k);
    assert multiset(fds - {rs[k].fd}) == multiset(fds) - multiset{rs[k].fd};
  }

  lemma PutFd(rs: seq<IoRequest>, r: IoRequest, fds: set<int>)
    requires multiset(Fds(rs)) == multiset(fds) && r.fd !in fds
    ensures multiset(Fds(rs + [r])) == multiset(fds + {r.fd})
  {
    FdsAppend(rs, r);
    AddFd(fds, r.fd);
  }

  lemma AcceptFds(s: State, listener: int, c: Completion)
    requires Owned(s, listener) && MayComplete(s, listener, c) && s.outstanding[c.pick].kind.AcceptReq?
    ensures multiset(Fds(Complete(s, listener, c).outstanding)) ==
            multiset(ConnAfter(s.chat, OutcomeOf(s, c)).Keys + {listener})
  {
    var conn := s.chat.os.conn;
    TakeFd(s.outstanding, c.pick, conn.Keys + {listener});
    assert conn.Keys + {listener} - {listener} == conn.Keys;
    if OutcomeOf(s, c).Accepted? && FirstFree(s.chat.table, 0) < MAX_CLIENTS {
      JoinFds(s, listener, c, Remove(s.outstanding, c.pick));
    } else {
      NoJoinFds(s, listener, c, Remove(s.outstanding, c.pick));
    }
  }

  lemma JoinFds(s: State, listener: int, c: Completion, rest: seq<IoRequest>)
    requires c.pick < |s.outstanding| && s.outstanding[c.pick].kind.AcceptReq? && MayComplete(s, listener, c)
    requires c.answer.NewFd? && FirstFree(s.chat.table, 0) < MAX_CLIENTS && listener !in s.chat.os.conn
    requires rest == Remove(s.outstanding, c.pick) && multiset(Fds(rest)) == multiset(s.chat.os.conn.Keys)
    ensures multiset(Fds(Complete(s, listener, c).outstanding)) ==
            multiset(ConnAfter(s.chat, OutcomeOf(s, c)).Keys + {listener})
  {
    var q, again := IoRequest(s.nextTag, RecvReq, c.answer.fd), IoRequest(s.nextTag + 1, AcceptReq, listener);
    assert Complete(s, listener, c).outstanding == rest + [q] + [again];
    TwoPutFds(rest, q, again, s.chat.os.conn, |s.chat.os.out|);
  }

  lemma NoJoinFds(s: State, listener: int, c: Completion, rest: seq<IoRequest>)
    requires c.pick < |s.outstanding| && s.outstanding[c.pick].kind.AcceptReq? && MayComplete(s, listener, c)
    requires c.answer.NoFd? || FirstFree(s.chat.table, 0) == MAX_CLIENTS
    requires rest == Remove(s.outstanding, c.pick) && multiset(Fds(rest)) == multiset(s.chat.os.conn.Keys)
    requires listener !in s.chat.os.conn
    ensures multiset(Fds(Complete(s, listener, c).outstanding)) ==
            multiset(ConnAfter(s.chat, OutcomeOf(s, c)).Keys + {listener})
  {
    var again := IoRequest(s.nextTag, AcceptReq, listener);
    assert Complete(s, listener, c).outstanding == rest + [again];
    PutFd(rest, again, s.chat.os.conn.Keys);
    if c.answer.NewFd? {
      assert (s.chat.os.conn - {c.answer.fd}).Keys == s.chat.os.conn.Keys;
    }
  }

  lemma TwoPutFds(rest: seq<IoRequest>, q: IoRequest, again: IoRequest, conn: map<int, nat>, c: nat)
    requires multiset(Fds(rest)) == multiset(conn.Keys)
    requires q.fd !in conn && again.fd !in conn && q.fd != again.fd
    ensures multiset(Fds(rest + [q] + [again])) == multiset(conn[q.fd := c].Keys + {again.fd})
  {
    PutFd(rest, q, conn.Keys);
    PutFd(rest + [q], again, conn.Keys + {q.fd});
    assert conn[q.fd := c].Keys == conn.Keys + {q.fd};
  }

  lemma RecvFds(s: State, listener: int, c: Completion)
    requires Owned(s, listener) && MayComplete(s, listener, c) && s.outstanding[c.pick].kind.RecvReq?
    ensures multiset(Fds(Complete(s, listener, c).outstanding)) ==
            multiset(ConnAfter(s.chat, OutcomeOf(s, c)).Keys + {listener})
  {
    TakeFd(s.outstanding, c.pick, s.chat.os.conn.Keys + {listener});
    var rest := Remove(s.outstanding, c.pick);
    if c.answer.Data? {
      AgainFds(s, listener, c, rest);
    } else {
      GoneFds(s, listener, c, rest);
    }
  }

  lemma AgainFds(s: State, listener: int, c: Completion, rest: seq<IoRequest>)
    requires c.pick < |s.outstanding| && s.outstanding[c.pick].kind.RecvReq? && c.answer.Data?
    requires rest == Remove(s.outstanding, c.pick) && s.outstanding[c.pick].fd in s.chat.os.conn.Keys + {listener}
    requires multiset(Fds(rest)) == multiset(s.chat.os.conn.Keys + {listener} - {s.outstanding[c.pick].fd})
    ensures multiset(Fds(Complete(s, listener, c).outstanding)) ==
            multiset(ConnAfter(s.chat, OutcomeOf(s, c)).Keys + {listener})
  {
    assert Complete(s, listener, c).outstanding == rest + [s.outstanding[c.pick]];
    PutBack(rest, s.outstanding[c.pick], s.chat.os.conn.Keys + {listener});
  }

  lemma GoneFds(s: State, listener: int, c: Completion, rest: seq<IoRequest>)
    requires c.pick < |s.outstanding| && s.outstanding[c.pick].kind.RecvReq? && (c.answer.End? || c.answer.Error?)
    requires rest == Remove(s.outstanding, c.pick) && s.outstanding[c.pick].fd != listener
    requires multiset(Fds(rest)) == multiset(s.chat.os.conn.Keys + {listener} - {s.outstanding[c.pick].fd})
    ensures multiset(Fds(Complete(s, listener, c).outstanding)) ==
            multiset(ConnAfter(s.chat, OutcomeOf(s, c)).Keys + {listener})
  {
    var fd := s.outstanding[c.pick].fd;
    assert Complete(s, listener, c).outstanding == rest;
    assert ConnAfter(s.chat, OutcomeOf(s, c)) == s.chat.os.conn - {fd};
    LessOne(s.chat.os.conn, fd, listener);
  }

  lemma PutBack(rest: seq<IoRequest>, r: IoRequest, fds: set<int>)
    requires r.fd in fds && multiset(Fds(rest)) == multiset(fds - {r.fd})
    ensures multiset(Fds(rest + [r])) == multiset(fds)
  {
    PutFd(rest, r, fds - {r.fd});
    assert fds - {r.fd} + {r.fd} == fds;
  }

  lemma LessOne(conn: map<int, nat>, fd: int, listener: int)
    requires fd != listener
    ensures (conn - {fd}).Keys + {listener} == conn.Keys + {listener} - {fd}
  {
  }

  lemma FdsAfter(s: State, listener: int, c: Completion)
    requires Owned(s, listener) && MayComplete(s, listener, c)
    ensures FdsOwned(Complete(s, listener, c), listener) && listener !in Complete(s, listener, c).chat.os.conn
  {
    HandleConn(s.chat, OutcomeOf(s, c));
    assert Complete(s, listener, c).chat == Handle(s.chat, OutcomeOf(s, c));
    CompletionIsLegal(s, listener, c);
    if s.outstanding[c.pick].kind.AcceptReq? {
      AcceptFds(s, listener, c);
    } else {
      RecvFds(s, listener, c);
    }
  }

  /** Request ownership is kept by every completion. */
  lemma CompleteOwned(s: State, listener: int, c: Completion)
    requires Owned(s, listener) && MayComplete(s, listener, c)
    ensures Owned(Complete(s, listener, c), listener)
    ensures May(s.chat, OutcomeOf(s, c)) && Complete(s, listener, c).chat == Handle(s.chat, OutcomeOf(s, c))
  {
    CompletionIsLegal(s, listener, c);
    HandleInv(s.chat, OutcomeOf(s, c));
    KindsAfter(s, listener, c);
    TagsAfter(s, listener, c);
    FdsAfter(s, listener, c);
  }

  lemma OutstandingIsLive(s: State, k: nat)
    requires TagsOwned(s) && k < |s.outstanding|
    ensures s.outstanding[k].tag in s.live
  {
    FdsRemove(s.outstanding, k);
    assert s.outstanding[k].tag in multiset(s.live);
  }

  // ---------------------------------------------------------------- what ownership means

  lemma OnceEach<T>(q: seq<T>, s: set<T>)
    requires multiset(q) == multiset(s)
    ensures |q| == |s|
    ensures forall x :: x in s <==> x in q
    ensures forall j, k :: 0 <= j < k < |q| ==> q[j] != q[k]
  {
    assert |multiset(q)| == |multiset(s)|;
    forall x ensures x in s <==> x in q {
      assert x in multiset(q) <==> x in multiset(s);
    }
    forall j, k | 0 <= j < k < |q| ensures q[j] != q[k] {
      assert q == q[..k] + [q[k]] + q[k + 1..];
      assert q[j] in multiset(q[..k]);
      assert multiset(s)[q[j]] <= 1;
    }
  }

  lemma {:induction false} ActiveFdsBound(t: Table, n: nat)
    requires n <= MAX_CLIENTS
    ensures |set i | 0 <= i < n && t[i].active :: t[i].fd| <= n
  {
    var fds := set i | 0 <= i < n && t[i].active :: t[i].fd;
    if n == 0 {
      assert fds == {};
    } else {
      ActiveFdsBound(t, n - 1);
      var before := set i | 0 <= i < n - 1 && t[i].active :: t[i].fd;
      assert fds <= before + {t[n - 1].fd};
      SubsetSize(fds, before + {t[n - 1].fd});
    }
  }

  lemma {:induction false} SubsetSize<T>(a: set<T>, b: set<T>)
    requires a <= b
    ensures |a| <= |b|
  {
    assert b == a + (b - a);
  }

  lemma OpenBound(ch: Chat)
    requires Inv(ch)
    ensures |ch.os.conn| <= MAX_CLIENTS
  {
    var fds := set i | 0 <= i < MAX_CLIENTS && ch.table[i].active :: ch.table[i].fd;
    forall fd | fd in ch.os.conn ensures fd in fds {
      assert ch.os.conn[fd] < |ch.os.out|;
      var k := Find(ch.table, fd, 0);
      assert ch.table[k].active && ch.table[k].fd == fd;
    }
    ActiveFdsBound(ch.table, MAX_CLIENTS);
    SubsetSize(ch.os.conn.Keys, fds);
    assert |ch.os.conn.Keys| == |ch.os.conn|;
  }

  /** At most 101 requests are outstanding, so the submission queue cannot run out; no two of them
      share a descriptor or an object. */
  lemma OwnedBounds(s: State, listener: int)
    requires Owned(s, listener)
    ensures |s.outstanding| == |s.chat.os.conn| + 1 == |s.live| <= 101 < ENTRIES
    ensures forall j, k :: 0 <= j < k < |s.outstanding| ==>
              s.outstanding[j].fd != s.outstanding[k].fd && s.outstanding[j].tag != s.outstanding[k].tag
  {
    var rs := s.outstanding;
    OnceEach(Fds(rs), s.chat.os.conn.Keys + {listener});
    OnceEach(Tags(rs), s.live);
    OpenBound(s.chat);
    assert |s.chat.os.conn.Keys| == |s.chat.os.conn|;
    forall j, k | 0 <= j < k < |rs| ensures rs[j].fd != rs[k].fd && rs[j].tag != rs[k].tag {
      assert Fds(rs)[j] != Fds(rs)[k] && Tags(rs)[j] != Tags(rs)[k];
    }
  }

  ghost predicate IsOutstanding(rs: seq<IoRequest>, kind: Kind, fd: int) {
    exists k :: 0 <= k < |rs| && rs[k].kind == kind && rs[k].fd == fd
  }

  /** An accept is outstanding, and receives are outstanding for exactly the open clients. */
  lemma OwnedCovers(s: State, listener: int, fd: int)
    requires Owned(s, listener)
    ensures IsOutstanding(s.outstanding, AcceptReq, fd) <==> fd == listener
    ensures IsOutstanding(s.outstanding, RecvReq, fd) <==> fd in s.chat.os.conn
  {
    var rs := s.outstanding;
    OnceEach(Fds(rs), s.chat.os.conn.Keys + {listener});
    if fd in s.chat.os.conn.Keys + {listener} {
      var k :| 0 <= k < |rs| && Fds(rs)[k] == fd;
      assert rs[k].fd == fd;
    }
    forall k | 0 <= k < |rs| ensures rs[k].fd in s.chat.os.conn.Keys + {listener} {
      assert Fds(rs)[k] in Fds(rs);
    }
  }

  /** The lookup of a completed receive finds a client number: -1 is never printed or sent. */
  lemma LookupNeverFails(s: State, listener: int, k: nat)
    requires Owned(s, listener) && k < |s.outstanding| && s.outstanding[k].kind.RecvReq?
    ensures 1 <= IdOf(s.chat.table, s.outstanding[k].fd) <= s.chat.total
  {
    var fd := s.outstanding[k].fd;
    OwnedCovers(s, listener, fd);
    assert s.chat.os.conn[fd] < |s.chat.os.out|;
    assert s.chat.table[Find(s.chat.table, fd, 0)].active;
  }

  // ---------------------------------------------------------------- runs

  ghost predicate LegalCompletions(s: State, listener: int, cs: seq<Completion>)
    decreases |cs|
  {
    cs == [] || (MayComplete(s, listener, cs[0]) && LegalCompletions(Complete(s, listener, cs[0]), listener, cs[1..]))
  }

  function RunCompletions(s: State, listener: int, cs: seq<Completion>): State
    requires LegalCompletions(s, listener, cs)
    decreases |cs|
  {
    if cs == [] then s else RunCompletions(Complete(s, listener, cs[0]), listener, cs[1..])
  }

  function RunOutcomes(s: State, listener: int, cs: seq<Completion>): seq<Outcome>
    requires LegalCompletions(s, listener, cs)
    decreases |cs|
  {
    if cs == [] then [] else [OutcomeOf(s, cs[0])] + RunOutcomes(Complete(s, listener, cs[0]), listener, cs[1..])
  }

  /** In every run, ownership holds at every loop head, and the chat state is that of handling the
      outcomes one by one. */
  lemma {:induction false} UringRunIsOutcomes(s: State, listener: int, cs: seq<Completion>)
    requires Owned(s, listener) && LegalCompletions(s, listener, cs)
    ensures Owned(RunCompletions(s, listener, cs), listener)
    ensures Legal(s.chat, RunOutcomes(s, listener, cs))
    ensures RunCompletions(s, listener, cs).chat == HandleAll(s.chat, RunOutcomes(s, listener, cs))
    decreases |cs|
  {
    if cs != [] {
      CompleteOwned(s, listener, cs[0]);
      UringRunIsOutcomes(Complete(s, listener, cs[0]), listener, cs[1..]);
    }
  }

  /** What a completion leads to, in terms of the table, the descriptors and what is sent. */
  lemma CompletionEffect(s: State, listener: int, c: Completion)
    requires Owned(s, listener) && MayComplete(s, listener, c)
    ensures s.outstanding[c.pick].kind.AcceptReq? ==>
              AcceptAnswered(s.chat, Complete(s, listener, c).chat, c.answer)
    ensures s.outstanding[c.pick].kind.RecvReq? ==>
              RecvAnswered(s.chat, Complete(s, listener, c).chat, s.outstanding[c.pick].fd, c.answer)
  {
    CompleteOwned(s, listener, c);
    if s.outstanding[c.pick].kind.AcceptReq? {
      AcceptEffect(s.chat, s.outstanding[c.pick].fd, c.answer);
    } else {
      RecvEffect(s.chat, s.outstanding[c.pick].fd, c.answer);
    }
  }

  lemma NextCompletion(s: State, listener: int, cs: seq<Completion>, n: nat)
    requires n < |cs| && LegalCompletions(s, listener, cs[n..])
    ensures MayComplete(s, listener, cs[n]) && LegalCompletions(Complete(s, listener, cs[n]), listener, cs[n + 1..])
    ensures RunCompletions(s, listener, cs[n..]) == RunCompletions(Complete(s, listener, cs[n]), listener, cs[n + 1..])
  {
    assert cs[n..][0] == cs[n] && cs[n..][1..] == cs[n + 1..];
  }

  // ---------------------------------------------------------------- the program

  class UringServer {
    const server: Server
    const listener: int
    var unsubmitted: nat                  // entries taken from the submission queue
    var outstanding: seq<IoRequest>
    var live: set<nat>
    var nextTag: nat

    ghost function Abs(): State
      reads this, server, server.clients
      requires server.Valid()
    {
      State(server.Abs(), outstanding, live, nextTag)
    }

    constructor (listener: int)
      ensures server.Valid() && Start(server.Abs()) && Owned(Abs(), listener) && this.listener == listener
      ensures unsubmitted == 0 && fresh(server) && fresh(server.clients)
    {
      this.listener := listener;
      server := new Server();
      unsubmitted, outstanding, live, nextTag := 0, [], {}, 0;
      new;
      StartShowsEmpty(server.Abs());
      IssueRequest(AcceptReq, listener);
      assert outstanding == [IoRequest(0, AcceptReq, listener)];
      assert Fds(outstanding) == [listener] && Tags(outstanding) == [0];
    }

    /** malloc, fill in, take a submission entry, submit: add_accept_request, and add_recv_request
        without an object to reuse. The entry is used unchecked, so there has to be one. */
    method IssueRequest(kind: Kind, fd: int)
      requires unsubmitted < ENTRIES
      modifies this`unsubmitted, this`outstanding, this`live, this`nextTag
      ensures unsubmitted == 0
      ensures outstanding == old(outstanding) + [IoRequest(old(nextTag), kind, fd)]
      ensures live == old(live) + {old(nextTag)} && nextTag == old(nextTag) + 1
    {
      unsubmitted := unsubmitted + 1;
      var req := IoRequest(nextTag, kind, fd);
      live, nextTag := live + {nextTag}, nextTag + 1;
      outstanding := outstanding + [req];
      unsubmitted := 0;
    }

    /** add_recv_request with the object that has just completed. */
    method ReuseRequest(req: IoRequest)
      requires unsubmitted < ENTRIES && req.tag in live
      modifies this`unsubmitted, this`outstanding
      ensures unsubmitted == 0 && outstanding == old(outstanding) + [req]
    {
      unsubmitted := unsubmitted + 1;
      outstanding := outstanding + [req];
      unsubmitted := 0;
    }

    method Free(tag: nat)
      requires tag in live
      modifies this`live
      ensures live == old(live) - {tag}
    {
      live := live - {tag};
    }

    /** The branch for a completed accept. */
    method OnAccept(req: IoRequest, a: Answer)
      requires server.Valid() && unsubmitted == 0 && req.tag in live && (a.NewFd? || a.NoFd?)
      modifies this, server, server.clients
      ensures server.Valid() && unsubmitted == 0
      ensures Abs() == AcceptDone(old(Abs()), listener, req, a)
    {
      ghost var s := Abs();
      if a.NewFd? {
        var added := server.Register(a.fd);
        if added {
          IssueRequest(RecvReq, a.fd);
        }
      }
      assert server.Abs() == Handle(s.chat, ResultOf(true, req.fd, a));
      IssueRequest(AcceptReq, listener);
      Free(req.tag);
    }

    /** The branch for a completed recv. */
    method OnRecv(req: IoRequest, a: Answer)
      requires server.Valid() && unsubmitted == 0 && req.tag in live && (a.Data? || a.End? || a.Error?)
      modifies this, server, server.clients
      ensures server.Valid() && unsubmitted == 0
      ensures Abs() == RecvDone(old(Abs()), req, a)
    {
      server.Relay(req.fd, a);
      if a.Data? {
        ReuseRequest(req);
      } else {
        Free(req.tag);
      }
    }

    /** One trip round the completion loop. */
    method OnCompletion(c: Completion)
      requires server.Valid() && unsubmitted == 0 && Owned(Abs(), listener) && MayComplete(Abs(), listener, c)
      modifies this, server, server.clients
      ensures server.Valid() && unsubmitted == 0 && Owned(Abs(), listener)
      ensures Abs() == Complete(old(Abs()), listener, c)
      ensures var req := old(outstanding[c.pick]);
              if req.kind.AcceptReq? then AcceptAnswered(old(server.Abs()), server.Abs(), c.answer)
              else RecvAnswered(old(server.Abs()), server.Abs(), req.fd, c.answer)
    {
      ghost var s := Abs();
      CompleteOwned(s, listener, c);
      CompletionEffect(s, listener, c);
      OutstandingIsLive(s, c.pick);
      var req := outstanding[c.pick];
      outstanding := Remove(outstanding, c.pick);
      assert Abs() == s.(outstanding := Remove(s.outstanding, c.pick));
      if req.kind.AcceptReq? {
        OnAccept(req, c.answer);
      } else {
        OnRecv(req, c.answer);
      }
    }

    /** The server loop, for as long as the given completions last. */
    method Serve(cs: seq<Completion>)
      requires server.Valid() && unsubmitted == 0 && Owned(Abs(), listener) && LegalCompletions(Abs(), listener, cs)
      modifies this, server, server.clients
      ensures server.Valid() && Owned(Abs(), listener)
      ensures server.Abs() == HandleAll(old(server.Abs()), RunOutcomes(old(Abs()), listener, cs))
    {
      UringRunIsOutcomes(Abs(), listener, cs);
      assert cs[0..] == cs;
      for n := 0 to |cs|
        invariant server.Valid() && unsubmitted == 0 && Owned(Abs(), listener)
        invariant LegalCompletions(Abs(), listener, cs[n..])
        invariant RunCompletions(Abs(), listener, cs[n..]) == RunCompletions(old(Abs()), listener, cs)
      {
        NextCompletion(Abs(), listener, cs, n);
        OnCompletion(cs[n]);
      }
    }
  }
}
