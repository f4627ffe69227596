/** What holds of the threaded server in every interleaving. */
module ThreadsTheorems {
  import opened Seqs
  import opened ChatRoom
  import opened ChatServer
  import opened Threads
  import opened ThreadsSafety

  lemma NextSound(s: State, m: Move)
    requires Sound(s) && Enabled(s, m)
    ensures Sound(Next(s, m))
  {
    match m
    case Accept(fd) => AcceptSound(s, fd);
    case Admit => AdmitSound(s);
    case Reject => RejectSound(s);
    case Spawn => SpawnSound(s);
    case ScanSlot(c) => ScanSlotSound(s, c);
    case Receive(c, a) => ReceiveSound(s, c, a);
    case Lock(c) => LockSound(s, c);
    case SendSlot(c) => SendSlotSound(s, c);
    case Unlock(c) => UnlockSound(s, c);
    case Clear(c) => ClearSound(s, c);
    case Close(c) => CloseSound(s, c);
  }

  ghost predicate LegalMoves(s: State, ms: seq<Move>)
    decreases |ms|
  {
    ms == [] || (Enabled(s, ms[0]) && LegalMoves(Next(s, ms[0]), ms[1..]))
  }

  function RunMoves(s: State, ms: seq<Move>): State
    requires LegalMoves(s, ms)
    decreases |ms|
  {
    if ms == [] then s else RunMoves(Next(s, ms[0]), ms[1..])
  }

  /** 0 to 2 are the standard streams, 3 is the listening socket. */
  const FIRST_CLIENT_FD := 4

  /** The descriptor that POSIX has accept return: the lowest one that is not open. The theorems about
      every run do not need this; a run given as an example has to keep to it. */
  ghost predicate LowestFree(os: Os, fd: int) {
    FIRST_CLIENT_FD <= fd && fd !in os.conn && forall g :: FIRST_CLIENT_FD <= g < fd ==> g in os.conn
  }

  ghost predicate LowestAccepts(s: State, ms: seq<Move>)
    requires LegalMoves(s, ms)
    decreases |ms|
  {
    ms == [] || ((ms[0].Accept? ==> LowestFree(s.os, ms[0].fd)) && LowestAccepts(Next(s, ms[0]), ms[1..]))
  }

  /** The invariant holds after any interleaving of any length. */
  lemma {:induction false} RunSound(s: State, ms: seq<Move>)
    requires Sound(s) && LegalMoves(s, ms)
    ensures Sound(RunMoves(s, ms))
    decreases |ms|
  {
    if ms != [] {
      NextSound(s, ms[0]);
      RunSound(Next(s, ms[0]), ms[1..]);
    }
  }

  /** And so in every state the program can reach. */
  lemma ReachableSound(s: State, ms: seq<Move>)
    requires Start(s) && LegalMoves(s, ms)
    ensures Sound(RunMoves(s, ms))
  {
    StartSound(s);
    RunSound(s, ms);
  }

  // ---------------------------------------------------------------- the table

  /** Active slots hold pairwise distinct open descriptors and distinct numbers in 1..total. */
  lemma TableSafe(s: State, i: nat, j: nat)
    requires Sound(s) && i < MAX_CLIENTS && j < MAX_CLIENTS && s.table[i].active && s.table[j].active
    ensures s.table[i].fd in s.os.conn && 1 <= s.table[i].id <= s.total
    ensures i != j ==> s.table[i].fd != s.table[j].fd && s.table[i].id != s.table[j].id
  {
    SlotOwner(s, i);
    SlotOwner(s, j);
    var c, d := s.os.conn[s.table[i].fd], s.os.conn[s.table[j].fd];
    assert ThreadLinked(s.table, s.os, s.threads[c], c) && ThreadLinked(s.table, s.os, s.threads[d], d);
  }

  ghost function NumbersOf(threads: map<nat, Thread>): map<nat, int> {
    map c | c in threads :: threads[c].number
  }

  /** Client numbers follow the order in which the connections were accepted, and the connection about to
      be admitted is the latest. */
  ghost predicate NumbersInOrder(s: State) {
    && s.total >= 0 && Numbered(NumbersOf(s.threads), s.total)
    && (s.main.Admitting? && s.main.fd in s.os.conn ==>
          forall c :: c in s.threads ==> c < s.os.conn[s.main.fd])
  }

  lemma NumbersInOrderKept(s: State, m: Move)
    requires Links(s) && NumbersInOrder(s) && Enabled(s, m)
    ensures NumbersInOrder(Next(s, m))
  {
    match m
    case Accept(fd) => AcceptInOrder(s, fd);
    case Admit => AdmitInOrder(s);
    case Close(c) => CloseInOrder(s, c);
    case _ => OthersInOrder(s, m);
  }

  lemma AcceptInOrder(s: State, fd: int)
    requires Links(s) && NumbersInOrder(s) && Enabled(s, Accept(fd))
    ensures NumbersInOrder(Next(s, Accept(fd)))
  {
    forall c | c in s.threads ensures c < |s.os.out| {
      assert ThreadLinked(s.table, s.os, s.threads[c], c);
    }
  }

  /** A move that neither starts nor ends a thread changes no number. */
  lemma OthersInOrder(s: State, m: Move)
    requires NumbersInOrder(s) && Enabled(s, m) && !m.Accept? && !m.Admit? && !m.Close?
    ensures NumbersInOrder(Next(s, m))
  {
    var t := Next(s, m);
    assert t.threads.Keys == s.threads.Keys;
    assert forall c :: c in s.threads ==> t.threads[c].number == s.threads[c].number;
    assert NumbersOf(t.threads) == NumbersOf(s.threads);
  }

  lemma AdmitInOrder(s: State)
    requires NumbersInOrder(s) && Enabled(s, Admit)
    ensures NumbersInOrder(Next(s, Admit))
  {
    if FirstFree(s.table, 0) < MAX_CLIENTS {
      var c := s.os.conn[s.main.fd];
      assert forall d :: d in NumbersOf(s.threads) ==> d in s.threads;
      NewestNumber(NumbersOf(s.threads), c, s.total);
      assert NumbersOf(Next(s, Admit).threads) == NumbersOf(s.threads)[c := s.total + 1];
    }
  }

  lemma CloseInOrder(s: State, c: nat)
    requires NumbersInOrder(s) && Enabled(s, Close(c))
    ensures NumbersInOrder(Next(s, Close(c)))
  {
    var less, all := NumbersOf(s.threads - {c}), NumbersOf(s.threads);
    assert forall d :: d in less ==> d in all && less[d] == all[d];
  }

  /** In every state the program can reach, of two clients the one accepted first has the lower number. */
  lemma ReachableNumbered(s: State, ms: seq<Move>)
    requires Start(s) && LegalMoves(s, ms)
    ensures Numbered(NumbersOf(RunMoves(s, ms).threads), RunMoves(s, ms).total)
  {
    StartSound(s);
    assert NumbersOf(s.threads) == map[];
    RunInOrder(s, ms);
  }

  lemma {:induction false} RunInOrder(s: State, ms: seq<Move>)
    requires Sound(s) && NumbersInOrder(s) && LegalMoves(s, ms)
    ensures NumbersInOrder(RunMoves(s, ms))
    decreases |ms|
  {
    if ms != [] {
      NextSound(s, ms[0]);
      NumbersInOrderKept(s, ms[0]);
      RunInOrder(Next(s, ms[0]), ms[1..]);
    }
  }

  /** At most one thread is inside a broadcast. */
  lemma MutualExclusion(s: State, c: nat, d: nat)
    requires Sound(s) && c in s.threads && d in s.threads
    requires s.threads[c].phase.Sending? && s.threads[d].phase.Sending?
    ensures c == d
  {
    assert s.holder == Some(c) && s.holder == Some(d);
  }

  // ---------------------------------------------------------------- delivery

  /** Whenever the mutex is free, every connection has been sent the log from its joining to its
      leaving, without its own messages. */
  lemma UnlockedDelivery(s: State, c: nat)
    requires Sound(s) && s.holder == None && c < |s.os.out|
    ensures c in s.h.joined ==> s.h.joined[c] <= Until(s.h, c) <= |s.h.log|
    ensures s.os.out[c] == if c in s.h.joined then Heard(s.h.log[s.h.joined[c]..Until(s.h, c)], c) else []
  {
    assert DeliveredTo(s, c);
  }

  /** Entry k of the log has been sent to c: it lies in c's stretch of the log, up to where a broadcast
      under way has come, and is not c's own. */
  ghost predicate Received(s: State, c: nat, k: nat) {
    c in s.h.joined && s.h.joined[c] <= k < Upto(s, c) <= |s.h.log| && s.h.log[k].sender != c
  }

  /** Where in c's box entry k of the log stands. */
  ghost function PlaceIn(s: State, c: nat, k: nat): nat
    requires Received(s, c, k)
  {
    Place(s.h.log, s.h.joined[c], k, c)
  }

  lemma BoxInLogOrder(s: State, c: nat, k: nat, l: nat)
    requires Sound(s) && c < |s.os.out| && k < l && Received(s, c, k) && Received(s, c, l)
    ensures PlaceIn(s, c, k) < PlaceIn(s, c, l) < |s.os.out[c]|
    ensures s.os.out[c][PlaceIn(s, c, k)] == s.h.log[k].msg && s.os.out[c][PlaceIn(s, c, l)] == s.h.log[l].msg
  {
    assert DeliveredTo(s, c);
    ReceivedInLogOrder(s.h.log, s.h.joined[c], k, l, Upto(s, c), c);
  }

  /** At every moment, in the middle of a broadcast too: any two clients that have both received two
      broadcasts have received them in the same order, that of the log. */
  lemma SameOrder(s: State, c: nat, d: nat, k: nat, l: nat)
    requires Sound(s) && c < |s.os.out| && d < |s.os.out| && k < l
    requires Received(s, c, k) && Received(s, c, l) && Received(s, d, k) && Received(s, d, l)
    ensures PlaceIn(s, c, k) < PlaceIn(s, c, l) < |s.os.out[c]|
    ensures PlaceIn(s, d, k) < PlaceIn(s, d, l) < |s.os.out[d]|
    ensures s.os.out[c][PlaceIn(s, c, k)] == s.os.out[d][PlaceIn(s, d, k)] == s.h.log[k].msg
    ensures s.os.out[c][PlaceIn(s, c, l)] == s.os.out[d][PlaceIn(s, d, l)] == s.h.log[l].msg
  {
    BoxInLogOrder(s, c, k, l);
    BoxInLogOrder(s, d, k, l);
  }

  /** The mutex stays with c throughout the moves. */
  ghost predicate HeldBy(s: State, c: nat, ms: seq<Move>)
    requires LegalMoves(s, ms)
    decreases |ms|
  {
    s.holder == Some(c) && (ms == [] || HeldBy(Next(s, ms[0]), c, ms[1..]))
  }

  lemma HeldStep(s: State, m: Move)
    requires Sound(s) && Enabled(s, m) && s.holder.Some? && Next(s, m).holder.Some?
    ensures Next(s, m).h == s.h
  {
  }

  lemma {:induction false} HeldRun(s: State, c: nat, ms: seq<Move>)
    requires Sound(s) && LegalMoves(s, ms) && HeldBy(s, c, ms)
    ensures RunMoves(s, ms).h == s.h && RunMoves(s, ms).holder == Some(c) && Sound(RunMoves(s, ms))
    decreases |ms|
  {
    if ms != [] {
      HeldStep(s, ms[0]);
      NextSound(s, ms[0]);
      HeldRun(Next(s, ms[0]), c, ms[1..]);
    }
  }

  /** How many of the moves are sends of c's. */
  ghost function OwnSends(ms: seq<Move>, c: nat): nat {
    if ms == [] then 0 else (if ms[0] == SendSlot(c) then 1 else 0) + OwnSends(ms[1..], c)
  }

  lemma HolderSends(s: State, c: nat)
    requires LockOk(s) && s.holder == Some(c)
    ensures c in s.threads && s.threads[c].phase.Sending?
  {
  }

  /** The holder's place in the table moves with its own sends only, and not past the end. */
  ghost predicate SentOn(p: Phase, q: Phase, sends: nat) {
    && p.Sending? && q == Sending(p.msg, p.i + sends, p.last)
    && (p.i <= MAX_CLIENTS ==> q.i <= MAX_CLIENTS)
  }

  /** The move takes c on from one send to the next, or leaves it where it is. */
  ghost predicate SendsOn(s: State, t: State, c: nat, sends: nat) {
    c in s.threads && c in t.threads && SentOn(s.threads[c].phase, t.threads[c].phase, sends)
  }

  lemma HeldPhase(s: State, m: Move, c: nat)
    requires Links(s) && LockOk(s) && Enabled(s, m) && s.holder == Some(c) && Next(s, m).holder == Some(c)
    ensures SendsOn(s, Next(s, m), c, if m == SendSlot(c) then 1 else 0)
  {
    HolderSends(s, c);
  }

  ghost predicate StepsSendOn(s: State, c: nat, ms: seq<Move>)
    requires LegalMoves(s, ms)
    decreases |ms|
  {
    ms == [] || (SendsOn(s, Next(s, ms[0]), c, if ms[0] == SendSlot(c) then 1 else 0)
                 && StepsSendOn(Next(s, ms[0]), c, ms[1..]))
  }

  lemma HeldFirst(s: State, c: nat, ms: seq<Move>)
    requires LegalMoves(s, ms) && HeldBy(s, c, ms) && ms != []
    ensures s.holder == Some(c) && Next(s, ms[0]).holder == Some(c) && HeldBy(Next(s, ms[0]), c, ms[1..])
  {
  }

  lemma {:induction false} HeldSteps(s: State, c: nat, ms: seq<Move>)
    requires Sound(s) && LegalMoves(s, ms) && HeldBy(s, c, ms)
    ensures StepsSendOn(s, c, ms)
    decreases |ms|
  {
    if ms != [] {
      HeldFirst(s, c, ms);
      HeldPhase(s, ms[0], c);
      NextSound(s, ms[0]);
      HeldSteps(Next(s, ms[0]), c, ms[1..]);
    }
  }

  lemma SentTwice(s: State, t: State, u: State, c: nat, a: nat, b: nat)
    requires SendsOn(s, t, c, a) && SendsOn(t, u, c, b)
    ensures SendsOn(s, u, c, a + b)
  {
  }

  lemma {:induction false} StepsAdd(s: State, c: nat, ms: seq<Move>)
    requires LegalMoves(s, ms) && StepsSendOn(s, c, ms) && c in s.threads && s.threads[c].phase.Sending?
    ensures SendsOn(s, RunMoves(s, ms), c, OwnSends(ms, c))
    decreases |ms|
  {
    if ms != [] {
      var t := Next(s, ms[0]);
      StepsAdd(t, c, ms[1..]);
      SentTwice(s, t, RunMoves(s, ms), c, if ms[0] == SendSlot(c) then 1 else 0, OwnSends(ms[1..], c));
    }
  }

  /** While it holds the mutex a thread advances by its own sends only, whatever the others do. */
  lemma HeldSends(s: State, c: nat, ms: seq<Move>)
    requires Sound(s) && LegalMoves(s, ms) && HeldBy(s, c, ms)
    ensures SendsOn(s, RunMoves(s, ms), c, OwnSends(ms, c))
  {
    HolderSends(s, c);
    HeldSteps(s, c, ms);
    StepsAdd(s, c, ms);
  }

  /** The mutex is given back: from taking it, and whatever moves come in between, its holder can always
      move; it can unlock after exactly MAX_CLIENTS sends of its own, and until then it can send. */
  lemma HolderReleases(s: State, c: nat, ms: seq<Move>)
    requires Sound(s) && Enabled(s, Lock(c)) && LegalMoves(Next(s, Lock(c)), ms)
    requires HeldBy(Next(s, Lock(c)), c, ms)
    ensures OwnSends(ms, c) <= MAX_CLIENTS
    ensures Enabled(RunMoves(Next(s, Lock(c)), ms), Unlock(c)) <==> OwnSends(ms, c) == MAX_CLIENTS
    ensures Enabled(RunMoves(Next(s, Lock(c)), ms), SendSlot(c)) <==> OwnSends(ms, c) < MAX_CLIENTS
  {
    var l := Next(s, Lock(c));
    NextSound(s, Lock(c));
    HeldSends(l, c, ms);
    JustLocked(s, c);
    MayMoveIff(RunMoves(l, ms), c);
    SentFromStart(l.threads[c].phase, RunMoves(l, ms).threads[c].phase, OwnSends(ms, c));
  }

  lemma JustLocked(s: State, c: nat)
    requires Enabled(s, Lock(c))
    ensures c in Next(s, Lock(c)).threads && Next(s, Lock(c)).threads[c].phase.Sending?
    ensures Next(s, Lock(c)).threads[c].phase.i == 0
  {
  }

  lemma SentFromStart(p: Phase, q: Phase, sends: nat)
    requires SentOn(p, q, sends) && p.i == 0
    ensures q.Sending? && q.i == sends <= MAX_CLIENTS
  {
  }

  lemma MayMoveIff(s: State, c: nat)
    requires c in s.threads && s.threads[c].phase.Sending?
    ensures Enabled(s, Unlock(c)) <==> s.threads[c].phase.i >= MAX_CLIENTS
    ensures Enabled(s, SendSlot(c)) <==> s.threads[c].phase.i < MAX_CLIENTS
  {
  }

  lemma {:induction false} OutGrows(s: State, ms: seq<Move>)
    requires Sound(s) && LegalMoves(s, ms)
    ensures |s.os.out| <= |RunMoves(s, ms).os.out|
    decreases |ms|
  {
    if ms != [] {
      NextSound(s, ms[0]);
      OutGrowsOne(s, ms[0]);
      OutGrows(Next(s, ms[0]), ms[1..]);
    }
  }

  lemma OutGrowsOne(s: State, m: Move)
    requires Sound(s) && Enabled(s, m)
    ensures |s.os.out| <= |Next(s, m).os.out|
  {
  }

  /** Some active slot's descriptor leads to connection d. */
  ghost predicate Active(t: Table, os: Os, d: nat) {
    exists i :: 0 <= i < MAX_CLIENTS && t[i].active && t[i].fd in os.conn && os.conn[t[i].fd] == d
  }

  /** The clients that the model calls present are those in active slots. */
  lemma PresentIffActive(s: State, d: nat)
    requires Links(s)
    ensures Present(s.threads, d) <==> Active(s.table, s.os, d)
  {
    if Present(s.threads, d) {
      assert ThreadLinked(s.table, s.os, s.threads[d], d);
      assert s.table[s.threads[d].slot].active;
    }
    if Active(s.table, s.os, d) {
      var i :| 0 <= i < MAX_CLIENTS && s.table[i].active && s.table[i].fd in s.os.conn && s.os.conn[s.table[i].fd] == d;
      SlotOwner(s, i);
    }
  }

  /** One broadcast, from lock to unlock, with any other moves in between: exactly the clients that
      were active when the mutex was taken receive the message, once, and the sender does not.
      A connection accepted meanwhile receives nothing. */
  lemma BroadcastExact(s: State, c: nat, ms: seq<Move>, d: nat)
    requires Sound(s) && Enabled(s, Lock(c)) && LegalMoves(Next(s, Lock(c)), ms)
    requires HeldBy(Next(s, Lock(c)), c, ms)
    requires Enabled(RunMoves(Next(s, Lock(c)), ms), Unlock(c))
    requires d < |Next(RunMoves(Next(s, Lock(c)), ms), Unlock(c)).os.out|
    ensures var u := Next(RunMoves(Next(s, Lock(c)), ms), Unlock(c));
            u.os.out[d] == (if d < |s.os.out| then s.os.out[d] else [])
                         + (if Active(s.table, s.os, d) && d != c then [s.threads[c].phase.msg] else [])
    ensures |s.os.out| <= |Next(RunMoves(Next(s, Lock(c)), ms), Unlock(c)).os.out|
  {
    var l := Next(s, Lock(c));
    var t := RunMoves(l, ms);
    NextSound(s, Lock(c));
    HeldRun(l, c, ms);
    OutGrows(l, ms);
    UnlockQuiet(t, c);
    PresentIffActive(s, d);
    AfterBroadcast(s, Next(t, Unlock(c)), c, d);
  }

  lemma UnlockQuiet(t: State, c: nat)
    requires Sound(t) && Enabled(t, Unlock(c))
    ensures Sound(Next(t, Unlock(c))) && Next(t, Unlock(c)).holder == None
    ensures Next(t, Unlock(c)).os == t.os && Next(t, Unlock(c)).h == t.h
  {
    NextSound(t, Unlock(c));
  }

  /** Two states with the mutex free, the second with one more entry in its log. */
  lemma AfterBroadcast(s: State, u: State, c: nat, d: nat)
    requires Sound(s) && Sound(u) && Enabled(s, Lock(c)) && u.holder == None
    requires u.h == s.h.(log := s.h.log + [Entry(c, s.threads[c].phase.msg)])
    requires |s.os.out| <= |u.os.out| && d < |u.os.out|
    ensures u.os.out[d] == (if d < |s.os.out| then s.os.out[d] else [])
                         + (if Present(s.threads, d) && d != c then [s.threads[c].phase.msg] else [])
  {
    UnlockedDelivery(u, d);
    PresentIff(s, d);
    if d < |s.os.out| {
      UnlockedDelivery(s, d);
      CutGrows(s.h, Entry(c, s.threads[c].phase.msg), d);
    }
  }

  lemma PresentIff(s: State, d: nat)
    requires Sound(s)
    ensures Present(s.threads, d) <==> d in s.h.joined && d !in s.h.left
    ensures d in s.h.joined ==> d < |s.os.out|
  {
  }

  /** What one more log entry adds to a connection's stretch of the log. */
  lemma CutGrows(h: History, e: Entry, d: nat)
    requires d in h.joined ==> h.joined[d] <= Until(h, d) <= |h.log|
    ensures var g := h.(log := h.log + [e]);
            d in h.joined ==>
              Heard(g.log[h.joined[d]..Until(g, d)], d) ==
              Heard(h.log[h.joined[d]..Until(h, d)], d) + (if d in h.left || e.sender == d then [] else [e.msg])
  {
    var g := h.(log := h.log + [e]);
    if d in h.joined {
      var j := h.joined[d];
      if d in h.left {
        assert g.log[j..Until(g, d)] == h.log[j..Until(h, d)];
      } else {
        assert g.log[j..|g.log|] == h.log[j..|h.log|] + [e];
        HeardAppend(h.log[j..|h.log|], e, d);
      }
    }
  }
}
