/**
 Whose number a handler finds. The search is not under the mutex, looks at slots whether
 they are active or not, and takes the last match, so a slot that a departed client left
 behind can mislead it. This module says exactly when.
 */
module OwnNumber {
  import opened Seqs
  import opened ChatRoom
  import opened ChatServer
  import opened Threads
  import opened ThreadsSafety
  import opened ThreadsTheorems

  /** The thread has not ended yet. */
  ghost predicate StaysIn(s: State, ms: seq<Move>, c: nat)
    requires LegalMoves(s, ms)
    decreases |ms|
  {
    c in s.threads && (ms == [] || StaysIn(Next(s, ms[0]), ms[1..], c))
  }

  /** Admitted, and not yet searching. */
  ghost predicate Fresh(th: Thread) {
    th.phase.Starting? || th.phase == Scan(0, None)
  }

  ghost predicate Searching(th: Thread) {
    th.phase.Starting? || th.phase.Scan?
  }

  // ---------------------------------------------------------------- in one run

  /** The move looks at a slot behind the client's own and finds the client's descriptor in it. */
  ghost predicate MeetsStale(s: State, m: Move, c: nat) {
    && m == ScanSlot(c) && c in s.threads && s.threads[c].phase.Scan?
    && s.threads[c].slot < s.threads[c].phase.i < MAX_CLIENTS
    && s.table[s.threads[c].phase.i].fd == s.threads[c].fd
  }

  ghost predicate MetStale(s: State, ms: seq<Move>, c: nat)
    requires LegalMoves(s, ms)
    decreases |ms|
  {
    ms != [] && (MeetsStale(s, ms[0], c) || MetStale(Next(s, ms[0]), ms[1..], c))
  }

  lemma MisledStep(s: State, m: Move, c: nat)
    requires Enabled(s, m) && c in s.threads && c in Next(s, m).threads
    requires m.Admit? ==> s.os.conn[s.main.fd] != c
    ensures Next(s, m).threads[c].misled <==> s.threads[c].misled || MeetsStale(s, m, c)
    ensures Next(s, m).threads[c].number == s.threads[c].number
  {
  }

  lemma {:induction false} MisledIffMet(s: State, ms: seq<Move>, c: nat)
    requires Sound(s) && LegalMoves(s, ms) && StaysIn(s, ms, c)
    ensures c in RunMoves(s, ms).threads && Sound(RunMoves(s, ms))
    ensures RunMoves(s, ms).threads[c].misled <==> s.threads[c].misled || MetStale(s, ms, c)
    ensures RunMoves(s, ms).threads[c].number == s.threads[c].number
    decreases |ms|
  {
    if ms != [] {
      NextSound(s, ms[0]);
      if ms[0].Admit? {
        NewcomerIsNew(s);
      }
      MisledStep(s, ms[0], c);
      MisledIffMet(Next(s, ms[0]), ms[1..], c);
    }
  }

  lemma NumberIff(s: State, c: nat)
    requires Sound(s) && c in s.threads && !s.threads[c].phase.Starting? && !s.threads[c].phase.Scan?
    ensures s.threads[c].id == s.threads[c].number <==> !s.threads[c].misled
  {
    assert ScanOk(s.threads[c]);
  }

  lemma FreshNotMisled(s: State, c: nat)
    requires Sound(s) && c in s.threads && Fresh(s.threads[c])
    ensures !s.threads[c].misled
  {
    assert ScanOk(s.threads[c]);
  }

  /** In any interleaving, the number a handler ends up with is its own exactly when its search never
      came upon its descriptor in a slot behind its own. */
  lemma FoundNumberIff(s: State, ms: seq<Move>, c: nat)
    requires Sound(s) && c in s.threads && Fresh(s.threads[c]) && LegalMoves(s, ms) && StaysIn(s, ms, c)
    ensures c in RunMoves(s, ms).threads
    ensures var th := RunMoves(s, ms).threads[c];
            !Searching(th) ==> (th.id == s.threads[c].number <==> !MetStale(s, ms, c))
  {
    FreshNotMisled(s, c);
    MisledIffMet(s, ms, c);
    if !Searching(RunMoves(s, ms).threads[c]) {
      NumberIff(RunMoves(s, ms), c);
    }
  }

  /** A message under way carries the number its handler found, and announces a departure exactly when
      the handler is about to leave. */
  ghost predicate MessageOk(th: Thread) {
    match th.phase
    case Wanting(msg, last) => msg.id == th.id && (msg.Left? <==> last)
    case Sending(msg, _, last) => msg.id == th.id && (msg.Left? <==> last)
    case _ => true
  }

  ghost predicate MessagesOk(threads: map<nat, Thread>) {
    forall c {:trigger threads[c]} :: c in threads ==> MessageOk(threads[c])
  }

  lemma {:induction false} MessagesKept(s: State, ms: seq<Move>)
    requires LegalMoves(s, ms) && MessagesOk(s.threads)
    ensures MessagesOk(RunMoves(s, ms).threads)
    decreases |ms|
  {
    if ms != [] {
      MessageKeptOne(s, ms[0]);
      MessagesKept(Next(s, ms[0]), ms[1..]);
    }
  }

  lemma MessageKeptOne(s: State, m: Move)
    requires Enabled(s, m) && MessagesOk(s.threads)
    ensures MessagesOk(Next(s, m).threads)
  {
    if m.Lock? || m.SendSlot? {
      assert MessageOk(s.threads[m.c]);
    }
  }

  lemma ReachableMessages(s: State, ms: seq<Move>)
    requires Start(s) && LegalMoves(s, ms)
    ensures MessagesOk(RunMoves(s, ms).threads)
  {
    MessagesKept(s, ms);
  }

  /** What a handler puts into the log names its sender's own number exactly when its search never came
      upon its descriptor in a slot behind its own. */
  lemma LoggedNumberIff(s: State, ms: seq<Move>, c: nat)
    requires Sound(s) && MessagesOk(s.threads) && c in s.threads && Fresh(s.threads[c])
    requires LegalMoves(s, ms) && StaysIn(s, ms, c) && Enabled(RunMoves(s, ms), Lock(c))
    ensures var t, log := RunMoves(s, ms), Next(RunMoves(s, ms), Lock(c)).h.log;
            && |log| == |t.h.log| + 1 && log[|log| - 1].sender == c
            && (log[|log| - 1].msg.id == s.threads[c].number <==> !MetStale(s, ms, c))
            && (log[|log| - 1].msg.Left? <==> t.threads[c].phase.last)
  {
    FoundNumberIff(s, ms, c);
    MessagesKept(s, ms);
    assert MessageOk(RunMoves(s, ms).threads[c]);
  }

  // ---------------------------------------------------------------- in every run

  /** No later slot holds a stale copy of the handler's descriptor. */
  ghost predicate NoStaleCopy(t: Table, th: Thread) {
    forall q :: th.slot < q < MAX_CLIENTS ==> t[q].fd != th.fd
  }

  /** In any interleaving, no stale copy can appear while the descriptor is open: a handler admitted
      without one is never misled. */
  lemma NoStaleKept(s: State, m: Move, c: nat)
    requires Sound(s) && Enabled(s, m) && c in s.threads && c in Next(s, m).threads
    requires NoStaleCopy(s.table, s.threads[c]) && !s.threads[c].misled
    ensures NoStaleCopy(Next(s, m).table, Next(s, m).threads[c]) && !Next(s, m).threads[c].misled
    ensures Next(s, m).threads[c].number == s.threads[c].number
  {
    if m.Admit? {
      NewcomerIsNew(s);
    }
    MisledStep(s, m, c);
    NoStaleTable(s, m, c);
  }

  lemma NoStaleTable(s: State, m: Move, c: nat)
    requires Sound(s) && Enabled(s, m) && c in s.threads && c in Next(s, m).threads
    requires NoStaleCopy(s.table, s.threads[c])
    ensures NoStaleCopy(Next(s, m).table, Next(s, m).threads[c])
  {
    if m.Admit? {
      NoStaleAdmit(s, c);
    } else if m.Clear? {
      NoStaleClear(s, m.c, c);
    }
  }

  lemma NoStaleClear(s: State, d: nat, c: nat)
    requires Links(s) && Enabled(s, Clear(d)) && c in s.threads && NoStaleCopy(s.table, s.threads[c])
    ensures NoStaleCopy(Next(s, Clear(d)).table, Next(s, Clear(d)).threads[c])
  {
    ClearsOwnSlot(s, d);
  }

  /** A newcomer's descriptor is not the one another client has open. */
  lemma NoStaleAdmit(s: State, c: nat)
    requires Sound(s) && Enabled(s, Admit) && c in s.threads && NoStaleCopy(s.table, s.threads[c])
    ensures c in Next(s, Admit).threads && NoStaleCopy(Next(s, Admit).table, Next(s, Admit).threads[c])
  {
    assert ThreadLinked(s.table, s.os, s.threads[c], c);
    NewcomerIsNew(s);
  }

  lemma {:induction false} NoStaleMeansOwnNumber(s: State, ms: seq<Move>, c: nat)
    requires Sound(s) && LegalMoves(s, ms) && c in s.threads && StaysIn(s, ms, c)
    requires NoStaleCopy(s.table, s.threads[c]) && !s.threads[c].misled
    ensures c in RunMoves(s, ms).threads
    ensures var th := RunMoves(s, ms).threads[c];
            th.number == s.threads[c].number && (th.phase.Starting? || th.phase.Scan? || th.id == th.number)
    decreases |ms|
  {
    if ms == [] {
      assert ScanOk(s.threads[c]);
    } else {
      NextSound(s, ms[0]);
      NoStaleKept(s, ms[0], c);
      NoStaleMeansOwnNumber(Next(s, ms[0]), ms[1..], c);
    }
  }

  // ---------------------------------------------------------------- the search on its own

  /** The whole search against a table that does not change meanwhile. */
  function ScanAll(t: Table, th: Thread): Thread
    requires th.phase.Scan?
    decreases MAX_CLIENTS - th.phase.i
  {
    if th.phase.i >= MAX_CLIENTS then ScanOne(t, th) else ScanAll(t, ScanOne(t, th))
  }

  lemma {:induction false} ScanAllMisledIff(t: Table, th: Thread)
    requires th.phase.Scan?
    ensures ScanAll(t, th).misled <==>
            th.misled || exists q :: th.phase.i <= q < MAX_CLIENTS && th.slot < q && t[q].fd == th.fd
    decreases MAX_CLIENTS - th.phase.i
  {
    var i := th.phase.i;
    if i < MAX_CLIENTS {
      var next := ScanOne(t, th);
      ScanAllMisledIff(t, next);
      assert next.slot == th.slot && next.fd == th.fd && next.phase.i == i + 1;
      if i > th.slot && t[i].fd == th.fd {
        assert next.misled;
      }
    }
  }

  lemma {:induction false} ScanAllOk(t: Table, th: Thread)
    requires th.phase.Scan? && ScanOk(th) && th.slot < MAX_CLIENTS && t[th.slot] == Slot(th.fd, th.number, true)
    requires forall i :: 0 <= i < MAX_CLIENTS && i != th.slot ==> t[i].id != th.number
    ensures ScanAll(t, th).id == th.number <==> !ScanAll(t, th).misled
    decreases MAX_CLIENTS - th.phase.i
  {
    ScanOneOk(t, th);
    if th.phase.i < MAX_CLIENTS {
      ScanAllOk(t, ScanOne(t, th));
    }
  }

  /** The exact condition: an undisturbed search returns the handler's own number if and only if no
      later slot, active or not, holds its descriptor. */
  lemma SearchRightIff(s: State, c: nat)
    requires Sound(s) && c in s.threads && s.threads[c].phase == Scan(0, None)
    ensures ScanAll(s.table, s.threads[c]).id == s.threads[c].number <==> NoStaleCopy(s.table, s.threads[c])
  {
    var th := s.threads[c];
    assert ThreadLinked(s.table, s.os, th, c) && ScanOk(th);
    forall i | 0 <= i < MAX_CLIENTS && i != th.slot ensures s.table[i].id != th.number {
      assert s.threads[c].number != s.table[i].id;
    }
    ScanAllOk(s.table, th);
    ScanAllMisledIff(s.table, th);
  }

  lemma {:induction false} ScanAllKeeps(t: Table, th: Thread)
    requires th.phase.Scan?
    ensures ScanAll(t, th).phase == Receiving && ScanAll(t, th).fd == th.fd
    ensures ScanAll(t, th).slot == th.slot && ScanAll(t, th).number == th.number
    decreases MAX_CLIENTS - th.phase.i
  {
    if th.phase.i < MAX_CLIENTS {
      ScanAllKeeps(t, ScanOne(t, th));
    }
  }

  // ---------------------------------------------------------------- the exact condition

  /** The moves lead from s to t, and the program can make them: every accept returns the lowest free
      descriptor. */
  ghost predicate Reaches(s: State, ms: seq<Move>, t: State) {
    LegalMoves(s, ms) && LowestAccepts(s, ms) && RunMoves(s, ms) == t
  }

  lemma {:induction false} Chain(s: State, a: seq<Move>, t: State, b: seq<Move>, u: State)
    requires Reaches(s, a, t) && Reaches(t, b, u)
    ensures Reaches(s, a + b, u)
    decreases |a|
  {
    if a == [] {
      assert a + b == b;
    } else {
      assert (a + b)[0] == a[0] && (a + b)[1..] == a[1..] + b;
      Chain(Next(s, a[0]), a[1..], t, b, u);
    }
  }

  /** A search that nobody interrupts is a run of its own moves. */
  lemma {:induction false} SearchRuns(s: State, c: nat) returns (ms: seq<Move>)
    requires c in s.threads && s.threads[c].phase.Scan?
    ensures Reaches(s, ms, s.(threads := s.threads[c := ScanAll(s.table, s.threads[c])])) && StaysIn(s, ms, c)
    decreases MAX_CLIENTS - s.threads[c].phase.i
  {
    var t := Next(s, ScanSlot(c));
    if s.threads[c].phase.i >= MAX_CLIENTS {
      ms := [ScanSlot(c)];
      assert ms[1..] == [];
    } else {
      var rest := SearchRuns(t, c);
      ms := [ScanSlot(c)] + rest;
      assert ms[1..] == rest;
    }
  }

  /** After the moves c has not ended up with a number that is not its own. */
  ghost predicate NotMistaken(s: State, ms: seq<Move>, c: nat)
    requires c in s.threads
  {
    LegalMoves(s, ms) && StaysIn(s, ms, c) ==>
      && c in RunMoves(s, ms).threads
      && (Searching(RunMoves(s, ms).threads[c]) || RunMoves(s, ms).threads[c].id == s.threads[c].number)
  }

  /** A stale copy misleads the search that runs at once and undisturbed. */
  lemma StaleMisleads(s: State, c: nat) returns (ms: seq<Move>)
    requires Sound(s) && c in s.threads && s.threads[c].phase == Scan(0, None)
    requires !NoStaleCopy(s.table, s.threads[c])
    ensures !NotMistaken(s, ms, c) && LowestAccepts(s, ms)
  {
    ms := SearchRuns(s, c);
    SearchRightIff(s, c);
    ScanAllKeeps(s.table, s.threads[c]);
  }

  lemma StaleMisleadsFresh(s: State, c: nat) returns (ms: seq<Move>)
    requires Sound(s) && c in s.threads && Fresh(s.threads[c]) && !NoStaleCopy(s.table, s.threads[c])
    ensures !NotMistaken(s, ms, c) && LowestAccepts(s, ms)
  {
    if s.threads[c].phase.Scan? {
      ms := StaleMisleads(s, c);
    } else {
      var t := Next(s, Spawn);
      NextSound(s, Spawn);
      var rest := StaleMisleads(t, c);
      ms := [Spawn] + rest;
      assert ms[1..] == rest;
    }
  }

  /** The exact condition, over all interleavings: a handler that has not begun its search is sure to find
      its own number if and only if no slot behind its own, active or not, holds its descriptor. It is the
      same condition when only runs are considered in which accept returns the lowest free descriptor. */
  lemma OwnNumberIff(s: State, c: nat)
    requires Sound(s) && c in s.threads && Fresh(s.threads[c])
    ensures NoStaleCopy(s.table, s.threads[c]) <==> forall ms :: NotMistaken(s, ms, c)
    ensures NoStaleCopy(s.table, s.threads[c]) <==>
            forall ms :: LegalMoves(s, ms) && LowestAccepts(s, ms) ==> NotMistaken(s, ms, c)
  {
    if NoStaleCopy(s.table, s.threads[c]) {
      FreshNotMisled(s, c);
      forall ms: seq<Move> ensures NotMistaken(s, ms, c) {
        if LegalMoves(s, ms) && StaysIn(s, ms, c) {
          NoStaleMeansOwnNumber(s, ms, c);
        }
      }
    } else {
      var ms := StaleMisleadsFresh(s, c);
    }
  }
}
