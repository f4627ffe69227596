/**
 The abstract chat room: who is in it, under which number, and what each connection has
 been sent. No slots, no descriptors. A run also keeps a log of all broadcasts, against
 which delivery is stated.
 */
module ChatRoom {
  import opened Seqs

  const MAX_CLIENTS: nat := 100

  datatype Msg = Said(id: int, text: Bytes) | Left(id: int)

  /** members maps a connection to its client number; boxes[c] is all that was sent to connection c. */
  datatype Room = Room(members: map<nat, int>, total: int, boxes: seq<seq<Msg>>)

  datatype Event =
    | Join                          // a new connection is accepted, or turned away when the room is full
    | Say(who: nat, text: Bytes)
    | Quit(who: nat)                // end of stream: announced, then removed
    | Drop(who: nat)                // receive error: removed silently

  function Deliver(r: Room, sender: nat, m: Msg): (q: Room)
    ensures q.members == r.members && q.total == r.total && |q.boxes| == |r.boxes|
  {
    r.(boxes := seq(|r.boxes|, c requires 0 <= c < |r.boxes| =>
                      if c in r.members && c != sender then r.boxes[c] + [m] else r.boxes[c]))
  }

  predicate Allowed(r: Room, e: Event) {
    e.Join? || e.who in r.members
  }

  function Step(r: Room, e: Event): Room
    requires Allowed(r, e)
  {
    match e
    case Join =>
      if |r.members| < MAX_CLIENTS then
        Room(r.members[|r.boxes| := r.total + 1], r.total + 1, r.boxes + [[]])
      else r.(boxes := r.boxes + [[]])
    case Say(c, text) => Deliver(r, c, Said(r.members[c], text))
    case Quit(c) =>
      var d := Deliver(r, c, Left(r.members[c]));
      d.(members := d.members - {c})
    case Drop(c) => r.(members := r.members - {c})
  }

  // ---------------------------------------------------------------- runs with a log

  datatype Entry = Entry(sender: nat, msg: Msg)

  /** joined and left record the length of the log when a connection entered and went. */
  datatype History = History(log: seq<Entry>, joined: map<nat, nat>, left: map<nat, nat>)

  function Record(r: Room, h: History, e: Event): History
    requires Allowed(r, e)
  {
    match e
    case Join =>
      if |r.members| < MAX_CLIENTS then h.(joined := h.joined[|r.boxes| := |h.log|]) else h
    case Say(c, text) => h.(log := h.log + [Entry(c, Said(r.members[c], text))])
    case Quit(c) =>
      h.(log := h.log + [Entry(c, Left(r.members[c]))], left := h.left[c := |h.log| + 1])
    case Drop(c) => h.(left := h.left[c := |h.log|])
  }

  /** What a connection hears of a stretch of the log: everything it did not send itself. */
  function Heard(log: seq<Entry>, c: nat): seq<Msg> {
    if log == [] then []
    else Heard(log[..|log| - 1], c) + (if log[|log| - 1].sender == c then [] else [log[|log| - 1].msg])
  }

  /** Join to leave, or to now. */
  function Until(h: History, c: nat): nat {
    if c in h.left then h.left[c] else |h.log|
  }

  ghost predicate Delivered(r: Room, h: History, c: nat)
    requires c < |r.boxes|
  {
    if c in h.joined then
      h.joined[c] <= Until(h, c) <= |h.log| && r.boxes[c] == Heard(h.log[h.joined[c]..Until(h, c)], c)
    else r.boxes[c] == []
  }

  ghost predicate Consistent(r: Room, h: History) {
    && r.total >= 0
    && h.joined.Keys - h.left.Keys == r.members.Keys && h.left.Keys <= h.joined.Keys
    && (forall c :: c in h.joined ==> c < |r.boxes|)
    && (forall c: nat {:trigger Delivered(r, h, c)} :: c < |r.boxes| ==> Delivered(r, h, c))
    && Numbered(r.members, r.total)
  }

  /** Numbers are in 1..total and follow the order of joining. */
  ghost predicate Numbered(members: map<nat, int>, total: int) {
    && (forall c {:trigger members[c]} :: c in members ==> 1 <= members[c] <= total)
    && (forall c, d {:trigger members[c], members[d]} ::
          c in members && d in members && c < d ==> members[c] < members[d])
  }

  lemma HeardAppend(log: seq<Entry>, e: Entry, c: nat)
    ensures Heard(log + [e], c) == Heard(log, c) + (if e.sender == c then [] else [e.msg])
  {
    assert (log + [e])[..|log|] == log;
  }

  /** One more broadcast reaches exactly the members other than its sender. */
  lemma DeliverKeeps(r: Room, h: History, sender: nat, m: Msg, c: nat)
    requires Consistent(r, h) && sender in r.members && c < |r.boxes|
    ensures var g := h.(log := h.log + [Entry(sender, m)]);
            Delivered(Deliver(r, sender, m), g, c)
  {
    var e := Entry(sender, m);
    var g := h.(log := h.log + [e]);
    assert Delivered(r, h, c);
    if c in r.members {
      var j := h.joined[c];
      assert g.log[j..|g.log|] == h.log[j..] + [e];
      assert h.log[j..Until(h, c)] == h.log[j..];
      HeardAppend(h.log[j..], e, c);
    } else if c in h.joined {
      assert g.log[h.joined[c]..Until(g, c)] == h.log[h.joined[c]..Until(h, c)];
    }
  }

  lemma SayConsistent(r: Room, h: History, e: Event)
    requires Consistent(r, h) && Allowed(r, e) && e.Say?
    ensures Consistent(Step(r, e), Record(r, h, e))
  {
    forall c: nat | c < |r.boxes| ensures Delivered(Step(r, e), Record(r, h, e), c) {
      DeliverKeeps(r, h, e.who, Said(r.members[e.who], e.text), c);
    }
  }

  lemma QuitConsistent(r: Room, h: History, e: Event)
    requires Consistent(r, h) && Allowed(r, e) && e.Quit?
    ensures Consistent(Step(r, e), Record(r, h, e))
  {
    var s, g := Step(r, e), Record(r, h, e);
    var m := Left(r.members[e.who]);
    forall c: nat | c < |r.boxes| ensures Delivered(s, g, c) {
      DeliverKeeps(r, h, e.who, m, c);
    }
    assert g.joined.Keys - g.left.Keys == s.members.Keys;
  }

  lemma DropConsistent(r: Room, h: History, e: Event)
    requires Consistent(r, h) && Allowed(r, e) && e.Drop?
    ensures Consistent(Step(r, e), Record(r, h, e))
  {
    var s, g := Step(r, e), Record(r, h, e);
    forall c: nat | c < |s.boxes| ensures Delivered(s, g, c) {
      assert Delivered(r, h, c);
    }
    assert g.joined.Keys - g.left.Keys == s.members.Keys;
  }

  lemma JoinDelivers(r: Room, h: History, c: nat)
    requires Consistent(r, h) && c <= |r.boxes|
    ensures Delivered(Step(r, Join), Record(r, h, Join), c)
  {
    if c < |r.boxes| {
      assert Step(r, Join).boxes[c] == r.boxes[c] && Delivered(r, h, c);
    } else {
      NewBox(r, h);
    }
  }

  lemma NewBox(r: Room, h: History)
    requires |r.boxes| !in h.joined && |r.boxes| !in h.left
    ensures Delivered(Step(r, Join), Record(r, h, Join), |r.boxes|)
  {
    assert Step(r, Join).boxes[|r.boxes|] == [];
    assert h.log[|h.log|..|h.log|] == [];
  }

  lemma JoinNumbers(r: Room, h: History)
    requires Consistent(r, h) && |r.members| < MAX_CLIENTS
    ensures Numbered(Step(r, Join).members, r.total + 1)
  {
    MembersHaveBoxes(r, h);
    NewestNumber(r.members, |r.boxes|, r.total);
  }

  lemma MembersHaveBoxes(r: Room, h: History)
    requires h.joined.Keys - h.left.Keys == r.members.Keys && forall c :: c in h.joined ==> c < |r.boxes|
    ensures forall c {:trigger r.members[c]} :: c in r.members ==> c < |r.boxes|
  {
    forall c | c in r.members ensures c < |r.boxes| {
      assert c in r.members.Keys && c in h.joined;
    }
  }

  /** A new connection with a new number keeps the numbers in the order of the connections. */
  lemma NewestNumber(m: map<nat, int>, n: nat, total: int)
    requires Numbered(m, total) && total >= 0 && forall c {:trigger m[c]} :: c in m ==> c < n
    ensures Numbered(m[n := total + 1], total + 1)
  {
  }

  lemma JoinMembers(joined: map<nat, nat>, left: map<nat, nat>, members: map<nat, int>, c: nat, at: nat, id: int)
    requires joined.Keys - left.Keys == members.Keys && left.Keys <= joined.Keys && c !in joined
    ensures joined[c := at].Keys - left.Keys == members[c := id].Keys
    ensures left.Keys <= joined[c := at].Keys
  {
    assert joined[c := at].Keys == joined.Keys + {c};
    assert members[c := id].Keys == members.Keys + {c};
  }

  lemma JoinConsistent(r: Room, h: History)
    requires Consistent(r, h)
    ensures Consistent(Step(r, Join), Record(r, h, Join))
  {
    JoinDeliversAll(r, h);
    if |r.members| < MAX_CLIENTS {
      JoinNumbers(r, h);
      JoinKeys(r, h);
    }
  }

  lemma JoinKeys(r: Room, h: History)
    requires Consistent(r, h) && |r.members| < MAX_CLIENTS
    ensures var s, g := Step(r, Join), Record(r, h, Join);
            && g.joined.Keys - g.left.Keys == s.members.Keys && g.left.Keys <= g.joined.Keys
            && (forall c :: c in g.joined ==> c < |s.boxes|)
  {
    assert |r.boxes| !in h.joined;
    JoinMembers(h.joined, h.left, r.members, |r.boxes|, |h.log|, r.total + 1);
  }

  lemma JoinDeliversAll(r: Room, h: History)
    requires Consistent(r, h)
    ensures var s, g := Step(r, Join), Record(r, h, Join);
            forall c: nat {:trigger Delivered(s, g, c)} :: c < |s.boxes| ==> Delivered(s, g, c)
  {
    forall c: nat | c < |Step(r, Join).boxes| ensures Delivered(Step(r, Join), Record(r, h, Join), c) {
      JoinDelivers(r, h, c);
    }
  }

  lemma StepConsistent(r: Room, h: History, e: Event)
    requires Consistent(r, h) && Allowed(r, e)
    ensures Consistent(Step(r, e), Record(r, h, e))
  {
    match e
    case Join => JoinConsistent(r, h);
    case Say(_, _) => SayConsistent(r, h, e);
    case Quit(_) => QuitConsistent(r, h, e);
    case Drop(_) => DropConsistent(r, h, e);
  }

  ghost predicate LegalRun(r: Room, es: seq<Event>)
    decreases |es|
  {
    es == [] || (Allowed(r, es[0]) && LegalRun(Step(r, es[0]), es[1..]))
  }

  function Run(r: Room, es: seq<Event>): Room
    requires LegalRun(r, es)
    decreases |es|
  {
    if es == [] then r else Run(Step(r, es[0]), es[1..])
  }

  function RunHistory(r: Room, h: History, es: seq<Event>): History
    requires LegalRun(r, es)
    decreases |es|
  {
    if es == [] then h else RunHistory(Step(r, es[0]), Record(r, h, es[0]), es[1..])
  }

  const EMPTY := Room(map[], 0, [])
  const NO_HISTORY := History([], map[], map[])

  /** Whole-run delivery: after any run, each connection has been sent the log from its joining to
      its leaving, without its own messages; and client numbers follow the order of joining. */
  lemma {:induction false} RunConsistent(r: Room, h: History, es: seq<Event>)
    requires Consistent(r, h) && LegalRun(r, es)
    ensures Consistent(Run(r, es), RunHistory(r, h, es))
    decreases |es|
  {
    if es != [] {
      StepConsistent(r, h, es[0]);
      RunConsistent(Step(r, es[0]), Record(r, h, es[0]), es[1..]);
    }
  }

  /** The same for a run from the empty room, connection by connection. */
  lemma RoomDelivers(es: seq<Event>, c: nat)
    requires LegalRun(EMPTY, es) && c < |Run(EMPTY, es).boxes|
    ensures var h := RunHistory(EMPTY, NO_HISTORY, es);
            && (c in h.joined ==> h.joined[c] <= Until(h, c) <= |h.log|)
            && Run(EMPTY, es).boxes[c] == if c in h.joined then Heard(h.log[h.joined[c]..Until(h, c)], c) else []
  {
    RunConsistent(EMPTY, NO_HISTORY, es);
    assert Delivered(Run(EMPTY, es), RunHistory(EMPTY, NO_HISTORY, es), c);
  }

  // ---------------------------------------------------------------- order

  lemma {:induction false} HeardConcat(a: seq<Entry>, b: seq<Entry>, c: nat)
    ensures Heard(a + b, c) == Heard(a, c) + Heard(b, c)
  {
    if b == [] {
      assert a + b == a;
    } else {
      var front := b[..|b| - 1];
      HeardConcat(a, front, c);
      assert (a + b)[..|a + b| - 1] == a + front;
    }
  }

  /** Where in a client's box a broadcast ends up, for a client that joined at log position j. */
  function Place(log: seq<Entry>, j: nat, k: nat, c: nat): nat
    requires j <= k <= |log|
  {
    |Heard(log[j..k], c)|
  }

  /** Broadcast k of the log is at its place, and the places follow the log: so any two clients that
      both receive two broadcasts receive them in the same order. */
  lemma ReceivedInLogOrder(log: seq<Entry>, j: nat, k: nat, l: nat, u: nat, c: nat)
    requires j <= k < l < u <= |log| && log[k].sender != c && log[l].sender != c
    ensures Place(log, j, k, c) < Place(log, j, l, c) < |Heard(log[j..u], c)|
    ensures Heard(log[j..u], c)[Place(log, j, k, c)] == log[k].msg
    ensures Heard(log[j..u], c)[Place(log, j, l, c)] == log[l].msg
  {
    ReceivedAt(log, j, k, l, c);
    ReceivedAt(log, j, k, u, c);
    ReceivedAt(log, j, l, u, c);
  }

  lemma ReceivedAt(log: seq<Entry>, j: nat, k: nat, u: nat, c: nat)
    requires j <= k < u <= |log| && log[k].sender != c
    ensures Place(log, j, k, c) < |Heard(log[j..u], c)|
    ensures Heard(log[j..u], c)[Place(log, j, k, c)] == log[k].msg
  {
    assert log[j..u] == (log[j..k] + [log[k]]) + log[k + 1..u];
    HeardConcat(log[j..k] + [log[k]], log[k + 1..u], c);
    HeardAppend(log[j..k], log[k], c);
  }
}
