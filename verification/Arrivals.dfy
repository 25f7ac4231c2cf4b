/** The invariant is kept by the dispatcher, for every class of message and every set-up failure. */
module Arrivals {
  import opened SipMessages
  import opened Dialogs
  import opened Transactions
  import opened EngineModel
  import opened Drain
  import opened Invariants

  /** No transaction and no hand-over carries this name yet. */
  ghost predicate Unused(l: Ledger, id: nat) {
    && (forall a :: a in l.accepted ==> a.id != id)
    && (forall k :: 0 <= k < |l.handed| ==> l.handed[k].tx != id)
    && id !in l.cut
  }

  lemma NoteKeeps(s: State, a: Arrival)
    requires CoreInv(s.core, s.ledger, multiset{}) && a.id !in s.ledger.seen
    ensures CoreInv(s.core, Note(s, a).ledger, if a.parsed.Some? then multiset{a.id} else multiset{})
    ensures Unused(Note(s, a).ledger, a.id) && a.id in Note(s, a).ledger.seen
    ensures a.parsed.Some? ==> a.id in Note(s, a).ledger.parsed
  {
  }

  lemma ReleaseKeeps(c: Core, l: Ledger, id: nat)
    requires CoreInv(c, l, multiset{id})
    ensures CoreInv(c, Release(l, id), multiset{})
  {
  }

  lemma {:induction false} NothingHanded(handed: seq<Handed>, tx: nat)
    requires forall k :: 0 <= k < |handed| ==> handed[k].tx != tx
    ensures HandedTo(handed, tx) == []
  {
    if handed != [] {
      NothingHanded(handed[..|handed| - 1], tx);
    }
  }

  lemma HandOver(handed: seq<Handed>, h: Handed)
    ensures forall tx :: HandedTo(handed + [h], tx) == HandedTo(handed, tx) + if h.tx == tx then [h.ev] else []
    ensures HandedEvents(handed + [h]) == HandedEvents(handed) + multiset{h.ev}
  {
    assert (handed + [h])[..|handed + [h]| - 1] == handed;
  }

  // ---------- a new transaction ----------

  ghost function WithNew(c: Core, a: Arrival): Core
    requires a.parsed.Some?
  {
    var info := InfoOf(a);
    var t := NewTransaction(info).(fifo := [Incoming(a.id, a.parsed.value)]);
    WithTable(c, info.family, Table(c, info.family) + [t])
  }

  ghost function AcceptedLedger(l: Ledger, a: Arrival): Ledger
    requires a.parsed.Some?
  {
    l.(handed := l.handed + [Handed(a.id, a.id)], accepted := l.accepted + {InfoOf(a)})
  }

  lemma WithNewTables(c: Core, a: Arrival)
    requires a.parsed.Some?
    ensures forall g :: g != InfoOf(a).family ==> Table(WithNew(c, a), g) == Table(c, g)
    ensures var g := InfoOf(a).family;
            Table(WithNew(c, a), g) ==
            Table(c, g) + [NewTransaction(InfoOf(a)).(fifo := [Incoming(a.id, a.parsed.value)])]
  {
  }

  lemma WithNewInfos(c: Core, a: Arrival)
    requires a.parsed.Some?
    ensures forall i :: InTable(WithNew(c, a), i) <==> InTable(c, i) || i == InfoOf(a)
  {
    var d, f := WithNew(c, a), InfoOf(a).family;
    WithNewTables(c, a);
    forall i ensures InTable(d, i) <==> InTable(c, i) || i == InfoOf(a) {
      if InTable(c, i) {
        var g, j :| 0 <= j < |Table(c, g)| && Table(c, g)[j].info == i;
        assert Table(d, g)[j].info == i;
      }
      if InTable(d, i) {
        var g, j :| 0 <= j < |Table(d, g)| && Table(d, g)[j].info == i;
        if j < |Table(c, g)| { assert Table(c, g)[j].info == i; }
      }
      assert Table(d, f)[|Table(c, f)|].info == InfoOf(a);
    }
  }

  lemma NewKeepsByes(c: Core, l: Ledger, a: Arrival)
    requires ByesOk(c, l) && a.parsed.Some?
    ensures ByesOk(WithNew(c, a), AcceptedLedger(l, a))
  {
    var d := WithNew(c, a);
    WithNewTables(c, a);
    forall i | i in AcceptedLedger(l, a).accepted && IsRequest(i.request, Bye)
      ensures LookedUp(d.byes, i) || Waiting(d, i)
    {
      if i == InfoOf(a) {
        var j := |Table(c, NIST)|;
        assert Table(d, NIST)[j].info == i && Table(d, NIST)[j].stage.Initial?;
      } else if !LookedUp(c.byes, i) {
        var j :| 0 <= j < |Table(c, NIST)| && Table(c, NIST)[j].info == i && Table(c, NIST)[j].stage.Initial?;
        assert Table(d, NIST)[j] == Table(c, NIST)[j];
      }
    }
  }

  /** Neither a stray response nor a removal touches the table the BYEs are in. */
  lemma SameByes(c: Core, l: Ledger, d: Core, m: Ledger)
    requires ByesOk(c, l) && d.nist == c.nist && d.byes == c.byes && m.accepted == l.accepted && l.seen <= m.seen
    ensures ByesOk(d, m)
  {
    assert Table(d, NIST) == Table(c, NIST);
    forall i | Waiting(c, i) ensures Waiting(d, i) {
    }
  }

  lemma NotSentYet(c: Core, l: Ledger, id: nat)
    requires TraceOk(c, l) && Unused(l, id)
    ensures !WasSent(c.sent, id)
  {
    forall k | 0 <= k < |c.sent| ensures c.sent[k].info.id != id {
      assert c.sent[k].info in l.accepted;
    }
  }

  lemma NewKeepsTables(c: Core, a: Arrival)
    requires TablesOk(c)
    requires a.parsed.Some? && a.parsed.value.start.RequestLine? && a.parsed.value.start.verb != Ack
    ensures TablesOk(WithNew(c, a))
  {
    var d := WithNew(c, a);
    WithNewTables(c, a);
    assert Table(d, ICT) == d.ict && Table(d, NICT) == d.nict;
  }

  lemma NewKeepsIds(c: Core, l: Ledger, a: Arrival)
    requires IdsOk(c, l) && Unused(l, a.id) && a.id in l.seen && a.parsed.Some?
    ensures IdsOk(WithNew(c, a), AcceptedLedger(l, a))
  {
    var d, h := WithNew(c, a), InfoOf(a).family;
    WithNewTables(c, a);
    assert forall f, i :: 0 <= i < |Table(c, f)| ==> Table(c, f)[i].info.id != a.id;
    forall f, i, g, j | 0 <= i < |Table(d, f)| && 0 <= j < |Table(d, g)| &&
                        Table(d, f)[i].info.id == Table(d, g)[j].info.id
      ensures f == g && i == j
    {
      var isNew := f == h && i == |Table(c, h)|;
      assert isNew <==> Table(d, f)[i].info.id == a.id;
      assert (g == h && j == |Table(c, h)|) <==> Table(d, g)[j].info.id == a.id;
      if !isNew {
        assert Table(d, f)[i] == Table(c, f)[i] && Table(d, g)[j] == Table(c, g)[j];
      }
    }
  }

  lemma NewKeepsTrace(c: Core, l: Ledger, a: Arrival)
    requires TraceOk(c, l) && AcceptedOk(c, l) && Unused(l, a.id) && a.parsed.Some?
    ensures TraceOk(WithNew(c, a), AcceptedLedger(l, a)) && AcceptedOk(WithNew(c, a), AcceptedLedger(l, a))
  {
    WithNewTables(c, a);
    WithNewInfos(c, a);
    NotSentYet(c, l, a.id);
  }

  lemma ElsewhereAccounted(t: Transaction, handed: seq<Handed>, h: Handed)
    requires Accounted(t, handed) && h.tx != t.info.id
    ensures Accounted(t, handed + [h])
  {
    HandOver(handed, h);
  }

  lemma NewAccounted(a: Arrival, handed: seq<Handed>)
    requires a.parsed.Some? && forall k :: 0 <= k < |handed| ==> handed[k].tx != a.id
    ensures Accounted(NewTransaction(InfoOf(a)).(fifo := [Incoming(a.id, a.parsed.value)]),
                      handed + [Handed(a.id, a.id)])
  {
    HandOver(handed, Handed(a.id, a.id));
    NothingHanded(handed, a.id);
    var t := NewTransaction(InfoOf(a)).(fifo := [Incoming(a.id, a.parsed.value)]);
    assert History(t) == [Incoming(a.id, a.parsed.value)];
    assert History(t)[..0] == [];
  }

  lemma NewKeepsOwnership(c: Core, l: Ledger, a: Arrival)
    requires OwnershipOk(c, l, multiset{a.id}) && Unused(l, a.id) && a.parsed.Some? && a.id in l.seen
    requires forall f, i :: 0 <= i < |Table(c, f)| ==> Table(c, f)[i].info in l.accepted
    ensures OwnershipOk(WithNew(c, a), AcceptedLedger(l, a), multiset{})
  {
    var d, h := WithNew(c, a), Handed(a.id, a.id);
    WithNewTables(c, a);
    HandOver(l.handed, h);
    NewAccounted(a, l.handed);
    forall f, i | 0 <= i < |Table(d, f)| ensures Accounted(Table(d, f)[i], l.handed + [h]) {
      if i < |Table(c, f)| { ElsewhereAccounted(Table(c, f)[i], l.handed, h); }
    }
  }

  lemma NewTransactionKeeps(c: Core, l: Ledger, a: Arrival)
    requires CoreInv(c, l, multiset{a.id}) && Unused(l, a.id) && a.id in l.seen
    requires a.parsed.Some? && a.parsed.value.start.RequestLine? && a.parsed.value.start.verb != Ack
    ensures CoreInv(WithNew(c, a), AcceptedLedger(l, a), multiset{})
  {
    NewKeepsTables(c, a);
    NewKeepsIds(c, l, a);
    NewKeepsTrace(c, l, a);
    NewKeepsByes(c, l, a);
    NewKeepsOwnership(c, l, a);
  }

  // ---------- a matched response ----------

  ghost function Receiver(c: Core, i: nat, e: Event): Transaction
    requires i < |c.ist|
  {
    c.ist[i].(fifo := c.ist[i].fifo + [e])
  }

  lemma StrayKeepsTx(t: Transaction, e: Event)
    requires TxOk(t) && Stray(e)
    ensures TxOk(t.(fifo := t.fifo + [e]))
    ensures ReceivedIds(History(t.(fifo := t.fifo + [e]))) == ReceivedIds(History(t)) + [e.id]
  {
    var u := t.(fifo := t.fifo + [e]);
    assert History(u) == History(t) + [e];
    assert History(u)[..|History(u)| - 1] == History(t);
    AnswersAppend(t.fifo, e);
    assert Answers(u.fifo) == Answers(t.fifo);
  }

  lemma StrayTables(c: Core, i: nat, e: Event)
    requires i < |c.ist|
    ensures forall g :: Table(AddEvent(c, IST, i, e), g) ==
                        if g == IST then Table(c, IST)[i := Receiver(c, i, e)] else Table(c, g)
    ensures forall a :: InTable(AddEvent(c, IST, i, e), a) <==> InTable(c, a)
  {
    var d := AddEvent(c, IST, i, e);
    assert forall g :: Table(d, g) == if g == IST then Table(c, IST)[i := Receiver(c, i, e)] else Table(c, g);
    SameInfos(c, d);
  }

  lemma StrayKeepsTables(c: Core, i: nat, e: Event)
    requires TablesOk(c) && i < |c.ist| && Stray(e)
    ensures TablesOk(AddEvent(c, IST, i, e))
  {
    StrayTables(c, i, e);
    assert c.ist[i] == Table(c, IST)[i];
    StrayKeepsTx(c.ist[i], e);
  }

  lemma StrayKeepsIds(c: Core, l: Ledger, i: nat, e: Event)
    requires IdsOk(c, l) && i < |c.ist|
    ensures IdsOk(AddEvent(c, IST, i, e), l)
  {
    StrayTables(c, i, e);
    var d := AddEvent(c, IST, i, e);
    assert forall g, j :: 0 <= j < |Table(c, g)| ==> Table(d, g)[j].info == Table(c, g)[j].info;
  }

  lemma StrayKeepsTrace(c: Core, l: Ledger, i: nat, e: Event)
    requires TraceOk(c, l) && AcceptedOk(c, l) && i < |c.ist|
    ensures TraceOk(AddEvent(c, IST, i, e), l) && AcceptedOk(AddEvent(c, IST, i, e), l)
  {
    StrayTables(c, i, e);
    assert AddEvent(c, IST, i, e).sent == c.sent;
    assert c.ist[i] == Table(c, IST)[i];
  }

  lemma StrayAccounted(t: Transaction, e: Event, handed: seq<Handed>)
    requires TxOk(t) && Stray(e) && Accounted(t, handed)
    ensures Accounted(t.(fifo := t.fifo + [e]), handed + [Handed(e.id, t.info.id)])
  {
    StrayKeepsTx(t, e);
    HandOver(handed, Handed(e.id, t.info.id));
  }

  lemma StrayKeepsOwnership(c: Core, l: Ledger, i: nat, e: Event)
    requires i < |c.ist| && Stray(e) && TablesOk(c) && IdsOk(c, l) && OwnershipOk(c, l, multiset{e.id})
    ensures OwnershipOk(AddEvent(c, IST, i, e), l.(handed := l.handed + [Handed(e.id, c.ist[i].info.id)]), multiset{})
  {
    var t, d, h := Table(c, IST)[i], AddEvent(c, IST, i, e), Handed(e.id, c.ist[i].info.id);
    StrayTables(c, i, e);
    HandOver(l.handed, h);
    StrayAccounted(t, e, l.handed);
    assert t.info in l.accepted;
    forall f, j | 0 <= j < |Table(d, f)| ensures Accounted(Table(d, f)[j], l.handed + [h]) {
      if f != IST || j != i { ElsewhereAccounted(Table(c, f)[j], l.handed, h); }
    }
  }

  lemma StrayKeeps(c: Core, l: Ledger, i: nat, a: Arrival)
    requires CoreInv(c, l, multiset{a.id}) && i < |c.ist|
    requires a.parsed.Some? && a.parsed.value.start.StatusLine?
    ensures CoreInv(AddEvent(c, IST, i, Incoming(a.id, a.parsed.value)),
                    l.(handed := l.handed + [Handed(a.id, c.ist[i].info.id)]), multiset{})
  {
    var e := Incoming(a.id, a.parsed.value);
    StrayKeepsTables(c, i, e);
    StrayKeepsIds(c, l, i, e);
    StrayKeepsTrace(c, l, i, e);
    SameByes(c, l, AddEvent(c, IST, i, e), l.(handed := l.handed + [Handed(a.id, c.ist[i].info.id)]));
    StrayKeepsOwnership(c, l, i, e);
  }

  /** Entry j of the table is entry Moved(j, i) of the table before transaction i was removed. */
  function Moved(j: nat, i: nat): nat {
    if j < i then j else j + 1
  }

  lemma RemovedTables(s: State, i: nat)
    requires i < |s.core.ist|
    ensures forall g :: g != IST ==> Table(FreeMatched(s, i).core, g) == Table(s.core, g)
    ensures |Table(FreeMatched(s, i).core, IST)| == |Table(s.core, IST)| - 1
    ensures forall j :: 0 <= j < |s.core.ist| - 1 ==>
                          Table(FreeMatched(s, i).core, IST)[j] == Table(s.core, IST)[Moved(j, i)]
  {
  }

  lemma StillThere(s: State, i: nat, g: Family, j: nat)
    requires i < |s.core.ist| && j < |Table(s.core, g)| && Table(s.core, g)[j].info != s.core.ist[i].info
    ensures InTable(FreeMatched(s, i).core, Table(s.core, g)[j].info)
  {
    var d := FreeMatched(s, i).core;
    RemovedTables(s, i);
    var k := if g == IST && i < j then j - 1 else j;
    assert Table(d, g)[k].info == Table(s.core, g)[j].info;
  }

  lemma WasThere(s: State, i: nat, g: Family, j: nat)
    requires i < |s.core.ist| && j < |Table(FreeMatched(s, i).core, g)| && IdsOk(s.core, s.ledger)
    ensures InTable(s.core, Table(FreeMatched(s, i).core, g)[j].info)
    ensures Table(FreeMatched(s, i).core, g)[j].info != s.core.ist[i].info
  {
    var d := FreeMatched(s, i).core;
    RemovedTables(s, i);
    var k := if g == IST then Moved(j, i) else j;
    assert Table(s.core, g)[k].info == Table(d, g)[j].info;
    assert Table(s.core, IST)[i] == s.core.ist[i];
  }

  lemma RemovedInfos(s: State, i: nat)
    requires i < |s.core.ist| && IdsOk(s.core, s.ledger)
    ensures forall a :: InTable(FreeMatched(s, i).core, a) <==> InTable(s.core, a) && a != s.core.ist[i].info
  {
    var c, d := s.core, FreeMatched(s, i).core;
    forall a ensures InTable(d, a) <==> InTable(c, a) && a != c.ist[i].info {
      if InTable(d, a) {
        var g, j :| 0 <= j < |Table(d, g)| && Table(d, g)[j].info == a;
        WasThere(s, i, g, j);
      }
      if InTable(c, a) && a != c.ist[i].info {
        var g, j :| 0 <= j < |Table(c, g)| && Table(c, g)[j].info == a;
        StillThere(s, i, g, j);
      }
    }
  }

  lemma RemovalKeepsTables(s: State, i: nat)
    requires i < |s.core.ist| && TablesOk(s.core)
    ensures TablesOk(FreeMatched(s, i).core)
  {
    RemovedTables(s, i);
  }

  lemma RemovalKeepsIds(s: State, i: nat)
    requires i < |s.core.ist| && IdsOk(s.core, s.ledger)
    ensures IdsOk(FreeMatched(s, i).core, FreeMatched(s, i).ledger)
  {
    RemovedTables(s, i);
    assert Table(s.core, IST)[i].info in s.ledger.accepted;
  }

  lemma RemovalKeepsTrace(s: State, i: nat)
    requires i < |s.core.ist| && TraceOk(s.core, s.ledger)
    ensures TraceOk(FreeMatched(s, i).core, FreeMatched(s, i).ledger)
  {
    RemovedTables(s, i);
    assert FreeMatched(s, i).core.sent == s.core.sent;
  }

  lemma RemovalKeepsOwnership(s: State, i: nat, loose: multiset<nat>)
    requires i < |s.core.ist| && OwnershipOk(s.core, s.ledger, loose)
    ensures OwnershipOk(FreeMatched(s, i).core, FreeMatched(s, i).ledger, loose)
  {
    RemovedTables(s, i);
  }

  /** Freeing the transaction a response matched settles its fate: it has answered, never would, or is cut. */
  lemma RemovalSettles(s: State, i: nat)
    requires i < |s.core.ist| && TablesOk(s.core) && IdsOk(s.core, s.ledger)
    requires TraceOk(s.core, s.ledger) && AcceptedOk(s.core, s.ledger)
    ensures AcceptedOk(FreeMatched(s, i).core, FreeMatched(s, i).ledger)
  {
    var r, t := FreeMatched(s, i), Table(s.core, IST)[i];
    RemovedInfos(s, i);
    assert InTable(s.core, t.info);
    assert r.core.sent == s.core.sent;
    forall a | a in r.ledger.accepted
      ensures if InTable(r.core, a) then a.id !in r.ledger.cut
              else WasSent(r.core.sent, a.id) <==> Expected(a) != [] && a.id !in r.ledger.cut
    {
      assert a.id == t.info.id <==> a == t.info;
    }
  }

  lemma FreeMatchedKeeps(s: State, i: nat, loose: multiset<nat>)
    requires CoreInv(s.core, s.ledger, loose) && i < |s.core.ist|
    ensures CoreInv(FreeMatched(s, i).core, FreeMatched(s, i).ledger, loose)
  {
    RemovalKeepsTables(s, i);
    RemovalKeepsIds(s, i);
    RemovalKeepsTrace(s, i);
    SameByes(s.core, s.ledger, FreeMatched(s, i).core, FreeMatched(s, i).ledger);
    RemovalKeepsOwnership(s, i, loose);
    RemovalSettles(s, i);
  }

  // ---------- every arrival ----------

  /** What holds between two callbacks of the event base. */
  ghost predicate Rest(s: State) {
    && CoreInv(s.core, s.ledger, multiset{})
    && Balanced(s.queue, multiset{}) && s.queue.leaked == multiset{}
    && (forall e :: e in s.queue.active <==> e in s.queue.pending)
    && (s.queue.pending == [] ==> Idle(s.core))
  }

  lemma NotifyKeeps(s: State, a: Arrival)
    requires CoreInv(s.core, s.ledger, multiset{}) && a.luck.wake == WakeOk
    requires Balanced(s.queue, multiset{}) && s.queue.leaked == multiset{}
    requires forall e :: e in s.queue.active <==> e in s.queue.pending
    ensures Notify(s, a).0 == Ok && Rest(Notify(s, a).1)
  {
    WakeupKeepsQueue(s.queue, s.queue.next, multiset{});
    var q := Wakeup(s.queue, WakeOk).1;
    assert q.pending[0] == s.queue.next;
  }

  lemma IdleAfterRemoval(s: State, i: nat)
    requires i < |s.core.ist| && Idle(s.core)
    ensures Idle(FreeMatched(s, i).core)
  {
    RemovedTables(s, i);
  }

  /** The state in which the dispatcher classifies a parsed message: the event is in its hands. */
  ghost predicate InHand(s: State, a: Arrival) {
    && a.parsed.Some? && a.luck.wake == WakeOk
    && CoreInv(s.core, s.ledger, multiset{a.id}) && Unused(s.ledger, a.id) && a.id in s.ledger.seen
    && Balanced(s.queue, multiset{}) && s.queue.leaked == multiset{}
    && (forall e :: e in s.queue.active <==> e in s.queue.pending)
    && (s.queue.pending == [] ==> Idle(s.core))
  }

  lemma ResponseKeeps(s: State, a: Arrival)
    requires InHand(s, a) && a.parsed.value.start.StatusLine?
    ensures Rest(AcceptResponse(s, a).1)
  {
    var i := FindTransaction(s.core.ist, a.parsed.value);
    if i == |s.core.ist| {
      ReleaseKeeps(s.core, s.ledger, a.id);
    } else if !a.luck.socket || !a.luck.add {
      FreeMatchedKeeps(s, i, multiset{a.id});
      ReleaseKeeps(FreeMatched(s, i).core, FreeMatched(s, i).ledger, a.id);
      if s.queue.pending == [] { IdleAfterRemoval(s, i); }
    } else {
      StrayKeeps(s.core, s.ledger, i, a);
      var c := AddEvent(s.core, IST, i, Incoming(a.id, a.parsed.value));
      NotifyKeeps(State(c, s.queue, s.ledger.(handed := s.ledger.handed + [Handed(a.id, s.core.ist[i].info.id)])), a);
    }
  }

  lemma RequestKeeps(s: State, a: Arrival)
    requires InHand(s, a) && a.parsed.value.start.RequestLine? && a.parsed.value.start.verb != Ack
    ensures Rest(AcceptRequest(s, a).1)
  {
    if !a.luck.init || !a.luck.socket || !a.luck.add {
      ReleaseKeeps(s.core, s.ledger, a.id);
    } else {
      NewTransactionKeeps(s.core, s.ledger, a);
      NotifyKeeps(State(WithNew(s.core, a), s.queue, AcceptedLedger(s.ledger, a)), a);
    }
  }

  lemma AckKeeps(s: State, a: Arrival)
    requires InHand(s, a)
    ensures Rest(AcceptAck(s, a).1)
  {
    var l := s.ledger.(stops := s.ledger.stops + [Search(s.core, a.id, a.parsed.value)]);
    AddSearch(s.ledger.stops, s.core, a.id, a.parsed.value);
    assert CoreInv(s.core, l, multiset{a.id});
    ReleaseKeeps(s.core, l, a.id);
  }

  lemma Noted(s: State, a: Arrival)
    requires Rest(s) && Enabled(s, Arrive(a))
    ensures if a.parsed.Some? then InHand(Note(s, a), a) else Rest(Note(s, a))
  {
    NoteKeeps(s, a);
  }

  lemma ParseMsgKeeps(s: State, a: Arrival)
    requires Rest(s) && Enabled(s, Arrive(a))
    ensures Rest(ParseMsg(s, a).1)
  {
    Noted(s, a);
    if a.parsed.Some? {
      Classified(s, a);
    } else {
      assert ParseMsg(s, a).1 == Note(s, a);
    }
  }

  lemma Classified(s: State, a: Arrival)
    requires InHand(Note(s, a), a)
    ensures Rest(ParseMsg(s, a).1)
  {
    var n := Note(s, a);
    if a.parsed.value.start.StatusLine? {
      ResponseKeeps(n, a);
      assert ParseMsg(s, a) == AcceptResponse(n, a);
    } else if a.parsed.value.start.verb == Ack {
      AckKeeps(n, a);
      assert ParseMsg(s, a) == AcceptAck(n, a);
    } else {
      RequestKeeps(n, a);
      assert ParseMsg(s, a) == AcceptRequest(n, a);
    }
  }

  // ---------- whole runs ----------

  lemma DispatchKeeps(s: State, ev: nat)
    requires Rest(s) && ev in s.queue.active
    ensures Rest(Dispatch(s, ev))
  {
    var s0 := s.(queue := s.queue.(active := s.queue.active - {ev}));
    LoopKeeps(s0, ev);
    LoopDrains(s0);
  }

  lemma InitialRest()
    ensures Rest(INITIAL)
  {
    assert forall f :: Table(INITIAL.core, f) == [];
    assert multiset(INITIAL.queue.pending) == multiset{};
  }

  lemma NextKeeps(s: State, step: Step)
    requires Rest(s) && Enabled(s, step)
    ensures Rest(Next(s, step))
  {
    match step
    case Arrive(a) => ParseMsgKeeps(s, a);
    case Fire(ev) => DispatchKeeps(s, ev);
  }

  /** The invariant holds after every finite interleaving of arrivals and loop callbacks. */
  lemma {:induction false} RunKeeps(s: State, steps: seq<Step>)
    requires Rest(s) && CanRun(s, steps)
    ensures Rest(Run(s, steps))
    decreases |steps|
  {
    if steps != [] {
      NextKeeps(s, steps[0]);
      RunKeeps(Next(s, steps[0]), steps[1..]);
    }
  }

  lemma Reachable(steps: seq<Step>)
    requires CanRun(INITIAL, steps)
    ensures Rest(Run(INITIAL, steps))
  {
    InitialRest();
    RunKeeps(INITIAL, steps);
  }
}
