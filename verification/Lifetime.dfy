/** Whole runs: wake-ups are never lost, stale or freed twice, and every parsed message has one owner. */
module Lifetime {
  import opened SipMessages
  import opened ResponseBuilder
  import opened Dialogs
  import opened Transactions
  import opened EngineModel
  import opened Drain
  import opened Invariants
  import opened Arrivals
  import opened Answering

  // ---------- wake-ups ----------

  /** No lost wake-up: queued work always comes with an active event at the head of the pending list. */
  lemma NoLostWakeup(steps: seq<Step>)
    requires CanRun(INITIAL, steps)
    ensures var s := Run(INITIAL, steps);
            Idle(s.core) || (s.queue.pending != [] && s.queue.pending[0] in s.queue.active)
  {
    Reachable(steps);
  }

  /** One callback drains everything, and leaves no activation behind that could fire later. */
  lemma DrainLeavesNothing(steps: seq<Step>, ev: nat)
    requires CanRun(INITIAL, steps) && ev in Run(INITIAL, steps).queue.active
    ensures var r := Dispatch(Run(INITIAL, steps), ev);
            r.queue.pending == [] && r.queue.active == {} && Idle(r.core)
  {
    var s := Run(INITIAL, steps);
    Reachable(steps);
    DispatchKeeps(s, ev);
    LoopDrains(s.(queue := s.queue.(active := s.queue.active - {ev})));
    assert forall e :: e !in Dispatch(s, ev).queue.active;
  }

  /** Between callbacks the pending list holds unfreed events, newest first, and they are exactly the active ones. */
  lemma PendingIsActive(steps: seq<Step>)
    requires CanRun(INITIAL, steps)
    ensures var q := Run(INITIAL, steps).queue;
            && NewestFirst(q.pending)
            && (forall e :: e in q.active <==> e in q.pending)
            && (forall e :: e in q.pending ==> e < q.next && e !in q.freed)
  {
    Reachable(steps);
    var q := Run(INITIAL, steps).queue;
    forall e | e in q.pending ensures e < q.next && e !in q.freed {
      assert multiset(q.pending)[e] > 0 && multiset(q.freed)[e] == 0;
    }
  }

  /** osip_list_special_free(&pendingEv, _es_osip_list_freeEl) */
  function Deinit(q: Queue): Queue
    decreases |q.pending|
  {
    if q.pending == [] then q else Deinit(Free(Pop(q), q.pending[0]))
  }

  lemma {:induction false} DeinitFrees(q: Queue)
    ensures Deinit(q).pending == [] && Deinit(q).next == q.next
    ensures Deinit(q).freed == q.freed + q.pending
    ensures forall e :: e in Deinit(q).active <==> e in q.active && e !in q.pending
    decreases |q.pending|
  {
    if q.pending != [] {
      var ev, rest := q.pending[0], Pop(q).pending;
      assert q.freed + q.pending == q.freed + [ev] + rest;
      DeinitFrees(Free(Pop(q), ev));
    }
  }

  /** Conservation: events created equal those freed plus those pending; after deinit each was freed exactly once. */
  lemma WakeupsConserved(steps: seq<Step>)
    requires CanRun(INITIAL, steps)
    ensures var q := Run(INITIAL, steps).queue;
            && (forall e: nat :: multiset(q.freed)[e] + multiset(q.pending)[e] == if e < q.next then 1 else 0)
            && (forall e: nat :: multiset(Deinit(q).freed)[e] == if e < q.next then 1 else 0)
            && Deinit(q).pending == [] && Deinit(q).active == {}
  {
    var q := Run(INITIAL, steps).queue;
    Reachable(steps);
    DeinitFrees(q);
    assert multiset(q.freed + q.pending) == multiset(q.freed) + multiset(q.pending);
    assert forall e :: e !in Deinit(q).active;
  }

  // ---------- ownership of parsed messages ----------

  lemma {:induction false} RunParses(s: State, steps: seq<Step>, a: Arrival)
    requires CanRun(s, steps)
    requires a.id in s.ledger.parsed || (a in ArrivalsOf(steps) && a.parsed.Some?)
    ensures a.id in Run(s, steps).ledger.parsed
    decreases |steps|
  {
    if steps != [] {
      if steps[0].Arrive? { ParsesOne(s, steps[0].a); }
      RunParses(Next(s, steps[0]), steps[1..], a);
    }
  }

  lemma ParsesOne(s: State, a: Arrival)
    ensures ParseMsg(s, a).1.ledger.parsed == s.ledger.parsed + if a.parsed.Some? then {a.id} else {}
  {
  }

  /** Every parsed message was freed by the dispatcher once or put on one transaction once: never both, nor neither. */
  lemma OneOwner(steps: seq<Step>, a: Arrival)
    requires CanRun(INITIAL, steps) && Arrive(a) in steps && a.parsed.Some?
    ensures var s := Run(INITIAL, steps);
            && s.ledger.released[a.id] + HandedEvents(s.ledger.handed)[a.id] == 1
            && forall f, i :: 0 <= i < |Table(s.core, f)| ==>
                                var t := Table(s.core, f)[i];
                                ReceivedIds(History(t)) == HandedTo(s.ledger.handed, t.info.id)
  {
    var s := Run(INITIAL, steps);
    Reachable(steps);
    ArrivalInSteps(steps, a);
    RunParses(INITIAL, steps, a);
    assert forall f, i :: 0 <= i < |Table(s.core, f)| ==> Accounted(Table(s.core, f)[i], s.ledger.handed);
  }

  /** The returned status tells the owner: the message was handed over exactly for Ok on anything but an ACK. */
  lemma StatusTellsOwner(s: State, a: Arrival)
    requires a.luck.wake == WakeOk && a.parsed.Some?
    ensures var (st, r) := ParseMsg(s, a);
            if st == Ok && !IsRequest(a.parsed.value, Ack)
            then r.ledger.released == s.ledger.released &&
                 exists tx :: r.ledger.handed == s.ledger.handed + [Handed(a.id, tx)]
            else r.ledger.handed == s.ledger.handed && r.ledger.released == s.ledger.released + multiset{a.id}
  {
    var i := FindTransaction(s.core.ist, a.parsed.value);
    var tx := if a.parsed.value.start.StatusLine? && i < |s.core.ist| then s.core.ist[i].info.id else a.id;
    var (st, r) := ParseMsg(s, a);
    if st == Ok && !IsRequest(a.parsed.value, Ack) {
      assert r.ledger.handed == s.ledger.handed + [Handed(a.id, tx)];
    }
  }

  /** The dispatcher gets as far as putting the message on a transaction. */
  predicate Hands(s: State, a: Arrival) {
    && a.parsed.Some?
    && (Accepts(a) || (&& a.parsed.value.start.StatusLine?
                       && FindTransaction(s.core.ist, a.parsed.value) < |s.core.ist|
                       && a.luck.socket && a.luck.add))
  }

  /**
   * A failed wake-up frees a message that a transaction already holds, so single ownership survives an arrival
   * exactly when the message was not handed over or the wake-up succeeded.
   */
  lemma OwnershipNeedsWakeup(s: State, a: Arrival)
    requires Rest(s) && a.id !in s.ledger.seen
    ensures OwnershipOk(ParseMsg(s, a).1.core, ParseMsg(s, a).1.ledger, multiset{}) <==>
            !Hands(s, a) || a.luck.wake == WakeOk
  {
    if a.luck.wake == WakeOk {
      ParseMsgKeeps(s, a);
    } else if Hands(s, a) {
      FailedWakeup(s, a);
    } else {
      var b := a.(luck := a.luck.(wake := WakeOk));
      UnusedWakeup(s, a, b);
      ParseMsgKeeps(s, b);
    }
  }

  lemma UnusedWakeup(s: State, a: Arrival, b: Arrival)
    requires !Hands(s, a) && b == a.(luck := a.luck.(wake := WakeOk))
    ensures ParseMsg(s, a) == ParseMsg(s, b)
  {
  }

  lemma FailedWakeup(s: State, a: Arrival)
    requires Hands(s, a) && a.luck.wake != WakeOk
    ensures ParseMsg(s, a).0 == Unknown
    ensures var l := ParseMsg(s, a).1.ledger; l.released[a.id] > 0 && HandedEvents(l.handed)[a.id] > 0
  {
    var i := FindTransaction(s.core.ist, a.parsed.value);
    var tx := if a.parsed.value.start.StatusLine? then s.core.ist[i].info.id else a.id;
    var l := ParseMsg(s, a).1.ledger;
    assert l.handed == s.ledger.handed + [Handed(a.id, tx)];
    HandOver(s.ledger.handed, Handed(a.id, tx));
  }

  // ---------- server only ----------

  lemma FamiliesAgree(c: Core)
    requires TablesOk(c)
    ensures forall i :: 0 <= i < |c.ist| ==> IsRequest(c.ist[i].info.request, Invite)
    ensures forall i :: 0 <= i < |c.nist| ==> IsNonInvite(c.nist[i].info.request)
  {
    assert c.ist == Table(c, IST) && c.nist == Table(c, NIST);
  }

  /** Only server transactions ever exist, each in the table of its request; the client passes do nothing. */
  lemma ServerOnly(steps: seq<Step>)
    requires CanRun(INITIAL, steps)
    ensures var s := Run(INITIAL, steps);
            && s.core.ict == [] && s.core.nict == []
            && Execute(s, ICT) == s && Execute(s, NICT) == s
            && (forall i :: 0 <= i < |s.core.ist| ==> IsRequest(s.core.ist[i].info.request, Invite))
            && (forall i :: 0 <= i < |s.core.nist| ==> IsNonInvite(s.core.nist[i].info.request))
  {
    Reachable(steps);
    var s := Run(INITIAL, steps);
    FamiliesAgree(s.core);
    EmptyFamilyIsQuiet(s, ICT);
    EmptyFamilyIsQuiet(s, NICT);
  }

  /** Illegal action is returned exactly for a response that no INVITE server transaction matches; nothing changes. */
  lemma UnmatchedResponse(s: State, a: Arrival)
    ensures ParseMsg(s, a).0 == IllegalAction <==>
            && a.parsed.Some? && a.parsed.value.start.StatusLine?
            && forall i :: 0 <= i < |s.core.ist| ==>
                             var m, r := a.parsed.value, s.core.ist[i].info.request;
                             || m.vias == [] || r.vias == [] || r.vias[0].branch.None? || m.cseq.None? || r.cseq.None?
                             || m.vias[0].branch != r.vias[0].branch || m.cseq.value.verb != r.cseq.value.verb
    ensures ParseMsg(s, a).0 == IllegalAction ==>
              ParseMsg(s, a).1.core == s.core && ParseMsg(s, a).1.queue == s.queue
  {
    if a.parsed.Some? {
      var k := FindTransaction(s.core.ist, a.parsed.value);
      assert k < |s.core.ist| ==> ResponseMatches(s.core.ist[k], a.parsed.value);
    }
  }
}
