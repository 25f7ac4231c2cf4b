/** Whole runs: what is accepted, and what a transaction can have sent at any moment. */
module Answering {
  import opened SipMessages
  import opened ResponseBuilder
  import opened Dialogs
  import opened Transactions
  import opened EngineModel
  import opened Drain
  import opened Invariants
  import opened Arrivals

  /** What the transaction named `id` put on the wire, in order. */
  function SentBy(sent: seq<Sent>, id: nat): seq<Message> {
    if sent == [] then []
    else
      var x := sent[|sent| - 1];
      SentBy(sent[..|sent| - 1], id) + if x.info.id == id then [x.msg] else []
  }

  /** The arrival becomes a server transaction. */
  predicate Accepts(a: Arrival) {
    && a.parsed.Some? && a.parsed.value.start.RequestLine? && a.parsed.value.start.verb != Ack
    && a.luck.init && a.luck.socket && a.luck.add
  }

  predicate Quiescent(s: State) {
    s.queue.pending == []
  }

  function ArrivalsOf(steps: seq<Step>): seq<Arrival> {
    if steps == [] then []
    else (if steps[0].Arrive? then [steps[0].a] else []) + ArrivalsOf(steps[1..])
  }

  lemma {:induction false} ArrivalInSteps(steps: seq<Step>, a: Arrival)
    ensures a in ArrivalsOf(steps) <==> Arrive(a) in steps
  {
    if steps != [] {
      ArrivalInSteps(steps[1..], a);
      assert steps == [steps[0]] + steps[1..];
    }
  }

  // ---------- what a run accepts ----------

  lemma {:induction false} RunAccepts(s: State, steps: seq<Step>, i: Info)
    requires CanRun(s, steps)
    ensures i in Run(s, steps).ledger.accepted <==>
            i in s.ledger.accepted || exists a :: a in ArrivalsOf(steps) && Accepts(a) && InfoOf(a) == i
    decreases |steps|
  {
    if steps != [] {
      var n, rest := Next(s, steps[0]), steps[1..];
      RunAccepts(n, rest, i);
      var head := if steps[0].Arrive? then [steps[0].a] else [];
      assert ArrivalsOf(steps) == head + ArrivalsOf(rest);
      forall a ensures a in ArrivalsOf(steps) <==> a in head || a in ArrivalsOf(rest) {
      }
      if steps[0].Arrive? {
        var a := steps[0].a;
        AcceptsOne(s, a);
        assert a in ArrivalsOf(steps);
      }
    }
  }

  lemma AcceptsOne(s: State, a: Arrival)
    requires a.luck.wake == WakeOk
    ensures ParseMsg(s, a).1.ledger.accepted == s.ledger.accepted + if Accepts(a) then {InfoOf(a)} else {}
  {
  }

  lemma {:induction false} RunSees(s: State, steps: seq<Step>, a: Arrival)
    requires CanRun(s, steps) && a in ArrivalsOf(steps)
    ensures a.id !in s.ledger.seen
    decreases |steps|
  {
    if steps[0].Arrive? && steps[0].a == a {
    } else {
      RunSees(Next(s, steps[0]), steps[1..], a);
      if steps[0].Arrive? { SeesOne(s, steps[0].a); }
    }
  }

  lemma SeesOne(s: State, a: Arrival)
    ensures ParseMsg(s, a).1.ledger.seen == s.ledger.seen + {a.id}
  {
  }

  /** In a run, a name belongs to one arrival only. */
  lemma {:induction false} ArrivalIdsDiffer(s: State, steps: seq<Step>, a: Arrival, b: Arrival)
    requires CanRun(s, steps) && a in ArrivalsOf(steps) && b in ArrivalsOf(steps) && a.id == b.id
    ensures a == b
    decreases |steps|
  {
    var n := Next(s, steps[0]);
    if steps[0].Arrive? {
      var c := steps[0].a;
      SeesOne(s, c);
      if a != c && b != c {
        ArrivalIdsDiffer(n, steps[1..], a, b);
      } else if a != c {
        RunSees(n, steps[1..], a);
      } else if b != c {
        RunSees(n, steps[1..], b);
      }
    } else {
      ArrivalIdsDiffer(n, steps[1..], a, b);
    }
  }

  lemma {:induction false} RunSplits(s: State, p: seq<Step>, q: seq<Step>)
    requires CanRun(s, p + q)
    ensures CanRun(s, p) && CanRun(Run(s, p), q) && Run(s, p + q) == Run(Run(s, p), q)
    decreases |p|
  {
    if p == [] {
      assert p + q == q;
    } else {
      assert (p + q)[1..] == p[1..] + q;
      RunSplits(Next(s, p[0]), p[1..], q);
    }
  }

  lemma {:induction false} RunHasSeen(s: State, steps: seq<Step>, a: Arrival)
    requires CanRun(s, steps) && (a.id in s.ledger.seen || a in ArrivalsOf(steps))
    ensures a.id in Run(s, steps).ledger.seen
    decreases |steps|
  {
    if steps != [] {
      if steps[0].Arrive? { SeesOne(s, steps[0].a); }
      RunHasSeen(Next(s, steps[0]), steps[1..], a);
    }
  }

  // ---------- answers ----------

  lemma {:induction false} SentByNone(sent: seq<Sent>, id: nat)
    ensures SentBy(sent, id) == [] <==> !WasSent(sent, id)
  {
    if sent != [] {
      var x := sent[|sent| - 1];
      SentByNone(sent[..|sent| - 1], id);
      WasSentAppend(sent[..|sent| - 1], x, id);
      assert sent[..|sent| - 1] + [x] == sent;
    }
  }

  lemma {:induction false} SentByOne(sent: seq<Sent>, k: nat)
    requires k < |sent|
    requires forall i, j :: 0 <= i < j < |sent| ==> sent[i].info.id != sent[j].info.id
    ensures SentBy(sent, sent[k].info.id) == [sent[k].msg]
  {
    var rest := sent[..|sent| - 1];
    if k == |rest| {
      forall j | 0 <= j < |rest| ensures rest[j].info.id != sent[k].info.id {
        assert rest[j] == sent[j];
      }
      SentByNone(rest, sent[k].info.id);
    } else {
      SentByOne(rest, k);
    }
  }

  /** At any moment: a transaction has sent nothing, or exactly its one expected response. */
  lemma SentAtMostOnce(s: State, i: Info)
    requires Rest(s) && i in s.ledger.accepted
    ensures SentBy(s.core.sent, i.id) == if WasSent(s.core.sent, i.id) then Expected(i) else []
    ensures |SentBy(s.core.sent, i.id)| <= 1
  {
    SentByNone(s.core.sent, i.id);
    if WasSent(s.core.sent, i.id) {
      var k :| 0 <= k < |s.core.sent| && s.core.sent[k].info.id == i.id;
      SentByOne(s.core.sent, k);
      assert s.core.sent[k].info == i;
    }
  }

  /** With nothing pending, every accepted request that calls for an answer has it, unless it was cut off. */
  lemma SettledAtRest(s: State, i: Info)
    requires Rest(s) && Quiescent(s) && i in s.ledger.accepted
    ensures WasSent(s.core.sent, i.id) <==> Expected(i) != [] && i.id !in s.ledger.cut
  {
    if InTable(s.core, i) {
      var f, j :| 0 <= j < |Table(s.core, f)| && Table(s.core, f)[j].info == i;
      var t := Table(s.core, f)[j];
      assert t.fifo == [] && TxOk(t);
    }
  }

  lemma NeverAnswered(steps: seq<Step>, a: Arrival)
    requires CanRun(INITIAL, steps) && Arrive(a) in steps && !Accepts(a)
    ensures !WasSent(Run(INITIAL, steps).core.sent, a.id)
  {
    var s := Run(INITIAL, steps);
    Reachable(steps);
    ArrivalInSteps(steps, a);
    if WasSent(s.core.sent, a.id) {
      var k :| 0 <= k < |s.core.sent| && s.core.sent[k].info.id == a.id;
      var i := s.core.sent[k].info;
      RunAccepts(INITIAL, steps, i);
      var b :| b in ArrivalsOf(steps) && Accepts(b) && InfoOf(b) == i;
      ArrivalIdsDiffer(INITIAL, steps, a, b);
    }
  }

  /** In every reachable state, quiescent or not, no arrival has been answered twice or with anything else. */
  lemma NeverTwice(steps: seq<Step>, a: Arrival)
    requires CanRun(INITIAL, steps) && Arrive(a) in steps
    ensures SentBy(Run(INITIAL, steps).core.sent, a.id) != [] ==>
              Accepts(a) && SentBy(Run(INITIAL, steps).core.sent, a.id) == Expected(InfoOf(a))
    ensures |SentBy(Run(INITIAL, steps).core.sent, a.id)| <= 1
  {
    Reachable(steps);
    SentByNone(Run(INITIAL, steps).core.sent, a.id);
    if Accepts(a) {
      ArrivalInSteps(steps, a);
      RunAccepts(INITIAL, steps, InfoOf(a));
      SentAtMostOnce(Run(INITIAL, steps), InfoOf(a));
    } else {
      NeverAnswered(steps, a);
    }
  }
}
