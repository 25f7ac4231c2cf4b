/**
 * The closed form of a drain, and with it the whole trace and the number of wake-ups of a run, predicted from the
 * sequence of arrivals and loop callbacks alone.
 */
module Prediction {
  import opened SipMessages
  import opened ResponseBuilder
  import opened Dialogs
  import opened Transactions
  import opened EngineModel
  import opened Drain
  import opened Invariants
  import opened Arrivals
  import opened Answering
  import opened CutOff

  // ---------- what a transaction, and a table, is about to send ----------

  function Due(t: Transaction): seq<Sent> {
    if Owes(t) then [Sent(t.info, Expected(t.info)[0])] else []
  }

  function DueIn(q: seq<Transaction>): seq<Sent> {
    if q == [] then [] else Due(q[0]) + DueIn(q[1..])
  }

  /** The wake-ups a transaction is about to queue: one when it is about to build its answer. */
  function Starts(t: Transaction): nat {
    if t.stage.Initial? && Expected(t.info) != [] then 1 else 0
  }

  function StartsIn(q: seq<Transaction>): nat {
    if q == [] then 0 else Starts(q[0]) + StartsIn(q[1..])
  }

  lemma Assoc<T>(a: seq<T>, b: seq<T>, c: seq<T>)
    ensures a + b + c == a + (b + c)
  {
  }

  // ---------- a number of wake-ups at once ----------

  /** n consecutive event names from `next` on, newest first. */
  function Newest(next: nat, n: nat): seq<nat> {
    seq(n, j requires 0 <= j < n => next + n - 1 - j)
  }

  /** From q to r, n wake-ups are queued one after the other. */
  ghost predicate Pushes(q: Queue, r: Queue, n: nat) {
    r.pending == Newest(q.next, n) + q.pending && r.freed == q.freed && r.next == q.next + n
  }

  lemma PushesOn(q: Queue, r: Queue, u: Queue, a: nat, b: nat)
    requires Pushes(q, r, a) && Pushes(r, u, b)
    ensures Pushes(q, u, a + b)
  {
    assert Newest(q.next + a, b) + Newest(q.next, a) == Newest(q.next, a + b);
    Assoc(Newest(r.next, b), Newest(q.next, a), q.pending);
  }

  lemma PushesOne(q: Queue)
    ensures Pushes(q, q, 0) && Pushes(q, Wakeup(q, WakeOk).1, 1)
  {
    assert Newest(q.next, 0) == [] && Newest(q.next, 1) == [q.next];
  }

  // ---------- draining one transaction, whatever is queued on it ----------

  function SentNow(r: Reaction): seq<Sent> {
    if r.sent.Some? then [Sent(r.tx.info, r.sent.value)] else []
  }

  function WokenBy(r: Reaction): nat {
    if r.wake then 1 else 0
  }

  /** What a transaction sends until its FIFO is empty. */
  function Settles(t: Transaction): seq<Sent>
    decreases Load(t.fifo)
  {
    if t.fifo == [] then []
    else
      ConsumeLightens(t);
      SentNow(Consume(t)) + Settles(Consume(t).tx)
  }

  /** The wake-ups it queues meanwhile. */
  function Wakes(t: Transaction): nat
    decreases Load(t.fifo)
  {
    if t.fifo == [] then 0
    else
      ConsumeLightens(t);
      WokenBy(Consume(t)) + Wakes(Consume(t).tx)
  }

  /** From s to n, `out` is sent and `k` wake-ups are queued. */
  ghost predicate Emits(s: State, n: State, out: seq<Sent>, k: nat) {
    n.core.sent == s.core.sent + out && Pushes(s.queue, n.queue, k)
  }

  lemma EmitsOn(s: State, n: State, m: State, a: seq<Sent>, j: nat, b: seq<Sent>, k: nat)
    requires Emits(s, n, a, j) && Emits(n, m, b, k)
    ensures Emits(s, m, a + b, j + k)
  {
    Assoc(s.core.sent, a, b);
    PushesOn(s.queue, n.queue, m.queue, j, k);
  }

  lemma CommitEmits(s: State, f: Family, i: nat, r: Reaction)
    requires i < |Table(s.core, f)|
    ensures Emits(s, Commit(s, f, i, r), SentNow(r), WokenBy(r))
  {
    PushesOne(s.queue);
  }

  lemma NothingEmitted(s: State)
    ensures Emits(s, s, [], 0)
  {
    PushesOne(s.queue);
  }

  lemma SettlesFirst(t: Transaction)
    requires t.fifo != []
    ensures Settles(t) == SentNow(Consume(t)) + Settles(Consume(t).tx)
    ensures Wakes(t) == WokenBy(Consume(t)) + Wakes(Consume(t).tx)
  {
  }

  lemma {:induction false} DrainTxEmits(s: State, f: Family, i: nat)
    requires i < |Table(s.core, f)|
    ensures Emits(s, DrainTx(s, f, i), Settles(Table(s.core, f)[i]), Wakes(Table(s.core, f)[i]))
    decreases Load(Table(s.core, f)[i].fifo)
  {
    var t := Table(s.core, f)[i];
    if t.fifo == [] {
      NothingEmitted(s);
    } else {
      var r := Consume(t);
      ConsumeLightens(t);
      CommitTables(s, f, i, r);
      CommitEmits(s, f, i, r);
      DrainTxEmits(ExecOne(s, f, i), f, i);
      SettlesFirst(t);
      EmitsOn(s, ExecOne(s, f, i), DrainTx(s, f, i), SentNow(r), WokenBy(r), Settles(r.tx), Wakes(r.tx));
    }
  }

  // ---------- draining a table ----------

  function SettlesIn(q: seq<Transaction>): seq<Sent> {
    if q == [] then [] else Settles(q[0]) + SettlesIn(q[1..])
  }

  function WakesIn(q: seq<Transaction>): nat {
    if q == [] then 0 else Wakes(q[0]) + WakesIn(q[1..])
  }

  lemma SettlesFromHere(q: seq<Transaction>, i: nat)
    requires i < |q|
    ensures SettlesIn(q[i..]) == Settles(q[i]) + SettlesIn(q[i + 1..])
    ensures WakesIn(q[i..]) == Wakes(q[i]) + WakesIn(q[i + 1..])
  {
    var tail := q[i..];
    assert tail[0] == q[i] && tail[1..] == q[i + 1..];
  }

  lemma HereThenRest(s: State, n: State, m: State, q: seq<Transaction>, i: nat)
    requires i < |q| && Emits(s, n, Settles(q[i]), Wakes(q[i]))
    requires Emits(n, m, SettlesIn(q[i + 1..]), WakesIn(q[i + 1..]))
    ensures Emits(s, m, SettlesIn(q[i..]), WakesIn(q[i..]))
  {
    SettlesFromHere(q, i);
    EmitsOn(s, n, m, Settles(q[i]), Wakes(q[i]), SettlesIn(q[i + 1..]), WakesIn(q[i + 1..]));
  }

  lemma TailAfterDrain(s: State, f: Family, i: nat)
    requires i < |Table(s.core, f)|
    ensures |Table(DrainTx(s, f, i).core, f)| == |Table(s.core, f)|
    ensures Table(DrainTx(s, f, i).core, f)[i + 1..] == Table(s.core, f)[i + 1..]
  {
    DrainTxEmpties(s, f, i);
  }

  /** Draining a table serves its transactions in order. */
  lemma {:induction false} DrainFromEmits(s: State, f: Family, i: nat)
    requires i <= |Table(s.core, f)|
    ensures Emits(s, DrainFrom(s, f, i), SettlesIn(Table(s.core, f)[i..]), WakesIn(Table(s.core, f)[i..]))
    decreases |Table(s.core, f)| - i
  {
    if i == |Table(s.core, f)| {
      NothingEmitted(s);
    } else {
      DrainTxEmits(s, f, i);
      DrainFromEmits(DrainTx(s, f, i), f, i + 1);
      TailAfterDrain(s, f, i);
      HereThenRest(s, DrainTx(s, f, i), DrainFrom(s, f, i), Table(s.core, f), i);
    }
  }

  lemma ExecuteEmits(s: State, f: Family)
    ensures Emits(s, Execute(s, f), SettlesIn(Table(s.core, f)), WakesIn(Table(s.core, f)))
  {
    assert Table(s.core, f)[0..] == Table(s.core, f);
    DrainFromEmits(s, f, 0);
  }

  // ---------- under the invariant, what is sent is what is due ----------

  ghost predicate Ready(t: Transaction) {
    TxOk(t) && Fits(t.info)
  }

  ghost predicate Sound(q: seq<Transaction>) {
    forall i :: 0 <= i < |q| ==> Ready(q[i])
  }

  lemma ReactionCloses(t: Transaction, r: Reaction)
    requires GoodStep(t, r) && Fits(t.info)
    ensures Fits(r.tx.info) && Starts(r.tx) == 0 && WokenBy(r) == Starts(t)
    ensures Due(t) == SentNow(r) + Due(r.tx)
  {
  }

  /** A sound transaction sends what it owes, and queues one wake-up if it had still to build it. */
  lemma {:induction false} SettlesDue(t: Transaction)
    requires Ready(t)
    ensures Settles(t) == Due(t) && Wakes(t) == Starts(t)
    decreases Load(t.fifo)
  {
    if t.fifo != [] {
      ConsumeLightens(t);
      ConsumeIsGood(t);
      ReactionCloses(t, Consume(t));
      SettlesDue(Consume(t).tx);
    }
  }

  lemma {:induction false} SettlesDueIn(q: seq<Transaction>)
    requires Sound(q)
    ensures SettlesIn(q) == DueIn(q) && WakesIn(q) == StartsIn(q)
  {
    if q != [] {
      SettlesDue(q[0]);
      SettlesDueIn(q[1..]);
    }
  }

  lemma ExecuteCloses(s: State, f: Family)
    requires Sound(Table(s.core, f))
    ensures Emits(s, Execute(s, f), DueIn(Table(s.core, f)), StartsIn(Table(s.core, f)))
  {
    ExecuteEmits(s, f);
    SettlesDueIn(Table(s.core, f));
  }

  lemma TablesAreSound(c: Core)
    requires TablesOk(c)
    ensures c.ict == [] && c.nict == [] && Sound(c.ist) && Sound(c.nist)
  {
    assert c.ist == Table(c, IST) && c.nist == Table(c, NIST);
  }

  /** A pass serves the INVITE servers, then the other servers, as the client families are empty. */
  lemma PassServes(s: State)
    requires TablesOk(s.core)
    ensures Pass(s) == Execute(Execute(s, IST), NIST)
    ensures Table(Execute(s, IST).core, NIST) == s.core.nist && Sound(s.core.ist) && Sound(s.core.nist)
  {
    TablesAreSound(s.core);
    var s2 := Execute(s, IST);
    EmptyFamilyIsQuiet(s, ICT);
    ExecuteEmpties(s, IST);
    assert Table(s2.core, NICT) == Table(s.core, NICT);
    EmptyFamilyIsQuiet(s2, NICT);
    assert Table(s2.core, NIST) == Table(s.core, NIST);
  }

  /** A pass answers INVITEs first, in table order, then the others, in table order. */
  lemma PassCloses(s: State)
    requires TablesOk(s.core)
    ensures Emits(s, Pass(s), DueIn(s.core.ist) + DueIn(s.core.nist), StartsIn(s.core.ist) + StartsIn(s.core.nist))
  {
    var s2 := Execute(s, IST);
    PassServes(s);
    ExecuteCloses(s, IST);
    ExecuteCloses(s2, NIST);
    EmitsOn(s, s2, Pass(s), DueIn(s.core.ist), StartsIn(s.core.ist), DueIn(s.core.nist), StartsIn(s.core.nist));
  }

  /** The closed form of a drain, its messages: the answers due, to INVITEs first, each family's in table order. */
  lemma LoopSends(s: State)
    requires TablesOk(s.core) && s.queue.pending != []
    ensures Loop(s).core.sent == s.core.sent + (DueIn(s.core.ist) + DueIn(s.core.nist))
  {
    Coalescing(s);
    PassCloses(s);
  }

  /** Its wake-ups: the popped one is freed first, then the newly queued ones, newest first, then the rest. */
  lemma LoopFrees(s: State)
    requires TablesOk(s.core) && s.queue.pending != []
    ensures var q, n := s.queue, StartsIn(s.core.ist) + StartsIn(s.core.nist);
            && Loop(s).queue.freed == q.freed + [q.pending[0]] + Newest(q.next, n) + q.pending[1..]
            && Loop(s).queue.pending == [] && Loop(s).queue.next == q.next + n
  {
    var q, n := s.queue, StartsIn(s.core.ist) + StartsIn(s.core.nist);
    BodyQueue(s);
    LoopFromIdle(s);
    Assoc(q.freed + [q.pending[0]], Newest(q.next, n), q.pending[1..]);
  }

  lemma BodyQueue(s: State)
    requires TablesOk(s.core) && s.queue.pending != []
    ensures Idle(LoopBody(s).core)
    ensures var q, n := s.queue, StartsIn(s.core.ist) + StartsIn(s.core.nist);
            && LoopBody(s).queue.freed == q.freed + [q.pending[0]]
            && LoopBody(s).queue.pending == Newest(q.next, n) + q.pending[1..]
            && LoopBody(s).queue.next == q.next + n
  {
    BodyIsPass(s);
    PassEmpties(s.(queue := Pop(s.queue)));
    PassCloses(s.(queue := Pop(s.queue)));
  }

  lemma BodyIsPass(s: State)
    requires s.queue.pending != []
    ensures LoopBody(s).core == Pass(s.(queue := Pop(s.queue))).core
    ensures LoopBody(s).queue == Free(Pass(s.(queue := Pop(s.queue))).queue, s.queue.pending[0])
  {
  }

  lemma DispatchSends(s: State, ev: nat)
    requires TablesOk(s.core) && s.queue.pending != []
    ensures Dispatch(s, ev).core.sent == s.core.sent + (DueIn(s.core.ist) + DueIn(s.core.nist))
  {
    LoopSends(s.(queue := s.queue.(active := s.queue.active - {ev})));
  }

  lemma DispatchPushes(s: State, ev: nat)
    requires TablesOk(s.core) && s.queue.pending != []
    ensures Dispatch(s, ev).queue.next == s.queue.next + StartsIn(s.core.ist) + StartsIn(s.core.nist)
  {
    LoopFrees(s.(queue := s.queue.(active := s.queue.active - {ev})));
  }

  /** Within one drain no answer to a non-INVITE request goes out before one to an INVITE. */
  lemma InvitesGoFirst(s: State, ev: nat, i: nat, j: nat)
    requires Rest(s) && ev in s.queue.active
    requires |s.core.sent| <= i < j < |Dispatch(s, ev).core.sent|
    ensures s.core.sent <= Dispatch(s, ev).core.sent
    ensures !(Dispatch(s, ev).core.sent[i].info.family.NIST? && Dispatch(s, ev).core.sent[j].info.family.IST?)
  {
    DispatchSends(s, ev);
    ServersAgree(s.core);
    DueFamily(s.core.ist, IST);
    DueFamily(s.core.nist, NIST);
  }

  lemma ServersAgree(c: Core)
    requires TablesOk(c)
    ensures forall k :: 0 <= k < |c.ist| ==> c.ist[k].info.family == IST
    ensures forall k :: 0 <= k < |c.nist| ==> c.nist[k].info.family == NIST
  {
    assert c.ist == Table(c, IST) && c.nist == Table(c, NIST);
  }

  lemma {:induction false} DueFamily(q: seq<Transaction>, f: Family)
    requires forall k :: 0 <= k < |q| ==> q[k].info.family == f
    ensures forall k :: 0 <= k < |DueIn(q)| ==> DueIn(q)[k].info.family == f
  {
    if q != [] {
      DueFamily(q[1..], f);
    }
  }

  // ---------- the trace of a run ----------

  /** The answers of the requests in the list for whom the loop has not run, in order. */
  ghost function AnswersDue(l: seq<Info>, steps: seq<Step>): seq<Sent> {
    if l == [] then []
    else
      (if Expected(l[0]) != [] && Unserved(steps, l[0].id) then [Sent(l[0], Expected(l[0])[0])] else []) +
      AnswersDue(l[1..], steps)
  }

  /**
   * The trace of a run, read off its steps: each loop callback sends the answers of the requests accepted since the
   * last one, first to INVITEs and then to the others, each in order of arrival.
   */
  ghost function Predicted(steps: seq<Step>): seq<Sent> {
    if steps == [] then []
    else
      var p, x := steps[..|steps| - 1], steps[|steps| - 1];
      Predicted(p) + if x.Fire? then AnswersDue(Listed(p), p) + AnswersDue(Others(p), p) else []
  }

  lemma {:induction false} DueIsPredicted(q: seq<Transaction>, l: seq<Info>, steps: seq<Step>)
    requires SameRequests(q, l) && Debts(q, steps)
    ensures DueIn(q) == AnswersDue(l, steps)
    ensures StartsIn(q) >= |DueIn(q)|
  {
    if q != [] {
      assert forall i :: 0 <= i < |q[1..]| ==> q[1..][i] == q[i + 1] && l[1..][i] == l[i + 1];
      DueIsPredicted(q[1..], l[1..], steps);
    }
  }

  /** A transaction that has not been started owes its answer, so as many wake-ups are queued as answers are due. */
  lemma {:induction false} StartsAreDue(q: seq<Transaction>)
    ensures StartsIn(q) <= |DueIn(q)|
  {
    if q != [] {
      StartsAreDue(q[1..]);
    }
  }

  lemma FireIsPredicted(s: State, p: seq<Step>, ev: nat)
    requires Rest(s) && ev in s.queue.active && Tracks(s.core, p)
    ensures Dispatch(s, ev).core.sent == s.core.sent + (AnswersDue(Listed(p), p) + AnswersDue(Others(p), p))
    ensures Dispatch(s, ev).queue.next - s.queue.next == |Dispatch(s, ev).core.sent| - |s.core.sent|
  {
    DispatchSends(s, ev);
    DispatchPushes(s, ev);
    DueIsPredicted(s.core.ist, Listed(p), p);
    DueIsPredicted(s.core.nist, Others(p), p);
    StartsAreDue(s.core.ist);
    StartsAreDue(s.core.nist);
  }

  lemma ArrivalSendsNothing(s: State, a: Arrival)
    ensures ParseMsg(s, a).1.core.sent == s.core.sent
  {
  }

  /** The whole trace, in order and message by message, is the predicted one. */
  lemma {:induction false} TraceIsPredicted(steps: seq<Step>)
    requires CanRun(INITIAL, steps)
    ensures Run(INITIAL, steps).core.sent == Predicted(steps)
    ensures Run(INITIAL, steps).core.dialogs == DialogsFrom(Predicted(steps))
    decreases |steps|
  {
    Reachable(steps);
    if steps != [] {
      var p, x := steps[..|steps| - 1], steps[|steps| - 1];
      LastStep(steps);
      TraceIsPredicted(p);
      match x
      case Arrive(a) => ArrivalSendsNothing(Run(INITIAL, p), a);
      case Fire(ev) =>
        Reachable(p);
        RunTracks(p);
        FireIsPredicted(Run(INITIAL, p), p, ev);
    }
  }

  // ---------- wake-ups of arrivals, and of a run ----------

  /** The message gets as far as an allocated transaction: a new one, or the INVITE a response corresponds to. */
  ghost predicate HasTransaction(s: State, a: Arrival) {
    && a.parsed.Some?
    && var m := a.parsed.value;
       if m.start.StatusLine?
       then exists i :: 0 <= i < |s.core.ist| && Corresponds(s.core.ist[i].info.request, m)
       else m.start.verb != Ack && a.luck.init
  }

  ghost predicate HandedOver(s: State, a: Arrival) {
    HasTransaction(s, a) && a.luck.socket && a.luck.add
  }

  lemma MatchMeansCorresponds(q: seq<Transaction>, m: Message)
    ensures FindTransaction(q, m) < |q| <==> exists i :: 0 <= i < |q| && Corresponds(q[i].info.request, m)
  {
    var k := FindTransaction(q, m);
    if k < |q| {
      assert Corresponds(q[k].info.request, m);
    }
    forall i | 0 <= i < |q| && k == |q| ensures !Corresponds(q[i].info.request, m) {
      assert !ResponseMatches(q[i], m);
    }
  }

  /** The status of every class of arrival, by what it is, what the table holds, and which call fails. */
  lemma DispatcherStatus(s: State, a: Arrival)
    ensures var st, m := ParseMsg(s, a).0, a.parsed;
            && (st == NetworkProblem <==> m.None?)
            && (st == IllegalAction <==> m.Some? && m.value.start.StatusLine? && !HasTransaction(s, a))
            && (st == OutOfResources <==>
                  || (m.Some? && m.value.start.RequestLine? && m.value.start.verb != Ack && !a.luck.init)
                  || (HasTransaction(s, a) && a.luck.socket && !a.luck.add))
            && (st == Unknown <==>
                  (HasTransaction(s, a) && !a.luck.socket) || (HandedOver(s, a) && a.luck.wake != WakeOk))
            && (st == Ok <==>
                  (m.Some? && IsRequest(m.value, Ack)) || (HandedOver(s, a) && a.luck.wake == WakeOk))
  {
    if a.parsed.Some? {
      MatchMeansCorresponds(s.core.ist, a.parsed.value);
    }
  }

  /** An arrival queues and activates exactly one new wake-up when its message is handed over, and none otherwise. */
  lemma WakeupOfArrival(s: State, a: Arrival)
    ensures var q := s.queue;
            ParseMsg(s, a).1.queue ==
            if !HandedOver(s, a) then q
            else match a.luck.wake
                 case WakeOk => Queue([q.next] + q.pending, q.active + {q.next}, q.freed, q.leaked, q.next + 1)
                 case NewFails => q
                 case AddFails => Queue(q.pending, q.active, q.freed, q.leaked + multiset{q.next}, q.next + 1)
    ensures |ParseMsg(s, a).1.ledger.handed| == |s.ledger.handed| + if HandedOver(s, a) then 1 else 0
  {
    if a.parsed.Some? {
      MatchMeansCorresponds(s.core.ist, a.parsed.value);
    }
  }

  /** Over a run, one wake-up is created per message handed over and one per answer sent. */
  lemma {:induction false} WakeupsCounted(steps: seq<Step>)
    requires CanRun(INITIAL, steps)
    ensures var s := Run(INITIAL, steps); s.queue.next == |s.ledger.handed| + |s.core.sent|
    decreases |steps|
  {
    if steps != [] {
      var p, x := steps[..|steps| - 1], steps[|steps| - 1];
      LastStep(steps);
      WakeupsCounted(p);
      var s := Run(INITIAL, p);
      match x
      case Arrive(a) =>
        WakeupOfArrival(s, a);
        ArrivalSendsNothing(s, a);
      case Fire(ev) =>
        Reachable(p);
        RunTracks(p);
        FireIsPredicted(s, p, ev);
    }
  }

  // ---------- exactly-once answering, in the fields of the message ----------

  /**
   * Exactly-once answering without any name for the conditions: at rest, an arrival that was not cut off has been
   * answered exactly when it is an INVITE, REGISTER or BYE with To, From, CSeq and Call-ID, its transaction could be
   * set up, and no allocation for its response failed, whatever the number of its Vias; the answer is a 200 with its
   * Vias, From, Call-ID and CSeq, and with its To but for an added tag.
   */
  lemma AnsweredWhen(steps: seq<Step>, a: Arrival, m: Message)
    requires CanRun(INITIAL, steps) && Quiescent(Run(INITIAL, steps)) && Arrive(a) in steps
    requires a.parsed == Some(m) && !CutIn(steps, a.id)
    ensures var out, l := SentBy(Run(INITIAL, steps).core.sent, a.id), a.luck;
            && (out != [] <==>
                  && m.start in {RequestLine(Invite), RequestLine(Register), RequestLine(Bye)}
                  && m.to.Some? && m.from.Some? && m.cseq.Some? && m.callId.Some?
                  && l.init && l.socket && l.add
                  && l.build.message && l.build.cseq && l.build.callId
                  && (l.build.viaFault.None? || |m.vias| <= l.build.viaFault.value))
            && (out != [] ==>
                  && |out| == 1 && out[0].start == StatusLine(200)
                  && out[0].vias == m.vias && out[0].from == m.from
                  && out[0].callId == m.callId && out[0].cseq == m.cseq
                  && out[0].to.Some? && out[0].to.value.uri == m.to.value.uri
                  && out[0].to.value.tag ==
                     if m.to.value.tag.Some? then m.to.value.tag else Some(TagText(l.build.random)))
  {
    ExactlyOnce(steps, a);
  }
}
