/** src/sip/esosip.c as functions on the value of its context: the specification the Engine class is proved against. */
module EngineModel {
  import opened SipMessages
  import opened ResponseBuilder
  import opened Dialogs
  import opened Transactions

  /** A message on the wire, with the transaction that sent it. */
  datatype Sent = Sent(info: Info, msg: Message)

  /** A dialog search made for a received request, after `at` messages had been sent. */
  datatype Lookup = Lookup(id: nat, msg: Message, at: nat, found: Option<Dialog>)

  /** The SIP side of the context: the four transaction tables, newest-first dialogs, and what was sent. */
  datatype Core = Core(
    ict: seq<Transaction>,
    ist: seq<Transaction>,
    nict: seq<Transaction>,
    nist: seq<Transaction>,
    dialogs: seq<Dialog>,
    sent: seq<Sent>,
    byes: seq<Lookup>)            // searches made for BYE requests

  /** The wake-up side: pendingEv, libevent's active events, and the fate of every event created so far. */
  datatype Queue = Queue(
    pending: seq<nat>,
    active: set<nat>,
    freed: seq<nat>,          // in the order of event_free
    leaked: multiset<nat>,
    next: nat)

  datatype Handed = Handed(ev: nat, tx: nat)

  /** The dispatcher's account of received messages; each is named by the id of its arrival. */
  datatype Ledger = Ledger(
    seen: set<nat>,               // every datagram
    parsed: set<nat>,             // those for which the parser returned an event
    released: multiset<nat>,      // events the dispatcher freed
    handed: seq<Handed>,          // events the dispatcher put on a transaction
    accepted: set<Info>,          // transactions created and given their request
    cut: set<nat>,                // accepted transactions freed while they still owed an answer
    stops: seq<Lookup>)           // searches made for ACKs, each followed by a stop call on its outcome

  datatype State = State(core: Core, queue: Queue, ledger: Ledger)

  const INITIAL := State(
    Core([], [], [], [], [], [], []),
    Queue([], {}, [], multiset{}, 0),
    Ledger({}, {}, multiset{}, [], {}, {}, []))

  function Table(c: Core, f: Family): seq<Transaction> {
    match f
    case ICT => c.ict
    case IST => c.ist
    case NICT => c.nict
    case NIST => c.nist
  }

  function WithTable(c: Core, f: Family, q: seq<Transaction>): Core {
    match f
    case ICT => c.(ict := q)
    case IST => c.(ist := q)
    case NICT => c.(nict := q)
    case NIST => c.(nist := q)
  }

  // ---------- wake-ups ----------

  /** _es_osip_wakeup: a failing event_add leaves the new event allocated and on no list. */
  function Wakeup(q: Queue, luck: WakeLuck): (Status, Queue) {
    match luck
    case NewFails => (OutOfResources, q)
    case AddFails => (OutOfResources, q.(leaked := q.leaked + multiset{q.next}, next := q.next + 1))
    case WakeOk =>
      (Ok, q.(pending := [q.next] + q.pending, active := q.active + {q.next}, next := q.next + 1))
  }

  function Pop(q: Queue): Queue
    requires q.pending != []
  {
    q.(pending := q.pending[1..])
  }

  /** event_free, which also deactivates. */
  function Free(q: Queue, ev: nat): Queue {
    q.(active := q.active - {ev}, freed := q.freed + [ev])
  }

  // ---------- running transactions ----------

  function Search(c: Core, id: nat, m: Message): Lookup {
    Lookup(id, m, |c.sent|, FirstMatch(c.dialogs, m))
  }

  /** The effects of a reaction of transaction i of family f. */
  function Commit(s: State, f: Family, i: nat, r: Reaction): State
    requires i < |Table(s.core, f)|
  {
    var c := WithTable(s.core, f, Table(s.core, f)[i := r.tx]);
    var c := if r.sent.Some? then c.(sent := c.sent + [Sent(r.tx.info, r.sent.value)]) else c;
    var c := if r.dialog.Some? then c.(dialogs := [r.dialog.value] + c.dialogs) else c;
    var c := if r.bye.Some?
             then c.(byes := c.byes + [Search(c, r.tx.info.id, r.bye.value)])
             else c;
    State(c, if r.wake then Wakeup(s.queue, WakeOk).1 else s.queue, s.ledger)
  }

  /** A reaction changes one entry of one table; its other effects leave the tables alone. */
  lemma CommitTables(s: State, f: Family, i: nat, r: Reaction)
    requires i < |Table(s.core, f)|
    ensures forall g :: Table(Commit(s, f, i, r).core, g) ==
                        if g == f then Table(s.core, f)[i := r.tx] else Table(s.core, g)
  {
  }

  lemma CommitQuiet(s: State, f: Family, i: nat)
    requires i < |Table(s.core, f)|
    ensures Commit(s, f, i, Quiet(Table(s.core, f)[i])) == s
  {
    assert Table(s.core, f)[i := Table(s.core, f)[i]] == Table(s.core, f);
  }

  predicate HasWork(s: State, f: Family, i: nat) {
    i < |Table(s.core, f)| && Table(s.core, f)[i].fifo != []
  }

  function ExecOne(s: State, f: Family, i: nat): State
    requires HasWork(s, f, i)
  {
    Commit(s, f, i, Consume(Table(s.core, f)[i]))
  }

  predicate SameShape(s: State, r: State) {
    && |r.core.ict| == |s.core.ict| && |r.core.ist| == |s.core.ist|
    && |r.core.nict| == |s.core.nict| && |r.core.nist| == |s.core.nist|
    && r.ledger == s.ledger
  }

  /** Run transaction i of family f until its FIFO is empty, callbacks included. */
  function DrainTx(s: State, f: Family, i: nat): (r: State)
    requires i < |Table(s.core, f)|
    ensures SameShape(s, r)
    decreases Load(Table(s.core, f)[i].fifo)
  {
    if Table(s.core, f)[i].fifo == [] then s
    else
      ConsumeLightens(Table(s.core, f)[i]);
      DrainTx(ExecOne(s, f, i), f, i)
  }

  function DrainFrom(s: State, f: Family, i: nat): (r: State)
    requires i <= |Table(s.core, f)|
    ensures SameShape(s, r)
    decreases |Table(s.core, f)| - i
  {
    if i == |Table(s.core, f)| then s else DrainFrom(DrainTx(s, f, i), f, i + 1)
  }

  /** osip_ict_execute, osip_ist_execute, osip_nict_execute, osip_nist_execute. */
  function Execute(s: State, f: Family): (r: State)
    ensures SameShape(s, r)
  {
    DrainFrom(s, f, 0)
  }

  /** One pass over the four families, in the order of the loop body; the timer passes are idle. */
  function Pass(s: State): (r: State)
    ensures SameShape(s, r)
  {
    Execute(Execute(Execute(Execute(s, ICT), IST), NICT), NIST)
  }

  // ---------- the amount of work ----------

  function TableLoad(q: seq<Transaction>): nat {
    if q == [] then 0 else Load(q[0].fifo) + TableLoad(q[1..])
  }

  /** Pending wake-ups and queued events, each request weighing more than what it can create. */
  function Work(s: State): nat {
    |s.queue.pending| + TableLoad(s.core.ict) + TableLoad(s.core.ist) + TableLoad(s.core.nict) + TableLoad(s.core.nist)
  }

  lemma {:induction false} TableLoadUpdate(q: seq<Transaction>, i: nat, t: Transaction)
    requires i < |q|
    ensures TableLoad(q[i := t]) == TableLoad(q) - Load(q[i].fifo) + Load(t.fifo)
  {
    if i == 0 {
      assert q[i := t][1..] == q[1..];
    } else {
      assert q[i := t][1..] == q[1..][i - 1 := t];
      TableLoadUpdate(q[1..], i - 1, t);
    }
  }

  lemma CommitWork(s: State, f: Family, i: nat, r: Reaction)
    requires i < |Table(s.core, f)|
    ensures Work(Commit(s, f, i, r)) ==
            Work(s) - Load(Table(s.core, f)[i].fifo) + Load(r.tx.fifo) + (if r.wake then 1 else 0)
  {
    TableLoadUpdate(Table(s.core, f), i, r.tx);
    CommitTables(s, f, i, r);
    var c := Commit(s, f, i, r).core;
    assert c.ict == Table(c, ICT) && c.ist == Table(c, IST) && c.nict == Table(c, NICT) && c.nist == Table(c, NIST);
  }

  /** Every executed event strictly lowers the work, callbacks and their wake-ups included. */
  lemma ExecOneWork(s: State, f: Family, i: nat)
    requires HasWork(s, f, i)
    ensures Work(ExecOne(s, f, i)) < Work(s)
  {
    var t := Table(s.core, f)[i];
    ConsumeLightens(t);
    CommitWork(s, f, i, Consume(t));
  }

  lemma {:induction false} DrainTxWork(s: State, f: Family, i: nat)
    requires i < |Table(s.core, f)|
    ensures Work(DrainTx(s, f, i)) <= Work(s)
    decreases Load(Table(s.core, f)[i].fifo)
  {
    var t := Table(s.core, f)[i];
    if t.fifo != [] {
      ConsumeLightens(t);
      CommitTables(s, f, i, Consume(t));
      ExecOneWork(s, f, i);
      DrainTxWork(ExecOne(s, f, i), f, i);
    }
  }

  lemma {:induction false} DrainFromWork(s: State, f: Family, i: nat)
    requires i <= |Table(s.core, f)|
    ensures Work(DrainFrom(s, f, i)) <= Work(s)
    decreases |Table(s.core, f)| - i
  {
    if i < |Table(s.core, f)| {
      DrainTxWork(s, f, i);
      DrainFromWork(DrainTx(s, f, i), f, i + 1);
    }
  }

  function LoopBody(s: State): State
    requires s.queue.pending != []
  {
    var r := Pass(s.(queue := Pop(s.queue)));
    r.(queue := Free(r.queue, s.queue.pending[0]))
  }

  /** One iteration of the loop strictly lowers the work, although its callbacks push onto the list it pops. */
  lemma LoopBodyWork(s: State)
    requires s.queue.pending != []
    ensures Work(LoopBody(s)) < Work(s)
  {
    var s0 := s.(queue := Pop(s.queue));
    DrainFromWork(s0, ICT, 0);
    var s1 := Execute(s0, ICT);
    DrainFromWork(s1, IST, 0);
    var s2 := Execute(s1, IST);
    DrainFromWork(s2, NICT, 0);
    var s3 := Execute(s2, NICT);
    DrainFromWork(s3, NIST, 0);
  }

  /** _es_osip_loop */
  function Loop(s: State): (r: State)
    ensures r.ledger == s.ledger
    decreases Work(s)
  {
    if s.queue.pending == [] then s
    else
      LoopBodyWork(s);
      Loop(LoopBody(s))
  }

  // ---------- the dispatcher ----------

  /** A datagram: its name, the message it parses to if any, and the luck of handling it. */
  datatype Arrival = Arrival(id: nat, parsed: Option<Message>, luck: Luck)

  function InfoOf(a: Arrival): Info
    requires a.parsed.Some?
  {
    Info(a.id, if IsRequest(a.parsed.value, Invite) then IST else NIST, a.parsed.value, a.luck)
  }

  function Release(l: Ledger, id: nat): Ledger {
    l.(released := l.released + multiset{id})
  }

  function AddEvent(c: Core, f: Family, i: nat, e: Event): Core
    requires i < |Table(c, f)|
  {
    var t := Table(c, f)[i];
    WithTable(c, f, Table(c, f)[i := t.(fifo := t.fifo + [e])])
  }

  function RemoveAt<T>(q: seq<T>, i: nat): seq<T>
    requires i < |q|
  {
    q[..i] + q[i + 1..]
  }

  predicate Owes(t: Transaction) {
    Expected(t.info) != [] && !t.stage.Done?
  }

  /** The last part of es_osip_parse_msg once the event is on transaction i: notify. */
  function Notify(s: State, a: Arrival): (Status, State) {
    var (st, q) := Wakeup(s.queue, a.luck.wake);
    if st == Ok then (Ok, s.(queue := q)) else (Unknown, s.(queue := q, ledger := Release(s.ledger, a.id)))
  }

  /** A request: a new transaction is appended to its table, given the event, and announced. */
  function AcceptRequest(s: State, a: Arrival): (Status, State)
    requires a.parsed.Some?
  {
    var info := InfoOf(a);
    var l := s.ledger;
    if !a.luck.init then (OutOfResources, s.(ledger := Release(l, a.id)))
    else if !a.luck.socket then (Unknown, s.(ledger := Release(l, a.id)))
    else if !a.luck.add then (OutOfResources, s.(ledger := Release(l, a.id)))
    else
      var t := NewTransaction(info).(fifo := [Incoming(a.id, a.parsed.value)]);
      var c := WithTable(s.core, info.family, Table(s.core, info.family) + [t]);
      Notify(State(c, s.queue, l.(handed := l.handed + [Handed(a.id, a.id)], accepted := l.accepted + {info})), a)
  }

  /** osip_transaction_free on the IST a response was matched to. */
  function FreeMatched(s: State, i: nat): State
    requires i < |s.core.ist|
  {
    var t := s.core.ist[i];
    s.(core := s.core.(ist := RemoveAt(s.core.ist, i)),
       ledger := s.ledger.(cut := if Owes(t) then s.ledger.cut + {t.info.id} else s.ledger.cut))
  }

  /** A response: it goes to the INVITE server transaction it matches, or is refused. */
  function AcceptResponse(s: State, a: Arrival): (Status, State)
    requires a.parsed.Some?
  {
    var l := s.ledger;
    var i := FindTransaction(s.core.ist, a.parsed.value);
    if i == |s.core.ist| then (IllegalAction, s.(ledger := Release(l, a.id)))
    else if !a.luck.socket then (Unknown, FreeMatched(s, i).(ledger := Release(FreeMatched(s, i).ledger, a.id)))
    else if !a.luck.add then (OutOfResources, FreeMatched(s, i).(ledger := Release(FreeMatched(s, i).ledger, a.id)))
    else
      var c := AddEvent(s.core, IST, i, Incoming(a.id, a.parsed.value));
      Notify(State(c, s.queue, l.(handed := l.handed + [Handed(a.id, s.core.ist[i].info.id)])), a)
  }

  /** An ACK: retransmissions of the dialog found are stopped. The call is made for "none found" as well. */
  function AcceptAck(s: State, a: Arrival): (Status, State)
    requires a.parsed.Some?
  {
    var l := s.ledger;
    (Ok, s.(ledger := Release(l.(stops := l.stops + [Search(s.core, a.id, a.parsed.value)]), a.id)))
  }

  function Note(s: State, a: Arrival): State {
    s.(ledger := s.ledger.(
         seen := s.ledger.seen + {a.id},
         parsed := if a.parsed.Some? then s.ledger.parsed + {a.id} else s.ledger.parsed))
  }

  /** es_osip_parse_msg */
  function ParseMsg(s: State, a: Arrival): (Status, State) {
    if a.parsed.None? then (NetworkProblem, Note(s, a))
    else if a.parsed.value.start.StatusLine? then AcceptResponse(Note(s, a), a)
    else if IsRequest(a.parsed.value, Ack) then AcceptAck(Note(s, a), a)
    else AcceptRequest(Note(s, a), a)
  }

  // ---------- runs ----------

  /** One callback of the event base: a datagram, or an active wake-up event. */
  datatype Step = Arrive(a: Arrival) | Fire(ev: nat)

  /** libevent takes a one-shot event off the active set before it runs the callback. */
  function Dispatch(s: State, ev: nat): State {
    Loop(s.(queue := s.queue.(active := s.queue.active - {ev})))
  }

  predicate Enabled(s: State, step: Step) {
    match step
    case Arrive(a) => a.id !in s.ledger.seen && a.luck.wake == WakeOk
    case Fire(ev) => ev in s.queue.active
  }

  function Next(s: State, step: Step): State {
    match step
    case Arrive(a) => ParseMsg(s, a).1
    case Fire(ev) => Dispatch(s, ev)
  }

  predicate CanRun(s: State, steps: seq<Step>)
    decreases |steps|
  {
    steps == [] || (Enabled(s, steps[0]) && CanRun(Next(s, steps[0]), steps[1..]))
  }

  function Run(s: State, steps: seq<Step>): State
    decreases |steps|
  {
    if steps == [] then s else Run(Next(s, steps[0]), steps[1..])
  }
}
