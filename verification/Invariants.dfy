/** The invariant of the context, and its preservation by the execution of one queued event. */
module Invariants {
  import opened SipMessages
  import opened Dialogs
  import opened Transactions
  import opened EngineModel

  ghost predicate WasSent(sent: seq<Sent>, id: nat) {
    exists k :: 0 <= k < |sent| && sent[k].info.id == id
  }

  ghost predicate InTable(c: Core, info: Info) {
    exists f, i :: 0 <= i < |Table(c, f)| && Table(c, f)[i].info == info
  }

  /** The dialogs a trace of sent messages leaves, newest first. */
  function DialogsFrom(sent: seq<Sent>): seq<Dialog> {
    if sent == [] then []
    else
      var x := sent[|sent| - 1];
      var d := ExpectedDialog(x.info, x.msg);
      (if d.Some? then [d.value] else []) + DialogsFrom(sent[..|sent| - 1])
  }

  /** Events handed to transaction tx, in order. */
  function HandedTo(handed: seq<Handed>, tx: nat): seq<nat> {
    if handed == [] then []
    else
      var h := handed[|handed| - 1];
      HandedTo(handed[..|handed| - 1], tx) + (if h.tx == tx then [h.ev] else [])
  }

  function HandedEvents(handed: seq<Handed>): multiset<nat> {
    if handed == [] then multiset{}
    else HandedEvents(handed[..|handed| - 1]) + multiset{handed[|handed| - 1].ev}
  }

  ghost predicate Accounted(t: Transaction, handed: seq<Handed>) {
    ReceivedIds(History(t)) == HandedTo(handed, t.info.id)
  }

  // ---------- the parts of the invariant ----------

  /** Client tables are empty; a server transaction sits in the table its request belongs to, and is sound. */
  ghost predicate TablesOk(c: Core) {
    && c.ict == [] && c.nict == []
    && forall f, i :: 0 <= i < |Table(c, f)| ==>
                        Table(c, f)[i].info.family == f && Fits(Table(c, f)[i].info) && TxOk(Table(c, f)[i])
  }

  ghost predicate IdsOk(c: Core, l: Ledger) {
    && (forall f, i :: 0 <= i < |Table(c, f)| ==> Table(c, f)[i].info in l.accepted)
    && (forall f, i, g, j | 0 <= i < |Table(c, f)| && 0 <= j < |Table(c, g)| ::
          Table(c, f)[i].info.id == Table(c, g)[j].info.id ==> f == g && i == j)
    && (forall a :: a in l.accepted ==> a.id in l.seen) && l.cut <= l.seen
    && (forall a, b :: a in l.accepted && b in l.accepted && a.id == b.id ==> a == b)
  }

  /** No transaction sends twice, and what it sends is its own answer. */
  ghost predicate TraceOk(c: Core, l: Ledger) {
    && (forall j, k :: 0 <= j < k < |c.sent| ==> c.sent[j].info.id != c.sent[k].info.id)
    && (forall k :: 0 <= k < |c.sent| ==> c.sent[k].info in l.accepted && Expected(c.sent[k].info) == [c.sent[k].msg])
    && (forall f, i :: 0 <= i < |Table(c, f)| ==>
                         (Table(c, f)[i].stage.Done? <==> WasSent(c.sent, Table(c, f)[i].info.id)))
  }

  /** An accepted request is still in its table, or its fate is settled. */
  ghost predicate AcceptedOk(c: Core, l: Ledger) {
    forall a :: a in l.accepted ==>
                  if InTable(c, a) then a.id !in l.cut
                  else WasSent(c.sent, a.id) <==> Expected(a) != [] && a.id !in l.cut
  }

  /**
   * Each parsed message was freed once or handed over once, unless the dispatcher still holds it (`loose`);
   * what was handed to a transaction is what went through its FIFO.
   */
  ghost predicate OwnershipOk(c: Core, l: Ledger, loose: multiset<nat>) {
    && l.parsed <= l.seen
    && (forall e :: l.released[e] + HandedEvents(l.handed)[e] + loose[e] == if e in l.parsed then 1 else 0)
    && (forall k :: 0 <= k < |l.handed| ==> l.handed[k].tx in l.seen)
    && (forall f, i :: 0 <= i < |Table(c, f)| ==> Accounted(Table(c, f)[i], l.handed))
  }

  /** Every recorded search was made in the dialogs that the messages sent until then had opened. */
  ghost predicate LookupsOk(searches: seq<Lookup>, sent: seq<Sent>) {
    forall k :: 0 <= k < |searches| ==>
                  && searches[k].at <= |sent|
                  && searches[k].found == FirstMatch(DialogsFrom(sent[..searches[k].at]), searches[k].msg)
  }

  ghost predicate LookedUp(byes: seq<Lookup>, a: Info) {
    exists k :: 0 <= k < |byes| && byes[k].id == a.id && byes[k].msg == a.request
  }

  ghost predicate Waiting(c: Core, a: Info) {
    exists j :: 0 <= j < |Table(c, NIST)| && Table(c, NIST)[j].info == a && Table(c, NIST)[j].stage.Initial?
  }

  /** The dialog of an accepted BYE has been looked up, or the BYE is still to be executed. */
  ghost predicate ByesOk(c: Core, l: Ledger) {
    && (forall a :: a in l.accepted && IsRequest(a.request, Bye) ==> LookedUp(c.byes, a) || Waiting(c, a))
    && (forall k :: 0 <= k < |c.byes| ==> c.byes[k].id in l.seen)
  }

  ghost predicate CoreInv(c: Core, l: Ledger, loose: multiset<nat>) {
    && TablesOk(c)
    && IdsOk(c, l)
    && TraceOk(c, l)
    && c.dialogs == DialogsFrom(c.sent)
    && ByesOk(c, l)
    && LookupsOk(c.byes, c.sent) && LookupsOk(l.stops, c.sent)
    && AcceptedOk(c, l)
    && OwnershipOk(c, l, loose)
  }

  ghost predicate NewestFirst(pending: seq<nat>) {
    forall i, j :: 0 <= i < j < |pending| ==> pending[j] < pending[i]
  }

  /** Every wake-up event ever created is freed, pending, leaked, or in hand (`fly`), exactly once. */
  ghost predicate Balanced(q: Queue, fly: multiset<nat>) {
    && (forall e: nat ::
          multiset(q.freed)[e] + multiset(q.pending)[e] + q.leaked[e] + fly[e] == if e < q.next then 1 else 0)
    && NewestFirst(q.pending)
  }

  /** During a drain started by `running`, with `popped` in hand. */
  ghost predicate ActiveInLoop(q: Queue, running: nat, popped: multiset<nat>) {
    && (forall e :: e in q.active ==> e in q.pending || e in popped)
    && (forall e :: e in q.pending ==> e in q.active || e == running)
  }

  ghost predicate Mid(s: State, running: nat, popped: multiset<nat>) {
    && CoreInv(s.core, s.ledger, multiset{})
    && Balanced(s.queue, popped) && s.queue.leaked == multiset{}
    && ActiveInLoop(s.queue, running, popped)
  }

  // ---------- executing one event ----------

  lemma PushKeepsOrder(pending: seq<nat>, next: nat)
    requires NewestFirst(pending) && forall e :: e in multiset(pending) ==> e < next
    ensures NewestFirst([next] + pending)
  {
    assert forall i :: 0 <= i < |pending| ==> pending[i] in multiset(pending);
  }

  lemma WakeupKeepsQueue(q: Queue, running: nat, fly: multiset<nat>)
    requires Balanced(q, fly) && ActiveInLoop(q, running, fly)
    ensures Balanced(Wakeup(q, WakeOk).1, fly) && ActiveInLoop(Wakeup(q, WakeOk).1, running, fly)
  {
    var r := Wakeup(q, WakeOk).1;
    PushKeepsOrder(q.pending, q.next);
    assert multiset(r.pending) == multiset{q.next} + multiset(q.pending);
  }

  lemma CommitKeepsTables(s: State, f: Family, i: nat, r: Reaction)
    requires i < |Table(s.core, f)| && TablesOk(s.core) && GoodStep(Table(s.core, f)[i], r)
    ensures TablesOk(Commit(s, f, i, r).core)
  {
    CommitTables(s, f, i, r);
    var c := Commit(s, f, i, r).core;
    assert Table(c, ICT) == c.ict && Table(c, NICT) == c.nict;
    assert Table(s.core, ICT) == [] && Table(s.core, NICT) == [];
  }

  lemma SameInfos(c: Core, d: Core)
    requires forall g :: |Table(d, g)| == |Table(c, g)|
    requires forall g, j :: 0 <= j < |Table(c, g)| ==> Table(d, g)[j].info == Table(c, g)[j].info
    ensures forall a :: InTable(d, a) <==> InTable(c, a)
  {
    forall a ensures InTable(d, a) <==> InTable(c, a) {
      if InTable(d, a) {
        var g, j :| 0 <= j < |Table(d, g)| && Table(d, g)[j].info == a;
        assert Table(c, g)[j].info == a;
      }
      if InTable(c, a) {
        var g, j :| 0 <= j < |Table(c, g)| && Table(c, g)[j].info == a;
        assert Table(d, g)[j].info == a;
      }
    }
  }

  lemma CommitKeepsInfos(s: State, f: Family, i: nat, r: Reaction)
    requires i < |Table(s.core, f)| && r.tx.info == Table(s.core, f)[i].info
    ensures forall g :: |Table(Commit(s, f, i, r).core, g)| == |Table(s.core, g)|
    ensures forall g, j :: 0 <= j < |Table(s.core, g)| ==>
                             Table(Commit(s, f, i, r).core, g)[j].info == Table(s.core, g)[j].info
    ensures forall a :: InTable(Commit(s, f, i, r).core, a) <==> InTable(s.core, a)
  {
    var c := Commit(s, f, i, r).core;
    assert forall g :: Table(c, g) == if g == f then Table(s.core, f)[i := r.tx] else Table(s.core, g) by {
      CommitTables(s, f, i, r);
    }
    SameInfos(s.core, c);
  }

  lemma WasSentAppend(sent: seq<Sent>, x: Sent, id: nat)
    ensures WasSent(sent + [x], id) <==> WasSent(sent, id) || x.info.id == id
  {
    var all := sent + [x];
    if WasSent(sent, id) {
      var k :| 0 <= k < |sent| && sent[k].info.id == id;
      assert all[k].info.id == id;
    }
    if x.info.id == id {
      assert all[|sent|].info.id == id;
    }
  }

  /** A quiet step keeps the trace and every transaction's answered mark. */
  lemma QuietKeepsTrace(s: State, f: Family, i: nat, r: Reaction)
    requires i < |Table(s.core, f)| && r.tx.info == Table(s.core, f)[i].info
    requires r.sent.None? && (r.tx.stage.Done? <==> Table(s.core, f)[i].stage.Done?)
    requires TraceOk(s.core, s.ledger)
    ensures TraceOk(Commit(s, f, i, r).core, s.ledger)
  {
    CommitTables(s, f, i, r);
    assert Commit(s, f, i, r).core.sent == s.core.sent;
  }

  /** Sending marks this transaction, and only this one, as answered. */
  lemma SendKeepsMarks(s: State, f: Family, i: nat, r: Reaction, g: Family, j: nat)
    requires i < |Table(s.core, f)| && r.tx.info == Table(s.core, f)[i].info
    requires r.sent.Some? && r.tx.stage.Done?
    requires IdsOk(s.core, s.ledger) && TraceOk(s.core, s.ledger)
    requires j < |Table(s.core, g)|
    ensures var c := Commit(s, f, i, r).core;
            j < |Table(c, g)| && (Table(c, g)[j].stage.Done? <==> WasSent(c.sent, Table(c, g)[j].info.id))
  {
    var c, x := Commit(s, f, i, r).core, Sent(r.tx.info, r.sent.value);
    CommitTables(s, f, i, r);
    assert c.sent == s.core.sent + [x];
    WasSentAppend(s.core.sent, x, Table(s.core, g)[j].info.id);
  }

  lemma CommitKeepsTrace(s: State, f: Family, i: nat, r: Reaction)
    requires i < |Table(s.core, f)| && GoodStep(Table(s.core, f)[i], r)
    requires IdsOk(s.core, s.ledger) && TraceOk(s.core, s.ledger)
    ensures TraceOk(Commit(s, f, i, r).core, s.ledger)
  {
    if r.sent.None? {
      QuietKeepsTrace(s, f, i, r);
    } else {
      var c := Commit(s, f, i, r).core;
      assert c.sent == s.core.sent + [Sent(r.tx.info, r.sent.value)];
      assert !WasSent(s.core.sent, r.tx.info.id);
      CommitKeepsInfos(s, f, i, r);
      forall g, j | 0 <= j < |Table(c, g)|
        ensures Table(c, g)[j].stage.Done? <==> WasSent(c.sent, Table(c, g)[j].info.id)
      {
        SendKeepsMarks(s, f, i, r, g, j);
      }
    }
  }

  lemma DialogsAppend(sent: seq<Sent>, x: Sent)
    ensures var d := ExpectedDialog(x.info, x.msg);
            DialogsFrom(sent + [x]) == (if d.Some? then [d.value] else []) + DialogsFrom(sent)
  {
    assert (sent + [x])[..|sent + [x]| - 1] == sent;
  }

  lemma CommitKeepsDialogs(s: State, f: Family, i: nat, r: Reaction)
    requires i < |Table(s.core, f)| && GoodStep(Table(s.core, f)[i], r)
    requires s.core.dialogs == DialogsFrom(s.core.sent)
    ensures Commit(s, f, i, r).core.dialogs == DialogsFrom(Commit(s, f, i, r).core.sent)
  {
    var c := Commit(s, f, i, r).core;
    if r.sent.Some? {
      assert c.sent == s.core.sent + [Sent(r.tx.info, r.sent.value)];
      assert c.dialogs == (if r.dialog.Some? then [r.dialog.value] else []) + s.core.dialogs;
      DialogsAppend(s.core.sent, Sent(r.tx.info, r.sent.value));
    } else {
      assert c.sent == s.core.sent && c.dialogs == s.core.dialogs;
    }
  }

  lemma LookupsOutlive(searches: seq<Lookup>, sent: seq<Sent>, more: seq<Sent>)
    requires LookupsOk(searches, sent)
    ensures LookupsOk(searches, sent + more)
  {
    forall k | 0 <= k < |searches| ensures (sent + more)[..searches[k].at] == sent[..searches[k].at] {
    }
  }

  lemma AddSearch(searches: seq<Lookup>, c: Core, id: nat, m: Message)
    requires LookupsOk(searches, c.sent) && c.dialogs == DialogsFrom(c.sent)
    ensures LookupsOk(searches + [Search(c, id, m)], c.sent)
  {
    assert c.sent[..|c.sent|] == c.sent;
  }

  lemma CommitKeepsLookups(s: State, f: Family, i: nat, r: Reaction)
    requires i < |Table(s.core, f)|
    requires LookupsOk(s.core.byes, s.core.sent) && LookupsOk(s.ledger.stops, s.core.sent)
    requires Commit(s, f, i, r).core.dialogs == DialogsFrom(Commit(s, f, i, r).core.sent)
    ensures LookupsOk(Commit(s, f, i, r).core.byes, Commit(s, f, i, r).core.sent)
    ensures LookupsOk(s.ledger.stops, Commit(s, f, i, r).core.sent)
  {
    var c := Commit(s, f, i, r).core;
    var more := if r.sent.Some? then [Sent(r.tx.info, r.sent.value)] else [];
    assert c.sent == s.core.sent + more;
    LookupsOutlive(s.core.byes, s.core.sent, more);
    LookupsOutlive(s.ledger.stops, s.core.sent, more);
    if r.bye.Some? {
      AddSearch(s.core.byes, c, r.tx.info.id, r.bye.value);
    }
  }

  lemma LookupsAppend(byes: seq<Lookup>, b: Lookup, a: Info)
    ensures LookedUp(byes + [b], a) <==> LookedUp(byes, a) || (b.id == a.id && b.msg == a.request)
  {
    var all := byes + [b];
    if LookedUp(byes, a) {
      var k :| 0 <= k < |byes| && byes[k].id == a.id && byes[k].msg == a.request;
      assert all[k].id == a.id && all[k].msg == a.request;
    }
    if b.id == a.id && b.msg == a.request {
      assert all[|byes|].id == a.id && all[|byes|].msg == a.request;
    }
  }

  /** Executing an event keeps every BYE looked up or waiting. */
  lemma CommitKeepsBye(s: State, f: Family, i: nat, r: Reaction, a: Info)
    requires i < |Table(s.core, f)| && GoodStep(Table(s.core, f)[i], r)
    requires IsRequest(a.request, Bye) && (LookedUp(s.core.byes, a) || Waiting(s.core, a))
    ensures LookedUp(Commit(s, f, i, r).core.byes, a) || Waiting(Commit(s, f, i, r).core, a)
  {
    var t, c := Table(s.core, f)[i], Commit(s, f, i, r).core;
    CommitTables(s, f, i, r);
    if r.bye.Some? {
      var b := c.byes[|c.byes| - 1];
      assert c.byes == s.core.byes + [b] && b.id == t.info.id && b.msg == t.info.request;
      LookupsAppend(s.core.byes, b, a);
    } else {
      assert c.byes == s.core.byes;
    }
    if !LookedUp(c.byes, a) && Waiting(s.core, a) {
      var q := Table(s.core, NIST);
      var j :| 0 <= j < |q| && q[j].info == a && q[j].stage.Initial?;
      assert Table(c, NIST)[j].info == a && Table(c, NIST)[j].stage.Initial?;
    }
  }

  lemma CommitKeepsByes(s: State, f: Family, i: nat, r: Reaction)
    requires i < |Table(s.core, f)| && GoodStep(Table(s.core, f)[i], r)
    requires IdsOk(s.core, s.ledger) && ByesOk(s.core, s.ledger)
    ensures ByesOk(Commit(s, f, i, r).core, s.ledger)
  {
    assert Table(s.core, f)[i].info in s.ledger.accepted;
    forall a | a in s.ledger.accepted && IsRequest(a.request, Bye)
      ensures LookedUp(Commit(s, f, i, r).core.byes, a) || Waiting(Commit(s, f, i, r).core, a)
    {
      CommitKeepsBye(s, f, i, r, a);
    }
  }

  lemma CommitKeepsAccepted(s: State, f: Family, i: nat, r: Reaction)
    requires i < |Table(s.core, f)| && GoodStep(Table(s.core, f)[i], r)
    requires IdsOk(s.core, s.ledger) && AcceptedOk(s.core, s.ledger)
    ensures AcceptedOk(Commit(s, f, i, r).core, s.ledger)
  {
    CommitKeepsInfos(s, f, i, r);
    var t := Table(s.core, f)[i];
    var c := Commit(s, f, i, r).core;
    assert InTable(s.core, t.info);
    if r.sent.Some? {
      var x := Sent(t.info, r.sent.value);
      assert c.sent == s.core.sent + [x];
      forall a | a in s.ledger.accepted && !InTable(c, a)
        ensures WasSent(c.sent, a.id) <==> WasSent(s.core.sent, a.id)
      {
        WasSentAppend(s.core.sent, x, a.id);
      }
    } else {
      assert c.sent == s.core.sent;
    }
  }

  lemma CommitKeepsOwnership(s: State, f: Family, i: nat, r: Reaction)
    requires i < |Table(s.core, f)| && GoodStep(Table(s.core, f)[i], r)
    requires OwnershipOk(s.core, s.ledger, multiset{})
    ensures OwnershipOk(Commit(s, f, i, r).core, s.ledger, multiset{})
  {
    CommitTables(s, f, i, r);
    CommitKeepsInfos(s, f, i, r);
  }

  lemma ExecOneKeeps(s: State, f: Family, i: nat, running: nat, fly: multiset<nat>)
    requires HasWork(s, f, i) && Mid(s, running, fly)
    ensures Mid(ExecOne(s, f, i), running, fly)
  {
    var t := Table(s.core, f)[i];
    var r := Consume(t);
    ConsumeIsGood(t);
    WakeupKeepsQueue(s.queue, running, fly);
    CommitKeepsTables(s, f, i, r);
    CommitKeepsInfos(s, f, i, r);
    CommitKeepsTrace(s, f, i, r);
    CommitKeepsDialogs(s, f, i, r);
    CommitKeepsLookups(s, f, i, r);
    CommitKeepsByes(s, f, i, r);
    CommitKeepsAccepted(s, f, i, r);
    CommitKeepsOwnership(s, f, i, r);
  }

  // ---------- draining ----------

  lemma {:induction false} DrainTxKeeps(s: State, f: Family, i: nat, running: nat, fly: multiset<nat>)
    requires i < |Table(s.core, f)| && Mid(s, running, fly)
    ensures Mid(DrainTx(s, f, i), running, fly)
    decreases Load(Table(s.core, f)[i].fifo)
  {
    var t := Table(s.core, f)[i];
    if t.fifo != [] {
      ConsumeLightens(t);
      CommitTables(s, f, i, Consume(t));
      ExecOneKeeps(s, f, i, running, fly);
      DrainTxKeeps(ExecOne(s, f, i), f, i, running, fly);
    }
  }

  lemma {:induction false} DrainFromKeeps(s: State, f: Family, i: nat, running: nat, fly: multiset<nat>)
    requires i <= |Table(s.core, f)| && Mid(s, running, fly)
    ensures Mid(DrainFrom(s, f, i), running, fly)
    decreases |Table(s.core, f)| - i
  {
    if i < |Table(s.core, f)| {
      DrainTxKeeps(s, f, i, running, fly);
      DrainFromKeeps(DrainTx(s, f, i), f, i + 1, running, fly);
    }
  }

  lemma PassKeeps(s: State, running: nat, fly: multiset<nat>)
    requires Mid(s, running, fly)
    ensures Mid(Pass(s), running, fly)
  {
    DrainFromKeeps(s, ICT, 0, running, fly);
    var s1 := Execute(s, ICT);
    DrainFromKeeps(s1, IST, 0, running, fly);
    var s2 := Execute(s1, IST);
    DrainFromKeeps(s2, NICT, 0, running, fly);
    var s3 := Execute(s2, NICT);
    DrainFromKeeps(s3, NIST, 0, running, fly);
  }

  lemma PopKeepsQueue(q: Queue, running: nat)
    requires q.pending != [] && Balanced(q, multiset{}) && ActiveInLoop(q, running, multiset{})
    ensures Balanced(Pop(q), multiset{q.pending[0]}) && ActiveInLoop(Pop(q), running, multiset{q.pending[0]})
  {
    assert q.pending == [q.pending[0]] + Pop(q).pending;
    assert multiset(q.pending) == multiset{q.pending[0]} + multiset(Pop(q).pending);
  }

  lemma FreeKeepsQueue(q: Queue, running: nat, ev: nat)
    requires Balanced(q, multiset{ev}) && ActiveInLoop(q, running, multiset{ev})
    ensures Balanced(Free(q, ev), multiset{}) && ActiveInLoop(Free(q, ev), running, multiset{})
  {
    assert multiset(q.freed + [ev]) == multiset(q.freed) + multiset{ev};
    assert multiset(q.pending)[ev] == 0;
    assert forall e :: e in q.pending ==> multiset(q.pending)[e] > 0;
  }

  /** Popping an event, running a full pass and freeing the event keeps the account of wake-ups. */
  lemma LoopBodyKeeps(s: State, running: nat)
    requires Mid(s, running, multiset{}) && s.queue.pending != []
    ensures Mid(LoopBody(s), running, multiset{})
  {
    var ev := s.queue.pending[0];
    var s0 := s.(queue := Pop(s.queue));
    PopKeepsQueue(s.queue, running);
    PassKeeps(s0, running, multiset{ev});
    FreeKeepsQueue(Pass(s0).queue, running, ev);
  }

  lemma {:induction false} LoopKeeps(s: State, running: nat)
    requires Mid(s, running, multiset{})
    ensures Mid(Loop(s), running, multiset{})
    decreases Work(s)
  {
    if s.queue.pending != [] {
      LoopBodyWork(s);
      LoopBodyKeeps(s, running);
      LoopKeeps(LoopBody(s), running);
    }
  }
}
