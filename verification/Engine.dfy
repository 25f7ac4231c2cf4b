/**
 * src/sip/esosip.c in its own form: a context whose fields the functions update in place. Every method is proved
 * against the function of EngineModel of the same name, about which the whole-run results are stated.
 */
module SipEngine {
  import opened SipMessages
  import opened ResponseBuilder
  import opened Dialogs
  import opened Transactions
  import opened EngineModel
  import opened Drain
  import opened Arrivals
  import opened Lifetime

  function WithTransaction(s: State, f: Family, i: nat, t: Transaction): State
    requires i < |Table(s.core, f)|
  {
    s.(core := WithTable(s.core, f, Table(s.core, f)[i := t]))
  }

  /** The effects of a reaction do not depend on what the transaction's entry held before. */
  lemma CommitOver(s: State, f: Family, i: nat, u: Transaction, r: Reaction)
    requires i < |Table(s.core, f)|
    ensures |Table(WithTransaction(s, f, i, u).core, f)| == |Table(s.core, f)|
    ensures Table(WithTransaction(s, f, i, u).core, f)[i] == u
    ensures Commit(WithTransaction(s, f, i, u), f, i, r) == Commit(s, f, i, r)
  {
    assert Table(s.core, f)[i := u][i := r.tx] == Table(s.core, f)[i := r.tx];
  }

  lemma CommitThenSet(s: State, f: Family, i: nat, r: Reaction, v: Transaction)
    requires i < |Table(s.core, f)| && v.info == r.tx.info
    ensures |Table(Commit(s, f, i, r).core, f)| == |Table(s.core, f)|
    ensures Table(Commit(s, f, i, r).core, f)[i] == r.tx
    ensures WithTransaction(Commit(s, f, i, r), f, i, v) == Commit(s, f, i, r.(tx := v))
  {
    CommitTables(s, f, i, r);
    assert Table(s.core, f)[i := r.tx][i := v] == Table(s.core, f)[i := v];
  }

  function Forget(l: Ledger, t: Transaction, isNew: bool): Ledger {
    l.(cut := if !isNew && Owes(t) then l.cut + {t.info.id} else l.cut)
  }

  function Keep(l: Ledger, a: Arrival, t: Transaction, isNew: bool): Ledger {
    l.(handed := l.handed + [Handed(a.id, t.info.id)], accepted := if isNew then l.accepted + {t.info} else l.accepted)
  }

  /** The end of es_osip_parse_msg for transaction i of family f, whether it was created or matched. */
  function Give(s: State, a: Arrival, f: Family, i: nat, isNew: bool): (Status, State)
    requires i < |Table(s.core, f)| && a.parsed.Some?
  {
    var t := Table(s.core, f)[i];
    if !a.luck.socket || !a.luck.add then
      (if !a.luck.socket then Unknown else OutOfResources,
       s.(core := WithTable(s.core, f, RemoveAt(Table(s.core, f), i)),
          ledger := Release(Forget(s.ledger, t, isNew), a.id)))
    else
      Notify(s.(core := AddEvent(s.core, f, i, Incoming(a.id, a.parsed.value)),
                ledger := Keep(s.ledger, a, t, isNew)), a)
  }

  /** Creating the transaction first, and freeing it again on a failure, is what AcceptRequest says. */
  lemma GiveToNew(s: State, a: Arrival)
    requires a.parsed.Some? && a.luck.init
    ensures var f, t := InfoOf(a).family, NewTransaction(InfoOf(a));
            var r := s.(core := WithTable(s.core, f, Table(s.core, f) + [t]));
            Give(r, a, f, |Table(s.core, f)|, true) == AcceptRequest(s, a)
  {
    var f, t := InfoOf(a).family, NewTransaction(InfoOf(a));
    var q, u := Table(s.core, f), t.(fifo := [Incoming(a.id, a.parsed.value)]);
    assert RemoveAt(q + [t], |q|) == q;
    assert (q + [t])[|q| := u] == q + [u];
    assert t.fifo + [Incoming(a.id, a.parsed.value)] == u.fifo;
  }

  lemma GiveToMatched(s: State, a: Arrival)
    requires a.parsed.Some?
    ensures var i := FindTransaction(s.core.ist, a.parsed.value);
            i < |s.core.ist| ==> Give(s, a, IST, i, false) == AcceptResponse(s, a)
  {
  }

  class Engine {
    // libosip2's transaction tables
    var ict: seq<Transaction>
    var ist: seq<Transaction>
    var nict: seq<Transaction>
    var nist: seq<Transaction>
    // pendingEv and osipDialog of struct es_osip_s
    var pendingEv: seq<nat>
    var osipDialog: seq<Dialog>
    // libevent: active events, and the name of the next event_new
    var active: set<nat>
    var nextEvent: nat
    // the wire
    var sent: seq<Sent>
    // accounts
    ghost var byes: seq<Lookup>
    ghost var freed: seq<nat>
    ghost var leaked: multiset<nat>
    ghost var ledger: Ledger

    ghost function CoreOf(): Core
      reads this
    {
      Core(ict, ist, nict, nist, osipDialog, sent, byes)
    }

    ghost function QueueOf(): Queue
      reads this
    {
      Queue(pendingEv, active, freed, leaked, nextEvent)
    }

    ghost function Model(): State
      reads this
    {
      State(CoreOf(), QueueOf(), ledger)
    }

    /** es_osip_init, when everything it allocates is there. */
    constructor ()
      ensures Model() == INITIAL
      ensures ict == ist == nict == nist == [] && pendingEv == [] && osipDialog == [] && active == {} && sent == []
    {
      ict, ist, nict, nist := [], [], [], [];
      pendingEv, osipDialog, active, nextEvent, sent := [], [], {}, 0, [];
      byes, freed, leaked, ledger := [], [], multiset{}, INITIAL.ledger;
    }

    // ---------- the tables ----------

    function TableOf(f: Family): (q: seq<Transaction>)
      reads this
      ensures q == Table(CoreOf(), f)
    {
      match f
      case ICT => ict
      case IST => ist
      case NICT => nict
      case NIST => nist
    }

    method SetTable(f: Family, q: seq<Transaction>)
      modifies this
      ensures Model() == old(Model()).(core := WithTable(old(CoreOf()), f, q))
    {
      match f
      case ICT => ict := q;
      case IST => ist := q;
      case NICT => nict := q;
      case NIST => nist := q;
    }

    method SetTransaction(f: Family, i: nat, t: Transaction)
      requires i < |TableOf(f)|
      modifies this
      ensures Model() == WithTransaction(old(Model()), f, i, t)
    {
      SetTable(f, TableOf(f)[i := t]);
    }

    // ---------- wake-ups ----------

    /** _es_osip_wakeup */
    method Wakeup(luck: WakeLuck) returns (status: Status)
      modifies this
      ensures (status, QueueOf()) == EngineModel.Wakeup(old(QueueOf()), luck)
      ensures luck.WakeOk? ==>
                && status == Ok && nextEvent == old(nextEvent) + 1 && leaked == old(leaked)
                && pendingEv == [old(nextEvent)] + old(pendingEv) && active == old(active) + {old(nextEvent)}
      ensures !luck.WakeOk? ==> status == OutOfResources && pendingEv == old(pendingEv) && active == old(active)
      ensures luck.NewFails? ==> nextEvent == old(nextEvent) && leaked == old(leaked)
      ensures luck.AddFails? ==> nextEvent == old(nextEvent) + 1 && leaked == old(leaked) + multiset{old(nextEvent)}
      ensures freed == old(freed)
      ensures CoreOf() == old(CoreOf()) && ledger == old(ledger)
    {
      if luck == NewFails {
        return OutOfResources;
      }
      var ev := nextEvent;
      nextEvent := nextEvent + 1;
      if luck == AddFails {
        leaked := leaked + multiset{ev};
        return OutOfResources;
      }
      pendingEv := [ev] + pendingEv;
      active := active + {ev};
      return Ok;
    }

    /** event_free */
    method FreeEvent(ev: nat)
      modifies this
      ensures Model() == old(Model()).(queue := Free(old(QueueOf()), ev))
    {
      active := active - {ev};
      freed := freed + [ev];
    }

    // ---------- callbacks ----------

    /** _es_internal_send_msg_cb */
    method SendMessage(info: Info, msg: Message)
      modifies this
      ensures Model() == old(Model()).(core := old(CoreOf()).(sent := old(sent) + [Sent(info, msg)]))
    {
      sent := sent + [Sent(info, msg)];
    }

    /** _es_internal_message_cb on transaction i of family f. */
    method MessageCallback(f: Family, i: nat, ty: CallbackType, msg: Message)
      requires i < |TableOf(f)|
      modifies this
      ensures Model() == Commit(old(Model()), f, i, React(old(TableOf(f))[i], ty, msg))
    {
      var t := TableOf(f)[i];
      CommitQuiet(Model(), f, i);
      var resp: Option<Message> := None;
      var sendResp := false;
      var status, n, m;
      match ty {
      case IstInviteReceived =>
        status, resp, n, m := InitResponse(resp, 200, Some(msg), t.info.luck.build);
        if status != Ok {
          return;
        }
        sendResp := true;
      case Ist2xxSent =>
        if OpensDialog(msg) {
          var dialog := if t.info.luck.dialog then DialogFor(t.orig, msg) else None;
          if dialog.None? {
            return;
          }
          osipDialog := [dialog.value] + osipDialog;
        }
      case NistRegisterReceived =>
        status, resp, n, m := InitResponse(resp, 200, Some(msg), t.info.luck.build);
        if status != Ok {
          return;
        }
        sendResp := true;
      case NistByeReceived =>
        var dialog: Option<Dialog> := None;
        var k := 0;
        while k < |osipDialog|
          invariant 0 <= k <= |osipDialog| && dialog == None
          invariant FirstMatch(osipDialog[k..], msg) == FirstMatch(osipDialog, msg)
        {
          dialog := Some(osipDialog[k]);
          if Matches(osipDialog[k], msg) {
            break;
          }
          k, dialog := k + 1, None;
        }
        byes := byes + [Lookup(t.info.id, msg, |sent|, dialog)];
        status, resp, n, m := InitResponse(resp, 200, Some(msg), t.info.luck.build);
        if status != Ok {
          return;
        }
        sendResp := true;
      case _ =>
      }
      if sendResp {
        SetTransaction(f, i, t.(fifo := t.fifo + [Outgoing(resp.value)]));
        status := Wakeup(WakeOk);
      }
    }

    // ---------- libosip2 running a transaction ----------

    /** A new request: raise the callback, then leave the initial state. */
    method Begin(f: Family, i: nat, u: Transaction, ty: CallbackType, msg: Message)
      requires i < |TableOf(f)|
      modifies this
      ensures var r := React(u.(orig := Some(msg)), ty, msg);
              Model() == Commit(old(Model()), f, i, r.(tx := r.tx.(stage := Proceeding)))
    {
      var v := u.(orig := Some(msg));
      ghost var s := Model();
      ghost var r := React(v, ty, msg);
      CommitOver(s, f, i, v, r);
      CommitThenSet(s, f, i, r, r.tx.(stage := Proceeding));
      SetTransaction(f, i, v);
      MessageCallback(f, i, ty, msg);
      SetTransaction(f, i, TableOf(f)[i].(stage := Proceeding));
    }

    /** A repeated request: raise the callback, and send the last response again. */
    method Repeat(f: Family, i: nat, u: Transaction, ty: CallbackType, msg: Message)
      requires i < |TableOf(f)| && ty in {IstInviteReceivedAgain, NistRequestReceivedAgain}
      modifies this
      ensures Model() == Commit(old(Model()), f, i, Quiet(u).(sent := u.last))
    {
      CommitOver(Model(), f, i, u, Quiet(u));
      SetTransaction(f, i, u);
      MessageCallback(f, i, ty, msg);
      if u.last.Some? {
        SendMessage(u.info, u.last.value);
      }
    }

    /** A 2xx from the transaction user: send it, raise the callback, and finish. */
    method Finish(f: Family, i: nat, u: Transaction, ty: CallbackType, msg: Message)
      requires i < |TableOf(f)| && ty in {Ist2xxSent, Nist2xxSent}
      modifies this
      ensures var r := React(u.(last := Some(msg)), ty, msg);
              Model() == Commit(old(Model()), f, i, r.(tx := r.tx.(stage := Done), sent := Some(msg)))
    {
      var v := u.(last := Some(msg));
      ghost var s := Model();
      ghost var r := React(v, ty, msg);
      ghost var out := s.(core := s.core.(sent := s.core.sent + [Sent(u.info, msg)]));
      assert |Table(out.core, f)| == |Table(s.core, f)|;
      CommitOver(out, f, i, v, r);
      CommitThenSet(out, f, i, r, r.tx.(stage := Done));
      SendMessage(u.info, msg);
      SetTransaction(f, i, v);
      MessageCallback(f, i, ty, msg);
      SetTransaction(f, i, TableOf(f)[i].(stage := Done));
      assert Table(out.core, f) == Table(s.core, f);
    }

    /** osip_transaction_execute on the event at the head of the FIFO, for an INVITE server transaction. */
    method ExecuteIst(f: Family, i: nat)
      requires HasWork(Model(), f, i) && TableOf(f)[i].info.family == IST
      modifies this
      ensures Model() == ExecOne(old(Model()), f, i)
    {
      var e, u := TableOf(f)[i].fifo[0], TakeEvent(TableOf(f)[i]);
      if u.stage.Initial? && e.Incoming? && IsRequest(e.msg, Invite) {
        Begin(f, i, u, IstInviteReceived, e.msg);
      } else if u.stage.Proceeding? && e.Incoming? && IsRequest(e.msg, Invite) {
        Repeat(f, i, u, IstInviteReceivedAgain, e.msg);
      } else if u.stage.Proceeding? && e.Outgoing? && Is2xx(e.msg) {
        Finish(f, i, u, Ist2xxSent, e.msg);
      } else {
        SetTransaction(f, i, u);
      }
    }

    /** Likewise for a non-INVITE server transaction. */
    method ExecuteNist(f: Family, i: nat)
      requires HasWork(Model(), f, i) && TableOf(f)[i].info.family == NIST
      modifies this
      ensures Model() == ExecOne(old(Model()), f, i)
    {
      var e, u := TableOf(f)[i].fifo[0], TakeEvent(TableOf(f)[i]);
      if u.stage.Initial? && e.Incoming? && IsNonInvite(e.msg) {
        Begin(f, i, u, NistCallback(e.msg), e.msg);
      } else if u.stage.Done? && e.Incoming? && IsNonInvite(e.msg) {
        Repeat(f, i, u, NistRequestReceivedAgain, e.msg);
      } else if u.stage.Proceeding? && e.Outgoing? && Is2xx(e.msg) {
        Finish(f, i, u, Nist2xxSent, e.msg);
      } else {
        SetTransaction(f, i, u);
      }
    }

    /** osip_transaction_execute */
    method ExecuteEvent(f: Family, i: nat)
      requires HasWork(Model(), f, i)
      modifies this
      ensures Model() == ExecOne(old(Model()), f, i)
    {
      match TableOf(f)[i].info.family {
        case IST => ExecuteIst(f, i);
        case NIST => ExecuteNist(f, i);
        case _ => SetTransaction(f, i, TakeEvent(TableOf(f)[i]));
      }
    }

    /** Run transaction i of family f until its FIFO is empty, also of what callbacks append meanwhile. */
    method DrainTransaction(f: Family, i: nat)
      requires i < |TableOf(f)|
      modifies this
      ensures Model() == DrainTx(old(Model()), f, i)
    {
      while TableOf(f)[i].fifo != []
        invariant i < |TableOf(f)| && DrainTx(Model(), f, i) == DrainTx(old(Model()), f, i)
        decreases Load(TableOf(f)[i].fifo)
      {
        ghost var t := TableOf(f)[i];
        ConsumeLightens(t);
        CommitTables(Model(), f, i, Consume(t));
        ExecuteEvent(f, i);
      }
    }

    /** osip_ict_execute, osip_ist_execute, osip_nict_execute, osip_nist_execute */
    method ExecuteFamily(f: Family)
      modifies this
      ensures Model() == Execute(old(Model()), f)
    {
      var i := 0;
      while i < |TableOf(f)|
        invariant 0 <= i <= |TableOf(f)|
        invariant DrainFrom(Model(), f, i) == Execute(old(Model()), f)
      {
        DrainTransaction(f, i);
        i := i + 1;
      }
    }

    /** _es_osip_loop */
    method OsipLoop()
      modifies this
      ensures Model() == Loop(old(Model()))
    {
      while |pendingEv| > 0
        invariant Loop(Model()) == Loop(old(Model()))
        decreases Work(Model())
      {
        LoopBodyWork(Model());
        var ev := pendingEv[0];
        pendingEv := pendingEv[1..];
        ExecuteFamily(ICT);
        ExecuteFamily(IST);
        ExecuteFamily(NICT);
        ExecuteFamily(NIST);
        FreeEvent(ev);
      }
    }

    /** The event base running one active wake-up: a one-shot event leaves the active set before its callback. */
    method RunEvent(ev: nat)
      requires ev in active
      modifies this
      ensures Model() == Dispatch(old(Model()), ev)
    {
      active := active - {ev};
      OsipLoop();
    }

    // ---------- the dispatcher ----------

    /** osip_transaction_find */
    method MatchResponse(q: seq<Transaction>, msg: Message) returns (tr: Option<nat>)
      ensures tr == if FindTransaction(q, msg) < |q| then Some(FindTransaction(q, msg)) else None
      ensures tr.Some? <==> exists j :: 0 <= j < |q| && ResponseMatches(q[j], msg)
    {
      var i := 0;
      while i < |q|
        invariant 0 <= i <= |q|
        invariant forall j :: 0 <= j < i ==> !ResponseMatches(q[j], msg)
      {
        if ResponseMatches(q[i], msg) {
          return Some(i);
        }
        i := i + 1;
      }
      return None;
    }

    ghost method ReleaseEvent(id: nat)
      modifies this`ledger
      ensures ledger == Release(old(ledger), id)
    {
      ledger := Release(ledger, id);
    }

    /** osip_transaction_free */
    method FreeTransaction(f: Family, i: nat)
      requires i < |TableOf(f)|
      modifies this
      ensures Model() == old(Model()).(core := WithTable(old(CoreOf()), f, RemoveAt(old(TableOf(f)), i)))
    {
      SetTable(f, TableOf(f)[..i] + TableOf(f)[i + 1..]);
    }

    /** The part of es_osip_parse_msg that gives the event to transaction i of family f, just created or matched. */
    method GiveEvent(a: Arrival, f: Family, i: nat, isNew: bool) returns (status: Status)
      requires i < |TableOf(f)| && a.parsed.Some?
      modifies this
      ensures (status, Model()) == Give(old(Model()), a, f, i, isNew)
    {
      var t := TableOf(f)[i];
      if !a.luck.socket {
        FreeTransaction(f, i);
        ledger := Forget(ledger, t, isNew);
        ReleaseEvent(a.id);
        return Unknown;
      }
      if !a.luck.add {
        FreeTransaction(f, i);
        ledger := Forget(ledger, t, isNew);
        ReleaseEvent(a.id);
        return OutOfResources;
      }
      SetTransaction(f, i, t.(fifo := t.fifo + [Incoming(a.id, a.parsed.value)]));
      ledger := Keep(ledger, a, t, isNew);
      status := Wakeup(a.luck.wake);
      if status != Ok {
        ReleaseEvent(a.id);
        return Unknown;
      }
    }

    /** es_osip_parse_msg */
    method ParseMsg(a: Arrival) returns (status: Status)
      modifies this
      ensures (status, Model()) == EngineModel.ParseMsg(old(Model()), a)
    {
      ledger := Note(Model(), a).ledger;
      if a.parsed.None? {
        return NetworkProblem;
      }
      var msg := a.parsed.value;
      var f, tr: Option<nat> := IST, None;

      if msg.start.StatusLine? {
        tr := MatchResponse(ist, msg);
        if tr.None? {
          ReleaseEvent(a.id);
          return IllegalAction;
        }
      }

      if IsRequest(msg, Ack) {
        var i := 0;
        var dialog: Option<Dialog> := None;
        while i < |osipDialog|
          invariant 0 <= i <= |osipDialog| && dialog == None
          invariant FirstMatch(osipDialog[i..], msg) == FirstMatch(osipDialog, msg)
        {
          dialog := Some(osipDialog[i]);
          if Matches(osipDialog[i], msg) {
            break;
          }
          i, dialog := i + 1, None;
        }
        ledger := ledger.(stops := ledger.stops + [Lookup(a.id, msg, |sent|, dialog)]);
        ReleaseEvent(a.id);
        return Ok;
      }

      if IsRequest(msg, Invite) {
        if !a.luck.init {
          ReleaseEvent(a.id);
          return OutOfResources;
        }
        tr := Some(|ist|);
        ist := ist + [NewTransaction(InfoOf(a))];
      }

      if IsNonInvite(msg) {
        if !a.luck.init {
          ReleaseEvent(a.id);
          return OutOfResources;
        }
        f, tr := NIST, Some(|nist|);
        nist := nist + [NewTransaction(InfoOf(a))];
      }

      // Every class of message has returned or set tr by now: the source's "no transaction" branch is dead.
      status := GiveEvent(a, f, tr.value, !msg.start.StatusLine?);
      if msg.start.StatusLine? {
        GiveToMatched(Note(old(Model()), a), a);
      } else {
        GiveToNew(Note(old(Model()), a), a);
      }
    }

    /** The event base serving callbacks one after the other: a whole run. */
    method Serve(steps: seq<Step>)
      requires CanRun(Model(), steps)
      modifies this
      ensures Model() == Run(old(Model()), steps)
    {
      var k := 0;
      while k < |steps|
        invariant 0 <= k <= |steps|
        invariant CanRun(Model(), steps[k..]) && Run(Model(), steps[k..]) == Run(old(Model()), steps)
      {
        assert steps[k..][1..] == steps[k + 1..];
        match steps[k] {
          case Arrive(a) => var status := ParseMsg(a);
          case Fire(ev) => RunEvent(ev);
        }
        k := k + 1;
      }
    }

    /** es_osip_deinit: the list destructor frees what is still pending, front to back. */
    method DeinitPending()
      modifies this
      ensures QueueOf() == Deinit(old(QueueOf())) && CoreOf() == old(CoreOf()) && ledger == old(ledger)
      ensures pendingEv == [] && freed == old(freed) + old(pendingEv)
    {
      DeinitFrees(QueueOf());
      while |pendingEv| > 0
        invariant Deinit(QueueOf()) == Deinit(old(QueueOf()))
        invariant CoreOf() == old(CoreOf()) && ledger == old(ledger)
        decreases |pendingEv|
      {
        var ev := pendingEv[0];
        pendingEv := pendingEv[1..];
        FreeEvent(ev);
      }
    }
  }

  /** A server's whole life: whatever it served, in the end every wake-up event it created was freed exactly once. */
  method ServeAndShutDown(steps: seq<Step>) returns (engine: Engine)
    requires CanRun(INITIAL, steps)
    ensures engine.Model().core == Run(INITIAL, steps).core
    ensures engine.pendingEv == [] && engine.active == {}
    ensures forall e: nat :: multiset(engine.freed)[e] == if e < engine.nextEvent then 1 else 0
  {
    engine := new Engine();
    engine.Serve(steps);
    WakeupsConserved(steps);
    engine.DeinitPending();
    DeinitFrees(Run(INITIAL, steps).queue);
  }
}
