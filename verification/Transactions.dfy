/**
 * SIP transactions with the small part of libosip2 the engine relies on: FIFOs that append at the tail,
 * and the state machines of sections 17.2.1 and 17.2.2 of RFC 3261 for the events the engine produces.
 */
module Transactions {
  import opened SipMessages
  import opened ResponseBuilder
  import opened Dialogs

  datatype Family = ICT | IST | NICT | NIST

  /** How _es_osip_wakeup fares: event_new and event_add may fail. */
  datatype WakeLuck = WakeOk | NewFails | AddFails

  /** The outcomes, for one received message, of every library call that may fail, and its random draw. */
  datatype Luck = Luck(
    init: bool,        // osip_transaction_init
    socket: bool,      // osip_transaction_set_out_socket
    add: bool,         // osip_transaction_add_event
    wake: WakeLuck,    // _es_osip_wakeup from the dispatcher
    build: BuildLuck,  // es_msg_initResponse
    dialog: bool)      // osip_dialog_init_as_uas

  /** What is fixed when a transaction is created. `id` names the message that created it. */
  datatype Info = Info(id: nat, family: Family, request: Message, luck: Luck)

  datatype Event = Incoming(id: nat, msg: Message) | Outgoing(msg: Message)

  /** Initial is PRE_PROCEEDING or PRE_TRYING, Proceeding is PROCEEDING or TRYING, Done is TERMINATED or COMPLETED. */
  datatype Stage = Initial | Proceeding | Done

  /** `past` is the history of events already taken from the FIFO. */
  datatype Transaction = Transaction(
    info: Info,
    stage: Stage,
    orig: Option<Message>,
    last: Option<Message>,
    fifo: seq<Event>,
    past: seq<Event>)

  function NewTransaction(info: Info): Transaction {
    Transaction(info, Initial, None, None, [], [])
  }

  /** The callbacks of osip_message_callback_type_t that the server state machines raise. */
  datatype CallbackType =
    | IstInviteReceived
    | IstInviteReceivedAgain
    | Ist2xxSent
    | NistRegisterReceived
    | NistByeReceived
    | NistOtherReceived
    | NistRequestReceivedAgain
    | Nist2xxSent

  /** What one callback or one event does: the transaction after it, and its effects on the shared context. */
  datatype Reaction = Reaction(
    tx: Transaction,
    wake: bool,              // a wake-up event is queued
    sent: Option<Message>,   // a message goes out
    dialog: Option<Dialog>,  // a dialog is stored
    bye: Option<Message>)    // the dialog of a BYE is looked up

  function Quiet(t: Transaction): Reaction {
    Reaction(t, false, None, None, None)
  }

  /** Build the 200 and queue it on the transaction, with a wake-up; nothing at all when building fails. */
  function Answer(t: Transaction, msg: Message): Reaction {
    if Buildable(msg, t.info.luck.build)
    then Quiet(t.(fifo := t.fifo + [Outgoing(ResponseTo(200, msg, t.info.luck.build.random))])).(wake := true)
    else Quiet(t)
  }

  /** MSG_IS_RESPONSE_FOR(msg, "INVITE") && !MSG_TEST_CODE(msg, 100) */
  predicate OpensDialog(msg: Message) {
    msg.start.StatusLine? && msg.cseq.Some? && msg.cseq.value.verb == Invite && msg.start.code != 100
  }

  /** _es_internal_message_cb on transaction t. */
  function React(t: Transaction, ty: CallbackType, msg: Message): Reaction {
    match ty
    case IstInviteReceived => Answer(t, msg)
    case NistRegisterReceived => Answer(t, msg)
    case NistByeReceived => Answer(t, msg).(bye := Some(msg))
    case Ist2xxSent =>
      Quiet(t).(dialog := if OpensDialog(msg) && t.info.luck.dialog then DialogFor(t.orig, msg) else None)
    case _ => Quiet(t)
  }

  function NistCallback(msg: Message): CallbackType {
    if IsRequest(msg, Register) then NistRegisterReceived
    else if IsRequest(msg, Bye) then NistByeReceived
    else NistOtherReceived
  }

  predicate IsNonInvite(msg: Message) {
    msg.start.RequestLine? && msg.start.verb != Invite && msg.start.verb != Ack
  }

  /** Section 17.2.1 of RFC 3261: INVITE, its retransmission, and a 2xx from the transaction user. */
  function IstStep(t: Transaction, e: Event): Reaction {
    if t.stage.Initial? && e.Incoming? && IsRequest(e.msg, Invite) then
      var r := React(t.(orig := Some(e.msg)), IstInviteReceived, e.msg);
      r.(tx := r.tx.(stage := Proceeding))
    else if t.stage.Proceeding? && e.Incoming? && IsRequest(e.msg, Invite) then
      React(t, IstInviteReceivedAgain, e.msg).(sent := t.last)
    else if t.stage.Proceeding? && e.Outgoing? && Is2xx(e.msg) then
      var r := React(t.(last := Some(e.msg)), Ist2xxSent, e.msg);
      r.(tx := r.tx.(stage := Done), sent := Some(e.msg))
    else
      Quiet(t)
  }

  /** Section 17.2.2 of RFC 3261, likewise. */
  function NistStep(t: Transaction, e: Event): Reaction {
    if t.stage.Initial? && e.Incoming? && IsNonInvite(e.msg) then
      var r := React(t.(orig := Some(e.msg)), NistCallback(e.msg), e.msg);
      r.(tx := r.tx.(stage := Proceeding))
    else if t.stage.Done? && e.Incoming? && IsNonInvite(e.msg) then
      React(t, NistRequestReceivedAgain, e.msg).(sent := t.last)
    else if t.stage.Proceeding? && e.Outgoing? && Is2xx(e.msg) then
      var r := React(t.(last := Some(e.msg)), Nist2xxSent, e.msg);
      r.(tx := r.tx.(stage := Done), sent := Some(e.msg))
    else
      Quiet(t)
  }

  function TakeEvent(t: Transaction): Transaction
    requires t.fifo != []
  {
    t.(fifo := t.fifo[1..], past := t.past + [t.fifo[0]])
  }

  /** osip_transaction_execute on the event at the head of the FIFO. No client event ever exists to be executed. */
  function Consume(t: Transaction): Reaction
    requires t.fifo != []
  {
    match t.info.family
    case IST => IstStep(TakeEvent(t), t.fifo[0])
    case NIST => NistStep(TakeEvent(t), t.fifo[0])
    case _ => Quiet(TakeEvent(t))
  }

  /** Section 17.1.3 of RFC 3261: top Via branch and CSeq method of request and response agree. */
  predicate Corresponds(request: Message, m: Message) {
    && request.vias != [] && m.vias != []
    && request.vias[0].branch.Some? && m.vias[0].branch == request.vias[0].branch
    && request.cseq.Some? && m.cseq.Some?
    && m.cseq.value.verb == request.cseq.value.verb
  }

  predicate ResponseMatches(t: Transaction, m: Message) {
    Corresponds(t.info.request, m)
  }

  /** osip_transaction_find: index of the first transaction the response matches, or |q|. */
  function FindTransaction(q: seq<Transaction>, m: Message): (i: nat)
    ensures i <= |q|
    ensures i < |q| ==> ResponseMatches(q[i], m)
    ensures forall j :: 0 <= j < i ==> !ResponseMatches(q[j], m)
  {
    if q == [] then 0
    else if ResponseMatches(q[0], m) then 0
    else
      var i := FindTransaction(q[1..], m);
      assert forall j :: 1 <= j < |q| ==> q[j] == q[1..][j - 1];
      i + 1
  }

  // ---------- what a transaction owes ----------

  predicate Answerable(request: Message) {
    request.start.RequestLine? && request.start.verb in {Invite, Register, Bye}
  }

  /** What the transaction should send in its lifetime: one 200, or nothing. */
  function Expected(info: Info): seq<Message> {
    if Answerable(info.request) && Buildable(info.request, info.luck.build)
    then [ResponseTo(200, info.request, info.luck.build.random)]
    else []
  }

  /** The dialog that sending `msg` on the transaction should leave behind. */
  function ExpectedDialog(info: Info, msg: Message): Option<Dialog> {
    if info.family.IST? && OpensDialog(msg) && info.luck.dialog then DialogFor(Some(info.request), msg) else None
  }

  predicate Stray(e: Event) {
    e.Incoming? && e.msg.start.StatusLine?
  }

  function AnswerIn(e: Event): seq<Message> {
    if e.Outgoing? then [e.msg] else []
  }

  /** The responses queued in a FIFO, in order. */
  function Answers(fifo: seq<Event>): seq<Message> {
    if fifo == [] then [] else AnswerIn(fifo[0]) + Answers(fifo[1..])
  }

  /** The ids of the received messages in an event sequence, in order. */
  function ReceivedIds(es: seq<Event>): seq<nat> {
    if es == [] then []
    else ReceivedIds(es[..|es| - 1]) + (if es[|es| - 1].Incoming? then [es[|es| - 1].id] else [])
  }

  function History(t: Transaction): seq<Event> {
    t.past + t.fifo
  }

  /** What holds of every server transaction at any moment, also in the middle of a drain. */
  ghost predicate TxOk(t: Transaction) {
    var own := Expected(t.info);
    match t.stage
    case Initial =>
      && t.past == [] && t.last == None
      && t.fifo != [] && t.fifo[0] == Incoming(t.info.id, t.info.request)
      && forall k :: 1 <= k < |t.fifo| ==> Stray(t.fifo[k])
    case Proceeding =>
      && t.last == None && t.orig == Some(t.info.request)
      && Answers(t.fifo) == own
      && forall k :: 0 <= k < |t.fifo| ==> Stray(t.fifo[k]) || t.fifo[k].Outgoing?
    case Done =>
      && own != [] && t.last == Some(own[0])
      && forall k :: 0 <= k < |t.fifo| ==> Stray(t.fifo[k])
  }

  ghost predicate Fits(info: Info) {
    match info.family
    case IST => IsRequest(info.request, Invite)
    case NIST => IsNonInvite(info.request)
    case _ => false
  }

  lemma {:induction false} AnswersAppend(q: seq<Event>, e: Event)
    ensures Answers(q + [e]) == Answers(q) + AnswerIn(e)
  {
    var r := q + [e];
    if q == [] {
      assert r[0] == e && r[1..] == [];
    } else {
      assert r[0] == q[0] && r[1..] == q[1..] + [e];
      AnswersAppend(q[1..], e);
      assert AnswerIn(q[0]) + (Answers(q[1..]) + AnswerIn(e)) == (AnswerIn(q[0]) + Answers(q[1..])) + AnswerIn(e);
    }
  }

  lemma {:induction false} StraysHoldNoAnswer(q: seq<Event>)
    requires forall k :: 0 <= k < |q| ==> Stray(q[k])
    ensures Answers(q) == []
  {
    if q != [] {
      StraysHoldNoAnswer(q[1..]);
    }
  }

  /** What every later argument needs to know of executing one event. */
  ghost predicate GoodStep(t: Transaction, r: Reaction) {
    && r.tx.info == t.info
    && TxOk(r.tx)
    && ReceivedIds(History(r.tx)) == ReceivedIds(History(t))
    && !r.tx.stage.Initial?
    && (r.wake <==> t.stage.Initial? && Expected(t.info) != [])
    && r.bye == (if t.stage.Initial? && IsRequest(t.info.request, Bye) then Some(t.info.request) else None)
    && (r.sent.None? ==> r.dialog.None? && (r.tx.stage.Done? <==> t.stage.Done?))
    && (r.sent.Some? ==>
          && !t.stage.Done? && r.tx.stage.Done?
          && Expected(t.info) == [r.sent.value]
          && r.dialog == ExpectedDialog(t.info, r.sent.value))
  }

  /** Executing an event keeps the transaction sound, and it sends only its own answer, once. */
  lemma ConsumeIsGood(t: Transaction)
    requires TxOk(t) && Fits(t.info) && t.fifo != []
    ensures GoodStep(t, Consume(t))
  {
    match t.stage
    case Initial => ConsumeInitial(t);
    case Proceeding => ConsumeProceeding(t);
    case Done => ConsumeDone(t);
  }

  lemma TakeKeepsHistory(t: Transaction)
    requires t.fifo != []
    ensures History(TakeEvent(t)) == History(t)
    ensures forall k :: 0 <= k < |t.fifo| - 1 ==> TakeEvent(t).fifo[k] == t.fifo[k + 1]
  {
  }

  /** The own request is answered as expected, with a wake-up exactly then, and nothing else happens. */
  lemma OwnRequestStep(t: Transaction)
    requires t.stage.Initial? && TxOk(t) && Fits(t.info)
    ensures Consume(t).sent.None? && Consume(t).dialog.None?
    ensures Consume(t).wake <==> Expected(t.info) != []
    ensures Consume(t).bye == if IsRequest(t.info.request, Bye) then Some(t.info.request) else None
    ensures Consume(t).tx.fifo ==
            t.fifo[1..] + if Expected(t.info) == [] then [] else [Outgoing(Expected(t.info)[0])]
    ensures Consume(t).tx ==
            t.(fifo := Consume(t).tx.fifo, past := [t.fifo[0]], stage := Proceeding, orig := Some(t.info.request))
  {
  }

  lemma OwnRequestHistory(t: Transaction)
    requires t.stage.Initial? && TxOk(t) && Fits(t.info)
    ensures ReceivedIds(History(Consume(t).tx)) == ReceivedIds(History(t))
  {
    var u, v := TakeEvent(t), Consume(t).tx;
    TakeKeepsHistory(t);
    OwnRequestStep(t);
    if Expected(t.info) != [] {
      assert History(v) == History(u) + [Outgoing(Expected(t.info)[0])];
      assert History(v)[..|History(v)| - 1] == History(u);
    } else {
      assert v.fifo == u.fifo && v.past == u.past;
    }
  }

  lemma ConsumeInitial(t: Transaction)
    requires t.stage.Initial? && TxOk(t) && Fits(t.info)
    ensures GoodStep(t, Consume(t))
  {
    var rest := t.fifo[1..];
    OwnRequestHistory(t);
    OwnRequestStep(t);
    StraysHoldNoAnswer(rest);
    if Expected(t.info) != [] {
      AnswersAppend(rest, Outgoing(Expected(t.info)[0]));
    } else {
      assert Consume(t).tx.fifo == rest;
    }
  }

  /** The queued answer goes out, and an INVITE's opens its dialog. */
  lemma OwnAnswerStep(t: Transaction)
    requires t.stage.Proceeding? && Fits(t.info) && t.orig == Some(t.info.request)
    requires t.fifo != [] && Expected(t.info) != [] && t.fifo[0] == Outgoing(Expected(t.info)[0])
    ensures Consume(t).sent == Some(Expected(t.info)[0])
    ensures Consume(t).dialog == ExpectedDialog(t.info, Expected(t.info)[0]) && Consume(t).bye.None? && !Consume(t).wake
    ensures Consume(t).tx == TakeEvent(t).(stage := Done, last := Some(Expected(t.info)[0]))
  {
  }

  /** A response that matched the transaction changes nothing when it is executed. */
  lemma StrayStep(t: Transaction)
    requires !t.stage.Initial? && Fits(t.info) && t.fifo != [] && Stray(t.fifo[0])
    ensures Consume(t) == Quiet(TakeEvent(t))
  {
  }

  lemma ConsumeProceeding(t: Transaction)
    requires t.stage.Proceeding? && TxOk(t) && Fits(t.info) && t.fifo != []
    ensures GoodStep(t, Consume(t))
  {
    var e, rest := t.fifo[0], t.fifo[1..];
    TakeKeepsHistory(t);
    assert Answers(t.fifo) == AnswerIn(e) + Answers(rest);
    if e.Outgoing? {
      assert Answers(t.fifo)[0] == e.msg;
      assert Answers(rest) == Expected(t.info)[1..] == [];
      NoAnswerMeansStrays(rest);
      OwnAnswerStep(t);
    } else {
      assert Answers(t.fifo) == Answers(rest);
      StrayStep(t);
    }
  }

  lemma ConsumeDone(t: Transaction)
    requires t.stage.Done? && TxOk(t) && Fits(t.info) && t.fifo != []
    ensures GoodStep(t, Consume(t))
  {
    TakeKeepsHistory(t);
    StrayStep(t);
  }

  lemma {:induction false} NoAnswerMeansStrays(q: seq<Event>)
    requires forall k :: 0 <= k < |q| ==> Stray(q[k]) || q[k].Outgoing?
    requires Answers(q) == []
    ensures forall k :: 0 <= k < |q| ==> Stray(q[k])
  {
    if q != [] {
      NoAnswerMeansStrays(q[1..]);
      forall k | 0 <= k < |q| ensures Stray(q[k]) {
        if k > 0 { assert q[k] == q[1..][k - 1]; }
      }
    }
  }

  // ---------- the weight of queued work ----------

  /** A request outweighs the one response and the one wake-up it can give rise to. */
  function Weight(e: Event): nat {
    if e.Incoming? && e.msg.start.RequestLine? then 3 else 1
  }

  function Load(fifo: seq<Event>): nat {
    if fifo == [] then 0 else Weight(fifo[0]) + Load(fifo[1..])
  }

  lemma {:induction false} LoadAppend(q: seq<Event>, e: Event)
    ensures Load(q + [e]) == Load(q) + Weight(e)
  {
    if q == [] {
      assert (q + [e])[1..] == [];
    } else {
      assert (q + [e])[1..] == q[1..] + [e];
      LoadAppend(q[1..], e);
    }
  }

  /** Executing an event, whatever it is, uses up more work than it creates. */
  lemma ConsumeLightens(t: Transaction)
    requires t.fifo != []
    ensures Load(Consume(t).tx.fifo) + (if Consume(t).wake then 1 else 0) < Load(t.fifo)
  {
    var r := Consume(t);
    var q := t.fifo[1..];
    if r.wake {
      var out := r.tx.fifo[|r.tx.fifo| - 1];
      assert r.tx.fifo == q + [out];
      LoadAppend(q, out);
    }
  }
}
