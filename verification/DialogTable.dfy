/** Whole runs: the dialog list mirrors the answered INVITEs, and later ACKs and BYEs find their dialog in it. */
module DialogTable {
  import opened SipMessages
  import opened ResponseBuilder
  import opened Dialogs
  import opened Transactions
  import opened EngineModel
  import opened Drain
  import opened Invariants
  import opened Arrivals
  import opened Answering

  predicate Opens(x: Sent) {
    ExpectedDialog(x.info, x.msg).Some?
  }

  function Opened(x: Sent): Dialog
    requires Opens(x)
  {
    ExpectedDialog(x.info, x.msg).value
  }

  /** An INVITE whose CSeq also says INVITE, and whose dialog could be created. */
  predicate Invites(i: Info) {
    && i.family.IST? && i.luck.dialog
    && i.request.cseq.Some? && i.request.cseq.value.verb == Invite
  }

  /** The answer to an INVITE opens a dialog exactly when the CSeq method the INVITE carries is INVITE too. */
  lemma OpensExactly(s: State, k: nat)
    requires Rest(s) && k < |s.core.sent|
    ensures var x := s.core.sent[k];
            && (Opens(x) <==> Invites(x.info))
            && (Opens(x) ==>
                  Opened(x) == Dialog(x.info.request.callId.value, x.msg.to.value.tag,
                                      x.info.request.from.value.tag, x.info.request))
            && x.msg.to.Some? && x.msg.to.value.tag.Some? && x.info.request.callId.Some? && x.info.request.from.Some?
  {
    var x := s.core.sent[k];
    assert Expected(x.info) == [x.msg];
  }

  /** Indices of the trace entries that opened a dialog, newest first. */
  function Openers(sent: seq<Sent>): seq<nat> {
    if sent == [] then []
    else
      var n := |sent| - 1;
      (if Opens(sent[n]) then [n] else []) + Openers(sent[..n])
  }

  lemma {:induction false} OpenersAreComplete(sent: seq<Sent>)
    ensures forall p :: 0 <= p < |Openers(sent)| ==> Openers(sent)[p] < |sent| && Opens(sent[Openers(sent)[p]])
    ensures forall k :: 0 <= k < |sent| && Opens(sent[k]) ==> k in Openers(sent)
    ensures forall p, q :: 0 <= p < q < |Openers(sent)| ==> Openers(sent)[q] < Openers(sent)[p]
  {
    if sent != [] {
      var n := |sent| - 1;
      var o := Openers(sent[..n]);
      OpenersAreComplete(sent[..n]);
      assert Openers(sent) == (if Opens(sent[n]) then [n] else []) + o;
      assert forall k: nat :: k in o ==> k in Openers(sent);
    }
  }

  lemma {:induction false} OpenersGiveDialogs(sent: seq<Sent>)
    ensures |DialogsFrom(sent)| == |Openers(sent)|
    ensures forall p :: 0 <= p < |Openers(sent)| ==>
                          Openers(sent)[p] < |sent| && Opens(sent[Openers(sent)[p]]) &&
                          DialogsFrom(sent)[p] == Opened(sent[Openers(sent)[p]])
  {
    if sent != [] {
      var n := |sent| - 1;
      var o := Openers(sent[..n]);
      OpenersGiveDialogs(sent[..n]);
      assert Openers(sent) == (if Opens(sent[n]) then [n] else []) + o;
      assert DialogsFrom(sent) == (if Opens(sent[n]) then [Opened(sent[n])] else []) + DialogsFrom(sent[..n]);
    }
  }

  /**
   * Dialog list correspondence: in every reachable state the list is the reverse-chronological sequence of the
   * INVITE server transactions whose 200 has been sent and whose CSeq method is INVITE.
   */
  lemma DialogListCorrespondence(steps: seq<Step>)
    requires CanRun(INITIAL, steps)
    ensures var c := Run(INITIAL, steps).core;
            var o := Openers(c.sent);
            && |c.dialogs| == |o|
            && (forall p, q :: 0 <= p < q < |o| ==> o[q] < o[p])
            && (forall k: nat :: k in o <==> k < |c.sent| && Invites(c.sent[k].info))
            && (forall p :: 0 <= p < |o| ==>
                              o[p] < |c.sent| && c.dialogs[p].invite == c.sent[o[p]].info.request &&
                              RequestKey(c.sent[o[p]].msg) == Some(KeyOf(c.dialogs[p])))
  {
    Reachable(steps);
    var s := Run(INITIAL, steps);
    var o := Openers(s.core.sent);
    OpenersAreComplete(s.core.sent);
    OpenersGiveDialogs(s.core.sent);
    forall k: nat | k < |s.core.sent| ensures Opens(s.core.sent[k]) <==> Invites(s.core.sent[k].info) {
      OpensExactly(s, k);
    }
    forall p | 0 <= p < |o|
      ensures s.core.dialogs[p].invite == s.core.sent[o[p]].info.request &&
              RequestKey(s.core.sent[o[p]].msg) == Some(KeyOf(s.core.dialogs[p]))
    {
      OpensExactly(s, o[p]);
      assert Expected(s.core.sent[o[p]].info) == [s.core.sent[o[p]].msg];
    }
  }

  // ---------- round trip ----------

  /** The request carries the Call-ID, From tag and To tag of the response: section 12.2.2 of RFC 3261. */
  predicate Addresses(m: Message, resp: Message) {
    RequestKey(m).Some? && RequestKey(m) == RequestKey(resp)
  }

  /** Entry k of the trace opened a dialog with the identity of m, and no later one did. */
  ghost predicate NewestFor(sent: seq<Sent>, m: Message, k: nat) {
    && k < |sent| && Opens(sent[k]) && Matches(Opened(sent[k]), m)
    && forall j :: k < j < |sent| && Opens(sent[j]) ==> !Matches(Opened(sent[j]), m)
  }

  /** A search in the dialogs of a trace finds the newest dialog with the identity, if there is any. */
  lemma {:induction false} SearchFindsNewest(sent: seq<Sent>, m: Message) returns (k: nat)
    ensures if FirstMatch(DialogsFrom(sent), m).Some?
            then NewestFor(sent, m, k) && FirstMatch(DialogsFrom(sent), m).value == Opened(sent[k])
            else forall j :: 0 <= j < |sent| && Opens(sent[j]) ==> !Matches(Opened(sent[j]), m)
  {
    k := 0;
    if sent != [] {
      var rest, x := sent[..|sent| - 1], sent[|sent| - 1];
      assert sent == rest + [x];
      DialogsAppend(rest, x);
      if Opens(x) && Matches(Opened(x), m) {
        k := |sent| - 1;
      } else {
        k := SearchFindsNewest(rest, m);
        SearchSkipsOne(rest, x, m);
      }
    }
  }

  lemma SearchSkipsOne(rest: seq<Sent>, x: Sent, m: Message)
    requires Opens(x) ==> !Matches(Opened(x), m)
    ensures FirstMatch(DialogsFrom(rest + [x]), m) == FirstMatch(DialogsFrom(rest), m)
  {
    DialogsAppend(rest, x);
    if Opens(x) {
      assert DialogsFrom(rest + [x])[1..] == DialogsFrom(rest);
    } else {
      assert DialogsFrom(rest + [x]) == DialogsFrom(rest);
    }
  }

  lemma AddressedMatches(s: State, k: nat, m: Message)
    requires Rest(s) && k < |s.core.sent| && Opens(s.core.sent[k]) && Addresses(m, s.core.sent[k].msg)
    ensures Matches(Opened(s.core.sent[k]), m)
  {
    assert Expected(s.core.sent[k].info) == [s.core.sent[k].msg];
  }

  /**
   * Dialog round trip, for every search recorded in a run: a request that carries the identity of an earlier 200
   * to an INVITE was resolved, and to the newest dialog of that identity at the time of the search.
   */
  lemma SearchesResolve(steps: seq<Step>, b: Lookup, k: nat) returns (newest: nat)
    requires CanRun(INITIAL, steps)
    requires b in Run(INITIAL, steps).core.byes || b in Run(INITIAL, steps).ledger.stops
    requires k < b.at && k < |Run(INITIAL, steps).core.sent|
    requires Invites(Run(INITIAL, steps).core.sent[k].info) && Addresses(b.msg, Run(INITIAL, steps).core.sent[k].msg)
    ensures b.at <= |Run(INITIAL, steps).core.sent|
    ensures var sent := Run(INITIAL, steps).core.sent[..b.at];
            k <= newest && NewestFor(sent, b.msg, newest) && b.found == Some(Opened(sent[newest]))
  {
    var s := Run(INITIAL, steps);
    Reachable(steps);
    OpensExactly(s, k);
    AddressedMatches(s, k, b.msg);
    var sent := s.core.sent[..b.at];
    assert sent[k] == s.core.sent[k];
    newest := SearchFindsNewest(sent, b.msg);
  }

  /** An ACK that arrives once the 200 is out stops the retransmissions of the newest dialog it addresses. */
  lemma AckFindsDialog(steps: seq<Step>, a: Arrival, k: nat) returns (newest: nat)
    requires CanRun(INITIAL, steps) && Enabled(Run(INITIAL, steps), Arrive(a))
    requires k < |Run(INITIAL, steps).core.sent| && Invites(Run(INITIAL, steps).core.sent[k].info)
    requires a.parsed.Some? && IsRequest(a.parsed.value, Ack)
    requires Addresses(a.parsed.value, Run(INITIAL, steps).core.sent[k].msg)
    ensures var s := Run(INITIAL, steps);
            && k <= newest && NewestFor(s.core.sent, a.parsed.value, newest)
            && ParseMsg(s, a).1.ledger.stops ==
               s.ledger.stops + [Lookup(a.id, a.parsed.value, |s.core.sent|, Some(Opened(s.core.sent[newest])))]
  {
    var s := Run(INITIAL, steps);
    Reachable(steps);
    OpensExactly(s, k);
    AddressedMatches(s, k, a.parsed.value);
    newest := SearchFindsNewest(s.core.sent, a.parsed.value);
  }

  // ---------- what only grows ----------

  /** The trace and the BYE searches only grow, and later searches see at least the trace of now. */
  ghost predicate Grows(c: Core, d: Core) {
    && c.sent <= d.sent && c.byes <= d.byes
    && forall k :: |c.byes| <= k < |d.byes| ==> |c.sent| <= d.byes[k].at
  }

  lemma GrowsOn(c: Core, d: Core, e: Core)
    requires Grows(c, d) && Grows(d, e)
    ensures Grows(c, e)
  {
  }

  lemma {:induction false} DrainTxGrows(s: State, f: Family, i: nat)
    requires i < |Table(s.core, f)|
    ensures Grows(s.core, DrainTx(s, f, i).core)
    decreases Load(Table(s.core, f)[i].fifo)
  {
    var t := Table(s.core, f)[i];
    if t.fifo != [] {
      ConsumeLightens(t);
      CommitTables(s, f, i, Consume(t));
      CommitGrows(s, f, i, Consume(t));
      DrainTxGrows(ExecOne(s, f, i), f, i);
      GrowsOn(s.core, ExecOne(s, f, i).core, DrainTx(s, f, i).core);
    }
  }

  lemma CommitGrows(s: State, f: Family, i: nat, r: Reaction)
    requires i < |Table(s.core, f)|
    ensures Grows(s.core, Commit(s, f, i, r).core)
  {
  }

  lemma {:induction false} DrainFromGrows(s: State, f: Family, i: nat)
    requires i <= |Table(s.core, f)|
    ensures Grows(s.core, DrainFrom(s, f, i).core)
    decreases |Table(s.core, f)| - i
  {
    if i < |Table(s.core, f)| {
      DrainTxGrows(s, f, i);
      DrainFromGrows(DrainTx(s, f, i), f, i + 1);
      GrowsOn(s.core, DrainTx(s, f, i).core, DrainFrom(s, f, i).core);
    }
  }

  lemma PassGrows(s: State)
    ensures Grows(s.core, Pass(s).core)
  {
    var s1 := Execute(s, ICT);
    var s2 := Execute(s1, IST);
    var s3 := Execute(s2, NICT);
    DrainFromGrows(s, ICT, 0);
    DrainFromGrows(s1, IST, 0);
    DrainFromGrows(s2, NICT, 0);
    DrainFromGrows(s3, NIST, 0);
    GrowsOn(s.core, s1.core, s2.core);
    GrowsOn(s.core, s2.core, s3.core);
    GrowsOn(s.core, s3.core, Pass(s).core);
  }

  lemma {:induction false} RunGrows(s: State, steps: seq<Step>)
    requires CanRun(s, steps)
    ensures Grows(s.core, Run(s, steps).core)
    decreases |steps|
  {
    if steps != [] {
      NextGrows(s, steps[0]);
      RunGrows(Next(s, steps[0]), steps[1..]);
      GrowsOn(s.core, Next(s, steps[0]).core, Run(s, steps).core);
    }
  }

  lemma ArrivalKeepsTrace(s: State, a: Arrival)
    ensures ParseMsg(s, a).1.core.sent == s.core.sent && ParseMsg(s, a).1.core.byes == s.core.byes
  {
  }

  lemma LoopGrows(s: State)
    ensures Grows(s.core, Loop(s).core)
  {
    if s.queue.pending != [] {
      Coalescing(s);
      PassGrows(s);
    }
  }

  lemma NextGrows(s: State, step: Step)
    ensures Grows(s.core, Next(s, step).core)
  {
    match step
    case Arrive(a) => ArrivalKeepsTrace(s, a);
    case Fire(ev) => LoopGrows(s.(queue := s.queue.(active := s.queue.active - {ev})));
  }

  /**
   * A BYE that arrives at any time after a 200 to an INVITE went out, and carries its identity, is looked up by the
   * time the engine is at rest, and its search found the newest dialog of that identity.
   */
  lemma ByeFindsDialog(p: seq<Step>, q: seq<Step>, a: Arrival, k: nat) returns (b: Lookup, newest: nat)
    requires CanRun(INITIAL, p + q) && Quiescent(Run(INITIAL, p + q))
    requires a in ArrivalsOf(q) && Accepts(a) && IsRequest(a.parsed.value, Bye)
    requires k < |Run(INITIAL, p).core.sent| && Invites(Run(INITIAL, p).core.sent[k].info)
    requires Addresses(a.parsed.value, Run(INITIAL, p).core.sent[k].msg)
    ensures var c := Run(INITIAL, p + q).core;
            && b in c.byes && b.id == a.id && b.msg == a.parsed.value && b.at <= |c.sent|
            && k <= newest && NewestFor(c.sent[..b.at], b.msg, newest) && b.found == Some(Opened(c.sent[newest]))
  {
    RunSplits(INITIAL, p, q);
    var s, r := Run(INITIAL, p), Run(INITIAL, p + q);
    b := ByeIsLookedUp(p, q, a);
    RunGrows(s, q);
    assert r.core.sent[k] == s.core.sent[k];
    newest := SearchesResolve(p + q, b, k);
  }

  /** An accepted BYE is looked up before the engine rests, and no earlier than it arrived. */
  lemma ByeIsLookedUp(p: seq<Step>, q: seq<Step>, a: Arrival) returns (b: Lookup)
    requires CanRun(INITIAL, p + q) && Quiescent(Run(INITIAL, p + q)) && CanRun(INITIAL, p)
    requires CanRun(Run(INITIAL, p), q) && Run(INITIAL, p + q) == Run(Run(INITIAL, p), q)
    requires a in ArrivalsOf(q) && Accepts(a) && IsRequest(a.parsed.value, Bye)
    ensures b in Run(INITIAL, p + q).core.byes && b.id == a.id && b.msg == a.parsed.value
    ensures |Run(INITIAL, p).core.sent| <= b.at
  {
    var s, r := Run(INITIAL, p), Run(INITIAL, p + q);
    RunAccepts(s, q, InfoOf(a));
    RunSees(s, q, a);
    RunGrows(s, q);
    assert InfoOf(a) in r.ledger.accepted;
    assert LookedUp(r.core.byes, InfoOf(a)) by {
      Reachable(p + q);
      NobodyWaits(r, InfoOf(a));
    }
    assert forall i :: 0 <= i < |s.core.byes| ==> s.core.byes[i].id in s.ledger.seen by {
      Reachable(p);
    }
    b := PickLookup(s, r.core, InfoOf(a));
  }

  lemma PickLookup(s: State, d: Core, i: Info) returns (b: Lookup)
    requires Grows(s.core, d) && LookedUp(d.byes, i) && i.id !in s.ledger.seen
    requires forall k :: 0 <= k < |s.core.byes| ==> s.core.byes[k].id in s.ledger.seen
    ensures b in d.byes && b.id == i.id && b.msg == i.request && |s.core.sent| <= b.at
  {
    assert forall k :: 0 <= k < |s.core.byes| ==> d.byes[k] == s.core.byes[k];
    var j :| 0 <= j < |d.byes| && d.byes[j].id == i.id && d.byes[j].msg == i.request;
    b := d.byes[j];
  }

  lemma NobodyWaits(s: State, i: Info)
    requires Rest(s) && Quiescent(s)
    ensures !Waiting(s.core, i)
  {
    forall j | 0 <= j < |Table(s.core, NIST)| ensures !Table(s.core, NIST)[j].stage.Initial? {
      assert Table(s.core, NIST)[j].fifo == [] && TxOk(Table(s.core, NIST)[j]);
    }
  }

  // ---------- uniqueness ----------

  /** No other accepted INVITE that opens a dialog can end up with the To tag that was generated for x. */
  ghost predicate FreshTag(l: Ledger, x: Info) {
    forall i :: i in l.accepted && Invites(i) && i.id != x.id && i.request.to.Some? ==>
                  match i.request.to.value.tag
                  case None => i.luck.build.random != x.luck.build.random
                  case Some(tag) => tag != TagText(x.luck.build.random)
  }

  /** When the INVITE had no To tag and its generated tag is fresh, exactly one dialog answers to its identity. */
  lemma DialogIsUnique(steps: seq<Step>, k: nat, m: Message) returns (p: nat)
    requires CanRun(INITIAL, steps) && k < |Run(INITIAL, steps).core.sent|
    requires Invites(Run(INITIAL, steps).core.sent[k].info) && Addresses(m, Run(INITIAL, steps).core.sent[k].msg)
    requires var to := Run(INITIAL, steps).core.sent[k].info.request.to; to.Some? && to.value.tag.None?
    requires FreshTag(Run(INITIAL, steps).ledger, Run(INITIAL, steps).core.sent[k].info)
    ensures var c := Run(INITIAL, steps).core;
            && p < |c.dialogs| && Matches(c.dialogs[p], m) && c.dialogs[p].invite == c.sent[k].info.request
            && forall q :: 0 <= q < |c.dialogs| && q != p ==> !Matches(c.dialogs[q], m)
  {
    var s := Run(INITIAL, steps);
    Reachable(steps);
    OpensExactly(s, k);
    AddressedMatches(s, k, m);
    var o := Openers(s.core.sent);
    OpenersAreComplete(s.core.sent);
    OpenersGiveDialogs(s.core.sent);
    p :| 0 <= p < |o| && o[p] == k;
    forall q | 0 <= q < |s.core.dialogs| && q != p ensures !Matches(s.core.dialogs[q], m) {
      OnlyOneMatches(s, k, o[q], m);
    }
  }

  lemma OnlyOneMatches(s: State, k: nat, j: nat, m: Message)
    requires Rest(s) && k < |s.core.sent| && j < |s.core.sent| && j != k
    requires Opens(s.core.sent[j]) && Addresses(m, s.core.sent[k].msg)
    requires s.core.sent[k].info.request.to.Some? && s.core.sent[k].info.request.to.value.tag.None?
    requires FreshTag(s.ledger, s.core.sent[k].info)
    ensures !Matches(Opened(s.core.sent[j]), m)
  {
    var x, y := s.core.sent[k], s.core.sent[j];
    OpensExactly(s, j);
    assert Expected(x.info) == [x.msg] && Expected(y.info) == [y.msg];
    assert y.info in s.ledger.accepted && x.info.id != y.info.id;
    var r := x.info.luck.build.random;
    assert m.to.value.tag == Some(TagText(r));
    if y.info.request.to.value.tag.None? && TagText(y.info.luck.build.random) == TagText(r) {
      TagTextInjective(y.info.luck.build.random, r);
    }
  }

  /**
   * The two together: when INVITE k had no To tag and its generated tag is fresh, the BYE that carries its identity
   * found the dialog of INVITE k itself, and no other dialog in the list answers to the BYE.
   */
  lemma ByeFindsItsInvite(p: seq<Step>, q: seq<Step>, a: Arrival, k: nat) returns (b: Lookup, i: nat)
    requires CanRun(INITIAL, p + q) && Quiescent(Run(INITIAL, p + q))
    requires a in ArrivalsOf(q) && Accepts(a) && IsRequest(a.parsed.value, Bye)
    requires k < |Run(INITIAL, p).core.sent| && Invites(Run(INITIAL, p).core.sent[k].info)
    requires Addresses(a.parsed.value, Run(INITIAL, p).core.sent[k].msg)
    requires var to := Run(INITIAL, p).core.sent[k].info.request.to; to.Some? && to.value.tag.None?
    requires FreshTag(Run(INITIAL, p + q).ledger, Run(INITIAL, p).core.sent[k].info)
    ensures var c := Run(INITIAL, p + q).core;
            && b in c.byes && b.id == a.id && b.msg == a.parsed.value
            && i < |c.dialogs| && b.found == Some(c.dialogs[i])
            && c.dialogs[i].invite == Run(INITIAL, p).core.sent[k].info.request
            && forall j :: 0 <= j < |c.dialogs| && j != i ==> !Matches(c.dialogs[j], b.msg)
  {
    RunSplits(INITIAL, p, q);
    RunGrows(Run(INITIAL, p), q);
    var s := Run(INITIAL, p + q);
    assert s.core.sent[k] == Run(INITIAL, p).core.sent[k];
    var newest;
    b, newest := ByeFindsDialog(p, q, a, k);
    i := DialogIsUnique(p + q, k, b.msg);
    FoundIsMatch(p + q, b, newest, i);
  }

  /** A dialog found by an earlier search is still in the list, so it is the only one there that matches. */
  lemma FoundIsMatch(steps: seq<Step>, b: Lookup, newest: nat, i: nat)
    requires CanRun(INITIAL, steps) && b.at <= |Run(INITIAL, steps).core.sent|
    requires var c := Run(INITIAL, steps).core;
             NewestFor(c.sent[..b.at], b.msg, newest) && b.found == Some(Opened(c.sent[newest])) && i < |c.dialogs| &&
             forall j :: 0 <= j < |c.dialogs| && j != i ==> !Matches(c.dialogs[j], b.msg)
    ensures b.found == Some(Run(INITIAL, steps).core.dialogs[i])
  {
    Reachable(steps);
    var c := Run(INITIAL, steps).core;
    var o := Openers(c.sent);
    OpenersAreComplete(c.sent);
    OpenersGiveDialogs(c.sent);
    assert c.sent[..b.at][newest] == c.sent[newest];
    var p :| 0 <= p < |o| && o[p] == newest;
    assert Matches(c.dialogs[p], b.msg);
  }
}
