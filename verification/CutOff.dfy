/** Whole runs: exactly-once answering, and exactly which arrivals can cut an answer off. */
module CutOff {
  import opened SipMessages
  import opened ResponseBuilder
  import opened Transactions
  import opened EngineModel
  import opened Drain
  import opened Invariants
  import opened Arrivals
  import opened Answering

  // ---------- the condition, on the sequence of arrivals and loop callbacks alone ----------

  /** A response arrives, and putting it on the transaction it matches, if any, fails. */
  predicate HandOverFails(x: Step) {
    && x.Arrive? && x.a.parsed.Some? && x.a.parsed.value.start.StatusLine?
    && !(x.a.luck.socket && x.a.luck.add)
  }

  /** Index of the first INVITE in the list that the response corresponds to, or |l|. */
  function FirstListed(l: seq<Info>, m: Message): (i: nat)
    ensures i <= |l|
    ensures i < |l| ==> Corresponds(l[i].request, m)
    ensures forall j :: 0 <= j < i ==> !Corresponds(l[j].request, m)
  {
    if l == [] then 0
    else if Corresponds(l[0].request, m) then 0
    else
      var i := FirstListed(l[1..], m);
      assert forall j :: 1 <= j < |l| ==> l[j] == l[1..][j - 1];
      i + 1
  }

  /** The INVITEs accepted and not freed again, oldest first. */
  function Listed(steps: seq<Step>): seq<Info> {
    if steps == [] then []
    else
      var l, x := Listed(steps[..|steps| - 1]), steps[|steps| - 1];
      if x.Arrive? && Accepts(x.a) && IsRequest(x.a.parsed.value, Invite) then l + [InfoOf(x.a)]
      else if HandOverFails(x) && FirstListed(l, x.a.parsed.value) < |l|
      then RemoveAt(l, FirstListed(l, x.a.parsed.value))
      else l
  }

  /** The other requests accepted, oldest first. */
  function Others(steps: seq<Step>): seq<Info> {
    if steps == [] then []
    else
      var l, x := Others(steps[..|steps| - 1]), steps[|steps| - 1];
      if x.Arrive? && Accepts(x.a) && !IsRequest(x.a.parsed.value, Invite) then l + [InfoOf(x.a)] else l
  }

  /** No loop callback has come after the arrival named `id`. */
  ghost predicate Unserved(steps: seq<Step>, id: nat) {
    forall j, m :: 0 <= j < m < |steps| && steps[j].Arrive? && steps[j].a.id == id ==> !steps[m].Fire?
  }

  /**
   * Step k cuts off the INVITE named `id`: a response whose hand-over fails corresponds to it before any other, it
   * could be answered, and the loop has not run since it arrived.
   */
  ghost predicate CutsOff(steps: seq<Step>, k: nat, id: nat) {
    && k < |steps| && HandOverFails(steps[k])
    && var l := Listed(steps[..k]);
       var i := FirstListed(l, steps[k].a.parsed.value);
       i < |l| && l[i].id == id && Expected(l[i]) != [] && Unserved(steps[..k], id)
  }

  ghost predicate CutIn(steps: seq<Step>, id: nat) {
    exists k: nat :: CutsOff(steps, k, id)
  }

  // ---------- the tables follow the steps ----------

  ghost predicate SameRequests(q: seq<Transaction>, l: seq<Info>) {
    |q| == |l| && forall i :: 0 <= i < |q| ==> q[i].info == l[i]
  }

  /** Who still owes an answer: exactly those for whom the loop has not run, and they have not been started. */
  ghost predicate Debts(q: seq<Transaction>, steps: seq<Step>) {
    forall i :: 0 <= i < |q| ==>
                  && (Owes(q[i]) <==> Expected(q[i].info) != [] && Unserved(steps, q[i].info.id))
                  && (Owes(q[i]) ==> q[i].stage.Initial?)
  }

  ghost predicate Tracks(c: Core, steps: seq<Step>) {
    && SameRequests(c.ist, Listed(steps)) && Debts(c.ist, steps)
    && SameRequests(c.nist, Others(steps)) && Debts(c.nist, steps)
  }

  lemma SameFirst(q: seq<Transaction>, l: seq<Info>, m: Message)
    requires SameRequests(q, l)
    ensures FindTransaction(q, m) == FirstListed(l, m)
  {
    var i, j := FindTransaction(q, m), FirstListed(l, m);
    assert i < |q| ==> Corresponds(l[i].request, m);
    assert j < |q| ==> ResponseMatches(q[j], m);
  }

  lemma UnservedAppend(p: seq<Step>, x: Step, id: nat)
    ensures Unserved(p + [x], id) <==>
            Unserved(p, id) && (x.Fire? ==> forall j :: 0 <= j < |p| && p[j].Arrive? ==> p[j].a.id != id)
  {
    var all := p + [x];
    if Unserved(all, id) {
      forall j, m | 0 <= j < m < |p| && p[j].Arrive? && p[j].a.id == id ensures !p[m].Fire? {
        assert all[j] == p[j] && all[m] == p[m];
      }
      forall j | x.Fire? && 0 <= j < |p| && p[j].Arrive? ensures p[j].a.id != id {
        assert all[j] == p[j] && all[|p|] == x;
      }
    }
  }

  lemma ListedAppend(p: seq<Step>, x: Step)
    ensures Listed(p + [x]) ==
            if x.Arrive? && Accepts(x.a) && IsRequest(x.a.parsed.value, Invite) then Listed(p) + [InfoOf(x.a)]
            else if HandOverFails(x) && FirstListed(Listed(p), x.a.parsed.value) < |Listed(p)|
            then RemoveAt(Listed(p), FirstListed(Listed(p), x.a.parsed.value))
            else Listed(p)
    ensures Others(p + [x]) ==
            if x.Arrive? && Accepts(x.a) && !IsRequest(x.a.parsed.value, Invite) then Others(p) + [InfoOf(x.a)]
            else Others(p)
  {
    assert (p + [x])[..|p + [x]| - 1] == p;
  }

  function Accepted(a: Arrival): Transaction
    requires Accepts(a)
  {
    NewTransaction(InfoOf(a)).(fifo := [Incoming(a.id, a.parsed.value)])
  }

  /** What an arrival does to the INVITE table. */
  lemma InvitesAfterArrival(s: State, a: Arrival)
    requires a.luck.wake == WakeOk
    ensures var q, r := s.core.ist, ParseMsg(s, a).1.core.ist;
            if Accepts(a) && IsRequest(a.parsed.value, Invite) then
              r == q + [Accepted(a)]
            else if HandOverFails(Arrive(a)) && FindTransaction(q, a.parsed.value) < |q| then
              r == RemoveAt(q, FindTransaction(q, a.parsed.value))
            else
              |r| == |q| && forall i :: 0 <= i < |q| ==> r[i].info == q[i].info && r[i].stage == q[i].stage
  {
  }

  /** What an arrival does to the table of the other requests. */
  lemma OthersAfterArrival(s: State, a: Arrival)
    requires a.luck.wake == WakeOk
    ensures ParseMsg(s, a).1.core.nist ==
            s.core.nist + if Accepts(a) && !IsRequest(a.parsed.value, Invite) then [Accepted(a)] else []
  {
  }

  lemma NeverArrived(p: seq<Step>, id: nat)
    requires forall j :: 0 <= j < |p| && p[j].Arrive? ==> p[j].a.id != id
    ensures Unserved(p, id)
  {
  }

  /** An arrival neither creates nor settles a debt of a transaction that is there before and after. */
  lemma DebtStays(q: seq<Transaction>, p: seq<Step>, a: Arrival, i: nat, t: Transaction)
    requires Debts(q, p) && i < |q| && t.info == q[i].info && t.stage == q[i].stage
    ensures Owes(t) <==> Expected(t.info) != [] && Unserved(p + [Arrive(a)], t.info.id)
    ensures Owes(t) ==> t.stage.Initial?
  {
    UnservedAppend(p, Arrive(a), t.info.id);
  }

  lemma NewDebt(p: seq<Step>, a: Arrival)
    requires Accepts(a) && forall j :: 0 <= j < |p| && p[j].Arrive? ==> p[j].a.id != a.id
    ensures Owes(Accepted(a)) <==> Expected(InfoOf(a)) != [] && Unserved(p + [Arrive(a)], a.id)
  {
    NeverArrived(p, a.id);
    UnservedAppend(p, Arrive(a), a.id);
  }

  lemma InviteDebts(s: State, p: seq<Step>, a: Arrival)
    requires a.luck.wake == WakeOk && Debts(s.core.ist, p)
    requires forall j :: 0 <= j < |p| && p[j].Arrive? ==> p[j].a.id != a.id
    ensures Debts(ParseMsg(s, a).1.core.ist, p + [Arrive(a)])
  {
    var q, r := s.core.ist, ParseMsg(s, a).1.core.ist;
    InvitesAfterArrival(s, a);
    forall i | 0 <= i < |r|
      ensures Owes(r[i]) <==> Expected(r[i].info) != [] && Unserved(p + [Arrive(a)], r[i].info.id)
      ensures Owes(r[i]) ==> r[i].stage.Initial?
    {
      if i == |q| {
        NewDebt(p, a);
      } else if HandOverFails(Arrive(a)) && FindTransaction(q, a.parsed.value) < |q| {
        DebtStays(q, p, a, Moved(i, FindTransaction(q, a.parsed.value)), r[i]);
      } else {
        DebtStays(q, p, a, i, r[i]);
      }
    }
  }

  lemma OtherDebts(s: State, p: seq<Step>, a: Arrival)
    requires a.luck.wake == WakeOk && Debts(s.core.nist, p)
    requires forall j :: 0 <= j < |p| && p[j].Arrive? ==> p[j].a.id != a.id
    ensures Debts(ParseMsg(s, a).1.core.nist, p + [Arrive(a)])
  {
    var q, r := s.core.nist, ParseMsg(s, a).1.core.nist;
    OthersAfterArrival(s, a);
    forall i | 0 <= i < |r|
      ensures Owes(r[i]) <==> Expected(r[i].info) != [] && Unserved(p + [Arrive(a)], r[i].info.id)
      ensures Owes(r[i]) ==> r[i].stage.Initial?
    {
      if i == |q| {
        NewDebt(p, a);
      } else {
        DebtStays(q, p, a, i, r[i]);
      }
    }
  }

  lemma InvitesFollow(s: State, p: seq<Step>, a: Arrival)
    requires a.luck.wake == WakeOk && SameRequests(s.core.ist, Listed(p))
    ensures SameRequests(ParseMsg(s, a).1.core.ist, Listed(p + [Arrive(a)]))
  {
    var q, l := s.core.ist, Listed(p);
    ListedAppend(p, Arrive(a));
    InvitesAfterArrival(s, a);
    if Accepts(a) && IsRequest(a.parsed.value, Invite) {
      assert Listed(p + [Arrive(a)]) == l + [InfoOf(a)];
    } else if HandOverFails(Arrive(a)) {
      SameFirst(q, l, a.parsed.value);
      if FirstListed(l, a.parsed.value) < |l| {
        SameRemoved(q, l, FirstListed(l, a.parsed.value));
      }
    }
  }

  lemma OthersFollow(s: State, p: seq<Step>, a: Arrival)
    requires a.luck.wake == WakeOk && SameRequests(s.core.nist, Others(p))
    ensures SameRequests(ParseMsg(s, a).1.core.nist, Others(p + [Arrive(a)]))
  {
    ListedAppend(p, Arrive(a));
    OthersAfterArrival(s, a);
  }

  lemma SameRemoved(q: seq<Transaction>, l: seq<Info>, i: nat)
    requires SameRequests(q, l) && i < |l|
    ensures SameRequests(RemoveAt(q, i), RemoveAt(l, i))
  {
  }

  lemma ArrivalTracks(s: State, p: seq<Step>, a: Arrival)
    requires a.luck.wake == WakeOk && Tracks(s.core, p)
    requires forall j :: 0 <= j < |p| && p[j].Arrive? ==> p[j].a.id != a.id
    ensures Tracks(ParseMsg(s, a).1.core, p + [Arrive(a)])
  {
    InvitesFollow(s, p, a);
    InviteDebts(s, p, a);
    OthersFollow(s, p, a);
    OtherDebts(s, p, a);
  }

  // ---------- a loop callback keeps the tables and settles every debt ----------

  ghost predicate SameInfosIn(q: seq<Transaction>, r: seq<Transaction>) {
    |r| == |q| && forall j :: 0 <= j < |q| ==> r[j].info == q[j].info
  }

  ghost predicate KeepsRequests(c: Core, d: Core) {
    forall g :: SameInfosIn(Table(c, g), Table(d, g))
  }

  lemma KeepsOn(c: Core, d: Core, e: Core)
    requires KeepsRequests(c, d) && KeepsRequests(d, e)
    ensures KeepsRequests(c, e)
  {
  }

  lemma ExecOneKeepsRequests(s: State, f: Family, i: nat)
    requires HasWork(s, f, i)
    ensures KeepsRequests(s.core, ExecOne(s, f, i).core)
    ensures Load(Table(ExecOne(s, f, i).core, f)[i].fifo) < Load(Table(s.core, f)[i].fifo)
  {
    var r := Consume(Table(s.core, f)[i]);
    ConsumeLightens(Table(s.core, f)[i]);
    CommitKeepsInfos(s, f, i, r);
    assert Table(Commit(s, f, i, r).core, f)[i] == r.tx by {
      CommitTables(s, f, i, r);
    }
  }

  lemma {:induction false} DrainTxKeepsRequests(s: State, f: Family, i: nat)
    requires i < |Table(s.core, f)|
    ensures KeepsRequests(s.core, DrainTx(s, f, i).core)
    decreases Load(Table(s.core, f)[i].fifo)
  {
    if HasWork(s, f, i) {
      ExecOneKeepsRequests(s, f, i);
      DrainTxKeepsRequests(ExecOne(s, f, i), f, i);
      KeepsOn(s.core, ExecOne(s, f, i).core, DrainTx(s, f, i).core);
    }
  }

  lemma {:induction false} DrainFromKeepsRequests(s: State, f: Family, i: nat)
    requires i <= |Table(s.core, f)|
    ensures KeepsRequests(s.core, DrainFrom(s, f, i).core)
    decreases |Table(s.core, f)| - i
  {
    if i < |Table(s.core, f)| {
      DrainTxKeepsRequests(s, f, i);
      DrainFromKeepsRequests(DrainTx(s, f, i), f, i + 1);
      KeepsOn(s.core, DrainTx(s, f, i).core, DrainFrom(s, f, i).core);
    }
  }

  lemma LoopKeepsRequests(s: State)
    ensures KeepsRequests(s.core, Loop(s).core)
  {
    if s.queue.pending != [] {
      Coalescing(s);
      var s1 := Execute(s, ICT);
      var s2 := Execute(s1, IST);
      var s3 := Execute(s2, NICT);
      DrainFromKeepsRequests(s, ICT, 0);
      DrainFromKeepsRequests(s1, IST, 0);
      DrainFromKeepsRequests(s2, NICT, 0);
      DrainFromKeepsRequests(s3, NIST, 0);
      KeepsOn(s.core, s1.core, s2.core);
      KeepsOn(s.core, s2.core, s3.core);
      KeepsOn(s.core, s3.core, Pass(s).core);
    }
  }

  lemma NothingOwed(s: State, f: Family)
    requires Rest(s) && Quiescent(s)
    ensures forall i :: 0 <= i < |Table(s.core, f)| ==> !Owes(Table(s.core, f)[i])
  {
    forall i | 0 <= i < |Table(s.core, f)| ensures !Owes(Table(s.core, f)[i]) {
      assert Table(s.core, f)[i].fifo == [] && TxOk(Table(s.core, f)[i]);
    }
  }

  lemma {:induction false} ListedArrived(steps: seq<Step>, i: nat) returns (j: nat)
    requires i < |Listed(steps)|
    ensures j < |steps| && steps[j].Arrive? && Accepts(steps[j].a) && InfoOf(steps[j].a) == Listed(steps)[i]
  {
    var p, x := steps[..|steps| - 1], steps[|steps| - 1];
    var l := Listed(p);
    if x.Arrive? && Accepts(x.a) && IsRequest(x.a.parsed.value, Invite) {
      if i == |l| {
        j := |p|;
      } else {
        j := ListedArrived(p, i);
      }
    } else if HandOverFails(x) && FirstListed(l, x.a.parsed.value) < |l| {
      j := ListedArrived(p, Moved(i, FirstListed(l, x.a.parsed.value)));
    } else {
      j := ListedArrived(p, i);
    }
  }

  lemma {:induction false} OtherArrived(steps: seq<Step>, i: nat) returns (j: nat)
    requires i < |Others(steps)|
    ensures j < |steps| && steps[j].Arrive? && Accepts(steps[j].a) && InfoOf(steps[j].a) == Others(steps)[i]
  {
    var p, x := steps[..|steps| - 1], steps[|steps| - 1];
    if i < |Others(p)| {
      j := OtherArrived(p, i);
    } else {
      j := |p|;
    }
  }

  lemma FireTracks(s: State, p: seq<Step>, ev: nat)
    requires Rest(s) && ev in s.queue.active && Tracks(s.core, p)
    ensures Tracks(Dispatch(s, ev).core, p + [Fire(ev)])
  {
    var c := Dispatch(s, ev).core;
    ListedAppend(p, Fire(ev));
    SameTables(s, ev);
    forall i | 0 <= i < |c.ist| ensures !Unserved(p + [Fire(ev)], c.ist[i].info.id) {
      var j := ListedArrived(p, i);
      UnservedAppend(p, Fire(ev), c.ist[i].info.id);
    }
    forall i | 0 <= i < |c.nist| ensures !Unserved(p + [Fire(ev)], c.nist[i].info.id) {
      var j := OtherArrived(p, i);
      UnservedAppend(p, Fire(ev), c.nist[i].info.id);
    }
  }

  /** After a loop callback the tables hold the same requests, and none owes its answer. */
  lemma SameTables(s: State, ev: nat)
    requires Rest(s) && ev in s.queue.active
    ensures SameServers(s.core, Dispatch(s, ev).core) && ServersOweNothing(Dispatch(s, ev).core)
  {
    var s0 := s.(queue := s.queue.(active := s.queue.active - {ev}));
    LoopKeepsRequests(s0);
    KeptServers(s.core, Dispatch(s, ev).core);
    DispatchKeeps(s, ev);
    LoopDrains(s0);
    RestOwesNothing(Dispatch(s, ev));
  }

  ghost predicate SameServers(c: Core, d: Core) {
    && |d.ist| == |c.ist| && (forall i :: 0 <= i < |c.ist| ==> d.ist[i].info == c.ist[i].info)
    && |d.nist| == |c.nist| && (forall i :: 0 <= i < |c.nist| ==> d.nist[i].info == c.nist[i].info)
  }

  ghost predicate ServersOweNothing(c: Core) {
    && (forall i :: 0 <= i < |c.ist| ==> !Owes(c.ist[i]))
    && (forall i :: 0 <= i < |c.nist| ==> !Owes(c.nist[i]))
  }

  lemma KeptServers(c: Core, d: Core)
    requires KeepsRequests(c, d)
    ensures SameServers(c, d)
  {
    assert c.ist == Table(c, IST) && c.nist == Table(c, NIST) && d.ist == Table(d, IST) && d.nist == Table(d, NIST);
  }

  lemma RestOwesNothing(s: State)
    requires Rest(s) && Quiescent(s)
    ensures ServersOweNothing(s.core)
  {
    NothingOwed(s, IST);
    NothingOwed(s, NIST);
    assert s.core.ist == Table(s.core, IST) && s.core.nist == Table(s.core, NIST);
  }

  lemma {:induction false} RunTracks(steps: seq<Step>)
    requires CanRun(INITIAL, steps)
    ensures Tracks(Run(INITIAL, steps).core, steps)
    decreases |steps|
  {
    if steps != [] {
      var p, x := steps[..|steps| - 1], steps[|steps| - 1];
      var s := Run(INITIAL, p);
      LastStep(steps);
      RunTracks(p);
      match x
      case Arrive(a) =>
        forall j | 0 <= j < |p| && p[j].Arrive? ensures p[j].a.id != a.id {
          ArrivalInSteps(p, p[j].a);
          RunHasSeen(INITIAL, p, p[j].a);
        }
        ArrivalTracks(s, p, a);
      case Fire(ev) =>
        Reachable(p);
        FireTracks(s, p, ev);
    }
  }

  lemma LastStep(steps: seq<Step>)
    requires steps != [] && CanRun(INITIAL, steps)
    ensures var p, x := steps[..|steps| - 1], steps[|steps| - 1];
            && p + [x] == steps && CanRun(INITIAL, p)
            && Enabled(Run(INITIAL, p), x) && Run(INITIAL, steps) == Next(Run(INITIAL, p), x)
  {
    var p, x := steps[..|steps| - 1], steps[|steps| - 1];
    assert p + [x] == steps;
    RunSplits(INITIAL, p, [x]);
    assert [x][1..] == [];
  }

  // ---------- which answers are cut off ----------

  lemma CutOne(s: State, a: Arrival)
    requires a.luck.wake == WakeOk
    ensures ParseMsg(s, a).1.ledger.cut == s.ledger.cut +
            if HandOverFails(Arrive(a))
               && var i := FindTransaction(s.core.ist, a.parsed.value); i < |s.core.ist| && Owes(s.core.ist[i])
            then {s.core.ist[FindTransaction(s.core.ist, a.parsed.value)].info.id}
            else {}
  {
  }

  lemma CutInAppend(p: seq<Step>, x: Step, id: nat)
    ensures CutIn(p + [x], id) <==> CutIn(p, id) || CutsOff(p + [x], |p|, id)
  {
    var all := p + [x];
    forall k: nat | k < |p| ensures CutsOff(all, k, id) <==> CutsOff(p, k, id) {
      assert all[..k] == p[..k] && all[k] == p[k];
    }
  }

  /** The last step cuts off exactly the ids by which it changes the account. */
  lemma LastCut(s: State, p: seq<Step>, a: Arrival, id: nat)
    requires a.luck.wake == WakeOk && Tracks(s.core, p)
    ensures id in ParseMsg(s, a).1.ledger.cut <==> id in s.ledger.cut || CutsOff(p + [Arrive(a)], |p|, id)
  {
    CutOne(s, a);
    var all := p + [Arrive(a)];
    assert all[..|p|] == p && all[|p|] == Arrive(a);
    if a.parsed.Some? {
      SameFirst(s.core.ist, Listed(p), a.parsed.value);
    }
  }

  /**
   * After a run, the answers cut off are exactly those of INVITEs that some response with a failing hand-over
   * corresponded to first, before the loop had run for them.
   */
  lemma {:induction false} CutExactly(steps: seq<Step>, id: nat)
    requires CanRun(INITIAL, steps)
    ensures id in Run(INITIAL, steps).ledger.cut <==> CutIn(steps, id)
    decreases |steps|
  {
    if steps != [] {
      var p, x := steps[..|steps| - 1], steps[|steps| - 1];
      LastStep(steps);
      CutExactly(p, id);
      CutInAppend(p, x, id);
      assert (p + [x])[|p|] == x;
      match x
      case Arrive(a) =>
        RunTracks(p);
        LastCut(Run(INITIAL, p), p, a, id);
      case Fire(ev) =>
    }
  }

  /**
   * Exactly-once answering. After any run that leaves no wake-up pending, an arrival's transaction has sent exactly
   * one 200 when the arrival was accepted, is an INVITE, REGISTER or BYE, could be answered, and was not cut off by
   * a response whose hand-over failed before the loop ran; it has sent nothing otherwise.
   */
  lemma ExactlyOnce(steps: seq<Step>, a: Arrival)
    requires CanRun(INITIAL, steps) && Quiescent(Run(INITIAL, steps)) && Arrive(a) in steps
    ensures SentBy(Run(INITIAL, steps).core.sent, a.id) ==
            if && Accepts(a) && Answerable(a.parsed.value) && Buildable(a.parsed.value, a.luck.build)
               && !CutIn(steps, a.id)
            then [ResponseTo(200, a.parsed.value, a.luck.build.random)]
            else []
  {
    var s := Run(INITIAL, steps);
    Reachable(steps);
    ArrivalInSteps(steps, a);
    CutExactly(steps, a.id);
    if Accepts(a) {
      RunAccepts(INITIAL, steps, InfoOf(a));
      SettledAtRest(s, InfoOf(a));
      SentAtMostOnce(s, InfoOf(a));
    } else {
      NeverAnswered(steps, a);
      SentByNone(s.core.sent, a.id);
    }
  }

  /** Only a request that was accepted and should have been answered can be cut off. */
  lemma CutWasOwed(steps: seq<Step>, id: nat) returns (a: Arrival)
    requires CutIn(steps, id)
    ensures Arrive(a) in steps && a.id == id && Accepts(a) && Expected(InfoOf(a)) != []
  {
    var k: nat :| CutsOff(steps, k, id);
    var i := FirstListed(Listed(steps[..k]), steps[k].a.parsed.value);
    var j := ListedArrived(steps[..k], i);
    a := steps[j].a;
    assert steps[j] in steps;
  }

  /** No received response corresponds to a received INVITE. */
  ghost predicate NoneCorrespond(steps: seq<Step>) {
    forall j, k | 0 <= j < |steps| && 0 <= k < |steps| && steps[j].Arrive? && steps[k].Arrive? ::
      steps[j].a.parsed.Some? && IsRequest(steps[j].a.parsed.value, Invite) &&
      steps[k].a.parsed.Some? && steps[k].a.parsed.value.start.StatusLine? ==>
        !Corresponds(steps[j].a.parsed.value, steps[k].a.parsed.value)
  }

  lemma ListedWasReceived(steps: seq<Step>, k: nat, i: nat)
    requires k <= |steps| && i < |Listed(steps[..k])|
    ensures exists j :: 0 <= j < |steps| && steps[j].Arrive? && steps[j].a.parsed.Some? &&
                        steps[j].a.parsed.value == Listed(steps[..k])[i].request
  {
    var j := ListedArrived(steps[..k], i);
    assert steps[..k][j] == steps[j];
  }

  lemma {:induction false} ListedAreInvites(steps: seq<Step>)
    ensures forall i :: 0 <= i < |Listed(steps)| ==> IsRequest(Listed(steps)[i].request, Invite)
  {
    if steps != [] {
      ListedAreInvites(steps[..|steps| - 1]);
    }
  }

  /** When no response corresponds to an INVITE, or no hand-over of one fails, nothing is cut off. */
  lemma NothingCut(steps: seq<Step>, id: nat)
    requires NoneCorrespond(steps) || forall k :: 0 <= k < |steps| ==> !HandOverFails(steps[k])
    ensures !CutIn(steps, id)
  {
    forall k: nat ensures !CutsOff(steps, k, id) {
      if k < |steps| && HandOverFails(steps[k]) {
        var l := Listed(steps[..k]);
        var i := FirstListed(l, steps[k].a.parsed.value);
        ListedAreInvites(steps[..k]);
        if i < |l| {
          ListedWasReceived(steps, k, i);
        }
      }
    }
  }

  /** Without responses that correspond to an INVITE, exactly-once answering holds without exception. */
  lemma ExactlyOnceWithoutMatches(steps: seq<Step>, a: Arrival)
    requires CanRun(INITIAL, steps) && Quiescent(Run(INITIAL, steps)) && Arrive(a) in steps && NoneCorrespond(steps)
    ensures SentBy(Run(INITIAL, steps).core.sent, a.id) == if Accepts(a) then Expected(InfoOf(a)) else []
  {
    ExactlyOnce(steps, a);
    NothingCut(steps, a.id);
  }
}
