/** Whole runs: what the order of arrivals, and the points at which the loop runs, can and cannot change. */
module OrderIndependence {
  import opened SipMessages
  import opened ResponseBuilder
  import opened Dialogs
  import opened Transactions
  import opened EngineModel
  import opened Drain
  import opened Invariants
  import opened Arrivals
  import opened Answering
  import opened CutOff

  // ---------- forgetting the random draws ----------

  function BlankLuck(l: Luck): Luck {
    l.(build := l.build.(random := 0))
  }

  function BlankInfo(i: Info): Info {
    i.(luck := BlankLuck(i.luck))
  }

  function BlankArrival(a: Arrival): Arrival {
    a.(luck := BlankLuck(a.luck))
  }

  /** A sent message without the tag that was generated for it: a To tag the request carried stays. */
  function BlankSent(x: Sent): Sent {
    Sent(BlankInfo(x.info), x.msg.(to := x.info.request.to))
  }

  /** A dialog without its generated local tag: a To tag the INVITE carried stays. */
  function BlankDialog(d: Dialog): Dialog {
    d.(localTag := if d.invite.to.Some? then d.invite.to.value.tag else None)
  }

  function BlankArrivals(q: seq<Arrival>): (r: seq<Arrival>)
    ensures |r| == |q| && forall i :: 0 <= i < |q| ==> r[i] == BlankArrival(q[i])
  {
    if q == [] then [] else BlankArrivals(q[..|q| - 1]) + [BlankArrival(q[|q| - 1])]
  }

  function BlankTrace(q: seq<Sent>): (r: seq<Sent>)
    ensures |r| == |q| && forall i :: 0 <= i < |q| ==> r[i] == BlankSent(q[i])
  {
    if q == [] then [] else BlankTrace(q[..|q| - 1]) + [BlankSent(q[|q| - 1])]
  }

  function BlankDialogs(q: seq<Dialog>): (r: seq<Dialog>)
    ensures |r| == |q| && forall i :: 0 <= i < |q| ==> r[i] == BlankDialog(q[i])
  {
    if q == [] then [] else [BlankDialog(q[0])] + BlankDialogs(q[1..])
  }

  /** The two runs are of the same messages with the same outcomes; order, loop callbacks and draws are free. */
  ghost predicate SameArrivals(p: seq<Step>, q: seq<Step>) {
    multiset(BlankArrivals(ArrivalsOf(p))) == multiset(BlankArrivals(ArrivalsOf(q)))
  }

  ghost predicate SameCuts(p: seq<Step>, q: seq<Step>) {
    forall id :: CutIn(p, id) <==> CutIn(q, id)
  }

  ghost predicate EndsAtRest(steps: seq<Step>) {
    CanRun(INITIAL, steps) && Quiescent(Run(INITIAL, steps))
  }

  function TraceOf(steps: seq<Step>): seq<Sent>
    requires CanRun(INITIAL, steps)
  {
    Run(INITIAL, steps).core.sent
  }

  /** Every entry of the trace is its transaction's own answer. */
  ghost predicate OwnAnswers(sent: seq<Sent>) {
    forall k :: 0 <= k < |sent| ==> Expected(sent[k].info) == [sent[k].msg]
  }

  ghost predicate DistinctSenders(sent: seq<Sent>) {
    forall i, j :: 0 <= i < j < |sent| ==> sent[i].info.id != sent[j].info.id
  }

  // ---------- the trace is determined by the arrivals and the cuts ----------

  /** At rest the trace holds exactly the expected answers of the accepted arrivals that were not cut off. */
  lemma TraceFromArrivals(steps: seq<Step>, x: Sent)
    requires EndsAtRest(steps)
    ensures x in TraceOf(steps) <==>
            (exists a :: a in ArrivalsOf(steps) && Accepts(a) && InfoOf(a) == x.info && Expected(x.info) == [x.msg]) &&
            !CutIn(steps, x.info.id)
  {
    var s := Run(INITIAL, steps);
    Reachable(steps);
    CutExactly(steps, x.info.id);
    RunAccepts(INITIAL, steps, x.info);
    if x.info in s.ledger.accepted && Expected(x.info) == [x.msg] {
      SettledAtRest(s, x.info);
      if WasSent(s.core.sent, x.info.id) {
        var k :| 0 <= k < |s.core.sent| && s.core.sent[k].info.id == x.info.id;
        assert s.core.sent[k].info == x.info;
        assert s.core.sent[k] == x;
      }
    }
  }

  /** What a collection of arrivals should leave in the trace, draws aside. */
  ghost predicate ShouldSend(arrivals: multiset<Arrival>, y: Sent) {
    exists b :: b in arrivals && Accepts(b) && Expected(InfoOf(b)) != [] &&
                y == BlankSent(Sent(InfoOf(b), Expected(InfoOf(b))[0]))
  }

  lemma BlankKeeps(a: Arrival)
    ensures Accepts(BlankArrival(a)) <==> Accepts(a)
    ensures Accepts(a) ==>
              && InfoOf(BlankArrival(a)) == BlankInfo(InfoOf(a))
              && (Expected(InfoOf(BlankArrival(a))) != [] <==> Expected(InfoOf(a)) != [])
              && (Expected(InfoOf(a)) != [] ==>
                    BlankSent(Sent(InfoOf(BlankArrival(a)), Expected(InfoOf(BlankArrival(a)))[0])) ==
                    BlankSent(Sent(InfoOf(a), Expected(InfoOf(a))[0])))
  {
  }

  lemma InBlankTrace(steps: seq<Step>, y: Sent)
    requires EndsAtRest(steps)
    ensures y in BlankTrace(TraceOf(steps)) ==>
              ShouldSend(multiset(BlankArrivals(ArrivalsOf(steps))), y) && !CutIn(steps, y.info.id)
  {
    var sent, all := TraceOf(steps), ArrivalsOf(steps);
    if y in BlankTrace(sent) {
      var k :| 0 <= k < |sent| && BlankTrace(sent)[k] == y;
      TraceFromArrivals(steps, sent[k]);
      var a :| a in all && Accepts(a) && InfoOf(a) == sent[k].info && Expected(sent[k].info) == [sent[k].msg];
      var i :| 0 <= i < |all| && all[i] == a;
      BlankKeeps(a);
      assert BlankArrivals(all)[i] in multiset(BlankArrivals(all));
    }
  }

  lemma BlankSource(all: seq<Arrival>, y: Sent) returns (a: Arrival)
    requires ShouldSend(multiset(BlankArrivals(all)), y)
    ensures a in all && Accepts(a) && Expected(InfoOf(a)) != []
    ensures y == BlankSent(Sent(InfoOf(a), Expected(InfoOf(a))[0]))
  {
    var b :| b in multiset(BlankArrivals(all)) && Accepts(b) && Expected(InfoOf(b)) != [] &&
      y == BlankSent(Sent(InfoOf(b), Expected(InfoOf(b))[0]));
    assert b in BlankArrivals(all);
    var i :| 0 <= i < |all| && BlankArrivals(all)[i] == b;
    a := all[i];
    BlankKeeps(a);
  }

  lemma OnceInBlankTrace(steps: seq<Step>, y: Sent)
    requires EndsAtRest(steps)
    requires ShouldSend(multiset(BlankArrivals(ArrivalsOf(steps))), y) && !CutIn(steps, y.info.id)
    ensures y in BlankTrace(TraceOf(steps))
  {
    var sent := TraceOf(steps);
    var a := BlankSource(ArrivalsOf(steps), y);
    var x := Sent(InfoOf(a), Expected(InfoOf(a))[0]);
    assert Expected(x.info) == [x.msg];
    TraceFromArrivals(steps, x);
    var k :| 0 <= k < |sent| && sent[k] == x;
    assert BlankTrace(sent)[k] == y;
  }

  lemma {:induction false} DistinctCount(sent: seq<Sent>, x: Sent)
    requires DistinctSenders(sent)
    ensures multiset(sent)[x] == if x in sent then 1 else 0
  {
    if sent != [] {
      var rest, y := sent[..|sent| - 1], sent[|sent| - 1];
      DistinctCount(rest, x);
      assert sent == rest + [y];
      assert multiset(sent) == multiset(rest) + multiset{y};
    }
  }

  lemma DistinctTrace(steps: seq<Step>)
    requires CanRun(INITIAL, steps)
    ensures DistinctSenders(TraceOf(steps)) && DistinctSenders(BlankTrace(TraceOf(steps)))
    ensures Run(INITIAL, steps).core.dialogs == DialogsFrom(TraceOf(steps))
    ensures OwnAnswers(TraceOf(steps))
  {
    Reachable(steps);
  }

  lemma BlankCount(steps: seq<Step>, y: Sent)
    requires EndsAtRest(steps)
    ensures multiset(BlankTrace(TraceOf(steps)))[y] ==
            if ShouldSend(multiset(BlankArrivals(ArrivalsOf(steps))), y) && !CutIn(steps, y.info.id) then 1 else 0
  {
    DistinctTrace(steps);
    DistinctCount(BlankTrace(TraceOf(steps)), y);
    InBlankTrace(steps, y);
    if ShouldSend(multiset(BlankArrivals(ArrivalsOf(steps))), y) && !CutIn(steps, y.info.id) {
      OnceInBlankTrace(steps, y);
    }
  }

  // ---------- both directions ----------

  lemma SameCutsSameTrace(p: seq<Step>, q: seq<Step>)
    requires EndsAtRest(p) && EndsAtRest(q) && SameArrivals(p, q) && SameCuts(p, q)
    ensures multiset(BlankTrace(TraceOf(p))) == multiset(BlankTrace(TraceOf(q)))
  {
    forall y ensures multiset(BlankTrace(TraceOf(p)))[y] == multiset(BlankTrace(TraceOf(q)))[y] {
      SameCutsSameCount(p, q, y);
    }
  }

  lemma SameCutsSameCount(p: seq<Step>, q: seq<Step>, y: Sent)
    requires EndsAtRest(p) && EndsAtRest(q) && SameArrivals(p, q) && (CutIn(p, y.info.id) <==> CutIn(q, y.info.id))
    ensures multiset(BlankTrace(TraceOf(p)))[y] == multiset(BlankTrace(TraceOf(q)))[y]
  {
    BlankCount(p, y);
    BlankCount(q, y);
  }

  /** An id cut off in p only leaves its answer in the trace of q only. */
  lemma SameTraceSameCut(p: seq<Step>, q: seq<Step>, id: nat)
    requires EndsAtRest(p) && EndsAtRest(q) && SameArrivals(p, q)
    requires multiset(BlankTrace(TraceOf(p))) == multiset(BlankTrace(TraceOf(q)))
    requires CutIn(p, id)
    ensures CutIn(q, id)
  {
    var a := CutWasOwed(p, id);
    var all := ArrivalsOf(p);
    ArrivalInSteps(p, a);
    var i :| 0 <= i < |all| && all[i] == a;
    BlankKeeps(a);
    var y := BlankSent(Sent(InfoOf(a), Expected(InfoOf(a))[0]));
    assert BlankArrivals(all)[i] in multiset(BlankArrivals(all));
    assert ShouldSend(multiset(BlankArrivals(all)), y);
    BlankCount(p, y);
    BlankCount(q, y);
  }

  lemma {:induction false} BlankCommutes(sent: seq<Sent>)
    requires OwnAnswers(sent)
    ensures DialogsFrom(BlankTrace(sent)) == BlankDialogs(DialogsFrom(sent))
  {
    if sent != [] {
      var rest, x := sent[..|sent| - 1], sent[|sent| - 1];
      BlankCommutes(rest);
      assert sent == rest + [x];
      DialogsAppend(rest, x);
      DialogsAppend(BlankTrace(rest), BlankSent(x));
      BlankDialogOf(x);
      var d := ExpectedDialog(x.info, x.msg);
      if d.Some? {
        assert ([d.value] + DialogsFrom(rest))[1..] == DialogsFrom(rest);
      } else {
        assert DialogsFrom(sent) == DialogsFrom(rest);
      }
    }
  }

  lemma BlankDialogOf(x: Sent)
    requires Expected(x.info) == [x.msg]
    ensures var d, e := ExpectedDialog(x.info, x.msg), ExpectedDialog(BlankSent(x).info, BlankSent(x).msg);
            e == if d.Some? then Some(BlankDialog(d.value)) else None
  {
  }

  /**
   * Order independence, with its exact condition. Take two runs of the same messages that end at rest, in any order,
   * with the loop run at any points, and with any random draws. Their traces agree, draws aside, if and only if they
   * cut off the same INVITEs; and then their dialog lists are permutations of each other, generated tags aside.
   */
  lemma TracesAgree(p: seq<Step>, q: seq<Step>)
    requires EndsAtRest(p) && EndsAtRest(q) && SameArrivals(p, q)
    ensures multiset(BlankTrace(TraceOf(p))) == multiset(BlankTrace(TraceOf(q))) <==> SameCuts(p, q)
    ensures SameCuts(p, q) ==>
              multiset(BlankDialogs(Run(INITIAL, p).core.dialogs)) ==
              multiset(BlankDialogs(Run(INITIAL, q).core.dialogs))
  {
    var s, r := TraceOf(p), TraceOf(q);
    if multiset(BlankTrace(s)) == multiset(BlankTrace(r)) {
      forall id ensures CutIn(p, id) <==> CutIn(q, id) {
        if CutIn(p, id) { SameTraceSameCut(p, q, id); }
        if CutIn(q, id) { SameTraceSameCut(q, p, id); }
      }
    }
    if SameCuts(p, q) {
      SameCutsSameTrace(p, q);
      DistinctTrace(p);
      DistinctTrace(q);
      DialogsOfPermutation(BlankTrace(s), BlankTrace(r));
      BlankCommutes(s);
      BlankCommutes(r);
    }
  }

  /**
   * Transaction by transaction: the same message, received in two such runs that cut it off in both or in neither,
   * is answered in both or in neither, and each answer is the one made with that run's own draw.
   */
  lemma AnswersAgree(p: seq<Step>, q: seq<Step>, a: Arrival, b: Arrival)
    requires EndsAtRest(p) && EndsAtRest(q) && Arrive(a) in p && Arrive(b) in q
    requires BlankArrival(a) == BlankArrival(b) && (CutIn(p, a.id) <==> CutIn(q, a.id))
    ensures var s, r := SentBy(TraceOf(p), a.id), SentBy(TraceOf(q), b.id);
            || (s == [] && r == [])
            || (&& a.parsed.Some? && a.parsed.value.to.Some?
                && s == [ResponseTo(200, a.parsed.value, a.luck.build.random)]
                && r == [s[0].(to := Some(WithTag(a.parsed.value.to.value, b.luck.build.random)))]
                && (a.parsed.value.to.value.tag.Some? ==> s == r))
    ensures a.luck.build.random == b.luck.build.random ==> SentBy(TraceOf(p), a.id) == SentBy(TraceOf(q), b.id)
  {
    ExactlyOnce(p, a);
    ExactlyOnce(q, b);
    BlankKeeps(a);
    BlankKeeps(b);
  }

  // ---------- renaming generated tags ----------

  /** The draw each answered transaction used. */
  function DrawsOf(sent: seq<Sent>): map<nat, UInt32> {
    if sent == [] then map[]
    else DrawsOf(sent[..|sent| - 1])[sent[|sent| - 1].info.id := sent[|sent| - 1].info.luck.build.random]
  }

  /** The sent message as it would be with the draw r. */
  function Redraw(x: Sent, r: UInt32): Sent {
    Sent(x.info.(luck := x.info.luck.(build := x.info.luck.build.(random := r))),
         if x.info.request.to.Some? then x.msg.(to := Some(WithTag(x.info.request.to.value, r))) else x.msg)
  }

  function RedrawFrom(x: Sent, draws: map<nat, UInt32>): Sent {
    if x.info.id in draws then Redraw(x, draws[x.info.id]) else x
  }

  function RedrawTrace(q: seq<Sent>, draws: map<nat, UInt32>): (r: seq<Sent>)
    ensures |r| == |q| && forall i :: 0 <= i < |q| ==> r[i] == RedrawFrom(q[i], draws)
  {
    if q == [] then [] else RedrawTrace(q[..|q| - 1], draws) + [RedrawFrom(q[|q| - 1], draws)]
  }

  lemma {:induction false} DrawOf(sent: seq<Sent>, k: nat)
    requires DistinctSenders(sent) && k < |sent|
    ensures sent[k].info.id in DrawsOf(sent) && DrawsOf(sent)[sent[k].info.id] == sent[k].info.luck.build.random
  {
    if k < |sent| - 1 {
      DrawOf(sent[..|sent| - 1], k);
    }
  }

  /** Two answers to the same message differ by the draw alone. */
  lemma RedrawGives(x: Sent, y: Sent)
    requires Expected(x.info) == [x.msg] && Expected(y.info) == [y.msg] && BlankSent(x) == BlankSent(y)
    ensures Redraw(x, y.info.luck.build.random) == y
  {
  }

  /** Entry k of the one trace, renamed, is an entry of the other. */
  lemma RenamedIn(p: seq<Sent>, q: seq<Sent>, k: nat) returns (j: nat)
    requires multiset(BlankTrace(p)) == multiset(BlankTrace(q)) && DistinctSenders(q) && k < |p|
    requires OwnAnswers(p) && OwnAnswers(q)
    ensures j < |q| && BlankSent(q[j]) == BlankSent(p[k]) && RedrawFrom(p[k], DrawsOf(q)) == q[j]
  {
    assert BlankTrace(p)[k] in multiset(BlankTrace(q));
    j :| 0 <= j < |q| && BlankTrace(q)[j] == BlankTrace(p)[k];
    assert BlankSent(q[j]) == BlankSent(p[k]);
    assert q[j].info.id == BlankSent(q[j]).info.id == p[k].info.id;
    DrawOf(q, j);
    RedrawGives(p[k], q[j]);
  }

  /** Entry j of the other trace comes from an entry of the first. */
  lemma RenamedFrom(p: seq<Sent>, q: seq<Sent>, j: nat) returns (k: nat)
    requires multiset(BlankTrace(p)) == multiset(BlankTrace(q)) && DistinctSenders(p) && DistinctSenders(q) && j < |q|
    requires OwnAnswers(p) && OwnAnswers(q)
    ensures k < |p| && RedrawFrom(p[k], DrawsOf(q)) == q[j]
  {
    k := RenamedIn(q, p, j);
    assert q[j].info.id == BlankSent(q[j]).info.id == p[k].info.id;
    DrawOf(q, j);
    RedrawGives(p[k], q[j]);
  }

  lemma RenamedMembers(p: seq<Sent>, q: seq<Sent>)
    requires multiset(BlankTrace(p)) == multiset(BlankTrace(q)) && DistinctSenders(p) && DistinctSenders(q)
    requires OwnAnswers(p) && OwnAnswers(q)
    ensures forall y :: y in RedrawTrace(p, DrawsOf(q)) <==> y in q
  {
    var r := RedrawTrace(p, DrawsOf(q));
    forall k | 0 <= k < |r| ensures r[k] in q {
      var j := RenamedIn(p, q, k);
    }
    forall j | 0 <= j < |q| ensures q[j] in r {
      var k := RenamedFrom(p, q, j);
      assert r[k] == q[j];
    }
  }

  lemma RenamedCount(p: seq<Sent>, q: seq<Sent>, y: Sent)
    requires DistinctSenders(p) && DistinctSenders(q)
    requires y in RedrawTrace(p, DrawsOf(q)) <==> y in q
    ensures multiset(RedrawTrace(p, DrawsOf(q)))[y] == multiset(q)[y]
  {
    assert forall i :: 0 <= i < |p| ==> RedrawTrace(p, DrawsOf(q))[i].info.id == p[i].info.id;
    DistinctCount(RedrawTrace(p, DrawsOf(q)), y);
    DistinctCount(q, y);
  }

  lemma RenamedMultiset(p: seq<Sent>, q: seq<Sent>)
    requires multiset(BlankTrace(p)) == multiset(BlankTrace(q)) && DistinctSenders(p) && DistinctSenders(q)
    requires OwnAnswers(p) && OwnAnswers(q)
    ensures multiset(RedrawTrace(p, DrawsOf(q))) == multiset(q)
  {
    RenamedMembers(p, q);
    forall y ensures multiset(RedrawTrace(p, DrawsOf(q)))[y] == multiset(q)[y] {
      RenamedCount(p, q, y);
    }
  }

  /**
   * Renaming. If two such runs cut off the same INVITEs, then replacing, in the trace of the one, the draw of each
   * transaction by the draw it had in the other gives the trace of the other, and the dialogs of the other, up to
   * order: the tags in trace and dialogs are renamed together.
   */
  lemma TracesAreRenamed(p: seq<Step>, q: seq<Step>)
    requires EndsAtRest(p) && EndsAtRest(q) && SameArrivals(p, q) && SameCuts(p, q)
    ensures var renamed := RedrawTrace(TraceOf(p), DrawsOf(TraceOf(q)));
            && multiset(renamed) == multiset(TraceOf(q))
            && multiset(DialogsFrom(renamed)) == multiset(Run(INITIAL, q).core.dialogs)
  {
    var s, r := TraceOf(p), TraceOf(q);
    SameCutsSameTrace(p, q);
    DistinctTrace(p);
    DistinctTrace(q);
    RenamedMultiset(s, r);
    DialogsOfPermutation(RedrawTrace(s, DrawsOf(r)), r);
  }

  // ---------- permuted traces leave permuted dialogs ----------

  function DialogPart(x: Sent): multiset<Dialog> {
    var d := ExpectedDialog(x.info, x.msg);
    if d.Some? then multiset{d.value} else multiset{}
  }

  lemma DialogsOfAppend(sent: seq<Sent>, x: Sent)
    ensures multiset(DialogsFrom(sent + [x])) == multiset(DialogsFrom(sent)) + DialogPart(x)
  {
    DialogsAppend(sent, x);
    if ExpectedDialog(x.info, x.msg).None? {
      assert DialogsFrom(sent + [x]) == DialogsFrom(sent);
    }
  }

  lemma RemoveAtAppend<T>(q: seq<T>, x: T, k: nat)
    requires k <= |q|
    ensures RemoveAt(q + [x], k) == if k < |q| then RemoveAt(q, k) + [x] else q
  {
  }

  lemma {:induction false} DialogsOfRemoval(sent: seq<Sent>, k: nat)
    requires k < |sent|
    ensures multiset(DialogsFrom(sent)) == multiset(DialogsFrom(RemoveAt(sent, k))) + DialogPart(sent[k])
  {
    var n := |sent| - 1;
    var rest, y := sent[..n], sent[n];
    assert sent == rest + [y];
    DialogsOfAppend(rest, y);
    RemoveAtAppend(rest, y, k);
    if k < n {
      assert rest[k] == sent[k];
      DialogsOfRemoval(rest, k);
      DialogsOfAppend(RemoveAt(rest, k), y);
    }
  }

  lemma RemoveOne<T>(q: seq<T>, k: nat)
    requires k < |q|
    ensures multiset(RemoveAt(q, k)) == multiset(q) - multiset{q[k]}
  {
    assert q == q[..k] + [q[k]] + q[k + 1..];
  }

  lemma {:induction false} DialogsOfPermutation(p: seq<Sent>, q: seq<Sent>)
    requires multiset(p) == multiset(q)
    ensures multiset(DialogsFrom(p)) == multiset(DialogsFrom(q))
    decreases |p|
  {
    if p == [] {
      assert |multiset(q)| == 0;
    } else {
      assert p[0] in multiset(q);
      var k :| 0 <= k < |q| && q[k] == p[0];
      RemoveOne(p, 0);
      RemoveOne(q, k);
      DialogsOfPermutation(RemoveAt(p, 0), RemoveAt(q, k));
      DialogsOfRemoval(p, 0);
      DialogsOfRemoval(q, k);
    }
  }
}
