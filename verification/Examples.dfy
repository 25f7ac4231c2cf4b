/** Concrete runs on which tempting claims fail; the exact conditions are CutExactly, OpensExactly, AckStopsNothing. */
module Examples {
  import opened SipMessages
  import opened ResponseBuilder
  import opened Dialogs
  import opened Transactions
  import opened EngineModel
  import opened Drain
  import opened Invariants
  import opened Arrivals
  import opened Answering
  import opened CutOff
  import opened DialogTable

  const ALL_WELL := Luck(true, true, true, WakeOk, BuildLuck(true, true, true, None, 7), true)

  /** An INVITE whose CSeq names `verb`. */
  function SampleInvite(verb: Method): Message {
    Message(RequestLine(Invite), [Via(Some("z9hG4bK1"), "host")],
            Some(Address("sip:a", Some("1"))), Some(Address("sip:b", None)), Some("call"), Some(CSeq(1, verb)))
  }

  /** A response with the same top Via branch and CSeq. */
  const SAMPLE_RESPONSE := SampleInvite(Invite).(start := StatusLine(200))

  const INVITE_ARRIVES := Arrival(0, Some(SampleInvite(Invite)), ALL_WELL)
  const RESPONSE_ARRIVES := Arrival(1, Some(SAMPLE_RESPONSE), ALL_WELL.(add := false))

  lemma SampleIsAnswerable(verb: Method)
    ensures var a := Arrival(0, Some(SampleInvite(verb)), ALL_WELL);
            && Accepts(a) && Answerable(a.parsed.value) && Buildable(a.parsed.value, a.luck.build)
            && |Expected(InfoOf(a))| == 1
  {
  }

  lemma AfterInvite(verb: Method)
    ensures var s := Next(INITIAL, Arrive(Arrival(0, Some(SampleInvite(verb)), ALL_WELL)));
            && s.queue == Queue([0], {0}, [], multiset{}, 1)
            && s.ledger.seen == {0} && s.ledger.cut == {} && |s.core.ist| == 1
            && s.ledger.accepted == {InfoOf(Arrival(0, Some(SampleInvite(verb)), ALL_WELL))}
            && s.core.ist[0].info == InfoOf(Arrival(0, Some(SampleInvite(verb)), ALL_WELL))
            && s.core.ist[0].stage == Initial
  {
  }

  lemma RunOne(s: State, x: Step)
    ensures CanRun(s, [x]) <==> Enabled(s, x)
    ensures Run(s, [x]) == Next(s, x)
  {
    assert [x][1..] == [];
  }

  lemma RunTwo(s: State, x: Step, y: Step)
    ensures CanRun(s, [x, y]) <==> Enabled(s, x) && Enabled(Next(s, x), y)
    ensures Run(s, [x, y]) == Next(Next(s, x), y)
  {
    assert [x, y][1..] == [y];
    RunOne(Next(s, x), y);
  }

  lemma RunThree(s: State, x: Step, y: Step, z: Step)
    ensures CanRun(s, [x, y, z]) <==> Enabled(s, x) && Enabled(Next(s, x), y) && Enabled(Next(Next(s, x), y), z)
    ensures Run(s, [x, y, z]) == Next(Next(Next(s, x), y), z)
  {
    assert [x, y, z][1..] == [y, z];
    RunTwo(Next(s, x), y, z);
  }

  /** A response whose hand-over fails, arriving before the loop has run, makes the INVITE go unanswered. */
  lemma ResponseCutsInviteOff()
    ensures var p := [Arrive(INVITE_ARRIVES), Arrive(RESPONSE_ARRIVES), Fire(0)];
            && CanRun(INITIAL, p) && Quiescent(Run(INITIAL, p))
            && Accepts(INVITE_ARRIVES) && Expected(InfoOf(INVITE_ARRIVES)) != []
            && CutIn(p, 0) && SentBy(Run(INITIAL, p).core.sent, 0) == []
  {
    var p := [Arrive(INVITE_ARRIVES), Arrive(RESPONSE_ARRIVES), Fire(0)];
    var s1 := Next(INITIAL, p[0]);
    var s2 := Next(s1, p[1]);
    AfterInvite(Invite);
    RunThree(INITIAL, p[0], p[1], p[2]);
    assert ResponseMatches(s1.core.ist[0], SAMPLE_RESPONSE);
    CutOne(s1, RESPONSE_ARRIVES);
    assert s2.queue == s1.queue;
    DispatchDrains(s2, 0);
    assert p[0] in p;
    SampleIsAnswerable(Invite);
    CutExactly(p, 0);
    ExactlyOnce(p, INVITE_ARRIVES);
  }

  /** An INVITE arrives and the loop runs. */
  function Served(verb: Method): seq<Step> {
    [Arrive(Arrival(0, Some(SampleInvite(verb)), ALL_WELL)), Fire(0)]
  }

  lemma ServiceRuns(verb: Method)
    ensures CanRun(INITIAL, Served(verb))
    ensures Run(INITIAL, Served(verb)) == Dispatch(Next(INITIAL, Served(verb)[0]), 0)
  {
    AfterInvite(verb);
    RunTwo(INITIAL, Served(verb)[0], Fire(0));
  }

  lemma DispatchDrains(s: State, ev: nat)
    ensures Quiescent(Dispatch(s, ev)) && Dispatch(s, ev).ledger == s.ledger
  {
    LoopDrains(s.(queue := s.queue.(active := s.queue.active - {ev})));
  }

  lemma AfterService(verb: Method)
    ensures CanRun(INITIAL, Served(verb)) && Quiescent(Run(INITIAL, Served(verb))) && Rest(Run(INITIAL, Served(verb)))
    ensures Run(INITIAL, Served(verb)) == Dispatch(Next(INITIAL, Served(verb)[0]), 0)
    ensures Run(INITIAL, Served(verb)).ledger.cut == {} && Run(INITIAL, Served(verb)).ledger.seen == {0}
    ensures Run(INITIAL, Served(verb)).ledger.accepted == {InfoOf(Arrival(0, Some(SampleInvite(verb)), ALL_WELL))}
  {
    ServiceRuns(verb);
    AfterInvite(verb);
    DispatchDrains(Next(INITIAL, Served(verb)[0]), 0);
    assert Rest(Run(INITIAL, Served(verb))) by { Reachable(Served(verb)); }
  }

  /** The same arrivals, with the loop run in between, have the INVITE answered: the order does matter here. */
  lemma InviteAnsweredWhenTheLoopRunsFirst()
    ensures var q := [Arrive(INVITE_ARRIVES), Fire(0), Arrive(RESPONSE_ARRIVES)];
            && CanRun(INITIAL, q) && Quiescent(Run(INITIAL, q))
            && !CutIn(q, 0) && SentBy(Run(INITIAL, q).core.sent, 0) == Expected(InfoOf(INVITE_ARRIVES)) != []
  {
    var q := [Arrive(INVITE_ARRIVES), Fire(0), Arrive(RESPONSE_ARRIVES)];
    var s := Run(INITIAL, Served(Invite));
    AfterService(Invite);
    RunThree(INITIAL, q[0], q[1], q[2]);
    ResponseAfterService(s);
    assert q[0] in q;
    SampleIsAnswerable(Invite);
    CutExactly(q, 0);
    ExactlyOnce(q, INVITE_ARRIVES);
  }

  lemma ResponseAfterService(s: State)
    requires Rest(s) && Quiescent(s) && s.ledger.cut == {}
    ensures Quiescent(ParseMsg(s, RESPONSE_ARRIVES).1) && ParseMsg(s, RESPONSE_ARRIVES).1.ledger.cut == {}
  {
    RestOwesNothing(s);
    CutOne(s, RESPONSE_ARRIVES);
  }

  lemma {:induction false} NothingOpened(sent: seq<Sent>)
    requires forall k :: 0 <= k < |sent| ==> !Opens(sent[k])
    ensures DialogsFrom(sent) == []
  {
    if sent != [] {
      NothingOpened(sent[..|sent| - 1]);
    }
  }

  lemma NoInviteNoDialog(s: State)
    requires Rest(s) && forall i :: i in s.ledger.accepted ==> !Invites(i)
    ensures s.core.dialogs == []
  {
    forall k | 0 <= k < |s.core.sent| ensures !Opens(s.core.sent[k]) {
      OpensExactly(s, k);
      assert s.core.sent[k].info in s.ledger.accepted;
    }
    NothingOpened(s.core.sent);
  }

  /** An INVITE with another method in its CSeq is answered 200 but leaves no dialog. */
  lemma MismatchedCSeqLeavesNoDialog()
    ensures CanRun(INITIAL, Served(Bye)) && Quiescent(Run(INITIAL, Served(Bye)))
    ensures |SentBy(Run(INITIAL, Served(Bye)).core.sent, 0)| == 1
    ensures Run(INITIAL, Served(Bye)).core.dialogs == []
  {
    AfterService(Bye);
    SampleIsAnswerable(Bye);
    assert Served(Bye)[0] in Served(Bye);
    CutExactly(Served(Bye), 0);
    ExactlyOnce(Served(Bye), Arrival(0, Some(SampleInvite(Bye)), ALL_WELL));
    NoInviteNoDialog(Run(INITIAL, Served(Bye)));
  }

  /** An ACK makes its stop call on "no dialog" exactly when no dialog in the list matches it. */
  lemma AckStopsNothing(s: State, a: Arrival) returns (b: Lookup)
    requires a.parsed.Some? && IsRequest(a.parsed.value, Ack)
    ensures ParseMsg(s, a).0 == Ok && ParseMsg(s, a).1.ledger.stops == s.ledger.stops + [b]
    ensures b.id == a.id && b.msg == a.parsed.value
    ensures b.found.None? <==>
            forall i :: 0 <= i < |s.core.dialogs| ==> !Matches(s.core.dialogs[i], a.parsed.value)
  {
    b := Search(s.core, a.id, a.parsed.value);
    FirstMatchIsFirst(s.core.dialogs, a.parsed.value);
  }

  const ACK_ARRIVES := Arrival(0, Some(SampleInvite(Ack).(start := RequestLine(Ack))), ALL_WELL)

  /** A run in which the stop call is made although no dialog was found. */
  lemma UnmatchedAckStillStops()
    ensures CanRun(INITIAL, [Arrive(ACK_ARRIVES)])
    ensures var stops := Run(INITIAL, [Arrive(ACK_ARRIVES)]).ledger.stops; |stops| == 1 && stops[0].found == None
  {
    RunOne(INITIAL, Arrive(ACK_ARRIVES));
    var b := AckStopsNothing(INITIAL, ACK_ARRIVES);
  }
}
