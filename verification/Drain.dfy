/** What draining does to the FIFOs, from any state: completeness, idleness, and coalescing of wake-ups. */
module Drain {
  import opened SipMessages
  import opened Dialogs
  import opened Transactions
  import opened EngineModel

  /** No transaction of any family has a queued event. */
  ghost predicate Idle(c: Core) {
    forall f, i :: 0 <= i < |Table(c, f)| ==> Table(c, f)[i].fifo == []
  }

  lemma {:induction false} DrainTxEmpties(s: State, f: Family, i: nat)
    requires i < |Table(s.core, f)|
    ensures i < |Table(DrainTx(s, f, i).core, f)|
    ensures Table(DrainTx(s, f, i).core, f)[i].fifo == []
    ensures Table(DrainTx(s, f, i).core, f) == Table(s.core, f)[i := Table(DrainTx(s, f, i).core, f)[i]]
    ensures forall g :: g != f ==> Table(DrainTx(s, f, i).core, g) == Table(s.core, g)
    decreases Load(Table(s.core, f)[i].fifo)
  {
    var t := Table(s.core, f)[i];
    if t.fifo != [] {
      ConsumeLightens(t);
      CommitTables(s, f, i, Consume(t));
      DrainTxEmpties(ExecOne(s, f, i), f, i);
    }
  }

  lemma {:induction false} DrainFromFrame(s: State, f: Family, i: nat)
    requires i <= |Table(s.core, f)|
    ensures |Table(DrainFrom(s, f, i).core, f)| == |Table(s.core, f)|
    ensures Table(DrainFrom(s, f, i).core, f)[..i] == Table(s.core, f)[..i]
    ensures forall g :: g != f ==> Table(DrainFrom(s, f, i).core, g) == Table(s.core, g)
    decreases |Table(s.core, f)| - i
  {
    if i < |Table(s.core, f)| {
      var s1 := DrainTx(s, f, i);
      DrainTxEmpties(s, f, i);
      DrainFromFrame(s1, f, i + 1);
      var q, q1, q2 := Table(s.core, f), Table(s1.core, f), Table(DrainFrom(s1, f, i + 1).core, f);
      assert q2[..i] == q2[..i + 1][..i] == q1[..i + 1][..i] == q[..i];
    }
  }

  lemma {:induction false} DrainFromEmpties(s: State, f: Family, i: nat)
    requires i <= |Table(s.core, f)|
    ensures |Table(DrainFrom(s, f, i).core, f)| == |Table(s.core, f)|
    ensures forall j :: i <= j < |Table(s.core, f)| ==> Table(DrainFrom(s, f, i).core, f)[j].fifo == []
    decreases |Table(s.core, f)| - i
  {
    if i < |Table(s.core, f)| {
      var s1 := DrainTx(s, f, i);
      DrainTxEmpties(s, f, i);
      DrainFromFrame(s1, f, i + 1);
      DrainFromEmpties(s1, f, i + 1);
      var q1, q2 := Table(s1.core, f), Table(DrainFrom(s1, f, i + 1).core, f);
      assert q2[i] == q2[..i + 1][i] == q1[..i + 1][i] == q1[i];
    }
  }

  lemma ExecuteEmpties(s: State, f: Family)
    ensures forall j :: 0 <= j < |Table(Execute(s, f).core, f)| ==> Table(Execute(s, f).core, f)[j].fifo == []
    ensures forall g :: g != f ==> Table(Execute(s, f).core, g) == Table(s.core, g)
  {
    DrainFromFrame(s, f, 0);
    DrainFromEmpties(s, f, 0);
  }

  /** One pass empties every FIFO of every family, although callbacks queue responses while it runs. */
  lemma PassEmpties(s: State)
    ensures Idle(Pass(s).core)
  {
    var s1 := Execute(s, ICT);
    var s2 := Execute(s1, IST);
    var s3 := Execute(s2, NICT);
    ExecuteEmpties(s, ICT);
    ExecuteEmpties(s1, IST);
    ExecuteEmpties(s2, NICT);
    ExecuteEmpties(s3, NIST);
  }

  lemma EmptyFamilyIsQuiet(s: State, f: Family)
    requires Table(s.core, f) == []
    ensures Execute(s, f) == s
  {
  }

  lemma {:induction false} IdleDrainFrom(s: State, f: Family, i: nat)
    requires Idle(s.core) && i <= |Table(s.core, f)|
    ensures DrainFrom(s, f, i) == s
    decreases |Table(s.core, f)| - i
  {
    if i < |Table(s.core, f)| {
      IdleDrainFrom(s, f, i + 1);
    }
  }

  lemma IdlePass(s: State)
    requires Idle(s.core)
    ensures Pass(s) == s
  {
    IdleDrainFrom(s, ICT, 0);
    IdleDrainFrom(s, IST, 0);
    IdleDrainFrom(s, NICT, 0);
    IdleDrainFrom(s, NIST, 0);
  }

  /** The loop ends with nothing pending, and if it had anything to pop, with every FIFO empty. */
  lemma {:induction false} LoopDrains(s: State)
    ensures Loop(s).queue.pending == []
    ensures s.queue.pending == [] ==> Loop(s) == s
    ensures s.queue.pending != [] || Idle(s.core) ==> Idle(Loop(s).core)
    decreases Work(s)
  {
    if s.queue.pending != [] {
      LoopBodyWork(s);
      PassEmpties(s.(queue := Pop(s.queue)));
      LoopDrains(LoopBody(s));
    }
  }

  // ---------- coalescing ----------

  lemma {:induction false} DrainTxSameCore(s: State, r: State, f: Family, i: nat)
    requires s.core == r.core && i < |Table(s.core, f)|
    ensures DrainTx(s, f, i).core == DrainTx(r, f, i).core
    decreases Load(Table(s.core, f)[i].fifo)
  {
    var t := Table(s.core, f)[i];
    if t.fifo != [] {
      ConsumeLightens(t);
      DrainTxSameCore(ExecOne(s, f, i), ExecOne(r, f, i), f, i);
    }
  }

  lemma {:induction false} DrainFromSameCore(s: State, r: State, f: Family, i: nat)
    requires s.core == r.core && i <= |Table(s.core, f)|
    ensures DrainFrom(s, f, i).core == DrainFrom(r, f, i).core
    decreases |Table(s.core, f)| - i
  {
    if i < |Table(s.core, f)| {
      DrainTxSameCore(s, r, f, i);
      DrainFromSameCore(DrainTx(s, f, i), DrainTx(r, f, i), f, i + 1);
    }
  }

  /** What a pass does to transactions, trace and dialogs does not depend on the wake-ups queued. */
  lemma PassSameCore(s: State, r: State)
    requires s.core == r.core
    ensures Pass(s).core == Pass(r).core
  {
    var s1, r1 := Execute(s, ICT), Execute(r, ICT);
    var s2, r2 := Execute(s1, IST), Execute(r1, IST);
    var s3, r3 := Execute(s2, NICT), Execute(r2, NICT);
    DrainFromSameCore(s, r, ICT, 0);
    DrainFromSameCore(s1, r1, IST, 0);
    DrainFromSameCore(s2, r2, NICT, 0);
    DrainFromSameCore(s3, r3, NIST, 0);
  }

  /** Once the FIFOs are empty, an iteration consumes its wake-up and does nothing else. */
  lemma LaterIteration(s: State)
    requires s.queue.pending != [] && Idle(s.core)
    ensures LoopBody(s) == s.(queue := Free(Pop(s.queue), s.queue.pending[0]))
    ensures var q := s.queue;
            LoopBody(s).queue ==
            Queue(q.pending[1..], q.active - {q.pending[0]}, q.freed + [q.pending[0]], q.leaked, q.next)
  {
    IdlePass(s.(queue := Pop(s.queue)));
  }

  /** From empty FIFOs the loop frees exactly the wake-ups that are pending, front to back. */
  lemma {:induction false} IdleLoop(s: State)
    requires Idle(s.core)
    ensures Loop(s).core == s.core
    ensures Loop(s).queue.freed == s.queue.freed + s.queue.pending
    ensures Loop(s).queue.next == s.queue.next
    decreases |s.queue.pending|
  {
    if s.queue.pending != [] {
      var ev, rest := s.queue.pending[0], s.queue.pending[1..];
      assert s.queue.freed + s.queue.pending == s.queue.freed + [ev] + rest;
      LaterIteration(s);
      IdleLoop(s.(queue := Free(Pop(s.queue), ev)));
      assert Loop(s) == Loop(LoopBody(s));
    }
  }

  lemma LoopUnrolls(s: State)
    requires s.queue.pending != []
    ensures Loop(s) == Loop(LoopBody(s))
  {
    LoopBodyWork(s);
  }

  lemma LoopFromIdle(s: State)
    requires s.queue.pending != [] && Idle(LoopBody(s).core)
    ensures Loop(s).core == LoopBody(s).core && Loop(s).queue.pending == []
    ensures Loop(s).queue.freed == LoopBody(s).queue.freed + LoopBody(s).queue.pending
    ensures Loop(s).queue.next == LoopBody(s).queue.next
  {
    LoopUnrolls(s);
    IdleLoop(LoopBody(s));
    LoopDrains(s);
  }

  /** However many wake-ups are queued, and are queued meanwhile, the drain amounts to a single full pass. */
  lemma Coalescing(s: State)
    requires s.queue.pending != []
    ensures Loop(s).core == Pass(s).core
  {
    var s0 := s.(queue := Pop(s.queue));
    PassSameCore(s, s0);
    PassEmpties(s0);
    LoopFromIdle(s);
  }

  /** Two contexts that differ only in their non-empty lists of wake-ups drain to the same result. */
  lemma WakeupCountIsIrrelevant(s: State, r: State)
    requires s.core == r.core && s.queue.pending != [] && r.queue.pending != []
    ensures Loop(s).core == Loop(r).core
  {
    Coalescing(s);
    Coalescing(r);
    PassSameCore(s, r);
  }
}
