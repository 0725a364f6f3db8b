/** The operations of a task are the calls it was asked to make in its last attempt. */
module TaskCalls {
  import opened Words
  import opened TaskState
  import opened TaskProofs
  import opened TaskRuns
  import opened TaskTheorems

  // ---------- one write ----------

  /** A write waits while a later task holds the stripe; that task is told to give it up. */
  predicate WriteWaits(s: State, i: nat, a: nat)
    requires i < |s.task| && a < |s.stripe| && s.stripe[a] < |s.wl|
  {
    !s.task[i].abortTask && s.wl[s.stripe[a]] > i
  }

  /** What WriteWord leaves behind: the write is logged, once and as it was asked for, or nothing but the flag of the
      later holder changes, or the task restarts: because it was told to, because the last past writer of the stripe
      is still running, or because a writer completed meanwhile over something it read. */
  lemma WriteDoes(s: State, i: nat, a: nat, v: Word)
    requires Sized(s) && Enabled(s, Write(i, a, v))
    ensures var s', t, e := Step(s, Write(i, a, v)), s.task[i], s.wl[s.stripe[a]];
            && |s'.task| == |s.task| && s'.mem == s.mem && s'.done == s.done
            && (if WriteWaits(s, i, a) then s' == s.(task := s.task[e := s.task[e].(abortTask := true)])
                else
                  && (s'.task[i].pc.Running? || s'.task[i].pc.Idle?)
                  && (s'.task[i].pc.Running? ==>
                        && s'.task[i].ops == t.ops + [Wr(a, v, UNMASKED)]
                        && s'.task[i].buffer == Insert(t.buffer, a, v, UNMASKED)
                        && s'.wl == s.wl[s.stripe[a] := i]
                        && s'.task[i].log == if e == i then t.log else t.log[s.stripe[a] := e])
                  && (s'.task[i].pc.Idle? ==>
                        || t.abortTask || s.completed < e < i
                        || (e < i && s.writer > t.lastWriter))
                  && (s'.task[i].pc.Idle? <== t.abortTask || s.completed < e < i))
  {
    hide ValidTls, Insert;
    var x := s.stripe[a];
    if s.wl[x] == i { assert s.wl[x := i] == s.wl; }
  }

  // ---------- what the tasks were asked, read off a run ----------

  /** The calls of the latest attempt of each task in flight, and those of the committed tasks, in program order. */
  datatype Tale = Tale(now: seq<seq<Call>>, committed: seq<seq<Call>>)

  function More(l: Tale, i: nat, c: Call): Tale
    requires i < |l.now|
  {
    l.(now := l.now[i := l.now[i] + [c]])
  }

  /** A start forgets the attempt before, and a commit adds the calls of all tasks. */
  ghost function Told(s: State, e: Event, s': State, l: Tale): Tale
    requires Sized(s) && Enabled(s, e) && |l.now| == |s.task|
  {
    match e
    case Start(i) => l.(now := l.now[i := []])
    case Read(i, a) => More(l, i, ReadCall(a))
    case Write(i, a, v) => if WriteWaits(s, i, a) then l else More(l, i, WriteCall(a, v, UNMASKED))
    case Commit(_) => if |s'.done| > |s.done| then l.(committed := l.committed + l.now[1..]) else l
    case Next(n) => l.(now := seq(n + 1, _ => []))
    case _ => l
  }

  ghost function TaleOf(s: State, run: seq<Event>, l: Tale): Tale
    decreases |run|
  {
    if run == [] || !Sized(s) || !Enabled(s, run[0]) || |l.now| != |s.task| then l
    else TaleOf(Step(s, run[0]), run[1..], Told(s, run[0], Step(s, run[0]), l))
  }

  const UNTOLD := Tale([[]], [])

  // ---------- every step ----------

  /** The operations of this attempt count: the task is running or committing, or it has completed. */
  predicate Counts(t: Task)
  {
    Active(t) || (t.pc.Completed? && !t.aborting)
  }

  predicate Answers(t: Task, calls: seq<Call>)
  {
    Counts(t) ==> Erase(t.ops) == calls
  }

  ghost predicate Truthful(s: State, l: Tale)
  {
    && |l.now| == |s.task| && |l.committed| == |s.done|
    && (forall k :: 1 <= k < |s.task| ==> Answers(s.task[k], l.now[k]))
    && (forall n :: 0 <= n < |s.done| ==> Erase(s.done[n]) == l.committed[n])
  }

  /** Task i, if it still counts, has the operations ops; every other one that counts did before, with the same. */
  ghost predicate Only(s: State, s': State, i: nat, ops: seq<Op>)
  {
    && |s'.task| == |s.task| && s'.done == s.done && 1 <= i < |s.task|
    && (Counts(s'.task[i]) ==> Counts(s.task[i]) && s'.task[i].ops == ops)
    && forall k :: 1 <= k < |s.task| && k != i && Counts(s'.task[k]) ==> Counts(s.task[k]) && s'.task[k].ops == s.task[k].ops
  }

  /** One more operation, by the call that asked for it. */
  lemma OnlyMore(s: State, s': State, i: nat, o: Op, l: Tale)
    requires 1 <= i < |s.task| && Truthful(s, l) && Only(s, s', i, s.task[i].ops + [o])
    ensures Truthful(s', More(l, i, Asked(o)))
  {
    hide Erase;
    EraseSnoc(s.task[i].ops, o);
    var l' := More(l, i, Asked(o));
    forall k | 1 <= k < |s'.task| ensures Answers(s'.task[k], l'.now[k]) { assert Answers(s.task[k], l.now[k]); }
  }

  lemma OnlySame(s: State, s': State, i: nat, l: Tale)
    requires 1 <= i < |s.task| && Truthful(s, l) && Only(s, s', i, s.task[i].ops)
    ensures Truthful(s', l)
  {
    hide Erase;
    forall k | 1 <= k < |s'.task| ensures Answers(s'.task[k], l.now[k]) { assert Answers(s.task[k], l.now[k]); }
  }

  /** What a read by task i logs. */
  lemma ReadTells(s: State, i: nat, a: nat, l: Tale)
    requires Sized(s) && Enabled(s, Read(i, a)) && Truthful(s, l)
    ensures Truthful(Step(s, Read(i, a)), Told(s, Read(i, a), Step(s, Read(i, a)), l))
  {
    hide Truthful, More;
    var v := ReadOnly(s, i, a);
    OnlyMore(s, Step(s, Read(i, a)), i, Rd(a, v), l);
  }

  lemma ReadOnly(s: State, i: nat, a: nat) returns (v: Word)
    requires Sized(s) && Enabled(s, Read(i, a))
    ensures 1 <= i < |s.task| && Only(s, Step(s, Read(i, a)), i, s.task[i].ops + [Rd(a, v)])
  {
    hide ValidTls, Sized;
    StripeAt(s, a);
    var e := Source(s, i, a);
    v := if e == NONE then s.mem[a] else Look(s, e, a);
  }

  lemma WriteTells(s: State, i: nat, a: nat, v: Word, l: Tale)
    requires Sized(s) && Enabled(s, Write(i, a, v)) && Truthful(s, l)
    ensures Truthful(Step(s, Write(i, a, v)), Told(s, Write(i, a, v), Step(s, Write(i, a, v)), l))
  {
    hide Truthful, More;
    var s' := Step(s, Write(i, a, v));
    WriteOnly(s, i, a, v);
    if WriteWaits(s, i, a) { OnlySame(s, s', i, l); } else { OnlyMore(s, s', i, Wr(a, v, UNMASKED), l); }
  }

  lemma WriteOnly(s: State, i: nat, a: nat, v: Word)
    requires Sized(s) && Enabled(s, Write(i, a, v))
    ensures 1 <= i < |s.task|
    ensures Only(s, Step(s, Write(i, a, v)), i, s.task[i].ops + if WriteWaits(s, i, a) then [] else [Wr(a, v, UNMASKED)])
    ensures s.task[i].ops + [] == s.task[i].ops
  {
    hide ValidTls, Insert;
  }

  /** The tasks of a transaction that commits have all made their calls. */
  lemma CommitCounts(s: State, verdict: nat)
    requires TaskInv(s) && InFlight(s) && Enabled(s, Commit(verdict)) && Commits(s, verdict)
    ensures forall k :: 1 <= k < |s.task| ==> Counts(s.task[k])
  {
    hide Chains, Reads, Passes, Buffers, Sound;
    InvParts(s);
    NotDoomed(s);
    forall k | 1 <= k < |s.task|
      ensures Counts(s.task[k])
    {
      assert PhaseOk(s, k);
    }
  }

  lemma {:induction false} AllOpsAt(task: seq<Task>, n: nat, k: nat)
    requires k < n < |task|
    ensures |AllOps(task, n)| == n && AllOps(task, n)[k] == task[k + 1].ops
  {
    if n > 1 { AllOpsAt(task, n - 1, if k < n - 1 then k else 0); }
  }

  lemma CommitTells(s: State, verdict: nat, l: Tale)
    requires TaskInv(s) && InFlight(s) && Enabled(s, Commit(verdict)) && Truthful(s, l)
    ensures Truthful(Step(s, Commit(verdict)), Told(s, Commit(verdict), Step(s, Commit(verdict)), l))
  {
    hide TaskInv, Passes, WrittenBack, ReleasedAll, UnlinkedFrom, Erase, AllOps;
    var s' := Step(s, Commit(verdict));
    var n := Last(s);
    if Commits(s, verdict) {
      CommitCounts(s, verdict);
      AllOpsAt(s.task, n, 0);
      var l' := l.(committed := l.committed + l.now[1..]);
      forall j | 0 <= j < |s'.done|
        ensures Erase(s'.done[j]) == l'.committed[j]
      {
        if j >= |s.done| {
          var k := j - |s.done|;
          AllOpsAt(s.task, n, k);
          assert Answers(s.task[k + 1], l.now[k + 1]);
        }
      }
    } else {
      OthersCompleted(s);
      AbortedTells(s, verdict, l);
    }
  }

  lemma OthersCompleted(s: State)
    requires TaskInv(s) && InFlight(s) && s.completed == Last(s) - 1
    ensures forall k :: 1 <= k < Last(s) ==> !Active(s.task[k])
  {
    hide Chains, Sound, Buffers;
    forall k | 1 <= k < Last(s) ensures !Active(s.task[k]) { assert PhaseOk(s, k); }
  }

  lemma AbortedTells(s: State, verdict: nat, l: Tale)
    requires Sized(s) && Enabled(s, Commit(verdict)) && Truthful(s, l) && !Commits(s, verdict)
    requires forall k :: 1 <= k < Last(s) ==> !Active(s.task[k])
    ensures Step(s, Commit(verdict)).done == s.done && Truthful(Step(s, Commit(verdict)), l)
  {
    hide Passes, UnlinkedFrom, Erase;
    var s' := Step(s, Commit(verdict));
    forall k | 1 <= k < |s'.task| ensures Answers(s'.task[k], l.now[k]) { assert Answers(s.task[k], l.now[k]); }
  }

  /** Steps that make no call. */
  lemma QuietTells(s: State, e: Event, l: Tale)
    requires Sized(s) && Enabled(s, e) && Truthful(s, l)
    requires !e.Read? && !e.Write? && !e.Commit? && !e.Next? && !e.Start?
    requires e.AbortCommit? ==> forall k :: 1 <= k < Last(s) ==> !Active(s.task[k])
    ensures Truthful(Step(s, e), l)
  {
    hide UnlinkedFrom, Erase, Passes;
    var s' := Step(s, e);
    forall k | 1 <= k < |s'.task| ensures Answers(s'.task[k], l.now[k]) { assert Answers(s.task[k], l.now[k]); }
  }

  lemma FreshTells(s: State, e: Event, l: Tale)
    requires Sized(s) && Enabled(s, e) && Truthful(s, l) && (e.Next? || (e.Start? && s.task[e.i].ops == []))
    ensures Truthful(Step(s, e), Told(s, e, Step(s, e), l))
  {
    EraseNone();
    hide Erase;
    var s', l' := Step(s, e), Told(s, e, Step(s, e), l);
    forall k | 1 <= k < |s'.task|
      ensures Answers(s'.task[k], l'.now[k])
    {
      if e.Start? { assert Answers(s.task[k], l.now[k]); }
    }
  }

  lemma IdleEmpty(s: State, i: nat)
    requires TaskInv(s) && InFlight(s) && 1 <= i < |s.task| && s.task[i].pc.Idle?
    ensures s.task[i].ops == []
  {
    hide Chains, Sound, Buffers;
    assert PhaseOk(s, i);
  }

  lemma StepTells(s: State, e: Event, l: Tale)
    requires TaskInv(s) && Enabled(s, e) && Truthful(s, l)
    ensures Truthful(Step(s, e), Told(s, e, Step(s, e), l))
  {
    hide TaskInv, Truthful, Step;
    FlightEvents(s, e);
    match e
    case Read(i, a) => ReadTells(s, i, a, l);
    case Write(i, a, v) => WriteTells(s, i, a, v, l);
    case Commit(verdict) => CommitTells(s, verdict, l);
    case Next(_) => FreshTells(s, e, l);
    case Start(i) =>
      IdleEmpty(s, i);
      FreshTells(s, e, l);
    case AbortCommit =>
      OthersCompleted(s);
      QuietTells(s, e, l);
    case _ => QuietTells(s, e, l);
  }

  lemma {:induction false} RunTells(s: State, run: seq<Event>, s': State, l: Tale)
    requires TaskInv(s) && Leads(s, run, s') && Truthful(s, l)
    ensures Truthful(s', TaleOf(s, run, l))
    decreases |run|
  {
    hide TaskInv, Truthful, Told, Step, Enabled;
    if run != [] {
      assert |l.now| == |s.task| by { TruthfulSized(s, l); }
      StepTells(s, run[0], l);
      TaskStepKeeps(s, run[0]);
      RunTells(Step(s, run[0]), run[1..], s', Told(s, run[0], Step(s, run[0]), l));
    }
  }

  lemma TruthfulSized(s: State, l: Tale)
    requires Truthful(s, l)
    ensures |l.now| == |s.task|
  {
  }

  // ---------- every run ----------

  /** In every run: the committed operations are, task by task in program order, exactly the calls that each task
      was asked to make in its last attempt; and so are, at any moment, those of a task that runs, commits or has
      completed, for its present attempt. */
  lemma OperationsAreCalls(stripe: seq<nat>, stripes: nat, m: Memory, run: seq<Event>, s: State)
    requires Mapped(stripe, stripes, m) && Leads(Init(stripe, stripes, m), run, s)
    ensures var l := TaleOf(Init(stripe, stripes, m), run, UNTOLD);
            && |l.committed| == |s.done| && (forall n :: 0 <= n < |s.done| ==> Erase(s.done[n]) == l.committed[n])
            && |l.now| == |s.task|
            && (forall k :: 1 <= k < |s.task| && Active(s.task[k]) ==> Erase(s.task[k].ops) == l.now[k])
            && (forall k :: 1 <= k < |s.task| && s.task[k].pc.Completed? && !s.task[k].aborting ==> Erase(s.task[k].ops) == l.now[k])
  {
    var s0 := Init(stripe, stripes, m);
    hide Leads;
    assert TaskInv(s0);
    hide TaskInv;
    assert Truthful(s0, UNTOLD);
    RunTells(s0, run, s, UNTOLD);
    hide Erase;
    var l := TaleOf(s0, run, UNTOLD);
    forall k | 1 <= k < |s.task| ensures Answers(s.task[k], l.now[k]) { }
  }
}
