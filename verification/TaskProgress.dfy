/** From every reachable state the transaction in flight can be ended, with any calls. */
module TaskProgress {
  import opened Words
  import opened TaskState
  import opened TaskProofs
  import opened TaskRuns
  import opened TaskTheorems
  import opened TaskExact
  import TaskCalls

  // ---------- building runs ----------

  /** A run from s0 that has led to a state with the invariant, nothing having been committed. */
  ghost predicate Built(s0: State, run: seq<Event>, s: State)
  {
    && Leads(s0, run, s) && TaskInv(s) && |s.task| == |s0.task| && |s.mem| == |s0.mem|
    && s.done == s0.done && InFlight(s)
  }

  lemma {:induction false} LeadsMore(s0: State, run: seq<Event>, s: State, e: Event)
    requires Leads(s0, run, s) && Sized(s) && Enabled(s, e)
    ensures Leads(s0, run + [e], Step(s, e))
    decreases |run|
  {
    hide Step, Enabled, Sized;
    if run == [] {
      assert (run + [e])[1..] == [];
    } else {
      LeadsMore(Step(s0, run[0]), run[1..], s, e);
      assert (run + [e])[1..] == run[1..] + [e];
    }
  }

  /** One more step. */
  lemma Go(s0: State, run: seq<Event>, s: State, e: Event) returns (run': seq<Event>, s': State)
    requires Built(s0, run, s) && Enabled(s, e)
    ensures s' == Step(s, e) && Leads(s0, run', s') && TaskInv(s') && run' == run + [e]
    ensures |s'.task| == |s0.task| && |s'.mem| == |s0.mem| && s'.done == s0.done && InFlight(s') ==> Built(s0, run', s')
  {
    hide TaskInv, Step, Enabled, Leads;
    LeadsMore(s0, run, s, e);
    TaskStepKeeps(s, e);
    run', s' := run + [e], Step(s, e);
  }

  // ---------- giving up what has been speculated ----------

  /** All tasks have been told of a conflict with another program-thread. */
  ghost predicate AllDoomed(s: State)
  {
    forall k :: 1 <= k < |s.task| ==> s.task[k].abortTx
  }

  /** Task i, not the last, is the next to complete. */
  ghost predicate Facing(s0: State, run: seq<Event>, s: State, i: nat)
  {
    Built(s0, run, s) && AllDoomed(s) && s.completed + 1 == i < Last(s)
  }

  lemma WakeOne(s0: State, run0: seq<Event>, s: State, i: nat) returns (run: seq<Event>, s': State)
    requires Facing(s0, run0, s, i)
    ensures Facing(s0, run, s', i) && (s'.task[i].pc.Idle? || s'.task[i].pc.ReadyWait? || Active(s'.task[i]))
  {
    hide TaskInv, Leads;
    run, s' := run0, s;
    PhaseHere(s, i);
    if s.task[i].pc.Completed? || s.task[i].pc.Faked? {
      run, s' := Go(s0, run, s, Wake(i));
    }
  }

  lemma StartOne(s0: State, run0: seq<Event>, s: State, i: nat) returns (run: seq<Event>, s': State)
    requires Facing(s0, run0, s, i) && (s.task[i].pc.Idle? || s.task[i].pc.ReadyWait? || Active(s.task[i]))
    ensures Facing(s0, run, s', i) && (s'.task[i].pc.ReadyWait? || Active(s'.task[i]))
  {
    hide TaskInv, Leads;
    run, s' := run0, s;
    PhaseHere(s, i);
    if s.task[i].pc.Idle? {
      run, s' := Go(s0, run, s, Start(i));
    }
  }

  lemma ReadyOne(s0: State, run0: seq<Event>, s: State, i: nat) returns (run: seq<Event>, s': State)
    requires Facing(s0, run0, s, i) && (s.task[i].pc.ReadyWait? || Active(s.task[i]))
    ensures Facing(s0, run, s', i) && s'.task[i].pc.ReadyWait?
  {
    hide TaskInv, Leads;
    run, s' := run0, s;
    PhaseHere(s, i);
    if Active(s.task[i]) {
      run, s' := Go(s0, run, s, Ready(i));
    }
  }

  lemma FakeOne(s0: State, run0: seq<Event>, s: State) returns (run: seq<Event>, s': State)
    requires Built(s0, run0, s) && AllDoomed(s) && s.completed + 1 < Last(s)
    ensures Built(s0, run, s') && AllDoomed(s') && s'.completed == s.completed + 1
  {
    hide TaskInv, Leads;
    var i := s.completed + 1;
    run, s' := WakeOne(s0, run0, s, i);
    run, s' := StartOne(s0, run, s', i);
    run, s' := ReadyOne(s0, run, s', i);
    PhaseHere(s', i);
    run, s' := Go(s0, run, s', Fake(i));
  }

  lemma {:induction false} FakeAll(s0: State, run0: seq<Event>, s: State) returns (run: seq<Event>, s': State)
    requires Built(s0, run0, s) && AllDoomed(s)
    ensures Built(s0, run, s') && AllDoomed(s') && s'.completed + 1 == Last(s')
    decreases Last(s) - s.completed
  {
    hide TaskInv, Leads, AllDoomed;
    run, s' := run0, s;
    if s.completed + 1 < Last(s) {
      run, s' := FakeOne(s0, run, s);
      run, s' := FakeAll(s0, run, s');
    }
  }

  /** All tasks have been rolled back; tasks from i on have been woken up. */
  ghost predicate Rolled(s: State, i: nat)
  {
    && s.completed == 0 && s.writer == 0
    && forall k :: 1 <= k < |s.task| ==>
         && !s.task[k].abortTx && (k == Last(s) ==> s.task[k].pc.Idle? && !s.task[k].aborting)
         && (k < Last(s) ==> if k < i then (s.task[k].pc.Completed? || s.task[k].pc.Faked?) && s.task[k].aborting
                             else s.task[k].pc.Idle? && !s.task[k].aborting)
  }

  lemma RollBack(s0: State, run0: seq<Event>, s: State) returns (run: seq<Event>, s': State)
    requires Built(s0, run0, s) && AllDoomed(s) && s.completed + 1 == Last(s)
    ensures Built(s0, run, s') && Rolled(s', Last(s'))
  {
    hide TaskInv, Leads;
    var n := Last(s);
    run, s' := run0, s;
    PhaseHere(s, n);
    if s.task[n].pc.Idle? {
      run, s' := Go(s0, run, s, Start(n));
    }
    PhaseHere(s', n);
    run, s' := RollBackActive(s0, run, s');
  }

  lemma RollBackActive(s0: State, run0: seq<Event>, s: State) returns (run: seq<Event>, s': State)
    requires Built(s0, run0, s) && AllDoomed(s) && s.completed + 1 == Last(s) && Active(s.task[Last(s)])
    ensures Built(s0, run, s') && Rolled(s', Last(s'))
  {
    hide TaskInv, Leads, UnlinkedFrom;
    var n := Last(s);
    forall k | 1 <= k < n ensures s.task[k].pc.Completed? || s.task[k].pc.Faked? { PhaseHere(s, k); }
    PhaseHere(s, n);
    run, s' := Go(s0, run0, s, AbortCommit);
  }

  /** The tasks see the roll-back and become idle. */
  lemma {:induction false} WakeAll(s0: State, run0: seq<Event>, s: State, i: nat) returns (run: seq<Event>, s': State)
    requires Built(s0, run0, s) && Rolled(s, i) && 1 <= i <= Last(s)
    ensures Built(s0, run, s') && Rolled(s', 1)
    decreases i
  {
    hide TaskInv, Leads;
    run, s' := run0, s;
    if i > 1 {
      PhaseHere(s, i - 1);
      run, s' := Go(s0, run, s, Wake(i - 1));
      hide Rolled;
      run, s' := WakeAll(s0, run, s', i - 1);
    }
  }

  /** From any state in flight the transaction can be rolled back as a whole. */
  lemma GiveUp(s: State) returns (run: seq<Event>, s': State)
    requires TaskInv(s) && InFlight(s)
    ensures Built(s, run, s') && Rolled(s', 1)
  {
    hide TaskInv, Step, Rolled;
    assert Built(s, [], s);
    hide Leads;
    PhaseHere(s, Last(s));
    run, s' := Doomsday(s);
    run, s' := FakeAll(s, run, s');
    run, s' := RollBack(s, run, s');
    run, s' := WakeAll(s, run, s', Last(s'));
  }

  lemma Doomsday(s: State) returns (run: seq<Event>, s': State)
    requires TaskInv(s) && InFlight(s) && Built(s, [], s)
    ensures Built(s, run, s') && AllDoomed(s')
  {
    hide TaskInv, Leads;
    PhaseHere(s, Last(s));
    run, s' := Go(s, [], s, Doom);
  }

  // ---------- running the tasks in order ----------

  predicate CallOk(s: State, c: Call)
  {
    c.a < |s.mem| && (c.WriteCall? ==> c.mask == UNMASKED)
  }

  /** The calls of each task are for words of memory. */
  ghost predicate ProgramOk(s: State, p: seq<seq<Call>>)
  {
    forall k, o :: 0 <= k < |p| && o in p[k] ==> CallOk(s, o)
  }

  /** Only calls, completions and the commit: no restart, no roll-back, no conflict. */
  predicate Calm(run: seq<Event>)
  {
    forall e :: e in run ==> e.Start? || e.Read? || e.Write? || e.Finish? || e.Complete? || e == Commit(0)
  }

  /** Tasks before i have completed with the calls of p, those from i on have not begun, and nobody was told to abort. */
  ghost predicate Upto(s: State, p: seq<seq<Call>>, i: nat)
  {
    && 1 <= i <= Last(s) == |p| && s.completed == i - 1
    && (forall k :: 1 <= k < |s.task| ==>
          && !s.task[k].abortTx && !s.task[k].aborting
          && (if k < i then s.task[k].pc.Completed? && Erase(s.task[k].ops) == p[k - 1] else k > i ==> s.task[k].pc.Idle?))
  }

  /** Task i is running, was told nothing, and has made the calls c. */
  ghost predicate Making(s: State, p: seq<seq<Call>>, i: nat, c: seq<Call>)
  {
    && Upto(s, p, i) && s.task[i].pc.Running? && Erase(s.task[i].ops) == c
    && !s.task[i].abortTask && s.task[i].lastWriter == s.writer
  }

  /** Nobody after task i holds a lock, and those before it have completed. */
  lemma Locks(s: State, p: seq<seq<Call>>, i: nat, x: nat)
    requires TaskInv(s) && InFlight(s) && Upto(s, p, i) && x < |s.wl|
    ensures s.wl[x] <= i
  {
    hide Sound, Buffers, Top, Erase;
    forall k | i < k < |s.task| ensures s.task[k].log == map[] { assert PhaseOk(s, k); }
    TopFacts(s.task, x, |s.task|);
  }

  lemma StartTask(s0: State, run0: seq<Event>, s: State, p: seq<seq<Call>>, i: nat) returns (run: seq<Event>, s': State)
    requires Built(s0, run0, s) && Upto(s, p, i) && s.task[i].pc.Idle?
    ensures Built(s0, run, s') && Making(s', p, i, []) && (Calm(run0) ==> Calm(run))
  {
    hide TaskInv, Leads, Erase;
    EraseNone();
    PhaseHere(s, i);
    run, s' := Go(s0, run0, s, Start(i));
  }

  lemma MakeRead(s0: State, run0: seq<Event>, s: State, p: seq<seq<Call>>, i: nat, c: seq<Call>, a: nat) returns (run: seq<Event>, s': State)
    requires Built(s0, run0, s) && Making(s, p, i, c) && a < |s.mem|
    ensures Built(s0, run, s') && Making(s', p, i, c + [ReadCall(a)]) && (Calm(run0) ==> Calm(run))
  {
    hide TaskInv, Leads, Erase, ValidTls, Look, Source;
    PhaseHere(s, i);
    SourceFacts(s, i, a);
    run, s' := Go(s0, run0, s, Read(i, a));
    EraseSnoc(s.task[i].ops, s'.task[i].ops[|s.task[i].ops|]);
  }

  lemma MakeWrite(s0: State, run0: seq<Event>, s: State, p: seq<seq<Call>>, i: nat, c: seq<Call>, a: nat, v: Word) returns (run: seq<Event>, s': State)
    requires Built(s0, run0, s) && Making(s, p, i, c) && a < |s.mem|
    ensures Built(s0, run, s') && Making(s', p, i, c + [WriteCall(a, v, UNMASKED)]) && (Calm(run0) ==> Calm(run))
  {
    hide TaskInv, Leads, Erase, ValidTls, Insert;
    PhaseHere(s, i);
    StripeAt(s, a);
    Locks(s, p, i, s.stripe[a]);
    run, s' := Go(s0, run0, s, Write(i, a, v));
    EraseSnoc(s.task[i].ops, Wr(a, v, UNMASKED));
  }

  lemma {:induction false} MakeCalls(s0: State, run0: seq<Event>, s: State, p: seq<seq<Call>>, i: nat, c: seq<Call>)
    returns (run: seq<Event>, s': State)
    requires Built(s0, run0, s) && Making(s, p, i, c) && 1 <= i <= |p| && c <= p[i - 1]
    requires forall o :: o in p[i - 1] ==> CallOk(s0, o)
    ensures Built(s0, run, s') && Making(s', p, i, p[i - 1]) && (Calm(run0) ==> Calm(run))
    decreases |p[i - 1]| - |c|
  {
    hide TaskInv, Leads, Making, Calm;
    run, s' := run0, s;
    if |c| < |p[i - 1]| {
      var o := p[i - 1][|c|];
      assert CallOk(s0, o);
      if o.ReadCall? { run, s' := MakeRead(s0, run, s, p, i, c, o.a); }
      else { run, s' := MakeWrite(s0, run, s, p, i, c, o.a, o.val); }
      assert c + [o] <= p[i - 1];
      run, s' := MakeCalls(s0, run, s', p, i, c + [o]);
    } else {
      assert c == p[i - 1];
    }
  }

  /** A task that was disturbed by nobody completes. */
  lemma CompleteTask(s0: State, run0: seq<Event>, s: State, p: seq<seq<Call>>, i: nat) returns (run: seq<Event>, s': State)
    requires Built(s0, run0, s) && 1 <= i < |p| && Making(s, p, i, p[i - 1])
    ensures Built(s0, run, s') && Upto(s', p, i + 1) && s'.task[i + 1].pc.Idle? && (Calm(run0) ==> Calm(run))
  {
    hide TaskInv, Leads, Erase, ValidTls;
    PhaseHere(s, i);
    run, s' := Go(s0, run0, s, Finish(i));
    PhaseHere(s', i);
    run, s' := Go(s0, run, s', Complete(i));
  }

  /** The run ends with the tasks of p appended to what is done. */
  ghost predicate Ends(s0: State, run: seq<Event>, s: State, p: seq<seq<Call>>)
  {
    && Leads(s0, run, s) && TaskInv(s) && !InFlight(s)
    && |s.done| == |s0.done| + |p| && s.done[..|s0.done|] == s0.done
    && forall k :: 0 <= k < |p| ==> Erase(s.done[|s0.done| + k]) == p[k]
  }

  lemma CommitTask(s0: State, run0: seq<Event>, s: State, p: seq<seq<Call>>, i: nat) returns (run: seq<Event>, s': State)
    requires Built(s0, run0, s) && 1 <= i == |p| && Making(s, p, i, p[i - 1])
    ensures Ends(s0, run, s', p) && (Calm(run0) ==> Calm(run))
  {
    hide TaskInv, Leads, Erase, ValidTls, WrittenBack, ReleasedAll, AllOps;
    PhaseHere(s, i);
    var s1;
    run, s1 := Go(s0, run0, s, Finish(i));
    PhaseHere(s1, i);
    run, s' := Go(s0, run, s1, Commit(0));
    assert s'.done == s0.done + AllOps(s1.task, i) && |s'.task| == |s1.task|;
    TaskCalls.AllOpsAt(s1.task, i, 0);
    forall k | 0 <= k < |p|
      ensures Erase(s'.done[|s0.done| + k]) == p[k]
    {
      TaskCalls.AllOpsAt(s1.task, i, k);
    }
  }

  lemma {:induction false} RunTasks(s0: State, run0: seq<Event>, s: State, p: seq<seq<Call>>, i: nat) returns (run: seq<Event>, s': State)
    requires Built(s0, run0, s) && Upto(s, p, i) && s.task[i].pc.Idle?
    requires ProgramOk(s0, p)
    ensures Ends(s0, run, s', p) && (Calm(run0) ==> Calm(run))
    decreases |p| - i
  {
    hide TaskInv, Leads, Making, Calm;
    run, s' := StartTask(s0, run0, s, p, i);
    run, s' := MakeCalls(s0, run, s', p, i, []);
    if i == |p| {
      run, s' := CommitTask(s0, run, s', p, i);
    } else {
      run, s' := CompleteTask(s0, run, s', p, i);
      run, s' := RunTasks(s0, run, s', p, i + 1);
    }
  }

  // ---------- from every reachable state ----------

  /** From every reachable state in flight, whatever has been speculated, and for any calls its tasks may make, there
      is a run that ends the transaction with its tasks, in program order, appended to what is done. */
  lemma CanCommit(m: Memory, s: State, p: seq<seq<Call>>) returns (run: seq<Event>, s': State)
    requires Reachable(m, s) && InFlight(s) && |p| == Last(s)
    requires ProgramOk(s, p)
    ensures Leads(s, run, s') && !InFlight(s')
    ensures |s'.done| == |s.done| + |p| && s'.done[..|s.done|] == s.done
    ensures forall k :: 0 <= k < |p| ==> Erase(s'.done[|s.done| + k]) == p[k]
  {
    hide Reachable, TaskInv, Leads, Erase;
    SpeculationRefinesProgramOrder(m, s);
    run, s' := GiveUp(s);
    run, s' := RunTasks(s, run, s', p, 1);
  }

  /** Between transactions any program of one or more tasks can be run to its commit without a restart, a roll-back or
      a conflict: each task begins, makes its calls, and completes. */
  lemma CanRun(m: Memory, s: State, p: seq<seq<Call>>) returns (run: seq<Event>, s': State)
    requires Reachable(m, s) && !InFlight(s) && p != [] && ProgramOk(s, p)
    ensures run != [] && run[0] == Next(|p|) && Calm(run[1..]) && Leads(s, run, s') && !InFlight(s')
    ensures |s'.done| == |s.done| + |p| && s'.done[..|s.done|] == s.done
    ensures forall k :: 0 <= k < |p| ==> Erase(s'.done[|s.done| + k]) == p[k]
  {
    hide Reachable, TaskInv, Leads, Erase;
    SpeculationRefinesProgramOrder(m, s);
    var s1 := Begun(s, p);
    forall k, o | 0 <= k < |p| && o in p[k] ensures CallOk(s1, o) { assert CallOk(s, o); }
    var rest;
    rest, s' := RunTasks(s1, [], s1, p, 1);
    run := [Next(|p|)] + rest;
    LeadsFirst(s, Next(|p|), rest, s');
    assert run[1..] == rest;
  }

  lemma Begun(s: State, p: seq<seq<Call>>) returns (s1: State)
    requires TaskInv(s) && !InFlight(s) && p != []
    ensures Enabled(s, Next(|p|)) && s1 == Step(s, Next(|p|)) && s1.done == s.done && s1.mem == s.mem
    ensures Built(s1, [], s1) && Upto(s1, p, 1) && s1.task[1].pc.Idle?
  {
    s1 := StepNext(s, |p|);
    TaskStepKeeps(s, Next(|p|));
    hide TaskInv, Erase;
    assert Leads(s1, [], s1);
  }

  lemma LeadsFirst(s: State, e: Event, run: seq<Event>, s': State)
    requires Sized(s) && Enabled(s, e) && Leads(Step(s, e), run, s')
    ensures Leads(s, [e] + run, s')
  {
    hide Step, Enabled, Sized;
    assert ([e] + run)[1..] == run;
  }
}
