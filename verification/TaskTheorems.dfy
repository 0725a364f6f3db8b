/** What holds of every run of the tasks of a program-thread. */
module TaskTheorems {
  import opened Words
  import opened TaskState
  import opened TaskProofs
  import opened TaskRuns

  /** Every step keeps the invariant. */
  lemma TaskStepKeeps(s: State, e: Event)
    requires TaskInv(s) && Enabled(s, e)
    ensures TaskInv(Step(s, e))
  {
    hide TaskInv;
    assert InFlight(s) <==> !e.Next? by { FlightEvents(s, e); }
    match e
    case Start(i) => KeepStart(s, i);
    case Read(i, a) => KeepReadStep(s, i, a);
    case Write(i, a, v) => KeepWrite(s, i, a, v);
    case Finish(i) => KeepFinish(s, i);
    case Complete(i) => KeepComplete(s, i);
    case Commit(verdict) => KeepCommit(s, verdict);
    case Again(i) => KeepRestart(s, i);
    case AbortCommit => KeepRolledBack(s, 1);
    case Ready(i) => KeepReady(s, i);
    case Fake(i) => KeepFake(s, i);
    case Wake(i) => KeepWake(s, i);
    case Doom => KeepDoom(s);
    case Next(n) => KeepNext(s, n);
  }

  lemma KeepReadStep(s: State, i: nat, a: nat)
    requires TaskInv(s) && InFlight(s) && Enabled(s, Read(i, a))
    ensures TaskInv(StepRead(s, i, a))
  {
    hide TaskInv, Source;
    if Source(s, i, a) == NONE { KeepReadMemory(s, i, a); }
    else if Source(s, i, a) == i { KeepReadOwn(s, i, a); }
    else { KeepReadPast(s, i, a); }
  }

  lemma KeepDoom(s: State)
    requires TaskInv(s) && InFlight(s)
    ensures TaskInv(StepDoom(s))
  {
    var s' := StepDoom(s);
    assert Sized(s');
    hide TaskInv;
    KeepFlags(s, s');
  }

  /** Between transactions the next transaction is all that can happen. */
  lemma FlightEvents(s: State, e: Event)
    requires TaskInv(s) && Enabled(s, e)
    ensures InFlight(s) <==> !e.Next?
  {
    hide Chains, Sound, Buffers, PhaseOk, MayRead;
  }

  // ---------- the program ----------

  /** Memory after running whole tasks one after another. */
  function RunAll(m: Memory, tasks: seq<seq<Op>>): (r: Memory)
    ensures |r| == |m|
  {
    if tasks == [] then m else Apply(RunAll(m, tasks[..|tasks| - 1]), tasks[|tasks| - 1])
  }

  /** Every read of every task returned what this execution gives it. */
  ghost predicate LegalRun(m: Memory, tasks: seq<seq<Op>>)
  {
    tasks == [] ||
    (LegalRun(m, tasks[..|tasks| - 1]) && Legal(RunAll(m, tasks[..|tasks| - 1]), tasks[|tasks| - 1]))
  }

  lemma RunSnoc(m: Memory, tasks: seq<seq<Op>>, ops: seq<Op>)
    ensures RunAll(m, tasks + [ops]) == Apply(RunAll(m, tasks), ops)
    ensures LegalRun(m, tasks + [ops]) <==> LegalRun(m, tasks) && Legal(RunAll(m, tasks), ops)
  {
    hide Apply, Legal;
    assert (tasks + [ops])[..|tasks|] == tasks;
  }

  lemma {:induction false} RunAfter(m: Memory, tasks: seq<seq<Op>>, task: seq<Task>, k: nat)
    requires k < |task| && LegalRun(m, tasks)
    requires forall j :: 1 <= j <= k ==> Legal(After(RunAll(m, tasks), task, j - 1), task[j].ops)
    ensures RunAll(m, tasks + AllOps(task, k)) == After(RunAll(m, tasks), task, k)
    ensures LegalRun(m, tasks + AllOps(task, k))
  {
    hide Apply, Legal, RunAll, LegalRun;
    if k == 0 {
      assert tasks + AllOps(task, 0) == tasks;
    } else {
      RunAfter(m, tasks, task, k - 1);
      RunSnoc(m, tasks + AllOps(task, k - 1), task[k].ops);
      assert tasks + AllOps(task, k) == tasks + AllOps(task, k - 1) + [task[k].ops];
    }
  }

  /** The committed tasks, run one after another from m, read what they read and lead to memory. */
  ghost predicate Program(m: Memory, s: State)
  {
    LegalRun(m, s.done) && s.mem == RunAll(m, s.done)
  }

  lemma StepProgram(m: Memory, s: State, e: Event)
    requires TaskInv(s) && Enabled(s, e) && Program(m, s)
    ensures Program(m, Step(s, e))
  {
    hide TaskInv, Sound, Legal, RunAll, LegalRun, Passes, MayRead;
    assert InFlight(s) <==> !e.Next? by { FlightEvents(s, e); }
    if e.Commit? && Commits(s, e.verdict) {
      hide WrittenBack, After, AllOps;
      CommitRefines(s, e.verdict);
      RunAfter(m, s.done, s.task, Last(s));
    } else {
      SameProgram(s, e);
    }
  }

  lemma SameProgram(s: State, e: Event)
    requires Sized(s) && Enabled(s, e) && !(e.Commit? && Commits(s, e.verdict))
    ensures Step(s, e).mem == s.mem && Step(s, e).done == s.done && Step(s, e).stripe == s.stripe
  {
    hide Sized, ValidTls, MayRead, Source, Look, UnlinkedFrom, WrittenBack, ReleasedAll;
  }

  // ---------- every run ----------

  ghost predicate Leads(s: State, run: seq<Event>, s': State)
    decreases |run|
  {
    if run == [] then s' == s
    else Sized(s) && Enabled(s, run[0]) && Leads(Step(s, run[0]), run[1..], s')
  }

  predicate Mapped(stripe: seq<nat>, stripes: nat, m: Memory)
  {
    |stripe| == |m| && forall a :: 0 <= a < |stripe| ==> stripe[a] < stripes
  }

  ghost predicate Reachable(m: Memory, s: State)
  {
    exists stripe, stripes: nat, run :: Mapped(stripe, stripes, m) && Leads(Init(stripe, stripes, m), run, s)
  }

  lemma {:induction false} RunKeeps(m: Memory, s: State, run: seq<Event>, s': State)
    requires TaskInv(s) && Program(m, s) && Leads(s, run, s')
    ensures TaskInv(s') && Program(m, s')
    decreases |run|
  {
    hide TaskInv, Program, Step, Enabled;
    if run != [] {
      TaskStepKeeps(s, run[0]);
      StepProgram(m, s, run[0]);
      RunKeeps(m, Step(s, run[0]), run[1..], s');
    }
  }

  /** Speculation refines program order: whatever the interleaving, restarts and roll-backs, the
      committed tasks have read, and written to memory, what they would have one after another. */
  lemma SpeculationRefinesProgramOrder(m: Memory, s: State)
    requires Reachable(m, s)
    ensures TaskInv(s)
    ensures LegalRun(m, s.done) && s.mem == RunAll(m, s.done)
  {
    hide Legal;
    var stripe, stripes: nat, run :| Mapped(stripe, stripes, m) && Leads(Init(stripe, stripes, m), run, s);
    var s0 := Init(stripe, stripes, m);
    assert TaskInv(s0);
    hide TaskInv;
    RunKeeps(m, s0, run, s);
  }

  /** A completed task, of a transaction that can still commit, has read what the tasks before it
      leave behind; so validation may be skipped when no writer has completed since last_writer. */
  lemma CompletedTaskIsSequential(m: Memory, s: State, k: nat)
    requires Reachable(m, s) && InFlight(s) && !Doomed(s) && 1 <= k <= s.completed
    ensures LegalRun(m, s.done + AllOps(s.task, k))
  {
    hide Legal, Reachable, LegalRun, RunAll, After;
    SpeculationRefinesProgramOrder(m, s);
    SoundOf(s);
    RunAfter(m, s.done, s.task, k);
  }

  lemma SoundOf(s: State)
    requires TaskInv(s) && InFlight(s) && !Doomed(s)
    ensures Sized(s) && Sound(s)
  {
  }

  /** Along a chain serials go down, and every entry but the first belongs to a completed task. */
  lemma ChainDiscipline(m: Memory, s: State, k: nat, x: nat)
    requires Reachable(m, s) && InFlight(s) && 1 <= k < |s.task| && x in s.task[k].log
    ensures var o := s.task[k].log[x];
            && o < k && (o != NONE ==> x in s.task[o].log && o <= s.completed)
            && (forall j :: o < j < k ==> x !in s.task[j].log)
    ensures x < |s.wl| && (s.wl[x] == k || k <= s.completed)
  {
    hide Reachable, Sound, PhaseOk, Buffers, Top;
    SpeculationRefinesProgramOrder(m, s);
    EntryAt(s, k, x);
    TopFacts(s.task, x, k);
    TopFacts(s.task, x, |s.task|);
    LockAt(s, x);
  }

  /** RollbackTransaction(first) leaves of each chain its entries before first. */
  lemma RollbackCuts(m: Memory, s: State, first: nat, x: nat)
    requires Reachable(m, s) && InFlight(s) && 1 <= first <= Last(s) && x < |s.wl|
    ensures Sized(s) && RolledBack(s, first).wl[x] == Before(s.task, x, s.wl[x], first)
  {
    hide Reachable, Sound, PhaseOk, Buffers, Top, Before, UnlinkedFrom;
    SpeculationRefinesProgramOrder(m, s);
    LockAt(s, x);
    UnlinkedFromIs(s, s.wl, first, Last(s), x);
    BeforeIsTop(s, x, |s.task|, first);
  }

  /** A commit releases every stripe, each at its top entry. */
  lemma CommitReleases(m: Memory, s: State, k: nat, x: nat)
    requires Reachable(m, s) && InFlight(s) && k < |s.task| && x < |s.wl|
    ensures ReleasedAll(s.wl, s.task, k)[x] == if s.wl[x] <= k then NONE else s.wl[x]
  {
    hide Reachable, Sound, PhaseOk, Buffers, Chains, ReleasedAll;
    SpeculationRefinesProgramOrder(m, s);
    ReleasedIs(s, k, x);
  }

  /** Why a stripe may be released inside the write-back loop: when its top entry has been written back,
      its words are what they will be at the end of the commit. */
  lemma ReleasedIsFinal(m: Memory, s: State, k: nat, a: nat)
    requires Reachable(m, s) && InFlight(s) && k < |s.task| && a < |s.mem|
    ensures Sized(s) && s.stripe[a] < |s.wl|
    ensures s.wl[s.stripe[a]] <= k ==>
      && (forall j :: k < j < |s.task| ==> a !in s.task[j].buffer)
      && WrittenBack(s.mem, s.task, k)[a] == WrittenBack(s.mem, s.task, Last(s))[a]
  {
    hide Reachable, Sound, PhaseOk, Top, WrittenBack;
    SpeculationRefinesProgramOrder(m, s);
    var x := s.stripe[a];
    LockAt(s, x);
    TopFacts(s.task, x, |s.task|);
    if s.wl[x] <= k {
      forall j | k < j < |s.task| ensures a !in s.task[j].buffer { assert Buffers(s, s.task[j]); }
      WrittenBackRest(s.mem, s.task, k, Last(s), a);
    }
  }

  lemma {:induction false} WrittenBackRest(m: Memory, task: seq<Task>, k: nat, n: nat, a: nat)
    requires k <= n < |task| && a < |m| && forall j :: k < j <= n ==> a !in task[j].buffer
    ensures WrittenBack(m, task, n)[a] == WrittenBack(m, task, k)[a]
    decreases n
  {
    if k < n { WrittenBackRest(m, task, k, n - 1, a); }
  }
}
