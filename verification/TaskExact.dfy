/** Exactly when a task restarts, completes or commits: what a past task has written decides. */
module TaskExact {
  import opened Words
  import opened TaskState
  import opened TaskProofs
  import opened TaskRuns
  import opened TaskTheorems
  import TaskCalls

  // ---------- the sources of a task stay ----------

  /** What an active task has read from a past task is in the log of that task, which has completed. */
  ghost predicate SourceOk(s: State, k: nat, r: TaskRead)
  {
    1 <= r.serial < k && r.serial <= s.completed && r.serial < |s.task| && r.x in s.task[r.serial].log
  }

  ghost predicate Sources(s: State)
  {
    forall k, r :: 1 <= k < |s.task| && Active(s.task[k]) && r in s.task[k].taskReadLog ==> SourceOk(s, k, r)
  }

  /** Completed tasks keep their logs, and new sources are completed tasks. */
  ghost predicate Follows(s: State, s': State)
  {
    && |s'.task| == |s.task| && s.completed <= s'.completed
    && (forall j :: 1 <= j <= s.completed && j < |s.task| ==> s'.task[j].log == s.task[j].log)
    && forall k, r :: 1 <= k < |s'.task| && Active(s'.task[k]) && r in s'.task[k].taskReadLog ==>
         (Active(s.task[k]) && r in s.task[k].taskReadLog) || SourceOk(s, k, r)
  }

  lemma SourcesFollow(s: State, s': State)
    requires Sources(s) && Follows(s, s')
    ensures Sources(s')
  {
    forall k, r | 1 <= k < |s'.task| && Active(s'.task[k]) && r in s'.task[k].taskReadLog
      ensures SourceOk(s', k, r)
    {
      assert SourceOk(s, k, r);
    }
  }

  /** What the phase of task i says. */
  lemma PhaseHere(s: State, i: nat)
    requires TaskInv(s) && InFlight(s) && 1 <= i < |s.task|
    ensures Sized(s) && PhaseOk(s, i) && (Active(s.task[i]) || s.task[i].pc.Idle? || s.task[i].pc.ReadyWait? ==> s.completed < i)
  {
    hide Chains, Sound, Buffers;
  }

  lemma ReadFollows(s: State, i: nat, a: nat)
    requires TaskInv(s) && InFlight(s) && Enabled(s, Read(i, a))
    ensures Follows(s, StepRead(s, i, a))
  {
    hide TaskInv, Source, StepRead, InFlight;
    PhaseHere(s, i);
    SourceFacts(s, i, a);
    var e := Source(s, i, a);
    if e != NONE && e != i { assert SourceOk(s, i, TaskRead(s.stripe[a], e)); }
    ReadShape(s, i, a);
    hide Sized, PhaseOk, SourceOk, MayRead, Top;
    var s' := StepRead(s, i, a);
    forall k, r | 1 <= k < |s'.task| && Active(s'.task[k]) && r in s'.task[k].taskReadLog
      ensures (Active(s.task[k]) && r in s.task[k].taskReadLog) || SourceOk(s, k, r)
    {
    }
  }

  /** What a read does to the tasks. */
  lemma ReadShape(s: State, i: nat, a: nat)
    requires Sized(s) && Enabled(s, Read(i, a))
    ensures var s', e := StepRead(s, i, a), Source(s, i, a);
            && |s'.task| == |s.task| && s'.completed == s.completed
            && (forall k :: 0 <= k < |s.task| && k != i ==> s'.task[k] == s.task[k])
            && (Active(s'.task[i]) ==>
                  || s'.task[i].taskReadLog == s.task[i].taskReadLog
                  || (e != NONE && e != i && s'.task[i].taskReadLog == s.task[i].taskReadLog + [TaskRead(s.stripe[a], e)]))
  {
    hide ValidTls, Look, Source;
  }

  lemma WriteFollows(s: State, i: nat, a: nat, v: Word)
    requires TaskInv(s) && InFlight(s) && Enabled(s, Write(i, a, v))
    ensures Follows(s, StepWrite(s, i, a, v))
  {
    hide TaskInv, ValidTls, Insert;
    PhaseHere(s, i);
  }

  lemma PlainFollows(s: State, e: Event)
    requires TaskInv(s) && InFlight(s) && Enabled(s, e)
    requires e.Finish? || e.Complete? || e.Again? || e.Ready? || e.Fake? || e.Doom?
    ensures Follows(s, Step(s, e))
  {
    hide TaskInv, Passes;
    if !e.Doom? { PhaseHere(s, e.i); }
  }

  lemma IdleFollows(s: State, e: Event)
    requires TaskInv(s) && InFlight(s) && Enabled(s, e) && (e.Start? || e.Wake?)
    ensures Follows(s, Step(s, e))
  {
    hide TaskInv;
    PhaseHere(s, e.i);
  }

  /** A commit or a roll-back leaves no task active; or the commit task restarts. */
  lemma CommitSources(s: State, e: Event)
    requires TaskInv(s) && InFlight(s) && Enabled(s, e) && (e.Commit? || e.AbortCommit?) && Sources(s)
    ensures Sources(Step(s, e))
  {
    hide TaskInv, Step;
    PhaseHere(s, Last(s));
    TaskCalls.OthersCompleted(s);
    NobodyActive(s, e);
    if Step(s, e) == Restart(s, Last(s)) { SourcesFollow(s, Step(s, e)); }
  }

  lemma NobodyActive(s: State, e: Event)
    requires Sized(s) && Enabled(s, e) && (e.Commit? || e.AbortCommit?)
    requires forall k :: 1 <= k < Last(s) ==> !Active(s.task[k])
    ensures 1 <= Last(s)
    ensures Step(s, e) == Restart(s, Last(s)) || forall k :: 1 <= k < |Step(s, e).task| ==> !Active(Step(s, e).task[k])
  {
    hide Passes, UnlinkedFrom, WrittenBack, ReleasedAll, AllOps, Sized, Restart;
  }

  lemma StepSources(s: State, e: Event)
    requires TaskInv(s) && Enabled(s, e) && Sources(s)
    ensures Sources(Step(s, e))
  {
    hide TaskInv, Follows;
    FlightEvents(s, e);
    match e
    case Read(i, a) =>
      ReadFollows(s, i, a);
      SourcesFollow(s, Step(s, e));
    case Write(i, a, v) =>
      WriteFollows(s, i, a, v);
      SourcesFollow(s, Step(s, e));
    case Start(_) =>
      IdleFollows(s, e);
      SourcesFollow(s, Step(s, e));
    case Wake(_) =>
      IdleFollows(s, e);
      SourcesFollow(s, Step(s, e));
    case Commit(_) => CommitSources(s, e);
    case AbortCommit => CommitSources(s, e);
    case Next(_) =>
    case _ =>
      PlainFollows(s, e);
      SourcesFollow(s, Step(s, e));
  }

  lemma {:induction false} RunSources(s: State, run: seq<Event>, s': State)
    requires TaskInv(s) && Sources(s) && Leads(s, run, s')
    ensures Sources(s')
    decreases |run|
  {
    hide TaskInv, Sources, Step, Enabled;
    if run != [] {
      TaskStepKeeps(s, run[0]);
      StepSources(s, run[0]);
      RunSources(Step(s, run[0]), run[1..], s');
    }
  }

  lemma ReachableSources(m: Memory, s: State)
    requires Reachable(m, s)
    ensures TaskInv(s) && Sources(s)
  {
    var stripe, stripes: nat, run :| Mapped(stripe, stripes, m) && Leads(Init(stripe, stripes, m), run, s);
    var s0 := Init(stripe, stripes, m);
    assert TaskInv(s0) && Sources(s0);
    hide TaskInv, Sources, Leads;
    SpeculationRefinesProgramOrder(m, s);
    RunSources(s0, run, s);
  }

  // ---------- validation ----------

  /** No task between a source of task i and task i has written the stripe that was read. */
  ghost predicate Undisturbed(s: State, i: nat)
    requires 1 <= i < |s.task|
  {
    && (forall r :: r in s.task[i].taskReadLog ==> Untouched(s, r.x, r.serial, i))
    && (forall x :: x in s.task[i].readLog ==> Untouched(s, x, NONE, i))
  }

  /** ValidateTLS finds exactly this. */
  lemma ValidIffUndisturbed(s: State, i: nat)
    requires Sized(s) && Chains(s) && 1 <= i < |s.task|
    requires forall r :: r in s.task[i].taskReadLog ==> SourceOk(s, i, r)
    ensures ValidTls(s, i) <==> Undisturbed(s, i)
  {
    hide Top, Before, Chains;
    var t := s.task[i];
    forall n | 0 <= n < |t.taskReadLog|
      ensures StillLast(s, i, t.taskReadLog[n]) <==> Untouched(s, t.taskReadLog[n].x, t.taskReadLog[n].serial, i)
    {
      assert SourceOk(s, i, t.taskReadLog[n]);
      LastBefore(s, t.taskReadLog[n].x, t.taskReadLog[n].serial, i);
    }
    forall n | 0 <= n < |t.readLog|
      ensures StillUnwritten(s, i, t.readLog[n]) <==> Untouched(s, t.readLog[n], NONE, i)
    {
      LastBefore(s, t.readLog[n], NONE, i);
    }
  }

  lemma LastBefore(s: State, x: nat, e: Pointer, i: nat)
    requires Sized(s) && Chains(s) && 1 <= i < |s.task| && x < |s.wl| && e < i && (e != NONE ==> x in s.task[e].log)
    ensures Before(s.task, x, s.wl[x], i) == e <==> Untouched(s, x, e, i)
  {
    hide Top, Before, Chains;
    LockAt(s, x);
    BeforeIsTop(s, x, |s.task|, i);
    TopFacts(s.task, x, i);
    if Untouched(s, x, e, i) { TopIs(s.task, x, i, e); }
  }

  lemma ActiveSources(s: State, i: nat)
    requires Sources(s) && 1 <= i < |s.task| && Active(s.task[i])
    ensures forall r :: r in s.task[i].taskReadLog ==> SourceOk(s, i, r)
  {
  }

  /** Skipping the validation, when no writer has completed since, gives the same verdict. */
  lemma PassesIffUndisturbed(s: State, i: nat)
    requires TaskInv(s) && InFlight(s) && Sources(s) && 1 <= i < |s.task| && Active(s.task[i]) && s.completed == i - 1
    ensures Undisturbed(s, i) ==> Passes(s, i)
    ensures !Doomed(s) && Passes(s, i) ==> Undisturbed(s, i)
  {
    hide Chains, AllBuffers, AllPhases, Sources, Doomed, Sound, ValidTls;
    InvParts(s);
    ActiveSources(s, i);
    ValidIffUndisturbed(s, i);
    if !Doomed(s) && Passes(s, i) { PassedIsCurrent(s, i); }
  }

  // ---------- exactly when ----------

  /** Task i was told to give up a stripe. */
  predicate Told(t: Task)
  {
    t.log != map[] && t.abortTask
  }

  /** TxCommit of a task before the last: once all tasks before it have completed, it completes if it was not told
      to give up a stripe and no task between its sources and itself wrote what it read; unless the transaction can
      no longer commit, only then. It becomes last_completed_writer exactly if it wrote something. Otherwise it
      restarts, and nothing else changes but its locks. */
  lemma CompletesExactly(m: Memory, s: State, i: nat)
    requires Reachable(m, s) && Sized(s) && Enabled(s, Complete(i))
    ensures var s' := Step(s, Complete(i));
            var done := s.(task := s.task[i := s.task[i].(pc := Completed)], completed := i,
                           writer := if s.task[i].log != map[] then i else s.writer);
            && (s' == done || s' == Restart(s, i))
            && (!Told(s.task[i]) && Undisturbed(s, i) ==> s' == done)
            && (!Doomed(s) && s' == done ==> !Told(s.task[i]) && Undisturbed(s, i))
  {
    hide Reachable, TaskInv, Doomed, Undisturbed, Passes, Sources;
    ReachableSources(m, s);
    FlightEvents(s, Complete(i));
    PassesIffUndisturbed(s, i);
    assert Restart(s, i).task[i].pc.Idle?;
  }

  /** The commit task, once all others have completed: it commits exactly if neither it nor the transaction was told to
      abort, no task between its sources and itself wrote what it read, and no other program-thread has a conflict
      with what was written. Then the calls of all tasks are done, in program order, and memory is what they leave;
      the next transaction may start. Otherwise memory stays as it is. */
  lemma CommitsExactly(m: Memory, s: State, verdict: nat)
    requires Reachable(m, s) && Sized(s) && Enabled(s, Commit(verdict))
    ensures var s', n := Step(s, Commit(verdict)), Last(s);
            && (|s'.done| > |s.done| <==>
                  && !Told(s.task[n]) && !s.task[n].aborting && !s.task[n].abortTx && Undisturbed(s, n)
                  && (verdict > 0 ==> s.task[n].log == map[] && s.writer == 0))
            && (if |s'.done| > |s.done| then
                  s'.done == s.done + AllOps(s.task, n) && s'.completed == n && s'.mem == After(s.mem, s.task, n)
                else s'.done == s.done && s'.mem == s.mem && s'.completed < n)
  {
    hide Reachable, TaskInv, Doomed, Undisturbed, Passes, Sources, AllOps, WrittenBack, ReleasedAll, UnlinkedFrom, After;
    ReachableSources(m, s);
    FlightEvents(s, Commit(verdict));
    var n := Last(s);
    PassesIffUndisturbed(s, n);
    TaskCalls.AllOpsAt(s.task, n, 0);
    if !s.task[n].aborting {
      InvParts(s);
      NotDoomed(s);
    }
    if Commits(s, verdict) { CommitRefines(s, verdict); }
  }

  lemma LoggedValid(s: State, i: nat, a: nat)
    requires TaskInv(s) && InFlight(s) && Sources(s) && Enabled(s, Read(i, a)) && Source(s, i, a) != NONE && Source(s, i, a) != i
    ensures var s1 := Put(s, i, s.task[i].(taskReadLog := s.task[i].taskReadLog + [TaskRead(s.stripe[a], Source(s, i, a))]));
            Sized(s1) && (ValidTls(s1, i) <==> Undisturbed(s, i))
  {
    hide TaskInv, Chains, Sources, Source, ValidTls, Sound, AllPhases, AllBuffers;
    SourceFacts(s, i, a);
    PhaseHere(s, i);
    var t, x, e := s.task[i], s.stripe[a], Source(s, i, a);
    assert SourceOk(s, i, TaskRead(x, e)) && Untouched(s, x, e, i);
    KeepTaskRead(s, i, x, e);
    var s1 := Put(s, i, t.(taskReadLog := t.taskReadLog + [TaskRead(x, e)]));
    InvParts(s1);
    ActiveSources(s, i);
    hide Undisturbed, SourceOk, Sized, InFlight, Untouched, PhaseOk;
    forall r | r in s1.task[i].taskReadLog ensures SourceOk(s1, i, r) { SourceMore(s, s1, i, r, TaskRead(x, e)); }
    UndisturbedMore(s, s1, i, TaskRead(x, e));
    ValidIffUndisturbed(s1, i);
  }

  lemma SourceMore(s: State, s1: State, i: nat, r: TaskRead, new_: TaskRead)
    requires 1 <= i < |s.task| && s1.completed == s.completed && |s1.task| == |s.task|
    requires forall k :: 0 <= k < |s.task| ==> s1.task[k].log == s.task[k].log
    requires s1.task[i].taskReadLog == s.task[i].taskReadLog + [new_] && r in s1.task[i].taskReadLog
    requires (forall q :: q in s.task[i].taskReadLog ==> SourceOk(s, i, q)) && SourceOk(s, i, new_)
    ensures SourceOk(s1, i, r)
  {
    assert r in s.task[i].taskReadLog || r == new_;
  }

  lemma UndisturbedMore(s: State, s1: State, i: nat, r: TaskRead)
    requires 1 <= i < |s.task| == |s1.task| && Untouched(s, r.x, r.serial, i)
    requires forall k :: 0 <= k < |s.task| ==> s1.task[k].log == s.task[k].log
    requires s1.task[i].taskReadLog == s.task[i].taskReadLog + [r] && s1.task[i].readLog == s.task[i].readLog
    ensures Undisturbed(s1, i) <==> Undisturbed(s, i)
  {
    UntouchedSame(s, s1, i);
    hide Untouched;
    assert r in s1.task[i].taskReadLog;
    assert forall q :: q in s.task[i].taskReadLog ==> q in s1.task[i].taskReadLog;
    assert forall q :: q in s1.task[i].taskReadLog ==> q in s.task[i].taskReadLog || q == r;
  }

  lemma UntouchedSame(s: State, s1: State, i: nat)
    requires 1 <= i < |s.task| == |s1.task| && forall k :: 0 <= k < i ==> s1.task[k].log == s.task[k].log
    ensures forall x, e: nat :: Untouched(s1, x, e, i) <==> Untouched(s, x, e, i)
  {
  }

  /** ReadWord restarts its task exactly if the word comes from a past task, a writer has completed since, and a
      task between the sources and this one wrote what it read; otherwise it returns the word of the last past
      writer of the stripe, or its own. */
  lemma ReadsExactly(m: Memory, s: State, i: nat, a: nat)
    requires Reachable(m, s) && Sized(s) && Enabled(s, Read(i, a))
    ensures var s', e := Step(s, Read(i, a)), Source(s, i, a);
            var restarts := e != NONE && e != i && s.writer > s.task[i].lastWriter && !Undisturbed(s, i);
            && |s'.task| == |s.task| && s'.mem == s.mem && s'.done == s.done && s'.completed == s.completed && s'.writer == s.writer
            && if restarts then s'.task[i].pc.Idle? && s'.task[i].ops == []
               else s'.task[i].pc.Running? && s'.task[i].ops == s.task[i].ops + [Rd(a, After(s.mem, s.task, e)[a])]
  {
    hide Reachable, TaskInv, Undisturbed, Sources, Source, Look, ValidTls, After, AllBuffers, Chains, AllPhases, Sound, Top;
    ReachableSources(m, s);
    FlightEvents(s, Read(i, a));
    SourceFacts(s, i, a);
    var e := Source(s, i, a);
    InvParts(s);
    if e == NONE {
      assert After(s.mem, s.task, e) == s.mem by { AfterNone(s.mem, s.task); }
    } else {
      LookIs(s, e, a);
      if e != i { LoggedValid(s, i, a); }
    }
  }

  lemma AfterNone(m: Memory, task: seq<Task>)
    requires task != []
    ensures After(m, task, 0) == m
  {
  }

  lemma LookIs(s: State, e: Pointer, a: nat)
    requires Sized(s) && Chains(s) && AllBuffers(s) && a < |s.mem| && e < |s.task| && s.stripe[a] in s.task[e].log
    ensures Look(s, e, a) == After(s.mem, s.task, e)[a]
  {
    hide Chains, Look, After, Buffers;
    LookIsAfter(s, e, a);
  }

  /** The state in which a write checks its sources: the word is logged and the stripe is the task's. */
  function Pushed(s: State, i: nat, a: nat, v: Word): State
    requires 1 <= i < |s.task| && a < |s.stripe| && s.stripe[a] < |s.wl|
  {
    var x := s.stripe[a];
    Put(s, i, Buffered(s.task[i].(log := s.task[i].log[x := s.wl[x]]), a, v)).(wl := s.wl[x := i])
  }

  lemma PushedValid(s: State, i: nat, a: nat, v: Word)
    requires TaskInv(s) && InFlight(s) && Sources(s) && Enabled(s, Write(i, a, v))
    requires s.wl[s.stripe[a]] < i && s.wl[s.stripe[a]] <= s.completed
    ensures Sized(Pushed(s, i, a, v)) && (ValidTls(Pushed(s, i, a, v), i) <==> Undisturbed(s, i))
  {
    hide TaskInv, Chains, Sources, ValidTls, Sound, AllPhases, AllBuffers, Insert;
    PhaseHere(s, i);
    var x := s.stripe[a];
    KeepPush(s, i, x);
    var s1 := Put(s, i, s.task[i].(log := s.task[i].log[x := s.wl[x]])).(wl := s.wl[x := i]);
    InvParts(s1);
    ActiveSources(s, i);
    var s2 := Pushed(s, i, a, v);
    PushedSized(s1, s2, i);
    SameLogs(s1, s2);
    hide Undisturbed, Sized, InFlight, Untouched, PhaseOk;
    forall r | r in s2.task[i].taskReadLog ensures SourceOk(s2, i, r) { assert SourceOk(s, i, r); }
    hide SourceOk;
    UndisturbedSame(s, s2, i);
    ValidIffUndisturbed(s2, i);
  }

  lemma PushedSized(s: State, s': State, i: nat)
    requires Sized(s) && 1 <= i < |s.task| == |s'.task| && s' == Put(s, i, s'.task[i])
    requires s'.task[i].log == s.task[i].log && s'.task[i].readLog == s.task[i].readLog && s'.task[i].taskReadLog == s.task[i].taskReadLog
    ensures Sized(s')
  {
  }

  lemma UndisturbedSame(s: State, s1: State, i: nat)
    requires 1 <= i < |s.task| == |s1.task| && forall k :: 0 <= k < i ==> s1.task[k].log == s.task[k].log
    requires s1.task[i].taskReadLog == s.task[i].taskReadLog && s1.task[i].readLog == s.task[i].readLog
    ensures Undisturbed(s1, i) <==> Undisturbed(s, i)
  {
    UntouchedSame(s, s1, i);
  }

  lemma SameLogs(s: State, s': State)
    requires Sized(s) && Sized(s') && Chains(s) && s'.wl == s.wl && s'.completed == s.completed && |s'.task| == |s.task|
    requires forall k :: 0 <= k < |s.task| ==> s'.task[k].log == s.task[k].log
    ensures Chains(s')
  {
    ChainsSame(s, s');
  }

  /** WriteWord restarts its task exactly if it was told to, or if the stripe is that of a past task still running, or
      if a writer has completed since and a task between the sources and this one wrote what it read. It waits while
      a later task has the stripe, which is told to give it up; otherwise the word is logged. */
  lemma WritesExactly(m: Memory, s: State, i: nat, a: nat, v: Word)
    requires Reachable(m, s) && Sized(s) && Enabled(s, Write(i, a, v))
    ensures var s', t, e := Step(s, Write(i, a, v)), s.task[i], s.wl[s.stripe[a]];
            var restarts := t.abortTask || s.completed < e < i || (e < i && s.writer > t.lastWriter && !Undisturbed(s, i));
            && |s'.task| == |s.task| && s'.mem == s.mem && s'.done == s.done && s'.completed == s.completed && s'.writer == s.writer
            && if restarts then s'.task[i].pc.Idle? && s'.task[i].ops == []
               else if e > i then s' == s.(task := s.task[e := s.task[e].(abortTask := true)])
               else s'.task[i].pc.Running? && s'.task[i].ops == t.ops + [Wr(a, v, UNMASKED)] && s'.wl == s.wl[s.stripe[a] := i]
  {
    hide Reachable, TaskInv, Undisturbed, Sources, ValidTls, Insert;
    ReachableSources(m, s);
    FlightEvents(s, Write(i, a, v));
    var e := s.wl[s.stripe[a]];
    if e == i { assert s.wl[s.stripe[a] := i] == s.wl; }
    else if e < i && e <= s.completed && !s.task[i].abortTask { PushedValid(s, i, a, v); }
  }
}
