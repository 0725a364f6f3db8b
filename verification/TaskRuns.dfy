/** Every step of every task keeps the invariant; a run of committed tasks is their run in program order. */
module TaskRuns {
  import opened Words
  import opened TaskState
  import opened TaskProofs

  // ---------- what a step of one task leaves alone ----------

  /** t and u differ in the flags that other tasks set, at most. */
  predicate SameCore(t: Task, u: Task)
  {
    && u.pc == t.pc && u.lastWriter == t.lastWriter && u.readLog == t.readLog && u.taskReadLog == t.taskReadLog
    && u.log == t.log && u.buffer == t.buffer && u.ops == t.ops
  }

  /** Only task i has moved, and it had not completed. */
  ghost predicate Moves(s: State, s': State, i: nat)
  {
    && s'.stripe == s.stripe && s'.mem == s.mem && s'.completed == s.completed && s'.writer == s.writer
    && |s'.task| == |s.task| && |s'.wl| == |s.wl| && s.completed < i < |s.task|
    && forall k :: 0 <= k < |s.task| && k != i ==> SameCore(s.task[k], s'.task[k])
  }

  lemma {:induction false} AfterFrame(m: Memory, task: seq<Task>, task': seq<Task>, k: nat)
    requires k < |task| && k < |task'| && forall j :: 1 <= j <= k ==> task'[j].ops == task[j].ops
    ensures After(m, task', k) == After(m, task, k)
  {
    if k > 0 { AfterFrame(m, task, task', k - 1); }
  }

  lemma {:induction false} TopFrame(task: seq<Task>, task': seq<Task>, x: nat, k: nat)
    requires k <= |task| && k <= |task'|
    requires forall j :: 1 <= j < k ==> (x in task'[j].log <==> x in task[j].log)
    ensures Top(task', x, k) == Top(task, x, k)
  {
    if k > 1 { TopFrame(task, task', x, k - 1); }
  }

  /** What was sourced stays sourced while the completed tasks stay as they are. */
  ghost predicate Grows(t: Task, u: Task)
  {
    && (forall x :: x in t.readLog ==> x in u.readLog)
    && (forall r :: r in t.taskReadLog ==> r in u.taskReadLog)
    && (forall x :: x in t.log ==> x in u.log && u.log[x] == t.log[x])
  }

  ghost predicate SamePast(s: State, s': State)
    requires Sized(s) && Sized(s')
  {
    && s'.mem == s.mem && s'.stripe == s.stripe && s.completed <= s'.completed
    && forall k :: 0 <= k <= s.completed ==> After(s.mem, s'.task, k) == After(s.mem, s.task, k)
  }

  lemma ReadsGrow(s: State, s': State, t: Task, u: Task)
    requires Sized(s) && Sized(s') && SamePast(s, s') && Reads(s, t) && Grows(t, u) && u.ops == t.ops
    ensures Reads(s', u)
  {
    hide After, BufferOf;
    forall n | 0 <= n < |u.ops| && u.ops[n].Rd? && u.ops[n].a < |s.mem|
      ensures if u.ops[n].a in BufferOf(u.ops[..n]) then u.ops[n].v == BufferOf(u.ops[..n])[u.ops[n].a].val
              else Sourced(s', u, u.ops[n].a, u.ops[n].v)
    {
      if u.ops[n].a !in BufferOf(u.ops[..n]) {
        SourcedGrow(s, s', t, u, u.ops[n].a, u.ops[n].v);
      }
    }
  }

  lemma SourcedGrow(s: State, s': State, t: Task, u: Task, a: nat, v: Word)
    requires Sized(s) && Sized(s') && SamePast(s, s') && Grows(t, u) && a < |s.mem| && Sourced(s, t, a, v)
    ensures Sourced(s', u, a, v)
  {
    hide After;
    var x := s.stripe[a];
    if !(x in t.readLog && v == s.mem[a]) && !(x in t.log && t.log[x] <= s.completed && v == After(s.mem, s.task, t.log[x])[a]) {
      var r :| r in t.taskReadLog && r.x == x && r.serial <= s.completed && v == After(s.mem, s.task, r.serial)[a];
      assert r in u.taskReadLog && v == After(s'.mem, s'.task, r.serial)[a];
    }
  }

  lemma ReadsSnoc(s: State, t: Task, o: Op)
    requires Sized(s) && Reads(s, t) && o.a < |s.mem|
    requires o.Rd? ==> if o.a in BufferOf(t.ops) then o.v == BufferOf(t.ops)[o.a].val else Sourced(s, t, o.a, o.v)
    ensures Reads(s, t.(ops := t.ops + [o]))
  {
    hide After, BufferOf;
    var u := t.(ops := t.ops + [o]);
    forall n | 0 <= n < |u.ops| && u.ops[n].Rd? && u.ops[n].a < |s.mem|
      ensures if u.ops[n].a in BufferOf(u.ops[..n]) then u.ops[n].v == BufferOf(u.ops[..n])[u.ops[n].a].val
              else Sourced(s, u, u.ops[n].a, u.ops[n].v)
    {
      assert u.ops[..n] == t.ops[..n];
      if n == |t.ops| { assert t.ops[..n] == t.ops; }
    }
  }

  lemma MovesPast(s: State, s': State, i: nat)
    requires Sized(s) && Sized(s') && Moves(s, s', i)
    ensures SamePast(s, s')
  {
    forall k | 0 <= k <= s.completed
      ensures After(s.mem, s'.task, k) == After(s.mem, s.task, k)
    {
      AfterFrame(s.mem, s.task, s'.task, k);
    }
  }

  /** Soundness needs to be looked at for the moving task only. */
  lemma SoundMoves(s: State, s': State, i: nat)
    requires Sized(s) && Sized(s') && Moves(s, s', i) && Sound(s)
    requires Active(s'.task[i]) ==> Reads(s', s'.task[i]) && UpToDate(s', i)
    ensures Sound(s')
  {
    hide After, Legal, Reads, Sourced;
    MovesPast(s, s', i);
    forall k | s.completed < k < |s.task| && k != i && Active(s'.task[k])
      ensures Reads(s', s'.task[k]) && UpToDate(s', k)
    {
      assert SameCore(s.task[k], s'.task[k]);
      ReadsGrow(s, s', s.task[k], s'.task[k]);
    }
    forall k | 1 <= k <= s.completed
      ensures Legal(After(s'.mem, s'.task, k - 1), s'.task[k].ops)
    {
      assert SameCore(s.task[k], s'.task[k]);
    }
  }

  /** Chains depend on the logs and write locks only. */
  lemma ChainsSame(s: State, s': State)
    requires Sized(s) && Sized(s') && Chains(s) && s'.wl == s.wl && |s'.task| == |s.task| && s.completed <= s'.completed
    requires forall k :: 1 <= k < |s.task| ==> s'.task[k].log == s.task[k].log
    ensures Chains(s')
  {
    hide Top;
    forall x: nat, k: nat | k <= |s.task|
      ensures Top(s'.task, x, k) == Top(s.task, x, k)
    {
      TopFrame(s.task, s'.task, x, k);
    }
  }

  lemma DoomedMoves(s: State, s': State, i: nat)
    requires Moves(s, s', i)
    ensures Doomed(s') <==> Doomed(s)
  {
    if Doomed(s') {
      var k :| 1 <= k < |s'.task| && k <= s'.completed && s'.task[k].pc.Faked?;
      assert SameCore(s.task[k], s'.task[k]);
    }
    if Doomed(s) {
      var k :| 1 <= k < |s.task| && k <= s.completed && s.task[k].pc.Faked?;
      assert SameCore(s.task[k], s'.task[k]);
    }
  }

  // ---------- assembling ----------

  ghost predicate AllBuffers(s: State)
  {
    forall k :: 1 <= k < |s.task| ==> Buffers(s, s.task[k])
  }

  ghost predicate AllPhases(s: State)
  {
    forall k :: 1 <= k < |s.task| ==> PhaseOk(s, k)
  }

  lemma InvParts(s: State)
    requires TaskInv(s) && InFlight(s)
    ensures Sized(s) && Chains(s) && AllBuffers(s) && AllPhases(s) && (!Doomed(s) ==> Sound(s))
  {
  }

  /** The step of an uncompleted task that keeps all logs. */
  lemma KeepMove(s: State, s': State, i: nat)
    requires TaskInv(s) && InFlight(s) && Sized(s') && Moves(s, s', i) && s'.wl == s.wl
    requires s'.task[i].log == s.task[i].log && Buffers(s', s'.task[i]) && AllPhases(s')
    requires !Doomed(s) && Active(s'.task[i]) ==> Reads(s', s'.task[i]) && UpToDate(s', i)
    ensures TaskInv(s')
  {
    hide Sound, Buffers, PhaseOk, Chains, Reads, UpToDate, Doomed;
    InvParts(s);
    forall k | 1 <= k < |s.task|
      ensures s'.task[k].log == s.task[k].log && Buffers(s', s'.task[k])
    {
      if k != i { BuffersSame(s, s', k); }
    }
    ChainsSame(s, s');
    DoomedMoves(s, s', i);
    if !Doomed(s) { SoundMoves(s, s', i); }
  }

  lemma BuffersSame(s: State, s': State, k: nat)
    requires k < |s.task| && k < |s'.task| && Buffers(s, s.task[k]) && s'.task[k].ops == s.task[k].ops
    requires s'.task[k].buffer == s.task[k].buffer && s'.task[k].log == s.task[k].log
    requires s'.mem == s.mem && s'.stripe == s.stripe
    ensures Buffers(s', s'.task[k])
  {
  }

  lemma PhasesMove(s: State, s': State, i: nat)
    requires AllPhases(s) && Moves(s, s', i) && PhaseOk(s', i)
    requires forall k :: 1 <= k < Last(s) && k != i ==> s'.task[k].aborting == s.task[k].aborting
    requires s.task[Last(s)].aborting ==> s'.task[Last(s)].aborting
    ensures AllPhases(s')
  {
    forall k | 1 <= k < |s'.task|
      ensures PhaseOk(s', k)
    {
      assert PhaseOk(s, k) && (k != i ==> SameCore(s.task[k], s'.task[k]));
    }
  }

  /** A task that is not waiting for the commit has not completed. */
  lemma NotCompleted(s: State, i: nat)
    requires AllPhases(s) && 1 <= i < |s.task| && !s.task[i].pc.Completed? && !s.task[i].pc.Faked?
    ensures s.completed < i
  {
    assert PhaseOk(s, i);
  }

  // ---------- steps that keep the logs ----------

  lemma KeepStart(s: State, i: nat)
    requires TaskInv(s) && Enabled(s, Start(i)) && InFlight(s)
    ensures TaskInv(StepStart(s, i))
  {
    hide Sound, Chains, Doomed;
    InvParts(s);
    NotCompleted(s, i);
    var s' := StepStart(s, i);
    assert PhaseOk(s, i);
    PhasesMove(s, s', i);
    KeepMove(s, s', i);
  }

  lemma KeepFinish(s: State, i: nat)
    requires TaskInv(s) && Enabled(s, Finish(i)) && InFlight(s)
    ensures TaskInv(StepFinish(s, i))
  {
    hide Chains, Doomed, Sound, Reads, UpToDate;
    InvParts(s);
    NotCompleted(s, i);
    var s' := StepFinish(s, i);
    assert PhaseOk(s, i);
    PhasesMove(s, s', i);
    if !Doomed(s) { Known(s, i); SameKnown(s, s', i); }
    KeepMove(s, s', i);
  }

  lemma Known(s: State, i: nat)
    requires Sized(s) && Sound(s) && s.completed < i < |s.task| && Active(s.task[i])
    ensures Reads(s, s.task[i]) && UpToDate(s, i)
  {
  }

  /** Nothing that a task relies on has changed. */
  lemma SameKnown(s: State, s': State, i: nat)
    requires Sized(s) && Sized(s') && Moves(s, s', i) && Reads(s, s.task[i]) && UpToDate(s, i)
    requires Grows(s.task[i], s'.task[i]) && s'.task[i].ops == s.task[i].ops && s'.task[i].lastWriter == s.task[i].lastWriter
    requires s'.task[i].readLog == s.task[i].readLog && s'.task[i].taskReadLog == s.task[i].taskReadLog
    ensures Reads(s', s'.task[i]) && UpToDate(s', i)
  {
    hide Reads;
    MovesPast(s, s', i);
    ReadsGrow(s, s', s.task[i], s'.task[i]);
    assert forall k :: 1 <= k <= s.completed ==> SameCore(s.task[k], s'.task[k]);
  }

  /** Flags change: nobody's core does. */
  lemma KeepFlags(s: State, s': State)
    requires TaskInv(s) && InFlight(s) && Sized(s') && s'.wl == s.wl && |s'.task| == |s.task|
    requires s'.stripe == s.stripe && s'.mem == s.mem && s'.completed == s.completed && s'.writer == s.writer
    requires forall k :: 0 <= k < |s.task| ==> SameCore(s.task[k], s'.task[k]) && s'.task[k].aborting == s.task[k].aborting
    ensures TaskInv(s')
  {
    hide Chains, Doomed, Sound, Reads, UpToDate;
    InvParts(s);
    var i := Last(s);
    assert PhaseOk(s, i) && SameCore(s.task[i], s'.task[i]);
    PhasesMove(s, s', i);
    if !Doomed(s) && Active(s.task[i]) { Known(s, i); SameKnown(s, s', i); }
    BuffersSame(s, s', i);
    KeepMove(s, s', i);
  }

  lemma KeepReady(s: State, i: nat)
    requires TaskInv(s) && Enabled(s, Ready(i)) && InFlight(s)
    ensures TaskInv(StepReady(s, i))
  {
    hide Chains, Doomed, Sound, Reads, UpToDate;
    InvParts(s);
    NotCompleted(s, i);
    var s' := StepReady(s, i);
    assert PhaseOk(s, i);
    PhasesMove(s, s', i);
    KeepMove(s, s', i);
  }

  lemma KeepWake(s: State, i: nat)
    requires TaskInv(s) && Enabled(s, Wake(i)) && InFlight(s)
    ensures TaskInv(StepWake(s, i))
  {
    hide Chains, Doomed, Sound, Reads, UpToDate;
    InvParts(s);
    var s' := StepWake(s, i);
    assert PhaseOk(s, i);
    assert s'.wl == s.wl;
    PhasesMove(s, s', i);
    KeepMove(s, s', i);
  }

  // ---------- reads and writes ----------

  /** One more read, of the task's own word or of what its source left behind. */
  lemma KeepLogRead(s: State, i: nat, a: nat, v: Word)
    requires TaskInv(s) && InFlight(s) && 1 <= i < |s.task| && s.task[i].pc.Running? && a < |s.mem|
    requires !Doomed(s) ==>
               if a in s.task[i].buffer then v == s.task[i].buffer[a].val else Sourced(s, s.task[i], a, v)
    ensures TaskInv(Put(s, i, Log(s.task[i], Rd(a, v))))
  {
    hide Chains, Doomed, Sound, Reads, UpToDate, Sourced, BufferOf;
    InvParts(s);
    NotCompleted(s, i);
    var t := s.task[i];
    var s' := Put(s, i, Log(t, Rd(a, v)));
    assert PhaseOk(s, i) && Buffers(s, t);
    BufferSnoc(t.ops, Rd(a, v));
    PhasesMove(s, s', i);
    if !Doomed(s) {
      Known(s, i);
      ReadsSnoc(s, t, Rd(a, v));
      LogKnown(s, s', i);
    }
    KeepMove(s, s', i);
  }

  lemma LogKnown(s: State, s': State, i: nat)
    requires Sized(s) && Sized(s') && Moves(s, s', i) && UpToDate(s, i)
    requires s'.task[i].lastWriter == s.task[i].lastWriter
    requires s'.task[i].readLog == s.task[i].readLog && s'.task[i].taskReadLog == s.task[i].taskReadLog
    requires Reads(s, s'.task[i])
    ensures Reads(s', s'.task[i]) && UpToDate(s', i)
  {
    hide Reads;
    MovesPast(s, s', i);
    ReadsGrow(s, s', s'.task[i], s'.task[i]);
    assert forall k :: 1 <= k <= s.completed ==> SameCore(s.task[k], s'.task[k]);
  }

  /** One more write, to a stripe the task has locked. */
  lemma KeepLogWrite(s: State, i: nat, a: nat, v: Word)
    requires TaskInv(s) && InFlight(s) && 1 <= i < |s.task| && s.task[i].pc.Running? && a < |s.mem|
    requires s.stripe[a] in s.task[i].log
    ensures TaskInv(Put(s, i, Buffered(s.task[i], a, v)))
  {
    hide Chains, Doomed, Sound, Reads, UpToDate, BufferOf, AllPhases, Insert;
    InvParts(s);
    NotCompleted(s, i);
    var t := s.task[i];
    var s' := Put(s, i, Buffered(t, a, v));
    assert Buffers(s, t);
    BufferSnoc(t.ops, Wr(a, v, UNMASKED));
    InsertKeys(t.buffer, a, v);
    RunningPhase(s, s', i);
    PhasesMove(s, s', i);
    if !Doomed(s) {
      Known(s, i);
      ReadsSnoc(s, t, Wr(a, v, UNMASKED));
      BufferUnread(s, t, t.ops + [Wr(a, v, UNMASKED)], s'.task[i].buffer);
      LogKnown(s, s', i);
    }
    KeepMove(s, s', i);
  }

  lemma InsertKeys(b: Buffer, a: nat, v: Word)
    ensures forall c :: c in Insert(b, a, v, UNMASKED) <==> c in b || c == a
  {
  }

  lemma RunningPhase(s: State, s': State, i: nat)
    requires AllPhases(s) && 1 <= i < |s.task| && s.task[i].pc.Running?
    requires |s'.task| == |s.task| && s'.completed == s.completed && s'.task[i].pc.Running? && s'.task[i].aborting == s.task[i].aborting
    ensures PhaseOk(s', i)
  {
    assert PhaseOk(s, i);
  }

  /** Reads does not look at the buffer field. */
  lemma BufferUnread(s: State, t: Task, ops: seq<Op>, b: Buffer)
    requires Sized(s) && Reads(s, t.(ops := ops))
    ensures Reads(s, t.(ops := ops, buffer := b))
  {
    hide After, BufferOf;
    assert forall a: nat, v :: a < |s.mem| && Sourced(s, t.(ops := ops), a, v) ==> Sourced(s, t.(ops := ops, buffer := b), a, v);
  }

  // ---------- locking a stripe ----------

  /** The new entry goes on top of the chain, over a completed writer or nothing. */
  lemma PushChains(s: State, s': State, i: nat, x: nat)
    requires Sized(s) && Sized(s') && Chains(s) && s.completed < i < |s.task| && x < |s.wl|
    requires s.wl[x] <= s.completed && |s'.task| == |s.task| && s'.completed == s.completed
    requires s'.wl == s.wl[x := i] && s'.task[i].log == s.task[i].log[x := s.wl[x]]
    requires forall k :: 1 <= k < |s.task| && k != i ==> s'.task[k].log == s.task[k].log
    ensures Chains(s')
  {
    hide Top;
    var e := s.wl[x];
    TopFacts(s.task, x, |s.task|);
    TopIs(s.task, x, i, e);
    forall y: nat, k: nat | 1 <= k <= |s.task|
      ensures Top(s'.task, y, k) == if y == x && k > i then i else Top(s.task, y, k)
    {
      PushTop(s.task, s'.task, i, x, y, k);
    }
    hide Sized;
    forall j, k, y | 1 <= j < k < |s.task| && y in s'.task[j].log && y in s'.task[k].log
      ensures j <= s.completed
    {
      PushOpen(s, s', i, x, j, k, y);
    }
  }

  lemma PushOpen(s: State, s': State, i: nat, x: nat, j: nat, k: nat, y: nat)
    requires Sized(s) && Chains(s) && s.completed < i < |s.task| && x < |s.wl| && s.wl[x] <= s.completed
    requires |s'.task| == |s.task| && s'.task[i].log == s.task[i].log[x := s.wl[x]]
    requires forall k :: 1 <= k < |s.task| && k != i ==> s'.task[k].log == s.task[k].log
    requires 1 <= j < k < |s.task| && y in s'.task[j].log && y in s'.task[k].log
    ensures j <= s.completed
  {
    hide Top;
    var e := s.wl[x];
    TopFacts(s.task, x, |s.task|);
    assert y == x ==> e < i && (k == i || x in s.task[k].log);
  }

  lemma PushTop(task: seq<Task>, task': seq<Task>, i: nat, x: nat, y: nat, k: nat)
    requires 1 <= i < |task| && 1 <= k <= |task| && |task'| == |task| && Top(task, x, |task|) < i
    requires forall z :: z in task'[i].log <==> z in task[i].log || z == x
    requires forall j :: 1 <= j < |task| && j != i ==> task'[j].log == task[j].log
    ensures Top(task', y, k) == if y == x && k > i then i else Top(task, y, k)
  {
    var e := Top(task, x, |task|);
    TopFacts(task, x, |task|);
    if y == x && k > i { TopIs(task', x, k, i); } else { TopFrame(task, task', y, k); }
  }

  lemma KeepPush(s: State, i: nat, x: nat)
    requires TaskInv(s) && InFlight(s) && 1 <= i < |s.task| && s.task[i].pc.Running? && x < |s.wl|
    requires s.wl[x] <= s.completed
    ensures TaskInv(Put(s, i, s.task[i].(log := s.task[i].log[x := s.wl[x]])).(wl := s.wl[x := i]))
    ensures x !in s.task[i].log
  {
    hide Chains, Doomed, Sound, Reads, UpToDate, AllPhases, Buffers;
    InvParts(s);
    NotCompleted(s, i);
    NotLocked(s, i, x);
    var t := s.task[i];
    var s' := Put(s, i, t.(log := t.log[x := s.wl[x]])).(wl := s.wl[x := i]);
    RunningPhase(s, s', i);
    PhasesMove(s, s', i);
    PushChains(s, s', i, x);
    if !Doomed(s) { Known(s, i); SameKnown(s, s', i); }
    KeepCore(s, s', i);
  }

  lemma NotLocked(s: State, i: nat, x: nat)
    requires Sized(s) && Chains(s) && s.completed < i < |s.task| && x < |s.wl| && s.wl[x] < i
    ensures x !in s.task[i].log
  {
    TopFacts(s.task, x, |s.task|);
  }

  /** The step of an uncompleted task that keeps its buffer, whatever happens to its locks. */
  lemma KeepCore(s: State, s': State, i: nat)
    requires TaskInv(s) && InFlight(s) && Sized(s') && Moves(s, s', i) && Chains(s') && AllPhases(s')
    requires (s'.task[i].buffer == s.task[i].buffer && s'.task[i].ops == s.task[i].ops && Grows(s.task[i], s'.task[i]))
             || (s'.task[i].buffer == map[] && s'.task[i].ops == [])
    requires !Doomed(s) && Active(s'.task[i]) ==> Reads(s', s'.task[i]) && UpToDate(s', i)
    ensures TaskInv(s')
  {
    hide Sound, PhaseOk, Chains, Reads, UpToDate, Doomed;
    InvParts(s);
    forall k | 1 <= k < |s.task|
      ensures Buffers(s', s'.task[k])
    {
      assert Buffers(s, s.task[k]);
      if k != i { BuffersSame(s, s', k); }
    }
    DoomedMoves(s, s', i);
    if !Doomed(s) { SoundMoves(s, s', i); }
  }

  // ---------- restarting ----------

  /** The entries of an uncompleted task are the latest of their chains, so unlinking them is safe. */
  lemma UnlinkChains(s: State, s': State, i: nat)
    requires Sized(s) && Sized(s') && Chains(s) && s.completed < i < |s.task|
    requires |s'.task| == |s.task| && s'.completed == s.completed
    requires s'.wl == Unlinked(s.wl, s.task[i].log) && s'.task[i].log == map[]
    requires forall k :: 1 <= k < |s.task| && k != i ==> s'.task[k].log == s.task[k].log
    ensures Chains(s')
  {
    hide Top;
    forall y, k | 0 <= y < |s.wl| && 1 <= k <= |s.task|
      ensures Top(s'.task, y, k) == if y in s.task[i].log && k > i then Top(s.task, y, i) else Top(s.task, y, k)
    {
      var e := Top(s.task, y, i);
      if y in s.task[i].log && k > i {
        TopFacts(s.task, y, i);
        TopIs(s'.task, y, k, e);
      } else {
        TopFrame(s.task, s'.task, y, k);
      }
    }
  }

  lemma KeepRestart(s: State, i: nat)
    requires TaskInv(s) && InFlight(s) && 1 <= i < |s.task| && Active(s.task[i])
    ensures TaskInv(Restart(s, i))
  {
    hide Chains, Doomed, Sound, Reads, UpToDate, Buffers, AllPhases;
    InvParts(s);
    NotCompleted(s, i);
    var s' := Restart(s, i);
    RestartPhase(s, i);
    PhasesMove(s, s', i);
    UnlinkChains(s, s', i);
    KeepCore(s, s', i);
  }

  lemma RestartPhase(s: State, i: nat)
    requires AllPhases(s) && 1 <= i < |s.task| && Active(s.task[i])
    ensures PhaseOk(Restart(s, i), i)
  {
    assert PhaseOk(s, i);
  }

  // ---------- extension ----------

  /** If validation passes, everything read is up to date with the last completed writer. */
  lemma KeepExtended(s: State, i: nat)
    requires TaskInv(s) && InFlight(s) && 1 <= i < |s.task| && s.task[i].pc.Running?
    ensures TaskInv(Extended(s, i)) && InFlight(Extended(s, i))
  {
    hide Chains, Doomed, Sound, Reads, UpToDate, Buffers, AllPhases, ValidTls;
    InvParts(s);
    if s.writer > s.task[i].lastWriter {
      if ValidTls(s, i) {
        NotCompleted(s, i);
        var s' := Put(s, i, s.task[i].(lastWriter := s.writer));
        RunningPhase(s, s', i);
        PhasesMove(s, s', i);
        ChainsSame(s, s');
        if !Doomed(s) {
          Known(s, i);
          MovesPast(s, s', i);
          ReadsGrow(s, s', s.task[i], s'.task[i]);
          ExtendedUpToDate(s, s', i);
        }
        KeepCore(s, s', i);
      } else {
        KeepRestart(s, i);
      }
    }
  }

  lemma ExtendedUpToDate(s: State, s': State, i: nat)
    requires Sized(s) && Chains(s) && 1 <= i < |s.task| && ValidTls(s, i) && s' == Put(s, i, s.task[i].(lastWriter := s.writer))
    ensures UpToDate(s', i)
  {
    hide Top, Before;
    var t := s.task[i];
    forall r, j | r in t.taskReadLog && r.serial < j < i && j <= s.writer && j <= s.completed
      ensures r.x !in s.task[j].log
    {
      var n :| 0 <= n < |t.taskReadLog| && t.taskReadLog[n] == r;
      assert StillLast(s, i, t.taskReadLog[n]);
      BeforeIsTop(s, r.x, |s.task|, i);
      TopFacts(s.task, r.x, i);
    }
    forall x, j | x in t.readLog && 1 <= j < i && j <= s.writer && j <= s.completed
      ensures x !in s.task[j].log
    {
      var n :| 0 <= n < |t.readLog| && t.readLog[n] == x;
      assert StillUnwritten(s, i, t.readLog[n]);
      BeforeIsTop(s, x, |s.task|, i);
      TopFacts(s.task, x, i);
    }
  }

  // ---------- ReadWordInner ----------

  /** The walk leads to the last writer up to i; the task's own words are in its own entry. */
  lemma SourceFacts(s: State, i: nat, a: nat)
    requires TaskInv(s) && InFlight(s) && 1 <= i < |s.task| && a < |s.mem|
    ensures var x, e := s.stripe[a], Source(s, i, a);
            && e == Top(s.task, x, i + 1) && e <= i
            && (e != NONE ==> x in s.task[e].log)
            && (forall j :: e < j <= i ==> x !in s.task[j].log)
            && (a in s.task[i].buffer ==> e == i)
  {
    hide TaskInv, Sound, PhaseOk, Before, Top, BufferOf, Buffers, Chains, Through, AllPhases, Doomed, Sized;
    InvParts(s);
    StripeAt(s, a);
    LockAt(s, s.stripe[a]);
    BeforeIsTop(s, s.stripe[a], |s.task|, i + 1);
    TopFacts(s.task, s.stripe[a], i + 1);
    BufferWord(s, s.task[i], a, s.mem[a]);
  }

  lemma LoggedSized(s: State, s': State, i: nat)
    requires Sized(s) && 1 <= i < |s.task| && |s'.task| == |s.task| && s' == Put(s, i, s'.task[i])
    requires s'.task[i].log == s.task[i].log
    requires s'.task[i].readLog == s.task[i].readLog
             || exists x :: x < |s.wl| && s'.task[i].readLog == s.task[i].readLog + [x]
    requires s'.task[i].taskReadLog == s.task[i].taskReadLog
             || exists r: TaskRead :: r.x < |s.wl| && s'.task[i].taskReadLog == s.task[i].taskReadLog + [r]
    ensures Sized(s')
  {
  }

  /** A new entry of a read log is up to date. */
  lemma LoggedUpToDate(s: State, s': State, i: nat)
    requires 1 <= i < |s.task| && UpToDate(s, i) && |s'.task| == |s.task| && s' == Put(s, i, s'.task[i])
    requires s'.task[i].lastWriter == s.task[i].lastWriter
    requires forall x :: x in s'.task[i].readLog ==> x in s.task[i].readLog || forall j :: 1 <= j < i ==> x !in s.task[j].log
    requires forall r :: r in s'.task[i].taskReadLog ==>
               r in s.task[i].taskReadLog || forall j :: r.serial < j < i ==> r.x !in s.task[j].log
    ensures UpToDate(s', i)
  {
  }

  /** A read from committed memory is logged. */
  lemma KeepReadLog(s: State, i: nat, x: nat)
    requires TaskInv(s) && InFlight(s) && 1 <= i < |s.task| && s.task[i].pc.Running? && x < |s.wl|
    requires forall j :: 1 <= j < i ==> x !in s.task[j].log
    ensures TaskInv(Put(s, i, s.task[i].(readLog := s.task[i].readLog + [x])))
  {
    hide Chains, Doomed, Sound, Reads, Buffers, AllPhases, UpToDate, Sized;
    InvParts(s);
    NotCompleted(s, i);
    var s' := Put(s, i, s.task[i].(readLog := s.task[i].readLog + [x]));
    LoggedSized(s, s', i);
    RunningPhase(s, s', i);
    PhasesMove(s, s', i);
    ChainsSame(s, s');
    if !Doomed(s) {
      Known(s, i);
      MovesPast(s, s', i);
      ReadsGrow(s, s', s.task[i], s'.task[i]);
      LoggedUpToDate(s, s', i);
    }
    KeepCore(s, s', i);
  }

  /** So is one from a past task. */
  lemma KeepTaskRead(s: State, i: nat, x: nat, e: nat)
    requires TaskInv(s) && InFlight(s) && 1 <= i < |s.task| && s.task[i].pc.Running? && x < |s.wl|
    requires forall j :: e < j < i ==> x !in s.task[j].log
    ensures TaskInv(Put(s, i, s.task[i].(taskReadLog := s.task[i].taskReadLog + [TaskRead(x, e)])))
  {
    hide Chains, Doomed, Sound, Reads, Buffers, AllPhases, UpToDate, Sized;
    InvParts(s);
    NotCompleted(s, i);
    var s' := Put(s, i, s.task[i].(taskReadLog := s.task[i].taskReadLog + [TaskRead(x, e)]));
    LoggedSized(s, s', i);
    RunningPhase(s, s', i);
    PhasesMove(s, s', i);
    ChainsSame(s, s');
    if !Doomed(s) {
      Known(s, i);
      MovesPast(s, s', i);
      ReadsGrow(s, s', s.task[i], s'.task[i]);
      LoggedUpToDate(s, s', i);
    }
    KeepCore(s, s', i);
  }

  lemma KeepReadMemory(s: State, i: nat, a: nat)
    requires TaskInv(s) && InFlight(s) && Enabled(s, Read(i, a)) && Source(s, i, a) == NONE
    ensures TaskInv(StepRead(s, i, a))
  {
    hide Chains, Doomed, Sound, Reads, Buffers, AllPhases, PhaseOk, Source;
    SourceFacts(s, i, a);
    var t := s.task[i];
    KeepReadLog(s, i, s.stripe[a]);
    var s1 := Put(s, i, t.(readLog := t.readLog + [s.stripe[a]]));
    assert s1.task[i].readLog[|t.readLog|] == s.stripe[a];
    KeepLogRead(s1, i, a, s.mem[a]);
    assert StepRead(s, i, a).task == Put(s1, i, Log(s1.task[i], Rd(a, s.mem[a]))).task;
  }

  lemma KeepReadOwn(s: State, i: nat, a: nat)
    requires TaskInv(s) && InFlight(s) && Enabled(s, Read(i, a)) && Source(s, i, a) == i
    ensures TaskInv(StepRead(s, i, a))
  {
    hide Doomed, Sound, Reads, BufferOf, AllPhases, PhaseOk, Source, After, Older, Top;
    SourceFacts(s, i, a);
    var t, x := s.task[i], s.stripe[a];
    BufferWord(s, t, a, s.mem[a]);
    if a !in t.buffer {
      OlderIsTop(s, x, i);
      TopFacts(s.task, x, i);
      LookIsAfter(s, Top(s.task, x, i), a);
    }
    KeepLogRead(s, i, a, Look(s, i, a));
  }

  lemma KeepReadPast(s: State, i: nat, a: nat)
    requires TaskInv(s) && InFlight(s) && Enabled(s, Read(i, a)) && Source(s, i, a) != i && Source(s, i, a) != NONE
    ensures TaskInv(StepRead(s, i, a))
  {
    hide Chains, Doomed, Sound, Reads, Buffers, AllPhases, PhaseOk, Source, After, Look, TaskInv;
    InvParts(s);
    NotCompleted(s, i);
    SourceFacts(s, i, a);
    var t, x, e := s.task[i], s.stripe[a], Source(s, i, a);
    var v := Look(s, e, a);
    PastLook(s, e, a);
    KeepTaskRead(s, i, x, e);
    var s1 := Put(s, i, t.(taskReadLog := t.taskReadLog + [TaskRead(x, e)]));
    InvParts(s1);
    KeepExtended(s1, i);
    var s2 := Extended(s1, i);
    InvParts(s2);
    if !s2.task[i].pc.Idle? {
      PastSourced(s, i, a, e, v, s2);
      KeepLogRead(s2, i, a, v);
    }
  }

  lemma PastLook(s: State, e: Pointer, a: nat)
    requires TaskInv(s) && InFlight(s) && a < |s.mem| && 1 <= e < |s.task| && s.stripe[a] in s.task[e].log
    ensures Look(s, e, a) == After(s.mem, s.task, e)[a]
  {
    hide Doomed, Sound, BufferOf, PhaseOk;
    LookIsAfter(s, e, a);
  }

  lemma PastSourced(s: State, i: nat, a: nat, e: nat, v: Word, s2: State)
    requires Sized(s) && InFlight(s) && 1 <= i < |s.task| && a < |s.mem| && 1 <= e <= s.completed < i && a !in s.task[i].buffer
    requires v == After(s.mem, s.task, e)[a]
    requires |s2.task| == |s.task| && s2 == Put(s, i, s2.task[i]) && Sized(s2)
    requires TaskRead(s.stripe[a], e) in s2.task[i].taskReadLog && s2.task[i].buffer == s.task[i].buffer
    ensures a !in s2.task[i].buffer && Sourced(s2, s2.task[i], a, v)
  {
    AfterFrame(s.mem, s.task, s2.task, e);
  }

  // ---------- LockMemoryStripe ----------

  lemma KeepWrite(s: State, i: nat, a: nat, v: Word)
    requires TaskInv(s) && InFlight(s) && Enabled(s, Write(i, a, v))
    ensures TaskInv(StepWrite(s, i, a, v))
  {
    hide Chains, Doomed, Sound, Reads, Buffers, AllPhases, PhaseOk, UpToDate, TaskInv;
    InvParts(s);
    var t, x := s.task[i], s.stripe[a];
    var e := s.wl[x];
    if t.abortTask {
      KeepRestart(s, i);
    } else if e == i {
      OwnLocked(s, i, x);
      KeepLogWrite(s, i, a, v);
    } else if e > i {
      KeepFlags(s, Put(s, e, s.task[e].(abortTask := true)));
    } else if e > s.completed {
      KeepRestart(s, i);
    } else {
      KeepPush(s, i, x);
      var s1 := Put(s, i, t.(log := t.log[x := e])).(wl := s.wl[x := i]);
      KeepLogWrite(s1, i, a, v);
      var s2 := Put(s1, i, Buffered(s1.task[i], a, v));
      assert s2.task == Put(s, i, Buffered(t.(log := t.log[x := e]), a, v)).task;
      KeepExtended(s2, i);
    }
  }

  lemma OwnLocked(s: State, i: nat, x: nat)
    requires Sized(s) && Chains(s) && 1 <= i < |s.task| && x < |s.wl| && s.wl[x] == i
    ensures x in s.task[i].log
  {
    TopFacts(s.task, x, |s.task|);
  }

  // ---------- completion ----------

  /** The task after the last completed one becomes completed. */
  ghost predicate Completes(s: State, s': State, i: nat)
  {
    && s'.stripe == s.stripe && s'.mem == s.mem && s'.wl == s.wl && s'.completed == i == s.completed + 1
    && i < Last(s) && |s'.task| == |s.task| && s'.task == s.task[i := s'.task[i]]
    && (s'.task[i].pc.Completed? || s'.task[i].pc.Faked?)
    && s'.task[i] == s.task[i].(pc := s'.task[i].pc)
  }

  lemma CompletesPast(s: State, s': State, i: nat)
    requires Sized(s) && Sized(s') && Completes(s, s', i)
    ensures SamePast(s, s')
    ensures forall k :: 0 <= k <= i ==> After(s.mem, s'.task, k) == After(s.mem, s.task, k)
  {
    forall k | 0 <= k <= i
      ensures After(s.mem, s'.task, k) == After(s.mem, s.task, k)
    {
      AfterFrame(s.mem, s.task, s'.task, k);
    }
  }

  lemma PhasesComplete(s: State, s': State, i: nat)
    requires Sized(s) && InFlight(s) && AllPhases(s) && Completes(s, s', i) && (Active(s.task[i]) || s.task[i].pc.ReadyWait?)
    requires s'.task[i].pc.Faked? ==> s.task[Last(s)].aborting
    ensures AllPhases(s')
  {
    forall k | 1 <= k < |s'.task|
      ensures PhaseOk(s', k)
    {
      assert PhaseOk(s, k) && PhaseOk(s, i);
    }
  }

  /** Reads of other tasks stay up to date when a task completes: it is later than their last_writer. */
  lemma SoundComplete(s: State, s': State, i: nat)
    requires Sized(s) && Sized(s') && Sound(s) && Completes(s, s', i) && s'.task[i].pc.Completed?
    requires s'.writer == if s.task[i].log != map[] then i else s.writer
    requires Legal(After(s.mem, s.task, i - 1), s.task[i].ops)
    ensures Sound(s')
  {
    hide After, Legal, Reads, Sourced;
    CompletesPast(s, s', i);
    forall k | s'.completed < k < |s'.task| && Active(s'.task[k])
      ensures Reads(s', s'.task[k]) && UpToDate(s', k)
    {
      ReadsGrow(s, s', s.task[k], s'.task[k]);
      assert UpToDate(s, k);
    }
    forall k | 1 <= k <= s'.completed
      ensures Legal(After(s'.mem, s'.task, k - 1), s'.task[k].ops)
    {
    }
  }

  lemma KeepComplete(s: State, i: nat)
    requires TaskInv(s) && InFlight(s) && Enabled(s, Complete(i))
    ensures TaskInv(StepComplete(s, i))
  {
    hide Chains, Doomed, Sound, Reads, Buffers, AllPhases, PhaseOk, UpToDate, TaskInv, Passes, Sized;
    InvParts(s);
    if (s.task[i].log != map[] && s.task[i].abortTask) || !Passes(s, i) {
      KeepRestart(s, i);
    } else {
      var s' := StepComplete(s, i);
      assert Sized(s') by { CompleteSized(s, i); }
      PhasesComplete(s, s', i);
      ChainsSame(s, s');
      if !Doomed(s) {
        CurrentReads(s, i);
        SoundComplete(s, s', i);
      }
      KeepCompleted(s, s', i);
    }
  }

  lemma CompleteSized(s: State, i: nat)
    requires Sized(s) && Enabled(s, Complete(i)) && Passes(s, i)
    ensures Sized(StepComplete(s, i))
  {
    hide Passes;
  }

  lemma KeepCompleted(s: State, s': State, i: nat)
    requires TaskInv(s) && InFlight(s) && Sized(s') && Completes(s, s', i) && Chains(s') && AllPhases(s')
    requires s'.task[i].pc.Completed? && !Doomed(s) ==> Sound(s')
    ensures TaskInv(s')
  {
    hide Chains, Sound, Reads, PhaseOk, UpToDate;
    forall k | 1 <= k < |s.task|
      ensures Buffers(s', s'.task[k])
    {
      assert Buffers(s, s.task[k]);
      BuffersSame(s, s', k);
    }
    if Doomed(s) {
      var k :| 1 <= k < |s.task| && k <= s.completed && s.task[k].pc.Faked?;
      assert s'.task[k].pc.Faked?;
    }
    assert s'.task[i].pc.Faked? ==> Doomed(s');
  }

  lemma KeepFake(s: State, i: nat)
    requires TaskInv(s) && InFlight(s) && Enabled(s, Fake(i))
    ensures TaskInv(StepFake(s, i))
  {
    hide Chains, Doomed, Sound, Reads, Buffers, AllPhases, UpToDate;
    InvParts(s);
    var s' := StepFake(s, i);
    assert Sized(s');
    assert s.task[Last(s)].aborting by { assert PhaseOk(s, i); }
    PhasesComplete(s, s', i);
    ChainsSame(s, s');
    KeepCompleted(s, s', i);
  }

  // ---------- RollbackTransaction ----------

  lemma EntryAt(s: State, k: nat, x: nat)
    requires Sized(s) && Chains(s) && 1 <= k < |s.task|
    ensures x in s.task[k].log ==> s.task[k].log[x] == Top(s.task, x, k)
  {
    hide Top;
  }

  lemma LockAt(s: State, x: nat)
    requires Sized(s) && Chains(s) && x < |s.wl|
    ensures s.wl[x] == Top(s.task, x, |s.task|)
  {
    hide Top;
  }

  /** Unlinking the entries of tasks first..last, latest first, leaves the chain of the tasks before first. */
  lemma {:induction false} UnlinkedFromIs(s: State, wl: seq<Pointer>, first: nat, last: nat, x: nat)
    requires Sized(s) && Chains(s) && 1 <= first && last < |s.task| && |wl| == |s.wl| && x < |wl|
    requires wl[x] == Top(s.task, x, last + 1)
    ensures UnlinkedFrom(wl, s.task, first, last)[x] == Top(s.task, x, if first <= last then first else last + 1)
    decreases last
  {
    hide Sized, Chains;
    if first <= last {
      EntryAt(s, last, x);
      UnlinkedFromIs(s, Unlinked(wl, s.task[last].log), first, last - 1, x);
    }
  }

  lemma {:induction false} TopEmptied(task: seq<Task>, task': seq<Task>, x: nat, first: nat, k: nat)
    requires 1 <= first <= k <= |task| && |task'| == |task|
    requires forall j :: 1 <= j < first ==> task'[j].log == task[j].log
    requires forall j :: first <= j < |task| ==> task'[j].log == map[]
    ensures Top(task', x, k) == Top(task, x, first)
  {
    TopFacts(task, x, first);
    TopIs(task', x, k, Top(task, x, first));
  }

  lemma RolledBackChains(s: State, first: nat)
    requires Sized(s) && Chains(s) && 1 <= first <= Last(s)
    ensures Sized(RolledBack(s, first)) && Chains(RolledBack(s, first))
  {
    hide Top;
    var s' := RolledBack(s, first);
    forall x | 0 <= x < |s.wl|
      ensures s'.wl[x] == Top(s.task, x, first) == Top(s'.task, x, |s.task|)
    {
      UnlinkedFromIs(s, s.wl, first, Last(s), x);
      TopEmptied(s.task, s'.task, x, first, |s.task|);
    }
    assert Sized(s');
    forall k, x | 1 <= k < |s.task| && x in s'.task[k].log
      ensures s'.task[k].log[x] == Top(s'.task, x, k)
    {
      TopFrame(s.task, s'.task, x, k);
    }
  }

  lemma RolledBackPhases(s: State, first: nat)
    requires Sized(s) && AllPhases(s) && 1 <= first <= Last(s) && s.completed == Last(s) - 1
    requires first == 1 || (!Doomed(s) && !s.task[Last(s)].aborting)
    ensures AllPhases(RolledBack(s, first)) && !Doomed(RolledBack(s, first))
  {
    hide UnlinkedFrom;
    var s' := RolledBack(s, first);
    forall k | 1 <= k < |s'.task|
      ensures PhaseOk(s', k)
    {
      assert PhaseOk(s, k);
    }
  }

  lemma RolledBackSound(s: State, first: nat)
    requires Sized(s) && Sized(RolledBack(s, first)) && AllPhases(s) && 1 <= first <= Last(s) && s.completed == Last(s) - 1
    requires first == 1 || Sound(s)
    ensures Sound(RolledBack(s, first))
  {
    hide After, Legal, Reads, UnlinkedFrom;
    var s' := RolledBack(s, first);
    forall k | 1 <= k <= s'.completed
      ensures Legal(After(s'.mem, s'.task, k - 1), s'.task[k].ops)
    {
      AfterFrame(s.mem, s.task, s'.task, k - 1);
    }
    forall k | s'.completed < k < |s'.task|
      ensures !Active(s'.task[k])
    {
      assert PhaseOk(s, k);
    }
  }

  lemma KeepRolledBack(s: State, first: nat)
    requires TaskInv(s) && InFlight(s) && 1 <= first <= Last(s) && s.completed == Last(s) - 1
    requires first == 1 || (!Doomed(s) && !s.task[Last(s)].aborting)
    ensures TaskInv(RolledBack(s, first))
  {
    hide Chains, Sound, PhaseOk, Doomed, UnlinkedFrom, Sized;
    InvParts(s);
    var s' := RolledBack(s, first);
    RolledBackChains(s, first);
    RolledBackPhases(s, first);
    RolledBackSound(s, first);
    forall k | 1 <= k < |s.task|
      ensures Buffers(s', s'.task[k])
    {
      assert Buffers(s, s.task[k]);
    }
  }

  // ---------- the commit ----------

  /** Writing the tasks back in order gives what the sequential execution leaves behind. */
  lemma {:induction false} WrittenBackIsAfter(s: State, k: nat)
    requires Sized(s) && AllBuffers(s) && k < |s.task|
    ensures WrittenBack(s.mem, s.task, k) == After(s.mem, s.task, k)
  {
    hide BufferOf, Apply, Through, FullWords;
    if k > 0 {
      WrittenBackIsAfter(s, k - 1);
      assert Buffers(s, s.task[k]);
      forall a | 0 <= a < |s.mem|
        ensures WrittenBack(s.mem, s.task, k)[a] == After(s.mem, s.task, k)[a]
      {
        AfterWord(s.mem, s.task, k, a);
      }
      assert WrittenBack(s.mem, s.task, k) == After(s.mem, s.task, k);
    }
  }

  /** Each stripe is released once, at its top entry. */
  lemma {:induction false} ReleasedIs(s: State, k: nat, x: nat)
    requires Sized(s) && Chains(s) && k < |s.task| && x < |s.wl|
    ensures ReleasedAll(s.wl, s.task, k)[x] == if s.wl[x] <= k then NONE else s.wl[x]
  {
    TopFacts(s.task, x, |s.task|);
    if k > 0 { ReleasedIs(s, k - 1, x); }
  }

  /** Without writers memory stays as it is. */
  lemma NoWriters(s: State)
    requires Sized(s) && Chains(s) && Sound(s) && AllBuffers(s) && 1 <= Last(s) && s.completed == Last(s) - 1
    requires s.task[Last(s)].log == map[] && s.writer == 0
    ensures After(s.mem, s.task, Last(s)) == s.mem
    ensures forall x :: 0 <= x < |s.wl| ==> s.wl[x] == NONE
  {
    hide Reads, UpToDate, Legal, Chains, Buffers;
    assert forall k :: 1 <= k < |s.task| ==> s.task[k].log == map[];
    hide Sound, AllBuffers, After, Top;
    NothingWritten(s);
    forall x | 0 <= x < |s.wl|
      ensures s.wl[x] == NONE
    {
      LockAt(s, x);
      TopFacts(s.task, x, |s.task|);
    }
  }

  lemma NothingWritten(s: State)
    requires Sized(s) && AllBuffers(s) && forall k :: 1 <= k < |s.task| ==> s.task[k].log == map[]
    ensures After(s.mem, s.task, Last(s)) == s.mem
  {
    hide BufferOf, Apply, Buffers;
    forall a | 0 <= a < |s.mem|
      ensures After(s.mem, s.task, Last(s))[a] == s.mem[a]
    {
      AfterSame(s, 0, Last(s), a);
    }
  }

  /** The transaction commits: nothing is rolled back. */
  ghost predicate Commits(s: State, verdict: nat)
    requires Sized(s) && 1 <= Last(s)
  {
    var t := s.task[Last(s)];
    && !(t.log != map[] && t.abortTask) && !t.aborting && !t.abortTx && Passes(s, Last(s))
    && !((t.log != map[] || s.writer >= 1) && verdict > 0)
  }

  /** A commit leaves behind exactly what running the tasks one after another would have. */
  lemma CommitRefines(s: State, verdict: nat)
    requires TaskInv(s) && InFlight(s) && Enabled(s, Commit(verdict)) && Commits(s, verdict)
    ensures StepCommit(s, verdict).mem == After(s.mem, s.task, Last(s))
    ensures forall k :: 1 <= k < |s.task| ==> Legal(After(s.mem, s.task, k - 1), s.task[k].ops)
    ensures TaskInv(StepCommit(s, verdict)) && !InFlight(StepCommit(s, verdict))
  {
    hide Chains, Reads, PhaseOk, Passes, Legal, After, WrittenBack, ReleasedAll, Buffers, AllOps;
    InvParts(s);
    var n := Last(s);
    NotDoomed(s);
    CurrentReads(s, n);
    WrittenBackIsAfter(s, n);
    forall x | 0 <= x < |s.wl|
      ensures ReleasedAll(s.wl, s.task, n)[x] == NONE
    {
      ReleasedIs(s, n, x);
    }
    if !(s.task[n].log != map[] || s.writer >= 1) { NoWriters(s); }
  }

  lemma NotDoomed(s: State)
    requires Sized(s) && AllPhases(s) && 1 <= Last(s) && !s.task[Last(s)].aborting
    ensures !Doomed(s)
  {
    if Doomed(s) {
      var k :| 1 <= k < |s.task| && k <= s.completed && s.task[k].pc.Faked?;
      FakedAborting(s, k);
    }
  }

  lemma FakedAborting(s: State, k: nat)
    requires AllPhases(s) && 1 <= k < |s.task| && k <= s.completed && s.task[k].pc.Faked?
    ensures s.task[Last(s)].aborting
  {
    assert PhaseOk(s, k);
  }

  lemma KeepCommit(s: State, verdict: nat)
    requires TaskInv(s) && InFlight(s) && Enabled(s, Commit(verdict))
    ensures TaskInv(StepCommit(s, verdict))
  {
    hide TaskInv, Passes, Sized, PhaseOk, Chains, Sound, Doomed;
    InvParts(s);
    var n := Last(s);
    var t := s.task[n];
    if Commits(s, verdict) {
      CommitRefines(s, verdict);
    } else if t.log != map[] && t.abortTask {
      KeepRestart(s, n);
    } else if t.aborting || t.abortTx {
      KeepRolledBack(s, 1);
    } else if !Passes(s, n) {
      KeepRestart(s, n);
    } else {
      NotDoomed(s);
      KeepRolledBack(s, verdict);
    }
  }

  lemma KeepNext(s: State, n: nat)
    requires TaskInv(s) && Enabled(s, Next(n)) && !InFlight(s)
    ensures TaskInv(StepNext(s, n))
  {
    hide After, Legal;
    var s' := StepNext(s, n);
    assert Sized(s');
    forall x: nat, k: nat | k <= |s'.task|
      ensures Top(s'.task, x, k) == NONE
    {
      TopIs(s'.task, x, k, NONE);
    }
    assert Chains(s');
  }
}
