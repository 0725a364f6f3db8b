/** Speculative tasks of one program-thread and their steps (src/stm/transaction_mixinv.h). */
module TaskState {
  import opened Words

  // A transaction is cut into tasks 1..n, run speculatively; a task number is its serial counted from the
  // transaction's start_serial, so 0 stands for everything before it. Each read, write, completion and
  // roll-back is one step; the steps of different tasks interleave freely.

  /** A pointer to a write-log entry is the number of the task it belongs to: a task has at most one
      entry for a stripe. NONE is a null pointer or a clear write lock. */
  type Pointer = nat

  const NONE: Pointer := 0

  datatype Pc =
    | Idle
    | Running                // user code
    | Committing             // TxCommit was called
    | Completed              // waiting for the commit of the transaction
    | ReadyWait | Faked      // ReadyToAbortTransaction, before and after last_completed_task is moved
    | Exited

  datatype TaskRead = TaskRead(x: nat, serial: nat)

  datatype Task = Task(
    pc: Pc,
    lastWriter: nat,
    readLog: seq<nat>,              // stripes read from committed memory
    taskReadLog: seq<TaskRead>,     // stripes read from the entry of a past task
    log: map<nat, Pointer>,         // locked stripes, with old_entry
    buffer: Buffer,                 // the words of those entries
    abortTask: bool, abortTx: bool, aborting: bool,
    ops: seq<Op>                    // history: the operations of this attempt
  )

  /** task[k] is task k, and task[0] is a place-holder; last_completed_task and last_completed_writer
      are task numbers. done is history: the operations of all committed tasks. */
  datatype State = State(
    stripe: seq<nat>,
    mem: Memory,
    wl: seq<Pointer>,
    completed: nat,
    writer: nat,
    task: seq<Task>,
    done: seq<seq<Op>>
  )

  const FRESH := Task(Idle, 0, [], [], map[], map[], false, false, false, [])
  const EXITED := FRESH.(pc := Exited)

  /** The commit task. */
  function Last(s: State): nat
  {
    if s.task == [] then 0 else |s.task| - 1
  }

  function Init(stripe: seq<nat>, stripes: nat, m: Memory): State
  {
    State(stripe, m, seq(stripes, _ => NONE), 0, 0, [EXITED], [])
  }

  /** The lock table covers the words, and pointers lead to tasks. */
  ghost predicate Sized(s: State)
  {
    && |s.stripe| == |s.mem|
    && (forall a :: 0 <= a < |s.stripe| ==> s.stripe[a] < |s.wl|)
    && s.task != [] && s.task[0] == EXITED
    && (forall x :: 0 <= x < |s.wl| ==> s.wl[x] < |s.task|)
    && s.completed < |s.task| && s.writer < |s.task|
    && forall k :: 0 <= k < |s.task| ==>
         && (forall x :: x in s.task[k].log ==> x < |s.wl| && s.task[k].log[x] < k)
         && (forall n :: 0 <= n < |s.task[k].readLog| ==> s.task[k].readLog[n] < |s.wl|)
         && (forall n :: 0 <= n < |s.task[k].taskReadLog| ==> s.task[k].taskReadLog[n].x < |s.wl|)
  }

  // ---------- walking a chain of write-log entries ----------

  /** old_entry of the entry of task e for stripe x. */
  function Older(task: seq<Task>, x: nat, e: Pointer): (o: Pointer)
    requires e < |task|
    ensures o < e || o == NONE
  {
    if x in task[e].log && task[e].log[x] < e then task[e].log[x] else NONE
  }

  /** The first entry from e on that belongs to a task before i. */
  function Before(task: seq<Task>, x: nat, e: Pointer, i: nat): (o: Pointer)
    requires e < |task|
    ensures o <= e && (o < i || o == NONE)
    decreases e
  {
    if e == NONE || e < i then e else Before(task, x, Older(task, x, e), i)
  }

  /** The word at a as seen from entry e: in the first entry that has it, or in memory. */
  function Look(s: State, e: Pointer, a: nat): Word
    requires e < |s.task| && a < |s.mem| && a < |s.stripe|
    decreases e
  {
    if e == NONE then s.mem[a]
    else if a in s.task[e].buffer then Through(s.task[e].buffer, a, s.mem[a])
    else Look(s, Older(s.task, s.stripe[a], e), a)
  }

  // ---------- validation against past writers ----------

  ghost predicate StillLast(s: State, i: nat, r: TaskRead)
    requires Sized(s) && r.x < |s.wl|
  {
    var e := Before(s.task, r.x, s.wl[r.x], i);
    e != NONE && e == r.serial
  }

  ghost predicate StillUnwritten(s: State, i: nat, x: nat)
    requires Sized(s) && x < |s.wl|
  {
    Before(s.task, x, s.wl[x], i) == NONE
  }

  /** ValidateTLS: what was read from past tasks is still their latest, and nothing that was read
      from memory has been written by a past task. */
  ghost predicate ValidTls(s: State, i: nat)
    requires Sized(s) && 1 <= i < |s.task|
  {
    && (forall n :: 0 <= n < |s.task[i].taskReadLog| ==> StillLast(s, i, s.task[i].taskReadLog[n]))
    && (forall n :: 0 <= n < |s.task[i].readLog| ==> StillUnwritten(s, i, s.task[i].readLog[n]))
  }

  // ---------- steps ----------

  function Put(s: State, i: nat, t: Task): State
    requires 1 <= i < |s.task|
  {
    s.(task := s.task[i := t])
  }

  /** Write locks with the entries of log unlinked. */
  function Unlinked(wl: seq<Pointer>, log: map<nat, Pointer>): (r: seq<Pointer>)
    ensures |r| == |wl|
  {
    seq(|wl|, x requires 0 <= x < |wl| => if x in log then log[x] else wl[x])
  }

  function Emptied(t: Task): Task
  {
    t.(log := map[], buffer := map[], ops := [])
  }

  /** TxRestart: Rollback, and back to TxStart. */
  function Restart(s: State, i: nat): State
    requires 1 <= i < |s.task|
  {
    var t := s.task[i];
    Put(s, i, Emptied(t).(pc := Idle, readLog := [], taskReadLog := [])).(wl := Unlinked(s.wl, t.log))
  }

  /** ExtendTLS, if a writer completed in the meantime; a restart if it fails. */
  ghost function Extended(s: State, i: nat): State
    requires Sized(s) && 1 <= i < |s.task|
  {
    if s.writer <= s.task[i].lastWriter then s
    else if ValidTls(s, i) then Put(s, i, s.task[i].(lastWriter := s.writer))
    else Restart(s, i)
  }

  // TxStart

  function StepStart(s: State, i: nat): State
    requires 1 <= i < |s.task|
  {
    Put(s, i, s.task[i].(pc := Running, lastWriter := s.writer, abortTask := false))
  }

  // ReadWordInner

  function Log(t: Task, o: Op): Task
  {
    t.(ops := t.ops + [o])
  }

  /** The entry a read of a by task i starts from: the task's own, or that of the last past writer. */
  function Source(s: State, i: nat, a: nat): Pointer
    requires Sized(s) && a < |s.mem|
  {
    Before(s.task, s.stripe[a], s.wl[s.stripe[a]], i + 1)
  }

  /** A past writer must have completed. */
  predicate MayRead(s: State, i: nat, a: nat)
    requires Sized(s) && a < |s.mem|
  {
    var e := Source(s, i, a);
    e == NONE || e == i || e <= s.completed
  }

  ghost function StepRead(s: State, i: nat, a: nat): State
    requires Sized(s) && 1 <= i < |s.task| && a < |s.mem|
  {
    var t := s.task[i];
    var e := Source(s, i, a);
    if e == NONE then Put(s, i, Log(t, Rd(a, s.mem[a])).(readLog := t.readLog + [s.stripe[a]]))
    else if e == i then Put(s, i, Log(t, Rd(a, Look(s, e, a))))
    else
      var s1 := Extended(Put(s, i, t.(taskReadLog := t.taskReadLog + [TaskRead(s.stripe[a], e)])), i);
      if s1.task[i].pc.Idle? then s1 else Put(s1, i, Log(s1.task[i], Rd(a, Look(s, e, a))))
  }

  // LockMemoryStripe

  function Buffered(t: Task, a: nat, v: Word): Task
  {
    Log(t, Wr(a, v, UNMASKED)).(buffer := Insert(t.buffer, a, v, UNMASKED))
  }

  ghost function StepWrite(s: State, i: nat, a: nat, v: Word): State
    requires Sized(s) && 1 <= i < |s.task| && a < |s.mem|
  {
    var t := s.task[i];
    var x := s.stripe[a];
    var e := s.wl[x];
    if t.abortTask then Restart(s, i)
    else if e == i then Put(s, i, Buffered(t, a, v))
    else if e > i then Put(s, e, s.task[e].(abortTask := true))
    else if e > s.completed then Restart(s, i)
    else
      var y := Buffered(t.(log := t.log[x := e]), a, v);
      Extended(Put(s, i, y).(wl := s.wl[x := i]), i)
  }

  // TxCommit, TxTryCommit

  function StepFinish(s: State, i: nat): State
    requires 1 <= i < |s.task|
  {
    Put(s, i, s.task[i].(pc := Committing))
  }

  /** The checks of TxCommit once all tasks before i have completed. */
  ghost predicate Passes(s: State, i: nat)
    requires Sized(s) && 1 <= i < |s.task|
  {
    s.writer > s.task[i].lastWriter ==> ValidTls(s, i)
  }

  ghost function StepComplete(s: State, i: nat): State
    requires Sized(s) && 1 <= i < |s.task|
  {
    var t := s.task[i];
    if (t.log != map[] && t.abortTask) || !Passes(s, i) then Restart(s, i)
    else
      Put(s, i, t.(pc := Completed))
        .(completed := i, writer := if t.log != map[] then i else s.writer)
  }

  // RollbackTransaction

  /** The write locks after the entries of tasks first..last have been unlinked, latest task first. */
  function UnlinkedFrom(wl: seq<Pointer>, task: seq<Task>, first: nat, last: nat): (r: seq<Pointer>)
    requires last < |task|
    ensures |r| == |wl|
    decreases last
  {
    if last < first || last == 0 then wl
    else UnlinkedFrom(Unlinked(wl, task[last].log), task, first, last - 1)
  }

  function Minus1(k: nat): nat
  {
    if k > 0 then k - 1 else 0
  }

  /** RollbackTransaction(first), called by the last task, which restarts. */
  function RolledBack(s: State, first: nat): State
    requires s.task != []
  {
    var n := Last(s);
    s.(wl := UnlinkedFrom(s.wl, s.task, first, n), completed := Minus1(first), writer := Minus1(first),
       task := seq(|s.task|, k requires 0 <= k < |s.task| =>
         if k < first || k == 0 then s.task[k]
         else if k < n then Emptied(s.task[k]).(abortTx := false, aborting := true)
         else Emptied(s.task[k]).(abortTx := false, aborting := false, pc := Idle, readLog := [], taskReadLog := [])))
  }

  // the commit of the transaction

  /** Memory after the entries of task t have been written back. */
  function Written(m: Memory, b: Buffer): (r: Memory)
    ensures |r| == |m|
  {
    seq(|m|, a requires 0 <= a < |m| => Through(b, a, m[a]))
  }

  /** Memory after tasks first..last, in this order. */
  function WrittenBack(m: Memory, task: seq<Task>, last: nat): (r: Memory)
    requires last < |task|
    ensures |r| == |m|
  {
    if last == 0 then m else Written(WrittenBack(m, task, last - 1), task[last].buffer)
  }

  /** Entries release their stripe if the write lock still points to them. */
  function Released(wl: seq<Pointer>, log: map<nat, Pointer>, i: nat): (r: seq<Pointer>)
    ensures |r| == |wl|
  {
    seq(|wl|, x requires 0 <= x < |wl| => if x in log && wl[x] == i then NONE else wl[x])
  }

  function ReleasedAll(wl: seq<Pointer>, task: seq<Task>, last: nat): (r: seq<Pointer>)
    requires last < |task|
    ensures |r| == |wl|
  {
    if last == 0 then wl else Released(ReleasedAll(wl, task, last - 1), task[last].log, last)
  }

  /** The operations of tasks 1..last. */
  function AllOps(task: seq<Task>, last: nat): seq<seq<Op>>
    requires last < |task|
  {
    if last == 0 then [] else AllOps(task, last - 1) + [task[last].ops]
  }

  /** The last task commits the transaction. verdict is what ValidateCommit found against the other
      program-threads: 0, or the first task to run again. */
  ghost function StepCommit(s: State, verdict: nat): State
    requires Sized(s) && 1 <= Last(s) && verdict <= Last(s)
  {
    var n := Last(s);
    var t := s.task[n];
    if t.log != map[] && t.abortTask then Restart(s, n)
    else if t.aborting || t.abortTx then RolledBack(s, 1)
    else if !Passes(s, n) then Restart(s, n)
    else
      var writes := t.log != map[] || s.writer >= 1;
      if writes && verdict > 0 then RolledBack(s, verdict)
      else
        s.(mem := if writes then WrittenBack(s.mem, s.task, n) else s.mem,
           wl := if writes then ReleasedAll(s.wl, s.task, n) else s.wl,
           completed := n, writer := if writes then n else s.writer,
           task := seq(n + 1, _ => EXITED),
           done := s.done + AllOps(s.task, n))
  }

  // ReadyToAbortTransaction

  function StepReady(s: State, i: nat): State
    requires 1 <= i < Last(s)
  {
    var n := Last(s);
    s.(task := s.task[i := s.task[i].(pc := ReadyWait)][n := s.task[n].(aborting := true)])
  }

  function StepFake(s: State, i: nat): State
    requires 1 <= i < |s.task|
  {
    Put(s, i, s.task[i].(pc := Faked)).(completed := i)
  }

  /** A task that waits for the end of the transaction is told to run again. */
  function StepWake(s: State, i: nat): State
    requires 1 <= i < |s.task|
  {
    var s1 := Restart(s, i);
    Put(s1, i, s1.task[i].(aborting := false))
  }

  // other program-threads, and the next transaction

  /** A conflict with another program-thread: all tasks are to abort. */
  function StepDoom(s: State): State
  {
    s.(task := seq(|s.task|, k requires 0 <= k < |s.task| => if k == 0 then s.task[0] else s.task[k].(abortTx := true)))
  }

  function StepNext(s: State, n: nat): State
  {
    s.(task := [EXITED] + seq(n, _ => FRESH), completed := 0, writer := 0)
  }

  // ---------- which step may be taken when ----------

  datatype Event =
    | Start(i: nat) | Read(i: nat, a: nat) | Write(i: nat, a: nat, v: Word) | Finish(i: nat)
    | Complete(i: nat) | Commit(verdict: nat) | Again(i: nat)
    | AbortCommit | Ready(i: nat) | Fake(i: nat) | Wake(i: nat) | Doom | Next(n: nat)

  predicate Active(t: Task)
  {
    t.pc.Running? || t.pc.Committing?
  }

  ghost predicate Enabled(s: State, e: Event)
    requires Sized(s)
  {
    var n := Last(s);
    match e
    case Start(i) => 1 <= i <= n && s.task[i].pc.Idle?
    case Read(i, a) => 1 <= i <= n && s.task[i].pc.Running? && a < |s.mem| && MayRead(s, i, a)
    case Write(i, a, v) =>
      1 <= i <= n && s.task[i].pc.Running? && a < |s.mem|
      && (!s.task[i].abortTx || s.task[i].abortTask)
    case Finish(i) => 1 <= i <= n && s.task[i].pc.Running?
    case Complete(i) =>
      && 1 <= i < n && s.task[i].pc.Committing? && s.completed == i - 1 && !s.task[i].abortTx
    case Commit(verdict) => 1 <= n && s.task[n].pc.Committing? && s.completed == n - 1 && verdict <= n
    case Again(i) => 1 <= i <= n && Active(s.task[i])
    case AbortCommit =>
      1 <= n && Active(s.task[n]) && s.completed == n - 1 && (s.task[n].aborting || s.task[n].abortTx)
    case Ready(i) => 1 <= i < n && Active(s.task[i]) && s.task[i].abortTx
    case Fake(i) => 1 <= i < n && s.task[i].pc.ReadyWait? && s.completed == i - 1
    case Wake(i) => 1 <= i < n && (s.task[i].pc.Completed? || s.task[i].pc.Faked?) && s.task[i].aborting
    case Doom => s.completed < n
    case Next(k) => s.completed == n && 1 <= k
  }

  ghost function Step(s: State, e: Event): State
    requires Sized(s) && Enabled(s, e)
  {
    match e
    case Start(i) => StepStart(s, i)
    case Read(i, a) => StepRead(s, i, a)
    case Write(i, a, v) => StepWrite(s, i, a, v)
    case Finish(i) => StepFinish(s, i)
    case Complete(i) => StepComplete(s, i)
    case Commit(verdict) => StepCommit(s, verdict)
    case Again(i) => Restart(s, i)
    case AbortCommit => RolledBack(s, 1)
    case Ready(i) => StepReady(s, i)
    case Fake(i) => StepFake(s, i)
    case Wake(i) => StepWake(s, i)
    case Doom => StepDoom(s)
    case Next(n) => StepNext(s, n)
  }
}
