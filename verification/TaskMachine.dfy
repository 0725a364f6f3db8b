/** The shared state of a program-thread, updated in place, with the loops of src/stm/transaction_mixinv.h. */
module TaskMachine {
  import opened Words
  import opened TaskState
  import opened TaskProofs
  import opened TaskRuns
  import opened TaskTheorems

  // Every public method is one atomic step of TaskState.

  lemma LogsAt(s: State, i: nat)
    requires Sized(s) && 1 <= i < |s.task|
    ensures forall n :: 0 <= n < |s.task[i].taskReadLog| ==> s.task[i].taskReadLog[n].x < |s.wl|
    ensures forall n :: 0 <= n < |s.task[i].readLog| ==> s.task[i].readLog[n] < |s.wl|
    ensures forall x :: x in s.task[i].log ==> x < |s.wl|
  {
  }

  class ProgramThread {
    const stripe: seq<nat>
    var mem: Memory
    var wl: seq<Pointer>
    var completed: nat
    var writer: nat
    var task: seq<Task>
    ghost var done: seq<seq<Op>>

    ghost function View(): State
      reads this
    {
      State(stripe, mem, wl, completed, writer, task, done)
    }

    ghost predicate Valid()
      reads this
    {
      TaskInv(View())
    }

    constructor (s: seq<nat>, stripes: nat, m: Memory)
      requires Mapped(s, stripes, m)
      ensures View() == Init(s, stripes, m) && Valid()
    {
      stripe, mem, wl := s, m, seq(stripes, _ => NONE);
      completed, writer, task, done := 0, 0, [EXITED], [];
    }

    // ---------- loads ----------

    /** From the write lock down the chain, past the entries of task i and of later ones. */
    method FirstBefore(x: nat, i: nat) returns (e: Pointer)
      requires Sized(View()) && x < |wl|
      ensures e == Before(task, x, wl[x], i) && e < |task|
    {
      e := wl[x];
      while e != NONE && e >= i
        invariant e < |task| && Before(task, x, e, i) == Before(task, x, wl[x], i)
        decreases e
      {
        e := if x in task[e].log && task[e].log[x] < e then task[e].log[x] else NONE;
      }
    }

    /** The word at a, from the first entry at or below e that has it, or from memory. */
    method WordAt(e0: Pointer, a: nat) returns (v: Word)
      requires Sized(View()) && a < |mem| && e0 < |task|
      ensures v == Look(View(), e0, a)
    {
      hide Sized;
      assert a < |stripe| by { StripeAt(View(), a); }
      var e: Pointer := e0;
      var x := stripe[a];
      while e != NONE && a !in task[e].buffer
        invariant e < |task| && Look(View(), e, a) == Look(View(), e0, a)
        decreases e
      {
        e := if x in task[e].log && task[e].log[x] < e then task[e].log[x] else NONE;
      }
      v := if e == NONE then mem[a] else Through(task[e].buffer, a, mem[a]);
    }

    /** ValidateTLS. */
    method ValidateTLS(i: nat) returns (ok: bool)
      requires Sized(View()) && 1 <= i < |task|
      ensures ok <==> ValidTls(View(), i)
    {
      hide Before, Sized;
      LogsAt(View(), i);
      var n := 0;
      while n < |task[i].taskReadLog|
        invariant n <= |task[i].taskReadLog|
        invariant forall k :: 0 <= k < n ==> StillLast(View(), i, task[i].taskReadLog[k])
      {
        var r := task[i].taskReadLog[n];
        var e := FirstBefore(r.x, i);
        if e == NONE || e != r.serial {
          assert !StillLast(View(), i, task[i].taskReadLog[n]);
          return false;
        }
        n := n + 1;
      }
      n := 0;
      while n < |task[i].readLog|
        invariant n <= |task[i].readLog|
        invariant forall k :: 0 <= k < n ==> StillUnwritten(View(), i, task[i].readLog[k])
      {
        var e := FirstBefore(task[i].readLog[n], i);
        if e != NONE {
          assert !StillUnwritten(View(), i, task[i].readLog[n]);
          return false;
        }
        n := n + 1;
      }
      return true;
    }

    // ---------- Rollback ----------

    /** Every entry of the log gives its write lock back to the entry below. */
    method DropLocks(log: map<nat, Pointer>)
      requires forall x :: x in log ==> x < |wl|
      modifies this`wl
      ensures wl == Unlinked(old(wl), log)
    {
      var left := log.Keys;
      while left != {}
        invariant left <= log.Keys && |wl| == |old(wl)|
        invariant forall x :: 0 <= x < |wl| ==> wl[x] == if x in log && x !in left then log[x] else old(wl)[x]
        decreases |left|
      {
        var x :| x in left;
        wl := wl[x := log[x]];
        left := left - {x};
      }
      assert wl == Unlinked(old(wl), log);
    }

    /** TxRestart. */
    method RestartTask(i: nat)
      requires Sized(View()) && 1 <= i < |task|
      modifies this`wl, this`task
      ensures View() == Restart(old(View()), i)
    {
      hide Sized, Unlinked;
      LogsAt(View(), i);
      DropLocks(task[i].log);
      task := task[i := Emptied(task[i]).(pc := Idle, readLog := [], taskReadLog := [])];
    }

    /** ExtendTLS, where a writer has completed since last_writer. */
    method ExtendTLS(i: nat)
      requires Sized(View()) && 1 <= i < |task|
      modifies this`wl, this`task
      ensures View() == Extended(old(View()), i)
    {
      hide Sized, ValidTls;
      if writer > task[i].lastWriter {
        var lw := writer;
        var ok := ValidateTLS(i);
        if ok {
          task := task[i := task[i].(lastWriter := lw)];
        } else {
          RestartTask(i);
        }
      }
    }

    /** RollbackTransaction: write locks and logs, from the last task down to first. */
    method UnlinkTasks(first: nat)
      requires Sized(View()) && 1 <= first < |task|
      modifies this`wl
      ensures wl == UnlinkedFrom(old(wl), task, first, |task| - 1)
    {
      hide Sized, Unlinked;
      var i := |task| - 1;
      while i >= first && i > 0
        invariant 0 <= i < |task| && |wl| == |old(wl)|
        invariant UnlinkedFrom(wl, task, first, i) == UnlinkedFrom(old(wl), task, first, |task| - 1)
        decreases i
      {
        LogsBound(old(View()), i);
        DropLocks(task[i].log);
        i := i - 1;
      }
    }

    lemma LogsBound(s: State, i: nat)
      requires Sized(s) && 1 <= i < |s.task|
      ensures forall x :: x in s.task[i].log ==> x < |s.wl|
    {
    }

    method RollbackTransaction(first: nat)
      requires Sized(View()) && 1 <= first < |task|
      modifies this`wl, this`completed, this`writer, this`task
      ensures View() == RolledBack(old(View()), first)
    {
      hide Sized, UnlinkedFrom;
      UnlinkTasks(first);
      completed, writer := first - 1, first - 1;
      var n := |task| - 1;
      var i := first;
      while i <= n
        invariant first <= i <= n + 1 && |task| == |old(task)| == n + 1
        invariant forall k :: 0 <= k < first ==> task[k] == old(task)[k]
        invariant forall k :: i <= k <= n ==> task[k] == old(task)[k]
        invariant forall k :: first <= k < i ==> task[k] == RolledBack(old(View()), first).task[k]
        modifies this`task
      {
        var t := Emptied(task[i]).(abortTx := false);
        task := task[i := if i < n then t.(aborting := true) else t.(aborting := false, pc := Idle, readLog := [], taskReadLog := [])];
        i := i + 1;
      }
      assert task == RolledBack(old(View()), first).task;
    }

    // ---------- write-back ----------

    /** The words of task i go to memory. */
    method WriteWords(i: nat)
      requires i < |task|
      modifies this`mem
      ensures mem == Written(old(mem), task[i].buffer)
    {
      var b := task[i].buffer;
      var left := b.Keys;
      while left != {}
        invariant left <= b.Keys && |mem| == |old(mem)|
        invariant forall a :: 0 <= a < |mem| ==> mem[a] == if a in b && a !in left then Through(b, a, old(mem)[a]) else old(mem)[a]
        decreases |left|
      {
        var a :| a in left;
        if a < |mem| {
          mem := mem[a := Through(b, a, mem[a])];
        }
        left := left - {a};
      }
      assert mem == Written(old(mem), b);
    }

    /** Entries that are still on top release their stripe. */
    method ReleaseLocks(i: nat)
      requires i < |task| && forall x :: x in task[i].log ==> x < |wl|
      modifies this`wl
      ensures wl == Released(old(wl), task[i].log, i)
    {
      var left := task[i].log.Keys;
      while left != {}
        invariant left <= task[i].log.Keys && |wl| == |old(wl)|
        invariant forall x :: 0 <= x < |wl| ==>
          wl[x] == if x in task[i].log && x !in left && old(wl)[x] == i then NONE else old(wl)[x]
        decreases |left|
      {
        var x :| x in left;
        if wl[x] == i {
          wl := wl[x := NONE];
        }
        left := left - {x};
      }
      assert wl == Released(old(wl), task[i].log, i);
    }

    /** All tasks are written back, in the order of their serials. */
    method WriteBack()
      requires Sized(View())
      modifies this`mem, this`wl
      ensures mem == WrittenBack(old(mem), task, |task| - 1) && wl == ReleasedAll(old(wl), task, |task| - 1)
    {
      hide Sized, Written, Released;
      assert task != [] by { SomeTask(View()); }
      var i := 0;
      while i < |task| - 1
        invariant 0 <= i < |task| && |wl| == |old(wl)|
        invariant mem == WrittenBack(old(mem), task, i) && wl == ReleasedAll(old(wl), task, i)
      {
        i := i + 1;
        LogsBound(old(View()), i);
        WriteWords(i);
        ReleaseLocks(i);
      }
    }

    lemma SomeTask(s: State)
      requires Sized(s)
      ensures s.task != []
    {
    }

    // ---------- the steps ----------

    method TxStart(i: nat)
      requires Valid() && Enabled(View(), Start(i))
      modifies this`task
      ensures Valid() && View() == StepStart(old(View()), i)
    {
      hide TaskInv;
      TaskStepKeeps(View(), Start(i));
      task := task[i := task[i].(pc := Running, lastWriter := writer, abortTask := false)];
    }

    /** ReadWordInner; ok is false if the task had to restart. */
    method ReadWord(i: nat, a: nat) returns (ok: bool, v: Word)
      requires Valid() && Enabled(View(), Read(i, a))
      modifies this`wl, this`task
      ensures Valid() && View() == StepRead(old(View()), i, a)
      ensures ok ==> i < |task| && task[i].ops != [] && task[i].ops[|task[i].ops| - 1] == Rd(a, v)
    {
      hide TaskInv, Sized, ValidTls, Look, Before;
      TaskStepKeeps(View(), Read(i, a));
      assert a < |stripe| && stripe[a] < |wl| by { StripeAt(View(), a); }
      var x := stripe[a];
      var e := FirstBefore(x, i + 1);
      if e == NONE {
        v := mem[a];
        task := task[i := Log(task[i], Rd(a, v)).(readLog := task[i].readLog + [x])];
        ok := true;
      } else {
        v := WordAt(e, a);
        if e != i {
          KeepSized(View(), i, TaskRead(x, e));
          task := task[i := task[i].(taskReadLog := task[i].taskReadLog + [TaskRead(x, e)])];
          ExtendTLS(i);
        }
        ok := !task[i].pc.Idle?;
        if ok {
          task := task[i := Log(task[i], Rd(a, v))];
        }
      }
    }

    lemma KeepSized(s: State, i: nat, r: TaskRead)
      requires Sized(s) && 1 <= i < |s.task| && r.x < |s.wl|
      ensures Sized(Put(s, i, s.task[i].(taskReadLog := s.task[i].taskReadLog + [r])))
    {
    }

    /** LockMemoryStripe, for a full word. */
    method WriteWord(i: nat, a: nat, v: Word)
      requires Valid() && Enabled(View(), Write(i, a, v))
      modifies this`wl, this`task
      ensures Valid() && View() == StepWrite(old(View()), i, a, v)
    {
      hide TaskInv, Sized, ValidTls, Insert;
      TaskStepKeeps(View(), Write(i, a, v));
      assert a < |stripe| && stripe[a] < |wl| && wl[stripe[a]] < |task| by { StripeAt(View(), a); }
      var x := stripe[a];
      var e := wl[x];
      if task[i].abortTask {
        RestartTask(i);
      } else if e == i {
        task := task[i := Buffered(task[i], a, v)];
      } else if e > i {
        task := task[e := task[e].(abortTask := true)];
      } else if completed < e {
        RestartTask(i);
      } else {
        PushSized(View(), i, a, v);
        task := task[i := Buffered(task[i].(log := task[i].log[x := e]), a, v)];
        wl := wl[x := i];
        ExtendTLS(i);
      }
    }

    lemma PushSized(s: State, i: nat, a: nat, v: Word)
      requires Sized(s) && 1 <= i < |s.task| && a < |s.mem| && a < |s.stripe| && s.stripe[a] < |s.wl| && s.wl[s.stripe[a]] < i
      ensures Sized(Put(s, i, Buffered(s.task[i].(log := s.task[i].log[s.stripe[a] := s.wl[s.stripe[a]]]), a, v))
                .(wl := s.wl[s.stripe[a] := i]))
    {
      hide Insert;
    }

    method TxFinish(i: nat)
      requires Valid() && Enabled(View(), Finish(i))
      modifies this`task
      ensures Valid() && View() == StepFinish(old(View()), i)
    {
      hide TaskInv;
      TaskStepKeeps(View(), Finish(i));
      task := task[i := task[i].(pc := Committing)];
    }

    /** The validation of TxCommit, skipped when no writer has completed since last_writer. */
    method StillValid(i: nat) returns (ok: bool)
      requires Sized(View()) && 1 <= i < |task|
      ensures ok <==> Passes(View(), i)
    {
      hide Sized, ValidTls;
      ok := true;
      if writer > task[i].lastWriter {
        ok := ValidateTLS(i);
      }
    }

    /** TxCommit of a task that is not the last. */
    method TxComplete(i: nat)
      requires Valid() && Enabled(View(), Complete(i))
      modifies this`wl, this`task, this`completed, this`writer
      ensures Valid() && View() == StepComplete(old(View()), i)
    {
      hide TaskInv, Sized, Passes;
      TaskStepKeeps(View(), Complete(i));
      var ok := StillValid(i);
      if (task[i].log != map[] && task[i].abortTask) || !ok {
        RestartTask(i);
      } else {
        if task[i].log != map[] {
          writer := i;
        }
        task := task[i := task[i].(pc := Completed)];
        completed := i;
      }
    }

    /** TxCommit of the last task. */
    method TxCommit(verdict: nat)
      requires Valid() && Enabled(View(), Commit(verdict))
      modifies this`mem, this`wl, this`task, this`completed, this`writer, this`done
      ensures Valid() && View() == StepCommit(old(View()), verdict)
    {
      hide TaskInv, Sized, Passes, WrittenBack, ReleasedAll, AllOps, RolledBack;
      TaskStepKeeps(View(), Commit(verdict));
      var n := |task| - 1;
      var t := task[n];
      var ok := StillValid(n);
      if t.log != map[] && t.abortTask {
        RestartTask(n);
      } else if t.aborting || t.abortTx {
        RollbackTransaction(1);
      } else if !ok {
        RestartTask(n);
      } else if (t.log != map[] || writer >= 1) && verdict > 0 {
        RollbackTransaction(verdict);
      } else {
        if t.log != map[] || writer >= 1 {
          WriteBack();
          writer := n;
        }
        done := done + AllOps(task, n);
        completed := n;
        task := seq(n + 1, _ => EXITED);
      }
    }

    /** TxRestart for a reason of the task's own. */
    method TxAgain(i: nat)
      requires Valid() && Enabled(View(), Again(i))
      modifies this`wl, this`task
      ensures Valid() && View() == Restart(old(View()), i)
    {
      hide TaskInv, Sized;
      TaskStepKeeps(View(), Again(i));
      RestartTask(i);
    }

    /** The last task finds that the transaction is to abort, and rolls all of it back. */
    method TxAbortAll()
      requires Valid() && Enabled(View(), AbortCommit)
      modifies this`wl, this`completed, this`writer, this`task
      ensures Valid() && View() == RolledBack(old(View()), 1)
    {
      hide TaskInv, Sized, RolledBack;
      TaskStepKeeps(View(), AbortCommit);
      RollbackTransaction(1);
    }

    /** ReadyToAbortTransaction: the commit task is told ... */
    method ReadyToAbort(i: nat)
      requires Valid() && Enabled(View(), Ready(i))
      modifies this`task
      ensures Valid() && View() == StepReady(old(View()), i)
    {
      hide TaskInv;
      TaskStepKeeps(View(), Ready(i));
      var n := |task| - 1;
      task := task[i := task[i].(pc := ReadyWait)];
      task := task[n := task[n].(aborting := true)];
    }

    /** ... and, in its turn, the task lets the others go on. */
    method PassOn(i: nat)
      requires Valid() && Enabled(View(), Fake(i))
      modifies this`task, this`completed
      ensures Valid() && View() == StepFake(old(View()), i)
    {
      hide TaskInv;
      TaskStepKeeps(View(), Fake(i));
      task := task[i := task[i].(pc := Faked)];
      completed := i;
    }

    /** A waiting task sees aborting_transaction. */
    method WakeUp(i: nat)
      requires Valid() && Enabled(View(), Wake(i))
      modifies this`wl, this`task
      ensures Valid() && View() == StepWake(old(View()), i)
    {
      hide TaskInv, Sized;
      TaskStepKeeps(View(), Wake(i));
      RestartTask(i);
      task := task[i := task[i].(aborting := false)];
    }

    /** The next transaction of the thread, of n tasks. */
    method NextTransaction(n: nat)
      requires Valid() && Enabled(View(), Next(n))
      modifies this`task, this`completed, this`writer
      ensures Valid() && View() == StepNext(old(View()), n)
    {
      hide TaskInv;
      TaskStepKeeps(View(), Next(n));
      task := [EXITED] + seq(n, _ => FRESH);
      completed, writer := 0, 0;
    }
  }
}
