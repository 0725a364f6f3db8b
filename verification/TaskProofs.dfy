/** Speculation refines program order: the invariant of the tasks, and what a commit leaves behind. */
module TaskProofs {
  import opened Words
  import opened TaskState

  // ---------- the sequential execution ----------

  /** Memory after running the tasks one after another, up to task k. */
  function After(m: Memory, task: seq<Task>, k: nat): (r: Memory)
    requires k < |task|
    ensures |r| == |m|
  {
    if k == 0 then m else Apply(After(m, task, k - 1), task[k].ops)
  }

  // ---------- chains ----------

  /** The last task before k with an entry for stripe x. */
  function Top(task: seq<Task>, x: nat, k: nat): (e: Pointer)
    requires k <= |task|
    ensures e < k || e == NONE
  {
    if k <= 1 then NONE else if x in task[k - 1].log then k - 1 else Top(task, x, k - 1)
  }

  lemma {:induction false} TopFacts(task: seq<Task>, x: nat, k: nat)
    requires k <= |task|
    ensures Top(task, x, k) != NONE ==> x in task[Top(task, x, k)].log
    ensures forall j :: Top(task, x, k) < j < k ==> x !in task[j].log
  {
    if k > 1 { TopFacts(task, x, k - 1); }
  }

  /** Write locks point to the latest entry, entries to the one before, and only the latest may be uncompleted. */
  ghost predicate Chains(s: State)
    requires Sized(s)
  {
    && (forall x :: 0 <= x < |s.wl| ==> s.wl[x] == Top(s.task, x, |s.task|))
    && (forall k, x :: 1 <= k < |s.task| && x in s.task[k].log ==> s.task[k].log[x] == Top(s.task, x, k))
    && (forall j, k, x :: 1 <= j < k < |s.task| && x in s.task[j].log && x in s.task[k].log ==> j <= s.completed)
  }

  // ---------- phases ----------

  ghost predicate PhaseOk(s: State, k: nat)
    requires 1 <= k < |s.task|
  {
    var t := s.task[k];
    && !t.pc.Exited?
    && (t.pc.Idle? ==> t.log == map[] && t.ops == [] && t.readLog == [] && t.taskReadLog == [])
    && (t.pc.Completed? || t.pc.Faked? || t.pc.ReadyWait? ==> k < Last(s))
    && (k <= s.completed ==> (t.pc.Completed? || t.pc.Faked?) && !t.aborting)
    && (k > s.completed && (t.pc.Completed? || t.pc.Faked?) ==> t.aborting && t.log == map[] && t.ops == [])
    && (k < Last(s) && t.aborting ==> k > s.completed && (t.pc.Completed? || t.pc.Faked?))
    && ((k <= s.completed && t.pc.Faked?) || t.pc.ReadyWait? ==> s.task[Last(s)].aborting)
  }

  /** The transaction can no longer commit: a task has only pretended to complete. */
  ghost predicate Doomed(s: State)
  {
    exists k :: 1 <= k < |s.task| && k <= s.completed && s.task[k].pc.Faked?
  }

  // ---------- what a task knows ----------

  ghost predicate FullWords(ops: seq<Op>)
  {
    forall n :: 0 <= n < |ops| && ops[n].Wr? ==> ops[n].mask == UNMASKED
  }

  ghost predicate Buffers(s: State, t: Task)
  {
    && t.buffer == BufferOf(t.ops) && FullWords(t.ops)
    && (forall n :: 0 <= n < |t.ops| ==> t.ops[n].a < |s.mem|)
    && (forall a :: a in t.buffer ==> a < |s.stripe| && s.stripe[a] in t.log)
  }

  /** A read that did not hit the task's own words returned what the logged past task left behind. */
  ghost predicate Sourced(s: State, t: Task, a: nat, v: Word)
    requires Sized(s) && a < |s.mem|
  {
    var x := s.stripe[a];
    || (x in t.readLog && v == s.mem[a])
    || (exists r :: r in t.taskReadLog && r.x == x && r.serial <= s.completed && v == After(s.mem, s.task, r.serial)[a])
    || (x in t.log && t.log[x] <= s.completed && v == After(s.mem, s.task, t.log[x])[a])
  }

  ghost predicate Reads(s: State, t: Task)
    requires Sized(s)
  {
    forall n :: 0 <= n < |t.ops| && t.ops[n].Rd? && t.ops[n].a < |s.mem| ==>
      var a, v, b := t.ops[n].a, t.ops[n].v, BufferOf(t.ops[..n]);
      if a in b then v == b[a].val else Sourced(s, t, a, v)
  }

  /** Up to last_writer, nobody has completed a write over what task i read. */
  ghost predicate UpToDate(s: State, i: nat)
    requires 1 <= i < |s.task|
  {
    var t := s.task[i];
    && t.lastWriter <= s.writer
    && (forall r, j :: r in t.taskReadLog && r.serial < j < i && j <= t.lastWriter && j <= s.completed ==>
          r.x !in s.task[j].log)
    && (forall x, j :: x in t.readLog && 1 <= j < i && j <= t.lastWriter && j <= s.completed ==>
          x !in s.task[j].log)
  }

  ghost predicate Sound(s: State)
    requires Sized(s)
  {
    && s.writer <= s.completed
    && (forall k :: 1 <= k <= s.completed ==> Legal(After(s.mem, s.task, k - 1), s.task[k].ops))
    && (forall k :: s.writer < k <= s.completed ==> s.task[k].log == map[])
    && (forall k :: s.completed < k < |s.task| && Active(s.task[k]) ==>
          Reads(s, s.task[k]) && UpToDate(s, k))
  }

  /** A transaction is in flight. */
  predicate InFlight(s: State)
  {
    s.completed < Last(s)
  }

  ghost predicate TaskInv(s: State)
    ensures TaskInv(s) ==> Sized(s)
  {
    && Sized(s)
    && if InFlight(s) then
         && Chains(s)
         && (forall k :: 1 <= k < |s.task| ==> PhaseOk(s, k) && Buffers(s, s.task[k]))
         && (!Doomed(s) ==> Sound(s))
       else
         && (forall x :: 0 <= x < |s.wl| ==> s.wl[x] == NONE)
         && (forall k :: 1 <= k < |s.task| ==> s.task[k] == EXITED)
  }

  // ---------- walking the chain ----------

  lemma {:induction false} TopIs(task: seq<Task>, x: nat, k: nat, e: Pointer)
    requires k <= |task| && (e < k || e == NONE) && (e != NONE ==> x in task[e].log)
    requires forall j :: e < j < k ==> x !in task[j].log
    ensures Top(task, x, k) == e
  {
    TopFacts(task, x, k);
  }

  /** Following old_entry from the lock, past the entries of later tasks, leads to the last task before i. */
  lemma {:induction false} BeforeIsTop(s: State, x: nat, k: nat, i: nat)
    requires Sized(s) && Chains(s) && x < |s.wl| && 1 <= i <= k <= |s.task|
    ensures Before(s.task, x, Top(s.task, x, k), i) == Top(s.task, x, i)
    decreases k
  {
    var e := Top(s.task, x, k);
    TopFacts(s.task, x, k);
    if e == NONE || e < i {
      TopIs(s.task, x, i, e);
    } else {
      BeforeIsTop(s, x, e, i);
    }
  }

  lemma {:induction false} AfterWord(m: Memory, task: seq<Task>, k: nat, a: nat)
    requires 1 <= k < |task| && a < |m| && task[k].buffer == BufferOf(task[k].ops)
    ensures After(m, task, k)[a] == Through(task[k].buffer, a, After(m, task, k - 1)[a])
  {
    ApplyThroughBuffer(After(m, task, k - 1), task[k].ops, a);
  }

  lemma {:induction false} FullBuffer(ops: seq<Op>, a: nat)
    requires FullWords(ops) && a in BufferOf(ops)
    ensures BufferOf(ops)[a].mask == UNMASKED
  {
    var n := |ops| - 1;
    var o := ops[n];
    if a in BufferOf(ops[..n]) { FullBuffer(ops[..n], a); }
    if o.Wr? && o.a == a { AllOnes(if a in BufferOf(ops[..n]) then BufferOf(ops[..n])[a].mask else 0); }
  }

  lemma AllOnes(m: Word)
    ensures m | UNMASKED == UNMASKED
  {
  }

  lemma StripeAt(s: State, a: nat)
    requires Sized(s) && a < |s.mem|
    ensures a < |s.stripe| && s.stripe[a] < |s.wl| && s.wl[s.stripe[a]] < |s.task|
  {
  }

  /** Where no task in between wrote the stripe, the word is the same. */
  lemma {:induction false} AfterSame(s: State, e: nat, k: nat, a: nat)
    requires Sized(s) && e <= k < |s.task| && a < |s.mem|
    requires forall j :: e < j <= k ==> Buffers(s, s.task[j]) && s.stripe[a] !in s.task[j].log
    ensures After(s.mem, s.task, k)[a] == After(s.mem, s.task, e)[a]
    decreases k
  {
    hide BufferOf, Apply;
    if k > e {
      AfterSame(s, e, k - 1, a);
      AfterWord(s.mem, s.task, k, a);
    }
  }

  lemma OlderIsTop(s: State, x: nat, e: Pointer)
    requires Sized(s) && Chains(s) && 1 <= e < |s.task| && x in s.task[e].log
    ensures Older(s.task, x, e) == Top(s.task, x, e)
  {
  }

  lemma BufferWord(s: State, t: Task, a: nat, w: Word)
    requires Buffers(s, t)
    ensures t.buffer == BufferOf(t.ops)
    ensures a in t.buffer ==> a < |s.stripe| && s.stripe[a] in t.log && Through(t.buffer, a, w) == t.buffer[a].val
  {
    hide BufferOf;
    if a in t.buffer { FullBuffer(t.ops, a); }
  }

  /** A read through the chain returns the word the last writer left behind. */
  lemma {:induction false} LookIsAfter(s: State, e: Pointer, a: nat)
    requires Sized(s) && Chains(s) && a < |s.mem| && e < |s.task|
    requires forall k :: 1 <= k < |s.task| ==> Buffers(s, s.task[k])
    requires e == NONE || s.stripe[a] in s.task[e].log
    ensures Look(s, e, a) == After(s.mem, s.task, e)[a]
    decreases e
  {
    hide BufferOf, Apply, Chains, Buffers, Through, Older, Top;
    if e != NONE {
      BufferWord(s, s.task[e], a, s.mem[a]);
      BufferWord(s, s.task[e], a, After(s.mem, s.task, e - 1)[a]);
      AfterWord(s.mem, s.task, e, a);
      if a !in s.task[e].buffer {
        NotBuffered(s.task[e].buffer, a, After(s.mem, s.task, e - 1)[a]);
        OlderIsTop(s, s.stripe[a], e);
        var o := Top(s.task, s.stripe[a], e);
        TopFacts(s.task, s.stripe[a], e);
        LookIsAfter(s, o, a);
        AfterSame(s, o, e - 1, a);
      }
    }
  }

  lemma NotBuffered(b: Buffer, a: nat, w: Word)
    requires a !in b
    ensures Through(b, a, w) == w
  {
  }

  // ---------- reads that are still current are legal ----------

  /** Reads that return the task's own word, or else the word m holds, are those of a sequential execution. */
  ghost predicate ReadsFrom(m: Memory, ops: seq<Op>)
  {
    forall n :: 0 <= n < |ops| ==>
      && ops[n].a < |m|
      && (ops[n].Rd? ==>
            var b := BufferOf(ops[..n]);
            ops[n].v == if ops[n].a in b then b[ops[n].a].val else m[ops[n].a])
  }

  lemma {:induction false} ReadsLegal(m: Memory, ops: seq<Op>)
    requires ReadsFrom(m, ops) && FullWords(ops)
    ensures Legal(m, ops)
  {
    hide BufferOf, Apply;
    if ops != [] {
      var n := |ops| - 1;
      var p := ops[..n];
      assert forall j :: 0 <= j < n ==> p[j] == ops[j] && p[..j] == ops[..j];
      ReadsLegal(m, p);
      ApplyThroughBuffer(m, p, ops[n].a);
      if ops[n].a in BufferOf(p) { FullBuffer(p, ops[n].a); }
    }
  }

  /** No task in e+1..i-1 wrote stripe x. */
  ghost predicate Untouched(s: State, x: nat, e: nat, i: nat)
    requires i <= |s.task|
  {
    forall j :: e < j < i ==> x !in s.task[j].log
  }

  /** Skipping ValidateTLS when no writer has completed since is sound, and so is passing it. */
  lemma PassedIsCurrent(s: State, i: nat)
    requires Sized(s) && Chains(s) && 1 <= i < |s.task| && s.completed == i - 1
    requires Sound(s) && Active(s.task[i]) && Passes(s, i)
    ensures forall r :: r in s.task[i].taskReadLog ==> Untouched(s, r.x, r.serial, i)
    ensures forall x :: x in s.task[i].readLog ==> Untouched(s, x, 0, i)
    ensures forall x :: x in s.task[i].log ==> Untouched(s, x, s.task[i].log[x], i)
  {
    hide Before, Top, Buffers, Legal, Reads;
    assert UpToDate(s, i);
    var t := s.task[i];
    if s.writer > t.lastWriter {
      forall r | r in t.taskReadLog
        ensures Untouched(s, r.x, r.serial, i)
      {
        var n :| 0 <= n < |t.taskReadLog| && t.taskReadLog[n] == r;
        assert StillLast(s, i, t.taskReadLog[n]);
        BeforeIsTop(s, r.x, |s.task|, i);
        TopFacts(s.task, r.x, i);
      }
      forall x | x in t.readLog
        ensures Untouched(s, x, 0, i)
      {
        var n :| 0 <= n < |t.readLog| && t.readLog[n] == x;
        assert StillUnwritten(s, i, t.readLog[n]);
        BeforeIsTop(s, x, |s.task|, i);
        TopFacts(s.task, x, i);
      }
    }
    forall x | x in t.log
      ensures Untouched(s, x, t.log[x], i)
    {
      TopFacts(s.task, x, i);
    }
  }

  /** What a completing task has read is what the tasks before it leave behind. */
  lemma CurrentReads(s: State, i: nat)
    requires Sized(s) && Chains(s) && 1 <= i < |s.task| && s.completed == i - 1
    requires forall k :: 1 <= k < |s.task| ==> Buffers(s, s.task[k])
    requires Sound(s) && Active(s.task[i]) && Passes(s, i)
    ensures Legal(After(s.mem, s.task, i - 1), s.task[i].ops)
  {
    hide Chains, Before, Top, Legal, BufferOf, Apply, Passes;
    PassedIsCurrent(s, i);
    var t := s.task[i];
    var m := After(s.mem, s.task, i - 1);
    assert Reads(s, t) && Buffers(s, t);
    forall n | 0 <= n < |t.ops|
      ensures t.ops[n].a < |m|
      ensures t.ops[n].Rd? ==> t.ops[n].v == if t.ops[n].a in BufferOf(t.ops[..n]) then BufferOf(t.ops[..n])[t.ops[n].a].val else m[t.ops[n].a]
    {
      var a, v := t.ops[n].a, t.ops[n].v;
      if t.ops[n].Rd? && a !in BufferOf(t.ops[..n]) {
        CurrentSource(s, i, a, v);
      }
    }
    ReadsLegal(m, t.ops);
  }

  /** The task whose value was read, and that none in between wrote the stripe. */
  lemma SourceOf(s: State, i: nat, a: nat, v: Word) returns (k: nat)
    requires Sized(s) && 1 <= i < |s.task| && s.completed == i - 1 && a < |s.mem| && Sourced(s, s.task[i], a, v)
    requires forall r :: r in s.task[i].taskReadLog ==> Untouched(s, r.x, r.serial, i)
    requires forall x :: x in s.task[i].readLog ==> Untouched(s, x, 0, i)
    requires forall x :: x in s.task[i].log ==> Untouched(s, x, s.task[i].log[x], i)
    ensures k < i && v == After(s.mem, s.task, k)[a] && Untouched(s, s.stripe[a], k, i)
  {
    var t := s.task[i];
    var x := s.stripe[a];
    if x in t.readLog && v == s.mem[a] {
      k := 0;
    } else if x in t.log && t.log[x] <= s.completed && v == After(s.mem, s.task, t.log[x])[a] {
      k := t.log[x];
    } else {
      var r :| r in t.taskReadLog && r.x == x && r.serial <= s.completed && v == After(s.mem, s.task, r.serial)[a];
      k := r.serial;
    }
  }

  lemma CurrentSource(s: State, i: nat, a: nat, v: Word)
    requires Sized(s) && 1 <= i < |s.task| && s.completed == i - 1 && a < |s.mem|
    requires forall k :: 1 <= k < |s.task| ==> Buffers(s, s.task[k])
    requires Sourced(s, s.task[i], a, v)
    requires forall r :: r in s.task[i].taskReadLog ==> Untouched(s, r.x, r.serial, i)
    requires forall x :: x in s.task[i].readLog ==> Untouched(s, x, 0, i)
    requires forall x :: x in s.task[i].log ==> Untouched(s, x, s.task[i].log[x], i)
    ensures v == After(s.mem, s.task, i - 1)[a]
  {
    hide Buffers, Through, Sized, After, Sourced;
    var k := SourceOf(s, i, a, v);
    AfterSame(s, k, i - 1, a);
  }
}
