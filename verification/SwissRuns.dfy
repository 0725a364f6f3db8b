/** Every step keeps the invariant, so every reachable state has it. */
module SwissRuns {
  import opened Words
  import opened SwissState
  import opened SwissInvariant
  import opened SwissLocal
  import opened SwissReads
  import opened SwissCommit
  import opened SwissDecide

  // ---------- one word written back ----------

  lemma KeepWriteWord(s: State, t: nat, ts: nat, i: nat, done: set<nat>, a: nat)
    requires Inv(s) && t < |s.tx| && s.tx[t].pc == WriteBack(ts, i, done) && i < |s.tx[t].writeLog|
    requires a in s.tx[t].buffer && Todo(s, t, i, done, a)
    ensures Inv(StepWriteWord(s, t, ts, i, done, a))
  {
    hide Thread, Shared, Apart;
    Here(s, t);
    var s' := StepWriteWord(s, t, ts, i, done, a);
    OnlyOwner(s, t, i);
    WriteWordSet(s, t, ts, i, done);
    WriteWordShared(s, t, ts, i, done, a);
    forall u | 0 <= u < |s.tx|
      ensures Thread(s', u, s'.tx[u])
    {
      if u == t { WriteWordSelf(s, t, ts, i, done, a); } else { WriteWordOther(s, t, ts, i, done, a, u); }
    }
    forall u, w | 0 <= u < |s.tx| && 0 <= w < |s.tx| && u != w
      ensures Apart(s', s'.tx[u], s'.tx[w])
    {
      assert Apart(s, s.tx[u], s.tx[w]);
      WriteWordApart(s, t, ts, i, done, a, u, w);
    }
  }

  lemma WriteWordSet(s: State, t: nat, ts: nat, i: nat, done: set<nat>)
    requires Inv(s) && t < |s.tx| && s.tx[t].pc == WriteBack(ts, i, done) && i < |s.tx[t].writeLog|
    ensures s.tx[t].writeLog[i].x < |s.rl| && s.rl[s.tx[t].writeLog[i].x].Set?
  {
    hide Apart;
    assert Thread(s, t, s.tx[t]);
  }

  lemma WriteWordShared(s: State, t: nat, ts: nat, i: nat, done: set<nat>, a: nat)
    requires Shared(s) && t < |s.tx| && s.tx[t].pc == WriteBack(ts, i, done) && i < |s.tx[t].writeLog|
    requires a < |s.mem| && s.stripe[a] == s.tx[t].writeLog[i].x && s.rl[s.tx[t].writeLog[i].x].Set?
    ensures Shared(StepWriteWord(s, t, ts, i, done, a))
  {
    hide History, Through;
    var s' := StepWriteWord(s, t, ts, i, done, a);
    assert LocksPointBack(s'.wl, s'.tx);
    assert SetMeansCommitting(s'.rl, s'.wl, s'.tx);
    assert UnlockedCurrent(s'.stripe, s'.mem, s'.hist, s'.rl);
  }

  lemma WriteWordSelf(s: State, t: nat, ts: nat, i: nat, done: set<nat>, a: nat)
    requires Inv(s) && t < |s.tx| && s.tx[t].pc == WriteBack(ts, i, done) && i < |s.tx[t].writeLog|
    requires a in s.tx[t].buffer && Todo(s, t, i, done, a)
    ensures var s' := StepWriteWord(s, t, ts, i, done, a); Thread(s', t, s'.tx[t])
  {
    hide Apart, Shared, Through, Legal, BufferOf;
    assert Thread(s, t, s.tx[t]);
  }

  lemma WriteWordOther(s: State, t: nat, ts: nat, i: nat, done: set<nat>, a: nat, u: nat)
    requires Inv(s) && t < |s.tx| && s.tx[t].pc == WriteBack(ts, i, done) && i < |s.tx[t].writeLog|
    requires a < |s.mem| && s.stripe[a] == s.tx[t].writeLog[i].x && s.rl[s.tx[t].writeLog[i].x].Set?
    requires u < |s.tx| && u != t
    requires forall n :: 0 <= n < |s.tx[u].writeLog| && Holds(s.tx[u], n) ==> s.tx[u].writeLog[n].x != s.tx[t].writeLog[i].x
    ensures Thread(StepWriteWord(s, t, ts, i, done, a), u, s.tx[u])
  {
    hide Apart, Shared, Legal, BufferOf, Covered, ReadsConstant, Live, Recorded;
    assert Thread(s, u, s.tx[u]);
    LocksHeld(s.tx[u]);
  }

  lemma WriteWordApart(s: State, t: nat, ts: nat, i: nat, done: set<nat>, a: nat, u: nat, w: nat)
    requires t < |s.tx| && s.tx[t].pc == WriteBack(ts, i, done) && i < |s.tx[t].writeLog|
    requires a < |s.mem| && a < |s.stripe| && s.stripe[a] == s.tx[t].writeLog[i].x
    requires u < |s.tx| && w < |s.tx| && u != w && Apart(s, s.tx[u], s.tx[w])
    requires forall v, n :: 0 <= v < |s.tx| && 0 <= n < |s.tx[v].writeLog| && Holds(s.tx[v], n) && (v != t || n != i) ==>
               s.tx[v].writeLog[n].x != s.tx[t].writeLog[i].x
    ensures var s' := StepWriteWord(s, t, ts, i, done, a); Apart(s', s'.tx[u], s'.tx[w])
  {
    hide Through;
    LocksHeld(s.tx[w]);
  }

  // ---------- a read-only commit ----------

  lemma HistoryReadOnly(hist: seq<Memory>, recs: seq<Rec>, r: Rec)
    requires History(hist, recs) && !r.update && r.ts < |hist| && Legal(hist[r.ts], r.ops)
    requires BufferOf(r.ops) == map[]
    requires r.begin <= |recs| && forall i :: 0 <= i < r.begin ==> recs[i].ts <= r.ts
    ensures History(hist, recs + [r])
  {
    hide Legal, BufferOf, Through;
    var q := recs + [r];
    assert q[|recs|] == r && forall i :: 0 <= i < |recs| ==> q[i] == recs[i];
    assert RecsLegal(hist, q);
    forall T, a | 1 <= T < |hist| && 0 <= a < |hist[0]| && !WrittenAt(q, T, a)
      ensures hist[T][a] == hist[T - 1][a]
    {
      WrittenMore(recs, r, T, a);
    }
  }

  lemma KeepReadOnly(s: State, t: nat)
    requires Inv(s) && t < |s.tx| && s.tx[t].pc.Running? && s.tx[t].writeLog == []
    ensures Inv(StepCommit(s, t))
  {
    hide Thread, Shared, Apart;
    var s' := StepCommit(s, t);
    ReadOnlyShared(s, t);
    CleanSelf(s, t, Clean(s.tx[t]));
    forall u | 0 <= u < |s.tx|
      ensures Thread(s', u, s'.tx[u])
    {
      if u == t { CleanRecs(s, t); } else { ReadOnlyOther(s, t, u); }
    }
    forall u | 0 <= u < |s.tx| && u != t
      ensures Apart(s', s'.tx[t], s'.tx[u]) && Apart(s', s'.tx[u], s'.tx[t])
    {
      QuietApart(s, s', s'.tx[t], s.tx[u]);
    }
    Assemble(s, s', t);
  }

  lemma ReadOnlyShared(s: State, t: nat)
    requires Inv(s) && t < |s.tx| && s.tx[t].pc.Running? && s.tx[t].writeLog == []
    ensures Shared(StepCommit(s, t))
  {
    hide Apart, History, Legal, BufferOf, UnlockedCurrent;
    var s' := StepCommit(s, t);
    var x := s.tx[t];
    assert Thread(s, t, x);
    assert x.buffer == map[];
    HistoryReadOnly(s.hist, s.recs, Rec(x.validTs, false, x.ops, x.begin));
    assert LocksPointBack(s'.wl, s'.tx);
    assert SetMeansCommitting(s'.rl, s'.wl, s'.tx);
    assert StampsUnique(s'.gv4, s'.tx, s'.recs);
  }

  lemma CleanRecs(s: State, t: nat)
    requires t < |s.tx| && s.tx[t].pc.Running? && s.tx[t].writeLog == []
    requires Thread(Put(s, t, Clean(s.tx[t])), t, Clean(s.tx[t]))
    ensures var s' := StepCommit(s, t); Thread(s', t, s'.tx[t])
  {
  }

  lemma ReadOnlyOther(s: State, t: nat, u: nat)
    requires Inv(s) && t < |s.tx| && s.tx[t].pc.Running? && s.tx[t].writeLog == [] && u < |s.tx| && u != t
    ensures Thread(StepCommit(s, t), u, s.tx[u])
  {
    hide Shared, Legal, BufferOf;
    var s' := StepCommit(s, t);
    var x := s.tx[u];
    assert Thread(s, u, x) && Apart(s, s.tx[t], x);
    ReadOnlyRecs(s, t, u);
  }

  lemma ReadOnlyRecs(s: State, t: nat, u: nat)
    requires Inv(s) && t < |s.tx| && s.tx[t].pc.Running? && s.tx[t].writeLog == [] && u < |s.tx| && u != t
    ensures RecsBefore(s.stripe, StepCommit(s, t).recs, s.tx[u])
  {
    hide Shared, Legal, BufferOf;
    assert Thread(s, t, s.tx[t]) && Thread(s, u, s.tx[u]) && Apart(s, s.tx[t], s.tx[u]);
    var recs := StepCommit(s, t).recs;
    var x := s.tx[u];
    if Pending(x) {
      forall i, k | 0 <= i < |recs| && 0 <= k < |x.writeLog| && TouchesStripe(s.stripe, recs[i].ops, x.writeLog[k].x)
        ensures recs[i].ts < Floor(x)
      {
        if i == |s.recs| { ReadRec(s.stripe, s.tx[t], x, k); }
      }
    }
  }

  lemma ReadRec(stripe: seq<nat>, x: Tx, u: Tx, k: nat)
    requires x.pc.Running? && x.writeLog == [] && Covered(stripe, x)
    requires Pending(u) && k < |u.writeLog| && LaterThan(x, u) && TouchesStripe(stripe, x.ops, u.writeLog[k].x)
    ensures x.validTs < Floor(u)
  {
  }

  // ---------- every step, every run ----------

  /** Steps of a transaction in user code. */
  lemma KeepUser(s: State, t: nat, ch: Choice)
    requires Inv(s) && Enabled(s, t, ch) && s.tx[t].pc.Running?
    ensures Inv(Step(s, t, ch))
  {
    hide Inv, Shared, Thread, Apart;
    InvSized(s);
    match ch
    case Read(a) => KeepRead(s, t, a);
    case Write(w) =>
      if s.wl[s.stripe[w.a]].Held? && s.wl[s.stripe[w.a]].t == t {
        KeepWriteOwn(s, t, w);
      } else {
        Move(s, t, s.tx[t].(pc := if s.wl[s.stripe[w.a]].Clear? then TryLock(w) else Conflict(w)));
      }
    case Commit => if s.tx[t].writeLog == [] { KeepReadOnly(s, t); } else { KeepCommitUpdate(s, t); }
    case Abort => Move(s, t, s.tx[t].(pc := Dropping(0)));
    case _ =>
  }

  lemma InvSized(s: State)
    requires Inv(s)
    ensures Formed(s)
  {
  }

  lemma KeepCall(s: State, t: nat, ch: Choice)
    requires Inv(s) && Enabled(s, t, ch) && Plain(s.tx[t].pc) && !s.tx[t].pc.Running?
    ensures Inv(Step(s, t, ch))
  {
    hide Inv, Shared, Thread, Apart;
    InvSized(s);
    Here(s, t);
    match s.tx[t].pc
    case StartGreedy => KeepStartGreedy(s, t);
    case StartFlag => KeepStartFlag(s, t);
    case ReadOwn(a) => KeepReadOwn(s, t, a);
    case ReadVersion(a) => KeepReadVersion(s, t, a);
    case ReadValue(a, v) => KeepReadValue(s, t, a, v);
    case ReadAgain(a, v, val) =>
      if s.rl[s.stripe[a]] != Ver(v) { KeepReadRetry(s, t, a, v, val); }
      else if v <= s.tx[t].validTs { KeepReadAgain(s, t, a, v, val); }
      else { KeepReadNewer(s, t, a, v, val); }
    case Conflict(w) => KeepConflict(s, t, w);
    case ConflictOwner(w) => KeepConflictOwner(s, t, w);
    case ConflictRank(w, o) => KeepConflictRank(s, t, w, o);
    case ConflictFlag(w, o) => KeepConflictFlag(s, t, w, o);
    case ConflictReload(w) => KeepConflictReload(s, t, w);
    case TryLock(w) => KeepTryLock(s, t, w);
    case LockFailed(w) => KeepLockFailed(s, t, w);
    case CmTicket => KeepCmTicket(s, t);
    case CmStore(g) => KeepCmStore(s, t, g);
    case ExtendClock(k) => KeepExtendClock(s, t, k);
    case Extending(k, c, i) =>
      if i < |s.tx[t].readLog| { KeepExtendingEntry(s, t, k, c, i); }
      else if k.RetRead? { KeepExtendedRead(s, t, k.a, k.val, c); }
      else { KeepExtendedWrite(s, t, k.w, c); }
    case _ =>
  }

  lemma KeepCommitting(s: State, t: nat, ch: Choice)
    requires Inv(s) && Enabled(s, t, ch) && !Plain(s.tx[t].pc) && Live(s.tx[t])
    ensures Inv(Step(s, t, ch))
  {
    hide Inv, Shared, Thread, Apart;
    InvSized(s);
    Here(s, t);
    match s.tx[t].pc
    case LockVersion(w) => KeepLockVersion(s, t, w);
    case LockReads(i) => KeepLockReads(s, t, i);
    case TakeTs => if s.gv4 { KeepTakeTsSeen(s, t); } else { KeepTakeTsInc(s, t); }
    case TakeTsGV4(seen) => KeepTakeTsGV4(s, t, seen);
    case Validating(ts, i) =>
      if i < |s.tx[t].readLog| { KeepValidatingEntry(s, t, ts, i); } else { KeepDecide(s, t, ts); }
    case ValidatingLocked(ts, i) => KeepValidatingLocked(s, t, ts, i);
    case _ =>
  }

  lemma KeepEnding(s: State, t: nat, ch: Choice)
    requires Inv(s) && Enabled(s, t, ch) && !Live(s.tx[t])
    ensures Inv(Step(s, t, ch))
  {
    hide Inv, Shared, Thread, Apart;
    InvSized(s);
    Here(s, t);
    match s.tx[t].pc
    case Idle => KeepBegin(s, t);
    case WriteBack(ts, i, done) =>
      if ch.Word? && i < |s.tx[t].writeLog| { KeepWriteWord(s, t, ts, i, done, ch.a); }
      else if i < |s.tx[t].writeLog| { KeepReleaseRead(s, t, ts, i, done); }
      else { KeepClean(s, t); }
    case ReleaseWrite(ts, i, done) => KeepReleaseWrite(s, t, ts, i, done);
    case RestoreReads(i) =>
      if i < |s.tx[t].writeLog| { KeepRestoreReads(s, t, i); } else { KeepRestored(s, t); }
    case Dropping(i) =>
      if i < |s.tx[t].writeLog| { KeepDropping(s, t, i); } else { KeepClean(s, t); }
    case _ =>
  }

  lemma EnabledThread(s: State, t: nat, ch: Choice)
    requires Enabled(s, t, ch)
    ensures t < |s.tx|
  {
  }

  /** Every atomic step of every thread keeps the invariant. */
  lemma StepKeeps(s: State, t: nat, ch: Choice)
    requires Inv(s) && Enabled(s, t, ch)
    ensures Inv(Step(s, t, ch))
  {
    hide Inv, Step;
    if s.tx[t].pc.Running? { KeepUser(s, t, ch); }
    else if Plain(s.tx[t].pc) { KeepCall(s, t, ch); }
    else if Live(s.tx[t]) { KeepCommitting(s, t, ch); }
    else { KeepEnding(s, t, ch); }
  }

  /** No step rewrites the initial memory, the lock mapping, or what has been decided. */
  ghost predicate Extends(s: State, s': State)
  {
    && s'.gv4 == s.gv4 && s'.stripe == s.stripe
    && s.hist != [] && s'.hist != [] && s'.hist[0] == s.hist[0]
    && s.recs <= s'.recs
  }

  lemma StepExtends(s: State, t: nat, ch: Choice)
    requires Inv(s) && Enabled(s, t, ch)
    ensures Extends(s, Step(s, t, ch))
  {
    hide Inv;
    InvSized(s);
    if s.tx[t].pc.Validating? { DecideLater(s, t); }
    if Plain(s.tx[t].pc) { CallExtends(s, t, ch); } else { CommitExtends(s, t, ch); }
  }

  lemma DecideLater(s: State, t: nat)
    requires Inv(s) && t < |s.tx| && s.tx[t].pc.Validating?
    ensures 1 <= s.tx[t].pc.ts
  {
    hide Shared, Apart;
    assert Thread(s, t, s.tx[t]);
  }

  lemma CallExtends(s: State, t: nat, ch: Choice)
    requires Formed(s) && Enabled(s, t, ch) && Plain(s.tx[t].pc)
    ensures Extends(s, Step(s, t, ch))
  {
  }

  lemma CommitExtends(s: State, t: nat, ch: Choice)
    requires Formed(s) && Enabled(s, t, ch) && !Plain(s.tx[t].pc)
    requires s.tx[t].pc.Validating? ==> 1 <= s.tx[t].pc.ts
    ensures Extends(s, Step(s, t, ch))
  {
    if Decided(s.tx[t]) || s.tx[t].pc.RestoreReads? || s.tx[t].pc.Dropping? { EndingExtends(s, t, ch); }
  }

  lemma EndingExtends(s: State, t: nat, ch: Choice)
    requires Formed(s) && Enabled(s, t, ch) && (Decided(s.tx[t]) || s.tx[t].pc.RestoreReads? || s.tx[t].pc.Dropping?)
    ensures Extends(s, Step(s, t, ch))
  {
  }

  datatype Event = Event(t: nat, ch: Choice)

  /** s' is reached from s by this interleaving of steps. */
  ghost predicate Leads(s: State, run: seq<Event>, s': State)
    decreases |run|
  {
    if run == [] then s' == s
    else Formed(s) && Enabled(s, run[0].t, run[0].ch) && Leads(Step(s, run[0].t, run[0].ch), run[1..], s')
  }

  lemma {:induction false} RunKeeps(s: State, run: seq<Event>, s': State)
    requires Inv(s) && Leads(s, run, s')
    ensures Inv(s') && Extends(s, s')
    decreases |run|
  {
    hide Inv, Step, Enabled;
    if run == [] {
      InvSized(s);
    } else {
      StepKeeps(s, run[0].t, run[0].ch);
      StepExtends(s, run[0].t, run[0].ch);
      RunKeeps(Step(s, run[0].t, run[0].ch), run[1..], s');
    }
  }

  /** A lock table that covers the words. */
  predicate Mapped(stripe: seq<nat>, stripes: nat, m: Memory)
  {
    |stripe| == |m| && forall a :: 0 <= a < |stripe| ==> stripe[a] < stripes
  }

  lemma InitInv(gv4: bool, stripe: seq<nat>, stripes: nat, threads: nat, m: Memory)
    requires Mapped(stripe, stripes, m)
    ensures Inv(Init(gv4, stripe, stripes, threads, m))
  {
    var s := Init(gv4, stripe, stripes, threads, m);
    assert History(s.hist, s.recs);
    assert Shared(s);
  }

  /** s can be reached from initial memory m by any interleaving of any number of threads. */
  ghost predicate Reachable(m: Memory, s: State)
  {
    exists gv4: bool, stripe, stripes: nat, threads: nat, run ::
      Mapped(stripe, stripes, m) && Leads(Init(gv4, stripe, stripes, threads, m), run, s)
  }

  lemma ReachableInv(m: Memory, s: State)
    requires Reachable(m, s)
    ensures Inv(s) && s.hist != [] && s.hist[0] == m
  {
    hide Inv;
    var gv4: bool, stripe, stripes: nat, threads: nat, run :|
      Mapped(stripe, stripes, m) && Leads(Init(gv4, stripe, stripes, threads, m), run, s);
    InitInv(gv4, stripe, stripes, threads, m);
    RunKeeps(Init(gv4, stripe, stripes, threads, m), run, s);
  }
}
