/** Locking, committing and rolling back keep the invariant. */
module SwissCommit {
  import opened Words
  import opened SwissState
  import opened SwissInvariant
  import opened SwissLocal

  /** The invariant from its parts, for a step of thread t that leaves the other descriptors alone. */
  lemma Assemble(s: State, s': State, t: nat)
    requires Inv(s) && t < |s.tx| && |s'.tx| == |s.tx| && s'.stripe == s.stripe && s'.mem == s.mem
    requires forall u :: 0 <= u < |s.tx| && u != t ==> s'.tx[u] == s.tx[u]
    requires Shared(s')
    requires forall u :: 0 <= u < |s.tx| ==> Thread(s', u, s'.tx[u])
    requires forall u :: 0 <= u < |s.tx| && u != t ==> Apart(s', s'.tx[t], s'.tx[u]) && Apart(s', s'.tx[u], s'.tx[t])
    ensures Inv(s')
  {
    hide Thread, Shared;
    forall u, w | 0 <= u < |s.tx| && 0 <= w < |s.tx| && u != w
      ensures Apart(s', s'.tx[u], s'.tx[w])
    {
      assert Apart(s, s.tx[u], s.tx[w]);
    }
  }

  /** Two unreleased write-log entries of different threads, or different entries of one, lock different stripes. */
  lemma Disjoint(s: State, t: nat, k: nat, u: nat, n: nat)
    requires Inv(s) && t < |s.tx| && u < |s.tx| && k < |s.tx[t].writeLog| && n < |s.tx[u].writeLog|
    requires Holds(s.tx[t], k) && Holds(s.tx[u], n) && (t != u || k != n)
    ensures s.tx[t].writeLog[k].x != s.tx[u].writeLog[n].x
  {
    assert Thread(s, t, s.tx[t]) && Thread(s, u, s.tx[u]);
  }

  /** Nobody but the owner has an unreleased entry for a stripe. */
  lemma OnlyOwner(s: State, t: nat, k: nat)
    requires Inv(s) && t < |s.tx| && k < |s.tx[t].writeLog| && Holds(s.tx[t], k)
    ensures s.tx[t].writeLog[k].x < |s.wl| && s.wl[s.tx[t].writeLog[k].x] == Held(t, k)
    ensures forall u, n :: 0 <= u < |s.tx| && 0 <= n < |s.tx[u].writeLog| && Holds(s.tx[u], n) && (u != t || n != k) ==>
              s.tx[u].writeLog[n].x != s.tx[t].writeLog[k].x
  {
    hide Thread, Shared, Apart;
    forall u, n | 0 <= u < |s.tx| && 0 <= n < |s.tx[u].writeLog| && Holds(s.tx[u], n) && (u != t || n != k)
      ensures s.tx[u].writeLog[n].x != s.tx[t].writeLog[k].x
    {
      Disjoint(s, t, k, u, n);
    }
    assert Thread(s, t, s.tx[t]);
    EntryIsLocked(s, t, k);
  }

  lemma EntryIsLocked(s: State, t: nat, k: nat)
    requires Inv(s) && t < |s.tx| && k < |s.tx[t].writeLog| && Holds(s.tx[t], k)
    ensures s.tx[t].writeLog[k].x < |s.wl| && s.wl[s.tx[t].writeLog[k].x] == Held(t, k)
  {
    assert Thread(s, t, s.tx[t]);
  }

  // ---------- the write lock ----------

  lemma KeepTryLock(s: State, t: nat, w: Request)
    requires Inv(s) && t < |s.tx| && s.tx[t].pc == TryLock(w)
    ensures TxOk(s, s.tx[t]) && Inv(StepTryLock(s, t, w))
  {
    hide Thread, Shared, Apart;
    Here(s, t);
    if s.wl[s.stripe[w.a]].Clear? {
      var s' := StepTryLock(s, t, w);
      TryLockShared(s, t, w);
      forall u | 0 <= u < |s.tx|
        ensures Thread(s', u, s'.tx[u])
      {
        if u == t { TryLockSelf(s, t, w); } else { TryLockOther(s, t, w, u); }
      }
      forall u | 0 <= u < |s.tx| && u != t
        ensures Apart(s', s'.tx[t], s'.tx[u]) && Apart(s', s'.tx[u], s'.tx[t])
      {
        assert Apart(s, s.tx[t], s.tx[u]) && Apart(s, s.tx[u], s.tx[t]);
        TryLockApart(s, s', s.tx[t], s'.tx[t], s.tx[u]);
      }
      Assemble(s, s', t);
    } else {
      Move(s, t, s.tx[t].(pc := LockFailed(w)));
    }
  }

  lemma TryLockShared(s: State, t: nat, w: Request)
    requires Shared(s) && t < |s.tx| && s.tx[t].pc == TryLock(w) && TxOk(s, s.tx[t]) && s.wl[s.stripe[w.a]].Clear?
    ensures Shared(StepTryLock(s, t, w))
  {
    var s' := StepTryLock(s, t, w);
    assert LocksPointBack(s'.wl, s'.tx);
    assert SetMeansCommitting(s'.rl, s'.wl, s'.tx);
  }

  /** The entry just added covers no operation yet, and uncovers none. */
  lemma TryLockCovers(stripe: seq<nat>, x: Tx, y: Tx)
    requires x.pc.TryLock? && y.pc.LockVersion? && y.ops == x.ops && y.readLog == x.readLog && y.buffer == x.buffer
    requires x.writeLog < y.writeLog && |y.writeLog| == |x.writeLog| + 1
    ensures Covered(stripe, x) ==> Covered(stripe, y)
    ensures BufferLocked(stripe, x) ==> BufferLocked(stripe, y)
  {
    assert forall i: nat :: Writes(x, i) ==> Writes(y, i);
    assert forall i: nat :: Logged(x, i) ==> Logged(y, i);
  }

  lemma TryLockSelf(s: State, t: nat, w: Request)
    requires Inv(s) && t < |s.tx| && s.tx[t].pc == TryLock(w) && TxOk(s, s.tx[t]) && s.wl[s.stripe[w.a]].Clear?
    ensures var s' := StepTryLock(s, t, w); Thread(s', t, s'.tx[t])
  {
    hide Inv, Legal, BufferOf, Covered, Current, Constant, Shared;
    var s' := StepTryLock(s, t, w);
    var x, y := s.tx[t], s'.tx[t];
    Mine(s, t);
    assert forall k :: 0 <= k < |x.writeLog| ==> y.writeLog[k] == x.writeLog[k];
    TryLockCovers(s.stripe, x, y);
  }

  lemma TryLockOther(s: State, t: nat, w: Request, u: nat)
    requires Inv(s) && t < |s.tx| && s.tx[t].pc == TryLock(w) && TxOk(s, s.tx[t]) && s.wl[s.stripe[w.a]].Clear?
    requires u < |s.tx| && u != t
    ensures Thread(StepTryLock(s, t, w), u, s.tx[u])
  {
    hide Apart;
    assert Thread(s, u, s.tx[u]);
  }

  lemma TryLockApart(s: State, s': State, x: Tx, y: Tx, u: Tx)
    requires Apart(s, x, u) && Apart(s, u, x) && s'.stripe == s.stripe && s'.mem == s.mem
    requires x.pc.TryLock? && y.pc.LockVersion? && y.readLog == x.readLog && y.validTs == x.validTs
    ensures Apart(s', y, u) && Apart(s', u, y)
  {
  }

  // ---------- the read locks ----------

  lemma KeepCommitUpdate(s: State, t: nat)
    requires Inv(s) && t < |s.tx| && s.tx[t].pc.Running? && s.tx[t].writeLog != []
    ensures Inv(StepCommit(s, t))
  {
    hide Thread, Shared, Apart;
    Here(s, t);
    Move(s, t, s.tx[t].(pc := LockReads(0)));
  }

  lemma KeepLockReads(s: State, t: nat, i: nat)
    requires Inv(s) && t < |s.tx| && s.tx[t].pc == LockReads(i)
    ensures TxOk(s, s.tx[t]) && Inv(StepLockReads(s, t, i))
  {
    hide Thread, Shared, Apart;
    Here(s, t);
    var s' := StepLockReads(s, t, i);
    OnlyOwner(s, t, i);
    LockReadsShared(s, t, i);
    forall u | 0 <= u < |s.tx|
      ensures Thread(s', u, s'.tx[u])
    {
      if u == t { LockReadsSelf(s, t, i); } else { LockReadsOther(s, t, i, u); }
    }
    forall u | 0 <= u < |s.tx| && u != t
      ensures Apart(s', s'.tx[t], s'.tx[u]) && Apart(s', s'.tx[u], s'.tx[t])
    {
      LockReadsApart(s, t, i, u);
    }
    Assemble(s, s', t);
  }

  lemma LockReadsShared(s: State, t: nat, i: nat)
    requires Shared(s) && t < |s.tx| && s.tx[t].pc == LockReads(i) && TxOk(s, s.tx[t])
    requires s.wl[s.tx[t].writeLog[i].x] == Held(t, i)
    ensures Shared(StepLockReads(s, t, i))
  {
    hide Current, History;
    var s' := StepLockReads(s, t, i);
    assert LocksPointBack(s'.wl, s'.tx);
    assert SetMeansCommitting(s'.rl, s'.wl, s'.tx);
  }

  lemma LockReadsSelf(s: State, t: nat, i: nat)
    requires Inv(s) && t < |s.tx| && s.tx[t].pc == LockReads(i) && TxOk(s, s.tx[t])
    requires forall n :: 0 <= n < |s.tx[t].writeLog| && n != i ==> s.tx[t].writeLog[n].x != s.tx[t].writeLog[i].x
    ensures var s' := StepLockReads(s, t, i); Thread(s', t, s'.tx[t])
  {
    hide Inv, Legal, BufferOf, Current, Covered, History;
    var s' := StepLockReads(s, t, i);
    var x, y := s.tx[t], s'.tx[t];
    Mine(s, t);
    assert s.rl[x.writeLog[i].x] == Ver(x.writeLog[i].oldVersion);
    SameCovered(s.stripe, x, y);
  }

  lemma LockReadsOther(s: State, t: nat, i: nat, u: nat)
    requires Inv(s) && t < |s.tx| && s.tx[t].pc == LockReads(i) && TxOk(s, s.tx[t])
    requires u < |s.tx| && u != t
    requires forall n :: 0 <= n < |s.tx[u].writeLog| && Holds(s.tx[u], n) ==> s.tx[u].writeLog[n].x != s.tx[t].writeLog[i].x
    ensures Thread(StepLockReads(s, t, i), u, s.tx[u])
  {
    hide Inv, Legal, BufferOf, Covered, Current, Constant;
    Mine(s, u);
    assert AtPc(StepLockReads(s, t, i), s.tx[u]);
    hide AtPc;
    RlOther(s, StepLockReads(s, t, i), s.tx[t].writeLog[i].x, Set, u);
  }

  lemma Pair(s: State, t: nat, u: nat)
    requires Inv(s) && t < |s.tx| && u < |s.tx| && u != t
    ensures Sized(s) && Thread(s, t, s.tx[t]) && Thread(s, u, s.tx[u])
    ensures Apart(s, s.tx[t], s.tx[u]) && Apart(s, s.tx[u], s.tx[t])
  {
    hide Thread, Apart;
  }

  lemma LockReadsApart(s: State, t: nat, i: nat, u: nat)
    requires Inv(s) && t < |s.tx| && s.tx[t].pc == LockReads(i) && TxOk(s, s.tx[t]) && u < |s.tx| && u != t
    ensures var s' := StepLockReads(s, t, i); Apart(s', s'.tx[t], s.tx[u]) && Apart(s', s.tx[u], s'.tx[t])
  {
    hide Inv, EntriesLocked, LockedCurrent, WritingBack, ReadsConstant, Snapshot, BufferLocked;
    Pair(s, t, u);
  }

  // ---------- releasing ----------

  /** Entries of u with a stripe other than i are not affected by a change of the read lock of i. */
  lemma RlOther(s: State, s': State, i: nat, r: ReadLock, u: nat)
    requires Sized(s) && u < |s.tx| && i < |s.rl| && Thread(s, u, s.tx[u])
    requires s' == s.(rl := s.rl[i := r], tx := s'.tx) && |s'.tx| == |s.tx|
    requires forall n :: 0 <= n < |s.tx[u].writeLog| && Holds(s.tx[u], n) ==> s.tx[u].writeLog[n].x != i
    requires AtPc(s', s.tx[u])
    ensures Thread(s', u, s.tx[u])
  {
    hide ReadLocked, Recorded, Pending, Live, Bound, Legal, BufferOf, Covered;
    LocksHeld(s.tx[u]);
  }

  lemma LocksHeld(x: Tx)
    ensures forall k: nat :: ReadLocked(x, k) ==> Holds(x, k)
    ensures (Live(x) || x.pc.RestoreReads?) ==> forall k: nat :: Holds(x, k)
  {
  }

  /** The write lock of i is released by its owner. */
  lemma WlOther(s: State, s': State, i: nat, u: nat)
    requires Sized(s) && u < |s.tx| && i < |s.wl| && Thread(s, u, s.tx[u])
    requires s' == s.(wl := s.wl[i := Clear], tx := s'.tx) && |s'.tx| == |s.tx|
    requires forall n :: 0 <= n < |s.tx[u].writeLog| && Holds(s.tx[u], n) ==> s.tx[u].writeLog[n].x != i
    ensures Thread(s', u, s.tx[u])
  {
    hide ReadLocked, Recorded, Pending, Live, Bound, Legal, BufferOf, Covered;
  }

  lemma KeepReleaseRead(s: State, t: nat, ts: nat, i: nat, done: set<nat>)
    requires Inv(s) && t < |s.tx| && s.tx[t].pc == WriteBack(ts, i, done) && i < |s.tx[t].writeLog|
    requires forall a :: a in s.tx[t].buffer ==> !Todo(s, t, i, done, a)
    ensures TxOk(s, s.tx[t]) && Inv(StepReleaseRead(s, t, ts, i, done))
  {
    hide Thread, Shared, Apart;
    Here(s, t);
    var s' := StepReleaseRead(s, t, ts, i, done);
    OnlyOwner(s, t, i);
    ReleaseReadCurrent(s, t, ts, i, done);
    ReleaseReadShared(s, t, ts, i, done);
    forall u | 0 <= u < |s.tx|
      ensures Thread(s', u, s'.tx[u])
    {
      if u == t {
        ReleaseReadSelf(s, t, ts, i, done);
      } else {
        assert Thread(s, u, s.tx[u]);
        ReleaseReadAtPc(s, t, ts, i, done, u);
        RlOther(s, s', s.tx[t].writeLog[i].x, Ver(ts), u);
      }
    }
    forall u | 0 <= u < |s.tx| && u != t
      ensures Apart(s', s'.tx[t], s'.tx[u]) && Apart(s', s'.tx[u], s'.tx[t])
    {
      assert Apart(s, s.tx[t], s.tx[u]) && Apart(s, s.tx[u], s.tx[t]);
      DecidedApart(s, s', s.tx[t], s'.tx[t], s.tx[u]);
    }
    Assemble(s, s', t);
  }

  /** Everything has been written back: memory is the new history of the stripe. */
  lemma ReleaseReadCurrent(s: State, t: nat, ts: nat, i: nat, done: set<nat>)
    requires Inv(s) && t < |s.tx| && s.tx[t].pc == WriteBack(ts, i, done) && i < |s.tx[t].writeLog|
    requires forall a :: a in s.tx[t].buffer ==> !Todo(s, t, i, done, a)
    ensures ts < |s.hist| && Current(s.stripe, s.mem, s.hist, s.tx[t].writeLog[i].x, ts)
  {
    hide Apart, MaskWord;
    assert Thread(s, t, s.tx[t]);
  }

  lemma ReleaseReadShared(s: State, t: nat, ts: nat, i: nat, done: set<nat>)
    requires Shared(s) && t < |s.tx| && s.tx[t].pc == WriteBack(ts, i, done) && i < |s.tx[t].writeLog| && TxOk(s, s.tx[t])
    requires ts < |s.hist| && Current(s.stripe, s.mem, s.hist, s.tx[t].writeLog[i].x, ts)
    requires s.wl[s.tx[t].writeLog[i].x] == Held(t, i)
    ensures Shared(StepReleaseRead(s, t, ts, i, done))
  {
    hide Current;
    var s' := StepReleaseRead(s, t, ts, i, done);
    assert LocksPointBack(s'.wl, s'.tx);
    assert SetMeansCommitting(s'.rl, s'.wl, s'.tx);
  }

  lemma ReleaseReadSelf(s: State, t: nat, ts: nat, i: nat, done: set<nat>)
    requires Inv(s) && t < |s.tx| && s.tx[t].pc == WriteBack(ts, i, done) && i < |s.tx[t].writeLog| && TxOk(s, s.tx[t])
    requires forall n :: i < n < |s.tx[t].writeLog| ==> s.tx[t].writeLog[n].x != s.tx[t].writeLog[i].x
    ensures var s' := StepReleaseRead(s, t, ts, i, done); Thread(s', t, s'.tx[t])
  {
    hide Apart, Shared, MaskWord, Legal, BufferOf;
    assert Thread(s, t, s.tx[t]);
  }

  lemma ReleaseReadAtPc(s: State, t: nat, ts: nat, i: nat, done: set<nat>, u: nat)
    requires Inv(s) && t < |s.tx| && s.tx[t].pc == WriteBack(ts, i, done) && i < |s.tx[t].writeLog| && TxOk(s, s.tx[t])
    requires u < |s.tx| && u != t
    ensures AtPc(StepReleaseRead(s, t, ts, i, done), s.tx[u])
  {
    hide Shared;
    assert Thread(s, u, s.tx[u]) && Apart(s, s.tx[u], s.tx[t]);
  }

  lemma DecidedApart(s: State, s': State, x: Tx, y: Tx, u: Tx)
    requires Apart(s, u, x) && Decided(x) && Decided(y) && DecidedTs(y) == DecidedTs(x) && y.writeLog == x.writeLog
    requires forall k :: 0 <= k < |y.writeLog| && ReadLocked(y, k) ==> ReadLocked(x, k)
    requires s'.stripe == s.stripe && s'.mem == s.mem
    ensures Apart(s', y, u) && Apart(s', u, y)
  {
  }

  lemma KeepReleaseWrite(s: State, t: nat, ts: nat, i: nat, done: set<nat>)
    requires Inv(s) && t < |s.tx| && s.tx[t].pc == ReleaseWrite(ts, i, done)
    ensures TxOk(s, s.tx[t]) && Inv(StepReleaseWrite(s, t, ts, i, done))
  {
    hide Thread, Shared, Apart;
    Here(s, t);
    var s' := StepReleaseWrite(s, t, ts, i, done);
    OnlyOwner(s, t, i);
    assert Thread(s, t, s.tx[t]);
    ReleaseWriteShared(s, t, i, s.tx[t], s'.tx[t]);
    forall u | 0 <= u < |s.tx|
      ensures Thread(s', u, s'.tx[u])
    {
      if u == t {
        ReleaseWriteSelf(s, t, ts, i, done);
      } else {
        assert Thread(s, u, s.tx[u]);
        WlOther(s, s', s.tx[t].writeLog[i].x, u);
      }
    }
    forall u | 0 <= u < |s.tx| && u != t
      ensures Apart(s', s'.tx[t], s'.tx[u]) && Apart(s', s'.tx[u], s'.tx[t])
    {
      assert Apart(s, s.tx[t], s.tx[u]) && Apart(s, s.tx[u], s.tx[t]);
      DecidedApart(s, s', s.tx[t], s'.tx[t], s.tx[u]);
    }
    Assemble(s, s', t);
  }

  lemma ReleaseWriteShared(s: State, t: nat, i: nat, x: Tx, y: Tx)
    requires Shared(s) && t < |s.tx| && s.tx[t] == x && i < |x.writeLog| && x.writeLog[i].x < |s.wl|
    requires s.wl[x.writeLog[i].x] == Held(t, i) && !ReadLocked(x, i) && y.writeLog == x.writeLog
    requires forall k: nat :: k < |x.writeLog| ==> ReadLocked(y, k) == ReadLocked(x, k)
    requires forall k: nat :: k < |x.writeLog| && k != i ==> Holds(y, k) == Holds(x, k)
    requires !Pending(y)
    ensures Shared(Put(s, t, y).(wl := s.wl[x.writeLog[i].x := Clear]))
  {
    hide ReadLocked, Holds, Pending;
    var s' := Put(s, t, y).(wl := s.wl[x.writeLog[i].x := Clear]);
    assert LocksPointBack(s'.wl, s'.tx);
    assert SetMeansCommitting(s'.rl, s'.wl, s'.tx);
  }

  lemma ReleaseWriteSelf(s: State, t: nat, ts: nat, i: nat, done: set<nat>)
    requires Inv(s) && t < |s.tx| && s.tx[t].pc == ReleaseWrite(ts, i, done) && TxOk(s, s.tx[t])
    requires forall n :: i < n < |s.tx[t].writeLog| ==> s.tx[t].writeLog[n].x != s.tx[t].writeLog[i].x
    ensures var s' := StepReleaseWrite(s, t, ts, i, done); Thread(s', t, s'.tx[t])
  {
    hide Apart, Shared, MaskWord, Legal, BufferOf;
    assert Thread(s, t, s.tx[t]);
  }

  lemma KeepDropping(s: State, t: nat, i: nat)
    requires Inv(s) && t < |s.tx| && s.tx[t].pc == Dropping(i) && i < |s.tx[t].writeLog|
    ensures TxOk(s, s.tx[t]) && Inv(StepDropping(s, t, i))
  {
    hide Thread, Shared, Apart;
    Here(s, t);
    var s' := StepDropping(s, t, i);
    OnlyOwner(s, t, i);
    ReleaseWriteShared(s, t, i, s.tx[t], s'.tx[t]);
    forall u | 0 <= u < |s.tx|
      ensures Thread(s', u, s'.tx[u])
    {
      if u == t {
        DroppingSelf(s, t, i);
      } else {
        assert Thread(s, u, s.tx[u]);
        WlOther(s, s', s.tx[t].writeLog[i].x, u);
      }
    }
    forall u | 0 <= u < |s.tx| && u != t
      ensures Apart(s', s'.tx[t], s'.tx[u]) && Apart(s', s'.tx[u], s'.tx[t])
    {
      assert Apart(s, s.tx[t], s.tx[u]) && Apart(s, s.tx[u], s.tx[t]);
      QuietApart(s, s', s'.tx[t], s.tx[u]);
    }
    Assemble(s, s', t);
  }

  lemma DroppingSelf(s: State, t: nat, i: nat)
    requires Inv(s) && t < |s.tx| && s.tx[t].pc == Dropping(i) && i < |s.tx[t].writeLog| && TxOk(s, s.tx[t])
    requires forall n :: i < n < |s.tx[t].writeLog| ==> s.tx[t].writeLog[n].x != s.tx[t].writeLog[i].x
    ensures var s' := StepDropping(s, t, i); Thread(s', t, s'.tx[t])
  {
    hide Apart, Shared, MaskWord, Legal, BufferOf;
    assert Thread(s, t, s.tx[t]);
  }

  lemma QuietApart(s: State, s': State, y: Tx, u: Tx)
    requires y.pc.Dropping? || y.pc.Idle?
    ensures Apart(s', y, u) && Apart(s', u, y)
  {
  }

  lemma KeepRestoreReads(s: State, t: nat, i: nat)
    requires Inv(s) && t < |s.tx| && s.tx[t].pc == RestoreReads(i) && i < |s.tx[t].writeLog|
    ensures TxOk(s, s.tx[t]) && Inv(StepRestoreReads(s, t, i))
  {
    hide Thread, Shared, Apart;
    Here(s, t);
    var s' := StepRestoreReads(s, t, i);
    var e := s.tx[t].writeLog[i];
    OnlyOwner(s, t, i);
    RestoreCurrent(s, t, i);
    RestoreShared(s, t, i);
    forall u | 0 <= u < |s.tx|
      ensures Thread(s', u, s'.tx[u])
    {
      if u == t {
        RestoreSelf(s, t, i);
      } else {
        assert Thread(s, u, s.tx[u]);
        RestoreAtPc(s, t, i, u);
        RlOther(s, s', e.x, Ver(e.oldVersion), u);
      }
    }
    forall u | 0 <= u < |s.tx| && u != t
      ensures Apart(s', s'.tx[t], s'.tx[u]) && Apart(s', s'.tx[u], s'.tx[t])
    {
      assert Apart(s, s.tx[t], s.tx[u]) && Apart(s, s.tx[u], s.tx[t]);
      RestoreApart(s, s', s.tx[t], s'.tx[t], s.tx[u]);
    }
    Assemble(s, s', t);
  }

  lemma RestoreCurrent(s: State, t: nat, i: nat)
    requires Inv(s) && t < |s.tx| && s.tx[t].pc == RestoreReads(i) && i < |s.tx[t].writeLog|
    ensures s.tx[t].writeLog[i].oldVersion < |s.hist|
    ensures Current(s.stripe, s.mem, s.hist, s.tx[t].writeLog[i].x, s.tx[t].writeLog[i].oldVersion)
  {
    hide Apart, Current;
    assert Thread(s, t, s.tx[t]);
  }

  lemma RestoreShared(s: State, t: nat, i: nat)
    requires Shared(s) && t < |s.tx| && s.tx[t].pc == RestoreReads(i) && i < |s.tx[t].writeLog| && TxOk(s, s.tx[t])
    requires s.wl[s.tx[t].writeLog[i].x] == Held(t, i) && s.tx[t].writeLog[i].oldVersion < |s.hist|
    requires Current(s.stripe, s.mem, s.hist, s.tx[t].writeLog[i].x, s.tx[t].writeLog[i].oldVersion)
    ensures Shared(StepRestoreReads(s, t, i))
  {
    hide Current;
    var s' := StepRestoreReads(s, t, i);
    assert LocksPointBack(s'.wl, s'.tx);
    assert SetMeansCommitting(s'.rl, s'.wl, s'.tx);
  }

  lemma RestoreSelf(s: State, t: nat, i: nat)
    requires Inv(s) && t < |s.tx| && s.tx[t].pc == RestoreReads(i) && i < |s.tx[t].writeLog| && TxOk(s, s.tx[t])
    requires forall n :: 0 <= n < |s.tx[t].writeLog| && n != i ==> s.tx[t].writeLog[n].x != s.tx[t].writeLog[i].x
    ensures var s' := StepRestoreReads(s, t, i); Thread(s', t, s'.tx[t])
  {
    hide Apart, Shared, MaskWord, Legal, BufferOf, Current;
    assert Thread(s, t, s.tx[t]);
  }

  lemma RestoreAtPc(s: State, t: nat, i: nat, u: nat)
    requires Inv(s) && t < |s.tx| && s.tx[t].pc == RestoreReads(i) && i < |s.tx[t].writeLog| && TxOk(s, s.tx[t])
    requires u < |s.tx| && u != t
    ensures AtPc(StepRestoreReads(s, t, i), s.tx[u])
  {
    hide Shared;
    assert Thread(s, u, s.tx[u]) && Apart(s, s.tx[u], s.tx[t]);
  }

  lemma RestoreApart(s: State, s': State, x: Tx, y: Tx, u: Tx)
    requires Apart(s, u, x) && x.pc.RestoreReads? && y.pc.RestoreReads? && x.pc.i <= y.pc.i && y.writeLog == x.writeLog
    requires s'.stripe == s.stripe && s'.mem == s.mem
    ensures Apart(s', y, u) && Apart(s', u, y)
  {
  }

  /** Nothing is locked any more: the descriptor is cleaned. */
  lemma KeepClean(s: State, t: nat)
    requires Inv(s) && t < |s.tx| && (s.tx[t].pc.Dropping? || s.tx[t].pc.WriteBack?) && s.tx[t].pc.i == |s.tx[t].writeLog|
    ensures Inv(Put(s, t, Clean(s.tx[t])))
  {
    hide Thread, Shared, Apart;
    var y := Clean(s.tx[t]);
    CleanSelf(s, t, y);
    forall u | 0 <= u < |s.tx| && u != t
      ensures Apart(Put(s, t, y), y, s.tx[u])
    {
      QuietApart(s, Put(s, t, y), y, s.tx[u]);
    }
    Local(s, t, y);
  }

  lemma CleanSelf(s: State, t: nat, y: Tx)
    requires Inv(s) && t < |s.tx| && y == Clean(s.tx[t])
    ensures Thread(Put(s, t, y), t, y)
  {
    hide Apart;
    assert Thread(s, t, s.tx[t]);
  }

  lemma KeepRestored(s: State, t: nat)
    requires Inv(s) && t < |s.tx| && s.tx[t].pc == RestoreReads(|s.tx[t].writeLog|)
    ensures Inv(Goto(s, t, Dropping(0)))
  {
    hide Thread, Shared, Apart;
    var y := s.tx[t].(pc := Dropping(0));
    RestoredSelf(s, t, y);
    forall u | 0 <= u < |s.tx| && u != t
      ensures Apart(Put(s, t, y), y, s.tx[u])
    {
      QuietApart(s, Put(s, t, y), y, s.tx[u]);
    }
    Local(s, t, y);
  }

  lemma RestoredSelf(s: State, t: nat, y: Tx)
    requires Inv(s) && t < |s.tx| && s.tx[t].pc == RestoreReads(|s.tx[t].writeLog|) && y == s.tx[t].(pc := Dropping(0))
    ensures Thread(Put(s, t, y), t, y)
  {
    hide Apart;
    assert Thread(s, t, s.tx[t]);
  }
}
