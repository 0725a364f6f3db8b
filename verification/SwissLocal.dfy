/** Every atomic step that changes only the descriptor of its own thread keeps the invariant. */
module SwissLocal {
  import opened Words
  import opened SwissState
  import opened SwissInvariant

  /** Seen from outside, y is the same transaction as x: same locks, same floor, same commit. */
  ghost predicate SameView(x: Tx, y: Tx)
  {
    && (forall k :: 0 <= k < |x.writeLog| && Holds(x, k) ==>
          k < |y.writeLog| && y.writeLog[k].x == x.writeLog[k].x && Holds(y, k))
    && (forall k :: 0 <= k < |x.writeLog| && ReadLocked(x, k) ==> ReadLocked(y, k))
    && (forall k :: 0 <= k < |y.writeLog| && ReadLocked(y, k) ==>
          && k < |x.writeLog| && y.writeLog[k] == x.writeLog[k] && ReadLocked(x, k)
          && Decided(y) == Decided(x) && (Decided(x) ==> DecidedTs(y) == DecidedTs(x)))
    && (Pending(y) ==> Pending(x) && Floor(x) <= Floor(y) && |y.writeLog| == |x.writeLog|)
    && (Pending(y) ==> forall k :: 0 <= k < |x.writeLog| ==> y.writeLog[k].x == x.writeLog[k].x)
  }

  lemma LocalShared(s: State, t: nat, y: Tx)
    requires Shared(s) && t < |s.tx| && SameView(s.tx[t], y)
    requires Pending(y) && !s.gv4 ==> Floor(y) == Floor(s.tx[t])
    ensures Shared(Put(s, t, y))
  {
    var s' := Put(s, t, y);
    assert LocksPointBack(s'.wl, s'.tx);
    assert SetMeansCommitting(s'.rl, s'.wl, s'.tx);
    assert StampsUnique(s'.gv4, s'.tx, s'.recs);
  }

  lemma ApartView(s: State, s': State, x: Tx, u: Tx, w: Tx)
    requires Apart(s, x, u) && SameView(u, w)
    requires s'.stripe == s.stripe && s'.mem == s.mem
    ensures Apart(s', x, w)
  {
    assert LaterThan(x, w);
  }

  lemma LocalApart(s: State, t: nat, y: Tx)
    requires Inv(s) && t < |s.tx| && SameView(s.tx[t], y)
    requires forall u :: 0 <= u < |s.tx| && u != t ==> Apart(Put(s, t, y), y, s.tx[u])
    ensures var s' := Put(s, t, y);
      forall u, w :: 0 <= u < |s.tx| && 0 <= w < |s.tx| && u != w ==> Apart(s', s'.tx[u], s'.tx[w])
  {
    hide Thread, Shared;
    var s' := Put(s, t, y);
    forall u, w | 0 <= u < |s.tx| && 0 <= w < |s.tx| && u != w
      ensures Apart(s', s'.tx[u], s'.tx[w])
    {
      if u != t {
        assert Apart(s, s.tx[u], s.tx[w]);
        if w == t { ApartView(s, s', s.tx[u], s.tx[t], y); }
      }
    }
  }

  lemma Local(s: State, t: nat, y: Tx)
    requires Inv(s) && t < |s.tx| && SameView(s.tx[t], y)
    requires Pending(y) && !s.gv4 ==> Floor(y) == Floor(s.tx[t])
    requires Thread(Put(s, t, y), t, y)
    requires forall u :: 0 <= u < |s.tx| && u != t ==> Apart(Put(s, t, y), y, s.tx[u])
    ensures Inv(Put(s, t, y))
  {
    var s' := Put(s, t, y);
    LocalShared(s, t, y);
    forall u | 0 <= u < |s.tx| && u != t
      ensures Thread(s', u, s'.tx[u])
    {
      assert Thread(s, u, s.tx[u]);
    }
    LocalApart(s, t, y);
  }

  // ---------- moves: only the program counter and the contention manager change ----------

  ghost predicate SameCore(x: Tx, y: Tx)
  {
    && y.validTs == x.validTs && y.readLog == x.readLog && y.writeLog == x.writeLog
    && y.buffer == x.buffer && y.ops == x.ops && y.begin == x.begin
  }

  /** A live transaction that has not asked to commit. */
  predicate Plain(pc: Pc)
  {
    !(pc.Idle? || pc.LockVersion? || pc.LockReads? || pc.TakeTs? || pc.TakeTsGV4? || pc.Validating?
      || pc.ValidatingLocked? || pc.RestoreReads? || pc.Dropping? || pc.WriteBack? || pc.ReleaseWrite?)
  }

  lemma SharedSized(s: State)
    requires Shared(s)
    ensures Sized(s)
  {
  }

  /** Only pc and recorded versions differ, and the same entries are settled. */
  lemma SameCovered(stripe: seq<nat>, x: Tx, y: Tx)
    requires Covered(stripe, x) && y.ops == x.ops && y.readLog == x.readLog && |y.writeLog| == |x.writeLog|
    requires forall k :: 0 <= k < |x.writeLog| ==> y.writeLog[k].x == x.writeLog[k].x
    requires SettledReads(y) == SettledReads(x) && SettledWrites(y) == SettledWrites(x)
    ensures Covered(stripe, y)
  {
    assert forall n: nat :: Logged(x, n) ==> Logged(y, n);
  }

  lemma Mine(s: State, t: nat)
    requires Inv(s) && t < |s.tx|
    ensures Shared(s) && Sized(s) && Thread(s, t, s.tx[t])
  {
    hide Thread, Apart;
  }

  lemma Move(s: State, t: nat, y: Tx)
    requires Inv(s) && t < |s.tx| && SameCore(s.tx[t], y) && Plain(s.tx[t].pc)
    requires Plain(y.pc) || y.pc == LockReads(0) || y.pc == Dropping(0)
    requires !y.pc.ExtendClock? && !y.pc.Extending? && PcOk(s, y) && AtPc(s, y)
    requires y.pc.StartGreedy? || y.pc.StartFlag? ==> s.tx[t].pc.StartGreedy? || s.tx[t].pc.StartFlag?
    requires s.tx[t].pc.ExtendClock? || s.tx[t].pc.Extending? ==> y.pc.Dropping?
    requires y.pc.ReadValue? || y.pc.ReadAgain? ==> forall u :: 0 <= u < |s.tx| && u != t ==> Apart(s, y, s.tx[u])
    ensures Inv(Put(s, t, y))
  {
    hide Thread, Shared;
    var s' := Put(s, t, y);
    var x := s.tx[t];
    assert Thread(s, t, x);
    assert Sized(s) by { SharedSized(s); }
    MoveThread(s, t, x, y);
    forall u | 0 <= u < |s.tx| && u != t
      ensures Apart(s', y, s.tx[u])
    {
      assert Apart(s, x, s.tx[u]);
    }
    Local(s, t, y);
  }

  lemma MoveLocks(s: State, t: nat, x: Tx, y: Tx)
    requires Sized(s) && Thread(s, t, x) && SameCore(x, y) && Plain(x.pc)
    requires Plain(y.pc) || y.pc == LockReads(0) || y.pc == Dropping(0)
    requires !y.pc.ExtendClock? && !y.pc.Extending?
    requires x.pc.ExtendClock? || x.pc.Extending? ==> y.pc.Dropping?
    ensures EntriesLocked(s.wl, t, y) && CommittingMeansSet(s.rl, y) && VersionRecorded(s.rl, y)
    ensures OldVersionValid(s.clock, y) && BufferLocked(s.stripe, y)
  {
    hide ReadLocked, Holds, Decided, Snapshot, ReadsConstant, LockedCurrent, WritingBack, AtPc, RecsBefore;
    PlainFacts(x);
    PlainFacts(y);
  }

  lemma MoveThread(s: State, t: nat, x: Tx, y: Tx)
    requires Sized(s) && t < |s.tx| && s.tx[t] == x && Thread(s, t, x) && SameCore(x, y) && Plain(x.pc)
    requires Plain(y.pc) || y.pc == LockReads(0) || y.pc == Dropping(0)
    requires !y.pc.ExtendClock? && !y.pc.Extending? && PcOk(s, y) && AtPc(s, y)
    requires y.pc.StartGreedy? || y.pc.StartFlag? ==> x.pc.StartGreedy? || x.pc.StartFlag?
    requires x.pc.ExtendClock? || x.pc.Extending? ==> y.pc.Dropping?
    ensures Thread(Put(s, t, y), t, y)
  {
    hide ReadLocked, Holds, Recorded, Pending, Decided, Live, Bound, Constant, Current, Snapshot;
    hide EntriesLocked, CommittingMeansSet, VersionRecorded, OldVersionValid, BufferLocked;
    PlainFacts(x);
    PlainFacts(y);
    MoveLocks(s, t, x, y);
    MoveSnapshot(s.stripe, s.hist, x, y);
  }

  lemma MoveSnapshot(stripe: seq<nat>, hist: seq<Memory>, x: Tx, y: Tx)
    requires Snapshot(stripe, hist, x) && SameCore(x, y) && Plain(x.pc)
    requires Plain(y.pc) || y.pc == LockReads(0) || y.pc == Dropping(0)
    requires y.pc.StartGreedy? || y.pc.StartFlag? ==> x.pc.StartGreedy? || x.pc.StartFlag?
    requires x.pc.ExtendClock? || x.pc.Extending? ==> y.pc.Dropping?
    requires !y.pc.ExtendClock? && !y.pc.Extending?
    ensures Snapshot(stripe, hist, y)
  {
    hide Legal, BufferOf;
    assert Live(y) ==> forall i: nat :: Logged(x, i) ==> Logged(y, i);
  }

  lemma PlainFacts(x: Tx)
    requires Plain(x.pc) || x.pc == LockReads(0) || x.pc == Dropping(0)
    ensures !Pending(x) && !Decided(x) && (Live(x) <==> !x.pc.Dropping?)
    ensures forall k: nat :: !ReadLocked(x, k) && Holds(x, k) && Recorded(x, k)
    ensures !x.pc.Extending? ==> forall j: nat :: Bound(x, j) == x.validTs
  {
  }

  lemma VersionsPast(s: State)
    requires Shared(s)
    ensures forall i :: 0 <= i < |s.rl| && s.rl[i].Ver? ==> s.rl[i].ts <= s.clock
  {
  }

  /** The words of a transaction's buffer are in stripes it has write-locked. */
  lemma OwnWords(s: State, t: nat, a: nat)
    requires Inv(s) && t < |s.tx| && Plain(s.tx[t].pc) && a < |s.stripe| && s.stripe[a] < |s.wl|
    ensures a in s.tx[t].buffer ==> s.wl[s.stripe[a]].Held? && s.wl[s.stripe[a]].t == t
    ensures s.wl[s.stripe[a]].Held? && s.wl[s.stripe[a]].t == t ==> Writes(s.tx[t], s.stripe[a])
  {
    var x := s.tx[t];
    assert Thread(s, t, x);
    PlainFacts(x);
    if s.wl[s.stripe[a]].Held? && s.wl[s.stripe[a]].t == t {
      assert x.writeLog[s.wl[s.stripe[a]].k].x == s.stripe[a];
    }
  }

  /** What is known of thread t at its program counter. */
  lemma Here(s: State, t: nat)
    requires Inv(s) && t < |s.tx|
    ensures Sized(s) && TxOk(s, s.tx[t]) && AtPc(s, s.tx[t])
  {
    assert Thread(s, t, s.tx[t]);
  }

  /** The invariant does not depend on the contention manager. */
  lemma CmFree(s: State, c: nat, cm: seq<Cm>)
    requires Inv(s) && |cm| == |s.cm|
    ensures Inv(s.(cmTs := c, cm := cm))
  {
    var s' := s.(cmTs := c, cm := cm);
    forall u | 0 <= u < |s.tx|
      ensures Thread(s', u, s'.tx[u])
    {
      assert Thread(s, u, s.tx[u]);
    }
    forall u, w | 0 <= u < |s.tx| && 0 <= w < |s.tx| && u != w
      ensures Apart(s', s'.tx[u], s'.tx[w])
    {
      assert Apart(s, s.tx[u], s.tx[w]);
    }
  }

  /** A move that may also change the contention manager. */
  lemma MoveCm(s: State, t: nat, pc: Pc, c: nat, cm: seq<Cm>)
    requires Inv(s) && t < |s.tx| && Plain(s.tx[t].pc) && |cm| == |s.cm|
    requires (Plain(pc) && !pc.ReadValue? && !pc.ReadAgain?) || pc == LockReads(0) || pc == Dropping(0)
    requires !pc.ExtendClock? && !pc.Extending? && PcOk(s, s.tx[t].(pc := pc)) && AtPc(s, s.tx[t].(pc := pc))
    requires pc.StartGreedy? || pc.StartFlag? ==> s.tx[t].pc.StartGreedy? || s.tx[t].pc.StartFlag?
    requires s.tx[t].pc.ExtendClock? || s.tx[t].pc.Extending? ==> pc.Dropping?
    ensures Inv(Goto(s, t, pc).(cmTs := c, cm := cm))
  {
    hide Thread, Shared, Apart;
    Move(s, t, s.tx[t].(pc := pc));
    CmFree(Goto(s, t, pc), c, cm);
  }

  lemma KeepRead(s: State, t: nat, a: nat)
    requires Inv(s) && t < |s.tx| && s.tx[t].pc.Running? && a < |s.mem|
    ensures Inv(StepRead(s, t, a))
  {
    hide Thread, Shared, Apart;
    var x := s.tx[t];
    Here(s, t);
    OwnWords(s, t, a);
    var y := StepRead(s, t, a).tx[t];
    Move(s, t, y);
  }

  lemma KeepReadVersion(s: State, t: nat, a: nat)
    requires Inv(s) && t < |s.tx| && s.tx[t].pc == ReadVersion(a)
    ensures Inv(StepReadVersion(s, t, a))
  {
    hide Thread, Shared, Apart;
    var x := s.tx[t];
    Here(s, t);
    VersionsPast(s);
    if s.rl[s.stripe[a]].Ver? {
      LoadApart(s, t, a, x.(pc := ReadValue(a, s.rl[s.stripe[a]].ts)));
      Move(s, t, x.(pc := ReadValue(a, s.rl[s.stripe[a]].ts)));
    }
  }

  /** Nobody has the read lock of a stripe whose version is visible. */
  lemma LoadApart(s: State, t: nat, a: nat, y: Tx)
    requires Inv(s) && t < |s.tx| && a < |s.mem| && s.rl[s.stripe[a]].Ver?
    requires y.pc == ReadValue(a, s.rl[s.stripe[a]].ts) && SameCore(s.tx[t], y) && Plain(s.tx[t].pc)
    requires !s.tx[t].pc.ExtendClock? && !s.tx[t].pc.Extending?
    ensures forall u :: 0 <= u < |s.tx| && u != t ==> Apart(s, y, s.tx[u])
  {
    forall u | 0 <= u < |s.tx| && u != t
      ensures Apart(s, y, s.tx[u])
    {
      assert Apart(s, s.tx[t], s.tx[u]) && Thread(s, u, s.tx[u]);
      assert CommittingMeansSet(s.rl, s.tx[u]);
    }
  }

  lemma KeepReadValue(s: State, t: nat, a: nat, v: nat)
    requires Inv(s) && t < |s.tx| && s.tx[t].pc == ReadValue(a, v)
    ensures Inv(StepReadValue(s, t, a, v))
  {
    var x := s.tx[t];
    assert Thread(s, t, x);
    var y := x.(pc := ReadAgain(a, v, s.mem[a]));
    forall u | 0 <= u < |s.tx| && u != t
      ensures Apart(s, y, s.tx[u])
    {
      assert Apart(s, x, s.tx[u]);
    }
    Move(s, t, y);
  }

  lemma KeepReadRetry(s: State, t: nat, a: nat, v: nat, val: Word)
    requires Inv(s) && t < |s.tx| && s.tx[t].pc == ReadAgain(a, v, val) && s.rl[s.stripe[a]] != Ver(v)
    ensures Inv(StepReadAgain(s, t, a, v, val))
  {
    hide Thread, Shared, Apart;
    var x := s.tx[t];
    Here(s, t);
    VersionsPast(s);
    match s.rl[s.stripe[a]]
    case Set => Move(s, t, x.(pc := ReadVersion(a)));
    case Ver(w) =>
      LoadApart(s, t, a, x.(pc := ReadValue(a, w)));
      Move(s, t, x.(pc := ReadValue(a, w)));
  }

  lemma KeepStartGreedy(s: State, t: nat)
    requires Inv(s) && t < |s.tx| && s.tx[t].pc == StartGreedy
    ensures TxOk(s, s.tx[t]) && |s.cm| == |s.tx| && Inv(StepStartGreedy(s, t))
  {
    hide Thread, Shared, Apart;
    Here(s, t);
    var s' := StepStartGreedy(s, t);
    MoveCm(s, t, s'.tx[t].pc, s'.cmTs, s'.cm);
  }

  lemma KeepStartFlag(s: State, t: nat)
    requires Inv(s) && t < |s.tx| && s.tx[t].pc == StartFlag
    ensures TxOk(s, s.tx[t]) && |s.cm| == |s.tx| && Inv(StepStartFlag(s, t))
  {
    hide Thread, Shared, Apart;
    Here(s, t);
    var s' := StepStartFlag(s, t);
    MoveCm(s, t, s'.tx[t].pc, s'.cmTs, s'.cm);
  }

  lemma KeepConflict(s: State, t: nat, w: Request)
    requires Inv(s) && t < |s.tx| && s.tx[t].pc == Conflict(w)
    ensures TxOk(s, s.tx[t]) && |s.cm| == |s.tx| && Inv(StepConflict(s, t, w))
  {
    hide Thread, Shared, Apart;
    Here(s, t);
    var s' := StepConflict(s, t, w);
    MoveCm(s, t, s'.tx[t].pc, s'.cmTs, s'.cm);
  }

  lemma KeepConflictOwner(s: State, t: nat, w: Request)
    requires Inv(s) && t < |s.tx| && s.tx[t].pc == ConflictOwner(w)
    ensures TxOk(s, s.tx[t]) && |s.cm| == |s.tx| && Inv(StepConflictOwner(s, t, w))
  {
    hide Thread, Shared, Apart;
    Here(s, t);
    var s' := StepConflictOwner(s, t, w);
    MoveCm(s, t, s'.tx[t].pc, s'.cmTs, s'.cm);
  }

  lemma KeepConflictRank(s: State, t: nat, w: Request, o: nat)
    requires Inv(s) && t < |s.tx| && s.tx[t].pc == ConflictRank(w, o)
    ensures TxOk(s, s.tx[t]) && |s.cm| == |s.tx| && Inv(StepConflictRank(s, t, w, o))
  {
    hide Thread, Shared, Apart;
    Here(s, t);
    var s' := StepConflictRank(s, t, w, o);
    MoveCm(s, t, s'.tx[t].pc, s'.cmTs, s'.cm);
  }

  lemma KeepConflictFlag(s: State, t: nat, w: Request, o: nat)
    requires Inv(s) && t < |s.tx| && s.tx[t].pc == ConflictFlag(w, o)
    ensures TxOk(s, s.tx[t]) && |s.cm| == |s.tx| && Inv(StepConflictFlag(s, t, w, o))
  {
    hide Thread, Shared, Apart;
    Here(s, t);
    var s' := StepConflictFlag(s, t, w, o);
    MoveCm(s, t, s'.tx[t].pc, s'.cmTs, s'.cm);
  }

  lemma KeepConflictReload(s: State, t: nat, w: Request)
    requires Inv(s) && t < |s.tx| && s.tx[t].pc == ConflictReload(w)
    ensures TxOk(s, s.tx[t]) && |s.cm| == |s.tx| && Inv(StepConflictReload(s, t, w))
  {
    hide Thread, Shared, Apart;
    Here(s, t);
    var s' := StepConflictReload(s, t, w);
    MoveCm(s, t, s'.tx[t].pc, s'.cmTs, s'.cm);
  }

  lemma KeepLockFailed(s: State, t: nat, w: Request)
    requires Inv(s) && t < |s.tx| && s.tx[t].pc == LockFailed(w)
    ensures TxOk(s, s.tx[t]) && |s.cm| == |s.tx| && Inv(StepLockFailed(s, t, w))
  {
    hide Thread, Shared, Apart;
    Here(s, t);
    var s' := StepLockFailed(s, t, w);
    MoveCm(s, t, s'.tx[t].pc, s'.cmTs, s'.cm);
  }

  lemma KeepCmTicket(s: State, t: nat)
    requires Inv(s) && t < |s.tx| && s.tx[t].pc == CmTicket
    ensures TxOk(s, s.tx[t]) && |s.cm| == |s.tx| && Inv(StepCmTicket(s, t))
  {
    hide Thread, Shared, Apart;
    Here(s, t);
    var s' := StepCmTicket(s, t);
    MoveCm(s, t, s'.tx[t].pc, s'.cmTs, s'.cm);
  }

  lemma KeepCmStore(s: State, t: nat, g: nat)
    requires Inv(s) && t < |s.tx| && s.tx[t].pc == CmStore(g)
    ensures TxOk(s, s.tx[t]) && |s.cm| == |s.tx| && Inv(StepCmStore(s, t, g))
  {
    hide Thread, Shared, Apart;
    Here(s, t);
    var s' := StepCmStore(s, t, g);
    MoveCm(s, t, s'.tx[t].pc, s'.cmTs, s'.cm);
  }

}
