/** Taking a timestamp, validating, deciding and writing back keep the invariant: serializability comes from here. */
module SwissDecide {
  import opened Words
  import opened SwissState
  import opened SwissInvariant
  import opened SwissLocal
  import opened SwissCommit

  // ---------- the clock ----------

  /** A new timestamp at which nothing has happened yet. */
  lemma HistoryTick(hist: seq<Memory>, recs: seq<Rec>)
    requires hist != [] && History(hist, recs)
    ensures History(hist + [hist[|hist| - 1]], recs)
  {
    var h := hist + [hist[|hist| - 1]];
    assert forall T :: 0 <= T < |hist| ==> h[T] == hist[T];
    assert HistoryWritten(h, recs);
    assert HistoryKept(h, recs);
    assert ReadsKept(h, recs);
  }

  lemma TickShared(s: State)
    requires Shared(s)
    ensures Shared(Tick(s))
  {
    var s' := Tick(s);
    HistoryTick(s.hist, s.recs);
    assert forall T :: 0 <= T < |s.hist| ==> s'.hist[T] == s.hist[T];
    TickUnlocked(s);
  }

  lemma TickUnlocked(s: State)
    requires Sized(s) && UnlockedCurrent(s.stripe, s.mem, s.hist, s.rl)
    ensures UnlockedCurrent(s.stripe, s.mem, Tick(s).hist, s.rl)
  {
    forall i | 0 <= i < |s.rl| && s.rl[i].Ver?
      ensures s.rl[i].ts < |Tick(s).hist| && Current(s.stripe, s.mem, Tick(s).hist, i, s.rl[i].ts)
    {
      TickCurrent(s, i, s.rl[i].ts);
    }
  }

  lemma TickCurrent(s: State, i: nat, lo: nat)
    requires Sized(s) && Current(s.stripe, s.mem, s.hist, i, lo) && lo < |s.hist|
    ensures Current(s.stripe, s.mem, Tick(s).hist, i, lo)
  {
  }

  lemma TickThread(s: State, t: nat, x: Tx)
    requires Sized(s) && Thread(s, t, x)
    ensures Thread(Tick(s), t, x)
  {
    hide Legal, BufferOf, MaskWord, Covered, Current;
    var s' := Tick(s);
    assert forall T :: 0 <= T < |s.hist| ==> s'.hist[T] == s.hist[T];
    assert LockedCurrent(s'.stripe, s'.mem, s'.hist, x) by { TickLocked(s, x); }
    assert WritingBack(s'.stripe, s'.mem, s'.hist, x);
    assert ReadsConstant(s'.stripe, s'.clock, s'.hist, x);
    assert AtPc(s', x);
  }

  lemma TickLocked(s: State, x: Tx)
    requires Sized(s) && LockedCurrent(s.stripe, s.mem, s.hist, x)
    ensures LockedCurrent(s.stripe, s.mem, Tick(s).hist, x)
  {
    hide Current;
    if !Decided(x) {
      forall k | 0 <= k < |x.writeLog| && ReadLocked(x, k)
        ensures Current(s.stripe, s.mem, Tick(s).hist, x.writeLog[k].x, x.writeLog[k].oldVersion)
      {
        TickCurrent(s, x.writeLog[k].x, x.writeLog[k].oldVersion);
      }
    }
  }

  lemma TickKeeps(s: State)
    requires Inv(s)
    ensures Inv(Tick(s))
  {
    hide Thread, Shared, Apart;
    var s' := Tick(s);
    TickShared(s);
    SharedSized(s);
    forall u | 0 <= u < |s.tx|
      ensures Thread(s', u, s'.tx[u])
    {
      TickThread(s, u, s.tx[u]);
    }
    forall u, w | 0 <= u < |s.tx| && 0 <= w < |s.tx| && u != w
      ensures Apart(s', s'.tx[u], s'.tx[w])
    {
      TickApart(s, s.tx[u], s.tx[w]);
    }
  }

  lemma TickApart(s: State, x: Tx, u: Tx)
    requires Apart(s, x, u) && s.hist != []
    ensures Apart(Tick(s), x, u)
  {
  }

  // ---------- the commit timestamp ----------

  /** In s every timestamp anybody knows is earlier than f. */
  ghost predicate AllBefore(s: State, f: nat)
  {
    && (forall u, j :: 0 <= u < |s.tx| && 0 <= j < |s.tx[u].readLog| && Live(s.tx[u]) ==>
          Bound(s.tx[u], j) < f && s.tx[u].readLog[j].version < f)
    && (forall u :: 0 <= u < |s.tx| && (s.tx[u].pc.ReadValue? || s.tx[u].pc.ReadAgain?) ==> s.tx[u].pc.v < f)
    && (forall i :: 0 <= i < |s.recs| ==> s.recs[i].ts < f)
  }

  lemma KnownBefore(s: State)
    requires Inv(s)
    ensures AllBefore(s, s.clock + 1)
    ensures !s.gv4 ==> forall u :: 0 <= u < |s.tx| && Pending(s.tx[u]) ==> Floor(s.tx[u]) <= s.clock
  {
    hide Apart, Legal, BufferOf;
    forall u | 0 <= u < |s.tx|
      ensures Pending(s.tx[u]) && !s.gv4 ==> Floor(s.tx[u]) <= s.clock
      ensures s.tx[u].pc.ReadValue? || s.tx[u].pc.ReadAgain? ==> s.tx[u].pc.v <= s.clock
    {
      assert Thread(s, u, s.tx[u]);
    }
    forall u, j | 0 <= u < |s.tx| && 0 <= j < |s.tx[u].readLog| && Live(s.tx[u])
      ensures Bound(s.tx[u], j) <= s.clock && s.tx[u].readLog[j].version <= s.clock
    {
      EntryBefore(s, u, j);
    }
  }

  lemma EntryBefore(s: State, u: nat, j: nat)
    requires Inv(s) && u < |s.tx| && j < |s.tx[u].readLog| && Live(s.tx[u])
    ensures Bound(s.tx[u], j) <= s.clock && s.tx[u].readLog[j].version <= s.clock
  {
    hide Apart, Legal, BufferOf;
    assert Thread(s, u, s.tx[u]);
  }

  /** A committing transaction asks for a timestamp: it becomes pending, later than everything known. */
  lemma BecomePending(s: State, t: nat, y: Tx)
    requires Inv(s) && t < |s.tx| && s.tx[t].pc.TakeTs? && SameCore(s.tx[t], y) && Pending(y)
    requires AllBefore(s, Floor(y)) && Thread(Put(s, t, y), t, y)
    requires StampsUnique(s.gv4, s.tx[t := y], s.recs)
    requires forall u :: 0 <= u < |s.tx| && u != t ==> Apart(s, y, s.tx[u])
    ensures Inv(Put(s, t, y))
  {
    hide Thread, Apart;
    var s' := Put(s, t, y);
    PendingShared(s, t, y);
    forall u | 0 <= u < |s.tx| && u != t
      ensures Thread(s', u, s'.tx[u])
    {
      assert Thread(s, u, s.tx[u]);
      OtherThread(s, s', u);
    }
    forall u | 0 <= u < |s.tx| && u != t
      ensures Apart(s', y, s'.tx[u]) && Apart(s', s'.tx[u], y)
    {
      assert Apart(s, y, s.tx[u]) && Apart(s, s.tx[u], s.tx[t]);
      PendingApart(s, t, y, u);
    }
    Assemble(s, s', t);
  }

  lemma OtherThread(s: State, s': State, u: nat)
    requires u < |s.tx| && Thread(s, u, s.tx[u]) && s' == s.(tx := s'.tx) && |s'.tx| == |s.tx|
    ensures Thread(s', u, s.tx[u])
  {
  }

  lemma PendingShared(s: State, t: nat, y: Tx)
    requires Shared(s) && t < |s.tx| && s.tx[t].pc.TakeTs? && SameCore(s.tx[t], y) && Pending(y)
    requires StampsUnique(s.gv4, s.tx[t := y], s.recs)
    ensures Shared(Put(s, t, y))
  {
    var s' := Put(s, t, y);
    assert LocksPointBack(s'.wl, s'.tx);
    assert SetMeansCommitting(s'.rl, s'.wl, s'.tx);
  }

  lemma PendingApart(s: State, t: nat, y: Tx, u: nat)
    requires t < |s.tx| && u < |s.tx| && s.tx[t].pc.TakeTs? && SameCore(s.tx[t], y) && Pending(y)
    requires AllBefore(s, Floor(y)) && Apart(s, y, s.tx[u]) && Apart(s, s.tx[u], s.tx[t])
    ensures Apart(Put(s, t, y), y, s.tx[u]) && Apart(Put(s, t, y), s.tx[u], y)
  {
  }

  lemma KeepTakeTsInc(s: State, t: nat)
    requires Inv(s) && t < |s.tx| && s.tx[t].pc.TakeTs? && !s.gv4
    ensures TxOk(s, s.tx[t]) && Inv(StepTakeTs(s, t))
  {
    hide Thread, Shared, Apart;
    Here(s, t);
    var s1 := Tick(s);
    var y := StepTakeTs(s, t).tx[t];
    TickKeeps(s);
    KnownBefore(s);
    assert AllBefore(s1, s.clock + 1);
    TakeTsSelf(s, t, y);
    forall u | 0 <= u < |s.tx| && u != t
      ensures Apart(s1, y, s1.tx[u])
    {
      assert Apart(s, s.tx[t], s.tx[u]);
      TakeTsApart(s, s1, t, y, u);
    }
    UniqueTs(s, t, y);
    BecomePending(s1, t, y);
  }

  lemma UniqueTs(s: State, t: nat, y: Tx)
    requires Shared(s) && t < |s.tx| && Pending(y) && Floor(y) == s.clock + 1
    requires forall u :: 0 <= u < |s.tx| && Pending(s.tx[u]) ==> Floor(s.tx[u]) <= s.clock || s.gv4
    requires forall i :: 0 <= i < |s.recs| ==> s.recs[i].ts <= s.clock
    ensures StampsUnique(s.gv4, s.tx[t := y], s.recs)
  {
  }

  lemma TakeTsApart(s: State, r: State, t: nat, y: Tx, u: nat)
    requires r.stripe == s.stripe && r.mem == s.mem
    requires t < |s.tx| && u < |s.tx| && s.tx[t].pc.TakeTs? && !s.gv4 && Apart(s, s.tx[t], s.tx[u])
    requires Pending(s.tx[u]) ==> Floor(s.tx[u]) <= s.clock
    requires SameCore(s.tx[t], y)
    requires y.pc == Validating(s.clock + 1, if s.clock + 1 == y.validTs + 1 then |y.readLog| else 0)
    ensures Apart(r, y, s.tx[u])
  {
  }

  lemma TakeTsSelf(s: State, t: nat, y: Tx)
    requires Inv(s) && t < |s.tx| && s.tx[t].pc.TakeTs? && SameCore(s.tx[t], y)
    requires y.pc == Validating(s.clock + 1, if s.clock + 1 == y.validTs + 1 then |y.readLog| else 0)
    ensures Thread(Put(Tick(s), t, y), t, y)
  {
    hide Thread, Apart, Shared;
    assert Thread(s, t, s.tx[t]);
    SharedSized(s);
    TickThread(s, t, s.tx[t]);
    KnownBefore(s);
    TakeTsReads(s, t, y);
    SnapshotPast(s, t);
    assert Sized(Tick(s)) by { TickShared(s); SharedSized(Tick(s)); }
    FloorSelf(Tick(s), t, y);
  }

  lemma SnapshotPast(s: State, t: nat)
    requires Inv(s) && t < |s.tx|
    ensures s.tx[t].validTs <= s.clock
  {
    assert Thread(s, t, s.tx[t]);
  }

  lemma FloorSelf(s: State, t: nat, y: Tx)
    requires Sized(s) && t < |s.tx| && s.tx[t].pc.TakeTs? && SameCore(s.tx[t], y) && Thread(s, t, s.tx[t])
    requires y.pc.Validating? && y.pc.i <= |y.readLog| && y.validTs < y.pc.ts <= s.clock
    requires ReadsConstant(s.stripe, s.clock, s.hist, y)
    requires forall i :: 0 <= i < |s.recs| ==> s.recs[i].ts < y.pc.ts
    ensures Thread(Put(s, t, y), t, y)
  {
    hide Legal, BufferOf, MaskWord, Current, ReadsConstant;
    var x := s.tx[t];
    assert Covered(s.stripe, y) by { assert forall i: nat :: Logged(x, i) ==> Logged(y, i); }
  }

  /** With no commit in between, everything read is still valid at the new timestamp. */
  lemma TakeTsReads(s: State, t: nat, y: Tx)
    requires Inv(s) && t < |s.tx| && s.tx[t].pc.TakeTs? && SameCore(s.tx[t], y)
    requires y.pc == Validating(s.clock + 1, if s.clock + 1 == y.validTs + 1 then |y.readLog| else 0)
    ensures ReadsConstant(s.stripe, s.clock + 1, Tick(s).hist, y)
  {
    hide Apart, Legal, BufferOf, Current;
    var h := Tick(s).hist;
    assert Thread(s, t, s.tx[t]);
    forall j | 0 <= j < |y.readLog|
      ensures Constant(s.stripe, h, y.readLog[j].x, y.readLog[j].version, Bound(y, j))
    {
      var e := y.readLog[j];
      assert Constant(s.stripe, s.hist, e.x, e.version, y.validTs);
      forall T, a | e.version <= T <= Bound(y, j) && T < |h| && 0 <= a < |s.stripe| && a < |h[T]|
                    && a < |h[e.version]| && s.stripe[a] == e.x
        ensures h[T][a] == h[e.version][a]
      {
      }
    }
  }

  lemma KeepTakeTsSeen(s: State, t: nat)
    requires Inv(s) && t < |s.tx| && s.tx[t].pc.TakeTs? && s.gv4
    ensures TxOk(s, s.tx[t]) && Inv(StepTakeTs(s, t))
  {
    hide Thread, Shared, Apart;
    Here(s, t);
    var y := s.tx[t].(pc := TakeTsGV4(s.clock));
    KnownBefore(s);
    SeenSelf(s, t, y);
    forall u | 0 <= u < |s.tx| && u != t
      ensures Apart(s, y, s.tx[u])
    {
      assert Apart(s, s.tx[t], s.tx[u]);
      SeenApart(s, s.tx[t], y, s.tx[u]);
    }
    BecomePending(s, t, y);
  }

  lemma SeenApart(s: State, x: Tx, y: Tx, u: Tx)
    requires Apart(s, x, u) && SameCore(x, y) && x.pc.TakeTs? && y.pc.TakeTsGV4?
    ensures Apart(s, y, u)
  {
  }

  lemma SeenSelf(s: State, t: nat, y: Tx)
    requires Inv(s) && t < |s.tx| && s.tx[t].pc.TakeTs? && s.gv4 && y == s.tx[t].(pc := TakeTsGV4(s.clock))
    requires AllBefore(s, s.clock + 1)
    ensures Thread(Put(s, t, y), t, y)
  {
    hide Inv, Legal, BufferOf, MaskWord, Current, Constant, Covered, Shared;
    Mine(s, t);
    SameCovered(s.stripe, s.tx[t], y);
  }

  /** Whether the compare-and-swap wins or loses, the timestamp is later than the clock value seen before. */
  lemma KeepTakeTsGV4(s: State, t: nat, seen: nat)
    requires Inv(s) && t < |s.tx| && s.tx[t].pc == TakeTsGV4(seen)
    ensures TxOk(s, s.tx[t]) && Inv(StepTakeTsGV4(s, t, seen))
  {
    hide Thread, Shared, Apart;
    Here(s, t);
    SeenPast(s, t, seen);
    var s1 := if s.clock == seen then Tick(s) else s;
    if s.clock == seen { TickKeeps(s); }
    assert Inv(s1);
    var y := s1.tx[t].(pc := Validating(s1.clock, 0));
    assert Thread(s1, t, s1.tx[t]);
    GrantedSelf(s1, t, seen, y);
    forall u | 0 <= u < |s1.tx| && u != t
      ensures Apart(Put(s1, t, y), y, s1.tx[u])
    {
      assert Apart(s1, s1.tx[t], s1.tx[u]);
      GrantedApart(s1, Put(s1, t, y), s1.tx[t], y, s1.tx[u]);
    }
    Local(s1, t, y);
  }

  lemma SeenPast(s: State, t: nat, seen: nat)
    requires Inv(s) && t < |s.tx| && s.tx[t].pc == TakeTsGV4(seen)
    ensures s.gv4 && s.tx[t].validTs <= seen <= s.clock && s.hist != []
  {
    assert Thread(s, t, s.tx[t]);
  }

  lemma GrantedSelf(s: State, t: nat, seen: nat, y: Tx)
    requires Sized(s) && t < |s.tx| && s.tx[t].pc == TakeTsGV4(seen) && Thread(s, t, s.tx[t])
    requires seen < s.clock && y == s.tx[t].(pc := Validating(s.clock, 0))
    ensures Thread(Put(s, t, y), t, y)
  {
    hide Legal, BufferOf, MaskWord, Current, Constant;
    var x := s.tx[t];
    assert Covered(s.stripe, y) by { assert forall i: nat :: Logged(x, i) ==> Logged(y, i); }
  }

  lemma GrantedApart(s: State, s': State, x: Tx, y: Tx, u: Tx)
    requires Apart(s, x, u) && SameCore(x, y) && x.pc.TakeTsGV4? && y.pc.Validating? && y.pc.i == 0
    requires s'.stripe == s.stripe && s'.mem == s.mem
    ensures Apart(s', y, u)
  {
  }

  // ---------- validation ----------

  /** Only the position in the read log, or whether the commit is still on, changes. */
  lemma KeepValidatingMove(s: State, t: nat, ts: nat, i: nat, pc: Pc)
    requires Inv(s) && t < |s.tx| && i < |s.tx[t].readLog|
    requires s.tx[t].pc == Validating(ts, i) || s.tx[t].pc == ValidatingLocked(ts, i)
    requires pc == RestoreReads(0) || pc == ValidatingLocked(ts, i)
    ensures Inv(Goto(s, t, pc))
  {
    hide Thread, Shared, Apart;
    var y := s.tx[t].(pc := pc);
    ValidatingMoveSelf(s, t, ts, i, y);
    forall u | 0 <= u < |s.tx| && u != t
      ensures Apart(Put(s, t, y), y, s.tx[u])
    {
      assert Apart(s, s.tx[t], s.tx[u]);
      ValidatingMoveApart(s, Put(s, t, y), s.tx[t], y, s.tx[u]);
    }
    Local(s, t, y);
  }

  lemma ValidatingMoveSelf(s: State, t: nat, ts: nat, i: nat, y: Tx)
    requires Inv(s) && t < |s.tx| && i < |s.tx[t].readLog| && SameCore(s.tx[t], y)
    requires s.tx[t].pc == Validating(ts, i) || s.tx[t].pc == ValidatingLocked(ts, i)
    requires y.pc == RestoreReads(0) || y.pc == ValidatingLocked(ts, i)
    ensures Thread(Put(s, t, y), t, y)
  {
    hide Thread, Apart, Shared;
    assert Thread(s, t, s.tx[t]);
    SharedSized(s);
    if y.pc.RestoreReads? { GivingUpSelf(s, t, y); } else { LockedSelf(s, t, ts, i, y); }
  }

  lemma GivingUpSelf(s: State, t: nat, y: Tx)
    requires Sized(s) && t < |s.tx| && SameCore(s.tx[t], y) && Thread(s, t, s.tx[t])
    requires (s.tx[t].pc.Validating? || s.tx[t].pc.ValidatingLocked?) && y.pc == RestoreReads(0)
    ensures Thread(Put(s, t, y), t, y)
  {
    hide Legal, BufferOf, MaskWord, Current, Constant, Covered;
  }

  lemma LockedSelf(s: State, t: nat, ts: nat, i: nat, y: Tx)
    requires Sized(s) && t < |s.tx| && i < |s.tx[t].readLog| && SameCore(s.tx[t], y) && Thread(s, t, s.tx[t])
    requires s.tx[t].pc == Validating(ts, i) || s.tx[t].pc == ValidatingLocked(ts, i)
    requires y.pc == ValidatingLocked(ts, i)
    ensures Thread(Put(s, t, y), t, y)
  {
    hide Legal, BufferOf, MaskWord, Current, Constant;
    var x := s.tx[t];
    assert Covered(s.stripe, y) by { assert forall i: nat :: Logged(x, i) ==> Logged(y, i); }
  }

  lemma ValidatingMoveApart(s: State, s': State, x: Tx, y: Tx, u: Tx)
    requires Apart(s, x, u) && SameCore(x, y) && (x.pc.Validating? || x.pc.ValidatingLocked?)
    requires y.pc == RestoreReads(0) || y.pc == ValidatingLocked(x.pc.ts, x.pc.i)
    requires s'.stripe == s.stripe && s'.mem == s.mem
    ensures Apart(s', y, u)
  {
  }

  /** An entry passes: it is valid at ts, and no other pending commit up to ts will write it. */
  lemma KeepValidated(s: State, t: nat, ts: nat, i: nat)
    requires Inv(s) && t < |s.tx| && i < |s.tx[t].readLog|
    requires s.tx[t].pc == Validating(ts, i) || s.tx[t].pc == ValidatingLocked(ts, i)
    requires EntryFresh(s, t, ts, i)
    ensures Inv(Goto(s, t, Validating(ts, i + 1)))
  {
    hide Thread, Shared, Apart, EntryFresh;
    var y := s.tx[t].(pc := Validating(ts, i + 1));
    ValidatedSelf(s, t, ts, i, y);
    forall u | 0 <= u < |s.tx| && u != t
      ensures Apart(Put(s, t, y), y, s.tx[u])
    {
      assert Apart(s, s.tx[t], s.tx[u]);
      ValidatedApart(s, Put(s, t, y), t, ts, i, y, u);
    }
    Local(s, t, y);
  }

  ghost predicate EntryFresh(s: State, t: nat, ts: nat, i: nat)
    requires t < |s.tx| && i < |s.tx[t].readLog|
  {
    var e := s.tx[t].readLog[i];
    && Constant(s.stripe, s.hist, e.x, e.version, ts)
    && forall u, k :: 0 <= u < |s.tx| && u != t && Pending(s.tx[u]) && 0 <= k < |s.tx[u].writeLog| ==>
         s.tx[u].writeLog[k].x != e.x
  }

  lemma ValidatedSelf(s: State, t: nat, ts: nat, i: nat, y: Tx)
    requires Inv(s) && t < |s.tx| && i < |s.tx[t].readLog|
    requires s.tx[t].pc == Validating(ts, i) || s.tx[t].pc == ValidatingLocked(ts, i)
    requires EntryFresh(s, t, ts, i) && y == s.tx[t].(pc := Validating(ts, i + 1))
    ensures Thread(Put(s, t, y), t, y)
  {
    hide Inv, Legal, BufferOf, MaskWord, Current, Constant, Covered, Shared;
    Mine(s, t);
    SameCovered(s.stripe, s.tx[t], y);
  }

  lemma ValidatedApart(s: State, s': State, t: nat, ts: nat, i: nat, y: Tx, u: nat)
    requires t < |s.tx| && u < |s.tx| && u != t && i < |s.tx[t].readLog| && Apart(s, s.tx[t], s.tx[u])
    requires s.tx[t].pc == Validating(ts, i) || s.tx[t].pc == ValidatingLocked(ts, i)
    requires EntryFresh(s, t, ts, i) && y == s.tx[t].(pc := Validating(ts, i + 1))
    requires s'.stripe == s.stripe && s'.mem == s.mem
    ensures Apart(s', y, s.tx[u])
  {
    hide Constant;
  }

  /** The version has not changed. */
  lemma UnchangedFresh(s: State, t: nat, ts: nat, i: nat)
    requires Inv(s) && t < |s.tx| && s.tx[t].pc == Validating(ts, i) && i < |s.tx[t].readLog| && TxOk(s, s.tx[t])
    requires s.rl[s.tx[t].readLog[i].x] == Ver(s.tx[t].readLog[i].version)
    ensures EntryFresh(s, t, ts, i)
  {
    hide Apart;
    var e := s.tx[t].readLog[i];
    assert Current(s.stripe, s.mem, s.hist, e.x, e.version);
    forall u, k | 0 <= u < |s.tx| && u != t && Pending(s.tx[u]) && 0 <= k < |s.tx[u].writeLog|
      ensures s.tx[u].writeLog[k].x != e.x
    {
      assert Thread(s, u, s.tx[u]);
    }
  }

  /** The stripe is locked by the committing transaction itself: nobody wrote it since it was read. */
  lemma OwnFresh(s: State, t: nat, ts: nat, i: nat)
    requires Inv(s) && t < |s.tx| && s.tx[t].pc == ValidatingLocked(ts, i) && TxOk(s, s.tx[t])
    requires s.wl[s.tx[t].readLog[i].x].Held? && s.wl[s.tx[t].readLog[i].x].t == t
    ensures EntryFresh(s, t, ts, i)
  {
    hide Thread, Shared, Apart, Constant;
    var e := s.tx[t].readLog[i];
    var k := s.wl[e.x].k;
    OwnEntry(s, t, e.x);
    OnlyOwner(s, t, k);
    OwnConstant(s, t, ts, i, k);
  }

  lemma OwnEntry(s: State, t: nat, i: nat)
    requires Inv(s) && i < |s.wl| && s.wl[i].Held? && s.wl[i].t == t
    ensures t < |s.tx| && s.wl[i].k < |s.tx[t].writeLog| && s.tx[t].writeLog[s.wl[i].k].x == i && Holds(s.tx[t], s.wl[i].k)
  {
  }

  lemma OwnConstant(s: State, t: nat, ts: nat, i: nat, k: nat)
    requires Inv(s) && t < |s.tx| && s.tx[t].pc == ValidatingLocked(ts, i) && TxOk(s, s.tx[t])
    requires k < |s.tx[t].writeLog| && s.tx[t].writeLog[k].x == s.tx[t].readLog[i].x
    ensures Constant(s.stripe, s.hist, s.tx[t].readLog[i].x, s.tx[t].readLog[i].version, ts)
  {
    hide Apart, Legal, BufferOf;
    var x := s.tx[t];
    assert Thread(s, t, x);
    var e := x.readLog[i];
    assert Constant(s.stripe, s.hist, e.x, e.version, x.validTs);
    assert Current(s.stripe, s.mem, s.hist, e.x, x.writeLog[k].oldVersion);
  }

  lemma KeepValidatingEntry(s: State, t: nat, ts: nat, i: nat)
    requires Inv(s) && t < |s.tx| && s.tx[t].pc == Validating(ts, i) && i < |s.tx[t].readLog|
    ensures TxOk(s, s.tx[t]) && Inv(StepValidating(s, t, ts, i))
  {
    hide Thread, Shared, Apart, EntryFresh;
    Here(s, t);
    var e := s.tx[t].readLog[i];
    if s.rl[e.x] == Ver(e.version) {
      UnchangedFresh(s, t, ts, i);
      KeepValidated(s, t, ts, i);
    } else {
      KeepValidatingMove(s, t, ts, i, if s.rl[e.x].Set? then ValidatingLocked(ts, i) else RestoreReads(0));
    }
  }

  lemma KeepValidatingLocked(s: State, t: nat, ts: nat, i: nat)
    requires Inv(s) && t < |s.tx| && s.tx[t].pc == ValidatingLocked(ts, i)
    ensures TxOk(s, s.tx[t]) && Inv(StepValidatingLocked(s, t, ts, i))
  {
    hide Thread, Shared, Apart, EntryFresh;
    Here(s, t);
    var w := s.wl[s.tx[t].readLog[i].x];
    if w.Held? && w.t == t {
      OwnFresh(s, t, ts, i);
      KeepValidated(s, t, ts, i);
    } else {
      KeepValidatingMove(s, t, ts, i, RestoreReads(0));
    }
  }

  // ---------- the decision ----------

  /** What a transaction must know when it decides to commit. */
  ghost predicate Decidable(hist: seq<Memory>, recs: seq<Rec>, r: Rec)
  {
    && History(hist, recs) && r.update && 1 <= r.ts < |hist| && Legal(hist[r.ts - 1], r.ops)
    // what it touched has not changed at its own timestamp, and what it writes not after that
    && (forall a: nat :: a < |hist[0]| && Touches(r.ops, a) ==> hist[r.ts][a] == hist[r.ts - 1][a])
    && (forall T, a :: r.ts <= T < |hist| && 0 <= a < |hist[0]| && a in BufferOf(r.ops) ==> hist[T][a] == hist[r.ts][a])
    // nobody decided for a later time touched what it writes
    && (forall i, a :: 0 <= i < |recs| && a in BufferOf(r.ops) && Touches(recs[i].ops, a) ==> recs[i].ts < r.ts)
    && r.begin <= |recs| && (forall i :: 0 <= i < r.begin ==> recs[i].ts < r.ts)
  }

  /** A new update changes history from its timestamp on, and nothing that was decided before. */
  lemma HistoryDecide(hist: seq<Memory>, recs: seq<Rec>, r: Rec)
    requires Decidable(hist, recs, r)
    ensures History(Publish(hist, r.ts, BufferOf(r.ops)), recs + [r])
  {
    hide Legal, BufferOf, Through, HistoryWritten, HistoryKept, ReadsKept, RecsLegal;
    DecideLegal(hist, recs, r);
    DecideWritten(hist, recs, r);
    DecideKept(hist, recs, r);
    DecideReads(hist, recs, r);
  }

  lemma DecideLegal(hist: seq<Memory>, recs: seq<Rec>, r: Rec)
    requires Decidable(hist, recs, r)
    ensures RecsLegal(Publish(hist, r.ts, BufferOf(r.ops)), recs + [r])
  {
    hide Legal, BufferOf;
    var b := BufferOf(r.ops);
    var h := Publish(hist, r.ts, b);
    forall i | 0 <= i < |recs|
      ensures Legal(h[Base(recs[i])], recs[i].ops)
    {
      LegalFrame(hist[Base(recs[i])], h[Base(recs[i])], recs[i].ops);
    }
    LegalFrame(hist[r.ts - 1], h[r.ts - 1], r.ops);
  }

  lemma DecideWritten(hist: seq<Memory>, recs: seq<Rec>, r: Rec)
    requires Decidable(hist, recs, r)
    requires RecsLegal(Publish(hist, r.ts, BufferOf(r.ops)), recs + [r])
    ensures HistoryWritten(Publish(hist, r.ts, BufferOf(r.ops)), recs + [r])
  {
    hide Legal, BufferOf, Through, Publish;
    var h := Publish(hist, r.ts, BufferOf(r.ops));
    var q := recs + [r];
    forall i, a | 0 <= i < |q| && q[i].update && a in BufferOf(q[i].ops) && a < |h[0]|
      ensures h[q[i].ts][a] == Through(BufferOf(q[i].ops), a, h[q[i].ts - 1][a])
    {
      BufferTouched(q[i].ops, a);
      if i < |recs| { OldWritten(hist, recs, r, i, a); } else { assert q[i] == r; }
    }
  }

  lemma OldWritten(hist: seq<Memory>, recs: seq<Rec>, r: Rec, i: nat, a: nat)
    requires Decidable(hist, recs, r) && i < |recs| && recs[i].update && a in BufferOf(recs[i].ops) && a < |hist[0]|
    requires Touches(recs[i].ops, a)
    ensures var h := Publish(hist, r.ts, BufferOf(r.ops));
            h[recs[i].ts][a] == Through(BufferOf(recs[i].ops), a, h[recs[i].ts - 1][a])
  {
    hide Legal, BufferOf, Through, Publish, Touches;
    var b := BufferOf(r.ops);
    if a !in b {
      ThroughMiss(b, a, hist[recs[i].ts][a]);
      ThroughMiss(b, a, hist[recs[i].ts - 1][a]);
    }
  }

  lemma ThroughMiss(b: Buffer, a: nat, w: Word)
    requires a !in b
    ensures Through(b, a, w) == w
  {
  }

  lemma DecideKept(hist: seq<Memory>, recs: seq<Rec>, r: Rec)
    requires Decidable(hist, recs, r)
    ensures SameSizes(Publish(hist, r.ts, BufferOf(r.ops)))
    ensures HistoryKept(Publish(hist, r.ts, BufferOf(r.ops)), recs + [r])
  {
    hide Legal, BufferOf, MaskWord;
    var h := Publish(hist, r.ts, BufferOf(r.ops));
    var q := recs + [r];
    assert q[|recs|] == r;
    forall T, a | 1 <= T < |h| && 0 <= a < |h[0]| && !WrittenAt(q, T, a)
      ensures h[T][a] == h[T - 1][a]
    {
      WrittenMore(recs, r, T, a);
    }
  }

  lemma WrittenMore(recs: seq<Rec>, r: Rec, T: nat, a: nat)
    ensures WrittenAt(recs, T, a) ==> WrittenAt(recs + [r], T, a)
  {
    var q := recs + [r];
    assert forall i :: 0 <= i < |recs| ==> q[i] == recs[i];
  }

  lemma DecideReads(hist: seq<Memory>, recs: seq<Rec>, r: Rec)
    requires Decidable(hist, recs, r)
    requires RecsLegal(Publish(hist, r.ts, BufferOf(r.ops)), recs + [r])
    ensures ReadsKept(Publish(hist, r.ts, BufferOf(r.ops)), recs + [r])
  {
    hide Legal, BufferOf, MaskWord, Touches;
    var h := Publish(hist, r.ts, BufferOf(r.ops));
    var q := recs + [r];
    forall i, a | 0 <= i < |q| && q[i].update && 0 <= a < |h[0]| && Touches(q[i].ops, a) && a !in BufferOf(q[i].ops)
      ensures h[q[i].ts][a] == h[q[i].ts - 1][a]
    {
      if i == |recs| { assert q[i] == r; } else { assert q[i] == recs[i]; }
    }
  }

  /** A transaction whose whole read log has been validated. */
  ghost predicate Deciding(s: State, t: nat, ts: nat)
  {
    && Inv(s) && t < |s.tx| && s.tx[t].pc == Validating(ts, |s.tx[t].readLog|)
  }

  /** From valid_ts to its commit timestamp nothing it touched has changed. */
  lemma TouchedConstant(s: State, t: nat, ts: nat, a: nat, T: nat)
    requires Deciding(s, t, ts) && a < |s.mem| && Logged(s.tx[t], s.stripe[a]) && s.tx[t].validTs <= T <= ts
    ensures ts < |s.hist| && |s.hist[T]| == |s.mem| && |s.hist[s.tx[t].validTs]| == |s.mem|
    ensures s.hist[T][a] == s.hist[s.tx[t].validTs][a]
  {
    hide Apart, Legal, BufferOf;
    var x := s.tx[t];
    assert Thread(s, t, x);
    if j :| 0 <= j < |x.readLog| && x.readLog[j].x == s.stripe[a] {
      assert Constant(s.stripe, s.hist, s.stripe[a], x.readLog[j].version, ts);
    } else {
      var n :| 0 <= n < |x.writeLog| && x.writeLog[n].x == s.stripe[a];
      assert Current(s.stripe, s.mem, s.hist, s.stripe[a], x.writeLog[n].oldVersion);
    }
  }

  /** What it is about to write is in memory as it has been since valid_ts. */
  lemma WrittenCurrent(s: State, t: nat, ts: nat, k: nat, T: nat, a: nat)
    requires Deciding(s, t, ts) && k < |s.tx[t].writeLog| && a < |s.mem| && s.stripe[a] == s.tx[t].writeLog[k].x
    requires s.tx[t].validTs <= T < |s.hist|
    ensures |s.hist[T]| == |s.mem| && s.hist[T][a] == s.mem[a]
  {
    hide Apart, Legal, BufferOf;
    assert Thread(s, t, s.tx[t]);
  }

  lemma DecidingFacts(s: State, t: nat, ts: nat)
    requires Deciding(s, t, ts)
    ensures Sized(s) && TxOk(s, s.tx[t]) && s.tx[t].validTs < ts < |s.hist| && History(s.hist, s.recs)
    ensures Legal(s.hist[s.tx[t].validTs], s.tx[t].ops) && s.tx[t].buffer == BufferOf(s.tx[t].ops)
    ensures Covered(s.stripe, s.tx[t]) && BufferLocked(s.stripe, s.tx[t]) && RecsBefore(s.stripe, s.recs, s.tx[t])
    ensures Started(s.recs, s.tx[t]) && CommittingMeansSet(s.rl, s.tx[t])
    ensures s.hist != [] && |s.hist[0]| == |s.mem|
  {
    hide Apart, Legal, BufferOf;
    assert Thread(s, t, s.tx[t]);
  }

  lemma DecidableNow(s: State, t: nat, ts: nat)
    requires Deciding(s, t, ts)
    ensures Decidable(s.hist, s.recs, Rec(ts, true, s.tx[t].ops, s.tx[t].begin))
  {
    hide Inv, Legal, BufferOf, Logged, History, Covered;
    var x := s.tx[t];
    var r := Rec(ts, true, x.ops, x.begin);
    DecidingFacts(s, t, ts);
    forall a: nat | a < |s.mem| && Touches(x.ops, a)
      ensures s.hist[ts - 1][a] == s.hist[x.validTs][a] && s.hist[ts][a] == s.hist[x.validTs][a]
    {
      TouchedLogged(s.stripe, x, a);
      TouchedConstant(s, t, ts, a, ts - 1);
      TouchedConstant(s, t, ts, a, ts);
    }
    LegalFrame(s.hist[x.validTs], s.hist[ts - 1], x.ops);
    forall T, a | ts <= T < |s.hist| && 0 <= a < |s.mem| && a in x.buffer
      ensures s.hist[T][a] == s.hist[ts][a]
    {
      var k :| 0 <= k < |x.writeLog| && x.writeLog[k].x == s.stripe[a];
      WrittenCurrent(s, t, ts, k, T, a);
      WrittenCurrent(s, t, ts, k, ts, a);
    }
    forall i, a | 0 <= i < |s.recs| && a in x.buffer && Touches(s.recs[i].ops, a)
      ensures s.recs[i].ts < ts
    {
      var k :| 0 <= k < |x.writeLog| && x.writeLog[k].x == s.stripe[a];
      TouchedStripe(s.stripe, s.recs[i].ops, a);
    }
  }

  lemma TouchedLogged(stripe: seq<nat>, x: Tx, a: nat)
    requires Covered(stripe, x) && Touches(x.ops, a)
    ensures a < |stripe| && Logged(x, stripe[a])
  {
  }

  lemma TouchedStripe(stripe: seq<nat>, ops: seq<Op>, a: nat)
    requires Touches(ops, a) && a < |stripe|
    ensures TouchesStripe(stripe, ops, stripe[a])
  {
  }

  function DecideState(s: State, t: nat, ts: nat): State
    requires t < |s.tx|
  {
    var x := s.tx[t];
    Goto(s, t, WriteBack(ts, 0, {}))
      .(hist := Publish(s.hist, ts, x.buffer), recs := s.recs + [Rec(ts, true, x.ops, x.begin)])
  }

  /** Stripes the transaction does not write keep their history; the others keep it before ts. */
  ghost predicate Spared(x: Tx, ts: nat, i: nat, T: nat)
  {
    Writes(x, i) ==> T < ts
  }

  lemma PublishSpares(s: State, t: nat, ts: nat, T: nat, a: nat)
    requires Sized(s) && t < |s.tx| && BufferLocked(s.stripe, s.tx[t]) && T < |s.hist| && a < |s.mem|
    requires Spared(s.tx[t], ts, s.stripe[a], T)
    ensures Publish(s.hist, ts, s.tx[t].buffer)[T][a] == s.hist[T][a]
  {
    hide MaskWord;
  }

  lemma PublishConstant(s: State, t: nat, ts: nat, i: nat, lo: nat, hi: nat)
    requires Sized(s) && t < |s.tx| && BufferLocked(s.stripe, s.tx[t])
    requires Constant(s.stripe, s.hist, i, lo, hi) && Spared(s.tx[t], ts, i, lo) && Spared(s.tx[t], ts, i, hi)
    ensures Constant(s.stripe, Publish(s.hist, ts, s.tx[t].buffer), i, lo, hi)
  {
    hide BufferLocked, Through, Publish;
    var h := Publish(s.hist, ts, s.tx[t].buffer);
    forall T, a | lo <= T <= hi && T < |h| && 0 <= a < |s.stripe| && a < |h[T]| && a < |h[lo]| && s.stripe[a] == i
      ensures h[T][a] == h[lo][a]
    {
      PublishSpares(s, t, ts, T, a);
      PublishSpares(s, t, ts, lo, a);
    }
  }

  lemma PublishCurrent(s: State, t: nat, ts: nat, i: nat, lo: nat)
    requires Sized(s) && t < |s.tx| && BufferLocked(s.stripe, s.tx[t])
    requires Current(s.stripe, s.mem, s.hist, i, lo) && !Writes(s.tx[t], i)
    ensures Current(s.stripe, s.mem, Publish(s.hist, ts, s.tx[t].buffer), i, lo)
  {
    hide BufferLocked, Through, Publish;
    var h := Publish(s.hist, ts, s.tx[t].buffer);
    forall T, a | lo <= T < |h| && 0 <= a < |s.mem| && a < |s.stripe| && a < |h[T]| && s.stripe[a] == i
      ensures h[T][a] == s.mem[a]
    {
      PublishSpares(s, t, ts, T, a);
    }
  }

  lemma DecideShared(s: State, t: nat, ts: nat)
    requires Deciding(s, t, ts)
    ensures Shared(DecideState(s, t, ts))
  {
    hide Thread, Apart, History, Through, Publish, Current, BufferOf, Decidable, BufferLocked, Started, RecsBefore, Legal;
    var s' := DecideState(s, t, ts);
    DecidingFacts(s, t, ts);
    DecidableNow(s, t, ts);
    HistoryDecide(s.hist, s.recs, Rec(ts, true, s.tx[t].ops, s.tx[t].begin));
    forall i | 0 <= i < |s.rl| && s.rl[i].Ver?
      ensures Current(s'.stripe, s'.mem, s'.hist, i, s.rl[i].ts)
    {
      PublishCurrent(s, t, ts, i, s.rl[i].ts);
    }
    DecideLocks(s, t, ts);
  }

  lemma DecideLocks(s: State, t: nat, ts: nat)
    requires Shared(s) && t < |s.tx| && s.tx[t].pc == Validating(ts, |s.tx[t].readLog|)
    ensures var s' := DecideState(s, t, ts);
            LocksPointBack(s'.wl, s'.tx) && SetMeansCommitting(s'.rl, s'.wl, s'.tx)
            && StampsUnique(s'.gv4, s'.tx, s'.recs)
  {
    hide History, Through, Publish, UnlockedCurrent;
  }

  lemma DecideSelf(s: State, t: nat, ts: nat)
    requires Deciding(s, t, ts)
    ensures var s' := DecideState(s, t, ts); Thread(s', t, s'.tx[t])
  {
    hide Apart, Legal, BufferOf, MaskWord, Through, Publish, Current, Shared, WritingBack;
    var s' := DecideState(s, t, ts);
    var x := s.tx[t];
    DecidingFacts(s, t, ts);
    assert Thread(s, t, x);
    DecideWriting(s, t, ts);
    assert BufferLocked(s.stripe, s'.tx[t]) by { assert forall i: nat :: Writes(x, i) ==> Writes(s'.tx[t], i); }
  }

  lemma DecideWriting(s: State, t: nat, ts: nat)
    requires Deciding(s, t, ts)
    ensures var s' := DecideState(s, t, ts); WritingBack(s'.stripe, s'.mem, s'.hist, s'.tx[t])
  {
    hide Inv, Through, Publish;
    var s' := DecideState(s, t, ts);
    var y := s'.tx[t];
    DecidingFacts(s, t, ts);
    forall k, T, a | 0 <= k < |y.writeLog| && ReadLocked(y, k) && ts <= T < |s'.hist| && 0 <= a < |s.mem|
                     && a < |s.stripe| && s.stripe[a] == y.writeLog[k].x
      ensures s'.hist[T][a] == Through(y.buffer, a, s.mem[a])
    {
      WrittenCurrent(s, t, ts, k, T, a);
    }
  }

  /** What another thread may rely on when t decides: t writes nothing u has locked, and is later than what u has read. */
  ghost predicate Undisturbed(s: State, t: nat, ts: nat, u: nat)
    requires t < |s.tx| && u < |s.tx|
  {
    && (forall k :: 0 <= k < |s.tx[u].writeLog| && Holds(s.tx[u], k) ==> !Writes(s.tx[t], s.tx[u].writeLog[k].x))
    && (Live(s.tx[u]) ==> forall j :: 0 <= j < |s.tx[u].readLog| ==>
          && Spared(s.tx[t], ts, s.tx[u].readLog[j].x, s.tx[u].readLog[j].version)
          && Spared(s.tx[t], ts, s.tx[u].readLog[j].x, Bound(s.tx[u], j)))
  }

  lemma DecideUndisturbed(s: State, t: nat, ts: nat, u: nat)
    requires Deciding(s, t, ts) && u < |s.tx| && u != t
    ensures Undisturbed(s, t, ts, u)
  {
    hide Thread, Shared;
    forall k | 0 <= k < |s.tx[u].writeLog| && Holds(s.tx[u], k)
      ensures !Writes(s.tx[t], s.tx[u].writeLog[k].x)
    {
      OnlyOwner(s, u, k);
    }
    assert Apart(s, s.tx[u], s.tx[t]);
  }

  lemma DecideOther(s: State, t: nat, ts: nat, u: nat)
    requires Deciding(s, t, ts) && u < |s.tx| && u != t
    ensures Thread(DecideState(s, t, ts), u, s.tx[u])
  {
    hide Inv, Shared, Thread, Apart, Undisturbed, Deciding;
    DecideUndisturbed(s, t, ts, u);
    DecidingThread(s, t, ts, u);
    OtherContents(s, t, ts, u);
    OtherReads(s, t, ts, u);
    OtherSnapshot(s, t, ts, u);
    OtherRecs(s, t, ts, u);
    OtherAtPc(s, t, ts, u);
    OtherAssemble(s, t, ts, u);
  }

  lemma DecidingThread(s: State, t: nat, ts: nat, u: nat)
    requires Deciding(s, t, ts) && u < |s.tx|
    ensures t < |s.tx| && Sized(s) && Thread(s, u, s.tx[u]) && BufferLocked(s.stripe, s.tx[t])
  {
    hide Apart;
    assert Thread(s, u, s.tx[u]) && Thread(s, t, s.tx[t]);
  }

  lemma OtherAssemble(s: State, t: nat, ts: nat, u: nat)
    requires Sized(s) && t < |s.tx| && u < |s.tx| && u != t && Thread(s, u, s.tx[u])
    requires var s' := DecideState(s, t, ts); var x := s.tx[u];
             && LockedCurrent(s'.stripe, s'.mem, s'.hist, x) && WritingBack(s'.stripe, s'.mem, s'.hist, x)
             && ReadsConstant(s'.stripe, s'.clock, s'.hist, x) && Snapshot(s'.stripe, s'.hist, x)
             && RecsBefore(s'.stripe, s'.recs, x) && AtPc(s', x)
    ensures Thread(DecideState(s, t, ts), u, s.tx[u])
  {
    hide LockedCurrent, WritingBack, ReadsConstant, Snapshot, RecsBefore, AtPc, Publish;
  }

  lemma OtherContents(s: State, t: nat, ts: nat, u: nat)
    requires Sized(s) && t < |s.tx| && u < |s.tx| && Thread(s, u, s.tx[u]) && BufferLocked(s.stripe, s.tx[t])
    requires Undisturbed(s, t, ts, u)
    ensures var s' := DecideState(s, t, ts);
            LockedCurrent(s'.stripe, s'.mem, s'.hist, s.tx[u]) && WritingBack(s'.stripe, s'.mem, s'.hist, s.tx[u])
  {
    hide Current, BufferLocked, Through, Publish, ReadsConstant, Snapshot, AtPc;
    var s' := DecideState(s, t, ts);
    var x := s.tx[u];
    LocksHeld(x);
    forall k | 0 <= k < |x.writeLog| && ReadLocked(x, k) && !Decided(x)
      ensures Current(s'.stripe, s'.mem, s'.hist, x.writeLog[k].x, x.writeLog[k].oldVersion)
    {
      PublishCurrent(s, t, ts, x.writeLog[k].x, x.writeLog[k].oldVersion);
    }
    if Decided(x) {
      forall k, T, a | 0 <= k < |x.writeLog| && ReadLocked(x, k) && DecidedTs(x) <= T < |s'.hist| && 0 <= a < |s.mem|
                       && a < |s.stripe| && s.stripe[a] == x.writeLog[k].x
        ensures s'.hist[T][a] == s.hist[T][a]
      {
        PublishSpares(s, t, ts, T, a);
      }
    }
  }

  lemma OtherReads(s: State, t: nat, ts: nat, u: nat)
    requires Sized(s) && t < |s.tx| && u < |s.tx| && Thread(s, u, s.tx[u]) && BufferLocked(s.stripe, s.tx[t])
    requires Undisturbed(s, t, ts, u)
    ensures var s' := DecideState(s, t, ts); ReadsConstant(s'.stripe, s'.clock, s'.hist, s.tx[u])
  {
    hide Current, Constant, BufferLocked, Through, Publish, Snapshot, AtPc, WritingBack, LockedCurrent, Spared;
    var s' := DecideState(s, t, ts);
    var x := s.tx[u];
    if Live(x) {
      forall j | 0 <= j < |x.readLog|
        ensures Constant(s'.stripe, s'.hist, x.readLog[j].x, x.readLog[j].version, Bound(x, j))
      {
        PublishConstant(s, t, ts, x.readLog[j].x, x.readLog[j].version, Bound(x, j));
      }
    }
  }

  lemma OtherSnapshot(s: State, t: nat, ts: nat, u: nat)
    requires Sized(s) && t < |s.tx| && u < |s.tx| && Thread(s, u, s.tx[u]) && BufferLocked(s.stripe, s.tx[t])
    requires Undisturbed(s, t, ts, u)
    ensures var s' := DecideState(s, t, ts); Snapshot(s'.stripe, s'.hist, s.tx[u])
  {
    hide Current, Constant, BufferLocked, Through, Publish, AtPc, WritingBack, LockedCurrent, Legal, BufferOf, ReadsConstant,
         Covered, Logged, Undisturbed, EntriesLocked, CommittingMeansSet, VersionRecorded, OldVersionValid, RecsBefore;
    var s' := DecideState(s, t, ts);
    var x := s.tx[u];
    if Live(x) {
      forall a: nat | a < |s.mem| && Touches(x.ops, a)
        ensures s'.hist[x.validTs][a] == s.hist[x.validTs][a]
      {
        TouchedLogged(s.stripe, x, a);
        LoggedSpared(s, t, ts, u, s.stripe[a]);
        PublishSpares(s, t, ts, x.validTs, a);
      }
      LegalFrame(s.hist[x.validTs], s'.hist[x.validTs], x.ops);
    }
  }

  lemma LoggedSpared(s: State, t: nat, ts: nat, u: nat, i: nat)
    requires t < |s.tx| && u < |s.tx| && Undisturbed(s, t, ts, u) && Live(s.tx[u]) && Logged(s.tx[u], i)
    requires Stamps(s.gv4, s.clock, s.tx[u])
    ensures Spared(s.tx[t], ts, i, s.tx[u].validTs)
  {
    var x := s.tx[u];
    if j :| 0 <= j < SettledReads(x) && x.readLog[j].x == i {
      assert Spared(s.tx[t], ts, x.readLog[j].x, Bound(x, j));
    }
  }

  lemma OtherRecs(s: State, t: nat, ts: nat, u: nat)
    requires Deciding(s, t, ts) && u < |s.tx| && u != t && Undisturbed(s, t, ts, u) && Thread(s, u, s.tx[u])
    ensures var s' := DecideState(s, t, ts); RecsBefore(s'.stripe, s'.recs, s.tx[u])
  {
    hide Publish, Shared;
    var s' := DecideState(s, t, ts);
    var x := s.tx[u];
    DecidingFacts(s, t, ts);
    assert Apart(s, s.tx[t], x);
    if Pending(x) {
      forall i, k | 0 <= i < |s'.recs| && 0 <= k < |x.writeLog| && TouchesStripe(s.stripe, s'.recs[i].ops, x.writeLog[k].x)
        ensures s'.recs[i].ts < Floor(x)
      {
        if i == |s.recs| { OwnRec(s, t, ts, x, k); }
      }
    }
  }

  /** A stripe the deciding transaction read, and another one will write: the other commit is later. */
  lemma OwnRec(s: State, t: nat, ts: nat, x: Tx, k: nat)
    requires t < |s.tx| && s.tx[t].pc == Validating(ts, |s.tx[t].readLog|) && Covered(s.stripe, s.tx[t])
    requires Pending(x) && k < |x.writeLog| && !Writes(s.tx[t], x.writeLog[k].x) && LaterThan(s.tx[t], x)
    requires TouchesStripe(s.stripe, s.tx[t].ops, x.writeLog[k].x)
    ensures ts < Floor(x)
  {
  }

  lemma OtherAtPc(s: State, t: nat, ts: nat, u: nat)
    requires Sized(s) && t < |s.tx| && u < |s.tx| && Thread(s, u, s.tx[u]) && BufferLocked(s.stripe, s.tx[t])
    requires Undisturbed(s, t, ts, u)
    ensures AtPc(DecideState(s, t, ts), s.tx[u])
  {
    hide BufferLocked, Through, Publish, WritingBack, LockedCurrent, Snapshot, ReadsConstant, Covered, Current, Constant,
         EntriesLocked, CommittingMeansSet, VersionRecorded, OldVersionValid, RecsBefore, Started;
    var x := s.tx[u];
    if (x.pc.ExtendClock? || x.pc.Extending?) && x.pc.k.RetRead? {
      var e := x.readLog[|x.readLog| - 1];
      assert Spared(s.tx[t], ts, e.x, e.version);
      PublishSpares(s, t, ts, e.version, x.pc.k.a);
    }
  }

  lemma DecideApart(s: State, s': State, x: Tx, y: Tx, u: Tx)
    requires Apart(s, u, x) && x.pc.Validating? && y == x.(pc := WriteBack(x.pc.ts, 0, {}))
    requires s'.stripe == s.stripe && s'.mem == s.mem
    ensures Apart(s', y, u) && Apart(s', u, y)
  {
  }

  /** The read log is valid at the commit timestamp: the transaction is decided. */
  lemma KeepDecide(s: State, t: nat, ts: nat)
    requires Inv(s) && t < |s.tx| && s.tx[t].pc == Validating(ts, |s.tx[t].readLog|)
    ensures TxOk(s, s.tx[t]) && Inv(StepValidating(s, t, ts, |s.tx[t].readLog|))
  {
    hide Thread, Shared, Apart;
    Here(s, t);
    var s' := DecideState(s, t, ts);
    DecideShared(s, t, ts);
    forall u | 0 <= u < |s.tx|
      ensures Thread(s', u, s'.tx[u])
    {
      if u == t { DecideSelf(s, t, ts); } else { DecideOther(s, t, ts, u); }
    }
    forall u | 0 <= u < |s.tx| && u != t
      ensures Apart(s', s'.tx[t], s'.tx[u]) && Apart(s', s'.tx[u], s'.tx[t])
    {
      assert Apart(s, s.tx[u], s.tx[t]);
      DecideApart(s, s', s.tx[t], s'.tx[t], s.tx[u]);
    }
    Assemble(s, s', t);
  }
}
