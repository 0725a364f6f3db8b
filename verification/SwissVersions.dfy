/** What versions and timestamps prove: why the shortcuts of validation are sound, and who may share a timestamp. */
module SwissVersions {
  import opened Words
  import opened SwissState
  import opened SwissInvariant
  import opened SwissLocal
  import opened SwissRuns

  ghost predicate WritesStripe(stripe: seq<nat>, ops: seq<Op>, i: nat)
  {
    exists a :: a in BufferOf(ops) && a < |stripe| && stripe[a] == i
  }

  /** No decided update later than v wrote stripe i. */
  ghost predicate NoneAfter(stripe: seq<nat>, recs: seq<Rec>, i: nat, v: nat)
  {
    forall n :: 0 <= n < |recs| && recs[n].update && v < recs[n].ts ==> !WritesStripe(stripe, recs[n].ops, i)
  }

  /** No decided update with lo < timestamp <= hi wrote stripe i. */
  ghost predicate Unwritten(stripe: seq<nat>, recs: seq<Rec>, i: nat, lo: nat, hi: nat)
  {
    forall n :: 0 <= n < |recs| && recs[n].update && lo < recs[n].ts <= hi ==> !WritesStripe(stripe, recs[n].ops, i)
  }

  /** The version of a free stripe is the timestamp of its last writer, or later. */
  ghost predicate VersionsFresh(stripe: seq<nat>, recs: seq<Rec>, rl: seq<ReadLock>)
  {
    forall i :: 0 <= i < |rl| && rl[i].Ver? ==> NoneAfter(stripe, recs, i, rl[i].ts)
  }

  /** So is the version remembered by the owner of a set read lock, up to its own commit. */
  ghost predicate OldVersionsFresh(stripe: seq<nat>, recs: seq<Rec>, x: Tx)
  {
    forall k :: 0 <= k < |x.writeLog| && ReadLocked(x, k) ==>
      NoneAfter(stripe, recs, x.writeLog[k].x, if Decided(x) then DecidedTs(x) else x.writeLog[k].oldVersion)
  }

  /** Commit timestamps are later than the versions they replace. */
  ghost predicate Advances(x: Tx)
  {
    Decided(x) ==> forall k :: 0 <= k < |x.writeLog| ==> x.writeLog[k].oldVersion < DecidedTs(x)
  }

  ghost predicate ReadsFresh(stripe: seq<nat>, recs: seq<Rec>, x: Tx)
  {
    Live(x) ==> forall j :: 0 <= j < |x.readLog| ==>
      Unwritten(stripe, recs, x.readLog[j].x, x.readLog[j].version, Bound(x, j))
  }

  /** Two updates with the same timestamp: neither touched a stripe the other wrote. */
  ghost predicate TiesDisjoint(stripe: seq<nat>, recs: seq<Rec>)
  {
    forall n, p, i :: 0 <= n < p < |recs| && recs[n].update && recs[p].update && recs[n].ts == recs[p].ts ==>
      && !(WritesStripe(stripe, recs[n].ops, i) && TouchesStripe(stripe, recs[p].ops, i))
      && !(TouchesStripe(stripe, recs[n].ops, i) && WritesStripe(stripe, recs[p].ops, i))
  }

  /** With the incrementing clock no two updates share a timestamp. */
  ghost predicate NoTies(gv4: bool, recs: seq<Rec>)
  {
    !gv4 ==> forall n, p :: 0 <= n < p < |recs| && recs[n].update && recs[p].update ==> recs[n].ts != recs[p].ts
  }

  ghost predicate Fresh(stripe: seq<nat>, recs: seq<Rec>, x: Tx)
  {
    OldVersionsFresh(stripe, recs, x) && Advances(x) && ReadsFresh(stripe, recs, x)
  }

  ghost predicate Versioned(s: State)
  {
    && VersionsFresh(s.stripe, s.recs, s.rl) && TiesDisjoint(s.stripe, s.recs) && NoTies(s.gv4, s.recs)
    && forall t :: 0 <= t < |s.tx| ==> Fresh(s.stripe, s.recs, s.tx[t])
  }

  // ---------- facts about NoneAfter and Unwritten ----------

  lemma NoneUnwritten(stripe: seq<nat>, recs: seq<Rec>)
    ensures forall i: nat, v: nat, hi: nat :: NoneAfter(stripe, recs, i, v) ==> Unwritten(stripe, recs, i, v, hi)
    ensures forall i: nat, lo: nat, hi: nat :: hi <= lo ==> Unwritten(stripe, recs, i, lo, hi)
    ensures forall i: nat, v: nat, w: nat :: NoneAfter(stripe, recs, i, v) && v <= w ==> NoneAfter(stripe, recs, i, w)
  {
    hide WritesStripe;
  }

  /** A stripe not written up to h, nor after some v <= h, is not written at all. */
  lemma UnwrittenJoin(stripe: seq<nat>, recs: seq<Rec>, i: nat, lo: nat, h: nat, v: nat, hi: nat)
    requires Unwritten(stripe, recs, i, lo, h) && NoneAfter(stripe, recs, i, v) && v <= h
    ensures Unwritten(stripe, recs, i, lo, hi)
  {
    hide WritesStripe;
  }

  /** Nothing has been decided after the clock. */
  lemma UnwrittenClock(s: State, i: nat, lo: nat, hi: nat)
    requires Inv(s) && Unwritten(s.stripe, s.recs, i, lo, s.clock)
    ensures Unwritten(s.stripe, s.recs, i, lo, hi)
  {
    hide WritesStripe, Thread, Apart, Legal, HistoryWritten, HistoryKept, ReadsKept, TouchedEarlier, RealTime;
  }

  // ---------- steps that decide nothing ----------

  /** The step of t adds a decided update, or a decided read-only transaction. */
  predicate Decides(s: State, t: nat, ch: Choice)
    requires t < |s.tx|
  {
    s.tx[t].pc.Validating? && s.tx[t].pc.i == |s.tx[t].readLog|
  }

  predicate EndsReadOnly(s: State, t: nat, ch: Choice)
    requires t < |s.tx|
  {
    s.tx[t].pc.Running? && ch.Commit? && s.tx[t].writeLog == []
  }

  /** Only thread t moves; the table of read locks and the history stay. */
  ghost predicate Quiet(s: State, t: nat, s': State)
    requires t < |s.tx|
  {
    && s'.rl == s.rl && s'.recs == s.recs && |s'.tx| == |s.tx| && s'.stripe == s.stripe && s'.gv4 == s.gv4
    && (forall u :: 0 <= u < |s.tx| && u != t ==> s'.tx[u] == s.tx[u])
  }

  /** y is what thread t becomes by a step that neither logs a read nor changes the read locks. */
  ghost predicate Silent(x: Tx, y: Tx)
  {
    && y.readLog == x.readLog && y.validTs == x.validTs
    && !Decided(y) && (y.pc.Extending? ==> y.pc.i == 0)
    && !Pending(y) && (forall k: nat :: !ReadLocked(y, k))
  }

  /** In LockMemoryStripe or the contention manager. */
  predicate InConflict(pc: Pc)
  {
    pc.Conflict? || pc.ConflictOwner? || pc.ConflictRank? || pc.ConflictFlag? || pc.ConflictReload?
    || pc.TryLock? || pc.LockFailed? || pc.CmTicket? || pc.CmStore?
  }

  /** Waiting for the lock, or asking its owner to give way. */
  predicate Asking(pc: Pc)
  {
    pc.Conflict? || pc.ConflictOwner? || pc.ConflictRank? || pc.ConflictFlag? || pc.ConflictReload?
  }

  lemma AskingSilent(s: State, t: nat, ch: Choice)
    requires Formed(s) && Enabled(s, t, ch) && Asking(s.tx[t].pc)
    ensures t < |Step(s, t, ch).tx| && Quiet(s, t, Step(s, t, ch)) && Silent(s.tx[t], Step(s, t, ch).tx[t])
  {
  }

  lemma ConflictSilent(s: State, t: nat, ch: Choice)
    requires Formed(s) && Enabled(s, t, ch) && InConflict(s.tx[t].pc)
    ensures t < |Step(s, t, ch).tx| && Quiet(s, t, Step(s, t, ch)) && Silent(s.tx[t], Step(s, t, ch).tx[t])
  {
    if Asking(s.tx[t].pc) { AskingSilent(s, t, ch); }
  }

  lemma UserSilent(s: State, t: nat, ch: Choice)
    requires Formed(s) && Enabled(s, t, ch) && s.tx[t].pc.Running? && !EndsReadOnly(s, t, ch)
    ensures Quiet(s, t, Step(s, t, ch)) && Silent(s.tx[t], Step(s, t, ch).tx[t])
  {
  }

  lemma CallSilent(s: State, t: nat, ch: Choice)
    requires Formed(s) && Enabled(s, t, ch) && Plain(s.tx[t].pc) && !InConflict(s.tx[t].pc) && !s.tx[t].pc.Running?
    requires !s.tx[t].pc.ReadAgain? && !s.tx[t].pc.Extending?
    ensures Quiet(s, t, Step(s, t, ch)) && Silent(s.tx[t], Step(s, t, ch).tx[t])
  {
  }

  lemma Others(s: State, t: nat, s': State)
    requires Versioned(s) && t < |s.tx| && Quiet(s, t, s') && Fresh(s.stripe, s.recs, s'.tx[t])
    ensures Versioned(s')
  {
    hide Fresh, TiesDisjoint, NoneAfter;
  }

  lemma SilentFresh(s: State, t: nat, s': State)
    requires Versioned(s) && t < |s.tx| && Quiet(s, t, s') && Silent(s.tx[t], s'.tx[t])
    requires Live(s.tx[t]) && !Pending(s.tx[t])
    requires s.tx[t].pc.Extending? ==> !Live(s'.tx[t])
    ensures Versioned(s')
  {
    assert Fresh(s.stripe, s.recs, s'.tx[t]) by {
      hide NoneAfter, Unwritten, TiesDisjoint, VersionsFresh;
      assert Fresh(s.stripe, s.recs, s.tx[t]);
    }
    Others(s, t, s');
  }

  lemma ReadAgainFresh(s: State, t: nat, ch: Choice)
    requires Inv(s) && Versioned(s) && Enabled(s, t, ch) && s.tx[t].pc.ReadAgain?
    ensures Formed(s) && Versioned(Step(s, t, ch))
  {
    hide Inv, NoneAfter, Unwritten, TiesDisjoint;
    InvSized(s);
    NoneUnwritten(s.stripe, s.recs);
    assert Fresh(s.stripe, s.recs, s.tx[t]);
    var s' := StepReadAgain(s, t, s.tx[t].pc.a, s.tx[t].pc.v, s.tx[t].pc.val);
    assert Fresh(s.stripe, s.recs, s'.tx[t]);
    Others(s, t, s');
  }

  lemma ExtendingFresh(s: State, t: nat, ch: Choice)
    requires Inv(s) && Versioned(s) && Enabled(s, t, ch) && s.tx[t].pc.Extending?
    ensures Formed(s) && Versioned(Step(s, t, ch))
  {
    hide Inv, NoneAfter, Unwritten, TiesDisjoint;
    InvSized(s);
    NoneUnwritten(s.stripe, s.recs);
    assert Fresh(s.stripe, s.recs, s.tx[t]);
    var s' := StepExtending(s, t, s.tx[t].pc.k, s.tx[t].pc.c, s.tx[t].pc.i);
    assert Fresh(s.stripe, s.recs, s'.tx[t]);
    Others(s, t, s');
  }

  /** Calls, up to the commit. */
  lemma CallFresh(s: State, t: nat, ch: Choice)
    requires Inv(s) && Versioned(s) && Enabled(s, t, ch) && Plain(s.tx[t].pc) && !EndsReadOnly(s, t, ch)
    ensures Formed(s) && Versioned(Step(s, t, ch))
  {
    hide Inv, Versioned, Quiet, Silent, Step, Enabled;
    InvSized(s);
    assert t < |s.tx| by { EnabledThread(s, t, ch); }
    if s.tx[t].pc.ReadAgain? { ReadAgainFresh(s, t, ch); }
    else if s.tx[t].pc.Extending? { ExtendingFresh(s, t, ch); }
    else {
      if InConflict(s.tx[t].pc) { ConflictSilent(s, t, ch); }
      else if s.tx[t].pc.Running? { UserSilent(s, t, ch); }
      else { CallSilent(s, t, ch); }
      SilentFresh(s, t, Step(s, t, ch));
    }
  }

  // ---------- the start, the end, and the version of a locked stripe ----------

  lemma IdleEmpty(s: State, t: nat)
    requires Inv(s) && t < |s.tx| && s.tx[t].pc.Idle?
    ensures s.tx[t].readLog == [] && s.tx[t].writeLog == []
  {
    hide Shared, Apart;
    assert Thread(s, t, s.tx[t]);
  }

  lemma EdgeFresh(s: State, t: nat, ch: Choice)
    requires Inv(s) && Versioned(s) && Enabled(s, t, ch)
    requires s.tx[t].pc.Idle? || s.tx[t].pc.LockVersion? || s.tx[t].pc.Dropping?
    ensures Formed(s) && Versioned(Step(s, t, ch))
  {
    hide NoneAfter, Unwritten, TiesDisjoint, Inv;
    InvSized(s);
    assert Fresh(s.stripe, s.recs, s.tx[t]);
    if s.tx[t].pc.Idle? { IdleEmpty(s, t); }
    var s' := Step(s, t, ch);
    assert Quiet(s, t, s');
    assert Fresh(s.stripe, s.recs, s'.tx[t]);
    Others(s, t, s');
  }

  // ---------- locking the read locks, and the timestamp ----------

  /** The read lock of stripe i becomes r; thread t moves. */
  ghost predicate Turns(s: State, t: nat, i: nat, r: ReadLock, s': State)
    requires t < |s.tx|
  {
    && s'.recs == s.recs && |s'.tx| == |s.tx| && s'.stripe == s.stripe && s'.gv4 == s.gv4
    && i < |s.rl| && s'.rl == s.rl[i := r]
    && (forall u :: 0 <= u < |s.tx| && u != t ==> s'.tx[u] == s.tx[u])
  }

  lemma Turned(s: State, t: nat, i: nat, r: ReadLock, s': State)
    requires Versioned(s) && t < |s.tx| && Turns(s, t, i, r, s') && Fresh(s.stripe, s.recs, s'.tx[t])
    requires r.Ver? ==> NoneAfter(s.stripe, s.recs, i, r.ts)
    ensures Versioned(s')
  {
    hide Fresh, TiesDisjoint, NoneAfter;
  }

  lemma LockReadsFresh(s: State, t: nat, ch: Choice)
    requires Inv(s) && Versioned(s) && Enabled(s, t, ch) && s.tx[t].pc.LockReads?
    ensures Formed(s) && Versioned(Step(s, t, ch))
  {
    hide NoneAfter, Unwritten, TiesDisjoint, Shared, Apart;
    InvSized(s);
    var x := s.tx[t];
    assert Thread(s, t, x) && Fresh(s.stripe, s.recs, x);
    var s' := Step(s, t, ch);
    assert Fresh(s.stripe, s.recs, s'.tx[t]);
    Turned(s, t, x.writeLog[x.pc.i].x, Set, s');
  }

  /** Skipping validation: when the commit timestamp follows valid_ts at once, nothing came in between. */
  lemma SkipFresh(s: State, t: nat, ts: nat)
    requires Inv(s) && Versioned(s) && t < |s.tx| && s.tx[t].pc.TakeTs? && ts == s.clock + 1 == s.tx[t].validTs + 1
    ensures Fresh(s.stripe, s.recs, s.tx[t].(pc := Validating(ts, |s.tx[t].readLog|)))
  {
    hide NoneAfter, Unwritten, TiesDisjoint, Inv;
    var x := s.tx[t];
    assert Fresh(s.stripe, s.recs, x);
    forall j | 0 <= j < |x.readLog|
      ensures Unwritten(s.stripe, s.recs, x.readLog[j].x, x.readLog[j].version, ts)
    {
      UnwrittenClock(s, x.readLog[j].x, x.readLog[j].version, ts);
    }
  }

  lemma LateFresh(stripe: seq<nat>, recs: seq<Rec>, x: Tx, pc: Pc)
    requires Fresh(stripe, recs, x) && (x.pc.TakeTs? || x.pc.TakeTsGV4?)
    requires pc.TakeTsGV4? || (pc.Validating? && pc.i == 0)
    ensures Fresh(stripe, recs, x.(pc := pc))
  {
    hide NoneAfter, Unwritten;
  }

  lemma TakeTsFresh(s: State, t: nat, ch: Choice)
    requires Inv(s) && Versioned(s) && Enabled(s, t, ch) && (s.tx[t].pc.TakeTs? || s.tx[t].pc.TakeTsGV4?)
    ensures Formed(s) && Versioned(Step(s, t, ch))
  {
    hide Fresh, VersionsFresh, TiesDisjoint, NoTies, Inv;
    InvSized(s);
    var x, s' := s.tx[t], Step(s, t, ch);
    assert Fresh(s.stripe, s.recs, x);
    if x.pc.TakeTs? && !s.gv4 && x.validTs == s.clock {
      SkipFresh(s, t, s.clock + 1);
    } else {
      LateFresh(s.stripe, s.recs, x, s'.tx[t].pc);
    }
    Others(s, t, s');
  }

  // ---------- validation ----------

  /** One entry more has been checked. */
  lemma CheckedFresh(stripe: seq<nat>, recs: seq<Rec>, x: Tx, ts: nat, i: nat, pc: Pc)
    requires Fresh(stripe, recs, x) && (x.pc == Validating(ts, i) || x.pc == ValidatingLocked(ts, i)) && i < |x.readLog|
    requires pc == Validating(ts, i + 1) ==> Unwritten(stripe, recs, x.readLog[i].x, x.readLog[i].version, ts)
    requires pc == ValidatingLocked(ts, i) || pc == Validating(ts, i + 1) || pc == RestoreReads(0)
    ensures Fresh(stripe, recs, x.(pc := pc))
  {
    hide NoneAfter, Unwritten;
  }

  lemma ValidatingFresh(s: State, t: nat, ch: Choice)
    requires Inv(s) && Versioned(s) && Enabled(s, t, ch) && s.tx[t].pc.Validating? && !Decides(s, t, ch)
    ensures Formed(s) && Versioned(Step(s, t, ch))
  {
    hide NoneAfter, Unwritten, TiesDisjoint, Shared, Apart;
    InvSized(s);
    NoneUnwritten(s.stripe, s.recs);
    var x := s.tx[t];
    assert Thread(s, t, x) && Fresh(s.stripe, s.recs, x);
    var s' := Step(s, t, ch);
    assert Fresh(s.stripe, s.recs, s'.tx[t]);
    Others(s, t, s');
  }

  /** Skipping an entry the committer has itself read-locked. */
  lemma OwnLockUnwritten(s: State, t: nat, ts: nat, i: nat)
    requires Inv(s) && Versioned(s) && t < |s.tx| && s.tx[t].pc == ValidatingLocked(ts, i) && i < |s.tx[t].readLog|
    requires s.tx[t].readLog[i].x < |s.wl| && s.wl[s.tx[t].readLog[i].x].Held? && s.wl[s.tx[t].readLog[i].x].t == t
    ensures Unwritten(s.stripe, s.recs, s.tx[t].readLog[i].x, s.tx[t].readLog[i].version, ts)
  {
    hide NoneAfter, Unwritten, TiesDisjoint, Apart, History, VersionsFresh;
    var x := s.tx[t];
    assert Thread(s, t, x) && Fresh(s.stripe, s.recs, x);
    var e, k := x.readLog[i], s.wl[x.readLog[i].x].k;
    assert x.writeLog[k].x == e.x && ReadLocked(x, k);
    UnwrittenJoin(s.stripe, s.recs, e.x, e.version, x.validTs, x.writeLog[k].oldVersion, ts);
  }

  lemma ValidatingLockedFresh(s: State, t: nat, ch: Choice)
    requires Inv(s) && Versioned(s) && Enabled(s, t, ch) && s.tx[t].pc.ValidatingLocked?
    ensures Formed(s) && Versioned(Step(s, t, ch))
  {
    hide Fresh, VersionsFresh, TiesDisjoint, NoTies, Inv;
    InvSized(s);
    var x, s' := s.tx[t], Step(s, t, ch);
    assert Fresh(s.stripe, s.recs, x);
    if s'.tx[t].pc.Validating? { OwnLockUnwritten(s, t, x.pc.ts, x.pc.i); }
    CheckedFresh(s.stripe, s.recs, x, x.pc.ts, x.pc.i, s'.tx[t].pc);
    Others(s, t, s');
  }

  // ---------- write-back and roll-back ----------

  lemma WritingFresh(s: State, t: nat, ch: Choice)
    requires Inv(s) && Versioned(s) && Enabled(s, t, ch) && Decided(s.tx[t])
    ensures Formed(s) && Versioned(Step(s, t, ch))
  {
    hide NoneAfter, Unwritten, TiesDisjoint, Inv;
    InvSized(s);
    var x := s.tx[t];
    assert Fresh(s.stripe, s.recs, x);
    var s' := Step(s, t, ch);
    assert Fresh(s.stripe, s.recs, s'.tx[t]);
    if x.pc.WriteBack? && ch.Go? && x.pc.i < |x.writeLog| {
      Turned(s, t, x.writeLog[x.pc.i].x, Ver(x.pc.ts), s');
    } else {
      Others(s, t, s');
    }
  }

  lemma RestoringFresh(s: State, t: nat, ch: Choice)
    requires Inv(s) && Versioned(s) && Enabled(s, t, ch) && s.tx[t].pc.RestoreReads?
    ensures Formed(s) && Versioned(Step(s, t, ch))
  {
    hide NoneAfter, Unwritten, TiesDisjoint, Inv;
    InvSized(s);
    var x := s.tx[t];
    assert Fresh(s.stripe, s.recs, x);
    var s' := Step(s, t, ch);
    assert Fresh(s.stripe, s.recs, s'.tx[t]);
    if x.pc.i < |x.writeLog| {
      Turned(s, t, x.writeLog[x.pc.i].x, Ver(x.writeLog[x.pc.i].oldVersion), s');
    } else {
      Others(s, t, s');
    }
  }

  // ---------- decisions ----------

  lemma NoneAfterSnoc(stripe: seq<nat>, recs: seq<Rec>, r: Rec)
    ensures forall i: nat, v: nat :: NoneAfter(stripe, recs, i, v)
                                     && (r.update && v < r.ts ==> !WritesStripe(stripe, r.ops, i)) ==>
              NoneAfter(stripe, recs + [r], i, v)
    ensures forall i: nat, lo: nat, hi: nat :: Unwritten(stripe, recs, i, lo, hi)
                                               && (r.update && lo < r.ts <= hi ==> !WritesStripe(stripe, r.ops, i)) ==>
              Unwritten(stripe, recs + [r], i, lo, hi)
  {
    hide WritesStripe;
  }

  /** A decided update writes only stripes of its write log. */
  lemma WrittenStripes(s: State, t: nat, i: nat)
    requires Inv(s) && t < |s.tx| && WritesStripe(s.stripe, s.tx[t].ops, i)
    ensures Writes(s.tx[t], i)
  {
    hide Shared, Apart, BufferOf, Legal;
    assert Thread(s, t, s.tx[t]);
  }

  /** What a decided update touched is in its logs. */
  lemma TouchedStripes(s: State, t: nat, i: nat)
    requires Inv(s) && t < |s.tx| && s.tx[t].pc.Validating? && TouchesStripe(s.stripe, s.tx[t].ops, i)
    ensures Writes(s.tx[t], i) || exists j :: 0 <= j < |s.tx[t].readLog| && s.tx[t].readLog[j].x == i
  {
    hide Shared, Apart, BufferOf, Legal;
    assert Thread(s, t, s.tx[t]);
    assert Logged(s.tx[t], i);
  }

  lemma ReadOnlyFresh(s: State, t: nat, ch: Choice)
    requires Inv(s) && Versioned(s) && Enabled(s, t, ch) && EndsReadOnly(s, t, ch)
    ensures Formed(s) && Versioned(Step(s, t, ch))
  {
    hide NoneAfter, Unwritten, WritesStripe, Inv;
    InvSized(s);
    var s' := Step(s, t, ch);
    NoneAfterSnoc(s.stripe, s.recs, s'.recs[|s.recs|]);
    forall u | 0 <= u < |s.tx|
      ensures Fresh(s.stripe, s'.recs, s'.tx[u])
    {
      assert Fresh(s.stripe, s.recs, s.tx[u]);
    }
  }

  /** Nobody else has a read lock of, or a valid read later than, what t is about to write. */
  lemma DecideOther(s: State, t: nat, u: nat, r: Rec)
    requires Inv(s) && t < |s.tx| && u < |s.tx| && u != t && Fresh(s.stripe, s.recs, s.tx[u])
    requires s.tx[t].pc.Validating? && r.ts == s.tx[t].pc.ts && r.ops == s.tx[t].ops
    ensures Fresh(s.stripe, s.recs + [r], s.tx[u])
  {
    hide NoneAfter, Unwritten, WritesStripe, Shared;
    var x, y := s.tx[t], s.tx[u];
    NoneAfterSnoc(s.stripe, s.recs, r);
    assert Thread(s, t, x) && Thread(s, u, y) && Apart(s, y, x);
    forall i: nat | WritesStripe(s.stripe, r.ops, i)
      ensures Writes(x, i)
    {
      WrittenStripes(s, t, i);
    }
  }

  lemma DecideSelf(s: State, t: nat, r: Rec, y: Tx)
    requires Inv(s) && t < |s.tx| && Fresh(s.stripe, s.recs, s.tx[t])
    requires s.tx[t].pc.Validating? && r.ts == s.tx[t].pc.ts && y == s.tx[t].(pc := WriteBack(r.ts, 0, {}))
    ensures Fresh(s.stripe, s.recs + [r], y)
  {
    hide NoneAfter, Unwritten, WritesStripe, Shared, Apart;
    var x := s.tx[t];
    NoneUnwritten(s.stripe, s.recs);
    NoneAfterSnoc(s.stripe, s.recs, r);
    assert Thread(s, t, x);
  }

  lemma DecideVersions(s: State, t: nat, r: Rec)
    requires Inv(s) && VersionsFresh(s.stripe, s.recs, s.rl) && t < |s.tx| && s.tx[t].pc.Validating? && r.ops == s.tx[t].ops
    ensures VersionsFresh(s.stripe, s.recs + [r], s.rl)
  {
    hide NoneAfter, Unwritten, WritesStripe, Shared, Apart;
    NoneAfterSnoc(s.stripe, s.recs, r);
    assert Thread(s, t, s.tx[t]);
    forall i: nat | WritesStripe(s.stripe, r.ops, i)
      ensures Writes(s.tx[t], i)
    {
      WrittenStripes(s, t, i);
    }
  }

  /** A commit that shares its timestamp with an earlier one has nothing in common with it that either wrote. */
  lemma DecideTie(s: State, t: nat, n: nat, i: nat)
    requires Inv(s) && t < |s.tx| && Fresh(s.stripe, s.recs, s.tx[t]) && s.tx[t].pc.Validating?
    requires s.tx[t].pc.i == |s.tx[t].readLog| && n < |s.recs| && s.recs[n].update && s.recs[n].ts == s.tx[t].pc.ts
    ensures !(WritesStripe(s.stripe, s.recs[n].ops, i) && TouchesStripe(s.stripe, s.tx[t].ops, i))
    ensures !(TouchesStripe(s.stripe, s.recs[n].ops, i) && WritesStripe(s.stripe, s.tx[t].ops, i))
  {
    hide Shared, Apart, Legal, BufferOf;
    var x := s.tx[t];
    assert Thread(s, t, x);
    if WritesStripe(s.stripe, x.ops, i) { WrittenStripes(s, t, i); }
    if WritesStripe(s.stripe, s.recs[n].ops, i) && TouchesStripe(s.stripe, x.ops, i) {
      TouchedStripes(s, t, i);
      WrittenTouched(s.stripe, s.recs[n].ops, i);
    }
  }

  lemma WrittenTouched(stripe: seq<nat>, ops: seq<Op>, i: nat)
    requires WritesStripe(stripe, ops, i)
    ensures TouchesStripe(stripe, ops, i)
  {
    var a :| a in BufferOf(ops) && a < |stripe| && stripe[a] == i;
    BufferTouched(ops, a);
  }

  lemma DecideAlone(s: State, t: nat)
    requires Inv(s) && t < |s.tx| && s.tx[t].pc.Validating? && !s.gv4
    ensures forall n :: 0 <= n < |s.recs| && s.recs[n].update ==> s.recs[n].ts != s.tx[t].pc.ts
  {
    hide History, Thread, Apart;
    assert Pending(s.tx[t]);
  }

  lemma DecideFresh(s: State, t: nat, ch: Choice)
    requires Inv(s) && Versioned(s) && Enabled(s, t, ch) && Decides(s, t, ch)
    ensures Formed(s) && Versioned(Step(s, t, ch))
  {
    hide NoneAfter, Unwritten, WritesStripe, TouchesStripe, Inv, Fresh, VersionsFresh;
    InvSized(s);
    var s' := Step(s, t, ch);
    var r := Rec(s.tx[t].pc.ts, true, s.tx[t].ops, s.tx[t].begin);
    assert s'.recs == s.recs + [r];
    DecideVersions(s, t, r);
    forall u | 0 <= u < |s.tx|
      ensures Fresh(s.stripe, s'.recs, s'.tx[u])
    {
      if u == t { DecideSelf(s, t, r, s'.tx[t]); } else { DecideOther(s, t, u, r); }
    }
    if !s.gv4 { DecideAlone(s, t); }
    forall n, i | 0 <= n < |s.recs| && s.recs[n].update && s.recs[n].ts == r.ts
      ensures !(WritesStripe(s.stripe, s.recs[n].ops, i) && TouchesStripe(s.stripe, r.ops, i))
      ensures !(TouchesStripe(s.stripe, s.recs[n].ops, i) && WritesStripe(s.stripe, r.ops, i))
    {
      DecideTie(s, t, n, i);
    }
  }

  // ---------- every step, every run ----------

  lemma VersionedStep(s: State, t: nat, ch: Choice)
    requires Inv(s) && Versioned(s) && Enabled(s, t, ch)
    ensures Formed(s) && Versioned(Step(s, t, ch))
  {
    hide Inv, Versioned, Step, Enabled;
    assert t < |s.tx| by { EnabledThread(s, t, ch); }
    var pc := s.tx[t].pc;
    if EndsReadOnly(s, t, ch) { ReadOnlyFresh(s, t, ch); }
    else if Plain(pc) { CallFresh(s, t, ch); }
    else if pc.Idle? || pc.LockVersion? || pc.Dropping? { EdgeFresh(s, t, ch); }
    else if pc.LockReads? { LockReadsFresh(s, t, ch); }
    else if pc.TakeTs? || pc.TakeTsGV4? { TakeTsFresh(s, t, ch); }
    else if pc.Validating? {
      if Decides(s, t, ch) { DecideFresh(s, t, ch); } else { ValidatingFresh(s, t, ch); }
    }
    else if pc.ValidatingLocked? { ValidatingLockedFresh(s, t, ch); }
    else if pc.RestoreReads? { RestoringFresh(s, t, ch); }
    else { WritingFresh(s, t, ch); }
  }

  lemma {:induction false} VersionedRun(s: State, run: seq<Event>, s': State)
    requires Inv(s) && Versioned(s) && Leads(s, run, s')
    ensures Versioned(s')
    decreases |run|
  {
    hide Inv, Versioned, Step, Enabled;
    if run != [] {
      StepKeeps(s, run[0].t, run[0].ch);
      VersionedStep(s, run[0].t, run[0].ch);
      VersionedRun(Step(s, run[0].t, run[0].ch), run[1..], s');
    }
  }

  lemma ReachableVersioned(m: Memory, s: State)
    requires Reachable(m, s)
    ensures Inv(s) && Versioned(s)
  {
    hide Inv;
    var gv4: bool, stripe, stripes: nat, threads: nat, run :|
      Mapped(stripe, stripes, m) && Leads(Init(gv4, stripe, stripes, threads, m), run, s);
    InitInv(gv4, stripe, stripes, threads, m);
    ReachableInv(m, s);
    VersionedRun(Init(gv4, stripe, stripes, threads, m), run, s);
  }

  // ---------- the theorems ----------

  /** Commit-time validation is sound although it skips entries: whether an entry was compared, found
      under an own read lock, or not looked at because the commit timestamp follows valid_ts at once,
      no transaction with a timestamp up to the commit timestamp has written it since it was read. */
  lemma ValidationSound(m: Memory, s: State, t: nat, j: nat)
    requires Reachable(m, s) && t < |s.tx| && s.tx[t].pc.Validating? && j < s.tx[t].pc.i && j < |s.tx[t].readLog|
    ensures Unwritten(s.stripe, s.recs, s.tx[t].readLog[j].x, s.tx[t].readLog[j].version, s.tx[t].pc.ts)
  {
    hide Reachable, Inv, Unwritten, NoneAfter;
    ReachableVersioned(m, s);
    assert Fresh(s.stripe, s.recs, s.tx[t]);
  }

  /** Two commits share a timestamp only if neither read or wrote what the other wrote, and never
      with the incrementing clock. */
  lemma TimestampsShared(m: Memory, s: State, n: nat, p: nat, i: nat)
    requires Reachable(m, s) && n < |s.recs| && p < |s.recs| && n != p
    requires s.recs[n].update && s.recs[p].update && s.recs[n].ts == s.recs[p].ts
    ensures s.gv4 && !(WritesStripe(s.stripe, s.recs[n].ops, i) && TouchesStripe(s.stripe, s.recs[p].ops, i))
  {
    hide Reachable, Inv, WritesStripe, TouchesStripe;
    ReachableVersioned(m, s);
  }

  /** Every write-lock pointer and every unreleased write-log entry belong to each other. */
  lemma LockOwnership(m: Memory, s: State, i: nat, t: nat, k: nat)
    requires Reachable(m, s) && i < |s.wl|
    ensures |s.rl| == |s.wl|
    ensures s.wl[i] == Held(t, k) <==>
            t < |s.tx| && k < |s.tx[t].writeLog| && s.tx[t].writeLog[k].x == i && Holds(s.tx[t], k)
    ensures s.wl[i] == Held(t, k) ==> t < |s.tx| && !s.tx[t].pc.Idle? && (s.rl[i].Set? <==> ReadLocked(s.tx[t], k))
    ensures s.wl[i].Clear? ==> s.rl[i].Ver?
  {
    hide Reachable, Apart, History, Legal, BufferOf, Holds, ReadLocked;
    ReachableInv(m, s);
    if t < |s.tx| {
      assert Thread(s, t, s.tx[t]);
    }
  }

  /** The version of a stripe, as left by the last commit that released it. */
  function Version(s: State, i: nat): nat
    requires i < |s.rl| && i < |s.wl|
  {
    match s.rl[i]
    case Ver(v) => v
    case Set =>
      if s.wl[i].Held? && s.wl[i].t < |s.tx| && s.wl[i].k < |s.tx[s.wl[i].t].writeLog|
      then s.tx[s.wl[i].t].writeLog[s.wl[i].k].oldVersion else 0
  }

  /** A step of t took no lock away and wrote nothing. */
  ghost predicate Harmless(s: State, t: nat, s': State)
    requires t < |s.tx|
  {
    && Quiet(s, t, s') && s'.mem == s.mem && |s'.wl| == |s.wl|
    && (forall i :: 0 <= i < |s.wl| && s.wl[i].Held? ==> s'.wl[i] == s.wl[i])
  }

  lemma LocksHarmless(s: State, t: nat, ch: Choice)
    requires Formed(s) && Enabled(s, t, ch) && InConflict(s.tx[t].pc)
    ensures Harmless(s, t, Step(s, t, ch))
  {
    hide Quiet;
    ConflictSilent(s, t, ch);
  }

  lemma UserHarmless(s: State, t: nat, ch: Choice)
    requires Formed(s) && Enabled(s, t, ch) && s.tx[t].pc.Running? && !EndsReadOnly(s, t, ch)
    ensures Harmless(s, t, Step(s, t, ch))
  {
    hide Quiet;
    UserSilent(s, t, ch);
  }

  lemma CallHarmless(s: State, t: nat, ch: Choice)
    requires Formed(s) && Enabled(s, t, ch) && Plain(s.tx[t].pc) && !InConflict(s.tx[t].pc) && !s.tx[t].pc.Running?
    ensures Harmless(s, t, Step(s, t, ch))
  {
  }

  /** The stripes whose read lock is set belong to somebody else. */
  lemma HarmlessVersion(s: State, t: nat, s': State, i: nat)
    requires Inv(s) && t < |s.tx| && Harmless(s, t, s') && i < |s.rl| && i < |s.wl|
    requires forall k: nat :: !ReadLocked(s.tx[t], k)
    ensures i < |s'.rl| && i < |s'.wl| && Version(s', i) == Version(s, i)
  {
    hide Thread, Apart, History;
  }

  /** The parts of a commit that change no read lock. */
  lemma CommitHarmless(s: State, t: nat, ch: Choice)
    requires Formed(s) && Enabled(s, t, ch)
    requires s.tx[t].pc.Idle? || s.tx[t].pc.TakeTs? || s.tx[t].pc.TakeTsGV4? || s.tx[t].pc.ValidatingLocked?
             || (s.tx[t].pc.Validating? && !Decides(s, t, ch))
    ensures Harmless(s, t, Step(s, t, ch)) && Step(s, t, ch).tx[t].writeLog == s.tx[t].writeLog
  {
  }

  /** Stripe i is as it was, and its owner, if it has one, remembers the same version. */
  lemma SameVersion(s: State, s': State, i: nat)
    requires i < |s.rl| && i < |s.wl| && i < |s'.rl| && i < |s'.wl| && s'.rl[i] == s.rl[i]
    requires s.rl[i].Set? && s.wl[i].Held? ==>
               && s'.wl[i] == s.wl[i] && s.wl[i].t < |s.tx| && s.wl[i].t < |s'.tx|
               && s'.tx[s.wl[i].t].writeLog == s.tx[s.wl[i].t].writeLog
    requires s.rl[i].Set? ==> s.wl[i].Held?
    ensures Version(s', i) == Version(s, i)
  {
  }

  lemma CommitVersion(s: State, t: nat, ch: Choice, i: nat)
    requires Inv(s) && Enabled(s, t, ch) && i < |s.rl|
    requires s.tx[t].pc.Idle? || s.tx[t].pc.TakeTs? || s.tx[t].pc.TakeTsGV4? || s.tx[t].pc.ValidatingLocked?
             || s.tx[t].pc.Validating? || s.tx[t].pc.LockVersion? || s.tx[t].pc.Dropping? || EndsReadOnly(s, t, ch)
    ensures Formed(s) && i < |Step(s, t, ch).rl| && i < |Step(s, t, ch).wl| && Version(Step(s, t, ch), i) == Version(s, i)
    ensures Step(s, t, ch).mem == s.mem
  {
    hide Inv, Version;
    InvSized(s);
    SetOwned(s, t, i);
    var s' := Step(s, t, ch);
    if s.tx[t].pc.Dropping? || s.tx[t].pc.LockVersion? || EndsReadOnly(s, t, ch) || Decides(s, t, ch) {
      SameVersion(s, s', i);
    } else {
      hide Step;
      CommitHarmless(s, t, ch);
      SameVersion(s, s', i);
    }
  }

  lemma SetOwned(s: State, t: nat, i: nat)
    requires Inv(s) && t < |s.tx| && i < |s.rl|
    ensures i < |s.wl| && (s.rl[i].Set? ==> s.wl[i].Held? && s.wl[i].t < |s.tx|)
    ensures s.rl[i].Set? && s.wl[i].t == t ==> ReadLocked(s.tx[t], s.wl[i].k) && s.wl[i].k < |s.tx[t].writeLog|
    ensures s.rl[i].Set? && s.wl[i].t != t ==>
              forall k :: 0 <= k < |s.tx[t].writeLog| && Holds(s.tx[t], k) ==> s.tx[t].writeLog[k].x != i
  {
    hide Apart, History;
    assert Thread(s, t, s.tx[t]);
  }

  /** Read locks set, or given back, by a transaction that is not decided hide and restore the same version. */
  lemma LockingVersion(s: State, t: nat, ch: Choice, i: nat)
    requires Inv(s) && Enabled(s, t, ch) && i < |s.rl| && (s.tx[t].pc.LockReads? || s.tx[t].pc.RestoreReads?)
    ensures Formed(s) && i < |Step(s, t, ch).rl| && i < |Step(s, t, ch).wl| && Version(Step(s, t, ch), i) == Version(s, i)
    ensures Step(s, t, ch).mem == s.mem
  {
    hide Inv, Shared, Legal, BufferOf, Snapshot, ReadsConstant, LockedCurrent, WritingBack, Stamps;
    InvSized(s);
    SetOwned(s, t, i);
    Mine(s, t);
    var s' := Step(s, t, ch);
    if s'.rl[i] == s.rl[i] {
      SameVersion(s, s', i);
    }
  }

  /** Until it is decided a transaction leaves no trace: memory and all versions stay as they are.
      So does one that is rolled back, from its start to its end. */
  lemma UndecidedLeavesNoTrace(m: Memory, s: State, t: nat, ch: Choice, i: nat)
    requires Reachable(m, s) && Enabled(s, t, ch) && !Decided(s.tx[t]) && i < |s.rl|
    ensures Formed(s) && i < |s.wl| && Step(s, t, ch).mem == s.mem
    ensures i < |Step(s, t, ch).rl| && i < |Step(s, t, ch).wl| && Version(Step(s, t, ch), i) == Version(s, i)
  {
    hide Reachable, Inv, Step, Enabled, Version, Harmless;
    ReachableInv(m, s);
    InvSized(s);
    assert t < |s.tx| by { EnabledThread(s, t, ch); }
    var pc := s.tx[t].pc;
    if Plain(pc) && !EndsReadOnly(s, t, ch) {
      if InConflict(pc) { LocksHarmless(s, t, ch); }
      else if pc.Running? { UserHarmless(s, t, ch); }
      else { CallHarmless(s, t, ch); }
      HarmlessVersion(s, t, Step(s, t, ch), i);
      HarmlessMemory(s, t, Step(s, t, ch));
    } else if pc.LockReads? || pc.RestoreReads? {
      LockingVersion(s, t, ch, i);
    } else {
      CommitVersion(s, t, ch, i);
    }
  }

  lemma HarmlessMemory(s: State, t: nat, s': State)
    requires t < |s.tx| && Harmless(s, t, s')
    ensures s'.mem == s.mem
  {
  }

  /** Versions never go back, and a commit that publishes a stripe moves its version to the commit timestamp. */
  lemma VersionsAdvance(m: Memory, s: State, t: nat, ch: Choice, i: nat)
    requires Reachable(m, s) && Enabled(s, t, ch) && i < |s.rl|
    ensures Formed(s) && i < |s.wl| && i < |Step(s, t, ch).rl| && i < |Step(s, t, ch).wl|
    ensures Version(s, i) <= Version(Step(s, t, ch), i)
    ensures Version(s, i) < Version(Step(s, t, ch), i) ==> Decided(s.tx[t]) && Version(Step(s, t, ch), i) == DecidedTs(s.tx[t])
  {
    hide Reachable, Inv, Step;
    ReachableVersioned(m, s);
    InvSized(s);
    if Decided(s.tx[t]) { DecidedVersion(s, t, ch, i); } else { UndecidedLeavesNoTrace(m, s, t, ch, i); }
  }

  lemma DecidedVersion(s: State, t: nat, ch: Choice, i: nat)
    requires Inv(s) && Versioned(s) && Enabled(s, t, ch) && i < |s.rl| && Decided(s.tx[t])
    ensures Formed(s) && i < |s.wl| && i < |Step(s, t, ch).rl| && i < |Step(s, t, ch).wl|
    ensures Version(s, i) == Version(Step(s, t, ch), i)
            || (Version(s, i) < Version(Step(s, t, ch), i) && Version(Step(s, t, ch), i) == DecidedTs(s.tx[t]))
  {
    hide Inv, Shared, NoneAfter, Unwritten, Legal, BufferOf, Snapshot, ReadsConstant, LockedCurrent, WritingBack, Stamps;
    InvSized(s);
    SetOwned(s, t, i);
    Mine(s, t);
    assert Fresh(s.stripe, s.recs, s.tx[t]);
    var s' := Step(s, t, ch);
    if s'.rl[i] == s.rl[i] {
      SameVersion(s, s', i);
    }
  }

  /** Between transactions a thread holds no lock. */
  lemma IdleHoldsNothing(m: Memory, s: State, t: nat, i: nat)
    requires Reachable(m, s) && t < |s.tx| && s.tx[t].pc.Idle? && i < |s.wl|
    ensures !(s.wl[i].Held? && s.wl[i].t == t)
  {
    hide Reachable, Apart, History, Thread;
    ReachableInv(m, s);
    IdleEmpty(s, t);
  }
}
