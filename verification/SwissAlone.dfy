/** What every call comes to when its thread runs alone: the exact state it returns in. */
module SwissAlone {
  import opened Words
  import opened SwissState
  import opened SwissInvariant
  import opened SwissLocal
  import opened SwissRuns
  import opened SwissProgress
  import SwissCalls

  // ---------- running alone ----------

  /** Thread t, and nobody else, moves from s until its call returns, in state s'. */
  ghost predicate Alone(s: State, t: nat, run: seq<Choice>, s': State)
    decreases |run|
  {
    && Formed(s) && t < |s.tx|
    && if Returned(s.tx[t]) then run == [] && s' == s
       else run != [] && Enabled(s, t, run[0]) && Alone(Step(s, t, run[0]), t, run[1..], s')
  }

  /** Alone, thread t finishes its call, and whichever word it writes back next, the state is then r. */
  ghost predicate Ends(s: State, t: nat, r: State)
  {
    (exists run :: Alone(s, t, run, r)) && forall run, s' :: Alone(s, t, run, s') ==> s' == r
  }

  // ---------- the rest of a call ----------

  /** The write lock of stripe y points to entry k >= from of thread t's write log. */
  predicate OwnsFrom(wl: seq<WriteLock>, t: nat, y: nat, from: nat)
  {
    y < |wl| && wl[y].Held? && wl[y].t == t && from <= wl[y].k
  }

  predicate Owns(wl: seq<WriteLock>, t: nat, y: nat)
  {
    OwnsFrom(wl, t, y, 0)
  }

  /** No write lock of thread t is left. */
  function Freed(wl: seq<WriteLock>, t: nat): (r: seq<WriteLock>)
    ensures |r| == |wl|
  {
    seq(|wl|, y requires 0 <= y < |wl| => if Owns(wl, t, y) then Clear else wl[y])
  }

  /** The transaction is gone: its locks are clear and its logs empty. */
  function Rolled(s: State, t: nat): State
    requires t < |s.tx|
  {
    Put(s, t, Clean(s.tx[t])).(wl := Freed(s.wl, t))
  }

  /** The word is buffered and the stripe counted; with the threshold passed, a greedy timestamp is drawn. */
  function Accessed(s: State, t: nat, x: Tx, w: Request): State
    requires t < |s.tx| && t < |s.cm|
  {
    var c := s.cm[t];
    var s1 := Put(s, t, Buffered(x, w).(pc := Running));
    if c.greedyPhase then s1
    else if c.accessed + 1 > CM_ACCESS_THRESHOLD then
      s1.(cmTs := s.cmTs + 1, cm := s.cm[t := c.(accessed := c.accessed + 1, greedyPhase := true, greedyTs := s.cmTs + 1)])
    else s1.(cm := s.cm[t := c.(accessed := c.accessed + 1)])
  }

  function Continued(s: State, t: nat, x: Tx, k: Cont): State
    requires t < |s.tx| && t < |s.cm|
  {
    match k
    case RetRead(a, val) => Put(s, t, Return(x, a, val))
    case RetWrite(w) => Accessed(s, t, x, w)
  }

  /** All entries of a read log, from one on, carry the version that was read. */
  ghost predicate Unchanged(rl: seq<ReadLock>, log: seq<ReadEntry>, from: nat)
  {
    forall j :: from <= j < |log| ==> log[j].x < |rl| && rl[log[j].x] == Ver(log[j].version)
  }

  ghost function Extended(s: State, t: nat, k: Cont, c: nat, from: nat): State
    requires t < |s.tx| && t < |s.cm|
  {
    if Unchanged(s.rl, s.tx[t].readLog, from) then Continued(s, t, s.tx[t].(validTs := c), k) else Rolled(s, t)
  }

  ghost function Loaded(s: State, t: nat, a: nat): State
    requires Sized(s) && t < |s.tx| && a < |s.mem|
  {
    var x := s.tx[t];
    var v := VersionOf(s.rl[s.stripe[a]]);
    var y := x.(pc := Running, readLog := x.readLog + [ReadEntry(s.stripe[a], v)]);
    if v > x.validTs then Extended(Put(s, t, y), t, RetRead(a, s.mem[a]), s.clock, 0) else Put(s, t, Return(y, a, s.mem[a]))
  }

  /** The last write-log entry is for a stripe just locked. */
  ghost function Versioned(s: State, t: nat, w: Request): State
    requires Sized(s) && t < |s.tx| && TxOk(s, s.tx[t]) && s.tx[t].writeLog != []
  {
    var x := s.tx[t];
    var n := |x.writeLog| - 1;
    var v := VersionOf(s.rl[x.writeLog[n].x]);
    var y := x.(pc := Running, writeLog := x.writeLog[n := x.writeLog[n].(oldVersion := v)]);
    if v > x.validTs then Extended(Put(s, t, y), t, RetWrite(w), s.clock, 0) else Accessed(s, t, y, w)
  }

  /** The lock is taken if it is clear; whoever finds it taken, and need not wait, gives up. */
  ghost function Acquired(s: State, t: nat, w: Request): State
    requires Sized(s) && t < |s.tx| && w.a < |s.mem|
  {
    var x := s.tx[t];
    var i := s.stripe[w.a];
    if s.wl[i].Held? then Rolled(s, t)
    else
      var v := VersionOf(s.rl[i]);
      var y := x.(pc := Running, writeLog := x.writeLog + [WriteEntry(i, v)]);
      var s1 := Put(s, t, y).(wl := s.wl[i := Held(t, |x.writeLog|)]);
      if v > x.validTs then Extended(s1, t, RetWrite(w), s.clock, 0) else Accessed(s1, t, y, w)
  }

  function Flagged(s: State, o: nat): State
    requires o < |s.cm|
  {
    s.(cm := s.cm[o := s.cm[o].(abortedExternally := true)])
  }

  ghost function Ranked(s: State, t: nat, w: Request, o: nat): State
    requires Sized(s) && t < |s.tx| && w.a < |s.mem| && o < |s.tx|
  {
    if Stronger(s.cm[t].greedyTs, s.cm[o].greedyTs) then Acquired(Flagged(s, o), t, w) else Rolled(s, t)
  }

  ghost function Faced(s: State, t: nat, w: Request): State
    requires Sized(s) && t < |s.tx| && w.a < |s.mem|
  {
    match s.wl[s.stripe[w.a]]
    case Clear => Acquired(s, t, w)
    case Held(o, _) => Ranked(s, t, w, o)
  }

  // the rest of a commit

  /** Read locks: those of the stripes of thread t's entries from i on are l. */
  function Locked(rl: seq<ReadLock>, wl: seq<WriteLock>, t: nat, i: nat, l: ReadLock): (r: seq<ReadLock>)
    ensures |r| == |rl|
    ensures forall y :: 0 <= y < |r| ==> r[y] == if OwnsFrom(wl, t, y, i) then l else rl[y]
  {
    seq(|rl|, y requires 0 <= y < |rl| => if OwnsFrom(wl, t, y, i) then l else rl[y])
  }

  /** The recorded versions are back, from entry i on. */
  function Restored(rl: seq<ReadLock>, wl: seq<WriteLock>, t: nat, W: seq<WriteEntry>, i: nat): (r: seq<ReadLock>)
    ensures |r| == |rl|
    ensures forall y :: 0 <= y < |r| ==>
      r[y] == if OwnsFrom(wl, t, y, i) && wl[y].k < |W| then Ver(W[wl[y].k].oldVersion) else rl[y]
  {
    seq(|rl|, y requires 0 <= y < |rl| =>
      if OwnsFrom(wl, t, y, i) && wl[y].k < |W| then Ver(W[wl[y].k].oldVersion) else rl[y])
  }

  predicate ToWrite(stripe: seq<nat>, wl: seq<WriteLock>, t: nat, b: Buffer, i: nat, done: set<nat>, a: nat)
  {
    a in b && a !in done && a < |stripe| && OwnsFrom(wl, t, stripe[a], i)
  }

  /** The buffered words of the stripes of entries from i on are in memory. */
  function Flushed(m: Memory, stripe: seq<nat>, wl: seq<WriteLock>, t: nat, b: Buffer, i: nat, done: set<nat>): (r: Memory)
    ensures |r| == |m|
    ensures forall a :: 0 <= a < |r| ==> r[a] == if ToWrite(stripe, wl, t, b, i, done, a) then Through(b, a, m[a]) else m[a]
  {
    seq(|m|, a requires 0 <= a < |m| => if ToWrite(stripe, wl, t, b, i, done, a) then Through(b, a, m[a]) else m[a])
  }

  /** The rest of a write-back. */
  function Written(s: State, t: nat, ts: nat, i: nat, done: set<nat>): State
    requires t < |s.tx|
  {
    Rolled(s, t).(mem := Flushed(s.mem, s.stripe, s.wl, t, s.tx[t].buffer, i, done), rl := Locked(s.rl, s.wl, t, i, Ver(ts)))
  }

  /** The rest of a roll-back from a commit. */
  function Backed(s: State, t: nat, i: nat): State
    requires t < |s.tx|
  {
    Rolled(s, t).(rl := Restored(s.rl, s.wl, t, s.tx[t].writeLog, i))
  }

  ghost predicate Passes(s: State, t: nat, from: nat)
    requires t < |s.tx|
  {
    forall j :: from <= j < |s.tx[t].readLog| ==>
      var e := s.tx[t].readLog[j];
      e.x < |s.rl| && (s.rl[e.x] == Ver(e.version) || (s.rl[e.x].Set? && Owns(s.wl, t, e.x)))
  }

  function DecidedAt(s: State, t: nat, ts: nat): State
    requires t < |s.tx|
  {
    var x := s.tx[t];
    s.(hist := Publish(s.hist, ts, x.buffer), recs := s.recs + [Rec(ts, true, x.ops, x.begin)])
  }

  ghost function Validated(s: State, t: nat, ts: nat, from: nat): State
    requires t < |s.tx|
  {
    if Passes(s, t, from) then Written(DecidedAt(s, t, ts), t, ts, 0, {}) else Backed(s, t, 0)
  }

  ghost function Stamped(s: State, t: nat): State
    requires t < |s.tx| && s.hist != []
  {
    var x := s.tx[t];
    Validated(Tick(s), t, s.clock + 1, if !s.gv4 && s.clock == x.validTs then |x.readLog| else 0)
  }

  /** The state in which thread t, alone, returns from the call it is in. */
  ghost function Result(s: State, t: nat): State
    requires Formed(s) && t < |s.tx|
  {
    var x := s.tx[t];
    assert TxOk(s, x);
    match x.pc
    case Idle => s
    case Running => s
    case StartGreedy => Goto(s, t, Running).(cm := s.cm[t := Cm(MINIMUM_TS, false, 0, false)])
    case StartFlag => Goto(s, t, Running).(cm := s.cm[t := s.cm[t].(abortedExternally := false)])
    case ReadOwn(a) => Put(s, t, Return(x, a, Through(x.buffer, a, s.mem[a])))
    case ReadVersion(a) => Loaded(s, t, a)
    case ReadValue(a, _) => Loaded(s, t, a)
    case ReadAgain(a, _, _) => Loaded(s, t, a)
    case Conflict(w) => if GivesUp(s.cm[t]) then Rolled(s, t) else Faced(s, t, w)
    case ConflictOwner(w) => Faced(s, t, w)
    case ConflictRank(w, o) => Ranked(s, t, w, o)
    case ConflictFlag(w, o) => Acquired(Flagged(s, o), t, w)
    case ConflictReload(w) => Acquired(s, t, w)
    case TryLock(w) => Acquired(s, t, w)
    case LockFailed(w) => Acquired(s, t, w)
    case LockVersion(w) => Versioned(s, t, w)
    case CmTicket =>
      Goto(s, t, Running).(cmTs := s.cmTs + 1, cm := s.cm[t := s.cm[t].(greedyPhase := true, greedyTs := s.cmTs + 1)])
    case CmStore(g) => Goto(s, t, Running).(cm := s.cm[t := s.cm[t].(greedyTs := g)])
    case ExtendClock(k) => Extended(s, t, k, s.clock, 0)
    case Extending(k, c, i) => Extended(s, t, k, c, i)
    case LockReads(_) => Stamped(s.(rl := Locked(s.rl, s.wl, t, 0, Set)), t)
    case TakeTs => Stamped(s, t)
    case TakeTsGV4(seen) => if s.clock == seen then Validated(Tick(s), t, s.clock + 1, 0) else Validated(s, t, s.clock, 0)
    case Validating(ts, i) => Validated(s, t, ts, i)
    case ValidatingLocked(ts, i) =>
      if Owns(s.wl, t, x.readLog[i].x) then Validated(s, t, ts, i + 1) else Backed(s, t, 0)
    case WriteBack(ts, i, done) => Written(s, t, ts, i, done)
    case ReleaseWrite(ts, i, done) => Written(s, t, ts, i + 1, done)
    case RestoreReads(i) => Backed(s, t, i)
    case Dropping(_) => Rolled(s, t)
  }

  // ---------- no step of the thread changes what its call comes to ----------

  /** The locks of t and its unreleased write-log entries point to each other. */
  ghost predicate Linked(s: State, t: nat)
    requires t < |s.tx|
  {
    var x := s.tx[t];
    && |s.rl| == |s.wl|
    && (forall k :: 0 <= k < |x.writeLog| && Holds(x, k) ==>
          x.writeLog[k].x < |s.wl| && s.wl[x.writeLog[k].x] == Held(t, k))
    && (forall y :: 0 <= y < |s.wl| && s.wl[y].Held? && s.wl[y].t == t ==>
          s.wl[y].k < |x.writeLog| && x.writeLog[s.wl[y].k].x == y && Holds(x, s.wl[y].k))
  }

  lemma LinkedHere(s: State, t: nat)
    requires Inv(s) && t < |s.tx|
    ensures Linked(s, t)
  {
    hide Apart, History;
    assert Thread(s, t, s.tx[t]);
  }

  /** Step and Result agree, or the step returns the result. */
  ghost predicate SameResult(s: State, t: nat, s': State)
    requires Formed(s) && t < |s.tx|
  {
    && Formed(s') && t < |s'.tx|
    && Result(s', t) == Result(s, t)
  }

  lemma StartSame(s: State, t: nat, ch: Choice)
    requires Formed(s) && Enabled(s, t, ch) && Formed(Step(s, t, ch))
    requires s.tx[t].pc.StartGreedy? || s.tx[t].pc.StartFlag?
    ensures SameResult(s, t, Step(s, t, ch))
  {
    hide TxOk;
  }

  // where the thread is does not matter to the rest of its call

  lemma RolledAny(s: State, t: nat, pc: Pc)
    requires t < |s.tx|
    ensures Rolled(Goto(s, t, pc), t) == Rolled(s, t)
  {
  }

  lemma ContinuedAny(s: State, t: nat, x: Tx, pc: Pc, k: Cont)
    requires t < |s.tx| && t < |s.cm|
    ensures Continued(Goto(s, t, pc), t, x, k) == Continued(s, t, x, k)
    ensures Continued(s, t, x.(pc := pc), k) == Continued(s, t, x, k)
  {
    hide Insert;
  }

  lemma ExtendedAny(s: State, t: nat, pc: Pc, k: Cont, c: nat, i: nat)
    requires t < |s.tx| && t < |s.cm|
    ensures Extended(Goto(s, t, pc), t, k, c, i) == Extended(s, t, k, c, i)
  {
    hide Continued, Rolled;
    RolledAny(s, t, pc);
    var x := s.tx[t].(validTs := c);
    ContinuedAny(s, t, x.(pc := pc), pc, k);
    ContinuedAny(s, t, x, pc, k);
  }

  lemma LoadedAny(s: State, t: nat, pc: Pc, a: nat)
    requires Sized(s) && t < |s.tx| && a < |s.mem|
    ensures Loaded(Goto(s, t, pc), t, a) == Loaded(s, t, a)
  {
    hide Extended;
    var x := s.tx[t];
    var y := x.(pc := Running, readLog := x.readLog + [ReadEntry(s.stripe[a], VersionOf(s.rl[s.stripe[a]]))]);
    assert Put(Goto(s, t, pc), t, y) == Put(s, t, y);
  }

  lemma AcquiredAny(s: State, t: nat, pc: Pc, w: Request)
    requires Sized(s) && t < |s.tx| && w.a < |s.mem|
    ensures Acquired(Goto(s, t, pc), t, w) == Acquired(s, t, w)
  {
    hide Extended, Accessed, Rolled;
    RolledAny(s, t, pc);
    var x := s.tx[t];
    var i := s.stripe[w.a];
    var v := VersionOf(s.rl[i]);
    var y := x.(pc := Running, writeLog := x.writeLog + [WriteEntry(i, v)]);
    assert Put(Goto(s, t, pc), t, y) == Put(s, t, y);
  }
  lemma RankedAny(s: State, t: nat, pc: Pc, w: Request, o: nat)
    requires Sized(s) && t < |s.tx| && w.a < |s.mem| && o < |s.tx|
    ensures Acquired(Flagged(Goto(s, t, pc), o), t, w) == Acquired(Flagged(s, o), t, w)
    ensures Ranked(Goto(s, t, pc), t, w, o) == Ranked(s, t, w, o)
  {
    hide Acquired, Rolled;
    RolledAny(s, t, pc);
    assert Flagged(Goto(s, t, pc), o) == Goto(Flagged(s, o), t, pc);
    AcquiredAny(Flagged(s, o), t, pc, w);
  }

  lemma FacedAny(s: State, t: nat, pc: Pc, w: Request)
    requires Formed(s) && t < |s.tx| && w.a < |s.mem|
    ensures Faced(Goto(s, t, pc), t, w) == Faced(s, t, w)
  {
    hide Acquired, Ranked;
    AcquiredAny(s, t, pc, w);
    var l := s.wl[s.stripe[w.a]];
    if l.Held? { RankedAny(s, t, pc, w, l.t); }
  }

  lemma OwnSame(s: State, t: nat, ch: Choice)
    requires Formed(s) && Enabled(s, t, ch) && Formed(Step(s, t, ch)) && s.tx[t].pc.ReadOwn?
    ensures SameResult(s, t, Step(s, t, ch))
  {
    hide Through, TxOk;
  }

  lemma VersionSame(s: State, t: nat, ch: Choice)
    requires Formed(s) && Enabled(s, t, ch) && Formed(Step(s, t, ch))
    requires s.tx[t].pc.ReadVersion? || s.tx[t].pc.ReadValue?
    requires s.rl[s.stripe[s.tx[t].pc.a]].Ver?
    ensures SameResult(s, t, Step(s, t, ch))
  {
    hide Loaded;
    LoadedAny(s, t, Step(s, t, ch).tx[t].pc, s.tx[t].pc.a);
  }

  lemma AgainSame(s: State, t: nat, ch: Choice)
    requires Formed(s) && Enabled(s, t, ch) && Formed(Step(s, t, ch)) && s.tx[t].pc.ReadAgain?
    requires s.rl[s.stripe[s.tx[t].pc.a]].Ver?
    requires s.rl[s.stripe[s.tx[t].pc.a]] == Ver(s.tx[t].pc.v) ==> s.tx[t].pc.val == s.mem[s.tx[t].pc.a]
    ensures SameResult(s, t, Step(s, t, ch))
  {
    var pc, x := s.tx[t].pc, s.tx[t];
    var s' := Step(s, t, ch);
    if s.rl[s.stripe[pc.a]] != Ver(pc.v) {
      hide Loaded;
      LoadedAny(s, t, s'.tx[t].pc, pc.a);
    } else if pc.v > x.validTs {
      hide Extended;
      var y := x.(pc := Running, readLog := x.readLog + [ReadEntry(s.stripe[pc.a], pc.v)]);
      assert s' == Goto(Put(s, t, y), t, s'.tx[t].pc);
      ExtendedAny(Put(s, t, y), t, s'.tx[t].pc, RetRead(pc.a, pc.val), s.clock, 0);
    }
  }

  lemma ConflictSame(s: State, t: nat, ch: Choice)
    requires Formed(s) && Enabled(s, t, ch) && Formed(Step(s, t, ch))
    requires s.tx[t].pc.Conflict? || s.tx[t].pc.ConflictOwner?
    ensures SameResult(s, t, Step(s, t, ch))
  {
    hide Acquired, Ranked, Rolled;
    var w, pc := s.tx[t].pc.w, Step(s, t, ch).tx[t].pc;
    RolledAny(s, t, pc);
    FacedAny(s, t, pc, w);
    AcquiredAny(s, t, pc, w);
    if s.wl[s.stripe[w.a]].Held? { RankedAny(s, t, pc, w, s.wl[s.stripe[w.a]].t); }
  }

  lemma RankSame(s: State, t: nat, ch: Choice)
    requires Formed(s) && Enabled(s, t, ch) && Formed(Step(s, t, ch))
    requires s.tx[t].pc.ConflictRank? || s.tx[t].pc.ConflictFlag? || s.tx[t].pc.ConflictReload?
    ensures SameResult(s, t, Step(s, t, ch))
  {
    hide Acquired, Rolled;
    var w, pc := s.tx[t].pc.w, Step(s, t, ch).tx[t].pc;
    RolledAny(s, t, pc);
    AcquiredAny(s, t, pc, w);
    if !s.tx[t].pc.ConflictReload? {
      var o := s.tx[t].pc.o;
      RankedAny(s, t, pc, w, o);
      assert s.tx[t].pc.ConflictFlag? ==> Step(s, t, ch) == Goto(Flagged(s, o), t, pc);
      AcquiredAny(Flagged(s, o), t, pc, w);
    }
  }

  lemma FailedSame(s: State, t: nat, ch: Choice)
    requires Formed(s) && Enabled(s, t, ch) && Formed(Step(s, t, ch)) && Unhindered(s, t)
    requires s.tx[t].pc.LockFailed? || (s.tx[t].pc.TryLock? && s.wl[s.stripe[s.tx[t].pc.w.a]].Held?)
    ensures SameResult(s, t, Step(s, t, ch))
  {
    hide Extended, Accessed, Rolled;
    var w, pc := s.tx[t].pc.w, Step(s, t, ch).tx[t].pc;
    RolledAny(s, t, pc);
    AcquiredAny(s, t, pc, w);
    if pc.Conflict? { FacedAny(s, t, pc, w); }
  }

  lemma LockedSame(s: State, t: nat, ch: Choice)
    requires Formed(s) && Enabled(s, t, ch) && Formed(Step(s, t, ch))
    requires s.tx[t].pc.TryLock? && s.wl[s.stripe[s.tx[t].pc.w.a]].Clear?
    ensures SameResult(s, t, Step(s, t, ch))
  {
    hide Extended, Accessed;
    AcquiredIs(s, t, s.tx[t].pc.w);
  }

  lemma AcquiredIs(s: State, t: nat, w: Request)
    requires Formed(s) && t < |s.tx| && w.a < |s.mem| && s.wl[s.stripe[w.a]].Clear?
    requires s.tx[t].pc == TryLock(w) && Formed(StepTryLock(s, t, w))
    ensures TxOk(StepTryLock(s, t, w), StepTryLock(s, t, w).tx[t])
    ensures Acquired(s, t, w) == Versioned(StepTryLock(s, t, w), t, w)
  {
    hide Extended, Accessed;
    var x := s.tx[t];
    var i := s.stripe[w.a];
    var s1 := StepTryLock(s, t, w);
    var n := |x.writeLog|;
    var v := VersionOf(s.rl[i]);
    var y := x.(pc := Running, writeLog := x.writeLog + [WriteEntry(i, v)]);
    assert (x.writeLog + [WriteEntry(i, 0)])[n := WriteEntry(i, v)] == x.writeLog + [WriteEntry(i, v)];
    assert Put(s1, t, y) == Put(s, t, y).(wl := s.wl[i := Held(t, n)]);
    AccessedPut(s1, t, y, w);
  }

  lemma AccessedPut(s: State, t: nat, y: Tx, w: Request)
    requires t < |s.tx| && t < |s.cm|
    ensures Accessed(Put(s, t, y), t, y, w) == Accessed(s, t, y, w)
  {
    hide Buffered;
  }

  lemma VersionedSame(s: State, t: nat, ch: Choice)
    requires Formed(s) && Enabled(s, t, ch) && Formed(Step(s, t, ch)) && s.tx[t].pc.LockVersion?
    ensures SameResult(s, t, Step(s, t, ch))
  {
    var x := s.tx[t];
    var n := |x.writeLog| - 1;
    var v := VersionOf(s.rl[x.writeLog[n].x]);
    var y := x.(writeLog := x.writeLog[n := x.writeLog[n].(oldVersion := v)]);
    var s' := Step(s, t, ch);
    if v > x.validTs {
      hide Extended, Established;
      var z := y.(pc := Running);
      assert s' == Goto(Put(s, t, z), t, s'.tx[t].pc);
      ExtendedAny(Put(s, t, z), t, s'.tx[t].pc, RetWrite(x.pc.w), s.clock, 0);
    } else {
      hide Extended;
      EstablishedSame(s, t, y, x.pc.w);
    }
  }

  lemma EstablishedSame(s: State, t: nat, y: Tx, w: Request)
    requires t < |s.tx| && t < |s.cm| && Formed(Established(s, t, y, w))
    ensures t < |Established(s, t, y, w).tx|
    ensures Result(Established(s, t, y, w), t) == Accessed(s, t, y.(pc := Running), w)
  {
    hide Insert, TxOk;
  }

  lemma TicketSame(s: State, t: nat, ch: Choice)
    requires Formed(s) && Enabled(s, t, ch) && Formed(Step(s, t, ch))
    requires s.tx[t].pc.CmTicket? || s.tx[t].pc.CmStore?
    ensures SameResult(s, t, Step(s, t, ch))
  {
    hide TxOk;
  }

  lemma ExtendSame(s: State, t: nat, ch: Choice)
    requires Formed(s) && Enabled(s, t, ch) && Formed(Step(s, t, ch)) && s.tx[t].pc.ExtendClock?
    ensures SameResult(s, t, Step(s, t, ch))
  {
    hide Extended;
    ExtendedAny(s, t, Step(s, t, ch).tx[t].pc, s.tx[t].pc.k, s.clock, 0);
  }

  lemma ExtendingSame(s: State, t: nat, ch: Choice)
    requires Formed(s) && Enabled(s, t, ch) && Formed(Step(s, t, ch))
    requires s.tx[t].pc.Extending? && s.tx[t].pc.i < |s.tx[t].readLog|
    ensures SameResult(s, t, Step(s, t, ch))
  {
    hide Rolled, Continued;
    var pc, x := s.tx[t].pc, s.tx[t];
    var s' := Step(s, t, ch);
    RolledAny(s, t, s'.tx[t].pc);
    ContinuedAny(s, t, x.(validTs := pc.c), s'.tx[t].pc, pc.k);
    ContinuedAny(s, t, x.(pc := s'.tx[t].pc, validTs := pc.c), s'.tx[t].pc, pc.k);
  }

  lemma ExtendedSame(s: State, t: nat, ch: Choice)
    requires Formed(s) && Enabled(s, t, ch) && Formed(Step(s, t, ch))
    requires s.tx[t].pc.Extending? && s.tx[t].pc.i == |s.tx[t].readLog|
    ensures SameResult(s, t, Step(s, t, ch))
  {
    hide Rolled, Accessed, Established;
    var y := s.tx[t].(validTs := s.tx[t].pc.c);
    match s.tx[t].pc.k
    case RetRead(_, _) =>
    case RetWrite(w) =>
      EstablishedSame(s, t, y, w);
      ContinuedAny(s, t, y, Running, RetWrite(w));
  }

  lemma DropSame(s: State, t: nat, ch: Choice)
    requires Formed(s) && Enabled(s, t, ch) && Formed(Step(s, t, ch)) && Linked(s, t) && s.tx[t].pc.Dropping?
    ensures SameResult(s, t, Step(s, t, ch))
  {
  }

  lemma RestoreSame(s: State, t: nat, ch: Choice)
    requires Formed(s) && Enabled(s, t, ch) && Formed(Step(s, t, ch)) && Linked(s, t) && s.tx[t].pc.RestoreReads?
    ensures SameResult(s, t, Step(s, t, ch))
  {
    hide Rolled;
    var x := s.tx[t];
    var s' := Step(s, t, ch);
    RolledAny(s, t, s'.tx[t].pc);
    RestoredNext(s, t, x.pc.i);
    RolledLocks(s, t, s'.tx[t].pc, s'.rl);
  }

  lemma RestoredNext(s: State, t: nat, i: nat)
    requires t < |s.tx| && Linked(s, t) && s.tx[t].pc == RestoreReads(i)
    ensures var W := s.tx[t].writeLog;
      if i < |W| then W[i].x < |s.rl| && Restored(s.rl[W[i].x := Ver(W[i].oldVersion)], s.wl, t, W, i + 1) == Restored(s.rl, s.wl, t, W, i)
      else Restored(s.rl, s.wl, t, W, i) == s.rl
  {
  }

  lemma RolledLocks(s: State, t: nat, pc: Pc, rl: seq<ReadLock>)
    requires t < |s.tx|
    ensures Rolled(Goto(s, t, pc).(rl := rl), t) == Rolled(Goto(s, t, pc), t).(rl := rl)
  {
    hide Freed;
  }

  lemma WriteWordSame(s: State, t: nat, ch: Choice)
    requires Formed(s) && Enabled(s, t, ch) && Formed(Step(s, t, ch)) && Linked(s, t) && s.tx[t].pc.WriteBack? && ch.Word?
    ensures SameResult(s, t, Step(s, t, ch))
  {
    hide Through, Freed, Locked;
    var x := s.tx[t];
    var i, done := x.pc.i, x.pc.done;
    var s' := Step(s, t, ch);
    assert s.wl[s.stripe[ch.a]] == Held(t, i);
    assert Flushed(s'.mem, s.stripe, s.wl, t, x.buffer, i, done + {ch.a}) == Flushed(s.mem, s.stripe, s.wl, t, x.buffer, i, done);
  }

  lemma WriteSame(s: State, t: nat, ch: Choice)
    requires Formed(s) && Enabled(s, t, ch) && Formed(Step(s, t, ch)) && Linked(s, t) && s.tx[t].pc.WriteBack? && ch.Go?
    requires s.tx[t].pc.i < |s.tx[t].writeLog|
    ensures SameResult(s, t, Step(s, t, ch))
  {
    hide Through, Freed;
    var x := s.tx[t];
    var ts, i, done := x.pc.ts, x.pc.i, x.pc.done;
    var s' := Step(s, t, ch);
    assert Flushed(s.mem, s.stripe, s.wl, t, x.buffer, i + 1, done) == Flushed(s.mem, s.stripe, s.wl, t, x.buffer, i, done);
    assert Locked(s'.rl, s.wl, t, i + 1, Ver(ts)) == Locked(s.rl, s.wl, t, i, Ver(ts));
  }

  lemma WrittenSame(s: State, t: nat, ch: Choice)
    requires Formed(s) && Enabled(s, t, ch) && Formed(Step(s, t, ch)) && Linked(s, t) && s.tx[t].pc.WriteBack? && ch.Go?
    requires s.tx[t].pc.i == |s.tx[t].writeLog|
    ensures SameResult(s, t, Step(s, t, ch))
  {
    hide Through;
    var x := s.tx[t];
    var ts, i, done := x.pc.ts, x.pc.i, x.pc.done;
    assert Freed(s.wl, t) == s.wl;
    assert Flushed(s.mem, s.stripe, s.wl, t, x.buffer, i, done) == s.mem;
    assert Locked(s.rl, s.wl, t, i, Ver(ts)) == s.rl;
  }

  lemma ReleaseSame(s: State, t: nat, ch: Choice)
    requires Formed(s) && Enabled(s, t, ch) && Formed(Step(s, t, ch)) && Linked(s, t) && s.tx[t].pc.ReleaseWrite?
    ensures SameResult(s, t, Step(s, t, ch))
  {
    hide Through;
    var x := s.tx[t];
    var ts, i, done := x.pc.ts, x.pc.i, x.pc.done;
    var s' := Step(s, t, ch);
    assert Freed(s'.wl, t) == Freed(s.wl, t);
    assert Flushed(s.mem, s.stripe, s'.wl, t, x.buffer, i + 1, done) == Flushed(s.mem, s.stripe, s.wl, t, x.buffer, i + 1, done);
    assert Locked(s.rl, s'.wl, t, i + 1, Ver(ts)) == Locked(s.rl, s.wl, t, i + 1, Ver(ts));
  }

  lemma ValidatedAny(s: State, t: nat, pc: Pc, ts: nat, i: nat)
    requires t < |s.tx|
    ensures Validated(Goto(s, t, pc), t, ts, i) == Validated(s, t, ts, i)
    ensures Backed(Goto(s, t, pc), t, i) == Backed(s, t, i)
  {
    hide Flushed, Locked, Restored, Publish, Freed;
  }

  lemma ValidateSame(s: State, t: nat, ch: Choice)
    requires Formed(s) && Enabled(s, t, ch) && Formed(Step(s, t, ch)) && s.tx[t].pc.Validating?
    requires s.tx[t].pc.i < |s.tx[t].readLog|
    ensures SameResult(s, t, Step(s, t, ch))
  {
    hide Written, Backed, DecidedAt;
    var pc := Step(s, t, ch).tx[t].pc;
    ValidatedAny(s, t, pc, s.tx[t].pc.ts, s.tx[t].pc.i);
    ValidatedAny(s, t, pc, s.tx[t].pc.ts, s.tx[t].pc.i + 1);
    ValidatedAny(s, t, pc, s.tx[t].pc.ts, 0);
  }

  lemma DecideSame(s: State, t: nat, ch: Choice)
    requires Formed(s) && Enabled(s, t, ch) && Formed(Step(s, t, ch)) && s.tx[t].pc.Validating?
    requires s.tx[t].pc.i == |s.tx[t].readLog|
    ensures SameResult(s, t, Step(s, t, ch))
  {
    hide Flushed, Locked, Publish, Freed;
  }

  lemma ValidateOwnSame(s: State, t: nat, ch: Choice)
    requires Formed(s) && Enabled(s, t, ch) && Formed(Step(s, t, ch)) && s.tx[t].pc.ValidatingLocked?
    ensures SameResult(s, t, Step(s, t, ch))
  {
    hide Validated, Backed;
    var pc := Step(s, t, ch).tx[t].pc;
    ValidatedAny(s, t, pc, s.tx[t].pc.ts, s.tx[t].pc.i + 1);
    ValidatedAny(s, t, pc, s.tx[t].pc.ts, 0);
  }

  lemma StampSame(s: State, t: nat, ch: Choice)
    requires Formed(s) && Enabled(s, t, ch) && Formed(Step(s, t, ch)) && s.tx[t].pc.TakeTs?
    ensures SameResult(s, t, Step(s, t, ch))
  {
    hide Validated;
    var pc := Step(s, t, ch).tx[t].pc;
    ValidatedAny(Tick(s), t, pc, s.clock + 1, if !s.gv4 && s.clock == s.tx[t].validTs then |s.tx[t].readLog| else 0);
    assert s.gv4 ==> Tick(Goto(s, t, pc)) == Goto(Tick(s), t, pc);
  }

  lemma SeenSame(s: State, t: nat, ch: Choice)
    requires Formed(s) && Enabled(s, t, ch) && Formed(Step(s, t, ch)) && s.tx[t].pc.TakeTsGV4?
    ensures SameResult(s, t, Step(s, t, ch))
  {
    hide Validated;
    var pc := Step(s, t, ch).tx[t].pc;
    ValidatedAny(Tick(s), t, pc, s.clock + 1, 0);
    ValidatedAny(s, t, pc, s.clock, 0);
  }

  lemma StampedAny(s: State, t: nat, pc: Pc)
    requires t < |s.tx| && s.hist != []
    ensures Stamped(Goto(s, t, pc), t) == Stamped(s, t)
  {
    hide Validated;
    var i := if !s.gv4 && s.clock == s.tx[t].validTs then |s.tx[t].readLog| else 0;
    assert Tick(Goto(s, t, pc)) == Goto(Tick(s), t, pc);
    ValidatedAny(Tick(s), t, pc, s.clock + 1, i);
  }

  lemma LockReadsSame(s: State, t: nat, ch: Choice)
    requires Formed(s) && Enabled(s, t, ch) && Formed(Step(s, t, ch)) && Linked(s, t) && s.tx[t].pc.LockReads?
    requires CommittingMeansSet(s.rl, s.tx[t])
    ensures SameResult(s, t, Step(s, t, ch))
  {
    hide Stamped;
    var s' := Step(s, t, ch);
    var rl := Locked(s.rl, s.wl, t, 0, Set);
    assert Locked(s'.rl, s.wl, t, 0, Set) == rl;
    assert s'.tx[t].pc.TakeTs? ==> s'.rl == rl;
    assert s'.(rl := rl) == Goto(s.(rl := rl), t, s'.tx[t].pc);
    StampedAny(s.(rl := rl), t, s'.tx[t].pc);
  }

  /** What the invariant says of the thread. */
  lemma Knows(s: State, t: nat)
    requires Inv(s) && t < |s.tx|
    ensures Formed(s) && Linked(s, t) && CommittingMeansSet(s.rl, s.tx[t])
    ensures s.tx[t].pc.ReadAgain? && s.rl[s.stripe[s.tx[t].pc.a]] == Ver(s.tx[t].pc.v) ==> s.tx[t].pc.val == s.mem[s.tx[t].pc.a]
  {
    hide Apart, History;
    LinkedHere(s, t);
    assert Thread(s, t, s.tx[t]);
  }

  lemma CallSame(s: State, t: nat, ch: Choice)
    requires Inv(s) && Enabled(s, t, ch) && Plain(s.tx[t].pc) && !Returned(s.tx[t]) && Unhindered(s, t) && Formed(Step(s, t, ch))
    ensures SameResult(s, t, Step(s, t, ch))
  {
    hide Inv, Enabled, Step, SameResult, Linked;
    EnabledThread(s, t, ch);
    Knows(s, t);
    match s.tx[t].pc
    case StartGreedy => StartSame(s, t, ch);
    case StartFlag => StartSame(s, t, ch);
    case ReadOwn(_) => OwnSame(s, t, ch);
    case ReadVersion(_) => VersionSame(s, t, ch);
    case ReadValue(_, _) => VersionSame(s, t, ch);
    case ReadAgain(_, _, _) => AgainSame(s, t, ch);
    case Conflict(_) => ConflictSame(s, t, ch);
    case ConflictOwner(_) => ConflictSame(s, t, ch);
    case ConflictRank(_, _) => RankSame(s, t, ch);
    case ConflictFlag(_, _) => RankSame(s, t, ch);
    case ConflictReload(_) => RankSame(s, t, ch);
    case TryLock(w) => if s.wl[s.stripe[w.a]].Held? { FailedSame(s, t, ch); } else { LockedSame(s, t, ch); }
    case LockFailed(_) => FailedSame(s, t, ch);
    case CmTicket => TicketSame(s, t, ch);
    case CmStore(_) => TicketSame(s, t, ch);
    case ExtendClock(_) => ExtendSame(s, t, ch);
    case Extending(_, _, i) => if i < |s.tx[t].readLog| { ExtendingSame(s, t, ch); } else { ExtendedSame(s, t, ch); }
    case _ =>
  }

  lemma CommitSame(s: State, t: nat, ch: Choice)
    requires Inv(s) && Enabled(s, t, ch) && !Plain(s.tx[t].pc) && !Returned(s.tx[t]) && Formed(Step(s, t, ch))
    ensures SameResult(s, t, Step(s, t, ch))
  {
    hide Inv, Step, SameResult, Linked;
    Knows(s, t);
    match s.tx[t].pc
    case LockVersion(_) => VersionedSame(s, t, ch);
    case LockReads(_) => LockReadsSame(s, t, ch);
    case TakeTs => StampSame(s, t, ch);
    case TakeTsGV4(_) => SeenSame(s, t, ch);
    case Validating(_, i) => if i < |s.tx[t].readLog| { ValidateSame(s, t, ch); } else { DecideSame(s, t, ch); }
    case ValidatingLocked(_, _) => ValidateOwnSame(s, t, ch);
    case WriteBack(_, i, _) =>
      if ch.Word? { WriteWordSame(s, t, ch); }
      else if i < |s.tx[t].writeLog| { WriteSame(s, t, ch); }
      else { WrittenSame(s, t, ch); }
    case ReleaseWrite(_, _, _) => ReleaseSame(s, t, ch);
    case RestoreReads(_) => RestoreSame(s, t, ch);
    case Dropping(_) => DropSame(s, t, ch);
    case _ =>
  }

  lemma StepSame(s: State, t: nat, ch: Choice)
    requires Inv(s) && Enabled(s, t, ch) && !Returned(s.tx[t]) && !Waits(s, t) && Formed(Step(s, t, ch))
    ensures SameResult(s, t, Step(s, t, ch))
  {
    hide Inv, Enabled, Step, SameResult, Waits, Unhindered;
    EnabledThread(s, t, ch);
    NotWaiting(s, t);
    if Plain(s.tx[t].pc) { CallSame(s, t, ch); } else { CommitSame(s, t, ch); }
  }

  lemma ResultReturned(s: State, t: nat)
    requires Formed(s) && t < |s.tx| && Returned(s.tx[t])
    ensures Result(s, t) == s
  {
  }

  // ---------- the end of a call ----------

  lemma {:induction false} AloneResult(s: State, t: nat, run: seq<Choice>, s': State)
    requires Inv(s) && Alone(s, t, run, s') && !Waits(s, t)
    ensures s' == Result(s, t)
    decreases |run|
  {
    hide Inv, Enabled, Step, Waits, Result, Formed;
    if Returned(s.tx[t]) {
      ResultReturned(s, t);
    } else {
      SoloStep(s, t, run[0]);
      InvSized(Step(s, t, run[0]));
      StepSame(s, t, run[0]);
      AloneResult(Step(s, t, run[0]), t, run[1..], s');
    }
  }

  lemma {:induction false} AloneReturns(s: State, t: nat) returns (run: seq<Choice>, s': State)
    requires Inv(s) && t < |s.tx| && !Waits(s, t)
    ensures Alone(s, t, run, s')
    decreases if Returned(s.tx[t]) then 0 else 1, Rank(s, t)
  {
    hide Inv, Enabled, Step, Waits, Sized, TxOk, Rank;
    InvSized(s);
    run, s' := [], s;
    if !Returned(s.tx[t]) {
      var ch := CanStep(s, t);
      SoloStep(s, t, ch);
      var rest: seq<Choice>;
      rest, s' := AloneReturns(Step(s, t, ch), t);
      run := [ch] + rest;
      assert run[1..] == rest;
    }
  }

  /** A thread that waits for nobody finishes its call by its own steps, in exactly this state. */
  lemma AloneEnds(s: State, t: nat)
    requires Inv(s) && t < |s.tx| && !Waits(s, t)
    ensures Formed(s) && Ends(s, t, Result(s, t))
  {
    hide Inv, Waits, Alone, Result;
    InvSized(s);
    var run, r := AloneReturns(s, t);
    AloneResult(s, t, run, r);
    forall run', s' | Alone(s, t, run', s') ensures s' == Result(s, t) { AloneResult(s, t, run', s'); }
  }

  // ---------- every call, alone, from every reachable state ----------

  /** TxStart: the snapshot is the clock, the logs are empty, and the contention manager is reset. */
  lemma BeginAlone(m: Memory, s: State, t: nat)
    requires Reachable(m, s) && Formed(s) && t < |s.tx| && s.tx[t].pc.Idle?
    ensures Ends(Step(s, t, Go), t, Put(s, t, Tx(Running, s.clock, [], [], map[], [], |s.recs|)).(cm := s.cm[t := CM_IDLE]))
  {
    hide Reachable, Ends, Waits, Inv;
    ReachableInv(m, s);
    AfterCall(s, t, Go);
    IdleTx(s, t);
    var s' := Step(s, t, Go);
    assert s'.tx[t] == Tx(StartGreedy, s.clock, [], [], map[], [], |s.recs|);
    assert Result(s', t) == Put(s, t, Tx(Running, s.clock, [], [], map[], [], |s.recs|)).(cm := s.cm[t := CM_IDLE]);
  }

  lemma IdleTx(s: State, t: nat)
    requires Inv(s) && t < |s.tx| && s.tx[t].pc.Idle?
    ensures var x := s.tx[t]; x.readLog == [] && x.writeLog == [] && x.buffer == map[] && x.ops == []
  {
    hide Apart, Shared;
    assert Thread(s, t, s.tx[t]);
  }

  lemma AfterCall(s: State, t: nat, ch: Choice)
    requires Inv(s) && Enabled(s, t, ch)
    ensures t < |s.tx| && Inv(Step(s, t, ch)) && Formed(Step(s, t, ch)) && t < |Step(s, t, ch).tx|
    ensures !Waits(Step(s, t, ch), t) ==> Ends(Step(s, t, ch), t, Result(Step(s, t, ch), t))
    ensures !Waits(Step(s, t, ch), t) <==> Unhindered(Step(s, t, ch), t)
  {
    hide Inv, Step, Ends, Result, Waits, Unhindered, Enabled;
    EnabledThread(s, t, ch);
    InvSized(s);
    StepKeeps(s, t, ch);
    InvSized(Step(s, t, ch));
    SwissCalls.StepNext(s, t, ch);
    NotWaiting(Step(s, t, ch), t);
    if !Waits(Step(s, t, ch), t) { AloneEnds(Step(s, t, ch), t); }
  }

  /** ReadWord: an own stripe is read through the write log; any other is read and logged, after an extension if
      it is newer than the snapshot. The call fails only if some entry has changed since it was read. */
  ghost function ReadOutcome(s: State, t: nat, a: nat): State
    requires Formed(s) && t < |s.tx| && a < |s.mem|
  {
    var x := s.tx[t];
    var v := VersionOf(s.rl[s.stripe[a]]);
    var y := x.(readLog := x.readLog + [ReadEntry(s.stripe[a], v)]);
    if Owns(s.wl, t, s.stripe[a]) then Put(s, t, Return(x, a, Through(x.buffer, a, s.mem[a])))
    else if v <= x.validTs then Put(s, t, Return(y, a, s.mem[a]))
    else if Unchanged(s.rl, x.readLog, 0) then Put(s, t, Return(y.(validTs := s.clock), a, s.mem[a]))
    else Rolled(s, t)
  }

  lemma ReadAlone(m: Memory, s: State, t: nat, a: nat)
    requires Reachable(m, s) && Formed(s) && t < |s.tx| && s.tx[t].pc.Running? && a < |s.mem|
    ensures Waits(Step(s, t, Read(a)), t) <==> s.rl[s.stripe[a]].Set? && !Owns(s.wl, t, s.stripe[a])
    ensures !Waits(Step(s, t, Read(a)), t) ==> Ends(Step(s, t, Read(a)), t, ReadOutcome(s, t, a))
  {
    hide Reachable, Ends, Waits, Inv, Unhindered, Step, ReadOutcome, Result;
    ReachableInv(m, s);
    assert Enabled(s, t, Read(a));
    AfterCall(s, t, Read(a));
    ReadUnhindered(s, t, a);
    if s.rl[s.stripe[a]].Ver? || Owns(s.wl, t, s.stripe[a]) { ReadResult(s, t, a); }
  }

  lemma ReadUnhindered(s: State, t: nat, a: nat)
    requires Formed(s) && t < |s.tx| && s.tx[t].pc.Running? && a < |s.mem| && Formed(Step(s, t, Read(a)))
    ensures t < |Step(s, t, Read(a)).tx|
    ensures Unhindered(Step(s, t, Read(a)), t) <==> s.rl[s.stripe[a]].Ver? || Owns(s.wl, t, s.stripe[a])
  {
  }

  lemma ReadResult(s: State, t: nat, a: nat)
    requires Formed(s) && t < |s.tx| && s.tx[t].pc.Running? && a < |s.mem| && Formed(Step(s, t, Read(a)))
    requires s.rl[s.stripe[a]].Ver? || Owns(s.wl, t, s.stripe[a])
    ensures Result(Step(s, t, Read(a)), t) == ReadOutcome(s, t, a)
  {
    hide Through, Loaded;
    if !Owns(s.wl, t, s.stripe[a]) {
      LoadedAny(s, t, ReadVersion(a), a);
      LoadedOutcome(s, t, a);
    }
  }

  lemma LoadedOutcome(s: State, t: nat, a: nat)
    requires Formed(s) && t < |s.tx| && s.tx[t].pc.Running? && a < |s.mem| && s.rl[s.stripe[a]].Ver?
    requires !Owns(s.wl, t, s.stripe[a])
    ensures Loaded(s, t, a) == ReadOutcome(s, t, a)
  {
    hide Freed;
    var x := s.tx[t];
    UnchangedSnoc(s.rl, x.readLog, ReadEntry(s.stripe[a], VersionOf(s.rl[s.stripe[a]])));
    assert x.(pc := Running) == x;
  }

  lemma UnchangedSnoc(rl: seq<ReadLock>, log: seq<ReadEntry>, e: ReadEntry)
    requires e.x < |rl| && rl[e.x] == Ver(e.version)
    ensures Unchanged(rl, log + [e], 0) <==> Unchanged(rl, log, 0)
  {
    if Unchanged(rl, log + [e], 0) {
      forall j | 0 <= j < |log| ensures log[j].x < |rl| && rl[log[j].x] == Ver(log[j].version) { assert (log + [e])[j] == log[j]; }
    }
  }

  /** WriteWord: a word of an own stripe is buffered. A clear stripe is locked, after an extension if it is newer
      than the snapshot. For a stripe of another thread the transaction gives up unless it is the stronger one. */
  ghost function WriteOutcome(s: State, t: nat, w: Request): State
    requires Formed(s) && t < |s.tx| && w.a < |s.mem|
  {
    var x := s.tx[t];
    var i := s.stripe[w.a];
    var v := VersionOf(s.rl[i]);
    var y := x.(writeLog := x.writeLog + [WriteEntry(i, v)]);
    var s1 := s.(wl := s.wl[i := Held(t, |x.writeLog|)]);
    if Owns(s.wl, t, i) then Put(s, t, Buffered(x, w))
    else if s.wl[i].Held? then Rolled(s, t)
    else if v <= x.validTs then Accessed(s1, t, y, w)
    else if Unchanged(s.rl, x.readLog, 0) then Accessed(s1, t, y.(validTs := s.clock), w)
    else Rolled(s, t)
  }

  /** The owner of the stripe is another thread, and weaker than thread t. */
  predicate Outranks(s: State, t: nat, i: nat)
    requires t < |s.cm| && i < |s.wl|
  {
    && s.wl[i].Held? && s.wl[i].t != t && s.wl[i].t < |s.cm|
    && !s.cm[t].abortedExternally && s.cm[t].greedyTs != MINIMUM_TS
    && Stronger(s.cm[t].greedyTs, s.cm[s.wl[i].t].greedyTs)
  }

  lemma WriteAlone(m: Memory, s: State, t: nat, w: Request)
    requires Reachable(m, s) && Formed(s) && t < |s.tx| && s.tx[t].pc.Running? && w.a < |s.mem|
    ensures Waits(Step(s, t, Write(w)), t) <==> Outranks(s, t, s.stripe[w.a])
    ensures !Waits(Step(s, t, Write(w)), t) ==> Ends(Step(s, t, Write(w)), t, WriteOutcome(s, t, w))
  {
    hide Reachable, Ends, Waits, Inv, Unhindered, Step, WriteOutcome, Outranks, Result;
    ReachableInv(m, s);
    assert Enabled(s, t, Write(w));
    AfterCall(s, t, Write(w));
    WriteUnhindered(s, t, w);
    if !Outranks(s, t, s.stripe[w.a]) { WriteResult(s, t, w); }
  }

  lemma WriteUnhindered(s: State, t: nat, w: Request)
    requires Formed(s) && t < |s.tx| && s.tx[t].pc.Running? && w.a < |s.mem| && Formed(Step(s, t, Write(w)))
    ensures t < |Step(s, t, Write(w)).tx| && (Unhindered(Step(s, t, Write(w)), t) <==> !Outranks(s, t, s.stripe[w.a]))
  {
    hide Insert;
  }

  lemma WriteResult(s: State, t: nat, w: Request)
    requires Formed(s) && t < |s.tx| && s.tx[t].pc.Running? && w.a < |s.mem| && Formed(Step(s, t, Write(w)))
    requires !Outranks(s, t, s.stripe[w.a])
    ensures Result(Step(s, t, Write(w)), t) == WriteOutcome(s, t, w)
  {
    hide Rolled, Acquired, Insert;
    var i := s.stripe[w.a];
    if Owns(s.wl, t, i) {
    } else if s.wl[i].Held? {
      RolledAny(s, t, Conflict(w));
      FacedAny(s, t, Conflict(w), w);
    } else {
      AcquiredAny(s, t, TryLock(w), w);
      AcquiredOutcome(s, t, w);
    }
  }

  lemma AcquiredOutcome(s: State, t: nat, w: Request)
    requires Formed(s) && t < |s.tx| && s.tx[t].pc.Running? && w.a < |s.mem| && s.wl[s.stripe[w.a]].Clear?
    ensures Acquired(s, t, w) == WriteOutcome(s, t, w)
  {
    hide Accessed;
    var x := s.tx[t];
    var i := s.stripe[w.a];
    var v := VersionOf(s.rl[i]);
    var y := x.(writeLog := x.writeLog + [WriteEntry(i, v)]);
    var s1 := s.(wl := s.wl[i := Held(t, |x.writeLog|)]);
    assert x.(pc := Running) == x;
    assert Put(s, t, y).(wl := s1.wl) == Put(s1, t, y);
    AccessedAgain(s1, t, y, y, w);
    AccessedAgain(s1, t, y, y.(validTs := s.clock), w);
    assert Freed(s1.wl, t) == Freed(s.wl, t);
    assert Rolled(Put(s1, t, y), t) == Rolled(s, t);
  }

  lemma AccessedAgain(s: State, t: nat, z: Tx, y: Tx, w: Request)
    requires t < |s.tx| && t < |s.cm|
    ensures Accessed(Put(s, t, z), t, y, w) == Accessed(s, t, y, w)
  {
    hide Buffered;
  }

  /** Where ShouldAbortWrite leads: back to the lock, or to a roll-back. */
  function Judged(s: State, t: nat, w: Request): State
    requires Sized(s) && t < |s.tx| && w.a < |s.mem|
  {
    if s.cm[t].abortedExternally || s.cm[t].greedyTs == MINIMUM_TS then Goto(s, t, Dropping(0))
    else
      match s.wl[s.stripe[w.a]]
      case Clear => Goto(s, t, TryLock(w))
      case Held(o, _) =>
        if Stronger(s.cm[t].greedyTs, s.cm[o].greedyTs) then Goto(Flagged(s, o), t, TryLock(w)) else Goto(s, t, Dropping(0))
  }

  /** n steps of thread t. */
  ghost predicate Steps(s: State, t: nat, n: nat, s': State)
    decreases n
  {
    if n == 0 then s' == s else Formed(s) && Enabled(s, t, Go) && Steps(Step(s, t, Go), t, n - 1, s')
  }

  /** ShouldAbortWrite lets exactly the stronger writer go on, and tells the owner to abort. */
  lemma ShouldAbortWrite(m: Memory, s: State, t: nat, w: Request)
    requires Reachable(m, s) && Formed(s) && t < |s.tx| && s.tx[t].pc == Conflict(w)
    ensures exists n: nat :: n <= 5 && Steps(s, t, n, Judged(s, t, w))
  {
    hide Reachable, Inv, Step, Enabled, Steps, TxOk, Formed;
    ReachableInv(m, s);
    ConflictHere(s, t);
    assert Steps(s, t, 0, s) by { NoSteps(s, t); }
    var s1 := AskStep(s, t, s, 0);
    if s1.tx[t].pc.Dropping? {
      assert s1 == Judged(s, t, w);
    } else {
      var s2 := AskStep(s, t, s1, 1);
      if s2.tx[t].pc.ConflictRank? {
        var n, r := RankOn(s, t, s2, w, s2.tx[t].pc.o);
        assert r == Judged(s, t, w);
      } else {
        var s3 := AskStep(s, t, s2, 2);
        assert s3 == Judged(s, t, w);
      }
    }
  }

  lemma RankOn(s0: State, t: nat, s: State, w: Request, o: nat) returns (n: nat, r: State)
    requires Steps(s0, t, 2, s) && Inv(s) && Formed(s) && t < |s.tx| && s.tx[t].pc == ConflictRank(w, o)
    ensures n <= 5 && Steps(s0, t, n, r) && t < |s.cm| && o < |s.cm|
    ensures r == if Stronger(s.cm[t].greedyTs, s.cm[o].greedyTs) then Goto(Flagged(s, o), t, TryLock(w)) else Goto(s, t, Dropping(0))
  {
    hide Inv, Step, Enabled, Steps, TxOk, Formed;
    n := 3;
    r := AskStep(s0, t, s, 2);
    if r.tx[t].pc.ConflictFlag? {
      r := AskStep(s0, t, r, 3);
      r := AskStep(s0, t, r, 4);
      n := 5;
    }
  }

  lemma ConflictHere(s: State, t: nat)
    requires Formed(s) && t < |s.tx| && s.tx[t].pc.Conflict?
    ensures Sized(s) && TxOk(s, s.tx[t]) && s.tx[t].pc.w.a < |s.mem|
  {
  }

  lemma NoSteps(s: State, t: nat)
    ensures Steps(s, t, 0, s)
  {
  }

  lemma {:induction false} OneMore(s: State, t: nat, n: nat, s': State)
    requires Steps(s, t, n, s') && Formed(s') && Enabled(s', t, Go)
    ensures Steps(s, t, n + 1, Step(s', t, Go))
    decreases n
  {
    hide Step, Enabled, Formed;
    if n > 0 { OneMore(Step(s, t, Go), t, n - 1, s'); }
  }

  /** One step of ShouldAbortWrite. */
  lemma AskStep(s0: State, t: nat, s: State, n: nat) returns (s': State)
    requires Steps(s0, t, n, s)
    requires Inv(s) && Formed(s) && t < |s.tx|
    requires var pc := s.tx[t].pc; pc.Conflict? || pc.ConflictOwner? || pc.ConflictRank? || pc.ConflictFlag? || pc.ConflictReload?
    ensures Inv(s') && Formed(s') && t < |s'.tx| && t < |s.cm| && Steps(s0, t, n + 1, s')
    ensures match s.tx[t].pc
            case Conflict(w) => s' == StepConflict(s, t, w)
            case ConflictOwner(w) => TxOk(s, s.tx[t]) && w.a < |s.mem| && s' == StepConflictOwner(s, t, w)
            case ConflictRank(w, o) => o < |s.cm| && s' == StepConflictRank(s, t, w, o)
            case ConflictFlag(w, o) => o < |s.cm| && s' == StepConflictFlag(s, t, w, o)
            case ConflictReload(w) => s' == StepConflictReload(s, t, w)
            case _ => true
  {
    hide Inv, Steps;
    s' := Step(s, t, Go);
    StepKeeps(s, t, Go);
    InvSized(s');
    OneMore(s0, t, n, s);
  }

  /** Extend: it fails exactly if the lock word of some entry differs from the version that was logged. */
  lemma ExtendAlone(m: Memory, s: State, t: nat)
    requires Reachable(m, s) && Formed(s) && t < |s.tx| && s.tx[t].pc.ExtendClock?
    ensures Ends(s, t, if Unchanged(s.rl, s.tx[t].readLog, 0) then Continued(s, t, s.tx[t].(validTs := s.clock), s.tx[t].pc.k)
                       else Rolled(s, t))
  {
    hide Reachable, Ends, Waits, Inv;
    ReachableInv(m, s);
    NotWaiting(s, t);
    AloneEnds(s, t);
  }

  /** TxAbort. */
  lemma AbortAlone(m: Memory, s: State, t: nat)
    requires Reachable(m, s) && Formed(s) && t < |s.tx| && s.tx[t].pc.Running?
    ensures Ends(Step(s, t, Abort), t, Rolled(s, t))
  {
    hide Reachable, Ends, Waits, Inv;
    ReachableInv(m, s);
    AfterCall(s, t, Abort);
    RolledAny(s, t, Dropping(0));
  }

  /** Every entry still carries the version that was read, or is locked by the transaction itself; or the clock
      has not moved since the snapshot and nothing is checked. */
  ghost predicate MayCommit(s: State, t: nat)
    requires t < |s.tx|
  {
    var x := s.tx[t];
    || (!s.gv4 && s.clock == x.validTs)
    || forall j :: 0 <= j < |x.readLog| && x.readLog[j].x < |s.rl| ==>
         s.rl[x.readLog[j].x] == Ver(x.readLog[j].version) || Owns(s.wl, t, x.readLog[j].x)
  }

  /** TxTryCommit: a read-only transaction commits at its snapshot. An update that may commit is decided at the next
      clock value, its words are in memory, and its stripes carry the new version; any other only leaves a clock tick. */
  ghost function CommitOutcome(s: State, t: nat): State
    requires t < |s.tx| && s.hist != []
  {
    var x := s.tx[t];
    var ts := s.clock + 1;
    var gone := Put(s, t, Clean(x)).(wl := Freed(s.wl, t), clock := ts, hist := s.hist + [s.hist[|s.hist| - 1]]);
    if x.writeLog == [] then Put(s, t, Clean(x)).(recs := s.recs + [Rec(x.validTs, false, x.ops, x.begin)])
    else if MayCommit(s, t) then
      gone.(recs := s.recs + [Rec(ts, true, x.ops, x.begin)], rl := Locked(s.rl, s.wl, t, 0, Ver(ts)),
            mem := seq(|s.mem|, a requires 0 <= a < |s.mem| => Through(x.buffer, a, s.mem[a])),
            hist := Publish(gone.hist, ts, x.buffer))
    else gone
  }

  lemma CommitAlone(m: Memory, s: State, t: nat)
    requires Reachable(m, s) && Formed(s) && t < |s.tx| && s.tx[t].pc.Running?
    ensures Ends(Step(s, t, Commit), t, CommitOutcome(s, t))
  {
    hide Reachable, Ends, Waits, Inv, Unhindered, Step, CommitOutcome, Result;
    ReachableInv(m, s);
    assert Enabled(s, t, Commit);
    AfterCall(s, t, Commit);
    RunningFacts(s, t);
    CommitUnhindered(s, t);
    CommitResult(s, t);
  }

  lemma CommitUnhindered(s: State, t: nat)
    requires Formed(s) && t < |s.tx| && s.tx[t].pc.Running? && Formed(Step(s, t, Commit))
    ensures t < |Step(s, t, Commit).tx| && Unhindered(Step(s, t, Commit), t)
  {
  }

  /** Versions recorded when stripes were locked are their versions; buffered words are in locked stripes. */
  ghost predicate Ready(s: State, t: nat)
    requires t < |s.tx|
  {
    var x := s.tx[t];
    && Linked(s, t)
    && (forall k :: 0 <= k < |x.writeLog| ==> x.writeLog[k].x < |s.rl| && s.rl[x.writeLog[k].x] == Ver(x.writeLog[k].oldVersion))
    && (forall a :: a in x.buffer ==> a < |s.stripe| && Owns(s.wl, t, s.stripe[a]))
  }

  lemma RunningFacts(s: State, t: nat)
    requires Inv(s) && t < |s.tx| && s.tx[t].pc.Running?
    ensures Ready(s, t)
  {
    hide Apart, History;
    LinkedHere(s, t);
    assert Thread(s, t, s.tx[t]);
  }

  lemma CommitResult(s: State, t: nat)
    requires Formed(s) && t < |s.tx| && s.tx[t].pc.Running? && Ready(s, t) && Formed(Step(s, t, Commit))
    ensures Result(Step(s, t, Commit), t) == CommitOutcome(s, t)
  {
    hide Stamped, MayCommit;
    if s.tx[t].writeLog != [] {
      var s1 := s.(rl := Locked(s.rl, s.wl, t, 0, Set));
      assert Goto(s, t, LockReads(0)).(rl := s1.rl) == Goto(s1, t, LockReads(0));
      StampedAny(s1, t, LockReads(0));
      StampedOutcome(s, t);
    }
  }

  lemma StampedOutcome(s: State, t: nat)
    requires Formed(s) && t < |s.tx| && s.tx[t].pc.Running? && Ready(s, t) && s.tx[t].writeLog != []
    ensures Stamped(s.(rl := Locked(s.rl, s.wl, t, 0, Set)), t) == CommitOutcome(s, t)
  {
    var s1 := Tick(s.(rl := Locked(s.rl, s.wl, t, 0, Set)));
    var x := s.tx[t];
    var i := if !s.gv4 && s.clock == x.validTs then |x.readLog| else 0;
    var ts := s.clock + 1;
    PassesOutcome(s, t, s1, i);
    if MayCommit(s, t) {
      assert Locked(s1.rl, s.wl, t, 0, Ver(ts)) == Locked(s.rl, s.wl, t, 0, Ver(ts));
      assert Flushed(s.mem, s.stripe, s.wl, t, x.buffer, 0, {}) == seq(|s.mem|, a requires 0 <= a < |s.mem| => Through(x.buffer, a, s.mem[a]));
    } else {
      assert Restored(s1.rl, s.wl, t, x.writeLog, 0) == s.rl;
    }
  }

  lemma PassesOutcome(s: State, t: nat, s1: State, i: nat)
    requires Formed(s) && t < |s.tx| && s1 == Tick(s.(rl := Locked(s.rl, s.wl, t, 0, Set)))
    requires i == if !s.gv4 && s.clock == s.tx[t].validTs then |s.tx[t].readLog| else 0
    ensures Passes(s1, t, i) <==> MayCommit(s, t)
  {
  }
}
