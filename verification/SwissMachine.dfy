/** SwissTM's shared memory and descriptors, updated in place: one method per shared access. */
module SwissMachine {
  import opened Words
  import opened SwissState
  import opened SwissInvariant
  import opened SwissLocal
  import opened SwissRuns

  // The accesses of src/stm/transaction_mixinv_swisstm.h; any sequence of calls is an interleaving.

  class Stm {
    const gv4: bool
    const stripe: seq<nat>
    var mem: Memory
    var rl: seq<ReadLock>
    var wl: seq<WriteLock>
    var clock: nat
    var tx: seq<Tx>
    var cmTs: nat
    var cm: seq<Cm>
    // history, for the specification only
    var hist: seq<Memory>
    var recs: seq<Rec>

    ghost function View(): State
      reads this
    {
      State(gv4, stripe, mem, rl, wl, clock, tx, cmTs, cm, hist, recs)
    }

    ghost predicate Valid()
      reads this
    {
      Inv(View())
    }

    constructor (g: bool, map_: seq<nat>, stripes: nat, threads: nat, m: Memory)
      requires Mapped(map_, stripes, m)
      ensures View() == Init(g, map_, stripes, threads, m) && Valid()
    {
      InitInv(g, map_, stripes, threads, m);
      gv4, stripe, mem := g, map_, m;
      rl, wl := seq(stripes, _ => Ver(MINIMUM_TS + 1)), seq(stripes, _ => Clear);
      clock, cmTs := MINIMUM_TS + 1, MINIMUM_TS + 1;
      tx, cm := seq(threads, _ => IDLE), seq(threads, _ => CM_IDLE);
      hist, recs := [m, m], [];
      new;
      hide Inv;
      assert View() == Init(g, map_, stripes, threads, m);
    }

    // ---------- TxStart ----------

    /** valid_ts is loaded from the commit clock. */
    method LoadClock(t: nat)
      requires Valid() && Enabled(View(), t, Go) && tx[t].pc.Idle?
      modifies this`tx
      ensures Valid() && View() == Step(old(View()), t, Go)
    {
      hide Inv;
      StepKeeps(View(), t, Go);
      Here(View(), t);
      tx := tx[t := tx[t].(pc := StartGreedy, validTs := clock, begin := |recs|)];
    }

    /** CmStartTx. */
    method StoreGreedy(t: nat)
      requires Valid() && Enabled(View(), t, Go) && tx[t].pc.StartGreedy?
      modifies this`tx, this`cm
      ensures Valid() && View() == Step(old(View()), t, Go)
    {
      hide Inv;
      StepKeeps(View(), t, Go);
      Here(View(), t);
      tx := tx[t := tx[t].(pc := StartFlag)];
      cm := cm[t := cm[t].(greedyTs := MINIMUM_TS, greedyPhase := false, accessed := 0)];
    }

    /** aborted_externally is cleared. */
    method ClearAbortFlag(t: nat)
      requires Valid() && Enabled(View(), t, Go) && tx[t].pc.StartFlag?
      modifies this`tx, this`cm
      ensures Valid() && View() == Step(old(View()), t, Go)
    {
      hide Inv;
      StepKeeps(View(), t, Go);
      Here(View(), t);
      tx := tx[t := tx[t].(pc := Running)];
      cm := cm[t := cm[t].(abortedExternally := false)];
    }

    // ---------- ReadWordInner ----------

    /** Whose stripe is it? */
    method LoadLockToRead(t: nat, a: nat)
      requires Valid() && Enabled(View(), t, Read(a)) && tx[t].pc.Running?
      modifies this`tx
      ensures Valid() && View() == Step(old(View()), t, Read(a))
    {
      hide Inv;
      StepKeeps(View(), t, Read(a));
      Here(View(), t);
      var l := wl[stripe[a]];
      tx := tx[t := tx[t].(pc := if l.Held? && l.t == t then ReadOwn(a) else ReadVersion(a))];
    }

    /** A stripe locked by the transaction itself is read from the log, or from memory. */
    method LoadOwn(t: nat)
      requires Valid() && Enabled(View(), t, Go) && tx[t].pc.ReadOwn?
      modifies this`tx
      ensures Valid() && View() == Step(old(View()), t, Go)
    {
      hide Inv;
      StepKeeps(View(), t, Go);
      Here(View(), t);
      var a := tx[t].pc.a;
      tx := tx[t := Return(tx[t], a, Through(tx[t].buffer, a, mem[a]))];
    }

    /** Spin while the read lock is set. */
    method LoadVersion(t: nat)
      requires Valid() && Enabled(View(), t, Go) && tx[t].pc.ReadVersion?
      modifies this`tx
      ensures Valid() && View() == Step(old(View()), t, Go)
    {
      hide Inv;
      StepKeeps(View(), t, Go);
      Here(View(), t);
      var a := tx[t].pc.a;
      var r := rl[stripe[a]];
      if r.Ver? {
        tx := tx[t := tx[t].(pc := ReadValue(a, r.ts))];
      }
    }

    /** The word itself. */
    method LoadValue(t: nat)
      requires Valid() && Enabled(View(), t, Go) && tx[t].pc.ReadValue?
      modifies this`tx
      ensures Valid() && View() == Step(old(View()), t, Go)
    {
      hide Inv;
      StepKeeps(View(), t, Go);
      Here(View(), t);
      var a := tx[t].pc.a;
      tx := tx[t := tx[t].(pc := ReadAgain(a, tx[t].pc.v, mem[a]))];
    }

    /** The version is loaded again; if it is the same the read is logged. */
    method LoadVersionAgain(t: nat)
      requires Valid() && Enabled(View(), t, Go) && tx[t].pc.ReadAgain?
      modifies this`tx
      ensures Valid() && View() == Step(old(View()), t, Go)
    {
      hide Inv;
      StepKeeps(View(), t, Go);
      Here(View(), t);
      var x := tx[t];
      var a, v, val := x.pc.a, x.pc.v, x.pc.val;
      var r := rl[stripe[a]];
      if r.Set? {
        tx := tx[t := x.(pc := ReadVersion(a))];
      } else if r.ts != v {
        tx := tx[t := x.(pc := ReadValue(a, r.ts))];
      } else {
        x := x.(readLog := x.readLog + [ReadEntry(stripe[a], v)]);
        tx := tx[t := if v > x.validTs then x.(pc := ExtendClock(RetRead(a, val))) else Return(x, a, val)];
      }
    }

    // ---------- LockMemoryStripe, ShouldAbortWrite ----------

    /** The write lock: own, held by another, or clear. */
    method LoadLockToWrite(t: nat, w: Request)
      requires Valid() && Enabled(View(), t, Write(w)) && tx[t].pc.Running?
      modifies this`tx
      ensures Valid() && View() == Step(old(View()), t, Write(w))
    {
      hide Inv;
      StepKeeps(View(), t, Write(w));
      Here(View(), t);
      var l := wl[stripe[w.a]];
      if l.Held? && l.t == t {
        tx := tx[t := Buffered(tx[t], w)];
      } else {
        tx := tx[t := tx[t].(pc := if l.Held? then Conflict(w) else TryLock(w))];
      }
    }

    /** Give up when told to, or without a greedy timestamp. */
    method CheckAborted(t: nat)
      requires Valid() && Enabled(View(), t, Go) && tx[t].pc.Conflict?
      modifies this`tx
      ensures Valid() && View() == Step(old(View()), t, Go)
    {
      hide Inv;
      StepKeeps(View(), t, Go);
      Here(View(), t);
      var w := tx[t].pc.w;
      tx := tx[t := tx[t].(pc := if cm[t].abortedExternally || cm[t].greedyTs == MINIMUM_TS then Dropping(0) else ConflictOwner(w))];
    }

    /** Who holds the lock now? */
    method LoadOwner(t: nat)
      requires Valid() && Enabled(View(), t, Go) && tx[t].pc.ConflictOwner?
      modifies this`tx
      ensures Valid() && View() == Step(old(View()), t, Go)
    {
      hide Inv;
      StepKeeps(View(), t, Go);
      Here(View(), t);
      var w := tx[t].pc.w;
      var l := wl[stripe[w.a]];
      tx := tx[t := tx[t].(pc := if l.Held? then ConflictRank(w, l.t) else ConflictReload(w))];
    }

    /** CMStrongerThan. */
    method CompareRank(t: nat)
      requires Valid() && Enabled(View(), t, Go) && tx[t].pc.ConflictRank?
      modifies this`tx
      ensures Valid() && View() == Step(old(View()), t, Go)
    {
      hide Inv;
      StepKeeps(View(), t, Go);
      Here(View(), t);
      var w, o := tx[t].pc.w, tx[t].pc.o;
      tx := tx[t := tx[t].(pc := if Stronger(cm[t].greedyTs, cm[o].greedyTs) then ConflictFlag(w, o) else Dropping(0))];
    }

    /** The weaker owner is told to abort. */
    method FlagOwner(t: nat)
      requires Valid() && Enabled(View(), t, Go) && tx[t].pc.ConflictFlag?
      modifies this`tx, this`cm
      ensures Valid() && View() == Step(old(View()), t, Go)
    {
      hide Inv;
      StepKeeps(View(), t, Go);
      Here(View(), t);
      var w, o := tx[t].pc.w, tx[t].pc.o;
      tx := tx[t := tx[t].(pc := ConflictReload(w))];
      cm := cm[o := cm[o].(abortedExternally := true)];
    }

    /** Round the loop. */
    method Reload(t: nat)
      requires Valid() && Enabled(View(), t, Go) && tx[t].pc.ConflictReload?
      modifies this`tx
      ensures Valid() && View() == Step(old(View()), t, Go)
    {
      hide Inv;
      StepKeeps(View(), t, Go);
      Here(View(), t);
      tx := tx[t := tx[t].(pc := TryLock(tx[t].pc.w))];
    }

    /** The compare-and-swap of the write lock. */
    method CasWriteLock(t: nat)
      requires Valid() && Enabled(View(), t, Go) && tx[t].pc.TryLock?
      modifies this`tx, this`wl
      ensures Valid() && View() == Step(old(View()), t, Go)
    {
      hide Inv;
      StepKeeps(View(), t, Go);
      Here(View(), t);
      var x := tx[t];
      var w := x.pc.w;
      var i := stripe[w.a];
      if wl[i].Clear? {
        tx := tx[t := x.(pc := LockVersion(w), writeLog := x.writeLog + [WriteEntry(i, 0)])];
        wl := wl[i := Held(t, |x.writeLog|)];
      } else {
        tx := tx[t := x.(pc := LockFailed(w))];
      }
    }

    /** Someone else was faster. */
    method LoadLockAgain(t: nat)
      requires Valid() && Enabled(View(), t, Go) && tx[t].pc.LockFailed?
      modifies this`tx
      ensures Valid() && View() == Step(old(View()), t, Go)
    {
      hide Inv;
      StepKeeps(View(), t, Go);
      Here(View(), t);
      var w := tx[t].pc.w;
      tx := tx[t := tx[t].(pc := if wl[stripe[w.a]].Clear? then TryLock(w) else Conflict(w))];
    }

    /** The stripe is locked and up to date: buffer the word, and CmOnAccess. */
    method Establish(t: nat, x: Tx, w: Request)
      requires t < |tx| && t < |cm|
      modifies this`tx, this`cm
      ensures View() == Established(old(View()), t, x, w)
    {
      var c := cm[t];
      var second := !c.greedyPhase && c.accessed + 1 > CM_ACCESS_THRESHOLD;
      tx := tx[t := Buffered(x, w).(pc := if second then CmTicket else Running)];
      cm := cm[t := if c.greedyPhase then c else c.(accessed := c.accessed + 1)];
    }

    /** The version of the stripe just locked is recorded; a newer one needs an extension. */
    method LoadLockedVersion(t: nat)
      requires Valid() && Enabled(View(), t, Go) && tx[t].pc.LockVersion?
      modifies this`tx, this`cm
      ensures Valid() && View() == Step(old(View()), t, Go)
    {
      hide Inv;
      StepKeeps(View(), t, Go);
      Here(View(), t);
      var x := tx[t];
      var w, n := x.pc.w, |x.writeLog| - 1;
      var v := VersionOf(rl[x.writeLog[n].x]);
      x := x.(writeLog := x.writeLog[n := x.writeLog[n].(oldVersion := v)]);
      if v > x.validTs {
        tx := tx[t := x.(pc := ExtendClock(RetWrite(w)))];
      } else {
        Establish(t, x, w);
      }
    }

    /** A greedy timestamp is drawn ... */
    method TakeTicket(t: nat)
      requires Valid() && Enabled(View(), t, Go) && tx[t].pc.CmTicket?
      modifies this`tx, this`cm, this`cmTs
      ensures Valid() && View() == Step(old(View()), t, Go)
    {
      hide Inv;
      StepKeeps(View(), t, Go);
      Here(View(), t);
      cmTs := cmTs + 1;
      tx := tx[t := tx[t].(pc := CmStore(cmTs))];
      cm := cm[t := cm[t].(greedyPhase := true)];
    }

    /** ... and stored. */
    method StoreTicket(t: nat)
      requires Valid() && Enabled(View(), t, Go) && tx[t].pc.CmStore?
      modifies this`tx, this`cm
      ensures Valid() && View() == Step(old(View()), t, Go)
    {
      hide Inv;
      StepKeeps(View(), t, Go);
      Here(View(), t);
      cm := cm[t := cm[t].(greedyTs := tx[t].pc.g)];
      tx := tx[t := tx[t].(pc := Running)];
    }

    // ---------- Extend, Validate ----------

    /** The clock is loaded before the entries are checked. */
    method LoadClockToExtend(t: nat)
      requires Valid() && Enabled(View(), t, Go) && tx[t].pc.ExtendClock?
      modifies this`tx
      ensures Valid() && View() == Step(old(View()), t, Go)
    {
      hide Inv;
      StepKeeps(View(), t, Go);
      Here(View(), t);
      tx := tx[t := tx[t].(pc := Extending(tx[t].pc.k, clock, 0))];
    }

    /** One entry of the read log; after the last, valid_ts moves on. */
    method CheckEntry(t: nat)
      requires Valid() && Enabled(View(), t, Go) && tx[t].pc.Extending?
      modifies this`tx, this`cm
      ensures Valid() && View() == Step(old(View()), t, Go)
    {
      hide Inv;
      StepKeeps(View(), t, Go);
      Here(View(), t);
      var x := tx[t];
      var k, c, i := x.pc.k, x.pc.c, x.pc.i;
      if i < |x.readLog| {
        tx := tx[t := x.(pc := if rl[x.readLog[i].x] == Ver(x.readLog[i].version) then Extending(k, c, i + 1) else Dropping(0))];
      } else {
        x := x.(validTs := c);
        match k
        case RetRead(a, val) => tx := tx[t := Return(x, a, val)];
        case RetWrite(w) => Establish(t, x, w);
      }
    }

    // ---------- TxTryCommit ----------

    /** A read-only transaction is done; an update goes on to its read locks. */
    method StartCommit(t: nat)
      requires Valid() && Enabled(View(), t, Commit) && tx[t].pc.Running?
      modifies this`tx, this`recs
      ensures Valid() && View() == Step(old(View()), t, Commit)
    {
      hide Inv;
      StepKeeps(View(), t, Commit);
      Here(View(), t);
      var x := tx[t];
      if x.writeLog == [] {
        tx := tx[t := Clean(x)];
        recs := recs + [Rec(x.validTs, false, x.ops, x.begin)];
      } else {
        tx := tx[t := x.(pc := LockReads(0))];
      }
    }

    /** One read lock is set. */
    method SetReadLock(t: nat)
      requires Valid() && Enabled(View(), t, Go) && tx[t].pc.LockReads?
      modifies this`tx, this`rl
      ensures Valid() && View() == Step(old(View()), t, Go)
    {
      hide Inv;
      StepKeeps(View(), t, Go);
      Here(View(), t);
      var x, i := tx[t], tx[t].pc.i;
      rl := rl[x.writeLog[i].x := Set];
      tx := tx[t := x.(pc := if i + 1 < |x.writeLog| then LockReads(i + 1) else TakeTs)];
    }

    /** fetch-and-increment, or the load of GenerateTsGV4. */
    method IncrementCommitTs(t: nat)
      requires Valid() && Enabled(View(), t, Go) && tx[t].pc.TakeTs?
      modifies this`tx, this`clock, this`hist
      ensures Valid() && View() == Step(old(View()), t, Go)
    {
      hide Inv;
      StepKeeps(View(), t, Go);
      Here(View(), t);
      var x := tx[t];
      if gv4 {
        tx := tx[t := x.(pc := TakeTsGV4(clock))];
      } else {
        hist := hist + [hist[|hist| - 1]];
        clock := clock + 1;
        tx := tx[t := x.(pc := Validating(clock, if clock == x.validTs + 1 then |x.readLog| else 0))];
      }
    }

    /** The compare-and-swap of GenerateTsGV4; a loser adopts what it finds. */
    method CasClock(t: nat)
      requires Valid() && Enabled(View(), t, Go) && tx[t].pc.TakeTsGV4?
      modifies this`tx, this`clock, this`hist
      ensures Valid() && View() == Step(old(View()), t, Go)
    {
      hide Inv;
      StepKeeps(View(), t, Go);
      Here(View(), t);
      if clock == tx[t].pc.seen {
        hist := hist + [hist[|hist| - 1]];
        clock := clock + 1;
      }
      tx := tx[t := tx[t].(pc := Validating(clock, 0))];
    }

    /** ValidateCommit, one entry; after the last the transaction is decided. */
    method CheckEntryToCommit(t: nat)
      requires Valid() && Enabled(View(), t, Go) && tx[t].pc.Validating?
      modifies this`tx, this`hist, this`recs
      ensures Valid() && View() == Step(old(View()), t, Go)
    {
      hide Inv;
      StepKeeps(View(), t, Go);
      Here(View(), t);
      var x := tx[t];
      var ts, i := x.pc.ts, x.pc.i;
      if i < |x.readLog| {
        var r := rl[x.readLog[i].x];
        tx := tx[t := x.(pc := if r.Set? then ValidatingLocked(ts, i)
                               else if r.ts == x.readLog[i].version then Validating(ts, i + 1) else RestoreReads(0))];
      } else {
        hist := Publish(hist, ts, x.buffer);
        recs := recs + [Rec(ts, true, x.ops, x.begin)];
        tx := tx[t := x.(pc := WriteBack(ts, 0, {}))];
      }
    }

    /** An entry that is read-locked must be the transaction's own. */
    method CheckOwnLock(t: nat)
      requires Valid() && Enabled(View(), t, Go) && tx[t].pc.ValidatingLocked?
      modifies this`tx
      ensures Valid() && View() == Step(old(View()), t, Go)
    {
      hide Inv;
      StepKeeps(View(), t, Go);
      Here(View(), t);
      var x := tx[t];
      var w := wl[x.readLog[x.pc.i].x];
      tx := tx[t := x.(pc := if w.Held? && w.t == t then Validating(x.pc.ts, x.pc.i + 1) else RestoreReads(0))];
    }

    /** One word goes to memory. */
    method WriteBackWord(t: nat, a: nat)
      requires Valid() && Enabled(View(), t, Word(a)) && tx[t].pc.WriteBack?
      modifies this`tx, this`mem
      ensures Valid() && View() == Step(old(View()), t, Word(a))
    {
      hide Inv;
      StepKeeps(View(), t, Word(a));
      Here(View(), t);
      var x := tx[t];
      mem := mem[a := Through(x.buffer, a, mem[a])];
      tx := tx[t := x.(pc := WriteBack(x.pc.ts, x.pc.i, x.pc.done + {a}))];
    }

    /** The version is released first ... */
    method PublishVersion(t: nat)
      requires Valid() && Enabled(View(), t, Go) && tx[t].pc.WriteBack?
      modifies this`tx, this`rl
      ensures Valid() && View() == Step(old(View()), t, Go)
    {
      hide Inv;
      StepKeeps(View(), t, Go);
      Here(View(), t);
      var x := tx[t];
      if x.pc.i < |x.writeLog| {
        rl := rl[x.writeLog[x.pc.i].x := Ver(x.pc.ts)];
        tx := tx[t := x.(pc := ReleaseWrite(x.pc.ts, x.pc.i, x.pc.done))];
      } else {
        tx := tx[t := Clean(x)];
      }
    }

    /** ... then the write lock. */
    method ReleaseWriteLock(t: nat)
      requires Valid() && Enabled(View(), t, Go) && tx[t].pc.ReleaseWrite?
      modifies this`tx, this`wl
      ensures Valid() && View() == Step(old(View()), t, Go)
    {
      hide Inv;
      StepKeeps(View(), t, Go);
      Here(View(), t);
      var x := tx[t];
      wl := wl[x.writeLog[x.pc.i].x := Clear];
      tx := tx[t := x.(pc := WriteBack(x.pc.ts, x.pc.i + 1, x.pc.done))];
    }

    // ---------- ReleaseReadLocks, Rollback ----------

    /** TxAbort, or a restart. */
    method GiveUp(t: nat)
      requires Valid() && Enabled(View(), t, Abort) && tx[t].pc.Running?
      modifies this`tx
      ensures Valid() && View() == Step(old(View()), t, Abort)
    {
      hide Inv;
      StepKeeps(View(), t, Abort);
      Here(View(), t);
      tx := tx[t := tx[t].(pc := Dropping(0))];
    }

    /** A read lock gets its old version back. */
    method RestoreVersion(t: nat)
      requires Valid() && Enabled(View(), t, Go) && tx[t].pc.RestoreReads?
      modifies this`tx, this`rl
      ensures Valid() && View() == Step(old(View()), t, Go)
    {
      hide Inv;
      StepKeeps(View(), t, Go);
      Here(View(), t);
      var x := tx[t];
      if x.pc.i < |x.writeLog| {
        rl := rl[x.writeLog[x.pc.i].x := Ver(x.writeLog[x.pc.i].oldVersion)];
        tx := tx[t := x.(pc := RestoreReads(x.pc.i + 1))];
      } else {
        tx := tx[t := x.(pc := Dropping(0))];
      }
    }

    /** A write lock is dropped. */
    method DropWriteLock(t: nat)
      requires Valid() && Enabled(View(), t, Go) && tx[t].pc.Dropping?
      modifies this`tx, this`wl
      ensures Valid() && View() == Step(old(View()), t, Go)
    {
      hide Inv;
      StepKeeps(View(), t, Go);
      Here(View(), t);
      var x := tx[t];
      if x.pc.i < |x.writeLog| {
        wl := wl[x.writeLog[x.pc.i].x := Clear];
        tx := tx[t := x.(pc := Dropping(x.pc.i + 1))];
      } else {
        tx := tx[t := Clean(x)];
      }
    }
  }
}
