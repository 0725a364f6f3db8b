/** The inductive invariant of the SwissTM protocol. */
module SwissInvariant {
  import opened Words
  import opened SwissState

  // ---------- what a program counter says about the locks of a transaction ----------

  /** The read lock of write-log entry k is set by this transaction. */
  predicate ReadLocked(x: Tx, k: nat)
  {
    match x.pc
    case LockReads(i) => k < i
    case TakeTs => true
    case TakeTsGV4(_) => true
    case Validating(_, _) => true
    case ValidatingLocked(_, _) => true
    case RestoreReads(i) => i <= k
    case WriteBack(_, i, _) => i <= k
    case ReleaseWrite(_, i, _) => i < k
    case _ => false
  }

  /** The write lock of write-log entry k has not been released yet. */
  predicate Holds(x: Tx, k: nat)
  {
    match x.pc
    case WriteBack(_, i, _) => i <= k
    case ReleaseWrite(_, i, _) => i <= k
    case Dropping(i) => i <= k
    case _ => true
  }

  predicate Decided(x: Tx)
  {
    x.pc.WriteBack? || x.pc.ReleaseWrite?
  }

  function DecidedTs(x: Tx): nat
    requires Decided(x)
  {
    x.pc.ts
  }

  function Done(x: Tx): set<nat>
    requires Decided(x)
  {
    x.pc.done
  }

  /** The transaction may still return values to the user, or commit. */
  predicate Live(x: Tx)
  {
    !(x.pc.Idle? || x.pc.RestoreReads? || x.pc.Dropping? || Decided(x))
  }

  /** oldVersion of entry k has been recorded. */
  predicate Recorded(x: Tx, k: nat)
  {
    x.pc.LockVersion? ==> k + 1 < |x.writeLog|
  }

  /** A transaction that asked for a commit timestamp will get at least Floor. */
  predicate Pending(x: Tx)
  {
    x.pc.TakeTsGV4? || x.pc.Validating? || x.pc.ValidatingLocked?
  }

  function Floor(x: Tx): nat
    requires Pending(x)
  {
    match x.pc
    case TakeTsGV4(seen) => seen + 1
    case Validating(ts, _) => ts
    case ValidatingLocked(ts, _) => ts
  }

  /** Read-log entry j is known to be up to date at this timestamp. */
  function Bound(x: Tx, j: nat): nat
  {
    match x.pc
    case Extending(_, c, i) => if j < i then c else x.validTs
    case Validating(ts, i) => if j < i then ts else x.validTs
    case ValidatingLocked(ts, i) => if j < i then ts else x.validTs
    case _ => x.validTs
  }

  // ---------- locks ----------

  /** A write lock points to an entry that has not been released ... */
  ghost predicate LocksPointBack(wl: seq<WriteLock>, txs: seq<Tx>)
  {
    forall i :: 0 <= i < |wl| && wl[i].Held? ==>
      && wl[i].t < |txs| && wl[i].k < |txs[wl[i].t].writeLog|
      && txs[wl[i].t].writeLog[wl[i].k].x == i
      && Holds(txs[wl[i].t], wl[i].k)
  }

  /** ... and every unreleased entry is pointed to. */
  ghost predicate EntriesLocked(wl: seq<WriteLock>, t: nat, x: Tx)
  {
    forall k :: 0 <= k < |x.writeLog| && Holds(x, k) ==>
      x.writeLog[k].x < |wl| && wl[x.writeLog[k].x] == Held(t, k)
  }

  /** A set read lock belongs to the owner of the write lock, who is committing. */
  ghost predicate SetMeansCommitting(rl: seq<ReadLock>, wl: seq<WriteLock>, txs: seq<Tx>)
  {
    forall i :: 0 <= i < |rl| && i < |wl| && rl[i].Set? ==>
      wl[i].Held? && wl[i].t < |txs| && ReadLocked(txs[wl[i].t], wl[i].k)
  }

  ghost predicate CommittingMeansSet(rl: seq<ReadLock>, x: Tx)
  {
    forall k :: 0 <= k < |x.writeLog| && ReadLocked(x, k) ==>
      x.writeLog[k].x < |rl| && rl[x.writeLog[k].x].Set?
  }

  /** The version recorded when a stripe was locked is its version, until the lock is used to commit. */
  ghost predicate VersionRecorded(rl: seq<ReadLock>, x: Tx)
  {
    Live(x) || x.pc.RestoreReads? ==>
      forall k :: 0 <= k < |x.writeLog| && Recorded(x, k) && !ReadLocked(x, k) ==>
        x.writeLog[k].x < |rl| && rl[x.writeLog[k].x] == Ver(x.writeLog[k].oldVersion)
  }

  /** It is no later than what the owner has validated. */
  ghost predicate OldVersionValid(clock: nat, x: Tx)
  {
    Live(x) ==> forall k :: 0 <= k < |x.writeLog| && Recorded(x, k) ==>
      x.writeLog[k].oldVersion <= OldBound(clock, x, k)
  }

  function OldBound(clock: nat, x: Tx, k: nat): nat
  {
    if k + 1 == |x.writeLog| && x.pc.ExtendClock? && x.pc.k.RetWrite? then clock
    else if k + 1 == |x.writeLog| && x.pc.Extending? && x.pc.k.RetWrite? then x.pc.c
    else x.validTs
  }

  ghost predicate Writes(x: Tx, i: nat)
  {
    exists k :: 0 <= k < |x.writeLog| && x.writeLog[k].x == i
  }

  /** An entry still waiting for an extension covers no operation yet. */
  function SettledReads(x: Tx): nat
  {
    if (x.pc.ExtendClock? || x.pc.Extending?) && x.pc.k.RetRead? && x.readLog != [] then |x.readLog| - 1 else |x.readLog|
  }

  function SettledWrites(x: Tx): nat
  {
    if (x.pc.LockVersion? || ((x.pc.ExtendClock? || x.pc.Extending?) && x.pc.k.RetWrite?)) && x.writeLog != []
    then |x.writeLog| - 1 else |x.writeLog|
  }

  /** Stripe i is logged: as read, or as locked for writing. */
  ghost predicate Logged(x: Tx, i: nat)
  {
    || (exists j :: 0 <= j < SettledReads(x) && x.readLog[j].x == i)
    || (exists k :: 0 <= k < SettledWrites(x) && x.writeLog[k].x == i)
  }

  /** Only words of locked stripes are buffered. */
  ghost predicate BufferLocked(stripe: seq<nat>, x: Tx)
  {
    forall a :: a in x.buffer ==> a < |stripe| && Writes(x, stripe[a])
  }

  // ---------- memory and its history ----------

  /** Since timestamp lo, stripe i has been as it is in memory now. */
  ghost predicate Current(stripe: seq<nat>, mem: Memory, hist: seq<Memory>, i: nat, lo: nat)
  {
    forall T, a :: lo <= T < |hist| && 0 <= a < |mem| && a < |stripe| && a < |hist[T]| && stripe[a] == i ==>
      hist[T][a] == mem[a]
  }

  /** Stripe i did not change from timestamp lo to hi. */
  ghost predicate Constant(stripe: seq<nat>, hist: seq<Memory>, i: nat, lo: nat, hi: nat)
  {
    lo < |hist| &&
    forall T, a :: lo <= T <= hi && T < |hist| && 0 <= a < |stripe| && a < |hist[T]| && a < |hist[lo]| && stripe[a] == i ==>
      hist[T][a] == hist[lo][a]
  }

  ghost predicate UnlockedCurrent(stripe: seq<nat>, mem: Memory, hist: seq<Memory>, rl: seq<ReadLock>)
  {
    forall i :: 0 <= i < |rl| && rl[i].Ver? ==> rl[i].ts < |hist| && Current(stripe, mem, hist, i, rl[i].ts)
  }

  ghost predicate LockedCurrent(stripe: seq<nat>, mem: Memory, hist: seq<Memory>, x: Tx)
  {
    !Decided(x) ==> forall k :: 0 <= k < |x.writeLog| && ReadLocked(x, k) ==>
      x.writeLog[k].oldVersion < |hist| && Current(stripe, mem, hist, x.writeLog[k].x, x.writeLog[k].oldVersion)
  }

  /** While a decided transaction writes back, memory plus the rest of its buffer is the new history. */
  ghost predicate WritingBack(stripe: seq<nat>, mem: Memory, hist: seq<Memory>, x: Tx)
  {
    Decided(x) ==> forall k, T, a :: 0 <= k < |x.writeLog| && ReadLocked(x, k) && DecidedTs(x) <= T < |hist|
                                     && 0 <= a < |mem| && a < |stripe| && a < |hist[T]|
                                     && stripe[a] == x.writeLog[k].x ==>
      hist[T][a] == if a in Done(x) then mem[a] else Through(x.buffer, a, mem[a])
  }

  // ---------- timestamps ----------

  ghost predicate Stamps(gv4: bool, clock: nat, x: Tx)
  {
    && x.validTs <= clock
    && (x.pc.Extending? ==> x.validTs <= x.pc.c <= clock)
    && (x.pc.TakeTsGV4? ==> gv4 && x.validTs <= x.pc.seen <= clock)
    && ((x.pc.Validating? || x.pc.ValidatingLocked?) ==> x.validTs < x.pc.ts <= clock)
    && (Decided(x) ==> 1 <= DecidedTs(x) <= clock)
  }

  /** Without GV4 timestamps are unique. */
  ghost predicate StampsUnique(gv4: bool, txs: seq<Tx>, recs: seq<Rec>)
  {
    !gv4 ==> forall t :: 0 <= t < |txs| && Pending(txs[t]) ==>
      && (forall u :: 0 <= u < |txs| && u != t && Pending(txs[u]) ==> Floor(txs[u]) != Floor(txs[t]))
      && (forall i :: 0 <= i < |recs| && recs[i].update ==> recs[i].ts != Floor(txs[t]))
  }

  /** Whatever was decided before a transaction started is in its snapshot. */
  ghost predicate Started(recs: seq<Rec>, x: Tx)
  {
    && x.begin <= |recs|
    && (!x.pc.Idle? ==> forall i :: 0 <= i < x.begin ==> recs[i].ts <= x.validTs)
  }

  // ---------- snapshots ----------

  /** The latest version a read-log entry can have: only an entry still being added may be newer than valid_ts. */
  function EntryBound(clock: nat, x: Tx, j: nat): nat
  {
    if j + 1 == |x.readLog| && x.pc.ExtendClock? && x.pc.k.RetRead? then clock
    else if j + 1 == |x.readLog| && x.pc.Extending? && x.pc.k.RetRead? then x.pc.c
    else x.validTs
  }

  /** Every entry of a live read log has not changed since it was read, up to its bound. */
  ghost predicate ReadsConstant(stripe: seq<nat>, clock: nat, hist: seq<Memory>, x: Tx)
  {
    Live(x) ==> forall j :: 0 <= j < |x.readLog| ==>
      && x.readLog[j].version <= EntryBound(clock, x, j)
      && Constant(stripe, hist, x.readLog[j].x, x.readLog[j].version, Bound(x, j))
  }

  /** If u is a pending commit that will write an entry of the live read log of x, it is later than its bound. */
  ghost predicate LaterThan(x: Tx, u: Tx)
  {
    Live(x) && Pending(u) ==>
      forall j, k :: 0 <= j < |x.readLog| && 0 <= k < |u.writeLog| && u.writeLog[k].x == x.readLog[j].x ==>
        Bound(x, j) < Floor(u) && x.readLog[j].version < Floor(u)
  }

  /** A load of version v of stripe i is in progress: a commit still to come on i is later than v. */
  ghost predicate LaterThanLoad(i: nat, v: nat, u: Tx)
  {
    forall k :: 0 <= k < |u.writeLog| && u.writeLog[k].x == i ==>
      && (Pending(u) ==> v < Floor(u))
      && (ReadLocked(u, k) && Decided(u) ==> v < DecidedTs(u))
  }

  /** The word loaded after version v is still right if u gives the stripe back unchanged. */
  ghost predicate SameIfRestored(i: nat, v: nat, same: bool, u: Tx)
  {
    forall k :: 0 <= k < |u.writeLog| && u.writeLog[k].x == i && ReadLocked(u, k) && !Decided(u) ==>
      u.writeLog[k].oldVersion == v ==> same
  }

  /** A value waiting for the end of an extension is the value of the version just logged. */
  ghost predicate ReturnPending(stripe: seq<nat>, hist: seq<Memory>, x: Tx, a: nat, val: Word)
  {
    && x.readLog != [] && a < |stripe|
    && var e := x.readLog[|x.readLog| - 1];
    && e.x == stripe[a]
    && e.version < |hist| && a < |hist[e.version]|
    && hist[e.version][a] == val
  }

  /** The last write-log entry is for the stripe of the requested word. */
  ghost predicate LastIsFor(stripe: seq<nat>, x: Tx, a: nat)
  {
    && x.writeLog != [] && a < |stripe|
    && x.writeLog[|x.writeLog| - 1].x == stripe[a]
  }

  /** What a thread in the middle of a call knows, apart from the other threads. */
  ghost predicate AtPc(s: State, x: Tx)
  {
    match x.pc
    case ReadOwn(a) => a < |s.stripe| && Writes(x, s.stripe[a])
    case ReadVersion(a) => a !in x.buffer
    case ReadValue(a, v) => a !in x.buffer && v <= s.clock
    case ReadAgain(a, v, val) =>
      && a !in x.buffer && v <= s.clock
      && (a < |s.mem| && a < |s.stripe| && s.stripe[a] < |s.rl| && s.rl[s.stripe[a]] == Ver(v) ==> val == s.mem[a])
    case ExtendClock(RetRead(a, val)) => a !in x.buffer && ReturnPending(s.stripe, s.hist, x, a, val)
    case Extending(RetRead(a, val), _, _) => a !in x.buffer && ReturnPending(s.stripe, s.hist, x, a, val)
    case LockVersion(w) => LastIsFor(s.stripe, x, w.a)
    case ExtendClock(RetWrite(w)) => LastIsFor(s.stripe, x, w.a)
    case Extending(RetWrite(w), _, _) => LastIsFor(s.stripe, x, w.a)
    case _ => true
  }

  /** What a thread may assume about another thread u. */
  ghost predicate Apart(s: State, x: Tx, u: Tx)
  {
    && LaterThan(x, u)
    && (x.pc.ReadValue? && x.pc.a < |s.stripe| ==> LaterThanLoad(s.stripe[x.pc.a], x.pc.v, u))
    && (x.pc.ReadAgain? && x.pc.a < |s.stripe| && x.pc.a < |s.mem| ==>
          && LaterThanLoad(s.stripe[x.pc.a], x.pc.v, u)
          && SameIfRestored(s.stripe[x.pc.a], x.pc.v, x.pc.val == s.mem[x.pc.a], u))
  }

  /** The operations so far are those of a sequential execution from the snapshot at valid_ts. */
  ghost predicate Snapshot(stripe: seq<nat>, hist: seq<Memory>, x: Tx)
  {
    && x.buffer == BufferOf(x.ops)
    && (Live(x) ==> x.validTs < |hist| && Legal(hist[x.validTs], x.ops))
    && (Live(x) ==> Covered(stripe, x))
    && (x.pc.Idle? || x.pc.StartGreedy? || x.pc.StartFlag? ==> x.readLog == [] && x.writeLog == [] && x.ops == [])
  }

  /** Every stripe an operation touched is in the read log or in the write log. */
  ghost predicate Covered(stripe: seq<nat>, x: Tx)
  {
    forall i :: 0 <= i < |x.ops| ==>
      x.ops[i].a < |stripe| && Logged(x, stripe[x.ops[i].a])
  }

  // ---------- decided transactions ----------

  /** The memory a decided transaction ran on. */
  function Base(r: Rec): nat
  {
    if r.update && r.ts > 0 then r.ts - 1 else r.ts
  }

  ghost predicate TouchesStripe(stripe: seq<nat>, ops: seq<Op>, i: nat)
  {
    exists n :: 0 <= n < |ops| && ops[n].a < |stripe| && stripe[ops[n].a] == i
  }

  /** A pending commit is later than every decided transaction that touched what it will write. */
  ghost predicate RecsBefore(stripe: seq<nat>, recs: seq<Rec>, u: Tx)
  {
    Pending(u) ==> forall i, k :: 0 <= i < |recs| && 0 <= k < |u.writeLog|
                                  && TouchesStripe(stripe, recs[i].ops, u.writeLog[k].x) ==>
      recs[i].ts < Floor(u)
  }

  ghost predicate RecsLegal(hist: seq<Memory>, recs: seq<Rec>)
  {
    forall i :: 0 <= i < |recs| ==>
      && recs[i].ts < |hist| && (recs[i].update ==> 1 <= recs[i].ts)
      && (!recs[i].update ==> BufferOf(recs[i].ops) == map[])
      && Legal(hist[Base(recs[i])], recs[i].ops)
  }

  ghost predicate SameSizes(hist: seq<Memory>)
  {
    forall T, U :: 0 <= T < |hist| && 0 <= U < |hist| ==> |hist[T]| == |hist[U]|
  }

  /** History is what the decided updates make of it: their words change ... */
  ghost predicate HistoryWritten(hist: seq<Memory>, recs: seq<Rec>)
    requires SameSizes(hist) && RecsLegal(hist, recs)
  {
    forall i, a :: 0 <= i < |recs| && recs[i].update && a in BufferOf(recs[i].ops) && a < |hist[0]| ==>
      hist[recs[i].ts][a] == Through(BufferOf(recs[i].ops), a, hist[recs[i].ts - 1][a])
  }

  ghost predicate WrittenAt(recs: seq<Rec>, T: nat, a: nat)
  {
    exists i :: 0 <= i < |recs| && recs[i].update && recs[i].ts == T && a in BufferOf(recs[i].ops)
  }

  /** ... and nothing else does. */
  ghost predicate HistoryKept(hist: seq<Memory>, recs: seq<Rec>)
    requires SameSizes(hist)
  {
    forall T, a :: 1 <= T < |hist| && 0 <= a < |hist[0]| && !WrittenAt(recs, T, a) ==> hist[T][a] == hist[T - 1][a]
  }

  /** What an update touched but did not write is not changed at its own timestamp. */
  ghost predicate ReadsKept(hist: seq<Memory>, recs: seq<Rec>)
    requires SameSizes(hist) && RecsLegal(hist, recs)
  {
    forall i, a :: 0 <= i < |recs| && recs[i].update && 0 <= a < |hist[0]|
                   && Touches(recs[i].ops, a) && a !in BufferOf(recs[i].ops) ==>
      hist[recs[i].ts][a] == hist[recs[i].ts - 1][a]
  }

  /** An update decided after a transaction that touched its words is later than it. */
  ghost predicate TouchedEarlier(recs: seq<Rec>)
  {
    forall i, j, a :: 0 <= i < j < |recs| && recs[j].update && a in BufferOf(recs[j].ops)
                      && Touches(recs[i].ops, a) ==>
      recs[i].ts < recs[j].ts
  }

  /** A transaction that started after another was decided comes after it. */
  ghost predicate RealTime(recs: seq<Rec>)
  {
    forall i, j :: 0 <= j < |recs| && 0 <= i < recs[j].begin && i < |recs| ==>
      i < j && recs[i].ts <= recs[j].ts && (recs[j].update ==> recs[i].ts < recs[j].ts)
  }

  ghost predicate History(hist: seq<Memory>, recs: seq<Rec>)
  {
    && SameSizes(hist) && RecsLegal(hist, recs)
    && HistoryWritten(hist, recs) && HistoryKept(hist, recs) && ReadsKept(hist, recs)
    && TouchedEarlier(recs) && RealTime(recs)
  }

  // ---------- the invariant ----------

  ghost predicate Shared(s: State)
  {
    && Sized(s) && 1 <= s.clock
    && LocksPointBack(s.wl, s.tx)
    && SetMeansCommitting(s.rl, s.wl, s.tx)
    && UnlockedCurrent(s.stripe, s.mem, s.hist, s.rl)
    && StampsUnique(s.gv4, s.tx, s.recs)
    && History(s.hist, s.recs)
  }

  ghost predicate Thread(s: State, t: nat, x: Tx)
  {
    && TxOk(s, x)
    && EntriesLocked(s.wl, t, x) && CommittingMeansSet(s.rl, x)
    && VersionRecorded(s.rl, x) && OldVersionValid(s.clock, x) && BufferLocked(s.stripe, x)
    && LockedCurrent(s.stripe, s.mem, s.hist, x) && WritingBack(s.stripe, s.mem, s.hist, x)
    && Stamps(s.gv4, s.clock, x) && Started(s.recs, x)
    && ReadsConstant(s.stripe, s.clock, s.hist, x) && Snapshot(s.stripe, s.hist, x) && AtPc(s, x)
    && RecsBefore(s.stripe, s.recs, x)
  }

  ghost predicate Inv(s: State)
    ensures Inv(s) ==> Formed(s)
  {
    && Shared(s)
    && (forall t :: 0 <= t < |s.tx| ==> Thread(s, t, s.tx[t]))
    && (forall t, u :: 0 <= t < |s.tx| && 0 <= u < |s.tx| && u != t ==> Apart(s, s.tx[t], s.tx[u]))
  }
}
