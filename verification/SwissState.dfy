/** The shared and per-thread state of SwissTM and its atomic steps (src/stm/transaction_mixinv_swisstm.h). */
module SwissState {
  import opened Words

  // Every shared load, store, compare-and-swap and fetch-and-increment is one step; steps of different
  // threads interleave freely.

  // ---------- locks ----------

  /** The read lock of a stripe: READ_LOCK_SET, or the version left by the last commit. */
  datatype ReadLock = Set | Ver(ts: nat)

  /** The write lock of a stripe: WRITE_LOCK_CLEAR, or a pointer to entry k of thread t's write log. */
  datatype WriteLock = Clear | Held(t: nat, k: nat)

  // ---------- transaction descriptors ----------

  datatype ReadEntry = ReadEntry(x: nat, version: nat)
  datatype WriteEntry = WriteEntry(x: nat, oldVersion: nat)

  /** Arguments of WriteWord. */
  datatype Request = Request(a: nat, val: Word, mask: Word)

  /** Where to go on after a timestamp extension. */
  datatype Cont = RetRead(a: nat, val: Word) | RetWrite(w: Request)

  /** Program counters. */
  datatype Pc =
    | Idle
      // TxStart
    | StartGreedy | StartFlag
      // user code, between two calls
    | Running
      // ReadWordInner
    | ReadOwn(a: nat)
    | ReadVersion(a: nat)
    | ReadValue(a: nat, v: nat)
    | ReadAgain(a: nat, v: nat, val: Word)
      // LockMemoryStripe and ShouldAbortWrite
    | Conflict(w: Request)
    | ConflictOwner(w: Request)
    | ConflictRank(w: Request, o: nat)
    | ConflictFlag(w: Request, o: nat)
    | ConflictReload(w: Request)
    | TryLock(w: Request)
    | LockFailed(w: Request)
    | LockVersion(w: Request)
      // CmOnAccess
    | CmTicket | CmStore(g: nat)
      // Extend and Validate
    | ExtendClock(k: Cont)
    | Extending(k: Cont, c: nat, i: nat)
      // TxTryCommit
    | LockReads(i: nat)
    | TakeTs
    | TakeTsGV4(seen: nat)
    | Validating(ts: nat, i: nat)
    | ValidatingLocked(ts: nat, i: nat)
    | WriteBack(ts: nat, i: nat, done: set<nat>)
    | ReleaseWrite(ts: nat, i: nat, done: set<nat>)
      // ReleaseReadLocks and Rollback
    | RestoreReads(i: nat)
    | Dropping(i: nat)

  datatype Tx = Tx(
    pc: Pc,
    validTs: nat,
    readLog: seq<ReadEntry>,
    writeLog: seq<WriteEntry>,
    buffer: Buffer,
    // history: the operations so far, and how many transactions had been decided at the start
    ops: seq<Op>,
    begin: nat
  )

  /** The contention manager's part of a descriptor; other threads read greedyTs and set the abort flag. */
  datatype Cm = Cm(greedyTs: nat, greedyPhase: bool, accessed: nat, abortedExternally: bool)

  /** A decided transaction: an update at its commit timestamp, or a read-only one at its valid_ts. */
  datatype Rec = Rec(ts: nat, update: bool, ops: seq<Op>, begin: nat)

  /** hist[T] is the memory produced by the decided transactions with timestamps up to T. */
  datatype State = State(
    gv4: bool,
    stripe: seq<nat>,
    mem: Memory,
    rl: seq<ReadLock>,
    wl: seq<WriteLock>,
    clock: nat,
    tx: seq<Tx>,
    cmTs: nat,
    cm: seq<Cm>,
    hist: seq<Memory>,
    recs: seq<Rec>
  )

  const CM_ACCESS_THRESHOLD := 10
  const MINIMUM_TS := 0

  const IDLE := Tx(Idle, 0, [], [], map[], [], 0)
  const CM_IDLE := Cm(MINIMUM_TS, false, 0, false)

  /** GlobalInit: all versions and both clocks start at MINIMUM_TS + 1, all write locks clear. */
  function Init(gv4: bool, stripe: seq<nat>, stripes: nat, threads: nat, m: Memory): State
  {
    State(gv4, stripe, m, seq(stripes, _ => Ver(MINIMUM_TS + 1)), seq(stripes, _ => Clear),
          MINIMUM_TS + 1, seq(threads, _ => IDLE), MINIMUM_TS + 1, seq(threads, _ => CM_IDLE), [m, m], [])
  }

  /** What the user code asks for between two calls, and the choice of the next word to write back. */
  datatype Choice = Go | Read(a: nat) | Write(w: Request) | Commit | Abort | Word(a: nat)

  // ---------- well-formed states ----------

  /** The lock table covers the address space, and hist covers the clock. */
  ghost predicate Sized(s: State)
  {
    && |s.stripe| == |s.mem|
    && |s.rl| == |s.wl| && |s.cm| == |s.tx|
    && (forall a :: 0 <= a < |s.stripe| ==> s.stripe[a] < |s.rl|)
    && (forall x :: 0 <= x < |s.wl| && s.wl[x].Held? ==> s.wl[x].t < |s.tx|)
    && |s.hist| == s.clock + 1
    && (forall T :: 0 <= T <= s.clock ==> |s.hist[T]| == |s.mem|)
  }

  ghost predicate PcOk(s: State, x: Tx)
  {
    match x.pc
    case ReadOwn(a) => a < |s.mem|
    case ReadVersion(a) => a < |s.mem|
    case ReadValue(a, _) => a < |s.mem|
    case ReadAgain(a, _, _) => a < |s.mem|
    case Conflict(w) => w.a < |s.mem|
    case ConflictOwner(w) => w.a < |s.mem|
    case ConflictRank(w, o) => w.a < |s.mem| && o < |s.tx|
    case ConflictFlag(w, o) => w.a < |s.mem| && o < |s.tx|
    case ConflictReload(w) => w.a < |s.mem|
    case TryLock(w) => w.a < |s.mem|
    case LockFailed(w) => w.a < |s.mem|
    case LockVersion(w) => w.a < |s.mem| && x.writeLog != []
    case ExtendClock(k) => ContOk(s, x, k)
    case Extending(k, _, i) => ContOk(s, x, k) && i <= |x.readLog|
    case LockReads(i) => i < |x.writeLog|
    case Validating(_, i) => i <= |x.readLog|
    case ValidatingLocked(_, i) => i < |x.readLog|
    case WriteBack(_, i, _) => i <= |x.writeLog|
    case ReleaseWrite(_, i, _) => i < |x.writeLog|
    case RestoreReads(i) => i <= |x.writeLog|
    case Dropping(i) => i <= |x.writeLog|
    case _ => true
  }

  ghost predicate ContOk(s: State, x: Tx, k: Cont)
  {
    match k
    case RetRead(a, _) => a < |s.mem| && x.readLog != []
    case RetWrite(w) => w.a < |s.mem| && x.writeLog != []
  }

  ghost predicate TxOk(s: State, x: Tx)
  {
    && PcOk(s, x)
    && (forall j :: 0 <= j < |x.readLog| ==> x.readLog[j].x < |s.rl|)
    && (forall k :: 0 <= k < |x.writeLog| ==> x.writeLog[k].x < |s.wl|)
  }

  ghost predicate Formed(s: State)
  {
    Sized(s) && forall t :: 0 <= t < |s.tx| ==> TxOk(s, s.tx[t])
  }

  // ---------- steps ----------

  function Put(s: State, t: nat, x: Tx): State
    requires t < |s.tx|
  {
    s.(tx := s.tx[t := x])
  }

  function Goto(s: State, t: nat, pc: Pc): State
    requires t < |s.tx|
  {
    Put(s, t, s.tx[t].(pc := pc))
  }

  /** Which step of thread t the choice ch allows. */
  ghost predicate Enabled(s: State, t: nat, ch: Choice)
  {
    && t < |s.tx|
    && match s.tx[t].pc
       case Running =>
         (match ch
          case Read(a) => a < |s.mem|
          case Write(w) => w.a < |s.mem|
          case Commit => true
          case Abort => true
          case _ => false)
       case WriteBack(_, i, done) =>
         (match ch
          case Go => i < |s.tx[t].writeLog| ==> forall a :: a in s.tx[t].buffer ==> !Todo(s, t, i, done, a)
          case Word(a) => i < |s.tx[t].writeLog| && a in s.tx[t].buffer && Todo(s, t, i, done, a)
          case _ => false)
       case _ => ch.Go?
  }

  /** Word a belongs to write-log entry i and is not yet back in memory. */
  predicate Todo(s: State, t: nat, i: nat, done: set<nat>, a: nat)
    requires t < |s.tx| && i < |s.tx[t].writeLog|
  {
    a < |s.mem| && a < |s.stripe| && s.stripe[a] == s.tx[t].writeLog[i].x && a !in done
  }

  // TxStart: load the clock, reset the contention manager, reset the abort flag

  function StepBegin(s: State, t: nat): State
    requires t < |s.tx|
  {
    Put(s, t, s.tx[t].(pc := StartGreedy, validTs := s.clock, begin := |s.recs|))
  }

  function StepStartGreedy(s: State, t: nat): State
    requires t < |s.tx| && t < |s.cm|
  {
    Goto(s, t, StartFlag)
      .(cm := s.cm[t := s.cm[t].(greedyTs := MINIMUM_TS, greedyPhase := false, accessed := 0)])
  }

  function StepStartFlag(s: State, t: nat): State
    requires t < |s.tx| && t < |s.cm|
  {
    Goto(s, t, Running).(cm := s.cm[t := s.cm[t].(abortedExternally := false)])
  }

  // ReadWordInner

  function Return(x: Tx, a: nat, val: Word): Tx
  {
    x.(pc := Running, ops := x.ops + [Rd(a, val)])
  }

  function StepRead(s: State, t: nat, a: nat): State
    requires Sized(s) && t < |s.tx| && TxOk(s, s.tx[t]) && a < |s.mem|
  {
    match s.wl[s.stripe[a]]
    case Held(o, _) => Goto(s, t, if o == t then ReadOwn(a) else ReadVersion(a))
    case Clear => Goto(s, t, ReadVersion(a))
  }

  function StepReadOwn(s: State, t: nat, a: nat): State
    requires t < |s.tx| && a < |s.mem|
  {
    var x := s.tx[t];
    Put(s, t, Return(x, a, Through(x.buffer, a, s.mem[a])))
  }

  function StepReadVersion(s: State, t: nat, a: nat): State
    requires Sized(s) && t < |s.tx| && TxOk(s, s.tx[t]) && a < |s.mem|
  {
    match s.rl[s.stripe[a]]
    case Set => s
    case Ver(v) => Goto(s, t, ReadValue(a, v))
  }

  function StepReadValue(s: State, t: nat, a: nat, v: nat): State
    requires t < |s.tx| && a < |s.mem|
  {
    Goto(s, t, ReadAgain(a, v, s.mem[a]))
  }

  function StepReadAgain(s: State, t: nat, a: nat, v: nat, val: Word): State
    requires Sized(s) && t < |s.tx| && TxOk(s, s.tx[t]) && a < |s.mem|
  {
    var x := s.tx[t];
    match s.rl[s.stripe[a]]
    case Set => Goto(s, t, ReadVersion(a))
    case Ver(w) =>
      if w != v then Goto(s, t, ReadValue(a, w))
      else
        var y := x.(readLog := x.readLog + [ReadEntry(s.stripe[a], v)]);
        Put(s, t, if v > x.validTs then y.(pc := ExtendClock(RetRead(a, val))) else Return(y, a, val))
  }

  // WriteWord, LockMemoryStripe, ShouldAbortWrite

  /** InsertWordLogEntry. */
  function Buffered(x: Tx, w: Request): Tx
  {
    x.(buffer := Insert(x.buffer, w.a, w.val, w.mask), ops := x.ops + [Wr(w.a, w.val, w.mask)])
  }

  function StepWrite(s: State, t: nat, w: Request): State
    requires Sized(s) && t < |s.tx| && TxOk(s, s.tx[t]) && w.a < |s.mem|
  {
    match s.wl[s.stripe[w.a]]
    case Held(o, _) => if o == t then Put(s, t, Buffered(s.tx[t], w)) else Goto(s, t, Conflict(w))
    case Clear => Goto(s, t, TryLock(w))
  }

  function StepConflict(s: State, t: nat, w: Request): State
    requires t < |s.tx| && t < |s.cm|
  {
    Goto(s, t, if s.cm[t].abortedExternally || s.cm[t].greedyTs == MINIMUM_TS then Dropping(0) else ConflictOwner(w))
  }

  function StepConflictOwner(s: State, t: nat, w: Request): State
    requires Sized(s) && t < |s.tx| && TxOk(s, s.tx[t]) && w.a < |s.mem|
  {
    match s.wl[s.stripe[w.a]]
    case Clear => Goto(s, t, ConflictReload(w))
    case Held(o, _) => Goto(s, t, ConflictRank(w, o))
  }

  /** CMStrongerThan, for a transaction that has a greedy timestamp. */
  predicate Stronger(g: nat, other: nat)
  {
    other == MINIMUM_TS || g < other
  }

  function StepConflictRank(s: State, t: nat, w: Request, o: nat): State
    requires t < |s.tx| && t < |s.cm| && o < |s.cm|
  {
    Goto(s, t, if Stronger(s.cm[t].greedyTs, s.cm[o].greedyTs) then ConflictFlag(w, o) else Dropping(0))
  }

  function StepConflictFlag(s: State, t: nat, w: Request, o: nat): State
    requires t < |s.tx| && o < |s.cm|
  {
    Goto(s, t, ConflictReload(w)).(cm := s.cm[o := s.cm[o].(abortedExternally := true)])
  }

  function StepConflictReload(s: State, t: nat, w: Request): State
    requires t < |s.tx|
  {
    Goto(s, t, TryLock(w))
  }

  function StepTryLock(s: State, t: nat, w: Request): State
    requires Sized(s) && t < |s.tx| && TxOk(s, s.tx[t]) && w.a < |s.mem|
  {
    var x := s.tx[t];
    var i := s.stripe[w.a];
    if s.wl[i].Clear? then
      Put(s, t, x.(pc := LockVersion(w), writeLog := x.writeLog + [WriteEntry(i, 0)]))
        .(wl := s.wl[i := Held(t, |x.writeLog|)])
    else Goto(s, t, LockFailed(w))
  }

  function StepLockFailed(s: State, t: nat, w: Request): State
    requires Sized(s) && t < |s.tx| && TxOk(s, s.tx[t]) && w.a < |s.mem|
  {
    Goto(s, t, if s.wl[s.stripe[w.a]].Clear? then TryLock(w) else Conflict(w))
  }

  /** The stripe is ours: buffer the word and run CmOnAccess. */
  function Established(s: State, t: nat, x: Tx, w: Request): State
    requires t < |s.tx| && t < |s.cm|
  {
    var c := s.cm[t];
    var second := !c.greedyPhase && c.accessed + 1 > CM_ACCESS_THRESHOLD;
    Put(s, t, Buffered(x, w).(pc := if second then CmTicket else Running))
      .(cm := s.cm[t := if c.greedyPhase then c else c.(accessed := c.accessed + 1)])
  }

  /** A set read lock has version number 0; it is never seen here (see SwissInvariant.RlSetHeld). */
  function VersionOf(r: ReadLock): nat
  {
    match r
    case Set => 0
    case Ver(v) => v
  }

  function StepLockVersion(s: State, t: nat, w: Request): State
    requires Sized(s) && t < |s.tx| && TxOk(s, s.tx[t]) && w.a < |s.mem| && s.tx[t].writeLog != []
  {
    var x := s.tx[t];
    var n := |x.writeLog| - 1;
    var v := VersionOf(s.rl[x.writeLog[n].x]);
    var y := x.(writeLog := x.writeLog[n := x.writeLog[n].(oldVersion := v)]);
    if v > x.validTs then Put(s, t, y.(pc := ExtendClock(RetWrite(w)))) else Established(s, t, y, w)
  }

  function StepCmTicket(s: State, t: nat): State
    requires t < |s.tx| && t < |s.cm|
  {
    Goto(s, t, CmStore(s.cmTs + 1)).(cmTs := s.cmTs + 1, cm := s.cm[t := s.cm[t].(greedyPhase := true)])
  }

  function StepCmStore(s: State, t: nat, g: nat): State
    requires t < |s.tx| && t < |s.cm|
  {
    Goto(s, t, Running).(cm := s.cm[t := s.cm[t].(greedyTs := g)])
  }

  // Extend

  function StepExtendClock(s: State, t: nat, k: Cont): State
    requires t < |s.tx|
  {
    Goto(s, t, Extending(k, s.clock, 0))
  }

  function StepExtending(s: State, t: nat, k: Cont, c: nat, i: nat): State
    requires Sized(s) && t < |s.tx| && TxOk(s, s.tx[t]) && i <= |s.tx[t].readLog|
  {
    var x := s.tx[t];
    if i < |x.readLog| then
      Goto(s, t, if s.rl[x.readLog[i].x] == Ver(x.readLog[i].version) then Extending(k, c, i + 1) else Dropping(0))
    else
      var y := x.(validTs := c);
      (match k
       case RetRead(a, val) => Put(s, t, Return(y, a, val))
       case RetWrite(w) => Established(s, t, y, w))
  }

  // TxTryCommit

  function Clean(x: Tx): Tx
  {
    x.(pc := Idle, readLog := [], writeLog := [], buffer := map[], ops := [])
  }

  function StepCommit(s: State, t: nat): State
    requires t < |s.tx|
  {
    var x := s.tx[t];
    if x.writeLog == [] then Put(s, t, Clean(x)).(recs := s.recs + [Rec(x.validTs, false, x.ops, x.begin)])
    else Goto(s, t, LockReads(0))
  }

  function StepLockReads(s: State, t: nat, i: nat): State
    requires Sized(s) && t < |s.tx| && TxOk(s, s.tx[t]) && i < |s.tx[t].writeLog|
  {
    var x := s.tx[t];
    Goto(s, t, if i + 1 < |x.writeLog| then LockReads(i + 1) else TakeTs).(rl := s.rl[x.writeLog[i].x := Set])
  }

  /** The clock moves on; nobody has written at the new timestamp yet. */
  function Tick(s: State): State
    requires s.hist != []
  {
    s.(clock := s.clock + 1, hist := s.hist + [s.hist[|s.hist| - 1]])
  }

  /** IncrementCommitTs. With COMMIT_TS_INC validation is skipped when no other commit came in between. */
  function StepTakeTs(s: State, t: nat): State
    requires Sized(s) && t < |s.tx| && TxOk(s, s.tx[t])
  {
    var x := s.tx[t];
    if s.gv4 then Goto(s, t, TakeTsGV4(s.clock))
    else
      var ts := s.clock + 1;
      Goto(Tick(s), t, Validating(ts, if ts == x.validTs + 1 then |x.readLog| else 0))
  }

  /** The compare-and-swap of GenerateTsGV4: a loser adopts the value it finds. */
  function StepTakeTsGV4(s: State, t: nat, seen: nat): State
    requires Sized(s) && t < |s.tx| && TxOk(s, s.tx[t])
  {
    if s.clock == seen then Goto(Tick(s), t, Validating(s.clock + 1, 0))
    else Goto(s, t, Validating(s.clock, 0))
  }

  /** hist with the buffered words applied from timestamp ts on. */
  function Publish(hist: seq<Memory>, ts: nat, b: Buffer): (r: seq<Memory>)
    ensures |r| == |hist|
    ensures forall T :: 0 <= T < |r| ==> |r[T]| == |hist[T]|
    ensures forall T, a :: 0 <= T < |r| && 0 <= a < |r[T]| ==>
      r[T][a] == if T < ts then hist[T][a] else Through(b, a, hist[T][a])
  {
    seq(|hist|, T requires 0 <= T < |hist| =>
      if T < ts then hist[T] else seq(|hist[T]|, a requires 0 <= a < |hist[T]| => Through(b, a, hist[T][a])))
  }

  /** ValidateCommit; when the last entry has passed, the transaction is decided. */
  function StepValidating(s: State, t: nat, ts: nat, i: nat): State
    requires Sized(s) && t < |s.tx| && TxOk(s, s.tx[t]) && i <= |s.tx[t].readLog|
  {
    var x := s.tx[t];
    if i < |x.readLog| then
      match s.rl[x.readLog[i].x]
      case Set => Goto(s, t, ValidatingLocked(ts, i))
      case Ver(v) =>
        Goto(s, t, if v == x.readLog[i].version then Validating(ts, i + 1) else RestoreReads(0))
    else
      Goto(s, t, WriteBack(ts, 0, {}))
        .(hist := Publish(s.hist, ts, x.buffer), recs := s.recs + [Rec(ts, true, x.ops, x.begin)])
  }

  function StepValidatingLocked(s: State, t: nat, ts: nat, i: nat): State
    requires Sized(s) && t < |s.tx| && TxOk(s, s.tx[t]) && i < |s.tx[t].readLog|
  {
    var x := s.tx[t];
    var w := s.wl[x.readLog[i].x];
    Goto(s, t, if w.Held? && w.t == t then Validating(ts, i + 1) else RestoreReads(0))
  }

  function StepWriteWord(s: State, t: nat, ts: nat, i: nat, done: set<nat>, a: nat): State
    requires t < |s.tx| && a < |s.mem|
  {
    Goto(s, t, WriteBack(ts, i, done + {a})).(mem := s.mem[a := Through(s.tx[t].buffer, a, s.mem[a])])
  }

  function StepReleaseRead(s: State, t: nat, ts: nat, i: nat, done: set<nat>): State
    requires Sized(s) && t < |s.tx| && TxOk(s, s.tx[t]) && i <= |s.tx[t].writeLog|
  {
    var x := s.tx[t];
    if i < |x.writeLog| then Goto(s, t, ReleaseWrite(ts, i, done)).(rl := s.rl[x.writeLog[i].x := Ver(ts)])
    else Put(s, t, Clean(x))
  }

  function StepReleaseWrite(s: State, t: nat, ts: nat, i: nat, done: set<nat>): State
    requires Sized(s) && t < |s.tx| && TxOk(s, s.tx[t]) && i < |s.tx[t].writeLog|
  {
    Goto(s, t, WriteBack(ts, i + 1, done)).(wl := s.wl[s.tx[t].writeLog[i].x := Clear])
  }

  // ReleaseReadLocks, Rollback

  function StepRestoreReads(s: State, t: nat, i: nat): State
    requires Sized(s) && t < |s.tx| && TxOk(s, s.tx[t]) && i <= |s.tx[t].writeLog|
  {
    var x := s.tx[t];
    if i < |x.writeLog| then
      Goto(s, t, RestoreReads(i + 1)).(rl := s.rl[x.writeLog[i].x := Ver(x.writeLog[i].oldVersion)])
    else Goto(s, t, Dropping(0))
  }

  function StepDropping(s: State, t: nat, i: nat): State
    requires Sized(s) && t < |s.tx| && TxOk(s, s.tx[t]) && i <= |s.tx[t].writeLog|
  {
    var x := s.tx[t];
    if i < |x.writeLog| then Goto(s, t, Dropping(i + 1)).(wl := s.wl[x.writeLog[i].x := Clear])
    else Put(s, t, Clean(x))
  }

  /** One atomic step of thread t. */
  ghost function Step(s: State, t: nat, ch: Choice): State
    requires Formed(s) && Enabled(s, t, ch)
  {
    match s.tx[t].pc
    case Idle => StepBegin(s, t)
    case StartGreedy => StepStartGreedy(s, t)
    case StartFlag => StepStartFlag(s, t)
    case Running =>
      (match ch
       case Read(a) => StepRead(s, t, a)
       case Write(w) => StepWrite(s, t, w)
       case Commit => StepCommit(s, t)
       case _ => Goto(s, t, Dropping(0)))
    case ReadOwn(a) => StepReadOwn(s, t, a)
    case ReadVersion(a) => StepReadVersion(s, t, a)
    case ReadValue(a, v) => StepReadValue(s, t, a, v)
    case ReadAgain(a, v, val) => StepReadAgain(s, t, a, v, val)
    case Conflict(w) => StepConflict(s, t, w)
    case ConflictOwner(w) => StepConflictOwner(s, t, w)
    case ConflictRank(w, o) => StepConflictRank(s, t, w, o)
    case ConflictFlag(w, o) => StepConflictFlag(s, t, w, o)
    case ConflictReload(w) => StepConflictReload(s, t, w)
    case TryLock(w) => StepTryLock(s, t, w)
    case LockFailed(w) => StepLockFailed(s, t, w)
    case LockVersion(w) => StepLockVersion(s, t, w)
    case CmTicket => StepCmTicket(s, t)
    case CmStore(g) => StepCmStore(s, t, g)
    case ExtendClock(k) => StepExtendClock(s, t, k)
    case Extending(k, c, i) => StepExtending(s, t, k, c, i)
    case LockReads(i) => StepLockReads(s, t, i)
    case TakeTs => StepTakeTs(s, t)
    case TakeTsGV4(seen) => StepTakeTsGV4(s, t, seen)
    case Validating(ts, i) => StepValidating(s, t, ts, i)
    case ValidatingLocked(ts, i) => StepValidatingLocked(s, t, ts, i)
    case WriteBack(ts, i, done) =>
      if ch.Word? then StepWriteWord(s, t, ts, i, done, ch.a) else StepReleaseRead(s, t, ts, i, done)
    case ReleaseWrite(ts, i, done) => StepReleaseWrite(s, t, ts, i, done)
    case RestoreReads(i) => StepRestoreReads(s, t, i)
    case Dropping(i) => StepDropping(s, t, i)
  }
}
