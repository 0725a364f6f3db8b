/** When a freed pointer may be given back: the minimum observed timestamp. */
module Epoch {
  import opened Reclaim

  const UPDATE_LOCAL_LAST_OBSERVED_TS_FREQUENCY := 20

  /** TxStart loads the clock and then records what was observed; a commit may go on to FreeDominated,
      whose scan of all threads is one step per load. */
  datatype Pc =
    | Outside | Starting | Executing
    | LoadMinimum | TryLock | Scanning(i: nat, minimum: nat) | Compare(minimum: nat) | Give(minimum: nat)

  /** lastCommit is history: the timestamp of the thread's last commit. */
  datatype Thread = Thread(registered: bool, pc: Pc, validTs: nat, lastObserved: nat, startCount: nat,
                           manager: Manager, lastCommit: nat)

  datatype State = State(size: nat, clock: nat, minimum: nat, locked: bool, thread: seq<Thread>)

  const UNREGISTERED := Thread(false, Outside, 0, 0, 0, NEW, 0)

  function Init(size: nat, threads: nat): State
  {
    State(size, 1, 0, false, seq(threads, _ => UNREGISTERED))
  }

  datatype Event =
    | Tick | Register(t: nat) | Begin(t: nat) | Observe(t: nat) | Extend(t: nat, ts: nat)
    | TxFrees(t: nat, p: nat) | Commits(t: nat, ts: nat) | Aborts(t: nat) | Reclaims(t: nat)

  function Put(s: State, t: nat, x: Thread): State
    requires t < |s.thread|
  {
    s.(thread := s.thread[t := x])
  }

  predicate Enabled(s: State, e: Event)
  {
    match e
    case Tick => true
    case Register(t) => t < |s.thread| && !s.thread[t].registered
    case Begin(t) => t < |s.thread| && s.thread[t].registered && s.thread[t].pc.Outside?
    case Observe(t) => t < |s.thread| && s.thread[t].pc.Starting?
    case Extend(t, ts) => t < |s.thread| && s.thread[t].pc.Executing? && s.thread[t].validTs <= ts <= s.clock
    case TxFrees(t, _) => t < |s.thread| && s.thread[t].pc.Executing?
    case Commits(t, ts) => t < |s.thread| && s.thread[t].pc.Executing? && s.thread[t].validTs <= ts <= s.clock
    case Aborts(t) => t < |s.thread| && s.thread[t].pc.Executing?
    case Reclaims(t) => t < |s.thread| && (s.thread[t].pc.LoadMinimum? || s.thread[t].pc.TryLock? || s.thread[t].pc.Scanning?
                                           || s.thread[t].pc.Compare? || s.thread[t].pc.Give?)
  }

  /** UpdateLastObservedTs. */
  function Observed(x: Thread): Thread
  {
    if x.startCount + 1 >= UPDATE_LOCAL_LAST_OBSERVED_TS_FREQUENCY
    then x.(lastObserved := if x.validTs > 0 then x.validTs - 1 else 0, startCount := 0)
    else x.(startCount := x.startCount + 1)
  }

  /** FreeDominated and UpdateMinimumObservedTs, one shared access at a time. */
  function StepReclaims(s: State, t: nat): State
    requires t < |s.thread|
  {
    var x := s.thread[t];
    match x.pc
    case LoadMinimum =>
      Put(s, t, x.(pc := if x.manager.lastMinimum == s.minimum then TryLock else Give(s.minimum)))
    case TryLock =>
      if s.locked then Put(s, t, x.(pc := Compare(s.minimum)))
      else if !s.thread[0].registered then Put(s, t, x.(pc := Compare(0)))
      else Put(s, t, x.(pc := Scanning(1, s.thread[0].lastObserved))).(locked := true)
    case Scanning(i, m) =>
      if i < |s.thread| then
        var seen := s.thread[i].lastObserved;
        Put(s, t, x.(pc := Scanning(i + 1, if s.thread[i].registered && seen < m then seen else m)))
      else Put(s, t, x.(pc := Compare(m))).(minimum := m, locked := false)
    case Compare(m) => Put(s, t, x.(pc := if x.manager.lastMinimum == m then Outside else Give(m)))
    case Give(m) => Put(s, t, x.(pc := Outside, manager := FreeDominated(x.manager, m)))
    case _ => s
  }

  function Step(s: State, e: Event): State
    requires Enabled(s, e)
  {
    match e
    case Tick => s.(clock := s.clock + 1)
    case Register(t) => Put(s, t, UNREGISTERED.(registered := true))
    case Begin(t) => Put(s, t, s.thread[t].(pc := Starting, validTs := s.clock))
    case Observe(t) => Put(s, t, Observed(s.thread[t]).(pc := Executing))
    case Extend(t, ts) => Put(s, t, s.thread[t].(validTs := ts))
    case TxFrees(t, p) => Put(s, t, s.thread[t].(manager := TxFree(s.thread[t].manager, s.size, p)))
    case Commits(t, ts) =>
      var x := s.thread[t];
      Put(s, t, x.(pc := if |x.manager.freed| > 1 then LoadMinimum else Outside, manager := TxCommit(x.manager, ts), lastCommit := ts))
    case Aborts(t) => Put(s, t, s.thread[t].(pc := Outside, manager := TxAbort(s.thread[t].manager)))
    case Reclaims(t) => StepReclaims(s, t)
  }

  // ---------- the invariant ----------

  /** A transaction that may hold pointers. */
  predicate Live(x: Thread)
  {
    x.pc.Starting? || x.pc.Executing?
  }

  /** m is before every live snapshot of threads 0..upTo-1, and before every future one. */
  ghost predicate Safe(s: State, m: nat, upTo: nat)
  {
    m < s.clock && forall u :: 0 <= u < upTo && u < |s.thread| && Live(s.thread[u]) ==> m < s.thread[u].validTs
  }

  ghost predicate ThreadOk(s: State, x: Thread)
  {
    && (!x.registered ==> x.pc.Outside?)
    && x.lastObserved < s.clock && (Live(x) ==> x.lastObserved < x.validTs <= s.clock && x.lastCommit <= x.validTs)
    && x.lastCommit <= s.clock
    && Shaped(x.manager, s.size) && Ordered(x.manager, x.lastCommit)
    && (match x.pc
        case Scanning(i, m) => i >= 1 && Safe(s, m, i)
        case Compare(m) => Safe(s, m, |s.thread|)
        case Give(m) => Safe(s, m, |s.thread|)
        case _ => true)
  }

  ghost predicate EpochInv(s: State)
  {
    && 1 <= s.size && 1 <= s.clock
    && Safe(s, s.minimum, |s.thread|)
    && forall t :: 0 <= t < |s.thread| ==> ThreadOk(s, s.thread[t])
  }

  /** Snapshots only get later. */
  ghost predicate Later(s: State, s': State)
  {
    && s'.size == s.size && s.clock <= s'.clock && |s'.thread| == |s.thread|
    && forall u :: 0 <= u < |s.thread| && Live(s'.thread[u]) ==>
         s'.thread[u].validTs >= if Live(s.thread[u]) then s.thread[u].validTs else s.clock
  }

  lemma SafeLater(s: State, s': State, m: nat, upTo: nat)
    requires Safe(s, m, upTo) && Later(s, s')
    ensures Safe(s', m, upTo)
  {
  }

  lemma StepLater(s: State, e: Event)
    requires EpochInv(s) && Enabled(s, e)
    ensures Later(s, Step(s, e))
  {
    hide Safe, Shaped, Ordered, TxFree, TxCommit, TxAbort, FreeDominated;
    if e.Begin? || e.Extend? { assert ThreadOk(s, s.thread[e.t]); }
  }

  lemma Kept(s: State, s': State, t: nat)
    requires EpochInv(s) && Later(s, s') && t < |s.thread| && ThreadOk(s', s'.thread[t]) && Safe(s', s'.minimum, |s'.thread|)
    requires forall u :: 0 <= u < |s.thread| && u != t ==> s'.thread[u] == s.thread[u]
    ensures EpochInv(s')
  {
    forall u | 0 <= u < |s.thread| && u != t
      ensures ThreadOk(s', s'.thread[u])
    {
      StillOk(s, s', s.thread[u]);
    }
  }

  lemma StillOk(s: State, s': State, x: Thread)
    requires ThreadOk(s, x) && Later(s, s')
    ensures ThreadOk(s', x)
  {
    hide Later, Shaped, Ordered, Safe;
    assert s'.size == s.size && s.clock <= s'.clock && |s'.thread| == |s.thread| by { LaterFields(s, s'); }
    match x.pc
    case Scanning(i, m) => SafeLater(s, s', m, i);
    case Compare(m) => SafeLater(s, s', m, |s.thread|);
    case Give(m) => SafeLater(s, s', m, |s.thread|);
    case _ =>
  }

  lemma LaterFields(s: State, s': State)
    requires Later(s, s')
    ensures s'.size == s.size && s.clock <= s'.clock && |s'.thread| == |s.thread|
  {
  }

  // ---------- every step ----------

  lemma KeepTick(s: State)
    requires EpochInv(s)
    ensures EpochInv(Step(s, Tick))
  {
    var s' := Step(s, Tick);
    StepLater(s, Tick);
    forall u | 0 <= u < |s.thread|
      ensures ThreadOk(s', s'.thread[u])
    {
      StillOk(s, s', s.thread[u]);
    }
  }

  /** What the calls of a transaction make of the manager of its thread. */
  lemma TxManager(m: Manager, size: nat, c: nat, e: Event)
    requires 1 <= size && Shaped(m, size) && Ordered(m, c)
    ensures e.TxFrees? ==> Shaped(TxFree(m, size, e.p), size) && Ordered(TxFree(m, size, e.p), c)
    ensures e.Commits? && c <= e.ts ==> Shaped(TxCommit(m, e.ts), size) && Ordered(TxCommit(m, e.ts), e.ts)
    ensures e.Aborts? ==> Shaped(TxAbort(m), size) && Ordered(TxAbort(m), c)
  {
    hide Shaped, Ordered, TxFree, TxCommit, TxAbort;
    match e {
      case TxFrees(_, p) =>
        FreeKeeps(m, size, p);
        FreeOrdered(m, size, p, c);
      case Commits(_, ts) =>
        CommitShaped(m, size, ts);
        if c <= ts { CommitOrdered(m, size, ts, c); }
      case Aborts(_) =>
        AbortKeeps(m, size);
        FreeOrdered(m, size, 0, c);
      case _ =>
    }
  }

  /** Between transactions and in them: the manager keeps its order. */
  lemma KeepTx(s: State, e: Event)
    requires EpochInv(s) && Enabled(s, e) && !e.Tick? && !e.Reclaims?
    ensures EpochInv(Step(s, e))
  {
    hide Shaped, Ordered, TxFree, TxCommit, TxAbort;
    var t := e.t;
    var x := s.thread[t];
    assert ThreadOk(s, x);
    var s' := Step(s, e);
    StepLater(s, e);
    SafeLater(s, s', s.minimum, |s.thread|);
    NewManager(s.size);
    TxManager(x.manager, s.size, x.lastCommit, e);
    assert ThreadOk(s', s'.thread[t]);
    Kept(s, s', t);
  }

  lemma NewManager(size: nat)
    requires 1 <= size
    ensures Shaped(NEW, size) && Ordered(NEW, 0)
  {
  }

  /** The scan: the minimum so far is before all threads looked at. */
  lemma Scanned(s: State, i: nat, m: nat)
    requires EpochInv(s) && Safe(s, m, i) && i < |s.thread|
    ensures var seen := s.thread[i].lastObserved;
            Safe(s, if s.thread[i].registered && seen < m then seen else m, i + 1)
  {
    assert ThreadOk(s, s.thread[i]);
  }

  lemma FirstScanned(s: State)
    requires EpochInv(s) && s.thread != []
    ensures Safe(s, s.thread[0].lastObserved, 1) && Safe(s, 0, |s.thread|)
  {
    assert ThreadOk(s, s.thread[0]);
    forall u | 0 <= u < |s.thread| && Live(s.thread[u])
      ensures 0 < s.thread[u].validTs
    {
      assert ThreadOk(s, s.thread[u]);
    }
  }

  /** What a step of FreeDominated goes on with is safe. */
  lemma ReclaimsSafe(s: State, t: nat)
    requires EpochInv(s) && Enabled(s, Reclaims(t))
    ensures var s' := Step(s, Reclaims(t));
            && Safe(s, s'.minimum, |s.thread|)
            && (match s'.thread[t].pc
                case Scanning(i, m) => i >= 1 && Safe(s, m, i)
                case Compare(m) => Safe(s, m, |s.thread|)
                case Give(m) => Safe(s, m, |s.thread|)
                case _ => true)
  {
    hide Safe;
    SafeNow(s, t);
    FirstScanned(s);
    match s.thread[t].pc
    case Scanning(i, m) =>
      if i < |s.thread| { Scanned(s, i, m); } else { SafeAll(s, m, i); }
    case _ =>
  }

  lemma SafeNow(s: State, t: nat)
    requires EpochInv(s) && t < |s.thread|
    ensures Safe(s, s.minimum, |s.thread|)
    ensures match s.thread[t].pc
            case Scanning(i, m) => i >= 1 && Safe(s, m, i)
            case Compare(m) => Safe(s, m, |s.thread|)
            case Give(m) => Safe(s, m, |s.thread|)
            case _ => true
  {
    assert ThreadOk(s, s.thread[t]);
  }

  lemma SafeAll(s: State, m: nat, i: nat)
    requires Safe(s, m, i) && i >= |s.thread|
    ensures Safe(s, m, |s.thread|)
  {
  }

  lemma GivesOk(m: Manager, size: nat, c: nat, minimum: nat)
    requires Shaped(m, size) && Ordered(m, c)
    ensures Shaped(FreeDominated(m, minimum), size) && Ordered(FreeDominated(m, minimum), c)
  {
    DominatedKeeps(m, size, minimum);
    DominatedIsOld(m, c, minimum);
  }

  lemma KeepReclaims(s: State, t: nat)
    requires EpochInv(s) && Enabled(s, Reclaims(t))
    ensures EpochInv(Step(s, Reclaims(t)))
  {
    hide Shaped, Ordered, FreeDominated, Later, Safe;
    var x := s.thread[t];
    assert ThreadOk(s, x);
    var s' := Step(s, Reclaims(t));
    ReclaimsSafe(s, t);
    StepLater(s, Reclaims(t));
    LaterFields(s, s');
    SafeLater(s, s', s'.minimum, |s.thread|);
    var pc' := s'.thread[t].pc;
    if pc'.Scanning? { SafeLater(s, s', pc'.minimum, pc'.i); }
    else if pc'.Compare? || pc'.Give? { SafeLater(s, s', pc'.minimum, |s.thread|); }
    if x.pc.Give? { GivesOk(x.manager, s.size, x.lastCommit, x.pc.minimum); }
    assert ThreadOk(s', s'.thread[t]);
    Kept(s, s', t);
  }

  lemma EpochStep(s: State, e: Event)
    requires EpochInv(s) && Enabled(s, e)
    ensures EpochInv(Step(s, e))
  {
    hide EpochInv;
    if e.Tick? { KeepTick(s); }
    else if e.Reclaims? { KeepReclaims(s, e.t); }
    else { KeepTx(s, e); }
  }

  // ---------- every run ----------

  predicate Leads(s: State, run: seq<Event>, s': State)
    decreases |run|
  {
    if run == [] then s' == s else Enabled(s, run[0]) && Leads(Step(s, run[0]), run[1..], s')
  }

  ghost predicate Reachable(s: State)
  {
    exists size: nat, threads: nat, run :: 1 <= size && Leads(Init(size, threads), run, s)
  }

  lemma {:induction false} EpochRun(s: State, run: seq<Event>, s': State)
    requires EpochInv(s) && Leads(s, run, s')
    ensures EpochInv(s')
    decreases |run|
  {
    hide EpochInv, Step, Enabled;
    if run != [] {
      EpochStep(s, run[0]);
      EpochRun(Step(s, run[0]), run[1..], s');
    }
  }

  lemma ReachableOk(s: State)
    requires Reachable(s)
    ensures EpochInv(s)
  {
    var size: nat, threads: nat, run :| 1 <= size && Leads(Init(size, threads), run, s);
    NewManager(size);
    assert EpochInv(Init(size, threads));
    EpochRun(Init(size, threads), run, s);
  }

  /** Epoch safety: when a pointer is given back, every transaction then running has a valid_ts
      strictly later than the commit that freed the pointer. */
  lemma EpochSafety(s: State, t: nat, u: nat, n: nat)
    requires Reachable(s) && Enabled(s, Reclaims(t)) && u < |s.thread| && Live(s.thread[u])
    ensures var before, now := s.thread[t].manager.physical, Step(s, Reclaims(t)).thread[t].manager.physical;
            |before| <= n < |now| ==> now[n].commit < s.thread[u].validTs
  {
    hide Shaped, Ordered, FreeDominated;
    ReachableOk(s);
    var x := s.thread[t];
    assert ThreadOk(s, x);
    if x.pc.Give? { DominatedIsOld(x.manager, x.lastCommit, x.pc.minimum); }
  }

  /** freed_logically is sorted by timestamp, and no pointer in it was freed after the thread's last commit. */
  lemma SortedByTimestamp(s: State, t: nat)
    requires Reachable(s) && t < |s.thread|
    ensures Ordered(s.thread[t].manager, s.thread[t].lastCommit) && s.thread[t].lastCommit <= s.clock
  {
    hide Shaped, Ordered;
    ReachableOk(s);
    assert ThreadOk(s, s.thread[t]);
  }
}
