/** The two-phase greedy contention manager: no cycle of waiting threads, and progress. */
module SwissProgress {
  import opened Words
  import opened SwissState
  import opened SwissInvariant
  import opened SwissLocal
  import opened SwissRuns

  // ---------- greedy timestamps ----------

  ghost predicate Ticketed(s: State, t: nat)
    requires t < |s.tx| == |s.cm|
  {
    && s.cm[t].greedyTs <= s.cmTs
    && (s.tx[t].pc.CmStore? ==> 1 <= s.tx[t].pc.g <= s.cmTs)
  }

  /** Neither the greedy timestamp nor the ticket t is about to store is anybody else's. */
  ghost predicate Distinct(s: State, t: nat, u: nat)
    requires t < |s.tx| == |s.cm| && u < |s.tx|
  {
    && (s.cm[t].greedyTs != MINIMUM_TS ==> s.cm[u].greedyTs != s.cm[t].greedyTs)
    && (s.tx[t].pc.CmStore? ==> s.cm[u].greedyTs != s.tx[t].pc.g)
    && (s.tx[t].pc.CmStore? && s.tx[u].pc.CmStore? ==> s.tx[u].pc.g != s.tx[t].pc.g)
  }

  ghost predicate Greedy(s: State)
  {
    && |s.cm| == |s.tx|
    && (forall t :: 0 <= t < |s.tx| ==> Ticketed(s, t))
    && (forall t, u :: 0 <= t < |s.tx| && 0 <= u < |s.tx| && t != u ==> Distinct(s, t, u))
  }

  /** A step that hands out no ticket and changes no greedy timestamp. */
  ghost predicate SameGreedy(s: State, t: nat, s': State)
    requires t < |s.tx| == |s.cm|
  {
    && |s'.tx| == |s.tx| && |s'.cm| == |s.cm| && s'.cmTs == s.cmTs
    && (forall u :: 0 <= u < |s.cm| ==> s'.cm[u].greedyTs == s.cm[u].greedyTs)
    && (forall u :: 0 <= u < |s.tx| && u != t ==> s'.tx[u] == s.tx[u])
    && !s'.tx[t].pc.CmStore?
  }

  lemma SameGreedyKeeps(s: State, t: nat, s': State)
    requires Greedy(s) && t < |s.tx| && SameGreedy(s, t, s')
    ensures Greedy(s')
  {
    forall u | 0 <= u < |s.tx|
      ensures Ticketed(s', u)
    {
      assert Ticketed(s, u);
    }
    forall u, w | 0 <= u < |s.tx| && 0 <= w < |s.tx| && u != w
      ensures Distinct(s', u, w)
    {
      assert Distinct(s, u, w);
    }
  }

  predicate GivesGreedy(pc: Pc)
  {
    pc.StartGreedy? || pc.CmTicket? || pc.CmStore?
  }

  lemma LoopSameGreedy(s: State, t: nat, ch: Choice)
    requires Formed(s) && Enabled(s, t, ch) && InLoop(s.tx[t].pc)
    ensures SameGreedy(s, t, Step(s, t, ch))
  {
  }

  lemma CallSameGreedy(s: State, t: nat, ch: Choice)
    requires Formed(s) && Enabled(s, t, ch) && Plain(s.tx[t].pc) && !InLoop(s.tx[t].pc) && !GivesGreedy(s.tx[t].pc)
    requires !s.tx[t].pc.Running?
    ensures SameGreedy(s, t, Step(s, t, ch))
  {
  }

  lemma UserSameGreedy(s: State, t: nat, ch: Choice)
    requires Formed(s) && Enabled(s, t, ch) && s.tx[t].pc.Running?
    ensures SameGreedy(s, t, Step(s, t, ch))
  {
  }

  lemma CommitSameGreedy(s: State, t: nat, ch: Choice)
    requires Formed(s) && Enabled(s, t, ch) && !Plain(s.tx[t].pc)
    ensures SameGreedy(s, t, Step(s, t, ch))
  {
    if s.tx[t].pc.LockReads? || Pending(s.tx[t]) || s.tx[t].pc.TakeTs? { DecideSameGreedy(s, t, ch); }
  }

  lemma DecideSameGreedy(s: State, t: nat, ch: Choice)
    requires Formed(s) && Enabled(s, t, ch) && (s.tx[t].pc.LockReads? || Pending(s.tx[t]) || s.tx[t].pc.TakeTs?)
    ensures SameGreedy(s, t, Step(s, t, ch))
  {
    hide Publish;
  }

  lemma GivenGreedy(s: State, t: nat, ch: Choice)
    requires Formed(s) && Greedy(s) && Enabled(s, t, ch) && GivesGreedy(s.tx[t].pc)
    ensures Greedy(Step(s, t, ch))
  {
    var s' := Step(s, t, ch);
    forall u | 0 <= u < |s.tx|
      ensures Ticketed(s', u)
    {
      assert Ticketed(s, u) && Ticketed(s, t);
    }
    forall u, w | 0 <= u < |s.tx| && 0 <= w < |s.tx| && u != w
      ensures Distinct(s', u, w)
    {
      assert Ticketed(s, u) && Ticketed(s, w) && Distinct(s, u, w) && Distinct(s, w, u);
    }
  }

  lemma GreedyStep(s: State, t: nat, ch: Choice)
    requires Formed(s) && Greedy(s) && Enabled(s, t, ch)
    ensures Greedy(Step(s, t, ch))
  {
    hide Greedy, SameGreedy, Step, Enabled;
    assert t < |s.tx| by { EnabledThread(s, t, ch); }
    if GivesGreedy(s.tx[t].pc) {
      GivenGreedy(s, t, ch);
    } else {
      if InLoop(s.tx[t].pc) { LoopSameGreedy(s, t, ch); }
      else if s.tx[t].pc.Running? { UserSameGreedy(s, t, ch); }
      else if Plain(s.tx[t].pc) { CallSameGreedy(s, t, ch); }
      else { CommitSameGreedy(s, t, ch); }
      SameGreedyKeeps(s, t, Step(s, t, ch));
    }
  }

  lemma {:induction false} GreedyRun(s: State, run: seq<Event>, s': State)
    requires Formed(s) && Greedy(s) && Leads(s, run, s')
    ensures Greedy(s')
    decreases |run|
  {
    hide Greedy, Step, Enabled;
    if run != [] {
      GreedyStep(s, run[0].t, run[0].ch);
      if run[1..] != [] { GreedyRun(Step(s, run[0].t, run[0].ch), run[1..], s'); }
    }
  }

  lemma ReachableGreedy(m: Memory, s: State)
    requires Reachable(m, s)
    ensures Greedy(s)
  {
    hide Inv;
    var gv4: bool, stripe, stripes: nat, threads: nat, run :|
      Mapped(stripe, stripes, m) && Leads(Init(gv4, stripe, stripes, threads, m), run, s);
    InitInv(gv4, stripe, stripes, threads, m);
    GreedyRun(Init(gv4, stripe, stripes, threads, m), run, s);
  }

  /** Nonzero greedy timestamps are distinct in every reachable state. */
  lemma GreedyTimestampsDistinct(m: Memory, s: State, t: nat, u: nat)
    requires Reachable(m, s) && t < |s.tx| && u < |s.tx| && t != u
    ensures |s.cm| == |s.tx| && (s.cm[t].greedyTs != MINIMUM_TS ==> s.cm[u].greedyTs != s.cm[t].greedyTs)
  {
    hide Reachable;
    ReachableGreedy(m, s);
    assert Distinct(s, t, u);
  }

  // ---------- waiting ----------

  /** In the loop of LockMemoryStripe. */
  predicate InLoop(pc: Pc)
  {
    pc.Conflict? || pc.ConflictOwner? || pc.ConflictRank? || pc.ConflictFlag? || pc.ConflictReload?
    || pc.TryLock? || pc.LockFailed?
  }

  /** A reader waits while the read lock of its word is set. */
  ghost predicate ReaderWaits(s: State, t: nat, o: nat)
    requires Formed(s) && t < |s.tx|
  {
    var pc := s.tx[t].pc;
    && (pc.ReadVersion? || pc.ReadValue? || pc.ReadAgain?)
    && var i := s.stripe[pc.a];
    && s.rl[i].Set? && s.wl[i].Held? && s.wl[i].t == o
  }

  /** A writer that need not abort waits for the weaker owner of its stripe. */
  ghost predicate WriterWaits(s: State, t: nat, o: nat)
    requires Formed(s) && t < |s.tx| && o < |s.tx|
  {
    var pc := s.tx[t].pc;
    && InLoop(pc) && o != t
    && var i := s.stripe[pc.w.a];
    && s.wl[i].Held? && s.wl[i].t == o
    && !s.cm[t].abortedExternally && s.cm[t].greedyTs != MINIMUM_TS
    && Stronger(s.cm[t].greedyTs, s.cm[o].greedyTs)
  }

  ghost predicate WaitsFor(s: State, t: nat, o: nat)
    requires Formed(s) && t < |s.tx| && o < |s.tx|
  {
    ReaderWaits(s, t, o) || WriterWaits(s, t, o)
  }

  ghost predicate Waits(s: State, t: nat)
    requires Formed(s) && t < |s.tx|
  {
    exists o :: 0 <= o < |s.tx| && WaitsFor(s, t, o)
  }

  /** p is a path of the waits-for graph. */
  ghost predicate Path(s: State, p: seq<nat>)
    requires Formed(s)
  {
    && p != [] && (forall n :: 0 <= n < |p| ==> p[n] < |s.tx|)
    && forall n :: 0 <= n < |p| - 1 ==> WaitsFor(s, p[n], p[n + 1])
  }

  /** Whom a reader waits for is committing, and waits for nobody. */
  lemma OwnerCommits(s: State, t: nat, o: nat)
    requires Inv(s) && t < |s.tx| && o < |s.tx| && ReaderWaits(s, t, o)
    ensures !Waits(s, o)
  {
    hide Thread, Apart, History;
  }

  /** Along a path of waiting writers greedy timestamps go up. */
  lemma {:induction false} PathRises(s: State, p: seq<nat>, o: nat)
    requires Inv(s) && Path(s, p) && |p| >= 2 && o < |s.tx| && WriterWaits(s, p[|p| - 1], o)
    ensures s.cm[p[0]].greedyTs < s.cm[p[|p| - 1]].greedyTs
    decreases |p|
  {
    hide Inv;
    var n := |p| - 1;
    assert WaitsFor(s, p[n - 1], p[n]) && WaitsFor(s, p[n], o);
    if ReaderWaits(s, p[n - 1], p[n]) { OwnerCommits(s, p[n - 1], p[n]); }
    if n > 1 {
      assert p[..n][n - 1] == p[n - 1];
      PathRises(s, p[..n], p[n]);
    }
  }

  /** The waits-for graph has no cycle. */
  lemma NoCycle(m: Memory, s: State, p: seq<nat>)
    requires Reachable(m, s) && Formed(s) && Path(s, p) && |p| >= 2
    ensures p[0] != p[|p| - 1]
  {
    hide Reachable, Inv;
    ReachableInv(m, s);
    var n := |p| - 1;
    if p[0] == p[n] {
      assert WaitsFor(s, p[0], p[1]);
      var o := if n == 1 then p[1] else p[2];
      assert WaitsFor(s, p[1], o);
      WaitsHere(s, p[1], o);
      if ReaderWaits(s, p[0], p[1]) { OwnerCommits(s, p[0], p[1]); }
      PathRises(s, p, p[1]);
    }
  }

  /** Following whom it waits for, every thread leads to one that waits for nobody. */
  lemma {:induction false} WaitsEnd(s: State, t: nat) returns (p: seq<nat>)
    requires Inv(s) && Greedy(s) && t < |s.tx|
    ensures Path(s, p) && p[0] == t && !Waits(s, p[|p| - 1])
    decreases if Waits(s, t) then 1 else 0, if InLoop(s.tx[t].pc) then s.cmTs + 1 - s.cm[t].greedyTs else 0
  {
    hide Inv;
    p := [t];
    if Waits(s, t) {
      var o :| 0 <= o < |s.tx| && WaitsFor(s, t, o);
      if ReaderWaits(s, t, o) {
        OwnerCommits(s, t, o);
        p := [t, o];
      } else if Waits(s, o) {
        var z :| 0 <= z < |s.tx| && WaitsFor(s, o, z);
        if ReaderWaits(s, o, z) {
          OwnerCommits(s, o, z);
          p := [t, o, z];
        } else {
          assert Ticketed(s, o) && Ticketed(s, t);
          var q := WaitsEnd(s, o);
          p := [t] + q;
        }
      } else {
        p := [t, o];
      }
    }
  }

  // ---------- a thread that waits for nobody ----------

  /** Between two calls, or between two transactions. */
  predicate Returned(x: Tx)
  {
    x.pc.Running? || x.pc.Idle?
  }

  /** Steps left for the read loop and the lock loop when nobody else moves. */
  ghost function ReadRank(s: State, x: Tx): nat
    requires PcOk(s, x) && Sized(s)
  {
    match x.pc
    case ReadVersion(_) => 3
    case ReadValue(a, v) => if s.rl[s.stripe[a]] == Ver(v) then 2 else 5
    case ReadAgain(a, v, _) => if s.rl[s.stripe[a]] == Ver(v) then 1 else 4
    case _ => 0
  }

  /** Thread t will give up at its next visit to ShouldAbortWrite. */
  predicate GivesUp(c: Cm)
  {
    c.abortedExternally || c.greedyTs == MINIMUM_TS
  }

  /** Steps left in LockMemoryStripe when the write lock is l. */
  function LoopRank(pc: Pc, l: WriteLock, gives: bool): nat
    requires InLoop(pc)
  {
    if l.Clear? then
      match pc
      case TryLock(_) => 1
      case ConflictReload(_) => 2
      case LockFailed(_) => 2
      case ConflictRank(_, _) => 4
      case Conflict(_) => 4
      case _ => 3
    else if gives then
      match pc
      case Conflict(_) => 1
      case LockFailed(_) => 2
      case TryLock(_) => 3
      case ConflictReload(_) => 4
      case ConflictFlag(_, _) => 5
      case ConflictRank(_, _) => 6
      case _ => 7
    else
      match pc
      case ConflictRank(w, o) => if l.t == o then 1 else 8
      case ConflictOwner(_) => 2
      case Conflict(_) => 3
      case LockFailed(_) => 4
      case TryLock(_) => 5
      case ConflictReload(_) => 6
      case _ => 7
  }

  ghost function LockRank(s: State, t: nat): nat
    requires Formed(s) && t < |s.tx|
  {
    var pc := s.tx[t].pc;
    if InLoop(pc) then LoopRank(pc, s.wl[s.stripe[pc.w.a]], GivesUp(s.cm[t])) else 0
  }

  /** Words of the buffer still to write back. */
  function Left(x: Tx): nat
  {
    if Decided(x) then |x.buffer.Keys - Done(x)| else |x.buffer.Keys|
  }

  function Minus(a: nat, b: nat): nat
  {
    if b <= a then a - b else 0
  }

  /** The rest of the steps, outside the two loops. */
  function RestRank(x: Tx): nat
  {
    var L, W := |x.readLog|, |x.writeLog|;
    var tail := Left(x) + 2 * W + 4;
    match x.pc
    case StartGreedy => 2
    case StartFlag => 1
    case ReadOwn(_) => 1
    case CmTicket => 2
    case CmStore(_) => 1
    case Dropping(i) => Minus(W, i) + 1
    case RestoreReads(i) => Minus(W, i) + W + 2
    case WriteBack(_, i, _) => Left(x) + 2 * Minus(W, i) + 1
    case ReleaseWrite(_, i, _) => Left(x) + 2 * Minus(W, i)
    case Validating(_, i) => tail + 2 * Minus(L, i)
    case ValidatingLocked(_, i) => tail + 2 * Minus(L, i + 1) + 1
    case TakeTsGV4(_) => tail + 2 * L + 1
    case TakeTs => tail + 2 * L + 2
    case LockReads(i) => tail + 2 * L + 2 + Minus(W, i)
    case Extending(_, _, i) => W + 6 + Minus(L, i)
    case ExtendClock(_) => W + 7 + L
    case LockVersion(_) => W + 8 + L
    case _ => W + 20 + L
  }

  /** An upper bound on the steps thread t needs to finish its call alone. */
  ghost function Rank(s: State, t: nat): nat
    requires Formed(s) && t < |s.tx|
  {
    RestRank(s.tx[t]) + ReadRank(s, s.tx[t]) + LockRank(s, t)
  }

  /** In s' thread t is closer to the end of its call than in s, or there. */
  ghost predicate Closer(s: State, t: nat, s': State)
    requires Formed(s) && t < |s.tx|
  {
    && t < |s'.tx|
    && (Returned(s'.tx[t]) || (Formed(s') && Rank(s', t) < Rank(s, t)))
  }

  /** Thread t is not in one of the two loops that wait, or will get out of it. */
  ghost predicate Unhindered(s: State, t: nat)
    requires Formed(s) && t < |s.tx|
  {
    var pc := s.tx[t].pc;
    && (pc.ReadVersion? || pc.ReadValue? || pc.ReadAgain? ==> s.rl[s.stripe[pc.a]].Ver?)
    && (InLoop(pc) && s.wl[s.stripe[pc.w.a]].Held? ==>
          GivesUp(s.cm[t]) || !Stronger(s.cm[t].greedyTs, s.cm[s.wl[s.stripe[pc.w.a]].t].greedyTs))
  }

  /** Thread t waits for nobody. */
  lemma NotWaiting(s: State, t: nat)
    requires Inv(s) && t < |s.tx|
    ensures !Waits(s, t) <==> Unhindered(s, t)
  {
    hide Thread, Apart, History;
    var pc := s.tx[t].pc;
    if pc.ReadVersion? || pc.ReadValue? || pc.ReadAgain? {
      var i := s.stripe[pc.a];
      if s.rl[i].Set? { WaitsHere(s, t, s.wl[i].t); }
    } else if InLoop(pc) && s.wl[s.stripe[pc.w.a]].Held? {
      var o := s.wl[s.stripe[pc.w.a]].t;
      if !Unhindered(s, t) { WaitsHere(s, t, o); }
    }
  }

  lemma WaitsHere(s: State, t: nat, o: nat)
    requires Formed(s) && t < |s.tx| && o < |s.tx| && WaitsFor(s, t, o)
    ensures Waits(s, t)
  {
  }

  lemma ReadCloser(s: State, t: nat, ch: Choice)
    requires Formed(s) && Enabled(s, t, ch) && (s.tx[t].pc.ReadVersion? || s.tx[t].pc.ReadValue? || s.tx[t].pc.ReadAgain?)
    requires Unhindered(s, t) && Formed(Step(s, t, ch))
    ensures Closer(s, t, Step(s, t, ch)) && Unhindered(Step(s, t, ch), t)
  {
    var pc := s.tx[t].pc;
    match pc
    case ReadVersion(a) =>
    case ReadValue(a, v) =>
    case ReadAgain(a, v, val) =>
  }

  /** Outside the loops. */
  predicate Outside(pc: Pc)
  {
    !(pc.ReadVersion? || pc.ReadValue? || pc.ReadAgain? || InLoop(pc))
  }

  lemma OutsideCloser(s: State, t: nat, s': State)
    requires Formed(s) && Formed(s') && t < |s.tx| && t < |s'.tx| && Outside(s'.tx[t].pc)
    requires Returned(s'.tx[t]) || RestRank(s'.tx[t]) < RestRank(s.tx[t])
    ensures Closer(s, t, s') && Unhindered(s', t)
  {
    hide RestRank;
  }

  lemma StartCloser(s: State, t: nat, ch: Choice)
    requires Formed(s) && Enabled(s, t, ch)
    requires s.tx[t].pc.StartGreedy? || s.tx[t].pc.StartFlag? || s.tx[t].pc.ReadOwn? || s.tx[t].pc.CmTicket? || s.tx[t].pc.CmStore?
    ensures var y := Step(s, t, ch).tx;
            t < |y| && Outside(y[t].pc) && (Returned(y[t]) || RestRank(y[t]) < RestRank(s.tx[t]))
  {
    hide Left;
  }

  lemma VersionCloser(s: State, t: nat, ch: Choice)
    requires Formed(s) && Enabled(s, t, ch)
    requires s.tx[t].pc.LockVersion?
    ensures var y := Step(s, t, ch).tx;
            t < |y| && Outside(y[t].pc) && (Returned(y[t]) || RestRank(y[t]) < RestRank(s.tx[t]))
  {
    hide Left;
  }

  lemma ExtendCloser(s: State, t: nat, ch: Choice)
    requires Formed(s) && Enabled(s, t, ch)
    requires s.tx[t].pc.ExtendClock? || s.tx[t].pc.Extending?
    ensures var y := Step(s, t, ch).tx;
            t < |y| && Outside(y[t].pc) && (Returned(y[t]) || RestRank(y[t]) < RestRank(s.tx[t]))
  {
    hide Left;
  }

  lemma StampCloser(s: State, t: nat, ch: Choice)
    requires Formed(s) && Enabled(s, t, ch)
    requires s.tx[t].pc.LockReads? || s.tx[t].pc.TakeTs? || s.tx[t].pc.TakeTsGV4?
    ensures var y := Step(s, t, ch).tx;
            t < |y| && Outside(y[t].pc) && (Returned(y[t]) || RestRank(y[t]) < RestRank(s.tx[t]))
  {
    hide Left;
    LeftBound(s.tx[t], Step(s, t, ch).tx[t]);
  }

  lemma ValidateCloser(s: State, t: nat, ch: Choice)
    requires Formed(s) && Enabled(s, t, ch)
    requires s.tx[t].pc.Validating? || s.tx[t].pc.ValidatingLocked?
    ensures var y := Step(s, t, ch).tx;
            t < |y| && Outside(y[t].pc) && (Returned(y[t]) || RestRank(y[t]) < RestRank(s.tx[t]))
  {
    hide Left;
    LeftBound(s.tx[t], Step(s, t, ch).tx[t]);
  }

  lemma DropCloser(s: State, t: nat, ch: Choice)
    requires Formed(s) && Enabled(s, t, ch)
    requires s.tx[t].pc.Dropping? || s.tx[t].pc.RestoreReads?
    ensures var y := Step(s, t, ch).tx;
            t < |y| && Outside(y[t].pc) && (Returned(y[t]) || RestRank(y[t]) < RestRank(s.tx[t]))
  {
    hide Left;
  }

  lemma WriteCloser(s: State, t: nat, ch: Choice)
    requires Formed(s) && Enabled(s, t, ch)
    requires Decided(s.tx[t])
    ensures var y := Step(s, t, ch).tx;
            t < |y| && Outside(y[t].pc) && (Returned(y[t]) || RestRank(y[t]) < RestRank(s.tx[t]))
  {
    hide Left;
    LeftLess(s.tx[t], Step(s, t, ch).tx[t]);
  }

  /** Nothing has been written back when a transaction is decided. */
  lemma LeftBound(x: Tx, y: Tx)
    requires !Decided(x) && y.buffer == x.buffer && (Decided(y) ==> Done(y) == {})
    ensures Left(y) == Left(x)
  {
    assert y.buffer.Keys - {} == y.buffer.Keys;
  }

  lemma LeftLess(x: Tx, y: Tx)
    requires Decided(x) && (Decided(y) ==> y.buffer == x.buffer)
    ensures Decided(y) && Done(y) == Done(x) ==> Left(y) == Left(x)
    ensures Decided(y) ==> forall a :: a in x.buffer && a !in Done(x) && Done(y) == Done(x) + {a} ==> Left(y) < Left(x)
  {
    if Decided(y) {
      forall a | a in x.buffer && a !in Done(x) && Done(y) == Done(x) + {a}
        ensures Left(y) < Left(x)
      {
        OneLess(x.buffer.Keys, Done(x), a);
      }
    }
  }

  /** One step of the lock loop: out of it, or further through it with the same lock to look at. */
  ghost predicate LoopStep(s: State, t: nat, s': State)
    requires Formed(s) && t < |s.tx| && InLoop(s.tx[t].pc)
  {
    var x := s.tx[t];
    && t < |s'.tx| && t < |s'.cm|
    && var y := s'.tx[t];
    && var l := s.wl[s.stripe[x.pc.w.a]];
    if Outside(y.pc) then RestRank(y) < RestRank(x)
    else
      && InLoop(y.pc) && y.pc.w == x.pc.w && s'.stripe == s.stripe && s'.wl == s.wl
      && RestRank(y) == RestRank(x)
      && LoopRank(y.pc, l, GivesUp(s'.cm[t])) < LoopRank(x.pc, l, GivesUp(s.cm[t]))
      && (GivesUp(s.cm[t]) ==> GivesUp(s'.cm[t]))
      && |s'.cm| == |s.cm| && forall o :: 0 <= o < |s.cm| ==> s'.cm[o].greedyTs == s.cm[o].greedyTs
  }

  lemma AskCloser(s: State, t: nat, ch: Choice)
    requires Formed(s) && Enabled(s, t, ch) && Unhindered(s, t)
    requires s.tx[t].pc.Conflict? || s.tx[t].pc.ConflictOwner? || s.tx[t].pc.ConflictRank? || s.tx[t].pc.ConflictFlag?
    ensures LoopStep(s, t, Step(s, t, ch))
  {
    hide Left;
    LeftBound(s.tx[t], Step(s, t, ch).tx[t]);
  }

  lemma LockCloser(s: State, t: nat, ch: Choice)
    requires Formed(s) && Enabled(s, t, ch) && Unhindered(s, t)
    requires s.tx[t].pc.ConflictReload? || s.tx[t].pc.TryLock? || s.tx[t].pc.LockFailed?
    ensures LoopStep(s, t, Step(s, t, ch))
  {
    hide Left;
    LeftBound(s.tx[t], Step(s, t, ch).tx[t]);
  }

  lemma LoopCloser(s: State, t: nat, s': State)
    requires Formed(s) && Formed(s') && t < |s.tx| && Unhindered(s, t) && InLoop(s.tx[t].pc) && LoopStep(s, t, s')
    ensures Closer(s, t, s') && Unhindered(s', t)
  {
    hide RestRank, LoopRank;
    assert TxOk(s, s.tx[t]) && TxOk(s', s'.tx[t]);
  }

  lemma OneLess(all: set<nat>, done: set<nat>, a: nat)
    requires a in all && a !in done
    ensures |all - (done + {a})| < |all - done|
  {
    assert all - done == (all - (done + {a})) + {a};
  }

  // ---------- running alone ----------

  /** A thread in the middle of a call can always take a step. */
  lemma CanStep(s: State, t: nat) returns (ch: Choice)
    requires Formed(s) && t < |s.tx| && !Returned(s.tx[t])
    ensures Enabled(s, t, ch)
  {
    ch := Go;
    var x := s.tx[t];
    if x.pc.WriteBack? && x.pc.i < |x.writeLog| {
      if a :| a in x.buffer && Todo(s, t, x.pc.i, x.pc.done, a) {
        ch := Word(a);
      }
    }
  }

  lemma SoloStep(s: State, t: nat, ch: Choice)
    requires Inv(s) && Enabled(s, t, ch) && !Returned(s.tx[t]) && !Waits(s, t)
    ensures Inv(Step(s, t, ch)) && Closer(s, t, Step(s, t, ch)) && !Waits(Step(s, t, ch), t)
  {
    hide Inv, Enabled, Rank, Unhindered, RestRank, Step, Waits, LoopStep, Sized, TxOk;
    EnabledThread(s, t, ch);
    InvSized(s);
    StepKeeps(s, t, ch);
    var s' := Step(s, t, ch);
    InvSized(s');
    NotWaiting(s, t);
    var pc := s.tx[t].pc;
    if pc.ReadVersion? || pc.ReadValue? || pc.ReadAgain? { ReadCloser(s, t, ch); }
    else if InLoop(pc) {
      if pc.ConflictReload? || pc.TryLock? || pc.LockFailed? { LockCloser(s, t, ch); } else { AskCloser(s, t, ch); }
      LoopCloser(s, t, s');
    } else {
      OutsideStep(s, t, ch);
      OutsideCloser(s, t, s');
    }
    NotWaiting(s', t);
  }

  lemma OutsideStep(s: State, t: nat, ch: Choice)
    requires Formed(s) && Enabled(s, t, ch) && Outside(s.tx[t].pc) && !Returned(s.tx[t])
    ensures var y := Step(s, t, ch).tx;
            t < |y| && Outside(y[t].pc) && (Returned(y[t]) || RestRank(y[t]) < RestRank(s.tx[t]))
  {
    hide Formed, Enabled, RestRank, Step;
    EnabledThread(s, t, ch);
    match s.tx[t].pc
    case LockVersion(_) => VersionCloser(s, t, ch);
    case ExtendClock(_) => ExtendCloser(s, t, ch);
    case Extending(_, _, _) => ExtendCloser(s, t, ch);
    case LockReads(_) => StampCloser(s, t, ch);
    case TakeTs => StampCloser(s, t, ch);
    case TakeTsGV4(_) => StampCloser(s, t, ch);
    case Validating(_, _) => ValidateCloser(s, t, ch);
    case ValidatingLocked(_, _) => ValidateCloser(s, t, ch);
    case Dropping(_) => DropCloser(s, t, ch);
    case RestoreReads(_) => DropCloser(s, t, ch);
    case WriteBack(_, _, _) => WriteCloser(s, t, ch);
    case ReleaseWrite(_, _, _) => WriteCloser(s, t, ch);
    case _ => StartCloser(s, t, ch);
  }

  /** A thread that waits for nobody finishes its call by its own steps. */
  lemma {:induction false} FinishAlone(s: State, t: nat) returns (run: seq<Event>, s': State)
    requires Inv(s) && t < |s.tx| && !Waits(s, t)
    ensures Leads(s, run, s') && (forall e :: e in run ==> e.t == t)
    ensures t < |s'.tx| && Returned(s'.tx[t])
    decreases if Returned(s.tx[t]) then 0 else 1, Rank(s, t)
  {
    hide Inv, Enabled, Step, Waits, Sized, TxOk, Rank;
    InvSized(s);
    run, s' := [], s;
    if !Returned(s.tx[t]) {
      var ch := CanStep(s, t);
      SoloStep(s, t, ch);
      var rest: seq<Event>;
      rest, s' := FinishAlone(Step(s, t, ch), t);
      run := [Event(t, ch)] + rest;
      assert run[1..] == rest;
    }
  }

  /** No deadlock, no livelock of the locks: in every reachable state every thread is, or waits through
      a chain of others for, a thread that can finish its call by its own steps. */
  lemma Progress(m: Memory, s: State, t: nat) returns (p: seq<nat>, run: seq<Event>, s': State)
    requires Reachable(m, s) && Formed(s) && t < |s.tx|
    ensures Path(s, p) && p[0] == t && !Waits(s, p[|p| - 1])
    ensures Leads(s, run, s') && forall e :: e in run ==> e.t == p[|p| - 1]
    ensures p[|p| - 1] < |s'.tx| && Returned(s'.tx[p[|p| - 1]])
  {
    hide Reachable, Inv, Waits;
    ReachableInv(m, s);
    ReachableGreedy(m, s);
    p := WaitsEnd(s, t);
    run, s' := FinishAlone(s, p[|p| - 1]);
  }
}
