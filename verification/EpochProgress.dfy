/** What is given back, and when: observed timestamps, the scan, and FreeDominated alone. */
module EpochProgress {
  import opened Reclaim
  import opened Epoch

  // ---------- observing the snapshot ----------

  /** History of one thread, read off a run: its starts since it registered, and the snapshot of every 20th. */
  datatype Seen = Seen(starts: nat, observed: nat)

  function Next(s: State, e: Event, t: nat, h: Seen): Seen
    requires Enabled(s, e)
  {
    match e
    case Register(u) => if u == t then Seen(0, 0) else h
    case Observe(u) =>
      if u != t then h
      else
        var before := if s.thread[t].validTs > 0 then s.thread[t].validTs - 1 else 0;
        Seen(h.starts + 1, if (h.starts + 1) % UPDATE_LOCAL_LAST_OBSERVED_TS_FREQUENCY == 0 then before else h.observed)
    case _ => h
  }

  function SeenOf(s: State, run: seq<Event>, t: nat, h: Seen): Seen
    decreases |run|
  {
    if run == [] || !Enabled(s, run[0]) then h else SeenOf(Step(s, run[0]), run[1..], t, Next(s, run[0], t, h))
  }

  /** start_count counts modulo 20, and last_observed_ts is the last 20th snapshot. */
  predicate Agrees(x: Thread, h: Seen)
  {
    x.startCount == h.starts % UPDATE_LOCAL_LAST_OBSERVED_TS_FREQUENCY && x.lastObserved == h.observed
  }

  lemma StepAgrees(s: State, e: Event, t: nat, h: Seen)
    requires Enabled(s, e) && t < |s.thread| && Agrees(s.thread[t], h)
    ensures t < |Step(s, e).thread| && Agrees(Step(s, e).thread[t], Next(s, e, t, h))
  {
    hide TxFree, TxCommit, TxAbort, FreeDominated;
  }

  lemma {:induction false} RunAgrees(s: State, run: seq<Event>, s': State, t: nat, h: Seen)
    requires Leads(s, run, s') && t < |s.thread| && Agrees(s.thread[t], h)
    ensures t < |s'.thread| && Agrees(s'.thread[t], SeenOf(s, run, t, h))
    decreases |run|
  {
    hide Agrees, Next, Step, Enabled;
    if run != [] {
      StepAgrees(s, run[0], t, h);
      RunAgrees(Step(s, run[0]), run[1..], s', t, Next(s, run[0], t, h));
    }
  }

  /** UpdateLastObservedTs: in every run, last_observed_ts is one less than the valid_ts with which the thread's last
      start that is a multiple of 20 began; until then it is 0. */
  lemma EveryTwentiethStart(size: nat, threads: nat, run: seq<Event>, s: State, t: nat)
    requires Leads(Init(size, threads), run, s) && t < threads
    ensures t < |s.thread| && s.thread[t].lastObserved == SeenOf(Init(size, threads), run, t, Seen(0, 0)).observed
    ensures s.thread[t].startCount == SeenOf(Init(size, threads), run, t, Seen(0, 0)).starts % UPDATE_LOCAL_LAST_OBSERVED_TS_FREQUENCY
  {
    RunAgrees(Init(size, threads), run, s, t, Seen(0, 0));
  }

  // ---------- the scan ----------

  /** The least last_observed_ts of the registered threads among the first n. */
  ghost predicate IsLeast(s: State, n: nat, m: nat)
  {
    && (exists u :: 0 <= u < n && u < |s.thread| && s.thread[u].registered && s.thread[u].lastObserved == m)
    && forall u :: 0 <= u < n && u < |s.thread| && s.thread[u].registered ==> m <= s.thread[u].lastObserved
  }

  /** n steps of FreeDominated by thread t, and by nobody else. */
  predicate Steps(s: State, t: nat, n: nat, s': State)
    decreases n
  {
    if n == 0 then s' == s else Enabled(s, Reclaims(t)) && Steps(StepReclaims(s, t), t, n - 1, s')
  }

  lemma OneStep(s: State, t: nat)
    requires Enabled(s, Reclaims(t))
    ensures Steps(s, t, 1, StepReclaims(s, t))
  {
    hide StepReclaims;
    assert Steps(StepReclaims(s, t), t, 0, StepReclaims(s, t));
  }

  lemma LeastSame(s: State, s': State, n: nat, m: nat)
    requires IsLeast(s, n, m) && |s'.thread| == |s.thread|
    requires forall u :: 0 <= u < |s.thread| ==>
      s'.thread[u].registered == s.thread[u].registered && s'.thread[u].lastObserved == s.thread[u].lastObserved
    ensures IsLeast(s', n, m)
  {
    var u :| 0 <= u < n && u < |s.thread| && s.thread[u].registered && s.thread[u].lastObserved == m;
    assert s'.thread[u].registered;
  }

  lemma LeastMore(s: State, n: nat, m: nat)
    requires IsLeast(s, n, m) && n < |s.thread|
    ensures var seen := s.thread[n].lastObserved;
            IsLeast(s, n + 1, if s.thread[n].registered && seen < m then seen else m)
  {
    var u :| 0 <= u < n && u < |s.thread| && s.thread[u].registered && s.thread[u].lastObserved == m;
    assert s.thread[u].registered && s.thread[u].lastObserved == m && u < n + 1;
  }

  /** Where a scan by thread t ends. */
  function Scanned(s: State, t: nat, least: nat): State
    requires t < |s.thread|
  {
    Put(s, t, s.thread[t].(pc := Compare(least))).(minimum := least, locked := false)
  }

  lemma {:induction false} ScanRest(s: State, t: nat, i: nat, m: nat) returns (n: nat, least: nat)
    requires t < |s.thread| && s.thread[t].pc == Scanning(i, m) && i <= |s.thread| && IsLeast(s, i, m)
    ensures IsLeast(s, |s.thread|, least) && Steps(s, t, n, Scanned(s, t, least))
    decreases |s.thread| - i
  {
    hide Steps, IsLeast;
    var s1 := StepReclaims(s, t);
    if i == |s.thread| {
      n, least := 1, m;
      OneStep(s, t);
    } else {
      LeastMore(s, i, m);
      LeastSame(s, s1, i + 1, s1.thread[t].pc.minimum);
      n, least := ScanRest(s1, t, i + 1, s1.thread[t].pc.minimum);
      LeastSame(s1, s, |s.thread|, least);
      assert Scanned(s1, t, least) == Scanned(s, t, least);
      StepsFirst(s, t, n, Scanned(s, t, least));
      n := n + 1;
    }
  }

  lemma StepsFirst(s: State, t: nat, n: nat, s': State)
    requires Enabled(s, Reclaims(t)) && Steps(StepReclaims(s, t), t, n, s')
    ensures Steps(s, t, n + 1, s')
  {
  }

  /** UpdateMinimumObservedTs, run alone with the lock free: the minimum it publishes is a lower bound of the
      last_observed_ts of all registered threads, and that of one of them. */
  lemma ScanAlone(s: State, t: nat) returns (n: nat, least: nat)
    requires t < |s.thread| && s.thread[t].pc.TryLock? && !s.locked && s.thread[0].registered
    ensures IsLeast(s, |s.thread|, least) && Steps(s, t, n, Scanned(s, t, least))
  {
    hide Steps;
    var s1 := StepReclaims(s, t);
    assert s1.thread[0].registered && s1.thread[0].lastObserved == s.thread[0].lastObserved;
    n, least := ScanRest(s1, t, 1, s.thread[0].lastObserved);
    LeastSame(s1, s, |s.thread|, least);
    assert Scanned(s1, t, least) == Scanned(s, t, least);
    StepsFirst(s, t, n, Scanned(s, t, least));
    n := n + 1;
  }

  // ---------- FreeDominated ----------

  /** Every set timestamp left in freed_logically is later than the minimum that was last used, and so is every
      snapshot to come. */
  ghost predicate Drained(s: State, x: Thread)
  {
    && x.manager.lastMinimum < s.clock && (Live(x) ==> x.manager.lastMinimum < x.validTs)
    && Later(x.manager.logically, x.manager.lastMinimum)
  }

  ghost predicate Later(bs: seq<Buffer>, m: nat)
  {
    forall j :: 0 <= j < |bs| && bs[j].initTs ==> bs[j].ts > m
  }

  ghost predicate AllDrained(s: State)
  {
    forall t :: 0 <= t < |s.thread| ==> Drained(s, s.thread[t])
  }

  lemma CommitLater(m: Manager, size: nat, ts: nat)
    requires Shaped(m, size) && Later(m.logically, m.lastMinimum) && m.lastMinimum < ts
    ensures Later(TxCommit(m, ts).logically, m.lastMinimum) && TxCommit(m, ts).lastMinimum == m.lastMinimum
  {
    hide StampedAll;
    var bs := StampedAll(m.freed, ts);
    forall i | 0 <= i < |bs| ensures !bs[i].initTs { StampedAt(m.freed, ts, i); }
  }

  lemma StepDrained(s: State, e: Event)
    requires EpochInv(s) && Enabled(s, e) && AllDrained(s)
    ensures AllDrained(Step(s, e))
  {
    hide Drained, ThreadOk, Safe, Step, Enabled;
    StepCount(s, e);
    forall u | 0 <= u < |s.thread|
      ensures Drained(Step(s, e), Step(s, e).thread[u])
    {
      DrainedThread(s, e, u);
    }
  }

  lemma StepCount(s: State, e: Event)
    requires Enabled(s, e)
    ensures |Step(s, e).thread| == |s.thread|
  {
    hide TxFree, TxCommit, TxAbort, FreeDominated;
  }

  lemma DrainedThread(s: State, e: Event, u: nat)
    requires Enabled(s, e) && u < |s.thread| && Drained(s, s.thread[u]) && ThreadOk(s, s.thread[u]) && 1 <= s.clock
    ensures |Step(s, e).thread| == |s.thread| && Drained(Step(s, e), Step(s, e).thread[u])
  {
    hide Shaped, Ordered, TxFree, TxAbort, TxCommit, FreeDominated, Safe, Later;
    var m := s.thread[u].manager;
    if e.TxFrees? { SameLogically(m, s.size, e.p); }
    SameLogically(m, s.size, 0);
    if e.Commits? && e.t == u { CommitLater(m, s.size, e.ts); }
    if e.Reclaims? && e.t == u && s.thread[u].pc.Give? {
      SafeClock(s, s.thread[u].pc.minimum, |s.thread|);
      FreesDominated(m, s.thread[u].pc.minimum);
    }
    assert Later([], 0) by { NoneLater(); }
  }

  lemma NoneLater()
    ensures Later([], 0)
  {
  }

  lemma SameLogically(m: Manager, size: nat, p: nat)
    ensures TxFree(m, size, p).logically == m.logically && TxFree(m, size, p).lastMinimum == m.lastMinimum
    ensures TxAbort(m).logically == m.logically && TxAbort(m).lastMinimum == m.lastMinimum
  {
  }

  lemma SafeClock(s: State, m: nat, n: nat)
    requires Safe(s, m, n)
    ensures m < s.clock
  {
  }

  lemma {:induction false} RunDrained(s: State, run: seq<Event>, s': State)
    requires EpochInv(s) && AllDrained(s) && Leads(s, run, s')
    ensures AllDrained(s')
    decreases |run|
  {
    hide EpochInv, AllDrained, Step, Enabled;
    if run != [] {
      EpochStep(s, run[0]);
      StepDrained(s, run[0]);
      RunDrained(Step(s, run[0]), run[1..], s');
    }
  }

  lemma ReachableDrained(s: State)
    requires Reachable(s)
    ensures AllDrained(s)
  {
    var size: nat, threads: nat, run :| 1 <= size && Leads(Init(size, threads), run, s);
    NewManager(size);
    assert EpochInv(Init(size, threads)) && AllDrained(Init(size, threads));
    RunDrained(Init(size, threads), run, s);
  }

  /** The minimum that a call of FreeDominated uses: the published one if it has moved, otherwise a new one. */
  function Used(s: State, t: nat, least: nat): nat
    requires t < |s.thread|
  {
    if s.thread[t].manager.lastMinimum == s.minimum then least else s.minimum
  }

  /** What a call of FreeDominated leaves: the buffers before the first dominated one; all others are given back. */
  ghost predicate Freed(m: Manager, used: nat, m': Manager)
  {
    var k := |m'.logically|;
    && k <= |m.logically| && m'.logically == m.logically[..k]
    && m'.physical == m.physical + Entries(m.logically[k..]) && m'.freed == m.freed && m'.lastMinimum == used
    && Later(m'.logically, used)
    && (k < |m.logically| ==> m.logically[k].initTs && m.logically[k].ts <= used)
  }

  lemma FreesDominated(m: Manager, used: nat)
    ensures Freed(m, used, FreeDominated(m, used))
  {
  }

  lemma FreesNothing(m: Manager)
    requires Later(m.logically, m.lastMinimum)
    ensures Freed(m, m.lastMinimum, m)
  {
    assert Entries(m.logically[|m.logically|..]) == [];
  }

  /** FreeDominated, run alone with the lock free: nothing that is dominated by the minimum it uses is left in
      freed_logically, and exactly that is given back. */
  lemma ReclaimAlone(s: State, t: nat) returns (n: nat, least: nat, s': State)
    requires Reachable(s) && t < |s.thread| && s.thread[t].pc.LoadMinimum? && !s.locked && s.thread[0].registered
    ensures IsLeast(s, |s.thread|, least) && Steps(s, t, n, s')
    ensures |s'.thread| == |s.thread| && s'.thread[t].pc.Outside?
    ensures s' == Put(s, t, s'.thread[t]).(minimum := Used(s, t, least))
    ensures Freed(s.thread[t].manager, Used(s, t, least), s'.thread[t].manager)
  {
    hide Reachable, Steps, Freed;
    ReachableDrained(s);
    n, least, s' := ReclaimRuns(s, t);
  }

  lemma ReclaimRuns(s: State, t: nat) returns (n: nat, least: nat, s': State)
    requires AllDrained(s) && t < |s.thread| && s.thread[t].pc.LoadMinimum? && !s.locked && s.thread[0].registered
    ensures IsLeast(s, |s.thread|, least) && Steps(s, t, n, s')
    ensures |s'.thread| == |s.thread| && s'.thread[t] == s.thread[t].(pc := Outside, manager := s'.thread[t].manager)
    ensures s' == Put(s, t, s'.thread[t]).(minimum := Used(s, t, least))
    ensures Freed(s.thread[t].manager, Used(s, t, least), s'.thread[t].manager)
  {
    hide Steps, FreeDominated, Freed;
    var m := s.thread[t].manager;
    assert Drained(s, s.thread[t]);
    var s1 := StepReclaims(s, t);
    if m.lastMinimum != s.minimum {
      least := LeastExists(s, |s.thread|);
      s' := StepReclaims(s1, t);
      OneStep(s1, t);
      StepsFirst(s, t, 1, s');
      n := 2;
      FreesDominated(m, s.minimum);
    } else {
      n, least := ScanAlone(s1, t);
      LeastSame(s1, s, |s.thread|, least);
      StepsFirst(s, t, n, Scanned(s1, t, least));
      n, s' := CompareAlone(s, t, n + 1, Scanned(s1, t, least));
      if least == m.lastMinimum { FreesNothing(m); } else { FreesDominated(m, least); }
    }
  }

  lemma {:induction false} StepsMore(s: State, t: nat, n: nat, s1: State)
    requires Steps(s, t, n, s1) && Enabled(s1, Reclaims(t))
    ensures Steps(s, t, n + 1, StepReclaims(s1, t))
    decreases n
  {
    hide StepReclaims;
    if n == 0 { OneStep(s1, t); } else { StepsMore(StepReclaims(s, t), t, n - 1, s1); }
  }

  /** After the scan: nothing is done if the minimum is the one used last. */
  lemma CompareAlone(s0: State, t: nat, n0: nat, s: State) returns (n: nat, s': State)
    requires Steps(s0, t, n0, s) && t < |s.thread| && s.thread[t].pc.Compare?
    ensures Steps(s0, t, n, s')
    ensures var x, m := s.thread[t], s.thread[t].pc.minimum;
      s' == Put(s, t, x.(pc := Outside, manager := if x.manager.lastMinimum == m then x.manager else FreeDominated(x.manager, m)))
  {
    hide Steps, FreeDominated;
    StepsMore(s0, t, n0, s);
    n, s' := n0 + 1, StepReclaims(s, t);
    if s'.thread[t].pc.Give? {
      StepsMore(s0, t, n, s');
      n, s' := n + 1, StepReclaims(s', t);
    }
  }

  lemma {:induction false} LeastExists(s: State, n: nat) returns (m: nat)
    requires 1 <= n <= |s.thread| && s.thread[0].registered
    ensures IsLeast(s, n, m)
  {
    hide IsLeast;
    if n == 1 {
      m := s.thread[0].lastObserved;
      LeastOne(s);
    } else {
      m := LeastExists(s, n - 1);
      LeastMore(s, n - 1, m);
      m := if s.thread[n - 1].registered && s.thread[n - 1].lastObserved < m then s.thread[n - 1].lastObserved else m;
    }
  }

  lemma LeastOne(s: State)
    requires s.thread != [] && s.thread[0].registered
    ensures IsLeast(s, 1, s.thread[0].lastObserved)
  {
    assert s.thread[0].registered && s.thread[0].lastObserved == s.thread[0].lastObserved;
  }

  /** A buffer whose timestamp is at most every registered thread's last_observed_ts is left behind exactly when an
      older minimum had been published by another thread, and the timestamp is later than that. */
  lemma LeftBehind(s: State, t: nat, m': Manager, least: nat)
    requires Reachable(s) && t < |s.thread| && IsLeast(s, |s.thread|, least)
    requires Freed(s.thread[t].manager, Used(s, t, least), m')
    ensures Later(m'.logically, least) <==>
      || s.thread[t].manager.lastMinimum == s.minimum
      || forall j :: 0 <= j < |s.thread[t].manager.logically| && s.thread[t].manager.logically[j].initTs ==>
           s.thread[t].manager.logically[j].ts <= s.minimum || s.thread[t].manager.logically[j].ts > least
  {
    SortedByTimestamp(s, t);
    hide Reachable, Shaped, IsLeast, UpTo, Entries;
    var m := s.thread[t].manager;
    var k := |m'.logically|;
    assert forall j :: 0 <= j < k ==> m'.logically[j] == m.logically[j];
  }

  /** Such a state: 2 has been published, this thread last used 0, and it has observed 5; a buffer of date 3 stays. */
  const OLD := Manager([CLEAN], [Buffer([Entry(7, 3)], 0, 3, true)], 0, [])
  const BEHIND := State(1, 10, 2, false, [Thread(true, LoadMinimum, 6, 5, 0, OLD, 3)])

  lemma StaleMinimum()
    ensures IsLeast(BEHIND, 1, 5) && Used(BEHIND, 0, 5) == 2
    ensures FreeDominated(OLD, Used(BEHIND, 0, 5)).logically == OLD.logically && OLD.logically[0].ts <= 5
  {
    assert BEHIND.thread[0].registered && BEHIND.thread[0].lastObserved == 5;
    assert FirstDominated(OLD.logically, 2) == 1;
  }

  // ---------- every freed pointer can be given back ----------

  /** The lock is held by a thread that scans. */
  ghost predicate LockHeld(s: State)
  {
    s.locked ==> exists u :: 0 <= u < |s.thread| && s.thread[u].pc.Scanning?
  }

  lemma StepLock(s: State, e: Event)
    requires EpochInv(s) && Enabled(s, e) && LockHeld(s)
    ensures LockHeld(Step(s, e))
  {
    hide TxFree, TxCommit, TxAbort, FreeDominated, Shaped, Ordered, Safe;
    var s' := Step(s, e);
    if s'.locked {
      if s.locked {
        var u :| 0 <= u < |s.thread| && s.thread[u].pc.Scanning?;
        assert ThreadOk(s, s.thread[u]);
        assert s'.thread[u].pc.Scanning?;
      } else {
        assert s'.thread[e.t].pc.Scanning?;
      }
    }
  }

  /** Freed by a committed transaction, and in a full buffer or given back. */
  function Waiting(m: Manager): seq<Entry>
  {
    Entries(m.logically) + m.physical
  }

  /** What committed transactions have freed is not lost, and what has been given back stays so. */
  ghost predicate Kept(m: Manager, m': Manager)
  {
    && (forall e :: e in Committed(m) ==> e in Committed(m'))
    && (forall e :: e in m.physical ==> e in m'.physical)
  }

  lemma StepKept(s: State, e: Event, t: nat)
    requires Enabled(s, e) && t < |s.thread| && s.thread[t].registered && 1 <= s.size && Shaped(s.thread[t].manager, s.size)
    ensures t < |Step(s, e).thread| && Step(s, e).thread[t].registered
    ensures Kept(s.thread[t].manager, Step(s, e).thread[t].manager)
  {
    hide TxFree, TxCommit, TxAbort, FreeDominated, Kept, Shaped;
    var m := s.thread[t].manager;
    KeptSame(m);
    if e.TxFrees? { KeptFree(m, s.size, e.p); }
    if e.Aborts? { KeptAbort(m, s.size); }
    if e.Commits? { KeptCommit(m, s.size, e.ts); }
    if e.Reclaims? && s.thread[t].pc.Give? { KeptGiven(m, s.thread[t].pc.minimum); }
  }

  lemma KeptSame(m: Manager)
    ensures Kept(m, m)
  {
  }

  lemma KeptFree(m: Manager, size: nat, p: nat)
    requires Shaped(m, size) && 1 <= size
    ensures Kept(m, TxFree(m, size, p))
  {
    FreeFirst(m, size, p);
  }

  lemma KeptAbort(m: Manager, size: nat)
    requires Shaped(m, size)
    ensures Kept(m, TxAbort(m))
  {
    var r := m.freed[0].rollback;
    assert m.freed[0].ptrs[..r][..r] == m.freed[0].ptrs[..r];
  }

  /** A commit leaves what was freed before in place, or moves it to freed_logically; with a full buffer, all of it. */
  lemma KeptCommit(m: Manager, size: nat, ts: nat)
    requires Shaped(m, size)
    ensures Kept(m, TxCommit(m, ts))
    ensures |m.freed| > 1 ==>
      && (exists front :: TxCommit(m, ts).logically == front + m.logically)
      && forall e :: e in Committed(m) ==> e in Waiting(TxCommit(m, ts))
  {
    hide Stamped, Entries;
    var bs := StampedAll(m.freed, ts);
    StampedAt(m.freed, ts, 0);
    var r := m.freed[0].rollback;
    var p := bs[0].ptrs;
    assert p[..r] == m.freed[0].ptrs[..r];
    if |bs| > 1 {
      var front := [bs[0].(ts := ts, initTs := true)] + bs[1..|bs| - 1];
      assert TxCommit(m, ts).logically == front + m.logically;
      EntriesSum(front, m.logically);
      EntriesSum([bs[0].(ts := ts, initTs := true)], bs[1..|bs| - 1]);
      EntriesOne(bs[0].(ts := ts, initTs := true));
      assert forall e :: e in p[..r] ==> e in p;
    }
  }

  lemma KeptGiven(m: Manager, minimum: nat)
    ensures Kept(m, FreeDominated(m, minimum))
  {
    var i := FirstDominated(m.logically, minimum);
    EntriesSum(m.logically[..i], m.logically[i..]);
    assert m.logically[..i] + m.logically[i..] == m.logically;
  }

  /** A run from s0 to s, and what holds of every state. */
  ghost predicate Built(s0: State, run: seq<Event>, s: State, t: nat)
  {
    && Leads(s0, run, s) && EpochInv(s) && AllDrained(s) && LockHeld(s)
    && |s.thread| == |s0.thread| && t < |s.thread| && s.thread[t].registered
    && Kept(s0.thread[t].manager, s.thread[t].manager)
  }

  lemma {:induction false} LeadsMore(s0: State, run: seq<Event>, s: State, e: Event)
    requires Leads(s0, run, s) && Enabled(s, e)
    ensures Leads(s0, run + [e], Step(s, e))
    decreases |run|
  {
    hide Step, Enabled;
    if run == [] {
      assert (run + [e])[1..] == [];
    } else {
      LeadsMore(Step(s0, run[0]), run[1..], s, e);
      assert (run + [e])[1..] == run[1..] + [e];
    }
  }

  lemma Go(s0: State, run: seq<Event>, s: State, t: nat, e: Event) returns (run': seq<Event>, s': State)
    requires Built(s0, run, s, t) && Enabled(s, e)
    ensures s' == Step(s, e) && Built(s0, run', s', t)
  {
    hide EpochInv, AllDrained, LockHeld, Leads, Step, Enabled, Kept, Shaped;
    LeadsMore(s0, run, s, e);
    EpochStep(s, e);
    StepDrained(s, e);
    StepLock(s, e);
    BuiltCount(s0, run, s, t);
    StepKept(s, e, t);
    KeptOn(s0.thread[t].manager, s.thread[t].manager, Step(s, e).thread[t].manager);
    run', s' := run + [e], Step(s, e);
    StepCount(s, e);
  }

  lemma KeptOn(a: Manager, b: Manager, c: Manager)
    requires Kept(a, b) && Kept(b, c)
    ensures Kept(a, c)
  {
  }

  // bringing all threads out of their transactions and reclamations

  /** Threads before n are outside. */
  ghost predicate Quiet(s: State, n: nat)
  {
    forall u :: 0 <= u < n && u < |s.thread| ==> s.thread[u].pc.Outside?
  }

  function Rest(s: State, pc: Pc): nat
  {
    match pc
    case Outside => 0
    case Give(_) => 1
    case Compare(_) => 2
    case Scanning(i, _) => if i <= |s.thread| then |s.thread| - i + 3 else 3
    case TryLock => |s.thread| + 4
    case LoadMinimum => |s.thread| + 5
    case Executing => 1
    case Starting => 2
  }

  lemma {:induction false} Finish(s0: State, run0: seq<Event>, s: State, t: nat, u: nat) returns (run: seq<Event>, s': State)
    requires Built(s0, run0, s, t) && u < |s.thread| && Quiet(s, u)
    ensures Built(s0, run, s', t) && Quiet(s', u + 1)
    decreases Rest(s, s.thread[u].pc)
  {
    hide Built, FreeDominated, TxAbort;
    BuiltCount(s0, run0, s, t);
    run, s' := run0, s;
    var pc := s.thread[u].pc;
    if !pc.Outside? {
      var e := if pc.Starting? then Observe(u) else if pc.Executing? then Aborts(u) else Reclaims(u);
      run, s' := Go(s0, run0, s, t, e);
      run, s' := Finish(s0, run, s', t, u);
    }
  }

  lemma BuiltCount(s0: State, run: seq<Event>, s: State, t: nat)
    requires Built(s0, run, s, t)
    ensures |s.thread| == |s0.thread| && t < |s.thread| && s.thread[t].registered && 1 <= s.size && 1 <= s.clock
    ensures forall u :: 0 <= u < |s.thread| && s.thread[u].pc.Scanning? ==> 1 <= s.thread[u].pc.i
    ensures Quiet(s, |s.thread|) ==> !s.locked
    ensures Shaped(s.thread[t].manager, s.size)
  {
    hide Leads, Shaped, Ordered, AllDrained;
    assert ThreadOk(s, s.thread[t]);
    forall u | 0 <= u < |s.thread| && s.thread[u].pc.Scanning? ensures 1 <= s.thread[u].pc.i { assert ThreadOk(s, s.thread[u]); }
  }

  lemma {:induction false} FinishAll(s0: State, run0: seq<Event>, s: State, t: nat, u: nat) returns (run: seq<Event>, s': State)
    requires Built(s0, run0, s, t) && u <= |s.thread| && Quiet(s, u)
    ensures Built(s0, run, s', t) && Quiet(s', |s'.thread|)
    decreases |s0.thread| - u
  {
    hide Built, Quiet;
    BuiltCount(s0, run0, s, t);
    run, s' := run0, s;
    if u < |s.thread| {
      run, s' := Finish(s0, run, s, t, u);
      BuiltCount(s0, run, s', t);
      run, s' := FinishAll(s0, run, s', t, u + 1);
    }
  }

  // every registered thread starts until it has observed the clock

  /** Nothing but the transactions of u, which freed nothing, between s and s'. */
  ghost predicate OnlyObserved(s: State, s': State, u: nat)
  {
    && s'.size == s.size && s'.clock == s.clock && s'.minimum == s.minimum && s'.locked == s.locked && |s'.thread| == |s.thread|
    && (forall w :: 0 <= w < |s.thread| && w != u ==> s'.thread[w] == s.thread[w])
    && (u < |s.thread| ==>
          && s'.thread[u].registered == s.thread[u].registered
          && SameFreed(s.thread[u].manager, s'.thread[u].manager))
  }

  predicate SameFreed(m: Manager, m': Manager)
  {
    m'.logically == m.logically && m'.physical == m.physical && m'.lastMinimum == m.lastMinimum
  }

  lemma {:induction false} ObserveOne(s0: State, run0: seq<Event>, s: State, t: nat, u: nat) returns (run: seq<Event>, s': State)
    requires Built(s0, run0, s, t) && Quiet(s, |s.thread|) && u < |s.thread| && s.thread[u].registered
    ensures Built(s0, run, s', t) && Quiet(s', |s'.thread|) && OnlyObserved(s, s', u) && s'.thread[u].lastObserved + 1 == s.clock
    decreases if s.thread[u].startCount < 20 then 20 - s.thread[u].startCount else 0
  {
    hide Built;
    BuiltCount(s0, run0, s, t);
    run, s' := Go(s0, run0, s, t, Begin(u));
    run, s' := Go(s0, run, s', t, Observe(u));
    run, s' := Go(s0, run, s', t, Aborts(u));
    if s.thread[u].startCount + 1 < UPDATE_LOCAL_LAST_OBSERVED_TS_FREQUENCY {
      run, s' := ObserveOne(s0, run, s', t, u);
    }
  }

  /** Registered threads before n have observed the clock. */
  ghost predicate Observing(s: State, n: nat)
  {
    forall u :: 0 <= u < n && u < |s.thread| && s.thread[u].registered ==> s.thread[u].lastObserved + 1 == s.clock
  }

  lemma {:induction false} ObserveAll(s0: State, run0: seq<Event>, s: State, t: nat, n: nat) returns (run: seq<Event>, s': State)
    requires Built(s0, run0, s, t) && Quiet(s, |s.thread|) && n <= |s.thread| && Observing(s, n)
    ensures Built(s0, run, s', t) && Quiet(s', |s'.thread|) && Observing(s', |s'.thread|)
    ensures |s'.thread| == |s.thread| && s'.clock == s.clock && s'.minimum == s.minimum
    ensures forall u :: 0 <= u < |s.thread| ==> s'.thread[u].registered == s.thread[u].registered
    ensures t < |s.thread| && SameFreed(s.thread[t].manager, s'.thread[t].manager)
    decreases |s.thread| - n
  {
    hide Built, Quiet;
    BuiltCount(s0, run0, s, t);
    run, s' := run0, s;
    if n < |s.thread| {
      if s.thread[n].registered { run, s' := ObserveOne(s0, run, s, t, n); }
      run, s' := ObserveAll(s0, run, s', t, n + 1);
    }
  }

  // thread t fills a buffer, commits, and goes on to FreeDominated

  lemma {:induction false} Fill(s0: State, run0: seq<Event>, s: State, t: nat) returns (run: seq<Event>, s': State)
    requires Built(s0, run0, s, t) && t < |s.thread| && s.thread[t].pc.Executing?
    ensures Built(s0, run, s', t) && OnlyObserved(s, s', t)
    ensures s'.thread[t] == s.thread[t].(manager := s'.thread[t].manager) && |s'.thread[t].manager.freed| > 1
    ensures forall e :: e in Committed(s.thread[t].manager) ==> e in Committed(s'.thread[t].manager)
    decreases if |s.thread[t].manager.freed| > 1 then 0 else s.size - |LastBuffer(s.thread[t].manager.freed).ptrs|
  {
    hide Built, Committed;
    BuiltCount(s0, run0, s, t);
    run, s' := run0, s;
    var m := s.thread[t].manager;
    if |m.freed| == 1 {
      KeptFree(m, s.size, 0);
      run, s' := Go(s0, run0, s, t, TxFrees(t, 0));
      run, s' := Fill(s0, run, s', t);
    }
  }

  lemma {:induction false} StepsBuilt(s0: State, run0: seq<Event>, s: State, t: nat, n: nat, s': State) returns (run: seq<Event>)
    requires Built(s0, run0, s, t) && Steps(s, t, n, s')
    ensures Built(s0, run, s', t)
    decreases n
  {
    hide Built, StepReclaims;
    run := run0;
    if n > 0 {
      var s1;
      run, s1 := Go(s0, run0, s, t, Reclaims(t));
      run := StepsBuilt(s0, run, s1, t, n - 1, s');
    }
  }

  /** Between transactions, with the lock free and thread 0 registered. */
  ghost predicate AtRest(s: State)
  {
    Quiet(s, |s.thread|) && s.thread != [] && s.thread[0].registered && !s.locked
  }

  /** What a round leaves: m is the manager before it, and mB the one after its commit. */
  ghost predicate Rounded(s: State, s': State, t: nat, least: nat, mB: Manager)
    requires t < |s.thread|
  {
    var m := s.thread[t].manager;
    && |s'.thread| == |s.thread| && s'.clock == s.clock
    && s'.minimum == (if m.lastMinimum == s.minimum then least else s.minimum)
    && (exists front :: mB.logically == front + m.logically) && mB.physical == m.physical
    && Freed(mB, s'.minimum, s'.thread[t].manager)
    && (forall e :: e in Committed(m) ==> e in Waiting(s'.thread[t].manager))
    && IsLeast(s', |s'.thread|, least)
    && (Observing(s, |s.thread|) ==> Observing(s', |s'.thread|))
  }

  lemma CommitRound(s0: State, run0: seq<Event>, s: State, t: nat) returns (run: seq<Event>, s': State)
    requires Built(s0, run0, s, t) && AtRest(s) && t < |s.thread|
    ensures Built(s0, run, s', t) && |s'.thread| == |s.thread| && s'.clock == s.clock && s'.minimum == s.minimum
    ensures s'.thread[t].pc.LoadMinimum? && !s'.locked && s'.thread[0].registered
    ensures forall u :: 0 <= u < |s.thread| && u != t ==> s'.thread[u] == s.thread[u]
    ensures Observing(s, |s.thread|) ==> Observing(s', |s'.thread|)
    ensures var m, mB := s.thread[t].manager, s'.thread[t].manager;
      && mB.lastMinimum == m.lastMinimum && mB.physical == m.physical && (exists front :: mB.logically == front + m.logically)
      && forall e :: e in Committed(m) ==> e in Waiting(mB)
  {
    hide Built, Committed, Waiting, TxCommit;
    BuiltCount(s0, run0, s, t);
    var s1, s2;
    run, s1 := Go(s0, run0, s, t, Begin(t));
    run, s1 := Go(s0, run, s1, t, Observe(t));
    run, s2 := Fill(s0, run, s1, t);
    BuiltCount(s0, run, s2, t);
    KeptCommit(s2.thread[t].manager, s2.size, s2.clock);
    SameMinimum(s2.thread[t].manager, s2.clock);
    run, s' := Go(s0, run, s2, t, Commits(t, s2.clock));
  }

  lemma SameMinimum(m: Manager, ts: nat)
    ensures TxCommit(m, ts).lastMinimum == m.lastMinimum && TxCommit(m, ts).physical == m.physical
  {
  }

  lemma Round(s0: State, run0: seq<Event>, s: State, t: nat) returns (run: seq<Event>, s': State, least: nat, mB: Manager)
    requires Built(s0, run0, s, t) && AtRest(s) && t < |s.thread|
    ensures Built(s0, run, s', t) && AtRest(s') && Rounded(s, s', t, least, mB)
  {
    hide Built, Committed, Waiting, Freed, Steps, IsLeast;
    var s1;
    run, s1 := CommitRound(s0, run0, s, t);
    mB := s1.thread[t].manager;
    assert AllDrained(s1) by { BuiltDrained(s0, run, s1, t); }
    var n;
    n, least, s' := ReclaimRuns(s1, t);
    run := StepsBuilt(s0, run, s1, t, n, s');
    LeastSame(s1, s', |s'.thread|, least);
    StillWaiting(mB, s'.minimum, s'.thread[t].manager);
  }

  lemma BuiltDrained(s0: State, run: seq<Event>, s: State, t: nat)
    requires Built(s0, run, s, t)
    ensures AllDrained(s)
  {
  }

  lemma StillWaiting(m: Manager, used: nat, m': Manager)
    requires Freed(m, used, m')
    ensures forall e :: e in Waiting(m) ==> e in Waiting(m')
  {
    var k := |m'.logically|;
    EntriesSum(m.logically[..k], m.logically[k..]);
    assert m.logically[..k] + m.logically[k..] == m.logically;
  }

  /** What lies behind a dominated buffer is given back. */
  lemma AllGiven(m: Manager, front: seq<Buffer>, mB: Manager, used: nat, m': Manager)
    requires mB.logically == front + m.logically && Freed(mB, used, m')
    requires m.logically != [] ==> m.logically[0].initTs && m.logically[0].ts <= used
    ensures forall e :: e in Entries(m.logically) ==> e in m'.physical
  {
    if m.logically != [] {
      var k := |m'.logically|;
      assert mB.logically[|front|] == m.logically[0];
      assert forall j :: 0 <= j < k ==> m'.logically[j] == mB.logically[j];
      EntriesSum(front[k..], m.logically);
      assert mB.logically[k..] == front[k..] + m.logically;
    }
  }

  /** The dates of thread t's full buffers are at most the clock, and the first is dated. */
  lemma Dated(s0: State, run: seq<Event>, s: State, t: nat)
    requires Built(s0, run, s, t)
    ensures t < |s.thread|
    ensures var L := s.thread[t].manager.logically; L != [] ==> L[0].initTs && L[0].ts <= s.clock
  {
    hide Leads, AllDrained, Kept;
    assert ThreadOk(s, s.thread[t]);
  }

  lemma LeastIs(s: State, least: nat)
    requires IsLeast(s, |s.thread|, least) && Observing(s, |s.thread|)
    ensures least + 1 == s.clock
  {
  }

  /** The second round, when all threads have observed a clock later than all dates. */
  lemma LastRound(s0: State, run0: seq<Event>, s: State, t: nat, c: nat) returns (run: seq<Event>, s': State)
    requires Built(s0, run0, s, t) && AtRest(s) && t < |s.thread| && Observing(s, |s.thread|) && c < s.clock
    requires var m := s.thread[t].manager;
      m.lastMinimum == s.minimum && (m.logically != [] ==> m.logically[0].initTs && m.logically[0].ts <= c)
    ensures Built(s0, run, s', t) && t < |s'.thread|
    ensures forall e :: e in Waiting(s.thread[t].manager) ==> e in s'.thread[t].manager.physical
  {
    hide Built, Freed, IsLeast, Committed, Entries, Observing;
    var m := s.thread[t].manager;
    var least, mB;
    run, s', least, mB := Round(s0, run0, s, t);
    LeastIs(s', least);
    var front :| mB.logically == front + m.logically;
    AllGiven(m, front, mB, s'.minimum, s'.thread[t].manager);
    GivenStays(mB, s'.minimum, s'.thread[t].manager);
  }

  lemma GivenStays(m: Manager, used: nat, m': Manager)
    requires Freed(m, used, m')
    ensures m'.lastMinimum == used && forall e :: e in m.physical ==> e in m'.physical
  {
  }

  lemma {:induction false} RunLock(s: State, run: seq<Event>, s': State)
    requires EpochInv(s) && LockHeld(s) && Leads(s, run, s')
    ensures LockHeld(s')
    decreases |run|
  {
    hide EpochInv, LockHeld, Step, Enabled;
    if run != [] {
      EpochStep(s, run[0]);
      StepLock(s, run[0]);
      RunLock(Step(s, run[0]), run[1..], s');
    }
  }

  lemma BuiltNow(s: State, t: nat)
    requires Reachable(s) && t < |s.thread| && s.thread[t].registered
    ensures Built(s, [], s, t)
  {
    ReachableOk(s);
    ReachableDrained(s);
    KeptSame(s.thread[t].manager);
    var size: nat, threads: nat, run :| 1 <= size && Leads(Init(size, threads), run, s);
    NewManager(size);
    assert EpochInv(Init(size, threads));
    RunLock(Init(size, threads), run, s);
  }

  /** From any reachable state the threads can come to rest, with thread 0 registered. */
  lemma Rest0(s: State, t: nat) returns (run: seq<Event>, s': State)
    requires Reachable(s) && t < |s.thread| && s.thread[t].registered
    ensures Built(s, run, s', t) && AtRest(s')
  {
    hide Reachable, Built, Quiet;
    BuiltNow(s, t);
    assert Quiet(s, 0) by { QuietNone(s); }
    run, s' := FinishAll(s, [], s, t, 0);
    BuiltCount(s, run, s', t);
    if !s'.thread[0].registered {
      var s1 := s';
      run, s' := Go(s, run, s', t, Register(0));
      QuietRegistered(s1);
      BuiltCount(s, run, s', t);
    }
  }

  lemma QuietNone(s: State)
    ensures Quiet(s, 0)
  {
  }

  lemma QuietRegistered(s: State)
    requires Enabled(s, Register(0)) && Quiet(s, |s.thread|)
    ensures Quiet(Step(s, Register(0)), |s.thread|)
  {
  }

  lemma ObservingNone(s: State)
    ensures Observing(s, 0)
  {
  }

  lemma BuiltKept(s0: State, run: seq<Event>, s: State, t: nat)
    requires Built(s0, run, s, t)
    ensures Leads(s0, run, s) && t < |s.thread| == |s0.thread|
    ensures forall e :: e in Committed(s0.thread[t].manager) ==> e in Committed(s.thread[t].manager)
  {
  }

  /** Whatever committed transactions have freed can be given back: from every reachable state there is a run, in which
      the threads start, commit and reclaim, that returns all of it to the allocator. */
  lemma CanBeGivenBack(s: State, t: nat) returns (run: seq<Event>, s': State)
    requires Reachable(s) && t < |s.thread| && s.thread[t].registered
    ensures Leads(s, run, s') && t < |s'.thread|
    ensures forall e :: e in Committed(s.thread[t].manager) ==> e in s'.thread[t].manager.physical
  {
    hide Reachable, Built, Committed, Entries, Observing, Quiet, IsLeast, Freed, Leads;
    var s1, s2, s3, least, mB;
    run, s1 := Rest0(s, t);
    BuiltKept(s, run, s1, t);
    run, s2, least, mB := Round(s, run, s1, t);
    Dated(s, run, s2, t);
    GivenStays(mB, s2.minimum, s2.thread[t].manager);
    run, s3 := Go(s, run, s2, t, Tick);
    QuietTick(s2);
    ObservingNone(s3);
    run, s3 := ObserveAll(s, run, s3, t, 0);
    BuiltCount(s, run, s3, t);
    run, s' := LastRound(s, run, s3, t, s2.clock);
    BuiltKept(s, run, s', t);
  }

  lemma QuietTick(s: State)
    requires Quiet(s, |s.thread|)
    ensures Quiet(Step(s, Tick), |s.thread|)
  {
  }
}
