/** The second phase of the contention manager: who has a greedy timestamp. */
module SwissGreedy {
  import opened Words
  import opened SwissState
  import opened SwissInvariant
  import opened SwissRuns

  /** In the first phase the stripes are counted and there is no greedy timestamp; in the second there is one, or it
      is about to be stored. */
  predicate CmOk(x: Tx, c: Cm)
  {
    && (x.pc.Idle? || x.pc.StartGreedy? || x.pc.StartFlag? ==> x.writeLog == [])
    && (x.pc.LockVersion? ==> x.writeLog != [])
    && (x.pc.CmStore? ==> x.pc.g != MINIMUM_TS)
    && (Live(x) && !x.pc.StartGreedy? ==>
          if c.greedyPhase then
            SettledWrites(x) > CM_ACCESS_THRESHOLD && !x.pc.CmTicket? && (x.pc.CmStore? <==> c.greedyTs == MINIMUM_TS)
          else
            && c.accessed == SettledWrites(x) && c.greedyTs == MINIMUM_TS && !x.pc.CmStore?
            && (x.pc.CmTicket? <==> c.accessed > CM_ACCESS_THRESHOLD))
  }

  ghost predicate AllCmOk(s: State)
  {
    |s.cm| == |s.tx| && forall t :: 0 <= t < |s.tx| ==> CmOk(s.tx[t], s.cm[t])
  }

  /** Other threads can set the abort flag, and nothing else. */
  ghost predicate CmStep(s: State, t: nat, s': State)
    requires t < |s.tx|
  {
    && |s'.tx| == |s.tx| && |s'.cm| == |s.cm|
    && (forall u :: 0 <= u < |s.tx| && u != t ==> s'.tx[u] == s.tx[u])
    && (forall u :: 0 <= u < |s.cm| && u != t ==> s'.cm[u] == s.cm[u] || s'.cm[u] == s.cm[u].(abortedExternally := true))
    && (t < |s.cm| ==> CmOk(s'.tx[t], s'.cm[t]))
  }

  lemma CmStepKeeps(s: State, t: nat, s': State)
    requires AllCmOk(s) && t < |s.tx| && CmStep(s, t, s')
    ensures AllCmOk(s')
  {
    forall u | 0 <= u < |s.tx|
      ensures CmOk(s'.tx[u], s'.cm[u])
    {
      assert CmOk(s.tx[u], s.cm[u]);
    }
  }

  lemma StartCm(s: State, t: nat, ch: Choice)
    requires Formed(s) && Enabled(s, t, ch) && CmOk(s.tx[t], s.cm[t])
    requires s.tx[t].pc.Idle? || s.tx[t].pc.StartGreedy? || s.tx[t].pc.StartFlag?
    ensures CmStep(s, t, Step(s, t, ch))
  {
  }

  lemma AskCm(s: State, t: nat, ch: Choice)
    requires Formed(s) && Enabled(s, t, ch) && CmOk(s.tx[t], s.cm[t])
    requires s.tx[t].pc.Running? && (ch.Read? || ch.Write?)
    ensures CmStep(s, t, Step(s, t, ch))
  {
    hide Insert;
  }

  lemma FinishCm(s: State, t: nat, ch: Choice)
    requires Formed(s) && Enabled(s, t, ch) && CmOk(s.tx[t], s.cm[t])
    requires s.tx[t].pc.Running? && !ch.Read? && !ch.Write?
    ensures CmStep(s, t, Step(s, t, ch))
  {
  }

  lemma ReadCm(s: State, t: nat, ch: Choice)
    requires Formed(s) && Enabled(s, t, ch) && CmOk(s.tx[t], s.cm[t])
    requires s.tx[t].pc.ReadOwn? || s.tx[t].pc.ReadVersion?
    ensures CmStep(s, t, Step(s, t, ch))
  {
    hide Through;
  }

  lemma AgainCm(s: State, t: nat, ch: Choice)
    requires Formed(s) && Enabled(s, t, ch) && CmOk(s.tx[t], s.cm[t])
    requires s.tx[t].pc.ReadValue? || s.tx[t].pc.ReadAgain?
    ensures CmStep(s, t, Step(s, t, ch))
  {
  }

  lemma ConflictCm(s: State, t: nat, ch: Choice)
    requires Formed(s) && Enabled(s, t, ch) && CmOk(s.tx[t], s.cm[t])
    requires s.tx[t].pc.Conflict? || s.tx[t].pc.ConflictOwner?
    ensures CmStep(s, t, Step(s, t, ch))
  {
  }

  lemma RankCm(s: State, t: nat, ch: Choice)
    requires Formed(s) && Enabled(s, t, ch) && CmOk(s.tx[t], s.cm[t])
    requires s.tx[t].pc.ConflictRank?
    ensures CmStep(s, t, Step(s, t, ch))
  {
  }

  lemma FlagCm(s: State, t: nat, ch: Choice)
    requires Formed(s) && Enabled(s, t, ch) && CmOk(s.tx[t], s.cm[t])
    requires s.tx[t].pc.ConflictFlag? || s.tx[t].pc.ConflictReload?
    ensures CmStep(s, t, Step(s, t, ch))
  {
  }

  lemma TryCm(s: State, t: nat, ch: Choice)
    requires Formed(s) && Enabled(s, t, ch) && CmOk(s.tx[t], s.cm[t])
    requires s.tx[t].pc.TryLock? || s.tx[t].pc.LockFailed?
    ensures CmStep(s, t, Step(s, t, ch))
  {
  }

  lemma LockCm(s: State, t: nat, ch: Choice)
    requires Formed(s) && Enabled(s, t, ch) && CmOk(s.tx[t], s.cm[t])
    requires s.tx[t].pc.LockVersion?
    ensures CmStep(s, t, Step(s, t, ch))
  {
    hide Insert;
  }

  lemma TicketCm(s: State, t: nat, ch: Choice)
    requires Formed(s) && Enabled(s, t, ch) && CmOk(s.tx[t], s.cm[t])
    requires s.tx[t].pc.CmTicket? || s.tx[t].pc.CmStore?
    ensures CmStep(s, t, Step(s, t, ch))
  {
  }

  lemma ExtendCm(s: State, t: nat, ch: Choice)
    requires Formed(s) && Enabled(s, t, ch) && CmOk(s.tx[t], s.cm[t])
    requires s.tx[t].pc.ExtendClock?
    ensures CmStep(s, t, Step(s, t, ch))
  {
  }

  lemma ExtendedCm(s: State, t: nat, ch: Choice)
    requires Formed(s) && Enabled(s, t, ch) && CmOk(s.tx[t], s.cm[t])
    requires s.tx[t].pc.Extending?
    ensures CmStep(s, t, Step(s, t, ch))
  {
    hide Insert;
  }

  lemma StampCm(s: State, t: nat, ch: Choice)
    requires Formed(s) && Enabled(s, t, ch) && CmOk(s.tx[t], s.cm[t])
    requires s.tx[t].pc.LockReads?
    ensures CmStep(s, t, Step(s, t, ch))
  {
  }

  lemma ClockCm(s: State, t: nat, ch: Choice)
    requires Formed(s) && Enabled(s, t, ch) && CmOk(s.tx[t], s.cm[t])
    requires s.tx[t].pc.TakeTs? || s.tx[t].pc.TakeTsGV4?
    ensures CmStep(s, t, Step(s, t, ch))
  {
  }

  lemma DecideCm(s: State, t: nat, ch: Choice)
    requires Formed(s) && Enabled(s, t, ch) && CmOk(s.tx[t], s.cm[t])
    requires s.tx[t].pc.Validating?
    ensures CmStep(s, t, Step(s, t, ch))
  {
    hide Publish;
  }

  lemma OwnCm(s: State, t: nat, ch: Choice)
    requires Formed(s) && Enabled(s, t, ch) && CmOk(s.tx[t], s.cm[t])
    requires s.tx[t].pc.ValidatingLocked?
    ensures CmStep(s, t, Step(s, t, ch))
  {
  }

  lemma WriteCm(s: State, t: nat, ch: Choice)
    requires Formed(s) && Enabled(s, t, ch) && CmOk(s.tx[t], s.cm[t])
    requires s.tx[t].pc.WriteBack?
    ensures CmStep(s, t, Step(s, t, ch))
  {
    hide Through;
  }

  lemma EndCm(s: State, t: nat, ch: Choice)
    requires Formed(s) && Enabled(s, t, ch) && CmOk(s.tx[t], s.cm[t])
    requires s.tx[t].pc.ReleaseWrite? || s.tx[t].pc.RestoreReads? || s.tx[t].pc.Dropping?
    ensures CmStep(s, t, Step(s, t, ch))
  {
  }

  lemma StepCm(s: State, t: nat, ch: Choice)
    requires Formed(s) && Enabled(s, t, ch) && AllCmOk(s)
    ensures AllCmOk(Step(s, t, ch))
  {
    hide Formed, Enabled, Step, CmStep, CmOk;
    EnabledThread(s, t, ch);
    match s.tx[t].pc {
      case Running => if ch.Read? || ch.Write? { AskCm(s, t, ch); } else { FinishCm(s, t, ch); }
      case Idle => StartCm(s, t, ch);
      case StartGreedy => StartCm(s, t, ch);
      case StartFlag => StartCm(s, t, ch);
      case ReadOwn(_) => ReadCm(s, t, ch);
      case ReadVersion(_) => ReadCm(s, t, ch);
      case ReadValue(_, _) => AgainCm(s, t, ch);
      case ReadAgain(_, _, _) => AgainCm(s, t, ch);
      case Conflict(_) => ConflictCm(s, t, ch);
      case ConflictOwner(_) => ConflictCm(s, t, ch);
      case ConflictRank(_, _) => RankCm(s, t, ch);
      case ConflictFlag(_, _) => FlagCm(s, t, ch);
      case ConflictReload(_) => FlagCm(s, t, ch);
      case TryLock(_) => TryCm(s, t, ch);
      case LockFailed(_) => TryCm(s, t, ch);
      case LockVersion(_) => LockCm(s, t, ch);
      case CmTicket => TicketCm(s, t, ch);
      case CmStore(_) => TicketCm(s, t, ch);
      case ExtendClock(_) => ExtendCm(s, t, ch);
      case Extending(_, _, _) => ExtendedCm(s, t, ch);
      case LockReads(_) => StampCm(s, t, ch);
      case TakeTs => ClockCm(s, t, ch);
      case TakeTsGV4(_) => ClockCm(s, t, ch);
      case Validating(_, _) => DecideCm(s, t, ch);
      case ValidatingLocked(_, _) => OwnCm(s, t, ch);
      case WriteBack(_, _, _) => WriteCm(s, t, ch);
      case ReleaseWrite(_, _, _) => EndCm(s, t, ch);
      case RestoreReads(_) => EndCm(s, t, ch);
      case Dropping(_) => EndCm(s, t, ch);
    }
    CmStepKeeps(s, t, Step(s, t, ch));
  }

  lemma {:induction false} RunCm(s: State, run: seq<Event>, s': State)
    requires AllCmOk(s) && Leads(s, run, s')
    ensures AllCmOk(s')
    decreases |run|
  {
    hide AllCmOk, Step, Enabled;
    if run != [] {
      StepCm(s, run[0].t, run[0].ch);
      RunCm(Step(s, run[0].t, run[0].ch), run[1..], s');
    }
  }

  /** CmOnAccess: a transaction has a greedy timestamp, or is just drawing it, exactly if it has locked and established
      more than CM_ACCESS_THRESHOLD stripes. */
  lemma GreedyAfterThreshold(m: Memory, s: State, t: nat)
    requires Reachable(m, s) && t < |s.tx| && Live(s.tx[t]) && !s.tx[t].pc.StartGreedy?
    ensures t < |s.cm|
    ensures s.cm[t].greedyTs != MINIMUM_TS || s.tx[t].pc.CmTicket? || s.tx[t].pc.CmStore?
            <==> SettledWrites(s.tx[t]) > CM_ACCESS_THRESHOLD
  {
    hide Leads;
    var gv4: bool, stripe, stripes: nat, threads: nat, run :|
      Mapped(stripe, stripes, m) && Leads(Init(gv4, stripe, stripes, threads, m), run, s);
    assert AllCmOk(Init(gv4, stripe, stripes, threads, m));
    RunCm(Init(gv4, stripe, stripes, threads, m), run, s);
    assert CmOk(s.tx[t], s.cm[t]);
  }
}
