/** The operations of a transaction are the calls it was asked to make, in every run. */
module SwissCalls {
  import opened Words
  import opened SwissState
  import opened SwissInvariant
  import opened SwissLocal
  import opened SwissRuns

  // ---------- what the threads were asked, read off a run ----------

  /** The calls of one transaction, and how many transactions had been decided when it began. */
  datatype Story = Story(calls: seq<Call>, begin: nat)

  /** The story of each thread's latest transaction, and those of the decided ones, in the order of decision. */
  datatype Tale = Tale(now: seq<Story>, decided: seq<Story>)

  function CallOf(ch: Choice): seq<Call>
  {
    match ch
    case Read(a) => [ReadCall(a)]
    case Write(w) => [WriteCall(w.a, w.val, w.mask)]
    case _ => []
  }

  /** What the step of thread t from s to s' adds: an idle thread begins, and a call is asked for. */
  function Told(s: State, t: nat, ch: Choice, s': State, l: Tale): Tale
    requires t < |s.tx| && t < |l.now|
  {
    var x := if s.tx[t].pc.Idle? then Story([], |s.recs|) else Story(l.now[t].calls + CallOf(ch), l.now[t].begin);
    Tale(l.now[t := x], if |s'.recs| > |s.recs| then l.decided + [l.now[t]] else l.decided)
  }

  /** The tale of a run. */
  ghost function TaleOf(s: State, run: seq<Event>, l: Tale): Tale
    decreases |run|
  {
    if run == [] || !Formed(s) || !Enabled(s, run[0].t, run[0].ch) || run[0].t >= |l.now| then l
    else
      var s' := Step(s, run[0].t, run[0].ch);
      TaleOf(s', run[1..], Told(s, run[0].t, run[0].ch, s', l))
  }

  function Untold(threads: nat): Tale
  {
    Tale(seq(threads, _ => Story([], 0)), [])
  }

  // ---------- what a transaction has logged ----------

  function ContCall(k: Cont): seq<Call>
  {
    match k
    case RetRead(a, _) => [ReadCall(a)]
    case RetWrite(w) => [WriteCall(w.a, w.val, w.mask)]
  }

  /** The call in progress, still without an operation. */
  function Outstanding(pc: Pc): seq<Call>
  {
    match pc
    case ReadOwn(a) => [ReadCall(a)]
    case ReadVersion(a) => [ReadCall(a)]
    case ReadValue(a, _) => [ReadCall(a)]
    case ReadAgain(a, _, _) => [ReadCall(a)]
    case Conflict(w) => ContCall(RetWrite(w))
    case ConflictOwner(w) => ContCall(RetWrite(w))
    case ConflictRank(w, _) => ContCall(RetWrite(w))
    case ConflictFlag(w, _) => ContCall(RetWrite(w))
    case ConflictReload(w) => ContCall(RetWrite(w))
    case TryLock(w) => ContCall(RetWrite(w))
    case LockFailed(w) => ContCall(RetWrite(w))
    case LockVersion(w) => ContCall(RetWrite(w))
    case ExtendClock(k) => ContCall(k)
    case Extending(k, _, _) => ContCall(k)
    case _ => []
  }

  /** Nothing is left of an idle transaction; one that rolls back may have lost its last call. */
  ghost predicate Answers(x: Tx, l: Story)
  {
    && (!x.pc.Idle? ==> x.begin == l.begin)
    && (Live(x) || Decided(x) ==> Erase(x.ops) + Outstanding(x.pc) == l.calls)
    && (x.pc.RestoreReads? || x.pc.Dropping? ==> Erase(x.ops) <= l.calls)
    && (x.pc.Idle? ==> x.ops == [])
  }

  ghost predicate RecAnswers(r: Rec, l: Story)
  {
    Erase(r.ops) == l.calls && r.begin == l.begin
  }

  ghost predicate Truthful(s: State, l: Tale)
  {
    && |l.now| == |s.tx| && |l.decided| == |s.recs|
    && (forall t :: 0 <= t < |s.tx| ==> Answers(s.tx[t], l.now[t]))
    && (forall n :: 0 <= n < |s.recs| ==> RecAnswers(s.recs[n], l.decided[n]))
  }

  // ---------- every step ----------

  predicate RollsBack(x: Tx)
  {
    x.pc.RestoreReads? || x.pc.Dropping?
  }

  /** What a step may do to the transaction x of a thread that was asked for calls: pass a call on, answer it,
      or roll back. */
  predicate Goes(x: Tx, y: Tx, calls: seq<Call>)
  {
    if y.pc.Idle? then y.ops == []
    else
      || (y.ops == x.ops && RollsBack(y) && calls == [])
      || (y.ops == x.ops && Outstanding(y.pc) == Outstanding(x.pc) + calls && !RollsBack(x))
      || (y.ops != [] && y.ops == x.ops + [y.ops[|y.ops| - 1]] && Outstanding(y.pc) == [] && !RollsBack(x)
          && Outstanding(x.pc) + calls == [Asked(y.ops[|y.ops| - 1])])
  }

  predicate Next(s: State, t: nat, ch: Choice, s': State)
    requires t < |s.tx|
  {
    && |s'.tx| == |s.tx| && (forall u :: 0 <= u < |s.tx| && u != t ==> s'.tx[u] == s.tx[u])
    && s'.tx[t].begin == (if s.tx[t].pc.Idle? then |s.recs| else s.tx[t].begin)
    && (s.tx[t].pc.Idle? ==> s'.tx[t].pc.StartGreedy? && s'.tx[t].ops == s.tx[t].ops)
    && (!s.tx[t].pc.Idle? ==> Goes(s.tx[t], s'.tx[t], CallOf(ch)))
  }

  /** At most the transaction of t is decided, when it has answered all its calls. */
  ghost predicate Decides(s: State, t: nat, s': State)
    requires t < |s.tx|
  {
    || s'.recs == s.recs
    || (&& Live(s.tx[t]) && Outstanding(s.tx[t].pc) == []
        && |s'.recs| == |s.recs| + 1 && s'.recs[..|s.recs|] == s.recs
        && s'.recs[|s.recs|].ops == s.tx[t].ops && s'.recs[|s.recs|].begin == s.tx[t].begin)
  }

  lemma AnswersNext(s: State, t: nat, ch: Choice, s': State, l: Tale)
    requires t < |s.tx| && t < |l.now| && Answers(s.tx[t], l.now[t]) && Next(s, t, ch, s')
    ensures Answers(s'.tx[t], Told(s, t, ch, s', l).now[t])
  {
    hide Erase;
    var x, y := s.tx[t], s'.tx[t];
    EraseNone();
    if !x.pc.Idle? {
      var told, asked := l.now[t].calls, CallOf(ch);
      assert Told(s, t, ch, s', l).now[t].calls == told + asked;
      Joined(Erase(x.ops), Outstanding(x.pc), asked);
      Joined(Erase(y.ops), Outstanding(y.pc), []);
      Joined(told, [], []);
      if y.ops != [] { EraseSnoc(x.ops, y.ops[|y.ops| - 1]); }
    }
  }

  lemma Joined(a: seq<Call>, b: seq<Call>, c: seq<Call>)
    ensures a + (b + c) == (a + b) + c && a <= a + b && a <= (a + b) + c
    ensures a + [] == a && (a + b) + [] == a + b
  {
  }

  lemma TellsTruth(s: State, t: nat, ch: Choice, s': State, l: Tale)
    requires Truthful(s, l) && t < |s.tx| && Next(s, t, ch, s') && Decides(s, t, s')
    ensures Truthful(s', Told(s, t, ch, s', l))
  {
    AnswersNext(s, t, ch, s', l);
    assert Answers(s.tx[t], l.now[t]);
    hide Erase, Goes;
    assert forall n :: 0 <= n < |s.recs| ==> s'.recs[n] == s.recs[n];
    if s'.recs != s.recs { assert RecAnswers(s'.recs[|s.recs|], l.now[t]); }
  }

  lemma StartNext(s: State, t: nat, ch: Choice)
    requires Formed(s) && Enabled(s, t, ch)
    requires s.tx[t].pc.Idle? || s.tx[t].pc.StartGreedy? || s.tx[t].pc.StartFlag?
    ensures Next(s, t, ch, Step(s, t, ch)) && Decides(s, t, Step(s, t, ch))
  {
    hide Sized;
  }

  lemma AskReadNext(s: State, t: nat, ch: Choice)
    requires Formed(s) && Enabled(s, t, ch)
    requires s.tx[t].pc.Running? && ch.Read?
    ensures Next(s, t, ch, Step(s, t, ch)) && Decides(s, t, Step(s, t, ch))
  {
    hide Sized, Insert;
  }

  lemma AskWriteNext(s: State, t: nat, ch: Choice)
    requires Formed(s) && Enabled(s, t, ch)
    requires s.tx[t].pc.Running? && ch.Write?
    ensures Next(s, t, ch, Step(s, t, ch)) && Decides(s, t, Step(s, t, ch))
  {
    hide Sized, Insert;
  }

  lemma FinishNext(s: State, t: nat, ch: Choice)
    requires Formed(s) && Enabled(s, t, ch)
    requires s.tx[t].pc.Running? && !ch.Read? && !ch.Write?
    ensures Next(s, t, ch, Step(s, t, ch)) && Decides(s, t, Step(s, t, ch))
  {
    hide Sized;
  }

  lemma ReadNext(s: State, t: nat, ch: Choice)
    requires Formed(s) && Enabled(s, t, ch)
    requires s.tx[t].pc.ReadOwn? || s.tx[t].pc.ReadVersion?
    ensures Next(s, t, ch, Step(s, t, ch)) && Decides(s, t, Step(s, t, ch))
  {
    hide Sized, Through;
  }

  lemma AgainNext(s: State, t: nat, ch: Choice)
    requires Formed(s) && Enabled(s, t, ch)
    requires s.tx[t].pc.ReadValue? || s.tx[t].pc.ReadAgain?
    ensures Next(s, t, ch, Step(s, t, ch)) && Decides(s, t, Step(s, t, ch))
  {
    hide Sized;
  }

  lemma ConflictNext(s: State, t: nat, ch: Choice)
    requires Formed(s) && Enabled(s, t, ch)
    requires s.tx[t].pc.Conflict? || s.tx[t].pc.ConflictOwner?
    ensures Next(s, t, ch, Step(s, t, ch)) && Decides(s, t, Step(s, t, ch))
  {
    hide Sized;
  }

  lemma RankNext(s: State, t: nat, ch: Choice)
    requires Formed(s) && Enabled(s, t, ch)
    requires s.tx[t].pc.ConflictRank?
    ensures Next(s, t, ch, Step(s, t, ch)) && Decides(s, t, Step(s, t, ch))
  {
    hide Sized;
  }

  lemma FlagNext(s: State, t: nat, ch: Choice)
    requires Formed(s) && Enabled(s, t, ch)
    requires s.tx[t].pc.ConflictFlag? || s.tx[t].pc.ConflictReload?
    ensures Next(s, t, ch, Step(s, t, ch)) && Decides(s, t, Step(s, t, ch))
  {
    hide Sized;
  }

  lemma TryNext(s: State, t: nat, ch: Choice)
    requires Formed(s) && Enabled(s, t, ch)
    requires s.tx[t].pc.TryLock? || s.tx[t].pc.LockFailed?
    ensures Next(s, t, ch, Step(s, t, ch)) && Decides(s, t, Step(s, t, ch))
  {
    hide Sized;
  }

  lemma LockNext(s: State, t: nat, ch: Choice)
    requires Formed(s) && Enabled(s, t, ch)
    requires s.tx[t].pc.LockVersion?
    ensures Next(s, t, ch, Step(s, t, ch)) && Decides(s, t, Step(s, t, ch))
  {
    hide Sized, Insert;
  }

  lemma TicketNext(s: State, t: nat, ch: Choice)
    requires Formed(s) && Enabled(s, t, ch)
    requires s.tx[t].pc.CmTicket? || s.tx[t].pc.CmStore?
    ensures Next(s, t, ch, Step(s, t, ch)) && Decides(s, t, Step(s, t, ch))
  {
    hide Sized;
  }

  lemma ExtendNext(s: State, t: nat, ch: Choice)
    requires Formed(s) && Enabled(s, t, ch)
    requires s.tx[t].pc.ExtendClock?
    ensures Next(s, t, ch, Step(s, t, ch)) && Decides(s, t, Step(s, t, ch))
  {
    hide Sized, Insert;
  }

  lemma ExtendedNext(s: State, t: nat, ch: Choice)
    requires Formed(s) && Enabled(s, t, ch)
    requires s.tx[t].pc.Extending?
    ensures Next(s, t, ch, Step(s, t, ch)) && Decides(s, t, Step(s, t, ch))
  {
    hide Sized, Insert;
  }

  lemma StampNext(s: State, t: nat, ch: Choice)
    requires Formed(s) && Enabled(s, t, ch)
    requires s.tx[t].pc.LockReads?
    ensures Next(s, t, ch, Step(s, t, ch)) && Decides(s, t, Step(s, t, ch))
  {
    hide Sized;
  }

  lemma ClockNext(s: State, t: nat, ch: Choice)
    requires Formed(s) && Enabled(s, t, ch)
    requires s.tx[t].pc.TakeTs? || s.tx[t].pc.TakeTsGV4?
    ensures Next(s, t, ch, Step(s, t, ch)) && Decides(s, t, Step(s, t, ch))
  {
    hide Sized;
  }

  lemma DecideNext(s: State, t: nat, ch: Choice)
    requires Formed(s) && Enabled(s, t, ch)
    requires s.tx[t].pc.Validating?
    ensures Next(s, t, ch, Step(s, t, ch)) && Decides(s, t, Step(s, t, ch))
  {
    hide Sized, Publish;
  }

  lemma OwnNext(s: State, t: nat, ch: Choice)
    requires Formed(s) && Enabled(s, t, ch)
    requires s.tx[t].pc.ValidatingLocked?
    ensures Next(s, t, ch, Step(s, t, ch)) && Decides(s, t, Step(s, t, ch))
  {
    hide Sized;
  }

  lemma WriteNext(s: State, t: nat, ch: Choice)
    requires Formed(s) && Enabled(s, t, ch)
    requires s.tx[t].pc.WriteBack?
    ensures Next(s, t, ch, Step(s, t, ch)) && Decides(s, t, Step(s, t, ch))
  {
    hide Sized, Through;
  }

  lemma EndNext(s: State, t: nat, ch: Choice)
    requires Formed(s) && Enabled(s, t, ch)
    requires s.tx[t].pc.ReleaseWrite? || s.tx[t].pc.RestoreReads? || s.tx[t].pc.Dropping?
    ensures Next(s, t, ch, Step(s, t, ch)) && Decides(s, t, Step(s, t, ch))
  {
    hide Sized;
  }

  lemma StepNext(s: State, t: nat, ch: Choice)
    requires Formed(s) && Enabled(s, t, ch)
    ensures t < |s.tx| && Next(s, t, ch, Step(s, t, ch)) && Decides(s, t, Step(s, t, ch))
  {
    hide Formed, Enabled, Step, Next, Decides;
    EnabledThread(s, t, ch);
    match s.tx[t].pc
    case Running =>
      if ch.Read? { AskReadNext(s, t, ch); } else if ch.Write? { AskWriteNext(s, t, ch); } else { FinishNext(s, t, ch); }
    case Idle => StartNext(s, t, ch);
    case StartGreedy => StartNext(s, t, ch);
    case StartFlag => StartNext(s, t, ch);
    case ReadOwn(_) => ReadNext(s, t, ch);
    case ReadVersion(_) => ReadNext(s, t, ch);
    case ReadValue(_, _) => AgainNext(s, t, ch);
    case ReadAgain(_, _, _) => AgainNext(s, t, ch);
    case Conflict(_) => ConflictNext(s, t, ch);
    case ConflictOwner(_) => ConflictNext(s, t, ch);
    case ConflictRank(_, _) => RankNext(s, t, ch);
    case ConflictFlag(_, _) => FlagNext(s, t, ch);
    case ConflictReload(_) => FlagNext(s, t, ch);
    case TryLock(_) => TryNext(s, t, ch);
    case LockFailed(_) => TryNext(s, t, ch);
    case LockVersion(_) => LockNext(s, t, ch);
    case CmTicket => TicketNext(s, t, ch);
    case CmStore(_) => TicketNext(s, t, ch);
    case ExtendClock(_) => ExtendNext(s, t, ch);
    case Extending(_, _, _) => ExtendedNext(s, t, ch);
    case LockReads(_) => StampNext(s, t, ch);
    case TakeTs => ClockNext(s, t, ch);
    case TakeTsGV4(_) => ClockNext(s, t, ch);
    case Validating(_, _) => DecideNext(s, t, ch);
    case ValidatingLocked(_, _) => OwnNext(s, t, ch);
    case WriteBack(_, _, _) => WriteNext(s, t, ch);
    case ReleaseWrite(_, _, _) => EndNext(s, t, ch);
    case RestoreReads(_) => EndNext(s, t, ch);
    case Dropping(_) => EndNext(s, t, ch);
  }

  lemma {:induction false} RunTells(s: State, run: seq<Event>, s': State, l: Tale)
    requires Leads(s, run, s') && Truthful(s, l)
    ensures Truthful(s', TaleOf(s, run, l))
    decreases |run|
  {
    hide Truthful, Told, Step, Enabled, Next, Decides;
    if run != [] {
      var e := run[0];
      TruthfulSized(s, l);
      EnabledThread(s, e.t, e.ch);
      StepNext(s, e.t, e.ch);
      TellsTruth(s, e.t, e.ch, Step(s, e.t, e.ch), l);
      RunTells(Step(s, e.t, e.ch), run[1..], s', Told(s, e.t, e.ch, Step(s, e.t, e.ch), l));
    }
  }

  lemma TruthfulSized(s: State, l: Tale)
    requires Truthful(s, l)
    ensures |l.now| == |s.tx|
  {
  }

  // ---------- every run ----------

  /** In every run, whatever the interleaving: the operations of a live or decided transaction are the calls
      its thread was asked to make since it began, of the same kind and with the same arguments, in this order;
      only a call in progress has no operation yet. A transaction that rolls back has answered some first calls. */
  lemma OperationsAreCalls(gv4: bool, stripe: seq<nat>, stripes: nat, threads: nat, m: Memory, run: seq<Event>, s: State, t: nat)
    requires Mapped(stripe, stripes, m) && Leads(Init(gv4, stripe, stripes, threads, m), run, s) && t < |s.tx|
    ensures var now := TaleOf(Init(gv4, stripe, stripes, threads, m), run, Untold(threads)).now;
            && t < |now|
            && (Live(s.tx[t]) || Decided(s.tx[t]) ==> Erase(s.tx[t].ops) + Outstanding(s.tx[t].pc) == now[t].calls)
            && (s.tx[t].pc.Running? || Decided(s.tx[t]) ==> Erase(s.tx[t].ops) == now[t].calls)
            && (s.tx[t].pc.RestoreReads? || s.tx[t].pc.Dropping? ==> Erase(s.tx[t].ops) <= now[t].calls)
            && (!s.tx[t].pc.Idle? ==> s.tx[t].begin == now[t].begin)
  {
    hide Leads;
    RunTruthful(gv4, stripe, stripes, threads, m, run, s);
    hide Erase;
    assert Answers(s.tx[t], TaleOf(Init(gv4, stripe, stripes, threads, m), run, Untold(threads)).now[t]);
  }

  /** The n-th decided transaction has performed exactly the calls of the n-th transaction that was decided. */
  lemma DecidedAreCalls(gv4: bool, stripe: seq<nat>, stripes: nat, threads: nat, m: Memory, run: seq<Event>, s: State, n: nat)
    requires Mapped(stripe, stripes, m) && Leads(Init(gv4, stripe, stripes, threads, m), run, s) && n < |s.recs|
    ensures var decided := TaleOf(Init(gv4, stripe, stripes, threads, m), run, Untold(threads)).decided;
            |decided| == |s.recs| && Erase(s.recs[n].ops) == decided[n].calls && s.recs[n].begin == decided[n].begin
  {
    hide Leads;
    RunTruthful(gv4, stripe, stripes, threads, m, run, s);
    assert RecAnswers(s.recs[n], TaleOf(Init(gv4, stripe, stripes, threads, m), run, Untold(threads)).decided[n]);
  }

  lemma RunTruthful(gv4: bool, stripe: seq<nat>, stripes: nat, threads: nat, m: Memory, run: seq<Event>, s: State)
    requires Mapped(stripe, stripes, m) && Leads(Init(gv4, stripe, stripes, threads, m), run, s)
    ensures Truthful(s, TaleOf(Init(gv4, stripe, stripes, threads, m), run, Untold(threads)))
  {
    hide Leads;
    assert Truthful(Init(gv4, stripe, stripes, threads, m), Untold(threads));
    RunTells(Init(gv4, stripe, stripes, threads, m), run, s, Untold(threads));
  }
}
