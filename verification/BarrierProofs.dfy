/** Nobody leaves an episode of the barrier before all have entered it, and nobody is left behind. */
module BarrierProofs {
  import opened Powers
  import opened BarrierState

  // ---------- the tournament ----------

  lemma {:induction false} LeaderDiv(m: nat, j: nat)
    ensures Div(Leader(m, j), j) == m && Leads(Leader(m, j), j)
    decreases j
  {
    if j > 0 { LeaderDiv(2 * m, j - 1); }
  }

  lemma {:induction false} DivLeader(t: nat, j: nat)
    requires Leads(t, j)
    ensures Leader(Div(t, j), j) == t
    decreases j
  {
    if j > 0 { DivLeader(t, j - 1); }
  }

  lemma {:induction false} LeaderBelow(m: nat, levels: nat, j: nat)
    requires j <= levels && m < Pow2(levels - j)
    ensures Leader(m, j) < Pow2(levels)
    decreases j
  {
    if j > 0 { LeaderBelow(2 * m, levels, j - 1); }
  }

  lemma {:induction false} LeadsLess(t: nat, j: nat, k: nat)
    requires Leads(t, j) && k <= j
    ensures Leads(t, k)
    decreases j
  {
    if k < j { LeadsLess(t, j - 1, k); }
  }

  /** The second thread of node q. */
  function Second(q: nat, j: nat): nat
    requires j >= 1
  {
    Leader(2 * q + 1, j - 1)
  }

  /** At every level a thread plays, its node has it and its partner, and nobody else. */
  lemma Meet(t: nat, levels: nat, j: nat)
    requires 1 <= j <= levels && t < Pow2(levels) && Leads(t, j - 1)
    ensures var q := Div(t, j);
            && q < Pow2(levels - j)
            && (if Leads(t, j) then t == Leader(q, j) && Partner(t, j) == Second(q, j)
                else t == Second(q, j) && Partner(t, j) == Leader(q, j))
  {
    DivBelow(t, levels, j);
    DivLeader(t, j - 1);
  }

  /** The two threads of a node are distinct threads, and they are at that node. */
  lemma TwoThreads(q: nat, levels: nat, j: nat)
    requires 1 <= j <= levels && q < Pow2(levels - j)
    ensures Leader(q, j) < Pow2(levels) && Second(q, j) < Pow2(levels) && Leader(q, j) != Second(q, j)
    ensures Leads(Leader(q, j), j) && Leads(Second(q, j), j - 1) && !Leads(Second(q, j), j)
    ensures Div(Leader(q, j), j) == q && Div(Second(q, j), j) == q
    ensures Leads(Leader(q, j), j - 1)
  {
    LeaderDiv(q, j);
    LeaderDiv(2 * q + 1, j - 1);
    LeaderBelow(q, levels, j);
    LeaderBelow(2 * q + 1, levels, j - 1);
  }

  // ---------- how far a thread has got, in all episodes together ----------

  /** In this episode, node j has not been entered yet. */
  predicate Before(pc: Pc, j: nat)
  {
    match pc
    case Up(m) => m <= j
    case SleepPartner(m) => m < j
    case Awake(m) => m < j
    case _ => false
  }

  /** In this episode, the thread has not come past node j yet. */
  predicate Under(pc: Pc, j: nat)
  {
    match pc
    case Up(m) => m <= j
    case SleepPartner(m) => m <= j
    case Awake(m) => m <= j
    case SleepAll(m) => m <= j
    case Woken(m) => m <= j
    case _ => false
  }

  /** In this episode, the thread is not done with node j yet. */
  predicate Busy(pc: Pc, j: nat)
  {
    match pc
    case Out => false
    case Woken(m) => j < m
    case Down(m) => j <= m
    case _ => true
  }

  function Minus(x: Thread, off: bool): int
  {
    if off then x.entered - 1 else x.entered
  }

  function Arrived(x: Thread, j: nat): int { Minus(x, Before(x.pc, j)) }

  function Passed(x: Thread, j: nat): int { Minus(x, Under(x.pc, j)) }

  function Done(x: Thread, j: nat): int { Minus(x, Busy(x.pc, j)) }

  /** a leads the node and b is its second thread; c is its count. */
  predicate PairOk(a: Thread, b: Thread, c: nat, j: nat)
  {
    && Done(a, j) == Done(b, j)
    && c == Arrived(a, j) - Done(a, j) + Arrived(b, j) - Done(b, j)
    && Passed(a, j) <= Arrived(b, j)
    && (a.pc == SleepPartner(j) ==> c < 2)
  }

  ghost predicate NodeOk(s: State, j: nat, q: nat)
    requires Sized(s) && 1 <= j <= s.levels && q < |s.count[j]|
  {
    TwoThreads(q, s.levels, j);
    PairOk(s.thread[Leader(q, j)], s.thread[Second(q, j)], s.count[j][q], j)
  }

  ghost predicate Counted(s: State)
  {
    forall t :: 0 <= t < |s.thread| ==> s.thread[t].entered == s.thread[t].left + if s.thread[t].pc.Out? then 0 else 1
  }

  ghost predicate Nodewise(s: State)
    requires Sized(s)
  {
    forall j, q :: 1 <= j <= s.levels && 0 <= q < |s.count[j]| ==> NodeOk(s, j, q)
  }

  ghost predicate Inv(s: State)
  {
    Formed(s) && Counted(s) && Nodewise(s)
  }

  lemma InitInv(levels: nat)
    ensures Inv(Init(levels))
  {
    var s := Init(levels);
    forall j, q | 1 <= j <= s.levels && 0 <= q < |s.count[j]|
      ensures NodeOk(s, j, q)
    {
      TwoThreads(q, levels, j);
    }
  }

  // ---------- one step ----------

  /** As far as node j is concerned nothing has happened. */
  predicate SameAt(x: Thread, y: Thread, j: nat)
  {
    && Arrived(y, j) == Arrived(x, j) && Passed(y, j) == Passed(x, j) && Done(y, j) == Done(x, j)
    && (y.pc == SleepPartner(j) ==> x.pc == SleepPartner(j))
  }

  /** Only node q of level j has been touched, and only by the threads that meet there. */
  ghost predicate Touches(s: State, s': State, j: nat, q: nat)
    requires Sized(s)
  {
    && Sized(s') && s'.levels == s.levels
    && (forall k, p :: 1 <= k <= s.levels && 0 <= p < |s.count[k]| && (k != j || p != q) ==> s'.count[k][p] == s.count[k][p])
    && (forall t, k :: 0 <= t < |s.thread| && 1 <= k <= s.levels && Leads(t, k - 1) && (k != j || Div(t, k) != q) ==>
          SameAt(s.thread[t], s'.thread[t], k))
  }

  lemma Elsewhere(s: State, s': State, j: nat, q: nat)
    requires Inv(s) && Touches(s, s', j, q) && Formed(s') && Counted(s')
    requires 1 <= j <= s.levels && q < |s.count[j]| ==> NodeOk(s', j, q)
    ensures Inv(s')
  {
    forall k, p | 1 <= k <= s.levels && 0 <= p < |s'.count[k]|
      ensures NodeOk(s', k, p)
    {
      if k != j || p != q {
        assert NodeOk(s, k, p);
        TwoThreads(p, s.levels, k);
        var a, b := Leader(p, k), Second(p, k);
        assert SameAt(s.thread[a], s'.thread[a], k) && SameAt(s.thread[b], s'.thread[b], k);
      }
    }
  }

  lemma KeepEnter(s: State, t: nat)
    requires Inv(s) && t < |s.thread| && s.thread[t].pc.Out?
    ensures Inv(Enter(s, t))
  {
    hide NodeOk;
    Elsewhere(s, Enter(s, t), 0, 0);
  }

  /** x has become y by what happened at level j. */
  ghost predicate SameElse(levels: nat, t: nat, x: Thread, y: Thread, j: nat)
  {
    forall k :: 1 <= k <= levels && k != j && Leads(t, k - 1) ==> SameAt(x, y, k)
  }

  /** s' differs from s in the count of one node and in the two threads that meet there. */
  ghost predicate AtNode(s: State, s': State, j: nat, q: nat, t: nat, u: nat)
    requires Sized(s)
  {
    && 1 <= j <= s.levels && q < |s.count[j]| && t < |s.thread| && u < |s.thread| && Div(t, j) == q && Div(u, j) == q
    && s'.levels == s.levels && |s'.thread| == |s.thread|
    && |s'.count| == |s.count| && (forall k :: 0 <= k < |s.count| && k != j ==> s'.count[k] == s.count[k])
    && |s'.count[j]| == |s.count[j]| && (forall p :: 0 <= p < |s.count[j]| && p != q ==> s'.count[j][p] == s.count[j][p])
    && (forall w :: 0 <= w < |s.thread| && w != t && w != u ==> s'.thread[w] == s.thread[w])
    && SameElse(s.levels, t, s.thread[t], s'.thread[t], j)
    && SameElse(s.levels, u, s.thread[u], s'.thread[u], j)
  }

  lemma NodeKept(s: State, s': State, j: nat, q: nat, t: nat, u: nat)
    requires Inv(s) && AtNode(s, s', j, q, t, u)
    requires PcOk(s.levels, t, s'.thread[t].pc) && PcOk(s.levels, u, s'.thread[u].pc)
    requires s'.thread[t].entered == s'.thread[t].left + if s'.thread[t].pc.Out? then 0 else 1
    requires s'.thread[u].entered == s'.thread[u].left + if s'.thread[u].pc.Out? then 0 else 1
    requires Leader(q, j) < |s'.thread| && Second(q, j) < |s'.thread|
    requires PairOk(s'.thread[Leader(q, j)], s'.thread[Second(q, j)], s'.count[j][q], j)
    ensures Inv(s')
  {
    assert Sized(s');
    assert Touches(s, s', j, q) by {
      forall w, k | 0 <= w < |s.thread| && 1 <= k <= s.levels && Leads(w, k - 1) && (k != j || Div(w, k) != q)
        ensures SameAt(s.thread[w], s'.thread[w], k)
      {
        if w != t && w != u { assert s'.thread[w] == s.thread[w]; }
      }
    }
    Elsewhere(s, s', j, q);
  }

  /** What thread t knows when it gets to node j. */
  lemma AtLevel(s: State, t: nat, j: nat)
    requires Inv(s) && t < |s.thread| && 1 <= j <= s.levels && Leads(t, j - 1)
    ensures var q, u := Div(t, j), Partner(t, j);
      && q < |s.count[j]| && u < |s.thread| && u != t && Div(u, j) == q && Leads(u, j - 1) && (Leads(u, j) <==> !Leads(t, j))
      && (if Leads(t, j) then t == Leader(q, j) && u == Second(q, j) && PairOk(s.thread[t], s.thread[u], s.count[j][q], j)
          else u == Leader(q, j) && t == Second(q, j) && PairOk(s.thread[u], s.thread[t], s.count[j][q], j))
  {
    Meet(t, s.levels, j);
    TwoThreads(Div(t, j), s.levels, j);
    assert NodeOk(s, j, Div(t, j));
  }

  /** What one critical section at level j, or a wakeup there, makes of a thread. */
  predicate Move(levels: nat, t: nat, a: Pc, b: Pc, j: nat)
  {
    var rise := if j < levels then Up(j + 1) else Down(j);
    var fall := if j > 1 then Down(j - 1) else Out;
    || b == a
    || (Leads(t, j) && a in {Up(j), Awake(j)} && b in {SleepPartner(j), rise})
    || (Leads(t, j) && ((a == SleepPartner(j) && b == Awake(j)) || (a == Down(j) && b == fall)))
    || (!Leads(t, j) && ((a == Up(j) && b == SleepAll(j)) || (a == SleepAll(j) && b == Woken(j)) || (a == Woken(j) && b == fall)))
  }

  lemma Moved(levels: nat, t: nat, x: Thread, y: Thread, j: nat)
    requires 1 <= j <= levels && y.entered == x.entered && Move(levels, t, x.pc, y.pc, j)
    ensures SameElse(levels, t, x, y, j)
  {
    if !Leads(t, j) { NotAbove(t, j); }
  }

  /** A thread that is second at level j does not play above it. */
  lemma NotAbove(t: nat, j: nat)
    requires !Leads(t, j)
    ensures forall k :: k >= j ==> !Leads(t, k)
  {
    forall k | k >= j ensures !Leads(t, k) { if Leads(t, k) { LeadsLess(t, k, j); } }
  }

  /** The second thread of node j, once it has arrived and as long as it is not done, is asleep there. */
  lemma WaitsThere(levels: nat, u: nat, pc: Pc, j: nat)
    requires PcOk(levels, u, pc) && j >= 1 && Leads(u, j - 1) && !Leads(u, j) && Busy(pc, j) && !Before(pc, j)
    ensures pc == SleepAll(j)
  {
    NotAbove(u, j);
    if pc.SleepAll? && pc.j < j { LeadsLess(u, j - 1, pc.j); }
  }

  /** A thread arrives at node j when it has come past the nodes below. */
  lemma ArrivedPassed(levels: nat, u: nat, x: Thread, j: nat)
    requires PcOk(levels, u, x.pc) && j >= 1 && Leads(u, j - 1)
    ensures Arrived(x, j) <= Passed(x, j - 1)
  {
    if (x.pc.SleepAll? || x.pc.Woken?) && x.pc.j <= j - 1 { LeadsLess(u, j - 1, x.pc.j); }
  }

  lemma Facts(s: State, t: nat)
    requires Inv(s) && t < |s.thread|
    ensures Formed(s) && PcOk(s.levels, t, s.thread[t].pc)
    ensures s.thread[t].entered == s.thread[t].left + if s.thread[t].pc.Out? then 0 else 1
  {
    hide Nodewise;
  }

  lemma KeepUpLeader(s: State, t: nat, j: nat)
    requires Inv(s) && t < |s.thread| && s.thread[t].pc == Up(j) && Leads(t, j)
    ensures Div(t, j) < |s.count[j]| && Inv(StepUp(s, t, j))
    ensures AtNode(s, StepUp(s, t, j), j, Div(t, j), t, t)
  {
    hide Inv, SameElse, Leads, Div, Leader, Second, Partner, Pow2;
    Facts(s, t);
    AtLevel(s, t, j);
    Moved(s.levels, t, s.thread[t], StepUp(s, t, j).thread[t], j);
    NodeKept(s, StepUp(s, t, j), j, Div(t, j), t, t);
  }

  lemma KeepUpSecond(s: State, t: nat, j: nat)
    requires Inv(s) && t < |s.thread| && s.thread[t].pc == Up(j) && !Leads(t, j)
    ensures Div(t, j) < |s.count[j]| && Inv(StepUp(s, t, j))
    ensures AtNode(s, StepUp(s, t, j), j, Div(t, j), t, Partner(t, j))
  {
    hide Inv, SameElse, Leads, Div, Leader, Second, Partner, Pow2;
    Facts(s, t);
    AtLevel(s, t, j);
    Facts(s, Partner(t, j));
    Moved(s.levels, t, s.thread[t], StepUp(s, t, j).thread[t], j);
    Moved(s.levels, Partner(t, j), s.thread[Partner(t, j)], StepUp(s, t, j).thread[Partner(t, j)], j);
    NodeKept(s, StepUp(s, t, j), j, Div(t, j), t, Partner(t, j));
  }

  lemma KeepAwake(s: State, t: nat, j: nat)
    requires Inv(s) && t < |s.thread| && s.thread[t].pc == Awake(j)
    ensures Div(t, j) < |s.count[j]| && Inv(StepAwake(s, t, j))
    ensures AtNode(s, StepAwake(s, t, j), j, Div(t, j), t, t)
  {
    hide Inv, SameElse, Leads, Div, Leader, Second, Partner, Pow2;
    Facts(s, t);
    LeadsLess(t, j, j - 1);
    AtLevel(s, t, j);
    Moved(s.levels, t, s.thread[t], StepAwake(s, t, j).thread[t], j);
    NodeKept(s, StepAwake(s, t, j), j, Div(t, j), t, t);
  }

  lemma DownWaits(levels: nat, a: Thread, u: nat, b: Thread, c: nat, j: nat)
    requires j >= 1 && PairOk(a, b, c, j) && a.pc == Down(j) && PcOk(levels, u, b.pc) && Leads(u, j - 1) && !Leads(u, j)
    ensures b.pc == SleepAll(j)
  {
    WaitsThere(levels, u, b.pc, j);
  }

  lemma DownPair(a: Thread, b: Thread, a': Thread, b': Thread, c: nat, j: nat)
    requires j >= 1 && PairOk(a, b, c, j) && a.pc == Down(j) && b.pc == SleepAll(j)
    requires a'.entered == a.entered && a'.pc == (if j > 1 then Down(j - 1) else Out)
    requires b'.entered == b.entered && b'.pc == Woken(j)
    ensures PairOk(a', b', 0, j)
  {
  }

  lemma KeepDown(s: State, t: nat, j: nat)
    requires Inv(s) && t < |s.thread| && s.thread[t].pc == Down(j)
    ensures Div(t, j) < |s.count[j]| && Inv(StepDown(s, t, j))
    ensures AtNode(s, StepDown(s, t, j), j, Div(t, j), t, Partner(t, j))
  {
    hide Inv, SameElse, PairOk, Leads, Div, Leader, Second, Partner, Pow2;
    Facts(s, t);
    LeadsLess(t, j, j - 1);
    AtLevel(s, t, j);
    var u := Partner(t, j);
    Facts(s, u);
    // the partner is asleep, and the signal reaches it
    DownWaits(s.levels, s.thread[t], u, s.thread[u], s.count[j][Div(t, j)], j);
    Moved(s.levels, t, s.thread[t], StepDown(s, t, j).thread[t], j);
    Moved(s.levels, u, s.thread[u], StepDown(s, t, j).thread[u], j);
    var s' := StepDown(s, t, j);
    DownPair(s.thread[t], s.thread[u], s'.thread[t], s'.thread[u], s.count[j][Div(t, j)], j);
    NodeKept(s, StepDown(s, t, j), j, Div(t, j), t, u);
  }

  lemma WokenPair(a: Thread, b: Thread, b': Thread, c: nat, j: nat)
    requires j >= 1 && PairOk(a, b, c, j) && b.pc == Woken(j)
    requires b'.entered == b.entered && b'.pc == (if j > 1 then Down(j - 1) else Out)
    ensures PairOk(a, b', c, j)
  {
  }

  lemma KeepWoken(s: State, t: nat, j: nat)
    requires Inv(s) && t < |s.thread| && s.thread[t].pc == Woken(j)
    ensures Inv(Fall(s, t, j))
    ensures Leads(t, j - 1) && AtNode(s, Fall(s, t, j), j, Div(t, j), t, t)
  {
    hide Inv, SameElse, PairOk, Leads, Div, Leader, Second, Partner, Pow2;
    Facts(s, t);
    AtLevel(s, t, j);
    var s' := Fall(s, t, j);
    Moved(s.levels, t, s.thread[t], s'.thread[t], j);
    WokenPair(s.thread[Partner(t, j)], s.thread[t], s'.thread[t], s.count[j][Div(t, j)], j);
    NodeKept(s, Fall(s, t, j), j, Div(t, j), t, t);
  }

  lemma KeepSpurious(s: State, t: nat)
    requires Inv(s) && t < |s.thread| && s.thread[t].pc.SleepPartner?
    ensures Inv(At(s, t, Awake(s.thread[t].pc.j)))
  {
    hide Inv, SameElse, Leads, Div, Leader, Second, Partner, Pow2;
    Facts(s, t);
    var j := s.thread[t].pc.j;
    LeadsLess(t, j, j - 1);
    AtLevel(s, t, j);
    Moved(s.levels, t, s.thread[t], At(s, t, Awake(j)).thread[t], j);
    NodeKept(s, At(s, t, Awake(j)), j, Div(t, j), t, t);
  }

  lemma StepKeeps(s: State, e: Event)
    requires Inv(s) && Enabled(s, e)
    ensures Inv(Step(s, e))
  {
    hide Nodewise, Counted, StepUp, StepDown, StepAwake, Fall, Enter;
    var t := e.t;
    assert PcOk(s.levels, t, s.thread[t].pc);
    if e.Spurious? {
      KeepSpurious(s, t);
    } else {
      match s.thread[t].pc {
        case Out => KeepEnter(s, t);
        case Up(j) => if Leads(t, j) { KeepUpLeader(s, t, j); } else { KeepUpSecond(s, t, j); }
        case Awake(j) => KeepAwake(s, t, j);
        case Woken(j) => KeepWoken(s, t, j);
        case Down(j) => KeepDown(s, t, j);
        case _ =>
      }
    }
  }

  // ---------- runs ----------

  ghost predicate Run(s: State, run: seq<Event>, s': State)
    decreases |run|
  {
    if run == [] then s' == s
    else Formed(s) && Enabled(s, run[0]) && Run(Step(s, run[0]), run[1..], s')
  }

  lemma {:induction false} RunKeeps(s: State, run: seq<Event>, s': State)
    requires Inv(s) && Run(s, run, s')
    ensures Inv(s')
    decreases |run|
  {
    hide Inv, Step;
    if run != [] {
      StepKeeps(s, run[0]);
      RunKeeps(Step(s, run[0]), run[1..], s');
    }
  }

  ghost predicate Reachable(levels: nat, s: State)
  {
    exists run :: Run(Init(levels), run, s)
  }

  lemma ReachableInv(levels: nat, s: State)
    requires Reachable(levels, s)
    ensures Inv(s)
  {
    var run :| Run(Init(levels), run, s);
    InitInv(levels);
    RunKeeps(Init(levels), run, s);
  }

  // ---------- safety ----------

  /** Whoever has come past node j leads threads that have all entered. */
  lemma {:induction false} Below(s: State, m: nat, j: nat, t: nat, e: int)
    requires Inv(s) && j <= s.levels && m < Pow2(s.levels - j) && t < |s.thread| && Div(t, j) == m
    requires Leader(m, j) < |s.thread| && Passed(s.thread[Leader(m, j)], j) >= e
    ensures s.thread[t].entered >= e
    decreases j
  {
    if j > 0 {
      TwoThreads(m, s.levels, j);
      assert NodeOk(s, j, m);
      var n := Div(t, j - 1);
      ArrivedPassed(s.levels, Second(m, j), s.thread[Second(m, j)], j);
      Below(s, n, j - 1, t, e);
    }
  }

  /** Whoever is done with a node was let go from above: the top node has been passed. */
  lemma {:induction false} Above(s: State, t: nat, j: nat, e: int)
    requires Inv(s) && 1 <= j <= s.levels && t < |s.thread| && Leads(t, j - 1) && Done(s.thread[t], j) >= e
    ensures Leader(0, s.levels) < |s.thread| && Passed(s.thread[Leader(0, s.levels)], s.levels) >= e
    decreases s.levels - j, if Leads(t, j) then 0 else 1
  {
    AtLevel(s, t, j);
    if !Leads(t, j) {
      Above(s, Partner(t, j), j, e);
    } else if j < s.levels {
      Above(s, t, j + 1, e);
    } else {
      DivBelow(t, s.levels, j);
      if s.thread[t].pc.Woken? { LeadsLess(t, j, s.thread[t].pc.j); }
    }
  }

  /** Nobody leaves episode e before everybody has entered it. */
  lemma BarrierSafety(levels: nat, s: State, t: nat, u: nat)
    requires Reachable(levels, s) && t < |s.thread| && u < |s.thread|
    ensures s.thread[t].left <= s.thread[u].entered
  {
    ReachableInv(levels, s);
    InvSafety(s, t, u);
  }

  lemma InvSafety(s: State, t: nat, u: nat)
    requires Inv(s) && t < |s.thread| && u < |s.thread|
    ensures s.thread[t].left <= s.thread[u].entered
  {
    if s.levels > 0 {
      Above(s, t, 1, s.thread[t].left);
      DivBelow(u, s.levels, s.levels);
      Below(s, 0, s.levels, u, s.thread[t].left);
    }
  }

  // ---------- progress ----------

  /** Somebody who is not asleep has not left episode e yet. */
  ghost predicate Runner(s: State, e: nat, r: nat)
  {
    r < |s.thread| && s.thread[r].left < e && !Asleep(s.thread[r].pc)
  }

  /** How far the search for a runner from here can go on. */
  function Search(levels: nat, pc: Pc): int
  {
    match pc
    case SleepPartner(j) => j
    case SleepAll(j) => 2 * levels - j + 1
    case _ => 0
  }

  /** Follow whom a sleeping thread waits for: no cycle, so no lost signal. */
  lemma {:induction false} FindRunner(s: State, e: nat, t: nat) returns (r: nat)
    requires Inv(s) && (forall u :: 0 <= u < |s.thread| ==> s.thread[u].entered >= e)
    requires t < |s.thread| && s.thread[t].left < e
    ensures Runner(s, e, r)
    decreases Search(s.levels, s.thread[t].pc)
  {
    assert PcOk(s.levels, t, s.thread[t].pc);
    match s.thread[t].pc {
      case SleepPartner(j) =>
        LeadsLess(t, j, j - 1);
        AtLevel(s, t, j);
        var u := Partner(t, j);
        r := FindRunner(s, e, u);
      case SleepAll(j) =>
        AtLevel(s, t, j);
        var u := Partner(t, j);
        assert PcOk(s.levels, u, s.thread[u].pc);
        if s.thread[u].pc.SleepAll? && s.thread[u].pc.j <= j { LeadsLess(u, j, s.thread[u].pc.j); }
        r := FindRunner(s, e, u);
      case _ =>
        r := t;
    }
  }

  /** Once everybody has entered episode e, somebody can move until everybody has left it. */
  lemma NobodyStuck(levels: nat, s: State, e: nat)
    requires Reachable(levels, s) && (forall u :: 0 <= u < |s.thread| ==> s.thread[u].entered >= e)
    requires exists t :: 0 <= t < |s.thread| && s.thread[t].left < e
    ensures exists r :: Runner(s, e, r) && Inside(s, r)
  {
    ReachableInv(levels, s);
    var t :| 0 <= t < |s.thread| && s.thread[t].left < e;
    var r := FindRunner(s, e, t);
    assert Inside(s, r);
  }

  // ---------- without spurious wakeups an episode ends ----------

  /** A thread woken on proceedCond will find that its partner has come. */
  ghost predicate Prompt(s: State)
    requires Formed(s)
  {
    forall t :: 0 <= t < |s.thread| && s.thread[t].pc.Awake? ==> HasBoth(s, t, s.thread[t].pc.j)
  }

  ghost predicate HasBoth(s: State, t: nat, j: nat)
    requires Formed(s) && t < |s.thread|
  {
    1 <= j <= s.levels && Div(t, j) < |s.count[j]| && s.count[j][Div(t, j)] == 2
  }

  lemma PromptKept(s: State, s': State, j: nat, q: nat, t: nat, u: nat)
    requires Inv(s) && Inv(s') && Prompt(s) && AtNode(s, s', j, q, t, u)
    requires t == Leader(q, j) || u == Leader(q, j)
    requires s'.thread[t].pc.Awake? ==> HasBoth(s', t, s'.thread[t].pc.j)
    requires s'.thread[u].pc.Awake? ==> HasBoth(s', u, s'.thread[u].pc.j)
    ensures Prompt(s')
  {
    hide Nodewise, Counted, SameElse;
    forall w | 0 <= w < |s'.thread| && s'.thread[w].pc.Awake?
      ensures HasBoth(s', w, s'.thread[w].pc.j)
    {
      if w != t && w != u {
        var k := s.thread[w].pc.j;
        assert HasBoth(s, w, k) && PcOk(s.levels, w, s.thread[w].pc);
        DivLeader(w, k);
      }
    }
  }

  /** How many steps a thread has left in its episode, at most. */
  function Rank(levels: nat, pc: Pc): nat
  {
    match pc
    case Out => 0
    case Down(j) => j
    case Woken(j) => j
    case SleepAll(j) => j + 1
    case Awake(j) => levels + 3 + 3 * Rest(levels, j)
    case SleepPartner(j) => levels + 4 + 3 * Rest(levels, j)
    case Up(j) => levels + 5 + 3 * Rest(levels, j)
  }

  function Rest(levels: nat, j: nat): nat
  {
    if j <= levels then levels - j else 0
  }

  /** Thread t moves inside the barrier. */
  ghost predicate Inside(s: State, t: nat)
  {
    t < |s.thread| && !Asleep(s.thread[t].pc) && !s.thread[t].pc.Out?
  }

  ghost predicate Closer(s: State, t: nat, s': State)
  {
    && s'.levels == s.levels && |s'.thread| == |s.thread| && t < |s.thread|
    && Rank(s.levels, s'.thread[t].pc) < Rank(s.levels, s.thread[t].pc)
    && forall w :: 0 <= w < |s.thread| ==>
         Rank(s.levels, s'.thread[w].pc) <= Rank(s.levels, s.thread[w].pc) && s'.thread[w].entered == s.thread[w].entered
  }

  lemma UpCloser(s: State, t: nat, j: nat)
    requires Inv(s) && Prompt(s) && t < |s.thread| && s.thread[t].pc == Up(j)
    ensures Div(t, j) < |s.count[j]| && Inv(StepUp(s, t, j)) && Prompt(StepUp(s, t, j)) && Closer(s, t, StepUp(s, t, j))
  {
    hide Nodewise, Counted, Prompt, AtNode;
    AtLevel(s, t, j);
    if Leads(t, j) {
      KeepUpLeader(s, t, j);
      PromptKept(s, StepUp(s, t, j), j, Div(t, j), t, t);
    } else {
      KeepUpSecond(s, t, j);
      if s.thread[Partner(t, j)].pc.Awake? { PromptAt(s, Partner(t, j)); }
      PromptKept(s, StepUp(s, t, j), j, Div(t, j), t, Partner(t, j));
    }
  }

  lemma PromptAt(s: State, t: nat)
    requires Formed(s) && Prompt(s) && t < |s.thread| && s.thread[t].pc.Awake?
    ensures HasBoth(s, t, s.thread[t].pc.j)
  {
  }

  lemma AwakeCloser(s: State, t: nat, j: nat)
    requires Inv(s) && Prompt(s) && t < |s.thread| && s.thread[t].pc == Awake(j)
    ensures Div(t, j) < |s.count[j]| && Inv(StepAwake(s, t, j)) && Prompt(StepAwake(s, t, j)) && Closer(s, t, StepAwake(s, t, j))
  {
    hide Nodewise, Counted, Prompt, AtNode;
    PromptAt(s, t);
    LeadsLess(t, j, j - 1);
    AtLevel(s, t, j);
    KeepAwake(s, t, j);
    PromptKept(s, StepAwake(s, t, j), j, Div(t, j), t, t);
  }

  lemma DownCloser(s: State, t: nat, j: nat)
    requires Inv(s) && Prompt(s) && t < |s.thread| && s.thread[t].pc == Down(j)
    ensures Div(t, j) < |s.count[j]| && Inv(StepDown(s, t, j)) && Prompt(StepDown(s, t, j)) && Closer(s, t, StepDown(s, t, j))
  {
    hide Nodewise, Counted, Prompt, AtNode;
    LeadsLess(t, j, j - 1);
    AtLevel(s, t, j);
    KeepDown(s, t, j);
    if s.thread[Partner(t, j)].pc.Awake? { WaitsThere(s.levels, Partner(t, j), s.thread[Partner(t, j)].pc, j); }
    PromptKept(s, StepDown(s, t, j), j, Div(t, j), t, Partner(t, j));
  }

  lemma WokenCloser(s: State, t: nat, j: nat)
    requires Inv(s) && Prompt(s) && t < |s.thread| && s.thread[t].pc == Woken(j)
    ensures Inv(Fall(s, t, j)) && Prompt(Fall(s, t, j)) && Closer(s, t, Fall(s, t, j))
  {
    hide Nodewise, Counted;
    KeepWoken(s, t, j);
    var s' := Fall(s, t, j);
    forall w | 0 <= w < |s'.thread| && s'.thread[w].pc.Awake?
      ensures HasBoth(s', w, s'.thread[w].pc.j)
    {
      assert HasBoth(s, w, s.thread[w].pc.j);
    }
  }

  lemma GoCloser(s: State, t: nat)
    requires Inv(s) && Prompt(s) && Inside(s, t)
    ensures Inv(Step(s, Go(t))) && Prompt(Step(s, Go(t))) && Closer(s, t, Step(s, Go(t)))
  {
    hide Nodewise, Counted, Prompt, Closer, StepUp, StepDown, StepAwake, Fall;
    match s.thread[t].pc {
      case Up(j) => UpCloser(s, t, j);
      case Awake(j) => AwakeCloser(s, t, j);
      case Woken(j) => WokenCloser(s, t, j);
      case Down(j) => DownCloser(s, t, j);
    }
  }

  lemma EnterPrompt(s: State, t: nat)
    requires Inv(s) && Prompt(s) && t < |s.thread| && s.thread[t].pc.Out?
    ensures Inv(Enter(s, t)) && Prompt(Enter(s, t))
  {
    hide Nodewise, Counted;
    KeepEnter(s, t);
    var s' := Enter(s, t);
    forall w | 0 <= w < |s'.thread| && s'.thread[w].pc.Awake?
      ensures HasBoth(s', w, s'.thread[w].pc.j)
    {
      assert HasBoth(s, w, s.thread[w].pc.j);
    }
  }

  lemma {:induction false} RunPrompt(s: State, run: seq<Event>, s': State)
    requires Inv(s) && Prompt(s) && Run(s, run, s') && (forall e :: e in run ==> e.Go?)
    ensures Inv(s') && Prompt(s')
    decreases |run|
  {
    hide Inv, Prompt;
    if run != [] {
      var t := run[0].t;
      assert run[0] in run;
      if s.thread[t].pc.Out? { EnterPrompt(s, t); } else { GoCloser(s, t); }
      RunPrompt(Step(s, run[0]), run[1..], s');
    }
  }

  function Total(levels: nat, xs: seq<Thread>): nat
  {
    if xs == [] then 0 else Rank(levels, xs[0].pc) + Total(levels, xs[1..])
  }

  lemma {:induction false} TotalLess(levels: nat, xs: seq<Thread>, ys: seq<Thread>, t: nat)
    requires |xs| == |ys| && forall w :: 0 <= w < |xs| ==> Rank(levels, ys[w].pc) <= Rank(levels, xs[w].pc)
    ensures Total(levels, ys) <= Total(levels, xs)
    ensures t < |xs| && Rank(levels, ys[t].pc) < Rank(levels, xs[t].pc) ==> Total(levels, ys) < Total(levels, xs)
  {
    hide Rank;
    if xs != [] { TotalLess(levels, xs[1..], ys[1..], if t == 0 then |xs| else t - 1); }
  }

  /** A run in which nobody enters. */
  ghost predicate InsideRun(s: State, run: seq<nat>, s': State)
    decreases |run|
  {
    if run == [] then s' == s
    else Formed(s) && Inside(s, run[0]) && InsideRun(Step(s, Go(run[0])), run[1..], s')
  }

  lemma {:induction false} InsideEnds(s: State, run: seq<nat>, s': State)
    requires Inv(s) && Prompt(s) && InsideRun(s, run, s')
    ensures |run| + Total(s.levels, s'.thread) <= Total(s.levels, s.thread) && s'.levels == s.levels
    ensures Inv(s') && |s'.thread| == |s.thread|
    ensures forall w :: 0 <= w < |s.thread| ==> s'.thread[w].entered == s.thread[w].entered
    decreases |run|
  {
    hide Inv, Prompt, Step, Rank, Total;
    if run != [] {
      GoCloser(s, run[0]);
      var s1 := Step(s, Go(run[0]));
      TotalLess(s.levels, s.thread, s1.thread, run[0]);
      InsideEnds(s1, run[1..], s');
    }
  }

  /** Without spurious wakeups the threads in the barrier take finitely many steps, and if all have entered
      episode e then all have left it when nobody can move any more. */
  lemma EverybodyLeaves(levels: nat, before: seq<Event>, s: State, run: seq<nat>, s': State, e: nat)
    requires Run(Init(levels), before, s) && (forall v :: v in before ==> v.Go?) && InsideRun(s, run, s')
    requires forall u :: 0 <= u < |s.thread| ==> s.thread[u].entered >= e
    ensures |run| <= Total(s.levels, s.thread)
    ensures (forall t :: !Inside(s', t)) ==> forall t :: 0 <= t < |s'.thread| ==> s'.thread[t].left >= e
  {
    hide Run, InsideRun, Total, Inv;
    InitInv(levels);
    RunPrompt(Init(levels), before, s);
    InsideEnds(s, run, s');
    if (forall t :: !Inside(s', t)) && exists t :: 0 <= t < |s'.thread| && s'.thread[t].left < e {
      var t :| 0 <= t < |s'.thread| && s'.thread[t].left < e;
      var r := FindRunner(s', e, t);
      Facts(s', r);
      assert Inside(s', r);
    }
  }

  /** No signal is lost: the thread it is meant for is there when it is sent. */
  lemma SignalsReach(levels: nat, s: State, t: nat, j: nat)
    requires Reachable(levels, s) && t < |s.thread|
    ensures s.thread[t].pc == Down(j) ==>
      j >= 1 && Partner(t, j) < |s.thread| && s.thread[Partner(t, j)].pc == SleepAll(j)
    ensures s.thread[t].pc == Up(j) && !Leads(t, j) ==>
      j >= 1 && Partner(t, j) < |s.thread| && j < |s.count| && Div(t, j) < |s.count[j]|
      && (s.count[j][Div(t, j)] == 1 <==> s.thread[Partner(t, j)].pc in {SleepPartner(j), Awake(j)})
  {
    ReachableInv(levels, s);
    assert PcOk(s.levels, t, s.thread[t].pc);
    if s.thread[t].pc == Down(j) {
      LeadsLess(t, j, j - 1);
      AtLevel(s, t, j);
      WaitsThere(s.levels, Partner(t, j), s.thread[Partner(t, j)].pc, j);
    } else if s.thread[t].pc == Up(j) && !Leads(t, j) {
      AtLevel(s, t, j);
      ComesBack(s, t, j);
    }
  }

  /** The leader of a node whose second thread is yet to come either is yet to come itself, or waits. */
  lemma ComesBack(s: State, t: nat, j: nat)
    requires Inv(s) && t < |s.thread| && s.thread[t].pc == Up(j) && !Leads(t, j)
    ensures Partner(t, j) < |s.thread| && Div(t, j) < |s.count[j]|
    ensures s.count[j][Div(t, j)] == 1 <==> s.thread[Partner(t, j)].pc in {SleepPartner(j), Awake(j)}
  {
    AtLevel(s, t, j);
    var u := Partner(t, j);
    var pc := s.thread[u].pc;
    assert PcOk(s.levels, u, pc);
    if (pc.SleepAll? || pc.Woken?) && pc.j <= j { LeadsLess(u, j, pc.j); }
  }
}
