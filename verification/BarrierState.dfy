/** The logarithmic barrier of src/mubench/thread.c as a tournament: every critical section is one step. */
module BarrierState {
  import opened Powers

  // ---------- who meets whom ----------

  /** t divided by 2, j times. */
  function Div(t: nat, j: nat): nat
  {
    if j == 0 then t else Div(t, j - 1) / 2
  }

  /** t takes the lead at levels 1 to j. */
  predicate Leads(t: nat, j: nat)
  {
    j == 0 || (Leads(t, j - 1) && Div(t, j - 1) % 2 == 0)
  }

  /** The leader of node m at level j; level 0 has one node a thread. */
  function Leader(m: nat, j: nat): nat
    decreases j
  {
    if j == 0 then m else Leader(2 * m, j - 1)
  }

  /** The thread that meets t at level j. */
  function Partner(t: nat, j: nat): nat
    requires j >= 1
  {
    var m := Div(t, j - 1);
    Leader(if m % 2 == 0 then m + 1 else m - 1, j - 1)
  }

  // ---------- state ----------

  /** Up(j): about to enter node j; SleepPartner(j): waiting on proceedCond; Awake(j): woken, to look at the
      count again; SleepAll(j): waiting on proceedAllCond; Woken(j): signalled; Down(j): about to release node j. */
  datatype Pc = Out | Up(j: nat) | SleepPartner(j: nat) | Awake(j: nat) | SleepAll(j: nat) | Woken(j: nat) | Down(j: nat)

  /** How often the thread has entered the barrier and left it is history. */
  datatype Thread = Thread(pc: Pc, entered: nat, left: nat)

  /** count[j][q] is the count of node q at level j; there are Pow2(levels) threads. */
  datatype State = State(levels: nat, count: seq<seq<nat>>, thread: seq<Thread>)

  function Nodes(levels: nat): seq<seq<nat>>
  {
    seq(levels + 1, j requires 0 <= j <= levels => seq(Pow2(levels - j), _ => 0))
  }

  /** thread_barrier_init, with all threads outside. */
  function Init(levels: nat): State
  {
    State(levels, Nodes(levels), seq(Pow2(levels), _ => Thread(Out, 0, 0)))
  }

  predicate Sized(s: State)
  {
    && |s.count| == s.levels + 1 && |s.thread| == Pow2(s.levels)
    && forall j :: 0 <= j <= s.levels ==> |s.count[j]| == Pow2(s.levels - j)
  }

  predicate PcOk(levels: nat, t: nat, pc: Pc)
  {
    match pc
    case Out => true
    case Up(j) => 1 <= j <= levels && Leads(t, j - 1)
    case SleepPartner(j) => 1 <= j <= levels && Leads(t, j)
    case Awake(j) => 1 <= j <= levels && Leads(t, j)
    case SleepAll(j) => 1 <= j <= levels && Leads(t, j - 1) && !Leads(t, j)
    case Woken(j) => 1 <= j <= levels && Leads(t, j - 1) && !Leads(t, j)
    case Down(j) => 1 <= j <= levels && Leads(t, j)
  }

  // ---------- steps ----------

  datatype Event = Go(t: nat) | Spurious(t: nat)

  predicate Asleep(pc: Pc)
  {
    pc.SleepPartner? || pc.SleepAll?
  }

  /** A sleeping thread does not run; proceedCond may wake it without a signal. */
  predicate Enabled(s: State, e: Event)
  {
    match e
    case Go(t) => t < |s.thread| && !Asleep(s.thread[t].pc)
    case Spurious(t) => t < |s.thread| && s.thread[t].pc.SleepPartner?
  }

  function At(s: State, t: nat, pc: Pc): State
    requires t < |s.thread|
  {
    s.(thread := s.thread[t := s.thread[t].(pc := pc)])
  }

  function Count(s: State, t: nat, j: nat): nat
    requires Sized(s) && j <= s.levels && Div(t, j) < |s.count[j]|
  {
    s.count[j][Div(t, j)]
  }

  function WithCount(s: State, t: nat, j: nat, c: nat): State
    requires Sized(s) && j <= s.levels && Div(t, j) < |s.count[j]|
  {
    var row: seq<nat> := s.count[j][Div(t, j) := c];
    s.(count := s.count[j := row])
  }

  /** pthread_cond_signal: only the partner can be waiting. */
  function Signal(s: State, u: nat, from: Pc, to: Pc): State
  {
    if u < |s.thread| && s.thread[u].pc == from then At(s, u, to) else s
  }

  function Enter(s: State, t: nat): State
    requires t < |s.thread|
  {
    var x := s.thread[t];
    s.(thread := s.thread[t := if s.levels == 0 then x.(entered := x.entered + 1, left := x.left + 1)
                               else Thread(Up(1), x.entered + 1, x.left)])
  }

  /** Both have met at level j. */
  function Rise(s: State, t: nat, j: nat): State
    requires t < |s.thread|
  {
    At(s, t, if j < s.levels then Up(j + 1) else Down(j))
  }

  /** Levels j and above are done. */
  function Fall(s: State, t: nat, j: nat): State
    requires t < |s.thread| && j >= 1
  {
    if j > 1 then At(s, t, Down(j - 1))
    else s.(thread := s.thread[t := s.thread[t].(pc := Out, left := s.thread[t].left + 1)])
  }

  function StepUp(s: State, t: nat, j: nat): State
    requires Sized(s) && t < |s.thread| && 1 <= j <= s.levels && Div(t, j) < |s.count[j]|
  {
    var c := Count(s, t, j) + 1;
    var s1 := WithCount(s, t, j, c);
    if Leads(t, j) then
      if c < 2 then At(s1, t, SleepPartner(j)) else Rise(s1, t, j)
    else
      At(if c == 2 then Signal(s1, Partner(t, j), SleepPartner(j), Awake(j)) else s1, t, SleepAll(j))
  }

  function StepAwake(s: State, t: nat, j: nat): State
    requires Sized(s) && t < |s.thread| && 1 <= j <= s.levels && Div(t, j) < |s.count[j]|
  {
    if Count(s, t, j) < 2 then At(s, t, SleepPartner(j)) else Rise(s, t, j)
  }

  function StepDown(s: State, t: nat, j: nat): State
    requires Sized(s) && t < |s.thread| && 1 <= j <= s.levels && Div(t, j) < |s.count[j]|
  {
    Fall(Signal(WithCount(s, t, j, 0), Partner(t, j), SleepAll(j), Woken(j)), t, j)
  }

  ghost predicate Formed(s: State)
  {
    && Sized(s)
    && forall t :: 0 <= t < |s.thread| ==> PcOk(s.levels, t, s.thread[t].pc)
  }

  lemma {:induction false} DivBelow(t: nat, levels: nat, j: nat)
    requires t < Pow2(levels) && j <= levels
    ensures Div(t, j) < Pow2(levels - j)
    decreases j
  {
    if j > 0 { DivBelow(t, levels, j - 1); }
  }

  ghost function Step(s: State, e: Event): State
    requires Formed(s) && Enabled(s, e)
  {
    match e
    case Spurious(t) => At(s, t, Awake(s.thread[t].pc.j))
    case Go(t) =>
      match s.thread[t].pc
      case Out => Enter(s, t)
      case Up(j) => DivBelow(t, s.levels, j); StepUp(s, t, j)
      case Awake(j) => DivBelow(t, s.levels, j); StepAwake(s, t, j)
      case Woken(j) => Fall(s, t, j)
      case Down(j) => DivBelow(t, s.levels, j); StepDown(s, t, j)
      case _ => s
  }
}
