/** The barrier as the code runs it: an array of counts, and the variables i and base of every thread. */
module BarrierMachine {
  import opened Powers
  import opened BarrierState
  import opened BarrierProofs

  // ---------- the arithmetic of i, base and index ----------

  lemma Larger(x: nat, q: nat, d: nat)
    requires x < q
    ensures (x + 1) * d <= q * d
  {
  }

  lemma Quotient(d: nat, q: nat, r: nat)
    requires r < d
    ensures (q * d + r) / d == q && (q * d + r) % d == r
  {
    var n := q * d + r;
    var x := n / d;
    assert n == x * d + n % d;
    if x < q { Larger(x, q, d); } else if x > q { Larger(q, x, d); }
  }

  lemma Twice(d: nat, p: nat)
    ensures d * p == d / 2 * (2 * p) + if d % 2 == 0 then 0 else p
  {
    var h := d / 2;
    assert h * (2 * p) == 2 * (h * p) == 2 * h * p;
    if d % 2 == 1 { assert (2 * h + 1) * p == 2 * h * p + p; }
  }

  lemma Halve(t: nat, p: nat)
    requires p >= 1
    ensures t / (2 * p) == t / p / 2
    ensures t % (2 * p) == 0 <==> t % p == 0 && t / p % 2 == 0
  {
    var d, r := t / p, t % p;
    assert t == d * p + r;
    Twice(d, p);
    Quotient(2 * p, d / 2, if d % 2 == 0 then r else p + r);
  }

  /** threadId / i and threadId % i. */
  lemma {:induction false} DivPow2(t: nat, j: nat)
    ensures t / Pow2(j) == Div(t, j)
    ensures t % Pow2(j) == 0 <==> Leads(t, j)
  {
    if j > 0 {
      DivPow2(t, j - 1);
      Halve(t, Pow2(j - 1));
    }
  }

  /** numThread / i. */
  lemma {:induction false} ThreadsPow2(levels: nat, j: nat)
    requires j <= levels
    ensures Pow2(levels) / Pow2(j) == Pow2(levels - j)
  {
    if j > 0 {
      ThreadsPow2(levels, j - 1);
      Halve(Pow2(levels), Pow2(j - 1));
    }
  }

  lemma {:induction false} Monotone(j: nat, k: nat)
    requires j < k
    ensures 2 * Pow2(j) <= Pow2(k)
    decreases k
  {
    if j < k - 1 { Monotone(j, k - 1); }
  }

  /** Where the nodes of level j begin. */
  function Base(levels: nat, j: nat): nat
    requires 1 <= j <= levels + 1
  {
    if j > 1 then Monotone(levels - j + 1, levels); Pow2(levels) - Pow2(levels - j + 1) else 0
  }

  function Index(levels: nat, j: nat, q: nat): (r: nat)
    requires 1 <= j <= levels && q < Pow2(levels - j)
    ensures r + 1 < Pow2(levels)
  {
    if j < levels then Monotone(levels - j, levels); Base(levels, j) + q else Base(levels, j) + q
  }

  /** Every node has its own place. */
  lemma IndexApart(levels: nat, j: nat, q: nat, k: nat, p: nat)
    requires 1 <= j <= levels && q < Pow2(levels - j) && 1 <= k <= levels && p < Pow2(levels - k)
    requires Index(levels, j, q) == Index(levels, k, p)
    ensures j == k && q == p
  {
    if j < k { IndexBelow(levels, j, q, k); }
    if k < j { IndexBelow(levels, k, p, j); }
  }

  lemma IndexBelow(levels: nat, j: nat, q: nat, k: nat)
    requires 1 <= j < k <= levels && q < Pow2(levels - j)
    ensures Index(levels, j, q) < Base(levels, k)
  {
    if j + 1 < k { Monotone(levels - k + 1, levels - j); }
  }

  // ---------- the barrier ----------

  /** Where a thread is between two critical sections. */
  datatype Where = Outside | Arriving | OnProceed | Rechecking | OnProceedAll | Signalled | Releasing

  ghost predicate Local(levels: nat, w: Where, i: nat, base: nat, pc: Pc)
  {
    match pc
    case Out => w.Outside?
    case Up(j) => w.Arriving? && InNode(levels, i, base, j)
    case SleepPartner(j) => w.OnProceed? && InNode(levels, i, base, j)
    case Awake(j) => w.Rechecking? && InNode(levels, i, base, j)
    case SleepAll(j) => w.OnProceedAll? && InNode(levels, i, base, j)
    case Woken(j) => w.Signalled? && InNode(levels, i, base, j)
    case Down(j) => w.Releasing? && 1 <= j <= levels && i == Pow2(j) && base == Base(levels, j + 1)
  }

  predicate InNode(levels: nat, i: nat, base: nat, j: nat)
  {
    1 <= j <= levels && i == Pow2(j) && base == Base(levels, j)
  }

  ghost predicate Locals(levels: nat, at: seq<Where>, i: seq<nat>, base: seq<nat>, xs: seq<Thread>)
  {
    && |at| == |i| == |base| == |xs| == Pow2(levels)
    && forall t :: 0 <= t < |at| ==> Local(levels, at[t], i[t], base[t], xs[t].pc)
  }

  lemma LocalsSized(levels: nat, at: seq<Where>, i: seq<nat>, base: seq<nat>, xs: seq<Thread>)
    requires Locals(levels, at, i, base, xs)
    ensures |at| == |i| == |base| == |xs| == Pow2(levels)
  {
  }

  /** Waking a thread leaves its variables alone. */
  lemma LocalsWoken(levels: nat, at: seq<Where>, i: seq<nat>, base: seq<nat>, xs: seq<Thread>, u: nat, j: nat, w: Where)
    requires Locals(levels, at, i, base, xs) && u < |xs| && (w.Rechecking? || w.Signalled?)
    requires xs[u].pc == if w.Rechecking? then SleepPartner(j) else SleepAll(j)
    ensures u < |at| && Locals(levels, at[u := w], i, base, xs[u := xs[u].(pc := if w.Rechecking? then Awake(j) else Woken(j))])
  {
  }

  lemma LocalsSet(levels: nat, at: seq<Where>, i: seq<nat>, base: seq<nat>, xs: seq<Thread>,
                  t: nat, w: Where, n: nat, b: nat, x: Thread)
    requires Locals(levels, at, i, base, xs) && t < |at| && Local(levels, w, n, b, x.pc)
    ensures t < |i| && t < |base| && t < |xs| && Locals(levels, at[t := w], i[t := n], base[t := b], xs[t := x])
    ensures i[t := i[t]] == i && base[t := base[t]] == base
  {
  }

  ghost predicate Counts(count: seq<nat>, s: State)
  {
    && Sized(s) && |count| == Pow2(s.levels)
    && forall j, q :: 1 <= j <= s.levels && 0 <= q < |s.count[j]| ==> count[Index(s.levels, j, q)] == s.count[j][q]
  }

  lemma InvFormed(s: State)
    requires Inv(s)
    ensures Formed(s)
  {
  }

  lemma CountAt(count: seq<nat>, s: State, t: nat, j: nat)
    requires Counts(count, s) && 1 <= j <= s.levels && Div(t, j) < Pow2(s.levels - j)
    ensures |count| == Pow2(s.levels) && Sized(s) && count[Index(s.levels, j, Div(t, j))] == Count(s, t, j)
  {
  }

  /** Setting the count of one node leaves the others alone. */
  lemma CountsSet(count: seq<nat>, s: State, count': seq<nat>, t: nat, j: nat, c: nat)
    requires Counts(count, s) && 1 <= j <= s.levels && Div(t, j) < Pow2(s.levels - j)
    requires |count| == Pow2(s.levels) && count' == count[Index(s.levels, j, Div(t, j)) := c]
    ensures Sized(s) && Counts(count', WithCount(s, t, j, c))
  {
    var s' := WithCount(s, t, j, c);
    forall k, p | 1 <= k <= s'.levels && 0 <= p < |s'.count[k]|
      ensures count'[Index(s.levels, k, p)] == s'.count[k][p]
    {
      if Index(s.levels, k, p) == Index(s.levels, j, Div(t, j)) { IndexApart(s.levels, k, p, j, Div(t, j)); }
    }
  }

  lemma CountsOnly(count: seq<nat>, s: State, s': State)
    requires Counts(count, s) && s'.levels == s.levels && s'.count == s.count && |s'.thread| == |s.thread|
    ensures Counts(count, s')
  {
  }

  /** base + numThread / i and 2 * i, one level up. */
  lemma RiseArithmetic(levels: nat, j: nat)
    requires 1 <= j <= levels
    ensures Base(levels, j) + Pow2(levels) / Pow2(j) == Base(levels, j + 1)
    ensures 2 * Pow2(j) == Pow2(j + 1) && (2 * Pow2(j) <= Pow2(levels) <==> j < levels)
  {
    ThreadsPow2(levels, j);
    if j < levels { Monotone(j, levels); }
  }

  /** i / 2, one level down. */
  lemma FallArithmetic(j: nat)
    requires j >= 1
    ensures Pow2(j) / 2 == Pow2(j - 1) && (Pow2(j) / 2 > 1 <==> j > 1)
  {
  }

  function Woke(xs: seq<Thread>, u: nat, from: Pc, to: Pc): seq<Thread>
  {
    if u < |xs| && xs[u].pc == from then xs[u := xs[u].(pc := to)] else xs
  }

  lemma UpIs(s: State, t: nat, j: nat)
    requires Formed(s) && t < |s.thread| && s.thread[t].pc == Up(j) && Div(t, j) < Pow2(s.levels - j)
    requires Partner(t, j) != t
    ensures var next, c := Step(s, Go(t)), Count(s, t, j) + 1;
      && next.levels == s.levels && next.count == WithCount(s, t, j, c).count
      && next.thread == (if !Leads(t, j) && c == 2 then Woke(s.thread, Partner(t, j), SleepPartner(j), Awake(j)) else s.thread)
           [t := s.thread[t].(pc := if !Leads(t, j) then SleepAll(j) else if c < 2 then SleepPartner(j)
                                    else if j < s.levels then Up(j + 1) else Down(j))]
  {
  }

  lemma DownIs(s: State, t: nat, j: nat)
    requires Formed(s) && t < |s.thread| && s.thread[t].pc == Down(j) && Div(t, j) < Pow2(s.levels - j)
    requires Partner(t, j) != t
    ensures var next := Step(s, Go(t));
      && next.levels == s.levels && next.count == WithCount(s, t, j, 0).count
      && |next.thread| == |s.thread| && next.thread[t].pc == (if j > 1 then Down(j - 1) else Out)
      && next.thread == Woke(s.thread, Partner(t, j), SleepAll(j), Woken(j))[t := next.thread[t]]
  {
  }

  // the divisions, by name
  function Stepped(base: nat, n: nat, i: nat): int requires i >= 1 { base - n / i }

  function Share(t: nat, i: nat): nat requires i >= 1 { t / i }

  function Half(i: nat): nat { i / 2 }

  class Barrier {
    const numThread: nat
    const count: array<nat>
    var at: seq<Where>
    var i: seq<nat>
    var base: seq<nat>
    ghost var s: State

    /** The variables of every thread say where it is in the tournament. */
    ghost predicate Placed()
      reads `at, `i, `base, `s
    {
      Inv(s) && numThread == Pow2(s.levels) && Locals(s.levels, at, i, base, s.thread)
    }

    ghost predicate Valid()
      reads this, count
    {
      Placed() && Counts(count[..], s)
    }

    /** thread_barrier_alloc and thread_barrier_init. */
    constructor (n: nat, ghost levels: nat)
      requires n == Pow2(levels)
      ensures Valid() && fresh(count) && s == Init(levels) && numThread == n
    {
      numThread := n;
      count := new nat[n];
      at, i, base := seq(n, _ => Outside), seq(n, _ => 0), seq(n, _ => 0);
      s := Init(levels);
      new;
      for k := 0 to n
        invariant forall p :: 0 <= p < k ==> count[p] == 0
        modifies count
      {
        count[k] := 0;
      }
      InitInv(levels);
    }

    /** Thread u waits, or does whatever else w stands for, at this node. */
    predicate WaitsAt(u: nat, w: Where, index: nat)
      reads this
    {
      u < |at| && u < |i| && u < |base| && at[u] == w && i[u] >= 1 && base[u] + u / i[u] == index
    }

    /** pthread_cond_signal on one of the two conditions of a node: one of the threads that wait there goes on. */
    method SignalAt(index: nat, from: Where, to: Where)
      requires |at| == |i| == |base|
      modifies this`at
      ensures |at| == old(|at|)
      ensures (at == old(at) && forall u :: 0 <= u < |at| ==> !old(WaitsAt(u, from, index)))
              || exists u :: 0 <= u < |at| && old(WaitsAt(u, from, index)) && at == old(at)[u := to]
    {
      if u :| 0 <= u < |at| && WaitsAt(u, from, index) {
        at := at[u := to];
      }
    }

    /** index and the test of threadId % i, for a thread at a node. */
    lemma Arithmetic(t: nat, j: nat)
      requires Placed() && t < numThread && InNode(s.levels, i[t], base[t], j)
      ensures Div(t, j) < Pow2(s.levels - j) && base[t] + t / i[t] == Index(s.levels, j, Div(t, j))
      ensures t % i[t] == 0 <==> Leads(t, j)
    {
      DivBelow(t, s.levels, j);
      DivPow2(t, j);
    }

    /** Thread u, which waits on a condition of node k. */
    lemma Waiting(u: nat, w: Where, k: nat)
      requires Placed() && u < numThread && (w.OnProceed? || w.OnProceedAll?)
      requires s.thread[u].pc == if w.OnProceed? then SleepPartner(k) else SleepAll(k)
      ensures 1 <= k <= s.levels && Div(u, k) < Pow2(s.levels - k) && Leads(u, k - 1) && (Leads(u, k) <==> w.OnProceed?)
      ensures at[u] == w && i[u] >= 1 && base[u] + u / i[u] == Index(s.levels, k, Div(u, k))
    {
      assert Local(s.levels, at[u], i[u], base[u], s.thread[u].pc) && PcOk(s.levels, u, s.thread[u].pc);
      Arithmetic(u, k);
      if w.OnProceed? { LeadsLess(u, k, k - 1); }
    }

    /** At most one thread waits on a condition: the partner of whoever signals it. */
    lemma OnlyWaiter(t: nat, j: nat, u: nat, w: Where)
      requires Placed() && t < numThread && 1 <= j <= s.levels && Leads(t, j - 1) && Div(t, j) < Pow2(s.levels - j)
      requires (w.OnProceed? && !Leads(t, j)) || (w.OnProceedAll? && Leads(t, j))
      ensures WaitsAt(u, w, Index(s.levels, j, Div(t, j))) <==>
              u == Partner(t, j) && u < numThread && s.thread[u].pc == if w.OnProceed? then SleepPartner(j) else SleepAll(j)
    {
      hide Inv, PcOk;
      InvFormed(s);
      AtLevel(s, t, j);
      if u < numThread && at[u] == w {
        assert Local(s.levels, at[u], i[u], base[u], s.thread[u].pc);
        var k := s.thread[u].pc.j;
        Waiting(u, w, k);
        AtLevel(s, u, k);
        if WaitsAt(u, w, Index(s.levels, j, Div(t, j))) {
          IndexApart(s.levels, j, Div(t, j), k, Div(u, k));
        }
      } else if u == Partner(t, j) && s.thread[u].pc == (if w.OnProceed? then SleepPartner(j) else SleepAll(j)) {
        Waiting(u, w, j);
      }
    }

    /** The signal reaches the partner if it waits, and nobody else. */
    method WakePartner(t: nat, ghost j: nat, index: nat, from: Where, to: Where)
      requires Placed() && t < numThread && 1 <= j <= s.levels && Leads(t, j - 1) && Div(t, j) < Pow2(s.levels - j)
      requires (from.OnProceed? && !Leads(t, j)) || (from.OnProceedAll? && Leads(t, j))
      requires index == Index(s.levels, j, Div(t, j))
      modifies this`at
      ensures var u := Partner(t, j);
              && u < |s.thread| && u != t
              && at == if s.thread[u].pc == (if from.OnProceed? then SleepPartner(j) else SleepAll(j)) then old(at)[u := to] else old(at)
    {
      hide Inv, Locals;
      InvFormed(s);
      LocalsSized(s.levels, at, i, base, s.thread);
      AtLevel(s, t, j);
      forall u: nat {:trigger WaitsAt(u, from, index)}
        ensures WaitsAt(u, from, index) <==>
          u == Partner(t, j) && u < numThread && s.thread[u].pc == if from.OnProceed? then SleepPartner(j) else SleepAll(j)
      {
        OnlyWaiter(t, j, u, from);
      }
      ghost var waits := WaitsAt(Partner(t, j), from, index);
      SignalAt(index, from, to);
    }

    lemma Here(t: nat)
      requires Placed() && t < numThread
      ensures Formed(s) && |at| == |i| == |base| == |s.thread| == numThread
      ensures Local(s.levels, at[t], i[t], base[t], s.thread[t].pc) && PcOk(s.levels, t, s.thread[t].pc)
    {
    }

    // ---------- thread_barrier ----------

    method Enter(t: nat)
      requires Valid() && t < numThread && at[t].Outside?
      modifies this`at, this`i, this`base, this`s
      ensures Valid() && s == Step(old(s), Go(t))
    {
      StepKeeps(s, Go(t));
      if numThread >= 2 {
        at, i, base := at[t := Arriving], i[t := 2], base[t := 0];
      }
      s := Step(s, Go(t));
    }

    /** A store to the count of a node, which the ghost arguments name. */
    method SetCount(index: nat, c: nat, ghost t: nat, ghost j: nat)
      requires Counts(count[..], s) && 1 <= j <= s.levels && Div(t, j) < Pow2(s.levels - j) && index == Index(s.levels, j, Div(t, j))
      modifies count
      ensures Sized(s) && Counts(count[..], WithCount(s, t, j, c))
      ensures count[..] == old(count[..])[index := c]
    {
      CountAt(count[..], s, t, j);
      count[index] := c;
      CountsSet(old(count[..]), s, count[..], t, j, c);
    }

    /** The end of the do-while loop: one level up, or on to the loop that releases. */
    method Climb(t: nat)
      requires t < |at| && |at| == |i| == |base| && i[t] >= 1
      modifies this`at, this`i, this`base
      ensures |at| == old(|at|) && |i| == old(|i|) && |base| == old(|base|)
      ensures at == old(at)[t := if 2 * old(i[t]) <= numThread then Arriving else Releasing]
      ensures i == old(i)[t := if 2 * old(i[t]) <= numThread then 2 * old(i[t]) else old(i[t])]
      ensures base == old(base)[t := old(base[t]) + numThread / old(i[t])]
    {
      base := base[t := base[t] + numThread / i[t]];
      i := i[t := i[t] * 2];
      if i[t] <= numThread {
        at := at[t := Arriving];
      } else {
        i := i[t := i[t] / 2];
        at := at[t := Releasing];
      }
    }

    /** The head of the second loop. */
    method Descend(t: nat)
      requires t < |at| && |at| == |i| == |base|
      modifies this`at, this`i
      ensures |at| == old(|at|) && |i| == old(|i|)
      ensures i == old(i)[t := Half(old(i[t]))]
      ensures at == old(at)[t := if Half(old(i[t])) > 1 then Releasing else Outside]
    {
      i := i[t := Half(i[t])];
      at := at[t := if i[t] > 1 then Releasing else Outside];
    }

    /** The mutex of the node is taken and the count goes up; the first to come waits for the second. */
    method Arrive(t: nat)
      requires Valid() && t < numThread && at[t].Arriving?
      modifies this`at, this`i, this`base, this`s, count
      ensures Valid() && s == Step(old(s), Go(t))
    {
      hide Inv, Counts, Locals;
      Here(t);
      ghost var j := s.thread[t].pc.j;
      Arithmetic(t, j);
      StepKeeps(s, Go(t));
      CountAt(count[..], s, t, j);
      Meeting(t, j);
      UpIs(s, t, j);
      hide Step;
      ghost var next := Step(s, Go(t));
      var index := base[t] + t / i[t];
      SetCount(index, count[index] + 1, t, j);
      CountsOnly(count[..], WithCount(s, t, j, count[index]), next);
      if t % i[t] == 0 {
        if count[index] < 2 {
          LocalsSet(s.levels, at, i, base, s.thread, t, OnProceed, i[t], base[t], next.thread[t]);
          at := at[t := OnProceed];
        } else {
          ClimbLocals(t, j, next.thread[t]);
          Climb(t);
        }
      } else {
        ghost var xs := s.thread;
        if count[index] == 2 {
          ghost var u := Partner(t, j);
          WakePartner(t, j, index, OnProceed, Rechecking);
          if s.thread[u].pc == SleepPartner(j) { LocalsWoken(s.levels, old(at), i, base, s.thread, u, j, Rechecking); }
          xs := Woke(s.thread, u, SleepPartner(j), Awake(j));
        }
        LocalsSet(s.levels, at, i, base, xs, t, OnProceedAll, i[t], base[t], next.thread[t]);
        at := at[t := OnProceedAll];
      }
      s := next;
    }

    lemma Meeting(t: nat, j: nat)
      requires Placed() && t < numThread && 1 <= j <= s.levels && Leads(t, j - 1)
      ensures Partner(t, j) < |s.thread| && Partner(t, j) != t && numThread == |s.thread|
    {
      AtLevel(s, t, j);
    }

    lemma ClimbLocals(t: nat, j: nat, x: Thread)
      requires Placed() && t < |at| && t < |i| && t < |base| && t < |s.thread| && InNode(s.levels, i[t], base[t], j)
      requires x.pc == if j < s.levels then Up(j + 1) else Down(j)
      ensures i[t] >= 1 && (2 * i[t] <= numThread <==> j < s.levels)
      ensures var n := if j < s.levels then 2 * i[t] else i[t];
              Locals(s.levels, at[t := if j < s.levels then Arriving else Releasing], i[t := n],
                     base[t := base[t] + numThread / i[t]], s.thread[t := x])
    {
      hide Inv, Locals;
      RiseArithmetic(s.levels, j);
      LocalsSet(s.levels, at, i, base, s.thread, t, if j < s.levels then Arriving else Releasing,
                if j < s.levels then 2 * i[t] else i[t], base[t] + numThread / i[t], x);
    }

    /** Woken on proceedCond: the count decides. */
    method Recheck(t: nat)
      requires Valid() && t < numThread && at[t].Rechecking?
      modifies this`at, this`i, this`base, this`s
      ensures Valid() && s == Step(old(s), Go(t))
    {
      hide Inv, Counts, Locals;
      Here(t);
      ghost var j := s.thread[t].pc.j;
      Arithmetic(t, j);
      StepKeeps(s, Go(t));
      CountAt(count[..], s, t, j);
      ghost var next := Step(s, Go(t));
      CountsOnly(count[..], s, next);
      var index := base[t] + t / i[t];
      if count[index] < 2 {
        LocalsSet(s.levels, at, i, base, s.thread, t, OnProceed, i[t], base[t], next.thread[t]);
        at := at[t := OnProceed];
      } else {
        ClimbLocals(t, j, next.thread[t]);
        Climb(t);
      }
      s := next;
    }

    /** proceedCond may wake a thread without a signal. */
    method WakeUp(t: nat)
      requires Valid() && t < numThread && at[t].OnProceed?
      modifies this`at, this`s
      ensures Valid() && s == Step(old(s), Spurious(t))
    {
      hide Inv, Counts, Locals;
      Here(t);
      StepKeeps(s, Spurious(t));
      LocalsWoken(s.levels, at, i, base, s.thread, t, s.thread[t].pc.j, Rechecking);
      at := at[t := Rechecking];
      CountsOnly(count[..], s, Step(s, Spurious(t)));
      s := Step(s, Spurious(t));
    }

    /** Woken on proceedAllCond: out of the first loop, and into the second one level down. */
    method Resume(t: nat)
      requires Valid() && t < numThread && at[t].Signalled?
      modifies this`at, this`i, this`s
      ensures Valid() && s == Step(old(s), Go(t))
    {
      hide Inv, Counts, Locals;
      Here(t);
      ghost var j := s.thread[t].pc.j;
      StepKeeps(s, Go(t));
      ghost var next := Step(s, Go(t));
      FallArithmetic(j);
      LocalsSet(s.levels, at, i, base, s.thread, t, if j > 1 then Releasing else Outside, i[t] / 2, base[t], next.thread[t]);
      Descend(t);
      CountsOnly(count[..], s, next);
      s := next;
    }

    lemma ReleaseArithmetic(t: nat, j: nat)
      requires Placed() && t < |s.thread| == numThread && s.thread[t].pc == Down(j)
      ensures t < |at| && t < |i| == |base| && i[t] >= 1 && Stepped(base[t], numThread, i[t]) >= 0 && 1 <= j <= s.levels
      ensures Div(t, j) < Pow2(s.levels - j) && Stepped(base[t], numThread, i[t]) + Share(t, i[t]) == Index(s.levels, j, Div(t, j))
    {
      hide Inv;
      assert Local(s.levels, at[t], i[t], base[t], s.thread[t].pc);
      DivPow2(t, j);
      DivBelow(t, s.levels, j);
      RiseArithmetic(s.levels, j);
    }

    lemma DescendLocals(at': seq<Where>, xs: seq<Thread>, t: nat, j: nat, x: Thread)
      requires Placed() && t < |s.thread| == numThread && s.thread[t].pc == Down(j) && Locals(s.levels, at', i, base, xs)
      requires x.pc == if j > 1 then Down(j - 1) else Out
      ensures t < |at'| == |i| == |base| == |xs| && i[t] >= 1 && Stepped(base[t], numThread, i[t]) >= 0
      ensures Locals(s.levels, at'[t := if Half(i[t]) > 1 then Releasing else Outside], i[t := Half(i[t])],
                     base[t := Stepped(base[t], numThread, i[t])], xs[t := x])
    {
      hide Inv;
      assert Local(s.levels, at[t], i[t], base[t], s.thread[t].pc);
      RiseArithmetic(s.levels, j);
      FallArithmetic(j);
      hide Locals;
      LocalsSet(s.levels, at', i, base, xs, t, if j > 1 then Releasing else Outside, Half(i[t]), Stepped(base[t], numThread, i[t]), x);
    }

    /** One turn of the second loop: the node is reset and its second thread released. */
    method Release(t: nat)
      requires Valid() && t < numThread && at[t].Releasing?
      modifies this`at, this`i, this`base, this`s, count
      ensures Valid() && s == Step(old(s), Go(t))
    {
      hide Inv, Counts, Locals;
      Here(t);
      ghost var j := s.thread[t].pc.j;
      ReleaseArithmetic(t, j);
      LeadsLess(t, j, j - 1);
      CountAt(count[..], s, t, j);
      Meeting(t, j);
      hide Step, Local, Index, Base, Pow2, Div, Leads, Partner, Stepped, Share, Half, WithCount;
      var start := Stepped(base[t], numThread, i[t]);
      var index := start + Share(t, i[t]);
      SetCount(index, 0, t, j);
      ReleaseLocals(t, j);
      ghost var next := Step(s, Go(t));
      CountsOnly(count[..], WithCount(s, t, j, 0), next);
      WakePartner(t, j, index, OnProceedAll, Signalled);
      Lower(t, start, next);
    }

    /** The rest of the turn, which touches only the variables of t. */
    method Lower(t: nat, start: nat, ghost next: State)
      requires t < |at| == |i| == |base|
      requires Inv(next) && numThread == Pow2(next.levels) && Counts(count[..], next)
      requires Locals(next.levels, at[t := if Half(i[t]) > 1 then Releasing else Outside], i[t := Half(i[t])], base[t := start], next.thread)
      modifies this`at, this`i, this`base, this`s
      ensures Valid() && s == next
    {
      hide Inv, Counts, Locals, Half, Pow2;
      base := base[t := start];
      Descend(t);
      s := next;
    }

    lemma ReleaseLocals(t: nat, j: nat)
      requires Placed() && t < |s.thread| == numThread && s.thread[t].pc == Down(j) && Div(t, j) < Pow2(s.levels - j)
      requires Partner(t, j) < |s.thread| && Partner(t, j) != t
      ensures Enabled(s, Go(t)) && Formed(s) && t < |at| == |i| == |base| && i[t] >= 1 && Stepped(base[t], numThread, i[t]) >= 0
      ensures var next, u := Step(s, Go(t)), Partner(t, j);
        && Inv(next) && next.levels == s.levels && next.count == WithCount(s, t, j, 0).count && |next.thread| == |s.thread|
        && Locals(s.levels, (if s.thread[u].pc == SleepAll(j) then at[u := Signalled] else at)[t := if Half(i[t]) > 1 then Releasing else Outside],
                  i[t := Half(i[t])], base[t := Stepped(base[t], numThread, i[t])], next.thread)
    {
      hide Inv, Locals;
      Here(t);
      StepKeeps(s, Go(t));
      DownIs(s, t, j);
      hide Step;
      var u := Partner(t, j);
      if s.thread[u].pc == SleepAll(j) { LocalsWoken(s.levels, at, i, base, s.thread, u, j, Signalled); }
      var at' := if s.thread[u].pc == SleepAll(j) then at[u := Signalled] else at;
      DescendLocals(at', Woke(s.thread, u, SleepAll(j), Woken(j)), t, j, Step(s, Go(t)).thread[t]);
    }
  }
}
