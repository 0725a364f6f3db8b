/** Opacity and strict serializability of every run. */
module SwissTheorems {
  import opened Words
  import opened SwissState
  import opened SwissInvariant
  import opened SwissLocal
  import opened SwissRuns

  // ---------- sequential executions ----------

  /** Memory after running whole transactions one after another. */
  function ApplyAll(m: Memory, rs: seq<Rec>): (r: Memory)
    ensures |r| == |m|
  {
    if rs == [] then m else Apply(ApplyAll(m, rs[..|rs| - 1]), rs[|rs| - 1].ops)
  }

  /** Every transaction of rs read what a sequential execution gives it. */
  ghost predicate LegalAll(m: Memory, rs: seq<Rec>)
  {
    rs == [] ||
    (LegalAll(m, rs[..|rs| - 1]) && Legal(ApplyAll(m, rs[..|rs| - 1]), rs[|rs| - 1].ops))
  }

  function Pick(recs: seq<Rec>, order: seq<nat>): seq<Rec>
    requires forall p :: 0 <= p < |order| ==> order[p] < |recs|
  {
    seq(|order|, p requires 0 <= p < |order| => recs[order[p]])
  }

  /** The first n decided transactions, those with timestamp T only, in the order they were decided. */
  function AtTs(recs: seq<Rec>, T: nat, n: nat): (o: seq<nat>)
    requires n <= |recs|
    ensures forall p :: 0 <= p < |o| ==> o[p] < n && recs[o[p]].ts == T
    ensures forall p, q :: 0 <= p < q < |o| ==> o[p] < o[q]
    ensures forall i :: 0 <= i < n && recs[i].ts == T ==> i in o
  {
    if n == 0 then [] else if recs[n - 1].ts == T then AtTs(recs, T, n - 1) + [n - 1] else AtTs(recs, T, n - 1)
  }

  /** The serial order: by timestamp, then by the order of decision; up to the first n of timestamp T. */
  function Order(recs: seq<Rec>, T: nat, n: nat): (o: seq<nat>)
    requires n <= |recs|
    ensures forall p :: 0 <= p < |o| ==> o[p] < |recs| && recs[o[p]].ts <= T
    decreases T
  {
    (if T == 0 then [] else Order(recs, T - 1, |recs|)) + AtTs(recs, T, n)
  }

  ghost predicate Earlier(recs: seq<Rec>, i: nat, j: nat)
    requires i < |recs| && j < |recs|
  {
    recs[i].ts < recs[j].ts || (recs[i].ts == recs[j].ts && i < j)
  }

  /** Every decided transaction with timestamp up to T occurs in the order, once, and the order is that of Earlier. */
  lemma {:induction false} OrderSorted(recs: seq<Rec>, T: nat)
    ensures var o := Order(recs, T, |recs|);
            && (forall p, q :: 0 <= p < q < |o| ==> Earlier(recs, o[p], o[q]))
            && (forall i :: 0 <= i < |recs| && recs[i].ts <= T ==> i in o)
  {
    if T > 0 {
      OrderSorted(recs, T - 1);
      OrderJoin(recs, T, Order(recs, T - 1, |recs|), AtTs(recs, T, |recs|));
    }
  }

  lemma OrderJoin(recs: seq<Rec>, T: nat, a: seq<nat>, b: seq<nat>)
    requires forall p :: 0 <= p < |a| ==> a[p] < |recs| && recs[a[p]].ts < T
    requires forall p :: 0 <= p < |b| ==> b[p] < |recs| && recs[b[p]].ts == T
    requires forall p, q :: 0 <= p < q < |a| ==> Earlier(recs, a[p], a[q])
    requires forall p, q :: 0 <= p < q < |b| ==> b[p] < b[q]
    ensures forall p, q :: 0 <= p < q < |a + b| ==> Earlier(recs, (a + b)[p], (a + b)[q])
  {
  }

  // ---------- replaying the serial order gives the history ----------

  ghost predicate WrittenBelow(recs: seq<Rec>, T: nat, a: nat, n: nat)
  {
    exists i :: 0 <= i < n && i < |recs| && recs[i].update && recs[i].ts == T && a in BufferOf(recs[i].ops)
  }

  /** m is memory halfway timestamp T: the first n decided transactions have had their effect. */
  ghost predicate Halfway(hist: seq<Memory>, recs: seq<Rec>, T: nat, n: nat, m: Memory)
    requires SameSizes(hist) && T < |hist|
  {
    && |m| == |hist[0]|
    && forall a :: 0 <= a < |m| ==>
         m[a] == if T == 0 || WrittenBelow(recs, T, a, n) then hist[T][a] else hist[T - 1][a]
  }

  lemma HistoryParts(hist: seq<Memory>, recs: seq<Rec>)
    requires History(hist, recs)
    ensures SameSizes(hist) && RecsLegal(hist, recs)
  {
  }

  lemma RecAt(hist: seq<Memory>, recs: seq<Rec>, n: nat)
    requires RecsLegal(hist, recs) && n < |recs|
    ensures recs[n].ts < |hist| && (recs[n].update ==> 1 <= recs[n].ts) && Legal(hist[Base(recs[n])], recs[n].ops)
    ensures !recs[n].update ==> BufferOf(recs[n].ops) == map[]
  {
  }

  lemma WrittenBelowAll(recs: seq<Rec>, T: nat, a: nat)
    ensures WrittenBelow(recs, T, a, |recs|) == WrittenAt(recs, T, a)
  {
  }

  /** Nobody decided later writes, at the same timestamp, what a read-only transaction read. */
  lemma LaterWriter(recs: seq<Rec>, T: nat, n: nat, a: nat)
    requires TouchedEarlier(recs) && n < |recs| && recs[n].ts == T && !recs[n].update && Touches(recs[n].ops, a)
    requires !WrittenBelow(recs, T, a, n)
    ensures !WrittenAt(recs, T, a)
  {
    hide BufferOf, Touches;
  }

  /** What transaction n touches is at that point of the replay as it was when it ran. */
  lemma TouchedAsRun(hist: seq<Memory>, recs: seq<Rec>, T: nat, n: nat, m: Memory, a: nat)
    requires History(hist, recs) && T < |hist| && n < |recs| && recs[n].ts == T && Halfway(hist, recs, T, n, m)
    requires a < |m| && Touches(recs[n].ops, a)
    ensures m[a] == hist[Base(recs[n])][a]
    ensures recs[n].update && a in BufferOf(recs[n].ops) ==> !WrittenBelow(recs, T, a, n)
  {
    hide BufferOf, Legal, Through, HistoryWritten, RealTime, RecsLegal;
    assert RecsLegal(hist, recs);
    RecAt(hist, recs, n);
    if WrittenBelow(recs, T, a, n) {
      var i :| 0 <= i < n && i < |recs| && recs[i].update && recs[i].ts == T && a in BufferOf(recs[i].ops);
      BufferTouched(recs[i].ops, a);
      if recs[n].update {
        assert a !in BufferOf(recs[n].ops);
        assert hist[T][a] == hist[T - 1][a];
      }
    } else if !recs[n].update && T > 0 {
      assert !WrittenAt(recs, T, a) by { LaterWriter(recs, T, n, a); }
    }
  }

  /** Running transaction n takes memory one step further. */
  lemma HalfwayWord(hist: seq<Memory>, recs: seq<Rec>, T: nat, n: nat, m: Memory, a: nat)
    requires History(hist, recs) && T < |hist| && n < |recs| && recs[n].ts == T && Halfway(hist, recs, T, n, m)
    requires a < |m|
    ensures Apply(m, recs[n].ops)[a] ==
            if T == 0 || WrittenBelow(recs, T, a, n + 1) then hist[T][a] else hist[T - 1][a]
  {
    hide BufferOf, Legal, Apply, Through, History;
    HistoryParts(hist, recs);
    ApplyThroughBuffer(m, recs[n].ops, a);
    RecAt(hist, recs, n);
    if a in BufferOf(recs[n].ops) {
      BufferTouched(recs[n].ops, a);
      TouchedAsRun(hist, recs, T, n, m, a);
      WordWritten(hist, recs, n, a);
      assert WrittenBelow(recs, T, a, n + 1);
    } else {
      WrittenSame(recs, T, a, n);
      NotWritten(recs[n].ops, a, m[a]);
    }
  }

  lemma NotWritten(ops: seq<Op>, a: nat, w: Word)
    requires a !in BufferOf(ops)
    ensures Through(BufferOf(ops), a, w) == w
  {
  }

  lemma WordWritten(hist: seq<Memory>, recs: seq<Rec>, n: nat, a: nat)
    requires History(hist, recs) && n < |recs| && recs[n].update && a in BufferOf(recs[n].ops) && a < |hist[0]|
    requires 1 <= recs[n].ts < |hist|
    ensures hist[recs[n].ts][a] == Through(BufferOf(recs[n].ops), a, hist[recs[n].ts - 1][a])
  {
    hide BufferOf, Legal, Through, TouchedEarlier, RealTime, ReadsKept, HistoryKept;
  }

  lemma WrittenSame(recs: seq<Rec>, T: nat, a: nat, n: nat)
    requires n < |recs| && (recs[n].update && recs[n].ts == T ==> a !in BufferOf(recs[n].ops))
    ensures WrittenBelow(recs, T, a, n + 1) == WrittenBelow(recs, T, a, n)
  {
    hide BufferOf;
  }

  lemma HalfwayStep(hist: seq<Memory>, recs: seq<Rec>, T: nat, n: nat, m: Memory)
    requires History(hist, recs) && T < |hist| && n < |recs| && recs[n].ts == T && Halfway(hist, recs, T, n, m)
    ensures Legal(m, recs[n].ops) && Halfway(hist, recs, T, n + 1, Apply(m, recs[n].ops))
  {
    hide BufferOf, Legal, Apply, History, Touches, RecsLegal;
    HistoryParts(hist, recs);
    RecAt(hist, recs, n);
    forall a: nat | a < |m| && Touches(recs[n].ops, a)
      ensures m[a] == hist[Base(recs[n])][a]
    {
      TouchedAsRun(hist, recs, T, n, m, a);
    }
    LegalFrame(hist[Base(recs[n])], m, recs[n].ops);
    forall a | 0 <= a < |m|
      ensures Apply(m, recs[n].ops)[a] == if T == 0 || WrittenBelow(recs, T, a, n + 1) then hist[T][a] else hist[T - 1][a]
    {
      HalfwayWord(hist, recs, T, n, m, a);
    }
  }

  lemma HalfwaySkip(hist: seq<Memory>, recs: seq<Rec>, T: nat, n: nat, m: Memory)
    requires SameSizes(hist) && T < |hist| && n < |recs| && recs[n].ts != T && Halfway(hist, recs, T, n, m)
    ensures Halfway(hist, recs, T, n + 1, m)
  {
    hide BufferOf;
    forall a | 0 <= a < |m|
      ensures WrittenBelow(recs, T, a, n + 1) == WrittenBelow(recs, T, a, n)
    {
      WrittenSame(recs, T, a, n);
    }
  }

  /** The first word of timestamp T is the last of T - 1. */
  lemma HalfwayStart(hist: seq<Memory>, recs: seq<Rec>, T: nat)
    requires SameSizes(hist) && T < |hist|
    ensures Halfway(hist, recs, T, 0, if T == 0 then hist[0] else hist[T - 1])
  {
  }

  lemma HalfwayEnd(hist: seq<Memory>, recs: seq<Rec>, T: nat, m: Memory)
    requires History(hist, recs) && T < |hist| && Halfway(hist, recs, T, |recs|, m)
    ensures m == hist[T]
  {
    hide BufferOf, Legal, Through, TouchedEarlier, RealTime, ReadsKept, HistoryWritten, RecsLegal;
    forall a | 0 <= a < |m|
      ensures m[a] == hist[T][a]
    {
      WrittenBelowAll(recs, T, a);
    }
  }

  // ---------- the serial order ----------

  /** The decided transactions up to the first n of timestamp T, in serial order. */
  function Serial(recs: seq<Rec>, T: nat, n: nat): seq<Rec>
    requires n <= |recs|
  {
    Pick(recs, Order(recs, T, n))
  }

  lemma SerialStart(recs: seq<Rec>, T: nat)
    ensures Serial(recs, T, 0) == if T == 0 then [] else Serial(recs, T - 1, |recs|)
  {
    assert Order(recs, T, 0) == if T == 0 then [] else Order(recs, T - 1, |recs|);
  }

  lemma SerialNext(recs: seq<Rec>, T: nat, n: nat)
    requires n < |recs|
    ensures Serial(recs, T, n + 1) ==
            if recs[n].ts == T then Serial(recs, T, n) + [recs[n]] else Serial(recs, T, n)
  {
    assert Order(recs, T, n + 1) == Order(recs, T, n) + if recs[n].ts == T then [n] else [];
  }

  lemma ApplyAllSnoc(m: Memory, rs: seq<Rec>, r: Rec)
    ensures ApplyAll(m, rs + [r]) == Apply(ApplyAll(m, rs), r.ops)
    ensures LegalAll(m, rs + [r]) <==> LegalAll(m, rs) && Legal(ApplyAll(m, rs), r.ops)
  {
    hide Legal, Apply;
    assert (rs + [r])[..|rs|] == rs;
  }

  /** Running the decided transactions one after another is legal, and gives the history. */
  lemma {:induction false} Replay(hist: seq<Memory>, recs: seq<Rec>, T: nat, n: nat)
    requires History(hist, recs) && T < |hist| && n <= |recs|
    ensures LegalAll(hist[0], Serial(recs, T, n))
    ensures Halfway(hist, recs, T, n, ApplyAll(hist[0], Serial(recs, T, n)))
    decreases T, n
  {
    hide BufferOf, Legal, Apply, ApplyAll, LegalAll, History, Halfway, Serial, RecsLegal;
    HistoryParts(hist, recs);
    if n == 0 {
      SerialStart(recs, T);
      HalfwayStart(hist, recs, T);
      if T == 0 { NoneYet(hist[0]); } else { ReplayHistory(hist, recs, T - 1); }
    } else {
      Replay(hist, recs, T, n - 1);
      SerialNext(recs, T, n - 1);
      var m := ApplyAll(hist[0], Serial(recs, T, n - 1));
      if recs[n - 1].ts == T {
        HalfwayStep(hist, recs, T, n - 1, m);
        ApplyAllSnoc(hist[0], Serial(recs, T, n - 1), recs[n - 1]);
      } else {
        HalfwaySkip(hist, recs, T, n - 1, m);
      }
    }
  }

  lemma NoneYet(m: Memory)
    ensures ApplyAll(m, []) == m && LegalAll(m, [])
  {
  }

  /** hist[T] is the result of running the decided transactions up to T one after another. */
  lemma {:induction false} ReplayHistory(hist: seq<Memory>, recs: seq<Rec>, T: nat)
    requires History(hist, recs) && T < |hist|
    ensures LegalAll(hist[0], Serial(recs, T, |recs|))
    ensures ApplyAll(hist[0], Serial(recs, T, |recs|)) == hist[T]
    decreases T, |recs| + 1
  {
    hide BufferOf, Legal, Apply, ApplyAll, LegalAll, History, Halfway, Serial;
    Replay(hist, recs, T, |recs|);
    HistoryParts(hist, recs);
    HalfwayEnd(hist, recs, T, ApplyAll(hist[0], Serial(recs, T, |recs|)));
  }

  // ---------- the theorems ----------

  /** Opacity: whatever a live transaction has been given so far, even if it will abort, is what a
      sequential execution gives it after the committed transactions up to its valid_ts. */
  lemma Opacity(m: Memory, s: State, t: nat)
    requires Reachable(m, s) && t < |s.tx| && Live(s.tx[t])
    ensures LegalAll(m, Serial(s.recs, s.tx[t].validTs, |s.recs|))
    ensures Legal(ApplyAll(m, Serial(s.recs, s.tx[t].validTs, |s.recs|)), s.tx[t].ops)
  {
    hide Reachable, Shared, History, Thread, Apart, Legal, LegalAll, ApplyAll, Serial;
    ReachableInv(m, s);
    SnapshotOf(s, t);
    ReplayHistory(s.hist, s.recs, s.tx[t].validTs);
  }

  lemma SnapshotOf(s: State, t: nat)
    requires Inv(s) && t < |s.tx| && Live(s.tx[t])
    ensures History(s.hist, s.recs)
    ensures s.tx[t].validTs < |s.hist| && Legal(s.hist[s.tx[t].validTs], s.tx[t].ops)
  {
    hide Apart, Legal, History;
    assert Thread(s, t, s.tx[t]);
  }

  /** What each read gives back, without the execution model: the committed word, overlaid with own writes. */
  lemma ReadOfSnapshot(m: Memory, s: State, t: nat, n: nat)
    requires Reachable(m, s) && t < |s.tx| && Live(s.tx[t]) && n < |s.tx[t].ops| && s.tx[t].ops[n].Rd?
    ensures var c := ApplyAll(m, Serial(s.recs, s.tx[t].validTs, |s.recs|));
            var o := s.tx[t].ops[n];
            o.a < |c| && o.v == Through(BufferOf(s.tx[t].ops[..n]), o.a, c[o.a])
  {
    hide Reachable, Live, LegalAll, ApplyAll, Serial, Through, BufferOf, Legal, Apply;
    Opacity(m, s, t);
    var c := ApplyAll(m, Serial(s.recs, s.tx[t].validTs, |s.recs|));
    LegalAt(c, s.tx[t].ops, n);
    ApplyThroughBuffer(c, s.tx[t].ops[..n], s.tx[t].ops[n].a);
  }

  lemma {:induction false} LegalAt(m: Memory, ops: seq<Op>, n: nat)
    requires Legal(m, ops) && n < |ops|
    ensures ops[n].a < |m| && (ops[n].Rd? ==> Apply(m, ops[..n])[ops[n].a] == ops[n].v)
    decreases |ops|
  {
    hide Apply;
    if n < |ops| - 1 {
      LegalAt(m, ops[..|ops| - 1], n);
      assert ops[..|ops| - 1][..n] == ops[..n];
    }
  }

  /** No word of this stripe is waiting to be written back. */
  ghost predicate Settled(s: State, i: nat)
  {
    forall t, k :: 0 <= t < |s.tx| && Decided(s.tx[t]) && 0 <= k < |s.tx[t].writeLog| && ReadLocked(s.tx[t], k) ==>
      s.tx[t].writeLog[k].x != i
  }

  /** Serializability: running the decided transactions one after another, in the order of their
      timestamps, reproduces every read; and the memory it leaves is the memory there is, wherever
      no commit is halfway. */
  lemma Serializability(m: Memory, s: State)
    requires Reachable(m, s)
    ensures LegalAll(m, Serial(s.recs, s.clock, |s.recs|))
    ensures |s.stripe| == |s.mem| == |m|
    ensures forall a :: 0 <= a < |s.mem| && Settled(s, s.stripe[a]) ==>
              s.mem[a] == ApplyAll(m, Serial(s.recs, s.clock, |s.recs|))[a]
  {
    hide Reachable, Shared, History, Thread, Apart, Legal, LegalAll, ApplyAll, Serial, Settled;
    ReachableInv(m, s);
    HistoryOf(s);
    ReplayHistory(s.hist, s.recs, s.clock);
    ReachableSize(m, s);
    forall a | 0 <= a < |s.mem| && Settled(s, s.stripe[a])
      ensures s.mem[a] == s.hist[s.clock][a]
    {
      MemoryNow(s, a);
    }
  }

  lemma HistoryOf(s: State)
    requires Inv(s)
    ensures Sized(s) && History(s.hist, s.recs)
  {
    hide History;
  }

  lemma MemoryNow(s: State, a: nat)
    requires Inv(s) && a < |s.mem| && a < |s.stripe| && Settled(s, s.stripe[a]) && s.clock < |s.hist| && a < |s.hist[s.clock]|
    ensures s.mem[a] == s.hist[s.clock][a]
  {
    hide Apart, History, ReadLocked, Decided;
    var i := s.stripe[a];
    if s.rl[i].Set? {
      var t := s.wl[i].t;
      assert Thread(s, t, s.tx[t]);
      assert ReadLocked(s.tx[t], s.wl[i].k) && !Decided(s.tx[t]);
      assert Current(s.stripe, s.mem, s.hist, i, s.tx[t].writeLog[s.wl[i].k].oldVersion);
    }
  }

  ghost predicate NoneDecided(s: State)
  {
    forall t :: 0 <= t < |s.tx| ==> !Decided(s.tx[t])
  }

  /** The final memory. */
  lemma FinalMemory(m: Memory, s: State)
    requires Reachable(m, s) && NoneDecided(s)
    ensures s.mem == ApplyAll(m, Serial(s.recs, s.clock, |s.recs|))
  {
    hide Reachable, ApplyAll, Serial, LegalAll;
    Serializability(m, s);
    ReachableSize(m, s);
    assert forall i :: Settled(s, i);
  }

  lemma ReachableSize(m: Memory, s: State)
    requires Reachable(m, s)
    ensures |s.mem| == |m| && s.hist != []
  {
    hide Reachable, Apart, Thread, History;
    ReachableInv(m, s);
  }

  /** The serial order has every decided transaction once, and agrees with real time: a transaction
      that started after another was decided comes later. */
  lemma OrderIsStrict(m: Memory, s: State)
    requires Reachable(m, s)
    ensures var o := Order(s.recs, s.clock, |s.recs|);
            && (forall i :: 0 <= i < |s.recs| ==> i in o)
            && (forall p, q :: 0 <= p < q < |o| ==> o[p] != o[q])
            && (forall p, q :: 0 <= p < |o| && 0 <= q < |o| && o[p] < s.recs[o[q]].begin ==> p < q)
  {
    hide Reachable, Order, Thread, Apart, Legal, HistoryWritten, HistoryKept, ReadsKept, TouchedEarlier;
    ReachableInv(m, s);
    HistoryOf(s);
    OrderSorted(s.recs, s.clock);
    var o := Order(s.recs, s.clock, |s.recs|);
    forall p, q | 0 <= p < |o| && 0 <= q < |o| && o[p] < s.recs[o[q]].begin
      ensures p < q
    {
      assert Earlier(s.recs, o[p], o[q]);
    }
  }
}
