/** Deferred frees of one thread (src/stm/memory/memory_impl.h), on lists of pointer buffers. */
module Reclaim {
  /** A freed pointer; commit is history: the timestamp of the commit that freed it, once it has committed. */
  datatype Entry = Entry(ptr: nat, commit: nat)

  /** rollback is where to roll back to; ts means something if initTs is set. */
  datatype Buffer = Buffer(ptrs: seq<Entry>, rollback: nat, ts: nat, initTs: bool)

  const CLEAN := Buffer([], 0, 0, false)

  /** freed is the chain from freed_in_tx_old to freed_in_tx. physical is history: what has been
      given back to the allocator. */
  datatype Manager = Manager(freed: seq<Buffer>, logically: seq<Buffer>, lastMinimum: nat, physical: seq<Entry>)

  const NEW := Manager([CLEAN], [], 0, [])

  function Entries(bs: seq<Buffer>): seq<Entry>
  {
    if bs == [] then [] else bs[0].ptrs + Entries(bs[1..])
  }

  // ---------- operations ----------

  function LastBuffer(bs: seq<Buffer>): Buffer
  {
    if bs == [] then CLEAN else bs[|bs| - 1]
  }

  function Front(bs: seq<Buffer>): seq<Buffer>
  {
    if bs == [] then [] else bs[..|bs| - 1]
  }

  function TxFree(m: Manager, size: nat, p: nat): Manager
  {
    var b := LastBuffer(m.freed);
    var b' := b.(ptrs := b.ptrs + [Entry(p, 0)]);
    m.(freed := Front(m.freed) + [b'] + if |b'.ptrs| == size then [CLEAN] else [])
  }

  /** History: the entries get the timestamp of their commit. */
  function Stamped(es: seq<Entry>, from: nat, ts: nat): (r: seq<Entry>)
    ensures |r| == |es|
    ensures forall i :: 0 <= i < |r| ==> r[i] == if i < from then es[i] else es[i].(commit := ts)
  {
    seq(|es|, i requires 0 <= i < |es| => if i < from then es[i] else es[i].(commit := ts))
  }

  function StampedAll(bs: seq<Buffer>, ts: nat): (r: seq<Buffer>)
    ensures |r| == |bs|
  {
    if bs == [] then []
    else [bs[0].(ptrs := Stamped(bs[0].ptrs, bs[0].rollback, ts))] + StampedAll(bs[1..], ts)
  }

  /** TxCommit, up to FreeDominated. */
  function TxCommit(m: Manager, ts: nat): Manager
  {
    var bs := StampedAll(m.freed, ts);
    var b := LastBuffer(bs);
    var last := b.(rollback := |b.ptrs|);
    if |bs| <= 1 then m.(freed := [last])
    else m.(freed := [last], logically := [bs[0].(ts := ts, initTs := true)] + bs[1..|bs| - 1] + m.logically)
  }

  function TxAbort(m: Manager): Manager
  {
    var b := if m.freed == [] then CLEAN else m.freed[0];
    m.(freed := [b.(ptrs := if b.rollback <= |b.ptrs| then b.ptrs[..b.rollback] else b.ptrs)])
  }

  /** The first buffer of the list that is dominated. */
  function FirstDominated(bs: seq<Buffer>, minimum: nat): (i: nat)
    ensures i <= |bs|
    ensures i < |bs| ==> bs[i].initTs && bs[i].ts <= minimum
    ensures forall j :: 0 <= j < i ==> !(bs[j].initTs && bs[j].ts <= minimum)
  {
    if bs == [] then 0
    else if bs[0].initTs && bs[0].ts <= minimum then 0
    else 1 + FirstDominated(bs[1..], minimum)
  }

  /** FreeDominated, once the minimum has been found. */
  function FreeDominated(m: Manager, minimum: nat): Manager
  {
    var i := FirstDominated(m.logically, minimum);
    m.(lastMinimum := minimum, logically := m.logically[..i], physical := m.physical + Entries(m.logically[i..]))
  }

  // ---------- conservation ----------

  /** What the current transaction has freed so far. */
  function Pending(m: Manager): seq<Entry>
  {
    if m.freed == [] then []
    else (if m.freed[0].rollback <= |m.freed[0].ptrs| then m.freed[0].ptrs[m.freed[0].rollback..] else [])
         + Entries(m.freed[1..])
  }

  /** What committed transactions have freed: in the committed part of freed_in_tx, waiting, or given back. */
  function Committed(m: Manager): seq<Entry>
  {
    (if m.freed == [] then []
     else if m.freed[0].rollback <= |m.freed[0].ptrs| then m.freed[0].ptrs[..m.freed[0].rollback] else m.freed[0].ptrs)
    + Entries(m.logically) + m.physical
  }

  ghost predicate Shaped(m: Manager, size: nat)
  {
    && 1 <= |m.freed| && m.freed[0].rollback <= |m.freed[0].ptrs|
    && (forall i :: 1 <= i < |m.freed| ==> m.freed[i].rollback == 0)
    && (forall i :: 0 <= i < |m.freed| - 1 ==> |m.freed[i].ptrs| == size)
    && (size > 0 ==> |m.freed[|m.freed| - 1].ptrs| < size && m.freed[0].rollback < size)
    && (forall i :: 0 <= i < |m.freed| ==> !m.freed[i].initTs)
    && (m.logically != [] ==> m.logically[0].initTs)
  }

  function Ptrs(es: seq<Entry>): (r: seq<nat>)
    ensures |r| == |es|
  {
    seq(|es|, i requires 0 <= i < |es| => es[i].ptr)
  }

  /** The bag of pointers among some entries. */
  function Bag(es: seq<Entry>): multiset<nat>
  {
    multiset(Ptrs(es))
  }

  lemma BagSum(a: seq<Entry>, b: seq<Entry>)
    ensures Bag(a + b) == Bag(a) + Bag(b)
  {
    assert Ptrs(a + b) == Ptrs(a) + Ptrs(b);
  }

  lemma {:induction false} EntriesSum(a: seq<Buffer>, b: seq<Buffer>)
    ensures Entries(a + b) == Entries(a) + Entries(b)
  {
    if a == [] {
      assert a + b == b;
    } else {
      assert (a + b)[1..] == a[1..] + b;
      EntriesSum(a[1..], b);
    }
  }

  lemma EntriesOne(b: Buffer)
    ensures Entries([b]) == b.ptrs
  {
    assert [b][1..] == [];
  }

  /** The chain of buffers is its front and its last. */
  lemma FrontLast(bs: seq<Buffer>)
    requires bs != []
    ensures bs == Front(bs) + [LastBuffer(bs)] && Entries(bs) == Entries(Front(bs)) + LastBuffer(bs).ptrs
  {
    EntriesSum(Front(bs), [LastBuffer(bs)]);
    EntriesOne(LastBuffer(bs));
  }

  lemma FreeShaped(m: Manager, size: nat, p: nat)
    requires Shaped(m, size) && 1 <= size
    ensures Shaped(TxFree(m, size, p), size)
  {
  }

  /** What is pending, as entries of the whole chain. */
  lemma PendingIs(m: Manager)
    requires 1 <= |m.freed| && m.freed[0].rollback <= |m.freed[0].ptrs|
    ensures Entries(m.freed) == m.freed[0].ptrs[..m.freed[0].rollback] + Pending(m)
  {
    var r := m.freed[0].rollback;
    assert m.freed[0].ptrs == m.freed[0].ptrs[..r] + m.freed[0].ptrs[r..];
  }

  lemma FreeEntries(m: Manager, size: nat, p: nat)
    requires 1 <= |m.freed|
    ensures Entries(TxFree(m, size, p).freed) == Entries(m.freed) + [Entry(p, 0)]
  {
    FrontLast(m.freed);
    var b := LastBuffer(m.freed);
    var b' := b.(ptrs := b.ptrs + [Entry(p, 0)]);
    var more: seq<Buffer> := if |b'.ptrs| == size then [CLEAN] else [];
    EntriesSum(Front(m.freed) + [b'], more);
    EntriesSum(Front(m.freed), [b']);
    EntriesOne(b');
    EntriesOne(CLEAN);
  }

  /** The committed part of freed_in_tx stays. */
  lemma FreeFirst(m: Manager, size: nat, p: nat)
    requires 1 <= |m.freed| && m.freed[0].rollback <= |m.freed[0].ptrs|
    ensures var m' := TxFree(m, size, p);
            && 1 <= |m'.freed| && m'.freed[0].rollback == m.freed[0].rollback <= |m'.freed[0].ptrs|
            && m'.freed[0].ptrs[..m.freed[0].rollback] == m.freed[0].ptrs[..m.freed[0].rollback]
            && m'.logically == m.logically && m'.physical == m.physical
  {
  }

  /** A pointer freed is pending; nothing committed changes. */
  lemma FreeKeeps(m: Manager, size: nat, p: nat)
    requires Shaped(m, size) && 1 <= size
    ensures Shaped(TxFree(m, size, p), size)
    ensures Pending(TxFree(m, size, p)) == Pending(m) + [Entry(p, 0)]
    ensures Committed(TxFree(m, size, p)) == Committed(m)
  {
    FreeShaped(m, size, p);
    var m' := TxFree(m, size, p);
    FreeEntries(m, size, p);
    FreeFirst(m, size, p);
    hide TxFree, Entries, Pending, Shaped;
    PendingIs(m);
    PendingIs(m');
    CutPrefix(m.freed[0].ptrs[..m.freed[0].rollback], Pending(m'), Pending(m) + [Entry(p, 0)]);
  }

  lemma CutPrefix(a: seq<Entry>, x: seq<Entry>, y: seq<Entry>)
    requires a + x == a + y
    ensures x == y
  {
    assert x == (a + x)[|a|..] && y == (a + y)[|a|..];
  }

  /** Pointers freed by an aborted transaction are forgotten. */
  lemma AbortKeeps(m: Manager, size: nat)
    requires Shaped(m, size) && 1 <= size
    ensures Shaped(TxAbort(m), size) && Pending(TxAbort(m)) == [] && Committed(TxAbort(m)) == Committed(m)
  {
  }

  lemma {:induction false} StampedEntries(bs: seq<Buffer>, ts: nat)
    ensures Ptrs(Entries(StampedAll(bs, ts))) == Ptrs(Entries(bs))
    ensures Bag(Entries(StampedAll(bs, ts))) == Bag(Entries(bs))
  {
    if bs != [] {
      StampedEntries(bs[1..], ts);
      assert Ptrs(Entries(bs)) == Ptrs(bs[0].ptrs) + Ptrs(Entries(bs[1..]));
      var c := StampedAll(bs, ts);
      assert c[1..] == StampedAll(bs[1..], ts);
      assert Ptrs(Entries(c)) == Ptrs(c[0].ptrs) + Ptrs(Entries(c[1..]));
      assert Ptrs(c[0].ptrs) == Ptrs(bs[0].ptrs);
    }
  }

  lemma {:induction false} StampedAt(bs: seq<Buffer>, ts: nat, i: nat)
    requires i < |bs|
    ensures StampedAll(bs, ts)[i] == bs[i].(ptrs := Stamped(bs[i].ptrs, bs[i].rollback, ts))
  {
    if i > 0 { StampedAt(bs[1..], ts, i - 1); }
  }

  lemma CommitShaped(m: Manager, size: nat, ts: nat)
    requires Shaped(m, size) && 1 <= size
    ensures Shaped(TxCommit(m, ts), size) && Pending(TxCommit(m, ts)) == []
  {
    StampedAt(m.freed, ts, |m.freed| - 1);
    StampedAt(m.freed, ts, 0);
  }

  /** A commit adds exactly what the transaction has freed. */
  lemma CommitKeeps(m: Manager, size: nat, ts: nat)
    requires Shaped(m, size) && 1 <= size
    ensures Shaped(TxCommit(m, ts), size) && Pending(TxCommit(m, ts)) == []
    ensures Bag(Committed(TxCommit(m, ts))) == Bag(Committed(m)) + Bag(Pending(m))
  {
    CommitShaped(m, size, ts);
    var m' := TxCommit(m, ts);
    var bs := StampedAll(m.freed, ts);
    CommitParts(m, ts);
    hide Shaped, TxCommit, StampedAll, Entries, Bag, Pending, Committed, Front, LastBuffer;
    StampedEntries(m.freed, ts);
    PendingIs(m);
    BagSum(m.freed[0].ptrs[..m.freed[0].rollback], Pending(m));
    CommittedBag(m);
    CommittedBag(m');
    FrontLast(bs);
    BagSum(Entries(Front(bs)), LastBuffer(bs).ptrs);
    BagSum(Entries(Front(bs)), Entries(m.logically));
    Moved(Bag(m.freed[0].ptrs[..m.freed[0].rollback]), Bag(Pending(m)), Bag(Entries(Front(bs))), Bag(LastBuffer(bs).ptrs),
          Bag(Entries(m.logically)), Bag(m.physical));
  }

  lemma Moved(done: multiset<nat>, pending: multiset<nat>, front: multiset<nat>, last: multiset<nat>,
              logically: multiset<nat>, physical: multiset<nat>)
    requires done + pending == front + last
    ensures last + (front + logically) + physical == done + logically + physical + pending
  {
    assert last + (front + logically) + physical == (front + last) + (logically + physical);
    assert done + logically + physical + pending == (done + pending) + (logically + physical);
  }

  lemma CommitParts(m: Manager, ts: nat)
    requires 1 <= |m.freed|
    ensures var m', bs := TxCommit(m, ts), StampedAll(m.freed, ts);
            && |bs| == |m.freed| && |m'.freed| == 1 && m'.physical == m.physical
            && m'.freed[0].rollback == |m'.freed[0].ptrs| && m'.freed[0].ptrs[..m'.freed[0].rollback] == LastBuffer(bs).ptrs
            && Entries(m'.logically) == Entries(Front(bs)) + Entries(m.logically)
  {
    var bs := StampedAll(m.freed, ts);
    if |bs| > 1 {
      ChainEntries(bs, ts, m.logically);
    } else {
      assert Front(bs) == [];
    }
  }

  lemma CommittedBag(m: Manager)
    requires 1 <= |m.freed| && m.freed[0].rollback <= |m.freed[0].ptrs|
    ensures Bag(Committed(m)) ==
            Bag(m.freed[0].ptrs[..m.freed[0].rollback]) + Bag(Entries(m.logically)) + Bag(m.physical)
  {
    var a := m.freed[0].ptrs[..m.freed[0].rollback];
    BagSum(a + Entries(m.logically), m.physical);
    BagSum(a, Entries(m.logically));
  }

  lemma ChainEntries(bs: seq<Buffer>, ts: nat, rest: seq<Buffer>)
    requires |bs| > 1
    ensures Entries([bs[0].(ts := ts, initTs := true)] + bs[1..|bs| - 1] + rest) == Entries(Front(bs)) + Entries(rest)
  {
    var b := bs[0].(ts := ts, initTs := true);
    EntriesSum([b] + bs[1..|bs| - 1], rest);
    EntriesSum([b], bs[1..|bs| - 1]);
    EntriesOne(b);
    assert Front(bs)[1..] == bs[1..|bs| - 1];
  }

  /** Giving back moves pointers, and loses none. */
  lemma DominatedKeeps(m: Manager, size: nat, minimum: nat)
    requires Shaped(m, size)
    ensures Shaped(FreeDominated(m, minimum), size) && Pending(FreeDominated(m, minimum)) == Pending(m)
    ensures Bag(Committed(FreeDominated(m, minimum))) == Bag(Committed(m))
  {
    var m' := FreeDominated(m, minimum);
    var i := FirstDominated(m.logically, minimum);
    CommittedBag(m);
    CommittedBag(m');
    assert m.logically == m.logically[..i] + m.logically[i..];
    EntriesSum(m.logically[..i], m.logically[i..]);
    BagSum(Entries(m.logically[..i]), Entries(m.logically[i..]));
    BagSum(m.physical, Entries(m.logically[i..]));
    var a, x, y, p := Bag(m.freed[0].ptrs[..m.freed[0].rollback]), Bag(Entries(m.logically[..i])), Bag(Entries(m.logically[i..])), Bag(m.physical);
    hide Committed, Entries, Bag, FreeDominated;
    assert a + (x + y) + p == a + x + (p + y);
  }

  // ---------- every run ----------

  datatype Call = Free(p: nat) | Commit(ts: nat) | Abort | Dominate(minimum: nat)

  function After(calls: seq<Call>, size: nat): Manager
  {
    if calls == [] then NEW
    else
      var m := After(calls[..|calls| - 1], size);
      match calls[|calls| - 1]
      case Free(p) => TxFree(m, size, p)
      case Commit(ts) => TxCommit(m, ts)
      case Abort => TxAbort(m)
      case Dominate(minimum) => FreeDominated(m, minimum)
  }

  /** The pointers freed since the last commit or abort. */
  function FreedNow(calls: seq<Call>): seq<nat>
  {
    if calls == [] then []
    else
      match calls[|calls| - 1]
      case Free(p) => FreedNow(calls[..|calls| - 1]) + [p]
      case Commit(_) => []
      case Abort => []
      case Dominate(_) => FreedNow(calls[..|calls| - 1])
  }

  /** The pointers freed by transactions that committed. */
  function FreedForGood(calls: seq<Call>): multiset<nat>
  {
    if calls == [] then multiset{}
    else
      var before := calls[..|calls| - 1];
      match calls[|calls| - 1]
      case Commit(_) => FreedForGood(before) + multiset(FreedNow(before))
      case _ => FreedForGood(before)
  }

  /** Conservation: whatever the calls, the pointers freed by committed transactions are, each once, in
      the committed part of freed_in_tx, in freed_logically, or given back; those of the current
      transaction are pending; those of aborted transactions are nowhere. */
  lemma {:induction false} Conservation(calls: seq<Call>, size: nat)
    requires 1 <= size
    ensures Shaped(After(calls, size), size)
    ensures Bag(Committed(After(calls, size))) == FreedForGood(calls)
    ensures Ptrs(Pending(After(calls, size))) == FreedNow(calls)
  {
    if calls == [] {
      assert Committed(NEW) == [] && Pending(NEW) == [];
    } else {
      var before := calls[..|calls| - 1];
      Conservation(before, size);
      var m := After(before, size);
      hide TxFree, TxCommit, TxAbort, FreeDominated, Shaped, Pending, Committed, Bag;
      match calls[|calls| - 1]
      case Free(p) =>
        FreeKeeps(m, size, p);
        assert Ptrs(Pending(m) + [Entry(p, 0)]) == Ptrs(Pending(m)) + [p];
      case Commit(ts) => CommitKeeps(m, size, ts);
      case Abort => AbortKeeps(m, size);
      case Dominate(minimum) => DominatedKeeps(m, size, minimum);
    }
  }

  // ---------- timestamps ----------

  ghost predicate UpTo(es: seq<Entry>, c: nat)
  {
    forall i :: 0 <= i < |es| ==> es[i].commit <= c
  }

  /** freed_logically is sorted: a buffer with a timestamp dates everything from it on; c is later than all. */
  ghost predicate Ordered(m: Manager, c: nat)
  {
    && 1 <= |m.freed| && m.freed[0].rollback <= |m.freed[0].ptrs|
    && UpTo(m.freed[0].ptrs[..m.freed[0].rollback], c)
    && (forall i :: 0 <= i < |m.logically| ==> UpTo(m.logically[i].ptrs, c) && (m.logically[i].initTs ==> m.logically[i].ts <= c))
    && (forall i, j :: 0 <= i <= j < |m.logically| && m.logically[i].initTs ==>
          UpTo(m.logically[j].ptrs, m.logically[i].ts) && (m.logically[j].initTs ==> m.logically[j].ts <= m.logically[i].ts))
  }

  /** Whatever a chain held before, and whatever it holds now, was committed by ts. */
  lemma StampedUpTo(bs: seq<Buffer>, ts: nat, c: nat, i: nat)
    requires c <= ts && i < |bs| && (i > 0 ==> bs[i].rollback == 0)
    requires i == 0 ==> bs[0].rollback <= |bs[0].ptrs| && UpTo(bs[0].ptrs[..bs[0].rollback], c)
    ensures UpTo(StampedAll(bs, ts)[i].ptrs, ts) && StampedAll(bs, ts)[i].initTs == bs[i].initTs
  {
    StampedAt(bs, ts, i);
    if i == 0 {
      assert forall j :: 0 <= j < bs[0].rollback ==> bs[0].ptrs[..bs[0].rollback][j] == bs[0].ptrs[j];
    }
  }

  /** Buffer i of freed_logically after a commit: the chain without its last buffer comes first. */
  lemma CommitLists(m: Manager, size: nat, ts: nat, i: nat)
    requires Shaped(m, size) && 1 <= size && |m.freed| > 1 && i < |TxCommit(m, ts).logically|
    ensures var b := TxCommit(m, ts).logically[i];
      if i < |m.freed| - 1
      then b == StampedAll(m.freed, ts)[i].(ts := if i == 0 then ts else m.freed[i].ts, initTs := i == 0 || m.freed[i].initTs)
      else b == m.logically[i - (|m.freed| - 1)]
  {
    StampedAt(m.freed, ts, if i < |m.freed| then i else 0);
  }

  lemma CommitOrdered(m: Manager, size: nat, ts: nat, c: nat)
    requires Shaped(m, size) && 1 <= size && Ordered(m, c) && c <= ts
    ensures Ordered(TxCommit(m, ts), ts)
  {
    hide StampedAll, TxCommit, UpTo;
    var m' := TxCommit(m, ts);
    CommitFreed(m, size, ts, c);
    CommitShaped(m, size, ts);
    if |m.freed| > 1 {
      forall i | 0 <= i < |m'.logically|
        ensures UpTo(m'.logically[i].ptrs, ts) && (m'.logically[i].initTs ==> m'.logically[i].ts <= ts)
        ensures i >= |m.freed| - 1 ==> m'.logically[i] == m.logically[i - (|m.freed| - 1)]
        ensures i == 0 ==> m'.logically[i].initTs ==> m'.logically[i].ts == ts
        ensures 0 < i < |m.freed| - 1 ==> !m'.logically[i].initTs
      {
        CommitLists(m, size, ts, i);
        if i < |m.freed| - 1 { StampedUpTo(m.freed, ts, c, i); } else { UpToLater(m.logically[i - (|m.freed| - 1)].ptrs, c, ts); }
      }
    }
  }

  lemma CommitFreed(m: Manager, size: nat, ts: nat, c: nat)
    requires Shaped(m, size) && 1 <= size && Ordered(m, c) && c <= ts
    ensures var f := TxCommit(m, ts).freed;
      1 <= |f| && f[0].rollback == |f[0].ptrs| && UpTo(f[0].ptrs[..f[0].rollback], ts)
    ensures |m.freed| <= 1 ==> TxCommit(m, ts).logically == m.logically
    ensures |TxCommit(m, ts).logically| == |m.freed| - 1 + |m.logically|
    ensures forall i :: 0 <= i < |m.logically| ==> UpTo(m.logically[i].ptrs, ts)
  {
    hide UpTo;
    StampedUpTo(m.freed, ts, c, |m.freed| - 1);
    var b := TxCommit(m, ts).freed[0];
    assert b.ptrs[..b.rollback] == b.ptrs;
    forall i | 0 <= i < |m.logically| ensures UpTo(m.logically[i].ptrs, ts) { UpToLater(m.logically[i].ptrs, c, ts); }
  }

  lemma UpToLater(es: seq<Entry>, c: nat, d: nat)
    requires UpTo(es, c) && c <= d
    ensures UpTo(es, d)
  {
  }

  /** Only what was freed by a commit no later than the minimum is given back. */
  lemma DominatedIsOld(m: Manager, c: nat, minimum: nat)
    requires Ordered(m, c)
    ensures Ordered(FreeDominated(m, minimum), c)
    ensures |m.physical| <= |FreeDominated(m, minimum).physical|
    ensures forall i :: |m.physical| <= i < |FreeDominated(m, minimum).physical| ==>
              FreeDominated(m, minimum).physical[i].commit <= minimum
  {
    var i := FirstDominated(m.logically, minimum);
    var old_ := m.logically[i..];
    forall j | 0 <= j < |old_|
      ensures UpTo(old_[j].ptrs, minimum)
    {
      assert UpTo(m.logically[i + j].ptrs, m.logically[i].ts);
    }
    EntriesUpTo(old_, minimum);
  }

  lemma {:induction false} EntriesUpTo(bs: seq<Buffer>, c: nat)
    requires forall j :: 0 <= j < |bs| ==> UpTo(bs[j].ptrs, c)
    ensures UpTo(Entries(bs), c)
  {
    if bs != [] { EntriesUpTo(bs[1..], c); }
  }

  lemma FreeOrdered(m: Manager, size: nat, p: nat, c: nat)
    requires Shaped(m, size) && 1 <= size && Ordered(m, c)
    ensures Ordered(TxFree(m, size, p), c) && Ordered(TxAbort(m), c)
  {
    var m' := TxFree(m, size, p);
    var r := m.freed[0].rollback;
    assert m'.freed[0].ptrs[..r] == m.freed[0].ptrs[..r];
    assert m.freed[0].ptrs[..r][..r] == m.freed[0].ptrs[..r];
  }
}
