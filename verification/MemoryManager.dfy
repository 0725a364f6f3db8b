/** The memory manager of a thread (src/stm/memory/memory_impl.h): linked lists of buffers of freed pointers. */
module MemoryManagers {
  import opened Reclaim

  class PtrBuffer {
    var ptrs: seq<nat>      // ptrs[..next_ptr]
    var rollback: nat
    var ts: nat
    var initTs: bool
    var next: PtrBuffer?
    var prev: PtrBuffer?

    constructor ()
      ensures Holds(CLEAN) && next == null && prev == null
    {
      ptrs, rollback, ts, initTs := [], 0, 0, false;
      next, prev := null, null;
    }

    /** The timestamp means nothing while initTs is not set. */
    ghost predicate Holds(b: Buffer)
      reads `ptrs, `rollback, `ts, `initTs
    {
      ptrs == Ptrs(b.ptrs) && rollback == b.rollback && initTs == b.initTs && (b.initTs ==> ts == b.ts)
    }

    method Clear()
      modifies this
      ensures Holds(CLEAN) && next == null && prev == null
    {
      ptrs, rollback, initTs := [], 0, false;
      next, prev := null, null;
    }
  }

  ghost predicate Distinct(bs: seq<PtrBuffer>)
  {
    forall i, j :: 0 <= i < j < |bs| ==> bs[i] != bs[j]
  }

  ghost predicate Apart(a: seq<PtrBuffer>, b: seq<PtrBuffer>)
  {
    forall i, j :: 0 <= i < |a| && 0 <= j < |b| ==> a[i] != b[j]
  }

  ghost predicate Hold(bs: seq<PtrBuffer>, vs: seq<Buffer>)
    reads bs`ptrs, bs`rollback, bs`ts, bs`initTs
  {
    |bs| == |vs| && forall i :: 0 <= i < |bs| ==> bs[i].Holds(vs[i])
  }

  // ---------- links ----------

  /** Neighbours point to each other. What the ends point to is left open: freed_in_tx keeps stale links there. */
  ghost predicate Joined(bs: seq<PtrBuffer>)
    reads bs`next, bs`prev
  {
    && (forall i {:trigger bs[i].next} :: 0 <= i < |bs| - 1 ==> bs[i].next == bs[i + 1])
    && (forall i {:trigger bs[i].prev} :: 0 < i < |bs| ==> bs[i].prev == bs[i - 1])
  }

  /** A doubly linked list from head to null. */
  ghost predicate Listed(bs: seq<PtrBuffer>, head: PtrBuffer?)
    reads bs`next, bs`prev
  {
    && Joined(bs) && head == (if bs == [] then null else bs[0])
    && (bs != [] ==> bs[0].prev == null && bs[|bs| - 1].next == null)
  }

  /** PutReusable and PutFreedLogically: the buffers from first to last go to the front of a list. */
  method PutFront(first: PtrBuffer, last: PtrBuffer, head: PtrBuffer?, ghost bs: seq<PtrBuffer>, ghost list: seq<PtrBuffer>)
    requires Joined(bs) && bs != [] && first == bs[0] && last == bs[|bs| - 1]
    requires Listed(list, head) && Distinct(bs) && Distinct(list) && Apart(bs, list)
    modifies last`next, first`prev, (if head == null then {} else {head})`prev
    ensures Listed(bs + list, first)
  {
    last.next := head;
    if head != null {
      assert head in list;
      head.prev := last;
    }
    first.prev := null;
    assert forall i :: 0 <= i < |bs + list| ==> (bs + list)[i] == if i < |bs| then bs[i] else list[i - |bs|];
    assert forall i :: 0 <= i < |list| ==> list[i] in list;
    assert forall i :: 0 <= i < |bs| ==> bs[i] in bs;
  }

  /** The first buffer of a list leaves it. */
  method PopFront(first: PtrBuffer, ghost list: seq<PtrBuffer>) returns (next: PtrBuffer?)
    requires Listed(list, first) && Distinct(list)
    modifies list`prev
    ensures list != [] && Listed(list[1..], next)
  {
    next := first.next;
    ghost var rest := list[1..];
    assert forall i :: 0 <= i < |rest| ==> rest[i] == list[i + 1];
    if next != null {
      assert next == rest[0];
      next.prev := null;
    }
  }

  method JoinBehind(last: PtrBuffer, b: PtrBuffer, ghost bs: seq<PtrBuffer>)
    requires Joined(bs) && bs != [] && last == bs[|bs| - 1] && Distinct(bs) && b !in bs
    modifies last`next, b`prev
    ensures Joined(bs + [b])
  {
    last.next := b;
    b.prev := last;
    assert forall i :: 0 <= i < |bs| ==> (bs + [b])[i] == bs[i] && bs[i] in bs;
  }

  /** A list ends before number i. */
  method CutBefore(first: PtrBuffer, head: PtrBuffer?, ghost list: seq<PtrBuffer>, ghost i: nat) returns (head': PtrBuffer?)
    requires Listed(list, head) && Distinct(list) && i < |list| && first == list[i]
    modifies list`next
    ensures Listed(list[..i], head') && Joined(list[i..]) && list[|list| - 1].next == null
  {
    head' := head;
    if first.prev == null {
      head' := null;
    } else {
      first.prev.next := null;
    }
  }

  lemma ListedHead(list: seq<PtrBuffer>, head: PtrBuffer?)
    requires Listed(list, head)
    ensures head == if list == [] then null else list[0]
  {
  }

  lemma FreeNext(m: Manager, size: nat, p: nat)
    ensures var m' := Reclaim.TxFree(m, size, p);
            var vs := Front(m.freed) + [LastBuffer(m.freed).(ptrs := LastBuffer(m.freed).ptrs + [Entry(p, 0)])];
            && m'.freed == (if |LastBuffer(m.freed).ptrs| + 1 == size then vs + [CLEAN] else vs)
            && m'.logically == m.logically && m'.lastMinimum == m.lastMinimum
  {
  }

  /** What a commit stores into the buffers of the chain. */
  function Marked(vs: seq<Buffer>, ts: nat): seq<Buffer>
    requires vs != []
  {
    var n := |vs| - 1;
    var last := vs[n].(rollback := |vs[n].ptrs|);
    if n == 0 then [last] else [vs[0].(ts := ts, initTs := true)] + vs[1..n] + [last]
  }

  lemma MarkedAt(vs: seq<Buffer>, ts: nat)
    requires vs != []
    ensures |Marked(vs, ts)| == |vs|
    ensures forall i :: 0 <= i < |vs| ==>
      (if i == |vs| - 1 then Marked(vs, ts)[i] == vs[i].(rollback := |vs[i].ptrs|)
       else Marked(vs, ts)[i] == if i == 0 then vs[0].(ts := ts, initTs := true) else vs[i])
  {
  }

  lemma CommitNext(m: Manager, ts: nat)
    requires 1 <= |m.freed|
    ensures var m', vs := Reclaim.TxCommit(m, ts), StampedAll(m.freed, ts);
            var n := |vs| - 1;
            && |vs| == |m.freed| && m'.lastMinimum == m.lastMinimum
            && |Marked(vs, ts)| == n + 1 && m'.freed == [Marked(vs, ts)[n]]
            && m'.logically == if n > 0 then Marked(vs, ts)[..n] + m.logically else m.logically
  {
  }

  lemma {:induction false} DominatedIndex(bs: seq<Buffer>, minimum: nat, i: nat)
    requires i <= |bs| && forall j :: 0 <= j < i ==> !(bs[j].initTs && bs[j].ts <= minimum)
    requires i < |bs| ==> bs[i].initTs && bs[i].ts <= minimum
    ensures FirstDominated(bs, minimum) == i
  {
    if i > 0 { DominatedIndex(bs[1..], minimum, i - 1); }
  }

  lemma NoEntries(bs: seq<Buffer>, i: nat)
    requires i <= |bs|
    ensures Ptrs(Entries(bs[i..i])) == []
  {
  }

  lemma AbortNext(m: Manager, size: nat)
    requires Shaped(m, size) && 1 <= size
    ensures var m' := Reclaim.TxAbort(m);
      Shaped(m', size) && m'.logically == m.logically && m'.lastMinimum == m.lastMinimum
  {
    AbortKeeps(m, size);
  }

  lemma ShapedChain(m: Manager, size: nat)
    requires Shaped(m, size)
    ensures m.freed != []
  {
  }

  lemma EntriesNext(bs: seq<Buffer>, i: nat, k: nat)
    requires i <= k < |bs|
    ensures Ptrs(Entries(bs[i..k + 1])) == Ptrs(Entries(bs[i..k])) + Ptrs(bs[k].ptrs)
  {
    assert bs[i..k + 1] == bs[i..k] + [bs[k]];
    EntriesSum(bs[i..k], [bs[k]]);
    EntriesOne(bs[k]);
    assert Ptrs(Entries(bs[i..k]) + bs[k].ptrs) == Ptrs(Entries(bs[i..k])) + Ptrs(bs[k].ptrs);
  }

  lemma DominatedShaped(m: Manager, size: nat, minimum: nat)
    requires Shaped(m, size)
    ensures Shaped(Reclaim.FreeDominated(m, minimum), size)
    ensures Ptrs(Reclaim.FreeDominated(m, minimum).physical) ==
            Ptrs(m.physical) + Ptrs(Entries(m.logically[FirstDominated(m.logically, minimum)..]))
  {
    hide Bag, Committed, Entries;
    DominatedKeeps(m, size, minimum);
    var es := Entries(m.logically[FirstDominated(m.logically, minimum)..]);
    assert Ptrs(m.physical + es) == Ptrs(m.physical) + Ptrs(es);
  }

  lemma HoldSize(bs: seq<PtrBuffer>, vs: seq<Buffer>)
    requires Hold(bs, vs)
    ensures |bs| == |vs|
  {
  }

  lemma DistinctParts(bs: seq<PtrBuffer>, i: nat)
    requires Distinct(bs) && i <= |bs|
    ensures Distinct(bs[..i]) && Distinct(bs[i..]) && Apart(bs[..i], bs[i..]) && Apart(bs[i..], bs[..i])
    ensures forall x :: x in bs[..i] || x in bs[i..] ==> x in bs
  {
  }

  lemma JoinedParts(bs: seq<PtrBuffer>, i: nat)
    requires Joined(bs) && i <= |bs|
    ensures Joined(bs[..i]) && Joined(bs[i..])
  {
  }

  lemma DistinctSum(a: seq<PtrBuffer>, b: seq<PtrBuffer>)
    requires Distinct(a) && Distinct(b) && Apart(a, b)
    ensures Distinct(a + b) && forall x :: x in a + b <==> x in a || x in b
  {
    forall i, j | 0 <= i < j < |a + b| ensures (a + b)[i] != (a + b)[j] {
      if i < |a| <= j { assert (a + b)[i] in a && (a + b)[j] in b; }
    }
  }

  lemma HoldParts(bs: seq<PtrBuffer>, vs: seq<Buffer>, i: nat)
    requires Hold(bs, vs) && i <= |bs|
    ensures |bs| == |vs| && Hold(bs[..i], vs[..i]) && Hold(bs[i..], vs[i..])
  {
  }

  lemma HoldSum(a: seq<PtrBuffer>, u: seq<Buffer>, b: seq<PtrBuffer>, v: seq<Buffer>)
    requires Hold(a, u) && Hold(b, v)
    ensures Hold(a + b, u + v)
  {
  }

  lemma JoinedNext(bs: seq<PtrBuffer>, i: nat)
    requires Joined(bs) && i + 1 < |bs|
    ensures bs[i].next == bs[i + 1] && bs[i + 1].prev == bs[i]
  {
  }

  lemma JoinedOne(bs: seq<PtrBuffer>)
    requires |bs| == 1
    ensures Joined(bs)
  {
  }

  lemma ListedNext(list: seq<PtrBuffer>, head: PtrBuffer?, i: nat)
    requires Listed(list, head) && i < |list|
    ensures list[i].next == if i + 1 < |list| then list[i + 1] else null
  {
  }

  lemma HoldSnoc(bs: seq<PtrBuffer>, vs: seq<Buffer>, b: PtrBuffer, v: Buffer)
    requires Hold(bs, vs) && b.Holds(v)
    ensures Hold(bs + [b], vs + [v])
  {
  }

  class MemoryManager {
    const size: nat
    var freedInTx: PtrBuffer
    var freedInTxOld: PtrBuffer
    var freedLogically: PtrBuffer?
    var reusable: PtrBuffer?
    var lastMinimum: nat
    // the buffers from freed_in_tx_old to freed_in_tx, and those of the two lists
    ghost var chain: seq<PtrBuffer>
    ghost var listed: seq<PtrBuffer>
    ghost var spare: seq<PtrBuffer>
    ghost var log: Manager

    /** Every buffer is in one place: none is both live and reusable. */
    ghost predicate OnePlace()
      reads `chain, `listed, `spare
    {
      && Distinct(chain) && Distinct(listed) && Distinct(spare)
      && Apart(chain, listed) && Apart(chain, spare) && Apart(listed, spare)
    }

    ghost predicate Linked()
      reads `freedInTx, `freedInTxOld, `freedLogically, `reusable, `chain, `listed, `spare
      reads chain`next, chain`prev, listed`next, listed`prev, spare`next, spare`prev
    {
      && OnePlace()
      && chain != [] && freedInTxOld == chain[0] && freedInTx == chain[|chain| - 1] && Joined(chain)
      && Listed(listed, freedLogically) && Listed(spare, reusable)
    }

    ghost predicate Valid()
      reads this, chain, listed, spare
    {
      && 1 <= size && Linked()
      && Hold(chain, log.freed) && Hold(listed, log.logically)
      && lastMinimum == log.lastMinimum && Shaped(log, size)
    }

    /** ThreadInit. */
    constructor (n: nat)
      requires 1 <= n
      ensures Valid() && log == NEW && fresh(chain + listed + spare)
    {
      var b := new PtrBuffer();
      size, freedInTx, freedInTxOld, freedLogically, reusable, lastMinimum := n, b, b, null, null, 0;
      chain, listed, spare, log := [b], [], [], NEW;
    }

    /** The first reusable buffer leaves its list. */
    method PopReusable() returns (b: PtrBuffer)
      requires Linked() && reusable != null
      modifies this`reusable, this`spare, spare`prev
      ensures Linked() && [b] + spare == old(spare) && b !in spare
    {
      hide Joined, Listed;
      ListedHead(spare, reusable);
      b := reusable;
      DistinctParts(spare, 1);
      reusable := PopFront(b, spare);
      spare := spare[1..];
    }

    method GetCleanPtrBuffer() returns (b: PtrBuffer)
      requires Linked()
      modifies this`reusable, this`spare, spare
      ensures Linked() && b.Holds(CLEAN) && b !in chain && b !in listed && b !in spare
      ensures if old(spare) == [] then fresh(b) && spare == [] else [b] + spare == old(spare)
    {
      hide Joined;
      if reusable != null {
        b := PopReusable();
        assert b in old(spare);
        b.Clear();
      } else {
        b := new PtrBuffer();
      }
    }

    /** The pointer goes into the current buffer. */
    method Remember(p: nat) returns (full: bool, ghost vs: seq<Buffer>)
      requires Valid()
      modifies freedInTx`ptrs
      ensures Linked() && (full <==> |LastBuffer(log.freed).ptrs| + 1 == size)
      ensures Hold(chain, vs) && Hold(listed, log.logically)
      ensures vs == Front(log.freed) + [LastBuffer(log.freed).(ptrs := LastBuffer(log.freed).ptrs + [Entry(p, 0)])]
    {
      hide Reclaim.TxFree;
      ghost var n := |chain| - 1;
      var cur := freedInTx;
      assert cur.Holds(log.freed[n]);
      assert forall i :: 0 <= i < |listed| ==> listed[i] in listed;
      vs := log.freed[n := log.freed[n].(ptrs := log.freed[n].ptrs + [Entry(p, 0)])];
      cur.ptrs := cur.ptrs + [p];
      full := |cur.ptrs| == size;
    }

    /** The buffer becomes the current one. */
    method Append(b: PtrBuffer)
      requires Linked() && b !in chain && b !in listed && b !in spare
      modifies this`freedInTx, this`chain, freedInTx`next, b`prev
      ensures Linked() && chain == old(chain) + [b]
    {
      hide Joined, Listed;
      assert freedInTx in chain;
      JoinBehind(freedInTx, b, chain);
      freedInTx := b;
      DistinctSum(chain, [b]);
      chain := chain + [b];
    }

    /** A full buffer is followed by a clean one. */
    method Chain(ghost vs: seq<Buffer>)
      requires Linked() && Hold(chain, vs) && Hold(listed, log.logically)
      modifies this`freedInTx, this`chain, this`reusable, this`spare, spare, freedInTx`next
      ensures Linked() && Hold(chain, vs + [CLEAN]) && Hold(listed, log.logically)
    {
      hide Hold, Joined, Listed;
      assert freedInTx in chain;
      var b := GetCleanPtrBuffer();
      assert old(spare) != [] ==> b == old(spare)[0];
      Append(b);
      HoldSnoc(old(chain), vs, b, CLEAN);
    }

    ghost method Logged(p: nat)
      requires 1 <= size && Linked() && Shaped(log, size) && lastMinimum == log.lastMinimum
      requires Hold(chain, Reclaim.TxFree(log, size, p).freed) && Hold(listed, log.logically)
      modifies this`log
      ensures Valid() && log == Reclaim.TxFree(old(log), size, p)
    {
      hide Shaped, Reclaim.TxFree, Hold, Linked;
      FreeShaped(log, size, p);
      FreeNext(log, size, p);
      log := Reclaim.TxFree(log, size, p);
    }

    method TxFree(p: nat)
      requires Valid()
      modifies this`freedInTx, this`chain, this`reusable, this`spare, this`log, chain, spare
      ensures Valid() && log == Reclaim.TxFree(old(log), size, p)
    {
      hide Shaped, Reclaim.TxFree, Front, LastBuffer, Linked, Hold, Entries;
      FreeNext(log, size, p);
      EndsApart();
      var full: bool;
      ghost var vs;
      full, vs := Remember(p);
      if full {
        Chain(vs);
      }
      Logged(p);
    }

    lemma EndsApart()
      requires Linked()
      ensures chain != [] && freedInTx == chain[|chain| - 1] && freedInTxOld == chain[0]
      ensures freedInTxOld == freedInTx <==> |chain| == 1
    {
    }

    /** The buffers from first to last, which were in bs, can be used again. */
    method PutReusable(first: PtrBuffer, last: PtrBuffer, ghost bs: seq<PtrBuffer>)
      requires Joined(bs) && bs != [] && first == bs[0] && last == bs[|bs| - 1] && Distinct(bs)
      requires Listed(spare, reusable) && Distinct(spare) && Apart(bs, spare)
      modifies this`reusable, this`spare, bs`next, bs`prev, spare`prev
      ensures Listed(spare, reusable) && spare == bs + old(spare) && Distinct(spare)
    {
      hide Joined, Listed;
      ListedHead(spare, reusable);
      PutFront(first, last, reusable, bs, spare);
      DistinctSum(bs, spare);
      reusable, spare := first, bs + spare;
    }

    /** All buffers of the chain but the first can be used again. */
    method DropRest()
      requires Linked()
      modifies this`freedInTx, this`chain, this`reusable, this`spare, chain`next, chain`prev, spare`prev
      ensures Linked() && chain == old(chain[..1])
    {
      hide Joined, Listed;
      if freedInTxOld != freedInTx {
        DistinctParts(chain, 1);
        JoinedParts(chain, 1);
        JoinedNext(chain, 0);
        PutReusable(freedInTxOld.next, freedInTx, chain[1..]);
        freedInTx := freedInTxOld;
      }
      chain := chain[..1];
      JoinedOne(chain);
    }

    /** The pointers of the transaction are forgotten. */
    method Rollback(ghost next: Manager)
      requires Valid() && next == Reclaim.TxAbort(log)
      modifies freedInTxOld`ptrs
      ensures Linked() && Hold(chain[..1], next.freed) && Hold(listed, log.logically)
    {
      hide Joined, Listed;
      var first := freedInTxOld;
      assert first.Holds(log.freed[0]);
      hide Shaped;
      first.ptrs := first.ptrs[..first.rollback];
      assert first.Holds(next.freed[0]);
      assert chain[..1] == [first];
    }

    method TxAbort()
      requires Valid()
      modifies this`freedInTx, this`chain, this`reusable, this`spare, this`log, freedInTxOld`ptrs, chain`next, chain`prev, spare`prev
      ensures Valid() && log == Reclaim.TxAbort(old(log))
    {
      hide Shaped, Reclaim.TxAbort, Hold, Linked;
      AbortNext(log, size);
      ghost var next := Reclaim.TxAbort(log);
      EndsApart();
      Rollback(next);
      DropRest();
      log := next;
    }

    /** PutFreedLogically: the full buffers of the chain go to the front of freed_logically. */
    method PutFreedLogically()
      requires Linked() && |chain| > 1
      modifies this`freedInTxOld, this`chain, this`freedLogically, this`listed, chain`next, chain`prev, listed`prev
      ensures Linked() && chain == [old(chain[|chain| - 1])] && listed == old(chain[..|chain| - 1] + listed)
    {
      hide Joined, Listed;
      ghost var n := |chain| - 1;
      DistinctParts(chain, n);
      JoinedParts(chain, n);
      JoinedNext(chain, n - 1);
      ListedHead(listed, freedLogically);
      PutFront(freedInTxOld, freedInTx.prev, freedLogically, chain[..n], listed);
      DistinctSum(chain[..n], listed);
      freedLogically, listed := freedInTxOld, chain[..n] + listed;
      freedInTxOld := freedInTx;
      chain := [freedInTx];
      JoinedOne(chain);
    }

    /** The stores of TxCommit into the buffers of the chain. */
    method MarkChain(ts: nat, ghost vs: seq<Buffer>)
      requires Linked() && Hold(chain, vs) && Hold(listed, log.logically)
      modifies freedInTx`rollback, freedInTxOld`ts, freedInTxOld`initTs
      ensures vs != [] && Hold(chain, Marked(vs, ts)) && Hold(listed, log.logically)
    {
      EndsApart();
      HoldSize(chain, vs);
      MarkedAt(vs, ts);
      hide Joined, Listed, Marked;
      ghost var n := |chain| - 1;
      assert freedInTx.Holds(vs[n]) && freedInTxOld.Holds(vs[0]);
      freedInTx.rollback := |freedInTx.ptrs|;
      if freedInTxOld != freedInTx {
        freedInTxOld.ts, freedInTxOld.initTs := ts, true;
      }
    }

    /** TxCommit, up to FreeDominated, which is to follow if a buffer has moved. */
    method TxCommit(ts: nat) returns (moved: bool)
      requires Valid()
      modifies this`freedInTxOld, this`chain, this`freedLogically, this`listed, this`log, chain, listed`prev
      ensures Valid() && log == Reclaim.TxCommit(old(log), ts)
      ensures moved <==> |old(log).freed| > 1
    {
      hide Shaped, Reclaim.TxCommit, StampedAll, Entries, Hold, Linked;
      CommitShaped(log, size, ts);
      ShapedChain(log, size);
      HoldStamped(chain, ts);
      HoldSize(chain, log.freed);
      EndsApart();
      ghost var us := Marked(StampedAll(log.freed, ts), ts);
      hide Marked;
      MarkChain(ts, StampedAll(log.freed, ts));
      HoldSize(chain, us);
      moved := freedInTxOld != freedInTx;
      if moved {
        MoveFull(us);
      }
      LoggedCommit(ts, us);
    }

    method MoveFull(ghost us: seq<Buffer>)
      requires Linked() && |chain| > 1 && Hold(chain, us) && Hold(listed, log.logically)
      modifies this`freedInTxOld, this`chain, this`freedLogically, this`listed, chain`next, chain`prev, listed`prev
      ensures Linked() && |us| == |old(chain)| && Hold(chain, [us[|us| - 1]]) && Hold(listed, us[..|us| - 1] + log.logically)
    {
      hide Hold, Linked;
      HoldSize(chain, us);
      ghost var n := |us| - 1;
      HoldParts(chain, us, n);
      HoldSum(chain[..n], us[..n], listed, log.logically);
      assert us[n..] == [us[n]] && chain[n..] == [chain[n]];
      PutFreedLogically();
    }

    ghost method LoggedCommit(ts: nat, us: seq<Buffer>)
      requires 1 <= size && Linked() && Shaped(log, size) && lastMinimum == log.lastMinimum
      requires log.freed != [] && us == Marked(StampedAll(log.freed, ts), ts) && us != []
      requires Hold(chain, [us[|us| - 1]])
      requires Hold(listed, if |us| > 1 then us[..|us| - 1] + log.logically else log.logically)
      modifies this`log
      ensures Valid() && log == Reclaim.TxCommit(old(log), ts)
    {
      hide Shaped, Reclaim.TxCommit, StampedAll, Hold, Linked, Marked;
      CommitShaped(log, size, ts);
      ShapedChain(log, size);
      CommitNext(log, ts);
      log := Reclaim.TxCommit(log, ts);
    }

    /** The buffers do not have the timestamps that history adds to their entries. */
    lemma HoldStamped(bs: seq<PtrBuffer>, ts: nat)
      requires Hold(bs, log.freed)
      ensures Hold(bs, StampedAll(log.freed, ts))
    {
      forall i | 0 <= i < |bs|
        ensures bs[i].Holds(StampedAll(log.freed, ts)[i])
      {
        StampedAt(log.freed, ts, i);
        assert bs[i].Holds(log.freed[i]);
        assert Ptrs(StampedAll(log.freed, ts)[i].ptrs) == Ptrs(log.freed[i].ptrs);
      }
    }

    /** FreeDominated: got and updated are what GetMinimumObservedTs and UpdateMinimumObservedTs
        return; given is what goes back to the allocator. */
    method FreeDominated(got: nat, updated: nat) returns (given: seq<nat>)
      requires Valid()
      modifies this`freedLogically, this`listed, this`reusable, this`spare, this`lastMinimum, this`log
      modifies listed`next, listed`prev, spare`prev
      ensures Valid()
      ensures var minimum := if old(lastMinimum) == got then updated else got;
              if old(lastMinimum) == minimum then log == old(log) && given == []
              else log == Reclaim.FreeDominated(old(log), minimum) && Ptrs(log.physical) == Ptrs(old(log).physical) + given
    {
      given := [];
      var minimum := got;
      if lastMinimum == minimum {
        minimum := updated;
        if lastMinimum == minimum {
          return;
        }
      }
      lastMinimum := minimum;
      var curr: PtrBuffer?;
      ghost var i;
      curr, i := FindDominated(minimum);
      given := GiveBack(curr, i, minimum);
    }

    /** The first buffer of freed_logically that is dominated. */
    method FindDominated(minimum: nat) returns (curr: PtrBuffer?, ghost i: nat)
      requires Listed(listed, freedLogically) && Hold(listed, log.logically)
      ensures i == FirstDominated(log.logically, minimum) <= |listed| == |log.logically|
      ensures curr == if i < |listed| then listed[i] else null
    {
      hide Joined, Listed;
      ListedHead(listed, freedLogically);
      curr, i := freedLogically, 0;
      while curr != null && !(curr.initTs && curr.ts <= minimum)
        invariant i <= |listed| && curr == if i < |listed| then listed[i] else null
        invariant forall j :: 0 <= j < i ==> !(log.logically[j].initTs && log.logically[j].ts <= minimum)
        decreases |listed| - i
      {
        assert listed[i].Holds(log.logically[i]);
        ListedNext(listed, freedLogically, i);
        curr := curr.next;
        i := i + 1;
      }
      assert i < |listed| ==> listed[i].Holds(log.logically[i]);
      DominatedIndex(log.logically, minimum, i);
    }

    /** The list ends before this buffer. */
    method Cut(first: PtrBuffer, ghost i: nat)
      requires Linked() && i < |listed| && first == listed[i]
      modifies this`freedLogically, this`listed, listed`next
      ensures Linked() && listed == old(listed[..i])
      ensures Joined(old(listed[i..])) && old(listed[|listed| - 1]).next == null
    {
      hide Joined, Listed, Distinct;
      RestApart(i);
      freedLogically := CutBefore(first, freedLogically, listed, i);
      assert Joined(chain) && Listed(spare, reusable);
      hide Apart;
      listed := listed[..i];
    }

    /** Buffers that are in no list can be used again. */
    method Recycle(first: PtrBuffer, last: PtrBuffer, ghost bs: seq<PtrBuffer>)
      requires Linked() && Joined(bs) && bs != [] && first == bs[0] && last == bs[|bs| - 1] && Distinct(bs)
      requires Apart(chain, bs) && Apart(listed, bs) && Apart(bs, spare)
      modifies this`reusable, this`spare, bs`next, bs`prev, spare`prev
      ensures Linked()
    {
      hide Joined, Listed;
      PutReusable(first, last, bs);
    }

    /** The pointers of all buffers from here on go back to the allocator. */
    method FreePtrs(first: PtrBuffer, ghost bs: seq<PtrBuffer>, ghost vs: seq<Buffer>) returns (given: seq<nat>, last: PtrBuffer)
      requires Joined(bs) && bs != [] && first == bs[0] && bs[|bs| - 1].next == null && Hold(bs, vs)
      ensures given == Ptrs(Entries(vs)) && last == bs[|bs| - 1]
    {
      hide Entries, Joined;
      given, last := [], first;
      var curr: PtrBuffer? := first;
      ghost var k := 0;
      NoEntries(vs, 0);
      while curr != null
        invariant k <= |bs| && curr == (if k < |bs| then bs[k] else null) && (k > 0 ==> last == bs[k - 1])
        invariant given == Ptrs(Entries(vs[0..k]))
        decreases |bs| - k
      {
        last := curr;
        assert bs[k].Holds(vs[k]);
        EntriesNext(vs, 0, k);
        given := given + curr.ptrs;
        if k + 1 < |bs| { JoinedNext(bs, k); }
        curr := curr.next;
        k := k + 1;
      }
      assert vs[0..k] == vs;
    }

    /** ... and the buffers to reusable. */
    method Drop(first: PtrBuffer, ghost i: nat) returns (given: seq<nat>)
      requires Linked() && Hold(listed, log.logically) && i < |listed| && first == listed[i]
      modifies this`freedLogically, this`listed, this`reusable, this`spare, listed`next, listed`prev, spare`prev
      ensures Linked() && i < |log.logically| && Hold(listed, log.logically[..i]) && given == Ptrs(Entries(log.logically[i..]))
    {
      hide Entries, Hold, Joined, Linked;
      HoldSize(listed, log.logically);
      HoldParts(listed, log.logically, i);
      RestApart(i);
      ghost var bs, vs := listed[i..], log.logically[i..];
      assert bs[|bs| - 1] == listed[|listed| - 1];
      Cut(first, i);
      var last;
      given, last := FreePtrs(first, bs, vs);
      Recycle(first, last, bs);
    }

    lemma RestApart(i: nat)
      requires Linked() && i <= |listed|
      ensures Distinct(listed[i..]) && Apart(chain, listed[i..]) && Apart(listed[..i], listed[i..]) && Apart(listed[i..], spare)
      ensures Distinct(listed[..i]) && Apart(chain, listed[..i]) && Apart(listed[..i], spare)
    {
      DistinctParts(listed, i);
    }

    method GiveBack(first: PtrBuffer?, ghost i: nat, ghost minimum: nat) returns (given: seq<nat>)
      requires 1 <= size && Linked() && Hold(chain, log.freed) && Hold(listed, log.logically) && Shaped(log, size)
      requires i == FirstDominated(log.logically, minimum) <= |listed| && lastMinimum == minimum
      requires first == if i < |listed| then listed[i] else null
      modifies this`freedLogically, this`listed, this`reusable, this`spare, this`log
      modifies listed`next, listed`prev, spare`prev
      ensures Valid() && log == Reclaim.FreeDominated(old(log), minimum)
      ensures Ptrs(log.physical) == Ptrs(old(log).physical) + given
    {
      hide Shaped, Entries, Bag, Committed, Hold, Linked;
      DominatedShaped(log, size, minimum);
      HoldSize(listed, log.logically);
      given := [];
      if first != null {
        given := Drop(first, i);
      } else {
        assert log.logically[i..i] == log.logically[i..] && log.logically[..i] == log.logically;
        NoEntries(log.logically, i);
      }
      log := Reclaim.FreeDominated(log, minimum);
    }
  }
}
