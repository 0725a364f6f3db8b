/** Starting, reading, writing and extending keep the invariant: opacity is established here. */
module SwissReads {
  import opened Words
  import opened SwissState
  import opened SwissInvariant
  import opened SwissLocal

  // ---------- start ----------

  lemma KeepBegin(s: State, t: nat)
    requires Inv(s) && t < |s.tx| && s.tx[t].pc.Idle?
    ensures Inv(StepBegin(s, t))
  {
    hide Apart;
    var y := StepBegin(s, t).tx[t];
    assert Thread(s, t, s.tx[t]);
    assert Snapshot(s.stripe, s.hist, y);
    assert Started(s.recs, y);
    assert Thread(Put(s, t, y), t, y);
    EmptyApart(s, t, y);
    Local(s, t, y);
  }

  lemma EmptyApart(s: State, t: nat, y: Tx)
    requires y.readLog == [] && !y.pc.ReadValue? && !y.pc.ReadAgain?
    ensures forall u :: 0 <= u < |s.tx| ==> Apart(Put0(s, t, y), y, s.tx[u])
  {
  }

  function Put0(s: State, t: nat, y: Tx): State
  {
    if t < |s.tx| then Put(s, t, y) else s
  }

  // ---------- back in user code ----------

  /** All a transaction in user code has to satisfy. */
  ghost predicate Ready(s: State, t: nat, x: Tx)
  {
    && ReadsReady(s, x) && WritesReady(s, t, x)
    && BufferLocked(s.stripe, x) && x.begin <= |s.recs| && (forall i :: 0 <= i < x.begin ==> s.recs[i].ts <= x.validTs)
    && x.validTs <= s.clock && x.validTs < |s.hist|
    && x.buffer == BufferOf(x.ops) && Legal(s.hist[x.validTs], x.ops)
    && Covered(s.stripe, x.(pc := Running))
  }

  ghost predicate ReadsReady(s: State, x: Tx)
  {
    forall j :: 0 <= j < |x.readLog| ==>
      x.readLog[j].x < |s.rl| && x.readLog[j].version <= x.validTs
      && Constant(s.stripe, s.hist, x.readLog[j].x, x.readLog[j].version, x.validTs)
  }

  ghost predicate WritesReady(s: State, t: nat, x: Tx)
  {
    forall k :: 0 <= k < |x.writeLog| ==>
      && x.writeLog[k].x < |s.rl| && x.writeLog[k].x < |s.wl| && s.wl[x.writeLog[k].x] == Held(t, k)
      && s.rl[x.writeLog[k].x] == Ver(x.writeLog[k].oldVersion) && x.writeLog[k].oldVersion <= x.validTs
  }

  lemma ReadyNow(s: State, t: nat)
    requires Inv(s) && t < |s.tx| && Plain(s.tx[t].pc) && !s.tx[t].pc.ExtendClock? && !s.tx[t].pc.Extending?
    ensures Ready(s, t, s.tx[t])
  {
    assert Thread(s, t, s.tx[t]);
  }

  lemma ReadyThread(s: State, t: nat, y: Tx)
    requires Sized(s) && t < |s.tx| && y.pc.Running? && Ready(s, t, y)
    ensures Thread(Put(s, t, y), t, y)
  {
  }

  lemma ReadyReturn(s: State, t: nat, x: Tx, a: nat, val: Word)
    requires Ready(s, t, x) && a < |s.stripe| && a < |s.hist[x.validTs]|
    requires val == Through(x.buffer, a, s.hist[x.validTs][a]) && Logged(x.(pc := Running), s.stripe[a])
    ensures Ready(s, t, Return(x, a, val))
  {
    hide Covered, Logged, Legal, BufferOf, Apply, Through;
    var m := s.hist[x.validTs];
    ApplyThroughBuffer(m, x.ops, a);
    LegalSnoc(m, x.ops, Rd(a, val));
    BufferSnoc(x.ops, Rd(a, val));
    CoveredSnoc(s.stripe, x.(pc := Running), Return(x, a, val), Rd(a, val));
  }

  lemma ReadyBuffered(s: State, t: nat, x: Tx, w: Request)
    requires Ready(s, t, x) && w.a < |s.stripe| && w.a < |s.hist[x.validTs]| && Writes(x, s.stripe[w.a])
    ensures Ready(s, t, Buffered(x, w).(pc := Running))
  {
    hide Covered, Legal, BufferOf, Apply, Insert, BufferLocked;
    var m := s.hist[x.validTs];
    var o := Wr(w.a, w.val, w.mask);
    var y := Buffered(x, w).(pc := Running);
    LegalSnoc(m, x.ops, o);
    BufferSnoc(x.ops, o);
    CoveredSnoc(s.stripe, x.(pc := Running), y, o);
    BufferLockedSnoc(s.stripe, x, w, y);
  }

  lemma CoveredSnoc(stripe: seq<nat>, x: Tx, y: Tx, o: Op)
    requires Covered(stripe, x) && o.a < |stripe| && Logged(x, stripe[o.a])
    requires y.pc == x.pc && y.readLog == x.readLog && y.writeLog == x.writeLog && y.ops == x.ops + [o]
    ensures Covered(stripe, y)
  {
    hide Logged;
    assert forall i: nat :: Logged(y, i) == Logged(x, i) by { LoggedSame(x, y); }
  }

  lemma LoggedSame(x: Tx, y: Tx)
    requires y.pc == x.pc && y.readLog == x.readLog && y.writeLog == x.writeLog
    ensures forall i: nat :: Logged(y, i) == Logged(x, i)
  {
  }

  lemma BufferLockedSnoc(stripe: seq<nat>, x: Tx, w: Request, y: Tx)
    requires BufferLocked(stripe, x) && w.a < |stripe| && Writes(x, stripe[w.a])
    requires y.buffer == Insert(x.buffer, w.a, w.val, w.mask) && y.writeLog == x.writeLog
    ensures BufferLocked(stripe, y)
  {
    assert forall i: nat :: Writes(y, i) == Writes(x, i);
  }

  /** A stripe this thread has locked is in memory as it is in its snapshot. */
  lemma OwnCurrent(s: State, t: nat, a: nat)
    requires Inv(s) && t < |s.tx| && a < |s.mem| && Plain(s.tx[t].pc)
    requires !s.tx[t].pc.ExtendClock? && !s.tx[t].pc.Extending? && Writes(s.tx[t], s.stripe[a])
    ensures s.hist[s.tx[t].validTs][a] == s.mem[a] && Logged(s.tx[t].(pc := Running), s.stripe[a])
  {
    hide Apart;
    var x := s.tx[t];
    assert Thread(s, t, x);
    var k :| 0 <= k < |x.writeLog| && x.writeLog[k].x == s.stripe[a];
    assert s.rl[s.stripe[a]] == Ver(x.writeLog[k].oldVersion);
    assert Current(s.stripe, s.mem, s.hist, s.stripe[a], x.writeLog[k].oldVersion);
  }

  lemma RunningApart(s: State, t: nat, y: Tx)
    requires Inv(s) && t < |s.tx| && Plain(s.tx[t].pc) && y.pc.Running?
    requires y.readLog == s.tx[t].readLog && y.validTs == s.tx[t].validTs
    requires !s.tx[t].pc.ExtendClock? && !s.tx[t].pc.Extending?
    ensures forall u :: 0 <= u < |s.tx| && u != t ==> Apart(Put(s, t, y), y, s.tx[u])
  {
    hide Thread, Shared;
    forall u | 0 <= u < |s.tx| && u != t
      ensures Apart(Put(s, t, y), y, s.tx[u])
    {
      assert Apart(s, s.tx[t], s.tx[u]);
    }
  }

  lemma KeepReadOwn(s: State, t: nat, a: nat)
    requires Inv(s) && t < |s.tx| && s.tx[t].pc == ReadOwn(a)
    ensures TxOk(s, s.tx[t]) && Inv(StepReadOwn(s, t, a))
  {
    hide Thread, Apart, Shared, Ready;
    Here(s, t);
    var x := s.tx[t];
    var y := Return(x, a, Through(x.buffer, a, s.mem[a]));
    ReadyNow(s, t);
    OwnCurrent(s, t, a);
    ReadyReturn(s, t, x, a, Through(x.buffer, a, s.mem[a]));
    ReadyThread(s, t, y);
    RunningApart(s, t, y);
    Local(s, t, y);
  }

  lemma KeepWriteOwn(s: State, t: nat, w: Request)
    requires Inv(s) && t < |s.tx| && s.tx[t].pc.Running? && w.a < |s.mem|
    requires s.wl[s.stripe[w.a]].Held? && s.wl[s.stripe[w.a]].t == t
    ensures Inv(StepWrite(s, t, w))
  {
    hide Thread, Apart, Shared, Ready;
    Here(s, t);
    var y := Buffered(s.tx[t], w);
    OwnWords(s, t, w.a);
    ReadyNow(s, t);
    SnapshotSize(s, t);
    ReadyBuffered(s, t, s.tx[t], w);
    ReadyThread(s, t, y);
    RunningApart(s, t, y);
    Local(s, t, y);
  }

  lemma SnapshotSize(s: State, t: nat)
    requires Inv(s) && t < |s.tx|
    ensures s.tx[t].validTs < |s.hist| && |s.hist[s.tx[t].validTs]| == |s.mem|
  {
    assert Thread(s, t, s.tx[t]);
  }

  // ---------- a new read-log entry ----------

  lemma ReadyRead(s: State, t: nat, x: Tx, a: nat, v: nat)
    requires Shared(s) && Ready(s, t, x) && a < |s.mem| && s.rl[s.stripe[a]] == Ver(v) && v <= x.validTs
    requires Plain(x.pc) && !x.pc.ExtendClock? && !x.pc.Extending?
    ensures Ready(s, t, x.(readLog := x.readLog + [ReadEntry(s.stripe[a], v)]))
    ensures s.hist[x.validTs][a] == s.mem[a]
  {
    hide Legal, BufferOf;
    var z := x.(readLog := x.readLog + [ReadEntry(s.stripe[a], v)]);
    assert Current(s.stripe, s.mem, s.hist, s.stripe[a], v);
    assert BufferLocked(s.stripe, z) by { assert forall i: nat :: Writes(z, i) == Writes(x, i); }
    assert Covered(s.stripe, z.(pc := Running)) by { CoveredMore(s.stripe, x.(pc := Running), z); }
  }

  /** The value was current at the version, so it is the value in the snapshot. */
  lemma KeepReadAgain(s: State, t: nat, a: nat, v: nat, val: Word)
    requires Inv(s) && t < |s.tx| && s.tx[t].pc == ReadAgain(a, v, val)
    requires TxOk(s, s.tx[t]) && s.rl[s.stripe[a]] == Ver(v) && v <= s.tx[t].validTs
    ensures Inv(StepReadAgain(s, t, a, v, val))
  {
    hide Thread, Apart, Shared, Ready;
    Here(s, t);
    var x := s.tx[t];
    var z := x.(readLog := x.readLog + [ReadEntry(s.stripe[a], v)]);
    var y := Return(z, a, val);
    ReadyNow(s, t);
    SnapshotSize(s, t);
    ReadyRead(s, t, x, a, v);
    assert z.readLog[|x.readLog|].x == s.stripe[a];
    ReadyReturn(s, t, z, a, val);
    ReadyThread(s, t, y);
    LoggedApart(s, t, a, v, val, y);
    Local(s, t, y);
  }

  lemma KeepReadNewer(s: State, t: nat, a: nat, v: nat, val: Word)
    requires Inv(s) && t < |s.tx| && s.tx[t].pc == ReadAgain(a, v, val)
    requires TxOk(s, s.tx[t]) && s.rl[s.stripe[a]] == Ver(v) && v > s.tx[t].validTs
    ensures Inv(StepReadAgain(s, t, a, v, val))
  {
    hide Thread, Apart, Shared, Ready;
    Here(s, t);
    var x := s.tx[t];
    var y := x.(readLog := x.readLog + [ReadEntry(s.stripe[a], v)], pc := ExtendClock(RetRead(a, val)));
    ReadyNow(s, t);
    NewerThread(s, t, x, a, v, val, y);
    LoggedApart(s, t, a, v, val, y);
    Local(s, t, y);
  }

  lemma NewerThread(s: State, t: nat, x: Tx, a: nat, v: nat, val: Word, y: Tx)
    requires Shared(s) && t < |s.tx| && Ready(s, t, x) && x.pc == ReadAgain(a, v, val) && AtPc(s, x)
    requires a < |s.mem| && s.rl[s.stripe[a]] == Ver(v) && v > x.validTs
    requires y == x.(readLog := x.readLog + [ReadEntry(s.stripe[a], v)], pc := ExtendClock(RetRead(a, val)))
    ensures Thread(Put(s, t, y), t, y)
  {
    hide Legal, BufferOf;
    assert Current(s.stripe, s.mem, s.hist, s.stripe[a], v);
    assert BufferLocked(s.stripe, y) by { assert forall i: nat :: Writes(y, i) == Writes(x, i); }
    CoveredMore(s.stripe, x.(pc := Running), y);
    assert y.readLog[|y.readLog| - 1] == ReadEntry(s.stripe[a], v);
  }

  /** More log entries cover the same operations. */
  lemma CoveredMore(stripe: seq<nat>, x: Tx, z: Tx)
    requires Covered(stripe, x) && z.ops == x.ops && x.readLog <= z.readLog && x.writeLog <= z.writeLog
    requires Plain(x.pc) && !x.pc.ExtendClock? && !x.pc.Extending?
    ensures Covered(stripe, z.(pc := Running))
    ensures forall k: Cont :: SettledReads(z.(pc := ExtendClock(k))) >= |x.readLog| && SettledWrites(z.(pc := ExtendClock(k))) >= |x.writeLog|
              ==> Covered(stripe, z.(pc := ExtendClock(k)))
  {
  }

  lemma LoggedApart(s: State, t: nat, a: nat, v: nat, val: Word, y: Tx)
    requires Inv(s) && t < |s.tx| && s.tx[t].pc == ReadAgain(a, v, val) && s.rl[s.stripe[a]] == Ver(v)
    requires y.readLog == s.tx[t].readLog + [ReadEntry(s.stripe[a], v)] && y.validTs == s.tx[t].validTs
    requires y.pc.Running? || y.pc.ExtendClock?
    ensures forall u :: 0 <= u < |s.tx| && u != t ==> Apart(Put(s, t, y), y, s.tx[u])
  {
    forall u | 0 <= u < |s.tx| && u != t
      ensures Apart(Put(s, t, y), y, s.tx[u])
    {
      assert LaterThan(s.tx[t], s.tx[u]) by { assert Apart(s, s.tx[t], s.tx[u]); }
      assert CommittingMeansSet(s.rl, s.tx[u]) by { assert Thread(s, u, s.tx[u]); }
      LoggedLater(s.rl, s.tx[t], ReadEntry(s.stripe[a], v), y, s.tx[u]);
    }
  }

  /** A stripe that is not read-locked is not being committed. */
  lemma LoggedLater(rl: seq<ReadLock>, x: Tx, e: ReadEntry, y: Tx, u: Tx)
    requires LaterThan(x, u) && CommittingMeansSet(rl, u) && e.x < |rl| && rl[e.x].Ver?
    requires x.pc.ReadAgain? && y.readLog == x.readLog + [e] && y.validTs == x.validTs
    requires y.pc.Running? || y.pc.ExtendClock?
    ensures LaterThan(y, u)
  {
  }

  // ---------- a new write-log entry ----------

  /** The version of a stripe just write-locked is visible. */
  lemma LockedVisible(s: State, t: nat, w: Request)
    requires Inv(s) && t < |s.tx| && s.tx[t].pc == LockVersion(w)
    ensures TxOk(s, s.tx[t]) && s.tx[t].writeLog != []
    ensures var i := s.tx[t].writeLog[|s.tx[t].writeLog| - 1].x; i == s.stripe[w.a] && s.rl[i].Ver? && s.rl[i].ts <= s.clock
  {
    assert Thread(s, t, s.tx[t]);
  }

  function WithVersion(x: Tx, v: nat): Tx
    requires x.writeLog != []
  {
    var n := |x.writeLog| - 1;
    x.(writeLog := x.writeLog[n := x.writeLog[n].(oldVersion := v)])
  }

  lemma VersionReady(s: State, t: nat, w: Request, v: nat)
    requires Inv(s) && t < |s.tx| && s.tx[t].pc == LockVersion(w) && TxOk(s, s.tx[t])
    requires s.rl[s.stripe[w.a]] == Ver(v) && v <= s.tx[t].validTs
    ensures Ready(s, t, WithVersion(s.tx[t], v)) && Writes(WithVersion(s.tx[t], v), s.stripe[w.a])
  {
    hide Apart, Legal, BufferOf;
    var x := s.tx[t];
    assert Thread(s, t, x);
    var z := WithVersion(x, v);
    assert z.writeLog[|z.writeLog| - 1].x == s.stripe[w.a];
    assert forall k :: 0 <= k < |z.writeLog| ==> z.writeLog[k].x == x.writeLog[k].x;
    assert BufferLocked(s.stripe, z) by { assert forall i: nat :: Writes(x, i) ==> Writes(z, i); }
    assert Covered(s.stripe, z.(pc := Running)) by { assert forall i: nat :: Logged(x, i) ==> Logged(z.(pc := Running), i); }
  }

  lemma VersionView(s: State, t: nat, y: Tx)
    requires Inv(s) && t < |s.tx| && s.tx[t].pc.LockVersion? && y.readLog == s.tx[t].readLog && y.validTs == s.tx[t].validTs
    requires y.pc.Running? || y.pc.CmTicket? || y.pc.ExtendClock?
    requires |y.writeLog| == |s.tx[t].writeLog| && forall k :: 0 <= k < |y.writeLog| ==> y.writeLog[k].x == s.tx[t].writeLog[k].x
    ensures SameView(s.tx[t], y)
    ensures forall u :: 0 <= u < |s.tx| && u != t ==> Apart(Put(s, t, y), y, s.tx[u])
  {
    hide Thread, Shared;
    forall u | 0 <= u < |s.tx| && u != t
      ensures Apart(Put(s, t, y), y, s.tx[u])
    {
      assert Apart(s, s.tx[t], s.tx[u]);
    }
  }

  lemma EstablishedKeeps(s: State, t: nat, x: Tx, w: Request)
    requires t < |s.tx| && t < |s.cm| && |s.cm| == |s.tx|
    requires Inv(Put(s, t, Buffered(x, w).(pc := Running)))
    ensures Inv(Established(s, t, x, w))
  {
    hide Thread, Shared, Apart;
    var s1 := Put(s, t, Buffered(x, w).(pc := Running));
    var s' := Established(s, t, x, w);
    MoveCm(s1, t, s'.tx[t].pc, s.cmTs, s'.cm);
    assert Goto(s1, t, s'.tx[t].pc).tx == s'.tx;
  }

  lemma KeepLockVersion(s: State, t: nat, w: Request)
    requires Inv(s) && t < |s.tx| && s.tx[t].pc == LockVersion(w)
    ensures TxOk(s, s.tx[t]) && |s.cm| == |s.tx| && Inv(StepLockVersion(s, t, w))
  {
    hide Thread, Apart, Shared, Ready;
    Here(s, t);
    LockedVisible(s, t, w);
    var x := s.tx[t];
    var v := s.rl[s.stripe[w.a]].ts;
    var z := WithVersion(x, v);
    if v <= x.validTs {
      var y := Buffered(z, w).(pc := Running);
      VersionReady(s, t, w, v);
      SnapshotSize(s, t);
      ReadyBuffered(s, t, z, w);
      ReadyThread(s, t, y);
      VersionView(s, t, y);
      Local(s, t, y);
      EstablishedKeeps(s, t, z, w);
    } else {
      var y := z.(pc := ExtendClock(RetWrite(w)));
      assert Thread(s, t, x);
      VersionWaits(s, t, w, v, y);
      VersionView(s, t, y);
      Local(s, t, y);
    }
  }

  lemma VersionWaits(s: State, t: nat, w: Request, v: nat, y: Tx)
    requires Sized(s) && t < |s.tx| && s.tx[t].pc == LockVersion(w) && Thread(s, t, s.tx[t]) && TxOk(s, s.tx[t])
    requires s.rl[s.stripe[w.a]] == Ver(v) && v <= s.clock && s.tx[t].writeLog[|s.tx[t].writeLog| - 1].x == s.stripe[w.a]
    requires y == WithVersion(s.tx[t], v).(pc := ExtendClock(RetWrite(w)))
    ensures Thread(Put(s, t, y), t, y)
  {
    hide Legal, BufferOf, Constant, Current, Covered;
    var x := s.tx[t];
    assert forall k :: 0 <= k < |y.writeLog| ==> y.writeLog[k].x == x.writeLog[k].x;
    assert BufferLocked(s.stripe, y) by { assert forall i: nat :: Writes(x, i) ==> Writes(y, i); }
    SameCovered(s.stripe, x, y);
  }

  // ---------- extension ----------

  lemma KeepExtendClock(s: State, t: nat, k: Cont)
    requires Inv(s) && t < |s.tx| && s.tx[t].pc == ExtendClock(k)
    ensures Inv(StepExtendClock(s, t, k))
  {
    hide Thread, Apart, Shared;
    var y := s.tx[t].(pc := Extending(k, s.clock, 0));
    Here(s, t);
    assert Thread(s, t, s.tx[t]);
    ExtendClockThread(s, t, k, y);
    ExtendingApart(s, t, y);
    Local(s, t, y);
  }

  lemma ExtendClockThread(s: State, t: nat, k: Cont, y: Tx)
    requires Sized(s) && t < |s.tx| && s.tx[t].pc == ExtendClock(k) && Thread(s, t, s.tx[t])
    requires y == s.tx[t].(pc := Extending(k, s.clock, 0))
    ensures Thread(Put(s, t, y), t, y)
  {
    hide Legal, BufferOf, Constant, Current, Covered;
    var x := s.tx[t];
    SameCovered(s.stripe, x, y);
  }

  /** The read lock of stripe i is not set, so no pending commit will write it. */
  ghost predicate Visible(s: State, i: nat)
  {
    i < |s.rl| && s.rl[i].Ver?
  }

  lemma ExtendingApart(s: State, t: nat, y: Tx)
    requires Inv(s) && t < |s.tx| && (s.tx[t].pc.ExtendClock? || s.tx[t].pc.Extending?)
    requires y.readLog == s.tx[t].readLog
    requires forall j :: 0 <= j < |y.readLog| ==> Bound(y, j) == Bound(s.tx[t], j) || Visible(s, y.readLog[j].x)
    requires !y.pc.ReadValue? && !y.pc.ReadAgain?
    ensures forall u :: 0 <= u < |s.tx| && u != t ==> Apart(Put(s, t, y), y, s.tx[u])
  {
    forall u | 0 <= u < |s.tx| && u != t
      ensures Apart(Put(s, t, y), y, s.tx[u])
    {
      assert Apart(s, s.tx[t], s.tx[u]) && Thread(s, u, s.tx[u]);
    }
  }

  /** An entry whose version is still the current one is valid up to the clock value loaded before. */
  lemma KeepExtendingEntry(s: State, t: nat, k: Cont, c: nat, i: nat)
    requires Inv(s) && t < |s.tx| && s.tx[t].pc == Extending(k, c, i) && i < |s.tx[t].readLog|
    ensures TxOk(s, s.tx[t]) && Inv(StepExtending(s, t, k, c, i))
  {
    hide Thread, Apart, Shared;
    Here(s, t);
    var x := s.tx[t];
    if s.rl[x.readLog[i].x] == Ver(x.readLog[i].version) {
      var y := x.(pc := Extending(k, c, i + 1));
      assert Shared(s) && Thread(s, t, x);
      EntryThread(s, t, k, c, i, y);
      ExtendingApart(s, t, y);
      Local(s, t, y);
    } else {
      Move(s, t, x.(pc := Dropping(0)));
    }
  }

  lemma EntryThread(s: State, t: nat, k: Cont, c: nat, i: nat, y: Tx)
    requires Shared(s) && t < |s.tx| && s.tx[t].pc == Extending(k, c, i) && i < |s.tx[t].readLog| && TxOk(s, s.tx[t])
    requires Thread(s, t, s.tx[t])
    requires s.rl[s.tx[t].readLog[i].x] == Ver(s.tx[t].readLog[i].version) && y == s.tx[t].(pc := Extending(k, c, i + 1))
    ensures Thread(Put(s, t, y), t, y)
  {
    hide Shared, Legal, BufferOf, ReadLocked, Holds, Recorded, Pending, Decided, Live, ReadsConstant, Constant, Bound, Covered;
    var x := s.tx[t];
    SharedSized(s);
    PlainFacts(x);
    PlainFacts(y);
    var e := x.readLog[i];
    CurrentConstant(s, e.x, e.version, c);
    SameCovered(s.stripe, x, y);
    EntryReads(s.stripe, s.clock, s.hist, x, y, k, c, i);
  }

  lemma CurrentConstant(s: State, i: nat, v: nat, c: nat)
    requires Shared(s) && i < |s.rl| && s.rl[i] == Ver(v)
    ensures Constant(s.stripe, s.hist, i, v, c)
  {
    assert Current(s.stripe, s.mem, s.hist, i, v);
  }

  lemma EntryReads(stripe: seq<nat>, clock: nat, hist: seq<Memory>, x: Tx, y: Tx, k: Cont, c: nat, i: nat)
    requires ReadsConstant(stripe, clock, hist, x) && x.pc == Extending(k, c, i) && i < |x.readLog|
    requires y == x.(pc := Extending(k, c, i + 1))
    requires Constant(stripe, hist, x.readLog[i].x, x.readLog[i].version, c)
    ensures ReadsConstant(stripe, clock, hist, y)
  {
    hide Constant;
  }

  /** The operations so far are legal at the new timestamp too: nothing they touched has changed. */
  lemma ExtendedReady(s: State, t: nat, k: Cont, c: nat)
    requires Inv(s) && t < |s.tx| && s.tx[t].pc == Extending(k, c, |s.tx[t].readLog|)
    ensures Ready(s, t, s.tx[t].(validTs := c))
  {
    hide Apart, Legal, BufferOf;
    var x := s.tx[t];
    assert Thread(s, t, x);
    var y := x.(validTs := c);
    assert BufferLocked(s.stripe, y) by { assert forall i: nat :: Writes(x, i) ==> Writes(y, i); }
    assert Covered(s.stripe, y.(pc := Running)) by {
      assert forall i: nat :: Logged(x, i) ==> Logged(y.(pc := Running), i);
    }
    ExtendedLegal(s, t, k, c);
  }

  lemma ExtendedLegal(s: State, t: nat, k: Cont, c: nat)
    requires Inv(s) && t < |s.tx| && s.tx[t].pc == Extending(k, c, |s.tx[t].readLog|)
    ensures c < |s.hist| && Legal(s.hist[c], s.tx[t].ops)
  {
    hide Apart, Legal, BufferOf;
    var x := s.tx[t];
    assert Thread(s, t, x);
    forall a: nat | a < |s.mem| && Touches(x.ops, a)
      ensures s.hist[c][a] == s.hist[x.validTs][a]
    {
      var i :| 0 <= i < |x.ops| && x.ops[i].a == a;
      assert Logged(x, s.stripe[a]);
      LoggedConstant(s, t, k, c, a);
    }
    LegalFrame(s.hist[x.validTs], s.hist[c], x.ops);
  }

  lemma LoggedConstant(s: State, t: nat, k: Cont, c: nat, a: nat)
    requires Inv(s) && t < |s.tx| && s.tx[t].pc == Extending(k, c, |s.tx[t].readLog|)
    requires a < |s.mem| && Logged(s.tx[t], s.stripe[a])
    ensures c < |s.hist| && s.tx[t].validTs < |s.hist| && s.hist[c][a] == s.hist[s.tx[t].validTs][a]
  {
    hide Thread, Apart;
    var x := s.tx[t];
    SnapshotSize(s, t);
    if j :| 0 <= j < SettledReads(x) && x.readLog[j].x == s.stripe[a] {
      ReadEntryConstant(s, t, k, c, j);
    } else {
      var n :| 0 <= n < SettledWrites(x) && x.writeLog[n].x == s.stripe[a];
      WriteEntryConstant(s, t, k, c, n);
    }
  }

  lemma ReadEntryConstant(s: State, t: nat, k: Cont, c: nat, j: nat)
    requires Inv(s) && t < |s.tx| && s.tx[t].pc == Extending(k, c, |s.tx[t].readLog|) && j < SettledReads(s.tx[t])
    ensures Constant(s.stripe, s.hist, s.tx[t].readLog[j].x, s.tx[t].readLog[j].version, c)
    ensures s.tx[t].readLog[j].version <= s.tx[t].validTs <= c < |s.hist|
  {
    hide Apart, Legal, BufferOf, Constant;
    assert Thread(s, t, s.tx[t]);
  }

  lemma WriteEntryConstant(s: State, t: nat, k: Cont, c: nat, n: nat)
    requires Inv(s) && t < |s.tx| && s.tx[t].pc == Extending(k, c, |s.tx[t].readLog|) && n < SettledWrites(s.tx[t])
    ensures Current(s.stripe, s.mem, s.hist, s.tx[t].writeLog[n].x, s.tx[t].writeLog[n].oldVersion)
    ensures s.tx[t].writeLog[n].oldVersion <= s.tx[t].validTs <= c < |s.hist|
  {
    hide Apart, Legal, BufferOf, Constant;
    var x := s.tx[t];
    assert Thread(s, t, x);
    assert s.rl[x.writeLog[n].x] == Ver(x.writeLog[n].oldVersion);
  }

  lemma KeepExtendedRead(s: State, t: nat, a: nat, val: Word, c: nat)
    requires Inv(s) && t < |s.tx| && s.tx[t].pc == Extending(RetRead(a, val), c, |s.tx[t].readLog|)
    ensures TxOk(s, s.tx[t]) && |s.cm| == |s.tx| && Inv(StepExtending(s, t, RetRead(a, val), c, |s.tx[t].readLog|))
  {
    hide Thread, Apart, Shared, Ready;
    Here(s, t);
    var z := s.tx[t].(validTs := c);
    var y := Return(z, a, val);
    ExtendedReady(s, t, RetRead(a, val), c);
    LastRead(s, t, a, val, c);
    ReadyReturn(s, t, z, a, val);
    ReadyThread(s, t, y);
    ExtendedApart(s, t, y);
    Local(s, t, y);
  }

  lemma KeepExtendedWrite(s: State, t: nat, w: Request, c: nat)
    requires Inv(s) && t < |s.tx| && s.tx[t].pc == Extending(RetWrite(w), c, |s.tx[t].readLog|)
    ensures TxOk(s, s.tx[t]) && |s.cm| == |s.tx| && Inv(StepExtending(s, t, RetWrite(w), c, |s.tx[t].readLog|))
  {
    hide Thread, Apart, Shared, Ready;
    Here(s, t);
    var z := s.tx[t].(validTs := c);
    var y := Buffered(z, w).(pc := Running);
    ExtendedReady(s, t, RetWrite(w), c);
    LastWrite(s, t, w, c);
    ReadyBuffered(s, t, z, w);
    ReadyThread(s, t, y);
    ExtendedApart(s, t, y);
    Local(s, t, y);
    EstablishedKeeps(s, t, z, w);
  }

  lemma LastRead(s: State, t: nat, a: nat, val: Word, c: nat)
    requires Inv(s) && t < |s.tx| && s.tx[t].pc == Extending(RetRead(a, val), c, |s.tx[t].readLog|)
    ensures a < |s.mem| && c < |s.hist| && |s.hist[c]| == |s.mem|
    ensures s.hist[c][a] == val && a !in s.tx[t].buffer && Logged(s.tx[t].(validTs := c, pc := Running), s.stripe[a])
  {
    hide Apart, Legal, BufferOf;
    var x := s.tx[t];
    assert Thread(s, t, x);
    var n := |x.readLog| - 1;
    assert Constant(s.stripe, s.hist, s.stripe[a], x.readLog[n].version, c);
  }

  lemma LastWrite(s: State, t: nat, w: Request, c: nat)
    requires Inv(s) && t < |s.tx| && s.tx[t].pc == Extending(RetWrite(w), c, |s.tx[t].readLog|)
    ensures w.a < |s.mem| && c < |s.hist| && |s.hist[c]| == |s.mem| && Writes(s.tx[t].(validTs := c), s.stripe[w.a])
  {
    hide Apart, Legal, BufferOf;
    assert Thread(s, t, s.tx[t]);
  }

  lemma ExtendedApart(s: State, t: nat, y: Tx)
    requires Inv(s) && t < |s.tx| && s.tx[t].pc.Extending? && s.tx[t].pc.i == |s.tx[t].readLog|
    requires y.pc.Running? && y.readLog == s.tx[t].readLog && y.validTs == s.tx[t].pc.c
    ensures forall u :: 0 <= u < |s.tx| && u != t ==> Apart(Put(s, t, y), y, s.tx[u])
  {
    hide Thread, Shared;
    forall u | 0 <= u < |s.tx| && u != t
      ensures Apart(Put(s, t, y), y, s.tx[u])
    {
      assert Apart(s, s.tx[t], s.tx[u]);
    }
  }
}
