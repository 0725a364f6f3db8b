/** A whole transaction that nobody interferes with makes its calls and commits. */
module SwissSolo {
  import opened Words
  import opened SwissState
  import opened SwissInvariant
  import opened SwissRuns
  import opened SwissProgress
  import opened SwissAlone

  // ---------- runs of one thread ----------

  ghost predicate Mine(run: seq<Event>, t: nat)
  {
    forall e :: e in run ==> e.t == t
  }

  lemma {:induction false} LeadsOn(s: State, a: seq<Event>, s1: State, b: seq<Event>, s2: State)
    requires Leads(s, a, s1) && Leads(s1, b, s2)
    ensures Leads(s, a + b, s2)
    decreases |a|
  {
    hide Step, Enabled, Formed;
    if a == [] {
      assert a + b == b;
    } else {
      LeadsOn(Step(s, a[0].t, a[0].ch), a[1..], s1, b, s2);
      assert (a + b)[1..] == a[1..] + b;
    }
  }

  lemma {:induction false} AloneLeads(s: State, t: nat, run: seq<Choice>, s': State) returns (r: seq<Event>)
    requires Alone(s, t, run, s')
    ensures Leads(s, r, s') && Mine(r, t) && Formed(s') && t < |s'.tx| && Returned(s'.tx[t])
    decreases |run|
  {
    hide Step, Enabled, Formed;
    r := [];
    if !Returned(s.tx[t]) {
      var rest := AloneLeads(Step(s, t, run[0]), t, run[1..], s');
      r := [Event(t, run[0])] + rest;
      assert r[1..] == rest;
    }
  }

  lemma ReachableOn(m: Memory, s: State, run: seq<Event>, s': State)
    requires Reachable(m, s) && Leads(s, run, s')
    ensures Reachable(m, s')
  {
    hide Leads;
    var gv4: bool, stripe, stripes: nat, threads: nat, r :|
      Mapped(stripe, stripes, m) && Leads(Init(gv4, stripe, stripes, threads, m), r, s);
    LeadsOn(Init(gv4, stripe, stripes, threads, m), r, s, run, s');
  }

  /** One whole call. */
  lemma CallMade(m: Memory, s0: State, run0: seq<Event>, s: State, t: nat, ch: Choice, r: State) returns (run: seq<Event>)
    requires Reachable(m, s) && Leads(s0, run0, s) && Mine(run0, t) && Formed(s) && Enabled(s, t, ch) && Ends(Step(s, t, ch), t, r)
    ensures Leads(s0, run, r) && Mine(run, t) && Reachable(m, r) && Inv(r) && Formed(r)
  {
    hide Reachable, Step, Enabled, Formed, Inv;
    var c :| Alone(Step(s, t, ch), t, c, r);
    hide Alone;
    var rest := AloneLeads(Step(s, t, ch), t, c, r);
    var call := [Event(t, ch)] + rest;
    assert call[1..] == rest;
    assert Leads(s, call, r);
    hide Leads;
    ReachableOn(m, s, call, r);
    ReachableInv(m, r);
    LeadsOn(s0, run0, s, call, r);
    run := run0 + call;
  }

  // ---------- a transaction that is not disturbed ----------

  /** Since s0 thread t has begun and made the calls, and nobody else has moved. */
  ghost predicate Undisturbed(s0: State, s: State, t: nat, calls: seq<Call>)
  {
    && Formed(s) && t < |s.tx| && s.tx[t].pc.Running?
    && s.mem == s0.mem && s.rl == s0.rl && s.clock == s0.clock && s.recs == s0.recs && s.stripe == s0.stripe && |s.wl| == |s0.wl|
    && (forall y :: 0 <= y < |s.wl| ==> s.wl[y] == s0.wl[y] || Owns(s.wl, t, y))
    && var x := s.tx[t];
    && x.validTs == s.clock && x.begin == |s.recs| && Unchanged(s.rl, x.readLog, 0)
    && Erase(x.ops) == calls && Legal(s.mem, x.ops)
  }

  /** A word whose stripe nobody has locked. */
  predicate Open(s: State, a: nat)
  {
    a < |s.mem| && a < |s.stripe| && s.stripe[a] < |s.wl| && s.wl[s.stripe[a]].Clear?
  }

  /** What the invariant says of an unlocked stripe, and of buffered words. */
  lemma OpenFacts(s: State, t: nat, a: nat)
    requires Inv(s) && t < |s.tx| && s.tx[t].pc.Running? && a < |s.mem|
    ensures a < |s.stripe| && s.stripe[a] < |s.wl| == |s.rl|
    ensures s.wl[s.stripe[a]].Clear? ==> s.rl[s.stripe[a]].Ver? && s.rl[s.stripe[a]].ts <= s.clock
    ensures s.tx[t].buffer == BufferOf(s.tx[t].ops)
    ensures a in s.tx[t].buffer ==> Owns(s.wl, t, s.stripe[a])
  {
    RunningFacts(s, t);
    hide Apart, History, Legal, BufferOf;
    assert Thread(s, t, s.tx[t]);
  }

  lemma BeginSolo(m: Memory, s: State, t: nat) returns (run: seq<Event>, s': State)
    requires Reachable(m, s) && Formed(s) && t < |s.tx| && s.tx[t].pc.Idle?
    ensures Leads(s, run, s') && Mine(run, t) && Reachable(m, s') && Inv(s') && Undisturbed(s, s', t, [])
  {
    hide Reachable, Ends, Inv, Step, Leads;
    BeginAlone(m, s, t);
    s' := Put(s, t, Tx(Running, s.clock, [], [], map[], [], |s.recs|)).(cm := s.cm[t := CM_IDLE]);
    assert Leads(s, [], s) by { LeadsNone(s); }
    run := CallMade(m, s, [], s, t, Go, s');
  }

  lemma LeadsNone(s: State)
    ensures Leads(s, [], s)
  {
  }

  lemma ReadSolo(m: Memory, s0: State, run0: seq<Event>, s: State, t: nat, calls: seq<Call>, a: nat) returns (run: seq<Event>, s': State)
    requires Reachable(m, s) && Inv(s) && Leads(s0, run0, s) && Mine(run0, t) && Undisturbed(s0, s, t, calls) && Open(s0, a)
    ensures Leads(s0, run, s') && Mine(run, t) && Reachable(m, s') && Inv(s') && Undisturbed(s0, s', t, calls + [ReadCall(a)])
  {
    hide Reachable, Ends, Inv, Step, Leads, Waits, Legal, Erase, Apply, BufferOf;
    OpenFacts(s, t, a);
    ReadAlone(m, s, t, a);
    s' := ReadOutcome(s, t, a);
    run := CallMade(m, s0, run0, s, t, Read(a), s');
    var x := s.tx[t];
    var v := Through(x.buffer, a, s.mem[a]);
    ApplyThroughBuffer(s.mem, x.ops, a);
    LegalSnoc(s.mem, x.ops, Rd(a, v));
    EraseSnoc(x.ops, Rd(a, v));
    if !Owns(s.wl, t, s.stripe[a]) {
      UnchangedSnoc(s.rl, x.readLog, ReadEntry(s.stripe[a], s.rl[s.stripe[a]].ts));
    }
  }

  lemma WriteSolo(m: Memory, s0: State, run0: seq<Event>, s: State, t: nat, calls: seq<Call>, w: Request) returns (run: seq<Event>, s': State)
    requires Reachable(m, s) && Inv(s) && Leads(s0, run0, s) && Mine(run0, t) && Undisturbed(s0, s, t, calls) && Open(s0, w.a)
    ensures Leads(s0, run, s') && Mine(run, t) && Reachable(m, s') && Inv(s')
    ensures Undisturbed(s0, s', t, calls + [WriteCall(w.a, w.val, w.mask)])
  {
    hide Reachable, Ends, Inv, Step, Leads, Waits, Legal, Erase, Apply, BufferOf, Insert, Unchanged;
    OpenFacts(s, t, w.a);
    WriteAlone(m, s, t, w);
    s' := WriteOutcome(s, t, w);
    run := CallMade(m, s0, run0, s, t, Write(w), s');
    LegalSnoc(s.mem, s.tx[t].ops, Wr(w.a, w.val, w.mask));
    EraseSnoc(s.tx[t].ops, Wr(w.a, w.val, w.mask));
  }

  lemma {:induction false} CallsSolo(m: Memory, s0: State, run0: seq<Event>, s: State, t: nat, calls: seq<Call>, made: seq<Call>)
    returns (run: seq<Event>, s': State)
    requires Reachable(m, s) && Inv(s) && Leads(s0, run0, s) && Mine(run0, t) && Undisturbed(s0, s, t, made)
    requires made <= calls && forall c :: c in calls ==> Open(s0, c.a)
    ensures Leads(s0, run, s') && Mine(run, t) && Reachable(m, s') && Inv(s') && Undisturbed(s0, s', t, calls)
    decreases |calls| - |made|
  {
    hide Reachable, Inv, Leads, Undisturbed, Mine;
    run, s' := run0, s;
    if |made| < |calls| {
      var c := calls[|made|];
      match c {
        case ReadCall(a) => run, s' := ReadSolo(m, s0, run0, s, t, made, a);
        case WriteCall(a, val, mask) => run, s' := WriteSolo(m, s0, run0, s, t, made, Request(a, val, mask));
      }
      assert made + [c] <= calls;
      run, s' := CallsSolo(m, s0, run, s', t, calls, made + [c]);
    } else {
      assert made == calls;
    }
  }

  lemma CommitSolo(m: Memory, s0: State, run0: seq<Event>, s: State, t: nat, calls: seq<Call>) returns (run: seq<Event>, s': State)
    requires Reachable(m, s) && Inv(s) && Leads(s0, run0, s) && Mine(run0, t) && Undisturbed(s0, s, t, calls)
    ensures Leads(s0, run, s') && Mine(run, t) && t < |s'.tx| && s'.tx[t].pc.Idle?
    ensures |s'.recs| == |s0.recs| + 1 && s'.recs[..|s0.recs|] == s0.recs
    ensures var ops := s'.recs[|s0.recs|].ops; Erase(ops) == calls && Legal(s0.mem, ops) && s'.mem == Apply(s0.mem, ops)
  {
    hide Reachable, Ends, Inv, Step, Leads, Waits, Legal, Erase, Apply, BufferOf;
    CommitAlone(m, s, t);
    s' := CommitOutcome(s, t);
    assert MayCommit(s, t);
    run := CallMade(m, s0, run0, s, t, Commit, s');
    var ops := s.tx[t].ops;
    forall a | 0 <= a < |s.mem|
      ensures s'.mem[a] == Apply(s.mem, ops)[a]
    {
      OpenFacts(s, t, a);
      ApplyThroughBuffer(s.mem, ops, a);
      if s.tx[t].writeLog == [] { NothingBuffered(s, t, a); }
    }
  }

  lemma NothingBuffered(s: State, t: nat, a: nat)
    requires Inv(s) && t < |s.tx| && s.tx[t].pc.Running? && s.tx[t].writeLog == [] && a < |s.mem|
    ensures a !in s.tx[t].buffer
  {
    hide Apart, Shared, Legal, BufferOf;
    assert Thread(s, t, s.tx[t]);
  }

  /** From every reachable state, an idle thread whose words nobody has locked can make any calls, one after another, and
      commit, all by its own steps: they are decided as one transaction, its reads are those of a sequential execution
      from the present memory, and memory is then what this execution leaves. */
  lemma TransactionAlone(m: Memory, s: State, t: nat, calls: seq<Call>) returns (run: seq<Event>, s': State)
    requires Reachable(m, s) && Formed(s) && t < |s.tx| && s.tx[t].pc.Idle?
    requires forall c :: c in calls ==> Open(s, c.a)
    ensures Leads(s, run, s') && (forall e :: e in run ==> e.t == t) && t < |s'.tx| && s'.tx[t].pc.Idle?
    ensures |s'.recs| == |s.recs| + 1 && s'.recs[..|s.recs|] == s.recs
    ensures var ops := s'.recs[|s.recs|].ops; Erase(ops) == calls && Legal(s.mem, ops) && s'.mem == Apply(s.mem, ops)
  {
    hide Reachable, Inv, Leads, Undisturbed, Legal, Erase, Apply;
    run, s' := BeginSolo(m, s, t);
    run, s' := CallsSolo(m, s, run, s', t, calls, []);
    run, s' := CommitSolo(m, s, run, s', t, calls);
  }
}
