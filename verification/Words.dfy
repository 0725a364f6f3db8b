/** Machine words, masked writes, and what a sequence of transactional operations does to memory. */
module Words {
  type Word = bv64

  const UNMASKED: Word := 0xFFFF_FFFF_FFFF_FFFF

  function MaskWord(prev: Word, val: Word, mask: Word): Word
  {
    if mask == UNMASKED then val else (prev & !mask) | (val & mask)
  }

  /** A buffered word: only the bits set in mask are valid. */
  datatype Masked = Masked(val: Word, mask: Word)

  /** The word log of a transaction, by address. */
  type Buffer = map<nat, Masked>

  /** InsertWordLogEntry: a second write to an address is merged into the first entry. */
  function Insert(b: Buffer, a: nat, val: Word, mask: Word): Buffer
  {
    if a in b then b[a := Masked(MaskWord(b[a].val, val, mask), b[a].mask | mask)]
    else b[a := Masked(val, mask)]
  }

  /** What a location holds once the buffer has been written back over w. */
  function Through(b: Buffer, a: nat, w: Word): Word
  {
    if a in b then MaskWord(w, b[a].val, b[a].mask) else w
  }

  lemma MaskWordBits(w: Word, val: Word, mask: Word)
    ensures MaskWord(w, val, mask) == (w & !mask) | (val & mask)
  {
  }

  lemma MergeBits(p: Word, v1: Word, m1: Word, v2: Word, m2: Word, x: Word, y: Word)
    requires x == (v1 & !m2) | (v2 & m2)
    requires y == (p & !m1) | (v1 & m1)
    ensures (p & !(m1 | m2)) | (x & (m1 | m2)) == (y & !m2) | (v2 & m2)
  {
  }

  /** Merging two masked writes and applying the result once equals applying them in order. */
  lemma MergeOfMasks(prev: Word, v1: Word, m1: Word, v2: Word, m2: Word)
    ensures MaskWord(prev, MaskWord(v1, v2, m2), m1 | m2) == MaskWord(MaskWord(prev, v1, m1), v2, m2)
  {
    var x, y := MaskWord(v1, v2, m2), MaskWord(prev, v1, m1);
    var l, r := MaskWord(prev, x, m1 | m2), MaskWord(y, v2, m2);
    assert l == r by {
      assert x == (v1 & !m2) | (v2 & m2) by { MaskWordBits(v1, v2, m2); }
      assert y == (prev & !m1) | (v1 & m1) by { MaskWordBits(prev, v1, m1); }
      assert l == (prev & !(m1 | m2)) | (x & (m1 | m2)) by { MaskWordBits(prev, x, m1 | m2); }
      assert r == (y & !m2) | (v2 & m2) by { MaskWordBits(y, v2, m2); }
      MergeBits(prev, v1, m1, v2, m2, x, y);
    }
  }

  lemma ThroughInsert(b: Buffer, a: nat, val: Word, mask: Word, c: nat, w: Word)
    ensures Through(Insert(b, a, val, mask), c, w) ==
            if c == a then MaskWord(Through(b, a, w), val, mask) else Through(b, c, w)
  {
    if c == a && a in b {
      MergeOfMasks(w, b[a].val, b[a].mask, val, mask);
    }
  }

  /** The operations a transaction performed, with the values its reads returned. */
  datatype Op = Rd(a: nat, v: Word) | Wr(a: nat, v: Word, mask: Word)

  type Memory = seq<Word>

  /** Sequential meaning of a run of operations: reads change nothing, writes take effect at once. */
  function Apply(m: Memory, ops: seq<Op>): (r: Memory)
    ensures |r| == |m|
  {
    if ops == [] then m
    else
      var n := |ops| - 1;
      var p := Apply(m, ops[..n]);
      match ops[n]
      case Rd(_, _) => p
      case Wr(a, v, mask) => if a < |p| then p[a := MaskWord(p[a], v, mask)] else p
  }

  /** Every read of ops returned what a sequential execution from m would have returned. */
  ghost predicate Legal(m: Memory, ops: seq<Op>)
  {
    ops == [] ||
    var n := |ops| - 1;
    && Legal(m, ops[..n])
    && ops[n].a < |m|
    && (ops[n].Rd? ==> Apply(m, ops[..n])[ops[n].a] == ops[n].v)
  }

  /** The buffer a run of operations leaves behind. */
  function BufferOf(ops: seq<Op>): Buffer
  {
    if ops == [] then map[]
    else
      var n := |ops| - 1;
      var b := BufferOf(ops[..n]);
      match ops[n]
      case Rd(_, _) => b
      case Wr(a, v, mask) => Insert(b, a, v, mask)
  }

  ghost predicate Touches(ops: seq<Op>, a: nat)
  {
    exists i :: 0 <= i < |ops| && ops[i].a == a
  }

  /** Buffering refines writing at once: the word log applied at the end is the sequential effect. */
  lemma {:induction false} ApplyThroughBuffer(m: Memory, ops: seq<Op>, a: nat)
    requires a < |m|
    ensures Apply(m, ops)[a] == Through(BufferOf(ops), a, m[a])
  {
    if ops != [] {
      var n := |ops| - 1;
      ApplyThroughBuffer(m, ops[..n], a);
      if ops[n].Wr? {
        var o := ops[n];
        ThroughInsert(BufferOf(ops[..n]), o.a, o.v, o.mask, a, m[a]);
      }
    }
  }

  /** Only written addresses are in the buffer. */
  lemma {:induction false} BufferTouched(ops: seq<Op>, a: nat)
    requires a in BufferOf(ops)
    ensures Touches(ops, a)
  {
    var n := |ops| - 1;
    if ops[n].a != a {
      BufferTouched(ops[..n], a);
      var i :| 0 <= i < n && ops[..n][i].a == a;
      assert ops[i].a == a;
    }
  }

  /** Legality depends on the touched addresses only. */
  lemma {:induction false} LegalFrame(m: Memory, m': Memory, ops: seq<Op>)
    requires Legal(m, ops) && |m'| == |m|
    requires forall a: nat :: a < |m| && Touches(ops, a) ==> m'[a] == m[a]
    ensures Legal(m', ops)
  {
    if ops != [] {
      var n := |ops| - 1;
      forall a: nat | a < |m| && Touches(ops[..n], a)
        ensures m'[a] == m[a]
      {
        var i :| 0 <= i < n && ops[..n][i].a == a;
        assert ops[i].a == a;
      }
      LegalFrame(m, m', ops[..n]);
      var a := ops[n].a;
      assert Touches(ops, a);
      ApplyThroughBuffer(m, ops[..n], a);
      ApplyThroughBuffer(m', ops[..n], a);
    }
  }

  /** One more operation. */
  lemma LegalSnoc(m: Memory, ops: seq<Op>, o: Op)
    requires Legal(m, ops) && o.a < |m|
    requires o.Rd? ==> Apply(m, ops)[o.a] == o.v
    ensures Legal(m, ops + [o])
  {
    assert (ops + [o])[..|ops|] == ops;
  }

  lemma BufferSnoc(ops: seq<Op>, o: Op)
    ensures BufferOf(ops + [o]) ==
            if o.Rd? then BufferOf(ops) else Insert(BufferOf(ops), o.a, o.v, o.mask)
  {
    assert (ops + [o])[..|ops|] == ops;
  }

  // ---------- operations and the calls that ask for them ----------

  /** A call of ReadWord or WriteWord. */
  datatype Call = ReadCall(a: nat) | WriteCall(a: nat, val: Word, mask: Word)

  /** The call that an operation answers. */
  function Asked(o: Op): Call
  {
    match o
    case Rd(a, _) => ReadCall(a)
    case Wr(a, v, mask) => WriteCall(a, v, mask)
  }

  function Erase(ops: seq<Op>): (r: seq<Call>)
    ensures |r| == |ops|
  {
    seq(|ops|, i requires 0 <= i < |ops| => Asked(ops[i]))
  }

  lemma EraseSnoc(ops: seq<Op>, o: Op)
    ensures Erase(ops + [o]) == Erase(ops) + [Asked(o)]
  {
  }

  lemma EraseNone()
    ensures Erase([]) == []
  {
  }
}
