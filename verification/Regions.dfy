/** Regions of bytes, read and written by masked accesses to words (src/stm/read_write.h). */
module Regions {
  import opened Words

  type Byte = bv8

  const BYTES := 8
  const FULL: Byte := 0xFF

  // ---------- the bytes of a word ----------

  function Shift(k: nat): bv6
    requires k < BYTES
  {
    if k == 0 then 0 else if k == 1 then 8 else if k == 2 then 16 else if k == 3 then 24
    else if k == 4 then 32 else if k == 5 then 40 else if k == 6 then 48 else 56
  }

  function Cut(w: Word, s: bv6): Byte
  {
    ((w >> s) & 0xFF) as Byte
  }

  /** b8[k] of read_write_conv_t. */
  function ByteOf(w: Word, k: nat): Byte
    requires k < BYTES
  {
    Cut(w, Shift(k))
  }

  function Glue(a: Byte, b: Byte, c: Byte, d: Byte, e: Byte, f: Byte, g: Byte, h: Byte): Word
  {
    (a as Word) | ((b as Word) << 8) | ((c as Word) << 16) | ((d as Word) << 24)
    | ((e as Word) << 32) | ((f as Word) << 40) | ((g as Word) << 48) | ((h as Word) << 56)
  }

  /** The word with these bytes in b8. */
  function Pack(bs: seq<Byte>): Word
    requires |bs| == BYTES
  {
    Glue(bs[0], bs[1], bs[2], bs[3], bs[4], bs[5], bs[6], bs[7])
  }

  lemma CutGlue(a: Byte, b: Byte, c: Byte, d: Byte, e: Byte, f: Byte, g: Byte, h: Byte)
    ensures var w := Glue(a, b, c, d, e, f, g, h);
      && Cut(w, 0) == a && Cut(w, 8) == b && Cut(w, 16) == c && Cut(w, 24) == d
      && Cut(w, 32) == e && Cut(w, 40) == f && Cut(w, 48) == g && Cut(w, 56) == h
  {
  }

  /** A masked write does to each byte what it does to the word. */
  lemma CutMask(prev: Word, val: Word, mask: Word)
    ensures Cut((prev & !mask) | (val & mask), 0) == (Cut(prev, 0) & !Cut(mask, 0)) | (Cut(val, 0) & Cut(mask, 0))
    ensures Cut((prev & !mask) | (val & mask), 8) == (Cut(prev, 8) & !Cut(mask, 8)) | (Cut(val, 8) & Cut(mask, 8))
    ensures Cut((prev & !mask) | (val & mask), 16) == (Cut(prev, 16) & !Cut(mask, 16)) | (Cut(val, 16) & Cut(mask, 16))
    ensures Cut((prev & !mask) | (val & mask), 24) == (Cut(prev, 24) & !Cut(mask, 24)) | (Cut(val, 24) & Cut(mask, 24))
    ensures Cut((prev & !mask) | (val & mask), 32) == (Cut(prev, 32) & !Cut(mask, 32)) | (Cut(val, 32) & Cut(mask, 32))
    ensures Cut((prev & !mask) | (val & mask), 40) == (Cut(prev, 40) & !Cut(mask, 40)) | (Cut(val, 40) & Cut(mask, 40))
    ensures Cut((prev & !mask) | (val & mask), 48) == (Cut(prev, 48) & !Cut(mask, 48)) | (Cut(val, 48) & Cut(mask, 48))
    ensures Cut((prev & !mask) | (val & mask), 56) == (Cut(prev, 56) & !Cut(mask, 56)) | (Cut(val, 56) & Cut(mask, 56))
  {
  }

  lemma CutFull(s: bv6)
    requires s <= 56
    ensures Cut(UNMASKED, s) == FULL
  {
  }

  lemma ByteOfPack(bs: seq<Byte>, k: nat)
    requires |bs| == BYTES && k < BYTES
    ensures ByteOf(Pack(bs), k) == bs[k]
  {
    hide Cut, Glue;
    CutGlue(bs[0], bs[1], bs[2], bs[3], bs[4], bs[5], bs[6], bs[7]);
  }

  lemma Selects(p: Byte, v: Byte)
    ensures (p & !FULL) | (v & FULL) == v && (p & !0) | (v & 0) == p
  {
  }

  lemma ByteOfBits(prev: Word, val: Word, mask: Word, k: nat)
    requires k < BYTES
    ensures ByteOf((prev & !mask) | (val & mask), k) ==
            (ByteOf(prev, k) & !ByteOf(mask, k)) | (ByteOf(val, k) & ByteOf(mask, k))
  {
    hide Cut;
    CutMask(prev, val, mask);
  }

  /** A masked write replaces the bytes whose mask is full and keeps those whose mask is zero. */
  lemma ByteOfMask(prev: Word, val: Word, mask: Word, k: nat)
    requires k < BYTES && (ByteOf(mask, k) == FULL || ByteOf(mask, k) == 0)
    ensures ByteOf(MaskWord(prev, val, mask), k) == if ByteOf(mask, k) == FULL then ByteOf(val, k) else ByteOf(prev, k)
  {
    hide ByteOf, MaskWord;
    MaskWordBits(prev, val, mask);
    ByteOfBits(prev, val, mask, k);
    Selects(ByteOf(prev, k), ByteOf(val, k));
  }

  // ---------- memory by bytes ----------

  /** Byte b of memory as the transaction sees it: through its write log. */
  function Seen(mem: Memory, log: Buffer, b: nat): Byte
    requires b < BYTES * |mem|
  {
    ByteOf(Through(log, b / BYTES, mem[b / BYTES]), b % BYTES)
  }

  /** Bytes dest to upTo-1 have been replaced by those of src, and no others. */
  ghost predicate Replaced(mem: Memory, before: Buffer, log: Buffer, src: seq<Byte>, dest: nat, upTo: nat)
  {
    dest <= upTo <= dest + |src| &&
    forall b: nat :: b < BYTES * |mem| ==>
      Seen(mem, log, b) == if dest <= b < upTo then src[b - dest] else Seen(mem, before, b)
  }

  /** One masked write more: in word a, the bytes from upTo to next-1. */
  ghost predicate Covers(mem: Memory, src: seq<Byte>, dest: nat, upTo: nat, next: nat, a: nat, val: Word, mask: Word)
  {
    && a < |mem| && BYTES * a <= upTo <= next <= BYTES * a + BYTES && dest <= upTo && next <= dest + |src|
    && forall k: nat :: k < BYTES ==>
         if upTo <= BYTES * a + k < next then ByteOf(mask, k) == FULL && ByteOf(val, k) == src[BYTES * a + k - dest]
         else ByteOf(mask, k) == 0
  }

  lemma WriteSeen(mem: Memory, log: Buffer, a: nat, val: Word, mask: Word, b: nat)
    requires a < |mem| && b < BYTES * |mem|
    requires b / BYTES == a ==> ByteOf(mask, b % BYTES) == FULL || ByteOf(mask, b % BYTES) == 0
    ensures Seen(mem, Insert(log, a, val, mask), b) ==
            if b / BYTES == a && ByteOf(mask, b % BYTES) == FULL then ByteOf(val, b % BYTES) else Seen(mem, log, b)
  {
    hide Insert, Through, MaskWord, Cut, Shift;
    var w := mem[b / BYTES];
    ThroughInsert(log, a, val, mask, b / BYTES, w);
    if b / BYTES == a { ByteOfMask(Through(log, a, w), val, mask, b % BYTES); }
  }

  lemma ReplacedMore(mem: Memory, before: Buffer, log: Buffer, src: seq<Byte>, dest: nat, upTo: nat,
                     next: nat, a: nat, val: Word, mask: Word)
    requires Replaced(mem, before, log, src, dest, upTo) && Covers(mem, src, dest, upTo, next, a, val, mask)
    ensures Replaced(mem, before, Insert(log, a, val, mask), src, dest, next)
  {
    hide Insert, Seen, ByteOf;
    forall b: nat | b < BYTES * |mem|
      ensures Seen(mem, Insert(log, a, val, mask), b) == if dest <= b < next then src[b - dest] else Seen(mem, before, b)
    {
      WriteSeen(mem, log, a, val, mask, b);
      assert b == BYTES * (b / BYTES) + b % BYTES;
    }
  }

  /** A whole word, written without a mask. */
  lemma CoversWord(mem: Memory, src: seq<Byte>, dest: nat, upTo: nat, a: nat, val: seq<Byte>)
    requires a < |mem| && upTo == BYTES * a && dest <= upTo && upTo + BYTES <= dest + |src|
    requires |val| == BYTES && forall k :: 0 <= k < BYTES ==> val[k] == src[upTo + k - dest]
    ensures Covers(mem, src, dest, upTo, upTo + BYTES, a, Pack(val), UNMASKED)
  {
    hide Cut, Pack;
    forall k: nat | k < BYTES ensures ByteOf(UNMASKED, k) == FULL && ByteOf(Pack(val), k) == val[k] {
      CutFull(Shift(k));
      ByteOfPack(val, k);
    }
  }

  /** Part of a word, written under a mask. */
  lemma CoversPart(mem: Memory, src: seq<Byte>, dest: nat, upTo: nat, next: nat, a: nat, val: seq<Byte>, mask: seq<Byte>)
    requires a < |mem| && BYTES * a <= upTo <= next <= BYTES * a + BYTES && dest <= upTo && next <= dest + |src|
    requires |val| == |mask| == BYTES
    requires forall k :: 0 <= k < BYTES ==>
      if upTo <= BYTES * a + k < next then mask[k] == FULL && val[k] == src[BYTES * a + k - dest] else mask[k] == 0
    ensures Covers(mem, src, dest, upTo, next, a, Pack(val), Pack(mask))
  {
    hide Cut, Pack, Shift;
    forall k: nat | k < BYTES ensures ByteOf(Pack(mask), k) == mask[k] && ByteOf(Pack(val), k) == val[k] {
      ByteOfPack(val, k);
      ByteOfPack(mask, k);
    }
  }

  const NO_BYTES: seq<Byte> := [0, 0, 0, 0, 0, 0, 0, 0]

  class Transaction {
    const mem: Memory
    var log: Buffer

    constructor (m: Memory)
      ensures mem == m && log == map[]
    {
      mem, log := m, map[];
    }

    method ReadWord(a: nat) returns (val: seq<Byte>)
      requires a < |mem|
      ensures |val| == BYTES
      ensures forall k :: 0 <= k < BYTES ==> BYTES * a + k < BYTES * |mem| && val[k] == Seen(mem, log, BYTES * a + k)
    {
      hide Cut, Through;
      var w := Through(log, a, mem[a]);
      val := [ByteOf(w, 0), ByteOf(w, 1), ByteOf(w, 2), ByteOf(w, 3), ByteOf(w, 4), ByteOf(w, 5), ByteOf(w, 6), ByteOf(w, 7)];
    }

    method WriteWord(a: nat, val: seq<Byte>, mask: seq<Byte>)
      requires a < |mem| && |val| == |mask| == BYTES
      modifies this`log
      ensures log == Insert(old(log), a, Pack(val), Pack(mask))
    {
      log := Insert(log, a, Pack(val), Pack(mask));
    }

    method WriteWholeWord(a: nat, val: seq<Byte>)
      requires a < |mem| && |val| == BYTES
      modifies this`log
      ensures log == Insert(old(log), a, Pack(val), UNMASKED)
    {
      log := Insert(log, a, Pack(val), UNMASKED);
    }

    /** read_region: the bytes from src on, for any alignment. */
    method ReadRegion(src: nat, bytes: nat) returns (dest: seq<Byte>)
      requires 1 <= bytes && src + bytes <= BYTES * |mem|
      ensures |dest| == bytes && forall i :: 0 <= i < bytes ==> dest[i] == Seen(mem, log, src + i)
    {
      hide Seen, ByteOf;
      dest := [];
      var next, start := src / BYTES, src % BYTES;
      var last, end := (src + bytes - 1) / BYTES, (src + bytes - 1) % BYTES;
      if start != 0 || next == last {
        var val := ReadWord(next);
        var count := 0;
        while start < BYTES && count < bytes
          invariant start <= BYTES && count <= bytes && BYTES * next + start == src + count && |dest| == count
          invariant forall i :: 0 <= i < count ==> dest[i] == Seen(mem, log, src + i)
        {
          dest := dest + [val[start]];
          start, count := start + 1, count + 1;
        }
        if next == last {
          return;
        }
        next := next + 1;
      }
      while next < last
        invariant next <= last && src + |dest| == BYTES * next
        invariant forall i :: 0 <= i < |dest| ==> dest[i] == Seen(mem, log, src + i)
      {
        dest := ReadUpTo(src, dest, next, BYTES);
        next := next + 1;
      }
      dest := ReadUpTo(src, dest, next, if end != BYTES - 1 then end + 1 else BYTES);
    }

    /** The first n bytes of word a, which follow those in dest. */
    method ReadUpTo(ghost src: nat, dest: seq<Byte>, a: nat, n: nat) returns (more: seq<Byte>)
      requires a < |mem| && n <= BYTES && src + |dest| == BYTES * a
      requires forall i :: 0 <= i < |dest| ==> src + i < BYTES * |mem| && dest[i] == Seen(mem, log, src + i)
      ensures |more| == |dest| + n
      ensures forall i :: 0 <= i < |more| ==> src + i < BYTES * |mem| && more[i] == Seen(mem, log, src + i)
    {
      hide Seen;
      more := dest;
      var val := ReadWord(a);
      for i := 0 to n
        invariant |more| == |dest| + i
        invariant forall j :: 0 <= j < |more| ==> src + j < BYTES * |mem| && more[j] == Seen(mem, log, src + j)
      {
        more := more + [val[i]];
      }
    }

    /** write_region: bytes dest to dest+|src|-1 become those of src, and no other byte changes. */
    method WriteRegion(src: seq<Byte>, dest: nat)
      requires 1 <= |src| && dest + |src| <= BYTES * |mem|
      modifies this`log
      ensures Replaced(mem, old(log), log, src, dest, dest + |src|)
    {
      hide Seen, ByteOf, Covers, Insert, Pack;
      var next, start := dest / BYTES, dest % BYTES;
      var last, end := (dest + |src| - 1) / BYTES, (dest + |src| - 1) % BYTES;
      ghost var done := dest;
      if start != 0 || next == last {
        done := WriteFirst(src, dest, next, start);
        if next == last {
          return;
        }
        next := next + 1;
      }
      while next < last
        invariant next <= last && done == BYTES * next && dest <= done
        invariant Replaced(mem, old(log), log, src, dest, done)
      {
        WriteWhole(src, dest, next, old(log));
        next, done := next + 1, done + BYTES;
      }
      if end != BYTES - 1 {
        WritePart(src, dest, next, end, old(log));
      } else {
        WriteWhole(src, dest, next, old(log));
      }
    }

    /** The first word, from byte start on. What val holds elsewhere does not matter. */
    method WriteFirst(src: seq<Byte>, dest: nat, a: nat, start: nat) returns (ghost done: nat)
      requires a < |mem| && start < BYTES && dest == BYTES * a + start && dest + |src| <= BYTES * |mem|
      modifies this`log
      ensures done == if start + |src| <= BYTES then dest + |src| else BYTES * a + BYTES
      ensures Replaced(mem, old(log), log, src, dest, done)
    {
      hide Seen, Covers, Insert, Pack;
      var val: seq<Byte> :| |val| == BYTES;
      var mask, i, count := NO_BYTES, start, 0;
      while i < BYTES && count < |src|
        invariant i <= BYTES && count <= |src| && i == start + count && |val| == |mask| == BYTES
        invariant forall k :: 0 <= k < BYTES ==>
          if start <= k < i then mask[k] == FULL && val[k] == src[k - start] else mask[k] == 0
      {
        mask, val := mask[i := FULL], val[i := src[count]];
        i, count := i + 1, count + 1;
      }
      done := dest + count;
      CoversPart(mem, src, dest, dest, done, a, val, mask);
      ReplacedMore(mem, log, log, src, dest, dest, done, a, Pack(val), Pack(mask));
      WriteWord(a, val, mask);
    }

    method WriteWhole(src: seq<Byte>, dest: nat, a: nat, ghost before: Buffer)
      requires a < |mem| && dest <= BYTES * a && BYTES * a + BYTES <= dest + |src|
      requires Replaced(mem, before, log, src, dest, BYTES * a)
      modifies this`log
      ensures Replaced(mem, before, log, src, dest, BYTES * a + BYTES)
    {
      hide Seen, Covers, Insert, Pack, Replaced;
      assert |NO_BYTES| == BYTES;
      var val: seq<Byte> :| |val| == BYTES;
      for i := 0 to BYTES
        invariant |val| == BYTES && forall k :: 0 <= k < i ==> val[k] == src[BYTES * a + k - dest]
      {
        val := val[i := src[BYTES * a + i - dest]];
      }
      CoversWord(mem, src, dest, BYTES * a, a, val);
      ReplacedMore(mem, before, log, src, dest, BYTES * a, BYTES * a + BYTES, a, Pack(val), UNMASKED);
      WriteWholeWord(a, val);
    }

    /** The last word, up to byte end. */
    method WritePart(src: seq<Byte>, dest: nat, a: nat, end: nat, ghost before: Buffer)
      requires a < |mem| && end < BYTES && dest <= BYTES * a && BYTES * a + end + 1 == dest + |src|
      requires Replaced(mem, before, log, src, dest, BYTES * a)
      modifies this`log
      ensures Replaced(mem, before, log, src, dest, dest + |src|)
    {
      hide Seen, Covers, Insert, Pack, Replaced;
      var val: seq<Byte> :| |val| == BYTES;
      var mask := NO_BYTES;
      for i := 0 to end + 1
        invariant |val| == |mask| == BYTES
        invariant forall k :: 0 <= k < BYTES ==>
          if k < i then mask[k] == FULL && val[k] == src[BYTES * a + k - dest] else mask[k] == 0
      {
        mask, val := mask[i := FULL], val[i := src[BYTES * a + i - dest]];
      }
      CoversPart(mem, src, dest, BYTES * a, dest + |src|, a, val, mask);
      ReplacedMore(mem, before, log, src, dest, BYTES * a, dest + |src|, a, Pack(val), Pack(mask));
      WriteWord(a, val, mask);
    }

    /** memmove_tx, overlapping or not. */
    method Memmove(dest: nat, src: nat, n: nat)
      requires 1 <= n && dest + n <= BYTES * |mem| && src + n <= BYTES * |mem|
      modifies this`log
      ensures forall b: nat :: b < BYTES * |mem| ==>
        Seen(mem, log, b) == old(Seen(mem, log, if dest <= b < dest + n then src + b - dest else b))
    {
      hide Seen;
      var buf := ReadRegion(src, n);
      WriteRegion(buf, dest);
    }
  }

  /** Applying the write log to memory at once leaves the bytes the transaction has seen. */
  function Applied(mem: Memory, log: Buffer): (r: Memory)
    ensures |r| == |mem|
  {
    seq(|mem|, a requires 0 <= a < |mem| => Through(log, a, mem[a]))
  }

  lemma AppliedSeen(mem: Memory, log: Buffer, b: nat)
    requires b < BYTES * |mem|
    ensures Seen(Applied(mem, log), map[], b) == Seen(mem, log, b)
  {
  }
}
