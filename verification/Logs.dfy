/** The chunked and the linked log of src/stm/common/log.h: a sequence that grows and shrinks at its end. */
module Logs {
  /** All sequences of ss, one after another. */
  function Flat<T>(ss: seq<seq<T>>): seq<T>
  {
    if ss == [] then [] else Flat(ss[..|ss| - 1]) + ss[|ss| - 1]
  }

  lemma FlatSnoc<T>(ss: seq<seq<T>>, s: seq<T>)
    ensures Flat(ss + [s]) == Flat(ss) + s
  {
    assert (ss + [s])[..|ss|] == ss;
  }

  lemma {:induction false} FlatEmpty<T>(ss: seq<seq<T>>)
    requires forall i :: 0 <= i < |ss| ==> |ss[i]| >= 1
    ensures Flat(ss) == [] <==> ss == []
  {
    if ss != [] { FlatEmpty(ss[..|ss| - 1]); }
  }

  // ---------- CHUNKED_LOG ----------

  class Chunk<T(0)> {
    const elements: array<T>
    var next: Chunk?<T>
    var prev: Chunk?<T>

    constructor (size: nat)
      ensures fresh(elements) && elements.Length == size && next == null && prev == null
    {
      elements := new T[size];
      next, prev := null, null;
    }
  }

  class ChunkedLog<T(0)> {
    const size: nat
    const head: Chunk<T>
    var lastChunk: Chunk<T>
    var nextElement: nat
    // all chunks and what is in them; lastChunk is number used, and those behind it are left from a longer log
    ghost var chunks: seq<Chunk<T>>
    ghost var arrays: seq<array<T>>
    ghost var held: seq<seq<T>>
    ghost var used: nat

    /** The chunks form a chain with head in front. */
    ghost predicate Chained()
      reads `chunks, `arrays, `held, chunks, arrays
    {
      && size >= 1 && |chunks| == |held| == |arrays| >= 1 && chunks[0] == head
      && (forall i :: 0 <= i < |chunks| ==> chunks[i].elements == arrays[i])
      && (forall i :: 0 <= i < |arrays| ==> arrays[i].Length == size)
      && (forall i :: 0 <= i < |arrays| ==> arrays[i][..] == held[i])
      && (forall i, j :: 0 <= i < j < |chunks| ==> chunks[i] != chunks[j] && arrays[i] != arrays[j])
      && (forall i {:trigger chunks[i].next} :: 0 <= i < |chunks| ==> chunks[i].next == if i + 1 < |chunks| then chunks[i + 1] else null)
      && (forall i {:trigger chunks[i].prev} :: 0 < i < |chunks| ==> chunks[i].prev == chunks[i - 1])
    }

    ghost predicate Valid()
      reads this, chunks, arrays
    {
      Chained() && used < |chunks| && lastChunk == chunks[used] && nextElement < size
    }

    ghost function Contents(): seq<T>
      requires Valid()
      reads this, chunks, arrays
    {
      Flat(held[..used]) + held[used][..nextElement]
    }

    constructor (chunkLength: nat)
      requires chunkLength >= 1
      ensures Valid() && Contents() == [] && size == chunkLength && fresh(chunks) && fresh(arrays)
    {
      var c := new Chunk<T>(chunkLength);
      size, head, lastChunk, nextElement := chunkLength, c, c, 0;
      chunks, arrays, held, used := [c], [c.elements], [c.elements[..]], 0;
    }

    method Empty() returns (e: bool)
      requires Valid()
      ensures e <==> Contents() == []
    {
      e := nextElement == 0 && lastChunk == head;
      FlatEmpty(held[..used]);
    }

    /** The slot that nextElement stands for. */
    method Store(x: T)
      requires Valid()
      modifies this`held, lastChunk.elements
      ensures Chained() && held == old(held)[used := old(held[used])[nextElement := x]]
    {
      ghost var a := arrays[used];
      lastChunk.elements[nextElement] := x;
      forall i | 0 <= i < |arrays| && i != used ensures arrays[i][..] == held[i] { assert arrays[i] != a; }
      held := held[used := held[used][nextElement := x]];
      assert a[..] == held[used];
    }

    /** A new chunk at the end of the chain. */
    method Extend()
      requires Chained() && used == |chunks| - 1 && lastChunk == chunks[used]
      modifies this`chunks, this`arrays, this`held, lastChunk
      ensures Chained() && |chunks| == used + 2 && chunks[..used + 1] == old(chunks) && held[..used + 1] == old(held)
      ensures arrays[..used + 1] == old(arrays) && fresh(chunks[used + 1]) && fresh(arrays[used + 1])
    {
      var chunk := new Chunk<T>(size);
      lastChunk.next := chunk;
      chunk.prev := lastChunk;
      chunks, arrays, held := chunks + [chunk], arrays + [chunk.elements], held + [chunk.elements[..]];
    }

    /** A full chunk makes way for the next, which is there already after a clear. */
    method Advance()
      requires Chained() && used < |chunks| && lastChunk == chunks[used] && nextElement == size
      modifies this`chunks, this`arrays, this`held, this`lastChunk, this`nextElement, this`used, lastChunk
      ensures Valid() && nextElement == 0 && used == old(used) + 1 && held[..used] == old(held[..used + 1])
      ensures |old(chunks)| <= |chunks| == |arrays| && fresh(chunks[|old(chunks)|..]) && fresh(arrays[|old(chunks)|..])
    {
      hide Chained;
      Sizes();
      Link(used);
      ghost var h := held[..used + 1];
      if lastChunk.next == null {
        assert h == held;
        Extend();
        Link(used);
      }
      assert held[..used + 1] == h;
      lastChunk := lastChunk.next;
      nextElement := 0;
      used := used + 1;
    }

    /** insert; get_next does the same but leaves the store to its caller. */
    method Insert(x: T)
      requires Valid()
      modifies this, lastChunk, lastChunk.elements
      ensures Valid() && Contents() == old(Contents()) + [x]
      ensures |old(chunks)| <= |chunks| == |arrays| && fresh(chunks[|old(chunks)|..]) && fresh(arrays[|old(chunks)|..])
    {
      hide Chained;
      Sizes();
      ghost var before, row := held[..used], held[used];
      Store(x);
      Sizes();
      assert held[used] == row[nextElement := x] && held[..used] == before;
      nextElement := nextElement + 1;
      assert held[used][..nextElement] == row[..nextElement - 1] + [x];
      if nextElement == size {
        FlatSnoc(before, held[used]);
        assert held[..used + 1] == before + [held[used]];
        Advance();
        Sizes();
      }
    }

    lemma HeadFirst()
      requires Chained()
      ensures chunks[0] == head
      ensures forall i, j :: 0 <= i < j < |chunks| ==> chunks[i] != chunks[j]
    {
    }

    lemma Link(k: nat)
      requires Chained() && k < |chunks|
      ensures |chunks| == |held| == |arrays|
      ensures chunks[k].next == if k + 1 < |chunks| then chunks[k + 1] else null
      ensures k > 0 ==> chunks[k].prev == chunks[k - 1]
      ensures |held[k]| == size && chunks[k].elements.Length == size && chunks[k].elements[..] == held[k]
    {
      assert chunks[k].next == if k + 1 < |chunks| then chunks[k + 1] else null;
      assert chunks[k].elements == arrays[k];
    }

    /** To the last slot of the chunk before. */
    lemma Step()
      requires Valid() && Contents() != [] && nextElement == 0
      ensures size >= 1 && used >= 1 && used < |chunks| == |held| == |arrays| && lastChunk.prev == chunks[used - 1]
      ensures chunks[used - 1].elements.Length == size == |held[used - 1]| && chunks[used - 1].elements[..] == held[used - 1]
      ensures Contents() == Flat(held[..used - 1]) + held[used - 1][..size - 1] + [held[used - 1][size - 1]]
    {
      hide Chained;
      Sizes();
      FlatEmpty(held[..used]);
      Link(used);
      Link(used - 1);
      FlatSnoc(held[..used - 1], held[used - 1]);
      assert held[..used] == held[..used - 1] + [held[used - 1]];
      assert held[used - 1] == held[used - 1][..size - 1] + [held[used - 1][size - 1]];
    }

    lemma Sizes()
      requires Chained()
      ensures size >= 1 && |chunks| == |held| == |arrays| >= 1 && forall i :: 0 <= i < |held| ==> |held[i]| == size
    {
    }

    /** Back by one element, over the start of a chunk if need be. */
    method DeleteLast()
      requires Valid() && Contents() != []
      modifies this`lastChunk, this`nextElement, this`used
      ensures Valid() && Contents() == old(Contents()[..|Contents()| - 1])
    {
      var x := Remove();
    }

    method Remove() returns (x: T)
      requires Valid() && Contents() != []
      modifies this`lastChunk, this`nextElement, this`used
      ensures Valid() && old(Contents()) == Contents() + [x]
    {
      hide Chained;
      Sizes();
      if nextElement == 0 {
        Step();
        nextElement := size - 1;
        lastChunk := lastChunk.prev;
        used := used - 1;
        x := lastChunk.elements[size - 1];
      } else {
        Link(used);
        assert held[used][..nextElement] == held[used][..nextElement - 1] + [held[used][nextElement - 1]];
        nextElement := nextElement - 1;
        x := lastChunk.elements[nextElement];
      }
    }

    method Clear()
      requires Valid()
      modifies this
      ensures Valid() && Contents() == [] && chunks == old(chunks)
    {
      lastChunk := head;
      nextElement := 0;
      used := 0;
    }

    /** begin, and next as long as hasNext: every element once, in order. */
    method Iterate() returns (all: seq<T>)
      requires Valid()
      ensures all == Contents()
    {
      hide Chained;
      Sizes();
      HeadFirst();
      var chunk, element := head, 0;
      ghost var k := 0;
      all := [];
      while !(element == nextElement && chunk == lastChunk)
        invariant k <= used && element < size && chunk == chunks[k] && (k == used ==> element <= nextElement)
        invariant all == Flat(held[..k]) + held[k][..element]
        decreases used - k, size - element
      {
        Link(k);
        assert held[k][..element + 1] == held[k][..element] + [held[k][element]];
        all := all + [chunk.elements[element]];
        element := element + 1;
        if element == size {
          FlatSnoc(held[..k], held[k]);
          assert held[..k + 1] == held[..k] + [held[k]];
          element := 0;
          chunk := chunk.next;
          k := k + 1;
        }
      }
    }
  }

  // ---------- LINKED_LOG ----------

  class Node<T(0)> {
    var data: T
    var next: Node?<T>
    var prev: Node?<T>
  }

  /** Nodes in sequence, linked by next, with null at the end. */
  ghost predicate Forward<T(0)>(ns: seq<Node<T>>)
    reads ns
  {
    forall i {:trigger ns[i].next} :: 0 <= i < |ns| ==> ns[i].next == if i + 1 < |ns| then ns[i + 1] else null
  }

  ghost predicate Backward<T(0)>(ns: seq<Node<T>>)
    reads ns
  {
    forall i {:trigger ns[i].prev} :: 0 <= i < |ns| ==> ns[i].prev == if i > 0 then ns[i - 1] else null
  }

  ghost predicate Distinct<T(0)>(ns: seq<Node<T>>)
  {
    forall i, j :: 0 <= i < j < |ns| ==> ns[i] != ns[j]
  }

  ghost predicate Apart<T(0)>(ns: seq<Node<T>>, ms: seq<Node<T>>)
  {
    forall n :: n in ns ==> n !in ms
  }

  class LinkedLog<T(0)> {
    const growth: nat
    var head: Node?<T>
    var tail: Node?<T>
    var free: Node?<T>
    // the nodes of the log and of the free list
    ghost var live: seq<Node<T>>
    ghost var spare: seq<Node<T>>
    ghost var contents: seq<T>

    ghost predicate Valid()
      reads this, live, spare
    {
      && growth >= 1 && Distinct(live) && Distinct(spare) && Apart(live, spare)
      && Forward(live) && Backward(live) && Forward(spare)
      && |contents| == |live| && (forall i :: 0 <= i < |live| ==> live[i].data == contents[i])
      && head == (if live == [] then null else live[0])
      && tail == (if live == [] then null else live[|live| - 1])
      && free == (if spare == [] then null else spare[0])
    }

    constructor (initial: nat, g: nat)
      requires initial >= 1 && g >= 1
      ensures Valid() && contents == [] && |spare| == initial && fresh(spare)
    {
      growth, head, tail, free := g, null, null, null;
      live, spare, contents := [], [], [];
      new;
      AllocateFree(initial);
    }

    method Empty() returns (e: bool)
      requires Valid()
      ensures e <==> contents == []
    {
      e := tail == null;
    }

    /** A new free list; the old one is used up. */
    method AllocateFree(n: nat)
      requires Valid() && spare == [] && n >= 1
      modifies this`free, this`spare
      ensures Valid() && |spare| == n && fresh(spare)
    {
      var curr := new Node<T>;
      free := curr;
      ghost var nodes := [curr];
      for i := 0 to n - 1
        invariant |nodes| == i + 1 && curr == nodes[i] && free == nodes[0] && fresh(nodes) && Distinct(nodes)
        invariant forall j :: 0 <= j < i ==> nodes[j].next == nodes[j + 1]
        modifies nodes
      {
        var next := new Node<T>;
        curr.next := next;
        curr := next;
        nodes := nodes + [next];
      }
      curr.next := null;
      spare := nodes;
    }

    /** The first free node, with what it held, goes to the end of the log. */
    method TakeFree() returns (node: Node<T>)
      requires Valid() && spare != []
      modifies this, live, spare
      ensures Valid() && live == old(live) + [node] && [node] + spare == old(spare)
      ensures contents == old(contents) + [old(spare[0].data)]
    {
      node := free;
      ghost var ls, rest := live, spare[1..];
      assert node !in ls && node !in rest;
      free := free.next;
      node.prev := tail;
      node.next := null;
      if tail == null {
        head := node;
      } else {
        assert tail in ls && tail !in [node] + rest;
        tail.next := node;
      }
      tail := node;
      live, spare, contents := ls + [node], rest, contents + [node.data];
      assert Forward(spare) by { assert forall i :: 0 <= i < |rest| ==> rest[i] == old(spare)[i + 1]; }
    }

    /** get_next, and the store of insert into the slot it returns. */
    method Insert(x: T)
      requires Valid()
      modifies this, live, spare
      ensures Valid() && contents == old(contents) + [x]
      ensures if old(spare) != [] then live + spare == old(live + spare)
              else |live + spare| == old(|live|) + growth && old(live) <= live && fresh((live + spare)[old(|live|)..])
    {
      if free == null {
        AllocateFree(growth);
      }
      assert live + spare == live + [spare[0]] + spare[1..];
      var node := TakeFree();
      node.data := x;
      contents := contents[|live| - 1 := x];
    }

    /** The last node goes to the front of the free list. */
    method DeleteLast()
      requires Valid() && contents != []
      modifies this, live
      ensures Valid() && contents == old(contents)[..|old(contents)| - 1]
      ensures live == old(live[..|live| - 1]) && spare == [old(live[|live| - 1])] + old(spare)
    {
      var last := tail;
      ghost var n := |live| - 1;
      assert last in live && last !in spare && last !in live[..n];
      tail := last.prev;
      if tail == null {
        head := null;
      } else {
        assert tail == live[n - 1] && tail in live && tail !in spare;
        tail.next := null;
      }
      last.next := free;
      free := last;
      live, spare, contents := live[..n], [last] + spare, contents[..n];
      assert Forward(spare) by { assert forall i :: 0 <= i < |spare| ==> spare[i] == if i == 0 then last else old(spare)[i - 1]; }
    }

    method Remove() returns (x: T)
      requires Valid() && contents != []
      modifies this, live
      ensures Valid() && old(contents) == contents + [x]
      ensures live == old(live[..|live| - 1]) && spare == [old(live[|live| - 1])] + old(spare)
    {
      var last := tail;
      x := last.data;
      DeleteLast();
    }

    /** The whole log goes to the front of the free list at once. */
    method Clear()
      requires Valid()
      modifies this, live
      ensures Valid() && contents == [] && live == [] && spare == old(live) + old(spare)
    {
      ghost var all := live + spare;
      assert Distinct(all) by {
        forall i, j | 0 <= i < j < |all| ensures all[i] != all[j] {
          if i < |live| <= j { assert all[i] in live && all[j] in spare; }
        }
      }
      if tail != null {
        assert tail == all[|live| - 1];
        tail.next := free;
        free := head;
        tail, head := null, null;
      }
      live, spare, contents := [], live + spare, [];
    }

    method Iterate() returns (all: seq<T>)
      requires Valid()
      ensures all == contents
    {
      var current := head;
      all := [];
      while current != null
        invariant |all| <= |live| && all == contents[..|all|]
        invariant current == if |all| < |live| then live[|all|] else null
        decreases |live| - |all|
      {
        all := all + [current.data];
        current := current.next;
      }
    }
  }
}
