/** The red-black tree of src/mubench/rbtree.c: in-place pointer surgery on nodes with parent links. */
module RbTree {
  import opened RbShape
  import opened RbBalance

  class Tree {
    var root: Node?
    ghost var nodes: set<Node>
    ghost var shape: Shape

    /** Memory as the fix-ups see it. */
    ghost function View(): (m: Mem)
      reads `root, `nodes, nodes
      ensures m.cell.Keys == nodes && m.root == root
    {
      Mem(root, map n | n in nodes :: Cell(n.l, n.r, n.p, n.k, n.v, n.c))
    }

    /** A red-black search tree with right parent links. */
    ghost predicate Valid()
      reads this, nodes
    {
      && Sees(View(), Top, shape)
      && RedBlack(shape) && Mourns(shape, null) && Sorted(InOrder(shape))
    }

    /** Keys and values in key order. */
    ghost function Contents(): seq<Pair>
      reads this
    {
      InOrder(shape)
    }

    constructor ()
      ensures Valid() && Contents() == []
    {
      root := null;
      nodes := {};
      shape := Leaf;
    }

    // ---------- loads and stores of one field ----------

    method ParentOf(n: Node?) returns (x: Node?)
      requires n == null || n in nodes
      ensures x == if n == null then null else View().cell[n].p
    {
      x := if n != null then n.p else null;
    }

    method LeftOf(n: Node?) returns (x: Node?)
      requires n == null || n in nodes
      ensures x == if n == null then null else View().cell[n].l
    {
      x := if n != null then n.l else null;
    }

    method RightOf(n: Node?) returns (x: Node?)
      requires n == null || n in nodes
      ensures x == if n == null then null else View().cell[n].r
    {
      x := if n != null then n.r else null;
    }

    method ColorAt(n: Node?) returns (c: Color)
      requires n == null || n in nodes
      ensures c == if n == null then Black else View().cell[n].c
    {
      c := if n != null then n.c else Black;
    }

    method StoreL(n: Node, x: Node?)
      requires n in nodes
      modifies n`l
      ensures View() == SetL(old(View()), n, x)
    {
      n.l := x;
    }

    method StoreR(n: Node, x: Node?)
      requires n in nodes
      modifies n`r
      ensures View() == SetR(old(View()), n, x)
    {
      n.r := x;
    }

    method StoreP(n: Node, x: Node?)
      requires n in nodes
      modifies n`p
      ensures View() == SetP(old(View()), n, x)
    {
      n.p := x;
    }

    method SetColor(n: Node?, c: Color)
      requires n == null || n in nodes
      modifies if n == null then {} else {n}
      ensures View() == if n == null then old(View()) else SetC(old(View()), n, c)
    {
      if n != null {
        n.c := c;
      }
    }

    method StoreKV(n: Node, k: int, v: int)
      requires n in nodes
      modifies n`k, n`v
      ensures View() == SetKV(old(View()), n, k, v)
    {
      n.k, n.v := k, v;
    }

    method StoreRoot(x: Node?)
      modifies this`root
      ensures View() == old(View()).(root := x)
    {
      root := x;
    }

    // ---------- rotations ----------

    method RotateLeft(x: Node)
      requires CanRotateL(View(), x)
      modifies this`root, nodes
      ensures View() == RotatedL(old(View()), x)
    {
      hide View, SetL, SetR, SetP;
      HalfwayOwner(View(), x);
      var r: Node := RightOf(x);
      var rl := LeftOf(r);
      StoreR(x, rl);
      if rl != null {
        StoreP(rl, x);
      }
      var xp := ParentOf(x);
      StoreP(r, xp);
      if xp == null {
        StoreRoot(r);
      } else {
        var xpl := LeftOf(xp);
        if xpl == x {
          StoreL(xp, r);
        } else {
          StoreR(xp, r);
        }
      }
      StoreL(r, x);
      StoreP(x, r);
    }

    method RotateRight(x: Node)
      requires CanRotateR(View(), x)
      modifies this`root, nodes
      ensures View() == RotatedR(old(View()), x)
    {
      hide View, SetL, SetR, SetP;
      HalfwayOwner(View(), x);
      var l: Node := LeftOf(x);
      var lr := RightOf(l);
      StoreL(x, lr);
      if lr != null {
        StoreP(lr, x);
      }
      var xp := ParentOf(x);
      StoreP(l, xp);
      if xp == null {
        StoreRoot(l);
      } else {
        var xpr := RightOf(xp);
        if xpr == x {
          StoreR(xp, l);
        } else {
          StoreL(xp, l);
        }
      }
      StoreR(l, x);
      StoreP(x, l);
    }

    // ---------- fixAfterInsertion ----------

    /** One turn of the loop, when the parent is red and is a left child. */
    method FixInsertLeft(x0: Node, ghost p: Path, ghost t: Shape) returns (x: Node, ghost q: Path, ghost u: Shape)
      requires Sees(View(), p, t) && RedAt(p, t) && t.Fork? && t.n == x0 && RedTop(p) && !p.up.Top? && p.up.InLeft?
      modifies this`root, nodes
      ensures Sees(View(), q, u) && RedAt(q, u) && u.Fork? && u.n == x && x in nodes && Depth(q) < Depth(p)
      ensures Alike(Plug(q, u), Plug(p, t))
    {
      hide View, Sees, RedAt, SetC, RotatedL, RotatedR, CanRotateL, CanRotateR, InOrder, Nodes, Plug, Depth;
      x, q, u := x0, p.up.up, Grand(p, t);
      GrandSees(View(), p, t);
      GrandAround(View(), p, t);
      var xp := ParentOf(x);
      var g := ParentOf(xp);
      var y := RightOf(g);
      var cy := ColorAt(y);
      if cy == Red {
        Recolor(p, t);
        SameContents(q, u, Redden(u.(l := Blacken(u.l), r := Blacken(u.r))));
        PaintLeft(View(), q, u, Black);
        SetColor(xp, Black);
        u := u.(l := Blacken(u.l));
        PaintRight(View(), q, u, Black);
        SetColor(y, Black);
        u := u.(r := Blacken(u.r));
        PaintSees(View(), q, u, Red);
        SetColor(g, Red);
        u := Redden(u);
        x := g;
      } else {
        ghost var p1, t1 := p, t;
        var inner := RightOf(xp);
        if x == inner {
          x := xp;
          TurnLeft(View(), q, u);
          StraightenL(p, t);
          SameContents(q, u, u.(l := TurnL(u.l)));
          RotateLeft(x);
          p1, t1 := InLeft(t.n, t.c, t.k, t.v, t.r, p.up), Fork(p.n, p.c, p.k, p.v, p.l, t.l);
        }
        GrandSees(View(), p1, t1);
        q, u := LiftLeft(x, p1, t1);
      }
    }

    /** A black uncle: recolour and rotate at the grandparent. */
    method LiftLeft(x: Node, ghost p: Path, ghost t: Shape) returns (ghost q: Path, ghost u: Shape)
      requires Sees(View(), p, t) && RedAt(p, t) && t.Fork? && t.n == x && RedTop(p) && p.InLeft? && p.up.InLeft? && !IsRed(p.up.r)
      modifies this`root, nodes
      ensures Sees(View(), q, u) && RedAt(q, u) && u == t && x in nodes && Depth(q) < Depth(p)
      ensures Alike(Plug(q, u), Plug(p, t))
    {
      hide View, Sees, RedAt, SetC, RotatedL, RotatedR, CanRotateL, CanRotateR, InOrder, Nodes, Plug, Depth;
      q, u := p.up.up, Grand(p, t);
      GrandSees(View(), p, t);
      GrandAround(View(), p, t);
      LiftL(p, t);
      SameContents(q, u, TurnR(Redden(u.(l := Blacken(u.l)))));
      var xp := ParentOf(x);
      var g := ParentOf(xp);
      PaintLeft(View(), q, u, Black);
      SetColor(xp, Black);
      u := u.(l := Blacken(u.l));
      PaintSees(View(), q, u, Red);
      SetColor(g, Red);
      u := Redden(u);
      if g != null {
        RotateRSees(View(), q, u);
        RotateRight(g);
        u := TurnR(u);
      }
      Descend(View(), q, u);
      q, u := InLeft(u.n, u.c, u.k, u.v, u.r, q), t;
      Around(View(), q, u);
    }

    /** One turn of the loop, when the parent is red and is a right child. */
    method FixInsertRight(x0: Node, ghost p: Path, ghost t: Shape) returns (x: Node, ghost q: Path, ghost u: Shape)
      requires Sees(View(), p, t) && RedAt(p, t) && t.Fork? && t.n == x0 && RedTop(p) && !p.up.Top? && p.up.InRight?
      modifies this`root, nodes
      ensures Sees(View(), q, u) && RedAt(q, u) && u.Fork? && u.n == x && x in nodes && Depth(q) < Depth(p)
      ensures Alike(Plug(q, u), Plug(p, t))
    {
      hide View, Sees, RedAt, SetC, RotatedL, RotatedR, CanRotateL, CanRotateR, InOrder, Nodes, Plug, Depth;
      x, q, u := x0, p.up.up, Grand(p, t);
      GrandSees(View(), p, t);
      GrandAround(View(), p, t);
      var xp := ParentOf(x);
      var g := ParentOf(xp);
      var y := LeftOf(g);
      var cy := ColorAt(y);
      if cy == Red {
        Recolor(p, t);
        SameContents(q, u, Redden(u.(l := Blacken(u.l), r := Blacken(u.r))));
        PaintRight(View(), q, u, Black);
        SetColor(xp, Black);
        u := u.(r := Blacken(u.r));
        PaintLeft(View(), q, u, Black);
        SetColor(y, Black);
        u := u.(l := Blacken(u.l));
        PaintSees(View(), q, u, Red);
        SetColor(g, Red);
        u := Redden(u);
        x := g;
      } else {
        ghost var p1, t1 := p, t;
        var inner := LeftOf(xp);
        if x == inner {
          x := xp;
          TurnRight(View(), q, u);
          StraightenR(p, t);
          SameContents(q, u, u.(r := TurnR(u.r)));
          RotateRight(x);
          p1, t1 := InRight(t.n, t.c, t.k, t.v, t.l, p.up), Fork(p.n, p.c, p.k, p.v, t.r, p.r);
        }
        GrandSees(View(), p1, t1);
        q, u := LiftRight(x, p1, t1);
      }
    }

    /** A black uncle: recolour and rotate at the grandparent. */
    method LiftRight(x: Node, ghost p: Path, ghost t: Shape) returns (ghost q: Path, ghost u: Shape)
      requires Sees(View(), p, t) && RedAt(p, t) && t.Fork? && t.n == x && RedTop(p) && p.InRight? && p.up.InRight? && !IsRed(p.up.l)
      modifies this`root, nodes
      ensures Sees(View(), q, u) && RedAt(q, u) && u == t && x in nodes && Depth(q) < Depth(p)
      ensures Alike(Plug(q, u), Plug(p, t))
    {
      hide View, Sees, RedAt, SetC, RotatedL, RotatedR, CanRotateL, CanRotateR, InOrder, Nodes, Plug, Depth;
      q, u := p.up.up, Grand(p, t);
      GrandSees(View(), p, t);
      GrandAround(View(), p, t);
      LiftR(p, t);
      SameContents(q, u, TurnL(Redden(u.(r := Blacken(u.r)))));
      var xp := ParentOf(x);
      var g := ParentOf(xp);
      PaintRight(View(), q, u, Black);
      SetColor(xp, Black);
      u := u.(r := Blacken(u.r));
      PaintSees(View(), q, u, Red);
      SetColor(g, Red);
      u := Redden(u);
      if g != null {
        RotateLSees(View(), q, u);
        RotateLeft(g);
        u := TurnL(u);
      }
      Descend(View(), q, u);
      q, u := InRight(u.n, u.c, u.k, u.v, u.l, q), t;
      Around(View(), q, u);
    }

    method FixAfterInsertion(x0: Node, ghost p0: Path, ghost t0: Shape) returns (ghost w: Shape)
      requires Sees(View(), p0, t0) && t0.Fork? && t0.n == x0 && t0.c.Hue? && RedAt(p0, Redden(t0))
      modifies this`root, nodes
      ensures Sees(View(), Top, w) && RedBlack(w) && Mourns(w, null) && Alike(w, Plug(p0, t0))
    {
      hide View, Sees, RedAt, SetC, InOrder, Nodes, Plug, Depth, RedBlack, Mourns;
      var x := x0;
      ghost var p, t := p0, Redden(t0);
      PaintSees(View(), p0, t0, Red);
      Around(View(), p0, t0);
      Repainted(p0, t0);
      SetColor(x, Red);
      while x != root
        invariant Sees(View(), p, t) && RedAt(p, t) && t.Fork? && t.n == x && x in nodes
        invariant Alike(Plug(p, t), Plug(p0, t0))
        decreases Depth(p)
      {
        Around(View(), p, t);
        FocusHas(View(), p, t);
        var xp := ParentOf(x);
        var c := ColorAt(xp);
        if c != Red {
          break;
        }
        GrandThere(p, t);
        GrandAround(View(), p, t);
        var g := ParentOf(xp);
        var gl := LeftOf(g);
        if xp == gl {
          x, p, t := FixInsertLeft(x, p, t);
        } else {
          x, p, t := FixInsertRight(x, p, t);
        }
      }
      FocusHas(View(), p, t);
      w := BlackenRoot(p, t);
    }

    /** The end of fixAfterInsertion. */
    method BlackenRoot(ghost p: Path, ghost t: Shape) returns (ghost w: Shape)
      requires Sees(View(), p, t) && RedAt(p, t) && !RedTop(p)
      modifies this`root, nodes
      ensures Sees(View(), Top, w) && RedBlack(w) && Mourns(w, null) && Alike(w, Plug(p, t))
    {
      hide View, Sees, RedAt, SetC, InOrder, Nodes, Plug, RedBlack, Mourns;
      InsertionEnds(View(), p, t);
      w := Plug(p, t);
      var ro := root;
      var rc := ColorAt(ro);
      if rc != Black {
        PaintSees(View(), Top, w, Black);
        SetColor(ro, Black);
        w := Blacken(w);
      }
    }

    // ---------- lookup and insert ----------

    method KeyAt(n: Node) returns (k: int)
      requires n in nodes
      ensures k == View().cell[n].k
    {
      k := n.k;
    }

    method Lookup(k: int) returns (n: Node?, ghost p: Path, ghost t: Shape)
      requires Valid()
      ensures n == null ==> forall y :: y in Contents() ==> y.0 != k
      ensures n != null ==> n in nodes && t.Fork? && t.n == n && t.k == k && Sees(View(), p, t) && Plug(p, t) == shape
    {
      hide View, Sees, InOrder, Nodes, Sorted, Plug, RedBlack, Mourns, Between;
      ghost var m := View();
      n, p, t := root, Top, shape;
      WholeFocus(m, shape, k);
      while n != null
        invariant Sees(m, p, t) && n == Ref(t) && Plug(p, t) == shape && Between(p, k) && Mourns(t, null)
        decreases t
      {
        Around(m, p, t);
        PlugInOrder(p, t);
        MournsFork(t);
        GoDown(p, t, k);
        Descend(m, p, t);
        var nk := KeyAt(n);
        if k == nk {
          return;
        }
        if k < nk {
          n := LeftOf(n);
          p, t := InLeft(t.n, t.c, t.k, t.v, t.r, p), t.l;
        } else {
          n := RightOf(n);
          p, t := InRight(t.n, t.c, t.k, t.v, t.l, p), t.r;
        }
      }
      NotThere(p, k);
    }

    /** The stores of insert into the new node. */
    method InitNode(n: Node, k: int, v: int, p: Node?)
      requires n in nodes
      modifies n`l, n`r, n`p, n`k, n`v
      ensures n in nodes && var m := old(View()); var c := m.cell[n].c;
              View() == m.(cell := m.cell[n := Cell(null, null, p, k, v, c)])
    {
      n.l := null;
      n.r := null;
      n.k := k;
      n.v := v;
      n.p := p;
    }

    /** n becomes a node of this tree's memory, though not of the tree. */
    ghost method Adopt(n: Node)
      requires n !in nodes
      modifies this`nodes
      ensures nodes == old(nodes) + {n} && OnlyAt(old(View()), View(), n)
    {
      nodes := nodes + {n};
    }

    /** insert, into the empty tree. */
    method InsertRoot(k: int, v: int, n: Node)
      requires Valid() && shape.Leaf? && n !in nodes
      modifies this, nodes, n
      ensures Valid() && nodes == old(nodes) + {n} && Contents() == [(k, v)]
    {
      hide View;
      var m := View();
      Adopt(n);
      InitNode(n, k, v, null);
      SetColor(n, Black);
      StoreRoot(n);
      HangSees(View().(root := null), Top, n, Black, k, v);
      shape := Fork(n, Hue(Black), k, v, Leaf, Leaf);
    }

    /** insert, at an empty place below t. */
    method InsertLeaf(k: int, v: int, n: Node, t: Node, left: bool, ghost p: Path)
      requires Valid() && Sees(View(), p, Leaf) && Plug(p, Leaf) == shape && Between(p, k) && n !in nodes
      requires !p.Top? && p.n == t && (left <==> p.InLeft?)
      modifies this, nodes, n
      ensures Valid() && nodes == old(nodes) + {n}
      ensures forall y :: y in Contents() <==> y in old(Contents()) || y == (k, v)
    {
      hide View, Sees, InOrder, Nodes, Sorted, Plug, RedBlack, Mourns, Between, RedAt, PathNodes;
      SeesNodes(View(), p, Leaf);
      ghost var m := View();
      Adopt(n);
      OutsideSees(m, View(), p, Leaf, n);
      m := View();
      InitNode(n, k, v, t);
      OutsideSees(m, View(), p, Leaf, n);
      ghost var x := Fork(n, Hue(View().cell[n].c), k, v, Leaf, Leaf);
      NewRed(p, n, k, v);
      InsertedContents(p, n, x.c, k, v);
      HangSees(View(), p, n, View().cell[n].c, k, v);
      if left {
        StoreL(t, n);
      } else {
        StoreR(t, n);
      }
      shape := FixAfterInsertion(n, p, x);
    }

    /** insert: null if the key is new, or else the node that has it. */
    method Insert(k: int, v: int, n: Node) returns (r: Node?)
      requires Valid() && n !in nodes
      modifies this, nodes, n
      ensures Valid()
      ensures r != null <==> exists y :: y in old(Contents()) && y.0 == k
      ensures r != null ==> nodes == old(nodes) && shape == old(shape) && View() == old(View())
      ensures r != null ==> r in nodes && View().cell[r].k == k
      ensures r == null ==> nodes == old(nodes) + {n}
      ensures r == null ==> forall y :: y in Contents() <==> y in old(Contents()) || y == (k, v)
    {
      hide View, Sees, InOrder, Nodes, Sorted, Plug, RedBlack, Mourns, Between;
      ghost var p, x := Top, shape;
      var t := root;
      WholeFocus(View(), shape, k);
      if t == null {
        InsertRoot(k, v, n);
        return null;
      }
      while true
        invariant Sees(View(), p, x) && t == Ref(x) && t != null && Plug(p, x) == shape && Between(p, k) && Mourns(x, null)
        invariant View() == old(View()) && nodes == old(nodes) && shape == old(shape)
        decreases x
      {
        Around(View(), p, x);
        PlugInOrder(p, x);
        MournsFork(x);
        GoDown(p, x, k);
        Descend(View(), p, x);
        var tk := KeyAt(t);
        if k == tk {
          Found(p, x);
          return t;
        } else if k < tk {
          var tl := LeftOf(t);
          p, x := InLeft(x.n, x.c, x.k, x.v, x.r, p), x.l;
          if tl != null {
            t := tl;
          } else {
            NotThere(p, k);
            InsertLeaf(k, v, n, t, true, p);
            return null;
          }
        } else {
          var tr := RightOf(t);
          p, x := InRight(x.n, x.c, x.k, x.v, x.l, p), x.r;
          if tr != null {
            t := tr;
          } else {
            NotThere(p, k);
            InsertLeaf(k, v, n, t, false, p);
            return null;
          }
        }
      }
    }

    // ---------- fixAfterDeletion, when x is a left child ----------

    method FixDeleteLeft(x0: Node, ghost p0: Path, ghost t: Shape, ghost n: Node?) returns (x: Node, ghost q: Path, ghost u: Shape)
      requires Sees(View(), p0, t) && ShortAt(p0, t, n) && t.Fork? && t.n == x0 && !IsRed(t) && p0.InLeft?
      modifies this`root, nodes
      ensures Sees(View(), q, u) && ShortAt(q, u, n) && u.Fork? && u.n == x && x in nodes
      ensures Alike(Plug(q, u), Plug(p0, t)) && (IsRed(u) || Depth(q) < Depth(p0))
    {
      hide View, Sees, ShortAt, SetC, RotatedL, RotatedR, CanRotateL, CanRotateR, InOrder, Nodes, Plug, Depth;
      ghost var p := p0;
      FatherAround(View(), p, t);
      SiblingThere(p, t, n);
      var xp := ParentOf(x0);
      var sib: Node := RightOf(xp);
      var sc := ColorAt(sib);
      if sc == Red {
        ghost var f := One(p, t);
        RedSiblingL(p, t, n);
        SameContents(p.up, f, TurnL(Redden(f.(r := Blacken(f.r)))));
        PaintRight(View(), p.up, f, Black);
        SetColor(sib, Black);
        f := f.(r := Blacken(f.r));
        PaintSees(View(), p.up, f, Red);
        SetColor(xp, Red);
        f := Redden(f);
        RotateLSees(View(), p.up, f);
        RotateLeft(xp);
        p := InLeft(p.n, Hue(Red), p.k, p.v, p.r.l, InLeft(p.r.n, Hue(Black), p.r.k, p.r.v, p.r.r, p.up));
        GrandSees(View(), p, t);
        FatherAround(View(), p, t);
        SiblingThere(p, t, n);
        xp := ParentOf(x0);
        sib := RightOf(xp);
      }
      x, q, u := BlackSiblingLeft(x0, sib, p, t, n);
    }

    method BlackSiblingLeft(x0: Node, sib0: Node, ghost p0: Path, ghost t: Shape, ghost n: Node?) returns (x: Node, ghost q: Path, ghost u: Shape)
      requires Sees(View(), p0, t) && ShortAt(p0, t, n) && t.Fork? && t.n == x0 && !IsRed(t) && p0.InLeft?
      requires p0.r.Fork? && p0.r.n == sib0 && !IsRed(p0.r)
      modifies this`root, nodes
      ensures Sees(View(), q, u) && ShortAt(q, u, n) && u.Fork? && u.n == x && x in nodes
      ensures Alike(Plug(q, u), Plug(p0, t))
      ensures q.Top? || (q == p0.up && (IsRed(u) <==> RedTop(p0)))
    {
      hide View, Sees, ShortAt, SetC, RotatedL, RotatedR, CanRotateL, CanRotateR, InOrder, Nodes, Plug, Depth;
      ghost var p := p0;
      var sib := sib0;
      FatherAround(View(), p, t);
      SiblingThere(p, t, n);
      var sn := LeftOf(sib);
      var sf := RightOf(sib);
      var nc := ColorAt(sn);
      var fc := ColorAt(sf);
      if nc == Black && fc == Black {
        BlackNephews(p, t, n);
        q, u := p.up, One(p, t);
        SameContents(q, u, u.(r := Redden(u.r)));
        PaintRight(View(), q, u, Red);
        SetColor(sib, Red);
        u := u.(r := Redden(u.r));
        Around(View(), q, u);
        x := ParentOf(x0);
      } else {
        if fc == Black {
          sib, p := InnerNephewLeft(x0, sn, sib, p, t, n);
        }
        x, q, u := RedNephewLeft(x0, sib, p, t, n);
      }
    }

    method InnerNephewLeft(x0: Node, sn: Node?, sib0: Node, ghost p0: Path, ghost t: Shape, ghost n: Node?) returns (sib: Node, ghost p: Path)
      requires Sees(View(), p0, t) && ShortAt(p0, t, n) && t.Fork? && t.n == x0 && !IsRed(t) && p0.InLeft?
      requires p0.r.Fork? && p0.r.n == sib0 && !IsRed(p0.r) && IsRed(p0.r.l) && !IsRed(p0.r.r) && sn == p0.r.l.n
      modifies this`root, nodes
      ensures p.InLeft? && p.up == p0.up && Sees(View(), p, t) && ShortAt(p, t, n)
      ensures p.r.Fork? && p.r.n == sib && !IsRed(p.r) && IsRed(p.r.r) && Alike(Plug(p, t), Plug(p0, t))
    {
      hide View, Sees, ShortAt, SetC, RotatedL, RotatedR, CanRotateL, CanRotateR, InOrder, Nodes, Plug, Depth;
      p := p0;
      ghost var qs, w := InRight(p.n, p.c, p.k, p.v, t, p.up), p.r;
      FatherAround(View(), p, t);
      InnerNephewL(p, t, n);
      SameContents(qs, w, TurnR(Redden(w.(l := Blacken(w.l)))));
      Descend(View(), p.up, One(p, t));
      PaintLeft(View(), qs, w, Black);
      SetColor(sn, Black);
      w := w.(l := Blacken(w.l));
      PaintSees(View(), qs, w, Red);
      SetColor(sib0, Red);
      w := Redden(w);
      RotateRSees(View(), qs, w);
      RotateRight(sib0);
      p := p.(r := TurnR(w));
      Descend(View(), p.up, One(p, t));
      FatherAround(View(), p, t);
      var xp := ParentOf(x0);
      sib := RightOf(xp);
    }

    method RedNephewLeft(x0: Node, sib: Node, ghost p: Path, ghost t: Shape, ghost n: Node?) returns (x: Node, ghost q: Path, ghost u: Shape)
      requires Sees(View(), p, t) && ShortAt(p, t, n) && t.Fork? && t.n == x0 && !IsRed(t) && p.InLeft?
      requires p.r.Fork? && p.r.n == sib && !IsRed(p.r) && IsRed(p.r.r)
      modifies this`root, nodes
      ensures Sees(View(), q, u) && ShortAt(q, u, n) && u.Fork? && u.n == x && x in nodes && q.Top?
      ensures Alike(Plug(q, u), Plug(p, t))
    {
      hide View, Sees, ShortAt, SetC, RotatedL, RotatedR, CanRotateL, CanRotateR, InOrder, Nodes, Plug, Depth;
      FatherAround(View(), p, t);
      SiblingThere(p, t, n);
      OuterNephewL(p, t, n);
      q, u := p.up, One(p, t);
      SameContents(q, u, TurnL(Blacken(u.(r := u.r.(c := u.c, r := Blacken(u.r.r))))));
      var xp: Node := ParentOf(x0);
      var pc := ColorAt(xp);
      PaintRight(View(), q, u, pc);
      SetColor(sib, pc);
      u := u.(r := u.r.(c := u.c));
      PaintSees(View(), q, u, Black);
      SetColor(xp, Black);
      u := Blacken(u);
      Around(View(), q, u);
      var sf := RightOf(sib);
      PaintOuter(View(), q, u);
      SetColor(sf, Black);
      u := u.(r := u.r.(r := Blacken(u.r.r)));
      RotateLSees(View(), q, u);
      RotateLeft(xp);
      u := TurnL(u);
      SeesWhole(View(), q, u);
      q, u := Top, Plug(q, u);
      WholeFocus(View(), u, 0);
      FocusHas(View(), q, u);
      x := root;
    }

    // ---------- fixAfterDeletion, when x is a right child ----------

    method FixDeleteRight(x0: Node, ghost p0: Path, ghost t: Shape, ghost n: Node?) returns (x: Node, ghost q: Path, ghost u: Shape)
      requires Sees(View(), p0, t) && ShortAt(p0, t, n) && t.Fork? && t.n == x0 && !IsRed(t) && p0.InRight?
      modifies this`root, nodes
      ensures Sees(View(), q, u) && ShortAt(q, u, n) && u.Fork? && u.n == x && x in nodes
      ensures Alike(Plug(q, u), Plug(p0, t)) && (IsRed(u) || Depth(q) < Depth(p0))
    {
      hide View, Sees, ShortAt, SetC, RotatedL, RotatedR, CanRotateL, CanRotateR, InOrder, Nodes, Plug, Depth;
      ghost var p := p0;
      FatherAround(View(), p, t);
      SiblingThere(p, t, n);
      var xp := ParentOf(x0);
      var sib: Node := LeftOf(xp);
      var sc := ColorAt(sib);
      if sc == Red {
        ghost var f := One(p, t);
        RedSiblingR(p, t, n);
        SameContents(p.up, f, TurnR(Redden(f.(l := Blacken(f.l)))));
        PaintLeft(View(), p.up, f, Black);
        SetColor(sib, Black);
        f := f.(l := Blacken(f.l));
        PaintSees(View(), p.up, f, Red);
        SetColor(xp, Red);
        f := Redden(f);
        RotateRSees(View(), p.up, f);
        RotateRight(xp);
        p := InRight(p.n, Hue(Red), p.k, p.v, p.l.r, InRight(p.l.n, Hue(Black), p.l.k, p.l.v, p.l.l, p.up));
        GrandSees(View(), p, t);
        FatherAround(View(), p, t);
        SiblingThere(p, t, n);
        xp := ParentOf(x0);
        sib := LeftOf(xp);
      }
      x, q, u := BlackSiblingRight(x0, sib, p, t, n);
    }

    method BlackSiblingRight(x0: Node, sib0: Node, ghost p0: Path, ghost t: Shape, ghost n: Node?) returns (x: Node, ghost q: Path, ghost u: Shape)
      requires Sees(View(), p0, t) && ShortAt(p0, t, n) && t.Fork? && t.n == x0 && !IsRed(t) && p0.InRight?
      requires p0.l.Fork? && p0.l.n == sib0 && !IsRed(p0.l)
      modifies this`root, nodes
      ensures Sees(View(), q, u) && ShortAt(q, u, n) && u.Fork? && u.n == x && x in nodes
      ensures Alike(Plug(q, u), Plug(p0, t))
      ensures q.Top? || (q == p0.up && (IsRed(u) <==> RedTop(p0)))
    {
      hide View, Sees, ShortAt, SetC, RotatedL, RotatedR, CanRotateL, CanRotateR, InOrder, Nodes, Plug, Depth;
      ghost var p := p0;
      var sib := sib0;
      FatherAround(View(), p, t);
      SiblingThere(p, t, n);
      var sn := RightOf(sib);
      var sf := LeftOf(sib);
      var nc := ColorAt(sn);
      var fc := ColorAt(sf);
      if nc == Black && fc == Black {
        BlackNephews(p, t, n);
        q, u := p.up, One(p, t);
        SameContents(q, u, u.(l := Redden(u.l)));
        PaintLeft(View(), q, u, Red);
        SetColor(sib, Red);
        u := u.(l := Redden(u.l));
        Around(View(), q, u);
        x := ParentOf(x0);
      } else {
        if fc == Black {
          sib, p := InnerNephewRight(x0, sn, sib, p, t, n);
        }
        x, q, u := RedNephewRight(x0, sib, p, t, n);
      }
    }

    method InnerNephewRight(x0: Node, sn: Node?, sib0: Node, ghost p0: Path, ghost t: Shape, ghost n: Node?) returns (sib: Node, ghost p: Path)
      requires Sees(View(), p0, t) && ShortAt(p0, t, n) && t.Fork? && t.n == x0 && !IsRed(t) && p0.InRight?
      requires p0.l.Fork? && p0.l.n == sib0 && !IsRed(p0.l) && IsRed(p0.l.r) && !IsRed(p0.l.l) && sn == p0.l.r.n
      modifies this`root, nodes
      ensures p.InRight? && p.up == p0.up && Sees(View(), p, t) && ShortAt(p, t, n)
      ensures p.l.Fork? && p.l.n == sib && !IsRed(p.l) && IsRed(p.l.l) && Alike(Plug(p, t), Plug(p0, t))
    {
      hide View, Sees, ShortAt, SetC, RotatedL, RotatedR, CanRotateL, CanRotateR, InOrder, Nodes, Plug, Depth;
      p := p0;
      ghost var qs, w := InLeft(p.n, p.c, p.k, p.v, t, p.up), p.l;
      FatherAround(View(), p, t);
      InnerNephewR(p, t, n);
      SameContents(qs, w, TurnL(Redden(w.(r := Blacken(w.r)))));
      Descend(View(), p.up, One(p, t));
      PaintRight(View(), qs, w, Black);
      SetColor(sn, Black);
      w := w.(r := Blacken(w.r));
      PaintSees(View(), qs, w, Red);
      SetColor(sib0, Red);
      w := Redden(w);
      RotateLSees(View(), qs, w);
      RotateLeft(sib0);
      p := p.(l := TurnL(w));
      Descend(View(), p.up, One(p, t));
      FatherAround(View(), p, t);
      var xp := ParentOf(x0);
      sib := LeftOf(xp);
    }

    method RedNephewRight(x0: Node, sib: Node, ghost p: Path, ghost t: Shape, ghost n: Node?) returns (x: Node, ghost q: Path, ghost u: Shape)
      requires Sees(View(), p, t) && ShortAt(p, t, n) && t.Fork? && t.n == x0 && !IsRed(t) && p.InRight?
      requires p.l.Fork? && p.l.n == sib && !IsRed(p.l) && IsRed(p.l.l)
      modifies this`root, nodes
      ensures Sees(View(), q, u) && ShortAt(q, u, n) && u.Fork? && u.n == x && x in nodes && q.Top?
      ensures Alike(Plug(q, u), Plug(p, t))
    {
      hide View, Sees, ShortAt, SetC, RotatedL, RotatedR, CanRotateL, CanRotateR, InOrder, Nodes, Plug, Depth;
      FatherAround(View(), p, t);
      SiblingThere(p, t, n);
      OuterNephewR(p, t, n);
      q, u := p.up, One(p, t);
      SameContents(q, u, TurnR(Blacken(u.(l := u.l.(c := u.c, l := Blacken(u.l.l))))));
      var xp: Node := ParentOf(x0);
      var pc := ColorAt(xp);
      PaintLeft(View(), q, u, pc);
      SetColor(sib, pc);
      u := u.(l := u.l.(c := u.c));
      PaintSees(View(), q, u, Black);
      SetColor(xp, Black);
      u := Blacken(u);
      Around(View(), q, u);
      var sf := LeftOf(sib);
      PaintOuter(View(), q, u);
      SetColor(sf, Black);
      u := u.(l := u.l.(l := Blacken(u.l.l)));
      RotateRSees(View(), q, u);
      RotateRight(xp);
      u := TurnR(u);
      SeesWhole(View(), q, u);
      q, u := Top, Plug(q, u);
      WholeFocus(View(), u, 0);
      FocusHas(View(), q, u);
      x := root;
    }

    // ---------- fixAfterDeletion ----------

    method FixAfterDeletion(x0: Node, ghost p0: Path, ghost t0: Shape, ghost n: Node?) returns (ghost w: Shape)
      requires Sees(View(), p0, t0) && ShortAt(p0, t0, n) && t0.Fork? && t0.n == x0
      modifies this`root, nodes
      ensures Sees(View(), Top, w) && RedBlack(w) && Mourns(w, n) && Alike(w, Plug(p0, t0))
    {
      hide View, Sees, ShortAt, SetC, InOrder, Nodes, Plug, Depth, RedBlack, Mourns;
      var x := x0;
      ghost var p, t := p0, t0;
      FocusHas(View(), p, t);
      var c := ColorAt(x);
      while x != root && c == Black
        invariant Sees(View(), p, t) && ShortAt(p, t, n) && t.Fork? && t.n == x && x in nodes
        invariant c == View().cell[x].c && Alike(Plug(p, t), Plug(p0, t0))
        decreases if IsRed(t) then 0 else 1, Depth(p)
      {
        FocusHas(View(), p, t);
        FatherAround(View(), p, t);
        var xp := ParentOf(x);
        var xpl := LeftOf(xp);
        if x == xpl {
          x, p, t := FixDeleteLeft(x, p, t, n);
        } else {
          x, p, t := FixDeleteRight(x, p, t, n);
        }
        c := ColorAt(x);
      }
      FocusHas(View(), p, t);
      Colored(t.c);
      DeletionEnds(View(), p, t, n);
      if c != Black {
        PaintSees(View(), p, t, Black);
        SetColor(x, Black);
        t := Blacken(t);
      }
      SeesWhole(View(), p, t);
      w := Plug(p, t);
    }

    // ---------- delete_node ----------

    /** The pointer to the hole below pp is replaced by x: in the root, or in the child link that held old. */
    method StoreHole(pp: Node?, old_: Node, x: Node?, ghost p: Path)
      requires pp == Owner(p) && (pp != null ==> pp in nodes)
      requires p.InLeft? ==> View().cell[p.n].l == old_
      requires p.InRight? ==> View().cell[p.n].l != old_
      modifies this`root, nodes
      ensures (p.Top? || p.n in old(View()).cell) && View() == SetHole(old(View()), p, x)
    {
      if pp == null {
        StoreRoot(x);
      } else {
        var l := LeftOf(pp);
        if old_ == l {
          StoreL(pp, x);
        } else {
          StoreR(pp, x);
        }
      }
    }

    method NullLinks(p: Node)
      requires p in nodes
      modifies p`l, p`r, p`p
      ensures OnlyAt(old(View()), View(), p) && View().cell[p].c == old(View().cell[p].c)
    {
      p.l := null;
      p.r := null;
      p.p := null;
    }

    /** delete_node, when p has one child: the child takes its place. */
    method Splice(p: Node, replacement: Node, ghost q: Path, ghost t: Shape, ghost s: Shape) returns (ghost w: Shape)
      requires Sees(View(), q, t) && t.Fork? && t.n == p && s.Fork? && s.n == replacement
      requires (t.l == s && t.r.Leaf?) || (t.r == s && t.l.Leaf?)
      requires RedBlack(Plug(q, t)) && Mourns(Plug(q, t), null)
      modifies this`root, nodes
      ensures Sees(View(), Top, w) && RedBlack(w) && Mourns(w, null) && InOrder(w) == Remains(q, t) && p !in Nodes(w)
    {
      hide View, Sees, ShortAt, SetC, SetP, SetL, SetR, SetHole, InOrder, Nodes, PathNodes, Plug, Depth, RedBlack, Mourns, Before, Behind;
      SpliceSees(View(), q, t, s);
      SpliceContents(q, t, s);
      OneChild(q, t, s);
      NotInHole(View(), q, t);
      SpliceAround(View(), q, t, s);
      var pp := ParentOf(p);
      StoreP(replacement, pp);
      HoleElsewhere(View(), q, replacement);
      StoreHole(pp, p, replacement, q);
      ghost var m := View();
      NullLinks(p);
      OutsideSees(m, View(), q, s, p);
      var c := ColorAt(p);
      if c == Black {
        w := FixAfterDeletion(replacement, q, s, null);
      }
    }

    /** delete_node, when p has no child but a parent: p is its own replacement until it is unlinked. */
    method CutLeaf(p: Node, ghost q0: Path, ghost t0: Shape) returns (ghost w: Shape)
      requires Sees(View(), q0, t0) && t0.Fork? && t0.n == p && t0.l.Leaf? && t0.r.Leaf? && !q0.Top?
      requires RedBlack(Plug(q0, t0)) && Mourns(Plug(q0, t0), null)
      modifies this`root, nodes
      ensures Sees(View(), Top, w) && RedBlack(w) && Mourns(w, null) && InOrder(w) == Remains(q0, t0) && p !in Nodes(w)
    {
      hide View, Sees, ShortAt, SetC, SetP, SetL, SetR, SetHole, InOrder, Nodes, PathNodes, Plug, Depth, RedBlack, Mourns, Before, Behind, Remains;
      ghost var q, t := q0, t0;
      FocusHas(View(), q, t);
      NotInHole(View(), q, t);
      Colored(t.c);
      PlugLaws(q, t);
      LeafContents(q, t);
      MournsFork(t);
      var c := ColorAt(p);
      if c == Black {
        Hued(t.c);
        GoneSees(View(), q, t);
        Phantom(q, t);
        w := FixAfterDeletion(p, q, t.(c := Gone), p);
        PhantomContents(q, t);
        q, t := FindNode(w, p);
        PhantomThere(View(), q0, t0, w, q, t);
      }
      FocusHas(View(), q, t);
      NotInHole(View(), q, t);
      CutLaws(q, t);
      CutSees(View(), q, t);
      w := Plug(q, Leaf);
      SeesWhole(SetHole(View(), q, null), q, Leaf);
      var pp := ParentOf(p);
      if pp != null {
        var ppl := LeftOf(pp);
        if p == ppl {
          StoreHole(pp, p, null, q);
        } else {
          var ppr := RightOf(pp);
          if p == ppr {
            StoreHole(pp, p, null, q);
          }
        }
        ghost var m := View();
        StoreP(p, null);
        OnlyStored(m, p, null);
        DropSees(m, View(), w, p);
      }
    }

    /** delete_node from the replacement on: p has at most one child. */
    method Unlink(p: Node, ghost q: Path, ghost t: Shape) returns (ghost w: Shape)
      requires Sees(View(), q, t) && t.Fork? && t.n == p && (t.l.Leaf? || t.r.Leaf?)
      requires RedBlack(Plug(q, t)) && Mourns(Plug(q, t), null)
      modifies this`root, nodes
      ensures Sees(View(), Top, w) && RedBlack(w) && Mourns(w, null) && InOrder(w) == Remains(q, t) && p !in Nodes(w)
    {
      hide View, Sees, ShortAt, SetC, SetP, SetL, SetR, SetHole, InOrder, Nodes, PathNodes, Plug, Depth, RedBlack, Mourns, Before, Behind, Remains;
      Around(View(), q, t);
      NotInHole(View(), q, t);
      var pl := LeftOf(p);
      var pr := RightOf(p);
      var replacement := if pl != null then pl else pr;
      var pp := ParentOf(p);
      if replacement != null {
        w := Splice(p, replacement, q, t, if t.l.Fork? then t.l else t.r);
      } else if pp == null {
        OnlyNode(View(), q, t);
        StoreRoot(null);
        w := Leaf;
      } else {
        w := CutLeaf(p, q, t);
      }
    }

    // ---------- successor, firstEntry ----------

    /** Down left links to the leftmost node. */
    method DownLeftLinks(n0: Node, ghost p: Path, ghost t: Shape) returns (n: Node)
      requires Sees(View(), p, t) && t.Fork? && t.n == n0
      ensures n == Leftmost(t).n && Sees(View(), LeftmostPath(p, t), Leftmost(t))
    {
      hide View, Sees;
      n := n0;
      ghost var q, u := p, t;
      Around(View(), q, u);
      Descend(View(), q, u);
      var l := LeftOf(n);
      while l != null
        invariant Sees(View(), q, u) && u.Fork? && u.n == n && n in nodes && l == Ref(u.l)
        invariant Leftmost(u) == Leftmost(t) && LeftmostPath(q, u) == LeftmostPath(p, t)
        decreases u
      {
        Descend(View(), q, u);
        n := l;
        q, u := InLeft(u.n, u.c, u.k, u.v, u.r, q), u.l;
        Around(View(), q, u);
        l := LeftOf(n);
      }
    }

    /** successor: the next node in key order, or null. */
    method Successor(t: Node?, ghost p: Path, ghost x: Shape) returns (n: Node?, ghost q: Path, ghost y: Shape)
      requires t != null ==> Sees(View(), p, x) && x.Fork? && x.n == t && Mourns(Plug(p, x), null)
      ensures t == null ==> n == null
      ensures t != null && n == null ==> Rest(p, x) == []
      ensures t != null && n != null ==>
                && n in nodes && y.Fork? && y.n == n && Sees(View(), q, y) && Plug(q, y) == Plug(p, x)
                && Rest(p, x) == [(y.k, y.v)] + Rest(q, y) && Past(q, y) == Past(p, x) + [(x.k, x.v)]
      ensures t != null && x.r.Fork? ==>
                n != null && y == Leftmost(x.r) && q == LeftmostPath(InRight(x.n, x.c, x.k, x.v, x.l, p), x.r)
    {
      hide View, Sees, SetKV, InOrder, Nodes, PathNodes, Plug, Mourns, Before, Behind, Leftmost, LeftmostPath;
      q, y := p, x;
      if t == null {
        return null, q, y;
      }
      Around(View(), p, x);
      Descend(View(), p, x);
      PlugMourns(p, x, null);
      MournsFork(x);
      var r := RightOf(t);
      if r != null {
        q := InRight(x.n, x.c, x.k, x.v, x.l, p);
        MournsFork(x.r);
        LeftmostFacts(View(), q, x.r);
        RightParts(p, x);
        n := DownLeftLinks(r, q, x.r);
        q, y := LeftmostPath(q, x.r), Leftmost(x.r);
        LeafPast(q, y);
        Around(View(), q, y);
      } else {
        n := ParentOf(t);
        var ch: Node := t;
        NoRight(p, x);
        FocusHas(View(), q, y);
        var right: Node?;
        while n != null
          invariant Sees(View(), q, y) && y.Fork? && y.n == ch && ch in nodes && n == Owner(q) && Has(View(), n)
          invariant Plug(q, y) == Plug(p, x) && PathMourns(q, null)
          invariant Behind(q) == Rest(p, x) && Before(q) + InOrder(y) == Past(p, x) + [(x.k, x.v)]
          decreases q
        {
          FatherAround(View(), q, y);
          right := RightOf(n);
          PathHued(q);
          if ch != right {
            ClimbLeft(q, y);
            q, y := q.up, One(q, y);
            return n, q, y;
          }
          ClimbRight(q, y);
          ch := n;
          q, y := q.up, One(q, y);
          FocusHas(View(), q, y);
          n := ParentOf(n);
        }
        NoneBehind(q);
      }
    }

    method ValueAt(n: Node) returns (v: int)
      requires n in nodes
      ensures v == View().cell[n].v
    {
      v := n.v;
    }

    /** delete_node, first part: a node with two children takes over the pair of its successor, which
        is then the one to unlink. */
    method TakeOver(p0: Node, ghost q0: Path, ghost t0: Shape) returns (p: Node, ghost q: Path, ghost t: Shape)
      requires Valid() && Sees(View(), q0, t0) && t0.Fork? && t0.n == p0 && Plug(q0, t0) == shape && t0.l.Fork? && t0.r.Fork?
      modifies nodes
      ensures Sees(View(), q, t) && t.Fork? && t.n == p && p in nodes && t.l.Leaf?
      ensures RedBlack(Plug(q, t)) && Mourns(Plug(q, t), null) && Sorted(Remains(q, t))
      ensures forall y :: y in Remains(q, t) <==> y in InOrder(shape) && y.0 != t0.k
    {
      hide View, Sees, SetKV, InOrder, Nodes, PathNodes, Plug, Mourns, RedBlack, Sorted, Before, Behind, Remains, Leftmost, LeftmostPath;
      PlugMourns(q0, t0, null);
      MournsFork(t0);
      ghost var down := InRight(t0.n, t0.c, t0.k, t0.v, t0.l, q0);
      p, q, t := Successor(p0, q0, t0);
      LeftmostFacts(View(), down, t0.r);
      MournsFork(t);
      Around(View(), q, t);
      var k := KeyAt(p);
      var v := ValueAt(p);
      KeySees(View(), q0, t0, k, v);
      RekeyLaws(q0, t0, k, v);
      StoreKV(p0, k, v);
      ghost var t1 := t0.(k := k, v := v);
      Descend(View(), q0, t1);
      RightParts(q0, t1);
      ghost var down1 := InRight(t1.n, t1.c, t1.k, t1.v, t1.l, q0);
      LeftmostFacts(View(), down1, t1.r);
      q := LeftmostPath(down1, t1.r);
      CopiedContents(q0, t0, k, v, q, t);
    }

    /** n is no longer a node of this tree's memory. */
    ghost method Forget(n: Node)
      modifies this`nodes
      ensures nodes == old(nodes) - {n} && View().root == old(View()).root
      ensures forall x :: x in old(View()).cell && x != n ==> x in View().cell && View().cell[x] == old(View()).cell[x]
    {
      nodes := nodes - {n};
    }

    /** delete_node: removes the pair of p; the node that is unlinked is returned. */
    method DeleteNode(p0: Node, ghost q0: Path, ghost t0: Shape) returns (p: Node)
      requires Valid() && Sees(View(), q0, t0) && t0.Fork? && t0.n == p0 && Plug(q0, t0) == shape
      modifies this, nodes
      ensures Valid() && p in old(nodes) && nodes == old(nodes) - {p}
      ensures forall y :: y in Contents() <==> y in old(Contents()) && y.0 != t0.k
    {
      hide View, Sees, SetKV, InOrder, Nodes, PathNodes, Plug, Mourns, RedBlack, Sorted, Before, Behind, Remains, Leftmost, LeftmostPath;
      p := p0;
      ghost var q, t := q0, t0;
      Around(View(), q, t);
      PlugMourns(q, t, null);
      MournsFork(t);
      var pl := LeftOf(p);
      var pr := RightOf(p);
      if pl != null && pr != null {
        p, q, t := TakeOver(p, q, t);
      } else {
        RemovedContents(q, t);
      }
      ghost var w := Unlink(p, q, t);
      ghost var m := View();
      Forget(p);
      shape := w;
      DropSees(m, View(), w, p);
    }

    // ---------- the map operations ----------

    /** rbtree_insert: true if the key was there already, in which case nothing changes. */
    method InsertKey(k: int, v: int) returns (there: bool)
      requires Valid()
      modifies this, nodes
      ensures Valid() && fresh(nodes - old(nodes))
      ensures there <==> exists y :: y in old(Contents()) && y.0 == k
      ensures there ==> Contents() == old(Contents())
      ensures !there ==> forall y :: y in Contents() <==> y in old(Contents()) || y == (k, v)
    {
      hide View, Sees, RedBlack, Mourns, Sorted;
      var n := new Node();
      var ex := Insert(k, v, n);
      there := ex != null;
    }

    /** rbtree_delete: true if the key was there; its pair is removed. */
    method DeleteKey(k: int) returns (there: bool)
      requires Valid()
      modifies this, nodes
      ensures Valid() && nodes <= old(nodes)
      ensures there <==> exists y :: y in old(Contents()) && y.0 == k
      ensures forall y :: y in Contents() <==> y in old(Contents()) && y.0 != k
    {
      hide View, Sees, RedBlack, Mourns, Sorted, InOrder;
      var n: Node?;
      ghost var p, t;
      n, p, t := Lookup(k);
      if n != null {
        MournsHere(p, t);
        Found(p, t);
        n := DeleteNode(n, p, t);
      }
      there := n != null;
    }

    /** rbtree_get: the value, or 0 if there is none. */
    method Get(k: int) returns (v: int)
      requires Valid()
      ensures (k, v) in Contents() || (v == 0 && forall y :: y in Contents() ==> y.0 != k)
    {
      hide View, Sees, RedBlack, Mourns, Sorted, InOrder;
      var n: Node?;
      ghost var p, t;
      n, p, t := Lookup(k);
      if n != null {
        MournsHere(p, t);
        Found(p, t);
        Around(View(), p, t);
        v := ValueAt(n);
        return;
      }
      v := 0;
    }

    lemma MournsHere(p: Path, t: Shape)
      requires Valid() && Plug(p, t) == shape && t.Fork?
      ensures t.c.Hue?
    {
      hide Sees, View;
      PlugMourns(p, t, null);
      MournsFork(t);
    }

    // ---------- in-order iteration and verification ----------

    /** firstEntry: the node of the least key. */
    method FirstEntry() returns (n: Node?, ghost p: Path, ghost t: Shape)
      requires Valid()
      ensures n == null <==> Contents() == []
      ensures n != null ==> n in nodes && t.Fork? && t.n == n && Sees(View(), p, t) && Plug(p, t) == shape
      ensures n != null ==> Contents() == [(t.k, t.v)] + Rest(p, t)
    {
      hide View, Sees, RedBlack, Sorted, Mourns, Leftmost, LeftmostPath;
      n, p, t := root, Top, shape;
      WholeFocus(View(), shape, 0);
      if n != null {
        MournsFork(t);
        LeftmostFacts(View(), p, t);
        n := DownLeftLinks(n, p, t);
        p, t := LeftmostPath(p, t), Leftmost(t);
        Around(View(), p, t);
        NoneBehind(Top);
        assert InOrder(shape) + [] == InOrder(shape);
      }
    }

    /** The loop of rbtree_verify: every pair once, in increasing order of keys, until there is no
        successor; ok says that no two neighbours were out of order. */
    method Visit() returns (ctr: nat, ok: bool, ghost visited: seq<Pair>)
      requires Valid()
      ensures visited == Contents() && ctr == |Contents()| && ok
    {
      hide View, Sees, RedBlack, Mourns, Plug;
      ctr, ok, visited := 0, true, [];
      var its: Node?;
      ghost var p, t;
      its, p, t := FirstEntry();
      while its != null
        invariant its != null ==> its in nodes && t.Fork? && t.n == its && Sees(View(), p, t) && Plug(p, t) == shape
        invariant Contents() == if its != null then visited + [(t.k, t.v)] + Rest(p, t) else visited
        invariant ctr == |visited|
        decreases if its != null then 1 + |Rest(p, t)| else 0
      {
        ctr := ctr + 1;
        Around(View(), p, t);
        var nxt: Node?;
        ghost var q, u;
        nxt, q, u := Successor(its, p, t);
        visited := visited + [(t.k, t.v)];
        if nxt == null {
          break;
        }
        Around(View(), q, u);
        assert Contents() == visited + [(u.k, u.v)] + Rest(q, u);
        var k := KeyAt(its);
        var k' := KeyAt(nxt);
        assert Contents()[|visited| - 1] == (t.k, t.v) && Contents()[|visited|] == (u.k, u.v);
        if k >= k' {
          ok := false;
          return;
        }
        its, p, t := nxt, q, u;
      }
    }

    /** verifyRedBlack, on a red-black tree: its black height, the null leaf counted as 1. */
    method VerifyRedBlack(n: Node?, ghost p: Path, ghost t: Shape) returns (h: int)
      requires Sees(View(), p, t) && n == Ref(t) && Bal(t) && NoRedRed(t) && Mourns(t, null)
      ensures h == Height(t) && h >= 1
      decreases t
    {
      hide View, Sees;
      HeightPos(t);
      if n == null {
        return 1;
      }
      Laws(t, null);
      Around(View(), p, t);
      Descend(View(), p, t);
      Colored(t.c);
      var l := LeftOf(n);
      var r := RightOf(n);
      var hl := VerifyRedBlack(l, InLeft(t.n, t.c, t.k, t.v, t.r, p), t.l);
      var hr := VerifyRedBlack(r, InRight(t.n, t.c, t.k, t.v, t.l, p), t.r);
      if hl == 0 || hr == 0 {
        return 0;
      }
      var c := ColorAt(n);
      if c == Red {
        var lc := ColorAt(l);
        var rc := ColorAt(r);
        if t.l.Fork? { Colored(t.l.c); }
        if t.r.Fork? { Colored(t.r.c); }
        if l != null && lc != Black {
          return 0;
        }
        if r != null && rc != Black {
          return 0;
        }
        return hl;
      }
      return hl + 1;
    }
  }
}
