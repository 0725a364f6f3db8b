/** Red-black trees with parent pointers (src/mubench/rbtree.c): nodes, memory, and the trees they form. */
module RbShape {
  datatype Color = Red | Black

  class Node {
    var l: Node?
    var r: Node?
    var p: Node?
    var k: int
    var v: int
    var c: Color

    constructor ()
    {
    }
  }

  // ---------- memory ----------

  datatype Cell = Cell(l: Node?, r: Node?, p: Node?, k: int, v: int, c: Color)

  /** The root pointer and the fields of all nodes. */
  datatype Mem = Mem(root: Node?, cell: map<Node, Cell>)

  ghost function SetL(m: Mem, n: Node, x: Node?): Mem
    requires n in m.cell
  {
    m.(cell := m.cell[n := m.cell[n].(l := x)])
  }

  ghost function SetR(m: Mem, n: Node, x: Node?): Mem
    requires n in m.cell
  {
    m.(cell := m.cell[n := m.cell[n].(r := x)])
  }

  ghost function SetP(m: Mem, n: Node, x: Node?): Mem
    requires n in m.cell
  {
    m.(cell := m.cell[n := m.cell[n].(p := x)])
  }

  ghost function SetC(m: Mem, n: Node, c: Color): Mem
    requires n in m.cell
  {
    m.(cell := m.cell[n := m.cell[n].(c := c)])
  }

  ghost function SetKV(m: Mem, n: Node, k: int, v: int): Mem
    requires n in m.cell
  {
    m.(cell := m.cell[n := m.cell[n].(k := k, v := v)])
  }

  // ---------- trees ----------

  /** A node that delete_node is about to unlink is Gone: its colour field is still BLACK, but it
      counts for nothing. */
  datatype Paint = Hue(color: Color) | Gone

  datatype Shape = Leaf | Fork(n: Node, c: Paint, k: int, v: int, l: Shape, r: Shape)

  /** A tree with a hole: the way from the hole up to the root. */
  datatype Path =
    | Top
    | InLeft(n: Node, c: Paint, k: int, v: int, r: Shape, up: Path)
    | InRight(n: Node, c: Paint, k: int, v: int, l: Shape, up: Path)

  ghost function Plug(p: Path, t: Shape): Shape
    decreases p
  {
    match p
    case Top => t
    case InLeft(n, c, k, v, r, up) => Plug(up, Fork(n, c, k, v, t, r))
    case InRight(n, c, k, v, l, up) => Plug(up, Fork(n, c, k, v, l, t))
  }

  ghost function Ref(t: Shape): Node?
  {
    match t
    case Leaf => null
    case Fork(n, _, _, _, _, _) => n
  }

  ghost function Owner(p: Path): Node?
  {
    match p
    case Top => null
    case InLeft(n, _, _, _, _, _) => n
    case InRight(n, _, _, _, _, _) => n
  }

  ghost function ColorOf(c: Paint): Color
  {
    match c
    case Hue(color) => color
    case Gone => Black
  }

  ghost function Nodes(t: Shape): set<Node>
  {
    match t
    case Leaf => {}
    case Fork(n, _, _, _, l, r) => {n} + Nodes(l) + Nodes(r)
  }

  ghost function PathNodes(p: Path): set<Node>
  {
    match p
    case Top => {}
    case InLeft(n, _, _, _, r, up) => {n} + Nodes(r) + PathNodes(up)
    case InRight(n, _, _, _, l, up) => {n} + Nodes(l) + PathNodes(up)
  }

  /** No node occurs twice. */
  ghost predicate Tidy(t: Shape)
  {
    match t
    case Leaf => true
    case Fork(n, _, _, _, l, r) =>
      n !in Nodes(l) && n !in Nodes(r) && Nodes(l) !! Nodes(r) && Tidy(l) && Tidy(r)
  }

  ghost predicate PathTidy(p: Path)
  {
    match p
    case Top => true
    case InLeft(n, _, _, _, r, up) =>
      n !in Nodes(r) && n !in PathNodes(up) && Nodes(r) !! PathNodes(up) && Tidy(r) && PathTidy(up)
    case InRight(n, _, _, _, l, up) =>
      n !in Nodes(l) && n !in PathNodes(up) && Nodes(l) !! PathNodes(up) && Tidy(l) && PathTidy(up)
  }

  // ---------- memory holds a tree ----------

  /** The fields of node n, with parent p and children l and r. */
  ghost predicate Holds(m: Mem, n: Node, c: Paint, k: int, v: int, p: Node?, l: Node?, r: Node?)
  {
    n in m.cell && m.cell[n] == Cell(l, r, p, k, v, ColorOf(c))
  }

  /** Below parent p, memory holds the tree t; all parent links are right. */
  ghost predicate Linked(m: Mem, t: Shape, p: Node?)
  {
    match t
    case Leaf => true
    case Fork(n, c, k, v, l, r) =>
      Holds(m, n, c, k, v, p, Ref(l), Ref(r)) && Linked(m, l, n) && Linked(m, r, n)
  }

  /** Memory holds the rest of the tree, and the hole points to x. */
  ghost predicate PathLinked(m: Mem, p: Path, x: Node?)
  {
    match p
    case Top => m.root == x
    case InLeft(n, c, k, v, r, up) =>
      Holds(m, n, c, k, v, Owner(up), x, Ref(r)) && Linked(m, r, n) && PathLinked(m, up, n)
    case InRight(n, c, k, v, l, up) =>
      Holds(m, n, c, k, v, Owner(up), Ref(l), x) && Linked(m, l, n) && PathLinked(m, up, n)
  }

  /** Memory holds the tree t in the context p. */
  ghost predicate Sees(m: Mem, p: Path, t: Shape)
  {
    && Linked(m, t, Owner(p)) && PathLinked(m, p, Ref(t))
    && Tidy(t) && PathTidy(p) && Nodes(t) !! PathNodes(p)
  }

  // ---------- moving the focus ----------

  lemma DownLeft(m: Mem, p: Path, t: Shape)
    requires t.Fork?
    ensures Sees(m, p, t) <==> Sees(m, InLeft(t.n, t.c, t.k, t.v, t.r, p), t.l)
  {
  }

  lemma DownRight(m: Mem, p: Path, t: Shape)
    requires t.Fork?
    ensures Sees(m, p, t) <==> Sees(m, InRight(t.n, t.c, t.k, t.v, t.l, p), t.r)
  {
  }

  lemma {:induction false} SeesWhole(m: Mem, p: Path, t: Shape)
    ensures Sees(m, p, t) <==> Sees(m, Top, Plug(p, t))
    decreases p
  {
    hide Sees;
    match p
    case Top =>
    case InLeft(n, c, k, v, r, up) =>
      DownLeft(m, up, Fork(n, c, k, v, t, r));
      SeesWhole(m, up, Fork(n, c, k, v, t, r));
    case InRight(n, c, k, v, l, up) =>
      DownRight(m, up, Fork(n, c, k, v, l, t));
      SeesWhole(m, up, Fork(n, c, k, v, l, t));
  }

  // ---------- what a store leaves alone ----------

  ghost predicate SameOn(m: Mem, m': Mem, s: set<Node>)
  {
    forall n :: n in s && n in m.cell ==> n in m'.cell && m'.cell[n] == m.cell[n]
  }

  lemma {:induction false} LinkedFrame(m: Mem, m': Mem, t: Shape, p: Node?)
    requires Linked(m, t, p) && SameOn(m, m', Nodes(t))
    ensures Linked(m', t, p)
  {
    match t
    case Leaf =>
    case Fork(n, c, k, v, l, r) =>
      LinkedFrame(m, m', l, n);
      LinkedFrame(m, m', r, n);
  }

  lemma {:induction false} PathFrame(m: Mem, m': Mem, p: Path, x: Node?)
    requires PathLinked(m, p, x) && SameOn(m, m', PathNodes(p)) && m'.root == m.root
    ensures PathLinked(m', p, x)
  {
    match p
    case Top =>
    case InLeft(n, c, k, v, r, up) =>
      LinkedFrame(m, m', r, n);
      PathFrame(m, m', up, n);
    case InRight(n, c, k, v, l, up) =>
      LinkedFrame(m, m', l, n);
      PathFrame(m, m', up, n);
  }

  /** A subtree is hung below another parent. */
  lemma Reparent(m: Mem, m': Mem, t: Shape, p: Node?, q: Node?)
    requires Linked(m, t, p) && Tidy(t) && SameOn(m, m', Nodes(t) - (if t.Leaf? then {} else {t.n}))
    requires t.Fork? ==> t.n in m.cell && t.n in m'.cell && m'.cell[t.n] == m.cell[t.n].(p := q)
    ensures Linked(m', t, q)
  {
    match t
    case Leaf =>
    case Fork(n, c, k, v, l, r) =>
      LinkedFrame(m, m', l, n);
      LinkedFrame(m, m', r, n);
  }

  /** The pointer at the hole, in the parent's child link or in the root: replaced by x. */
  ghost function SetHole(m: Mem, p: Path, x: Node?): Mem
    requires p.Top? || p.n in m.cell
  {
    match p
    case Top => m.(root := x)
    case InLeft(n, _, _, _, _, _) => SetL(m, n, x)
    case InRight(n, _, _, _, _, _) => SetR(m, n, x)
  }

  lemma HoleSet(m: Mem, p: Path, x: Node?, y: Node?)
    requires PathLinked(m, p, x) && PathTidy(p)
    ensures PathLinked(SetHole(m, p, y), p, y)
  {
    var m' := SetHole(m, p, y);
    match p
    case Top =>
    case InLeft(n, c, k, v, r, up) =>
      LinkedFrame(m, m', r, n);
      PathFrame(m, m', up, n);
    case InRight(n, c, k, v, l, up) =>
      LinkedFrame(m, m', l, n);
      PathFrame(m, m', up, n);
  }

  // ---------- rotations ----------

  ghost predicate Has(m: Mem, n: Node?)
  {
    n == null || n in m.cell
  }

  /** Node x, its right child, and the nodes around them are there. */
  ghost predicate CanRotateL(m: Mem, x: Node)
  {
    && x in m.cell && Has(m, m.cell[x].p)
    && var r := m.cell[x].r;
    && r != null && r in m.cell && Has(m, m.cell[r].l)
  }

  ghost predicate CanRotateR(m: Mem, x: Node)
  {
    && x in m.cell && Has(m, m.cell[x].p)
    && var l := m.cell[x].l;
    && l != null && l in m.cell && Has(m, m.cell[l].r)
  }

  /** The stores of rotateLeft. */
  ghost function RotatedL(m: Mem, x: Node): Mem
    requires CanRotateL(m, x)
  {
    var r: Node := m.cell[x].r;
    var rl := m.cell[r].l;
    var m1 := SetR(m, x, rl);
    var m2 := if rl != null then SetP(m1, rl, x) else m1;
    var xp := m2.cell[x].p;
    var m3 := SetP(m2, r, xp);
    var m4 := if xp == null then m3.(root := r) else if m3.cell[xp].l == x then SetL(m3, xp, r) else SetR(m3, xp, r);
    SetP(SetL(m4, r, x), x, r)
  }

  ghost function RotatedR(m: Mem, x: Node): Mem
    requires CanRotateR(m, x)
  {
    var l: Node := m.cell[x].l;
    var lr := m.cell[l].r;
    var m1 := SetL(m, x, lr);
    var m2 := if lr != null then SetP(m1, lr, x) else m1;
    var xp := m2.cell[x].p;
    var m3 := SetP(m2, l, xp);
    var m4 := if xp == null then m3.(root := l) else if m3.cell[xp].r == x then SetR(m3, xp, l) else SetL(m3, xp, l);
    SetP(SetR(m4, l, x), x, l)
  }

  /** The parent that rotateLeft loads halfway. */
  lemma HalfwayOwner(m: Mem, x: Node)
    ensures CanRotateL(m, x) ==>
              var rl := m.cell[m.cell[x].r].l;
              var m1 := SetR(m, x, rl);
              Has(m, (if rl != null then SetP(m1, rl, x) else m1).cell[x].p)
    ensures CanRotateR(m, x) ==>
              var lr := m.cell[m.cell[x].l].r;
              var m1 := SetL(m, x, lr);
              Has(m, (if lr != null then SetP(m1, lr, x) else m1).cell[x].p)
  {
  }

  ghost function TurnL(t: Shape): Shape
    requires t.Fork? && t.r.Fork?
  {
    Fork(t.r.n, t.r.c, t.r.k, t.r.v, Fork(t.n, t.c, t.k, t.v, t.l, t.r.l), t.r.r)
  }

  ghost function TurnR(t: Shape): Shape
    requires t.Fork? && t.l.Fork?
  {
    Fork(t.l.n, t.l.c, t.l.k, t.l.v, t.l.l, Fork(t.n, t.c, t.k, t.v, t.l.r, t.r))
  }

  lemma RefNodes(t: Shape)
    ensures Ref(t) != null ==> Ref(t) in Nodes(t)
  {
  }

  lemma {:induction false} LinkedHas(m: Mem, t: Shape, p: Node?)
    requires Linked(m, t, p)
    ensures Has(m, Ref(t)) && forall n :: n in Nodes(t) ==> n in m.cell
  {
    if t.Fork? {
      LinkedHas(m, t.l, t.n);
      LinkedHas(m, t.r, t.n);
    }
  }

  lemma OwnerHas(m: Mem, p: Path, x: Node?)
    requires PathLinked(m, p, x)
    ensures Has(m, Owner(p)) && (!p.Top? ==> p.n in PathNodes(p))
    ensures p.InLeft? ==> m.cell[p.n].l == x && (m.cell[p.n].r != null ==> m.cell[p.n].r in PathNodes(p))
    ensures p.InRight? ==> m.cell[p.n].r == x && (m.cell[p.n].l != null ==> m.cell[p.n].l in PathNodes(p))
  {
    if p.InLeft? { RefNodes(p.r); }
    if p.InRight? { RefNodes(p.l); }
  }

  /** A fork and its right child, with everything around them. */
  lemma TwoForks(m: Mem, p: Path, t: Shape)
    requires Sees(m, p, t) && t.Fork? && t.r.Fork?
    ensures Holds(m, t.n, t.c, t.k, t.v, Owner(p), Ref(t.l), t.r.n) && PathLinked(m, p, t.n) && PathTidy(p)
    ensures Holds(m, t.r.n, t.r.c, t.r.k, t.r.v, t.n, Ref(t.r.l), Ref(t.r.r))
    ensures Linked(m, t.l, t.n) && Linked(m, t.r.l, t.r.n) && Linked(m, t.r.r, t.r.n)
    ensures Tidy(t.l) && Tidy(t.r.l) && Tidy(t.r.r) && t.n != t.r.n
    ensures {t.n, t.r.n} !! Nodes(t.l) + Nodes(t.r.l) + Nodes(t.r.r) + PathNodes(p)
    ensures Nodes(t.l) !! Nodes(t.r.l) !! Nodes(t.r.r) !! PathNodes(p)
  {
    DownRight(m, p, t);
    assert Linked(m, t.r, t.n) && Tidy(t.r);
    assert Nodes(t) == {t.n} + Nodes(t.l) + Nodes(t.r);
    assert Nodes(t.r) == {t.r.n} + Nodes(t.r.l) + Nodes(t.r.r);
  }

  lemma TwoForksR(m: Mem, p: Path, t: Shape)
    requires Sees(m, p, t) && t.Fork? && t.l.Fork?
    ensures Holds(m, t.n, t.c, t.k, t.v, Owner(p), t.l.n, Ref(t.r)) && PathLinked(m, p, t.n) && PathTidy(p)
    ensures Holds(m, t.l.n, t.l.c, t.l.k, t.l.v, t.n, Ref(t.l.l), Ref(t.l.r))
    ensures Linked(m, t.r, t.n) && Linked(m, t.l.l, t.l.n) && Linked(m, t.l.r, t.l.n)
    ensures Tidy(t.r) && Tidy(t.l.l) && Tidy(t.l.r) && t.n != t.l.n
    ensures {t.n, t.l.n} !! Nodes(t.r) + Nodes(t.l.l) + Nodes(t.l.r) + PathNodes(p)
    ensures Nodes(t.r) !! Nodes(t.l.l) !! Nodes(t.l.r) !! PathNodes(p)
  {
    DownLeft(m, p, t);
    assert Linked(m, t.l, t.n) && Tidy(t.l);
    assert Nodes(t) == {t.n} + Nodes(t.l) + Nodes(t.r);
    assert Nodes(t.l) == {t.l.n} + Nodes(t.l.l) + Nodes(t.l.r);
  }

  lemma TurnedTidy(p: Path, t: Shape)
    requires t.Fork? && t.r.Fork? && Tidy(t.l) && Tidy(t.r.l) && Tidy(t.r.r) && t.n != t.r.n
    requires {t.n, t.r.n} !! Nodes(t.l) + Nodes(t.r.l) + Nodes(t.r.r) + PathNodes(p)
    requires Nodes(t.l) !! Nodes(t.r.l) !! Nodes(t.r.r) !! PathNodes(p)
    ensures Tidy(TurnL(t)) && Nodes(TurnL(t)) !! PathNodes(p)
  {
    var u := TurnL(t);
    assert Nodes(u) == {u.n} + Nodes(u.l) + Nodes(u.r);
    assert Nodes(u.l) == {t.n} + Nodes(t.l) + Nodes(t.r.l);
  }

  lemma TurnedTidyR(p: Path, t: Shape)
    requires t.Fork? && t.l.Fork? && Tidy(t.r) && Tidy(t.l.l) && Tidy(t.l.r) && t.n != t.l.n
    requires {t.n, t.l.n} !! Nodes(t.r) + Nodes(t.l.l) + Nodes(t.l.r) + PathNodes(p)
    requires Nodes(t.r) !! Nodes(t.l.l) !! Nodes(t.l.r) !! PathNodes(p)
    ensures Tidy(TurnR(t)) && Nodes(TurnR(t)) !! PathNodes(p)
  {
    var u := TurnR(t);
    assert Nodes(u) == {u.n} + Nodes(u.l) + Nodes(u.r);
    assert Nodes(u.r) == {t.n} + Nodes(t.l.r) + Nodes(t.r);
  }

  /** The fields after rotateLeft. */
  lemma RotatedLCells(m: Mem, p: Path, x: Node, r: Node, b: Node?)
    requires CanRotateL(m, x) && m.cell[x].r == r && m.cell[r].l == b && m.cell[x].p == Owner(p)
    requires p.InLeft? ==> m.cell[p.n].l == x
    requires p.InRight? ==> m.cell[p.n].l != x
    requires x != r && b != x && b != r && (p.Top? || (x != p.n && r != p.n && b != p.n))
    ensures (p.Top? || p.n in m.cell) && RotatedL(m, x).root == SetHole(m, p, r).root
    ensures var m' := RotatedL(m, x);
            && x in m'.cell && m'.cell[x] == m.cell[x].(r := b, p := r)
            && r in m'.cell && m'.cell[r] == m.cell[r].(l := x, p := Owner(p))
            && (b != null ==> b in m'.cell && m'.cell[b] == m.cell[b].(p := x))
            && forall n :: n in m.cell && n != x && n != r && n != b ==> n in m'.cell && m'.cell[n] == SetHole(m, p, r).cell[n]
  {
  }

  lemma RotatedRCells(m: Mem, p: Path, x: Node, l: Node, b: Node?)
    requires CanRotateR(m, x) && m.cell[x].l == l && m.cell[l].r == b && m.cell[x].p == Owner(p)
    requires p.InRight? ==> m.cell[p.n].r == x
    requires p.InLeft? ==> m.cell[p.n].r != x
    requires x != l && b != x && b != l && (p.Top? || (x != p.n && l != p.n && b != p.n))
    ensures (p.Top? || p.n in m.cell) && RotatedR(m, x).root == SetHole(m, p, l).root
    ensures var m' := RotatedR(m, x);
            && x in m'.cell && m'.cell[x] == m.cell[x].(l := b, p := l)
            && l in m'.cell && m'.cell[l] == m.cell[l].(r := x, p := Owner(p))
            && (b != null ==> b in m'.cell && m'.cell[b] == m.cell[b].(p := x))
            && forall n :: n in m.cell && n != x && n != l && n != b ==> n in m'.cell && m'.cell[n] == SetHole(m, p, l).cell[n]
  {
  }

  /** A store at the hole is seen by the owner of the hole only. */
  lemma HoleElsewhere(m: Mem, p: Path, y: Node?)
    requires p.Top? || p.n in m.cell
    ensures SetHole(m, p, y).cell.Keys == m.cell.Keys
    ensures forall n :: n in m.cell && (p.Top? || n != p.n) ==> SetHole(m, p, y).cell[n] == m.cell[n]
  {
  }

  /** What is apart from the three nodes of a rotation, and from the owner of the hole, is left alone. */
  lemma RotationFrame(m: Mem, h: Mem, m': Mem, x: Node, y: Node, b: Node?, s: set<Node>)
    requires h.cell.Keys == m.cell.Keys && x !in s && y !in s && b !in s
    requires forall n :: n in m.cell && n != x && n != y && n != b ==> n in m'.cell && m'.cell[n] == h.cell[n]
    ensures SameOn(h, m', s)
  {
  }

  lemma SameOnTrans(m: Mem, h: Mem, m': Mem, p: Path, y: Node?, s: set<Node>)
    requires (p.Top? || p.n in m.cell) && h == SetHole(m, p, y) && SameOn(h, m', s) && (p.Top? || p.n !in s)
    ensures SameOn(m, m', s)
  {
    HoleElsewhere(m, p, y);
  }

  /** rotateLeft turns the tree below x, and nothing else. */
  lemma RotateLSees(m: Mem, p: Path, t: Shape)
    requires Sees(m, p, t) && t.Fork? && t.r.Fork?
    ensures CanRotateL(m, t.n) && Sees(RotatedL(m, t.n), p, TurnL(t))
  {
    hide Tidy, PathTidy, RotatedL, SetHole, Sees, SameOn, Linked, PathLinked, TurnL;
    var x, r, a, b, c := t.n, t.r.n, t.l, t.r.l, t.r.r;
    TwoForks(m, p, t);
    LinkedHas(m, b, r);
    OwnerHas(m, p, x);
    RefNodes(b);
    RotatedLCells(m, p, x, r, Ref(b));
    var m' := RotatedL(m, x);
    HoleSet(m, p, x, r);
    HoleElsewhere(m, p, r);
    var h := SetHole(m, p, r);
    RotationFrame(m, h, m', x, r, Ref(b), PathNodes(p));
    PathFrame(h, m', p, r);
    RotationFrame(m, h, m', x, r, Ref(b), Nodes(a));
    SameOnTrans(m, h, m', p, r, Nodes(a));
    LinkedFrame(m, m', a, x);
    RotationFrame(m, h, m', x, r, Ref(b), Nodes(c));
    SameOnTrans(m, h, m', p, r, Nodes(c));
    LinkedFrame(m, m', c, r);
    RotationFrame(m, h, m', x, r, Ref(b), Nodes(b) - (if b.Leaf? then {} else {b.n}));
    SameOnTrans(m, h, m', p, r, Nodes(b) - (if b.Leaf? then {} else {b.n}));
    Reparent(m, m', b, r, x);
    TurnedTidy(p, t);
    SeesTurned(m', p, t);
  }

  lemma SeesTurned(m: Mem, p: Path, t: Shape)
    requires t.Fork? && t.r.Fork? && Tidy(TurnL(t)) && PathTidy(p) && Nodes(TurnL(t)) !! PathNodes(p)
    requires Holds(m, t.r.n, t.r.c, t.r.k, t.r.v, Owner(p), t.n, Ref(t.r.r)) && PathLinked(m, p, t.r.n)
    requires Holds(m, t.n, t.c, t.k, t.v, t.r.n, Ref(t.l), Ref(t.r.l))
    requires Linked(m, t.l, t.n) && Linked(m, t.r.l, t.n) && Linked(m, t.r.r, t.r.n)
    ensures Sees(m, p, TurnL(t))
  {
    assert Linked(m, TurnL(t).l, t.r.n);
  }

  /** rotateRight turns the tree below x, and nothing else. */
  lemma RotateRSees(m: Mem, p: Path, t: Shape)
    requires Sees(m, p, t) && t.Fork? && t.l.Fork?
    ensures CanRotateR(m, t.n) && Sees(RotatedR(m, t.n), p, TurnR(t))
  {
    hide Tidy, PathTidy, RotatedR, SetHole, Sees, SameOn, Linked, PathLinked, TurnR;
    var x, l, a, b, c := t.n, t.l.n, t.l.l, t.l.r, t.r;
    TwoForksR(m, p, t);
    LinkedHas(m, b, l);
    OwnerHas(m, p, x);
    RefNodes(b);
    RotatedRCells(m, p, x, l, Ref(b));
    var m' := RotatedR(m, x);
    HoleSet(m, p, x, l);
    HoleElsewhere(m, p, l);
    var h := SetHole(m, p, l);
    RotationFrame(m, h, m', x, l, Ref(b), PathNodes(p));
    PathFrame(h, m', p, l);
    RotationFrame(m, h, m', x, l, Ref(b), Nodes(a));
    SameOnTrans(m, h, m', p, l, Nodes(a));
    LinkedFrame(m, m', a, l);
    RotationFrame(m, h, m', x, l, Ref(b), Nodes(c));
    SameOnTrans(m, h, m', p, l, Nodes(c));
    LinkedFrame(m, m', c, x);
    RotationFrame(m, h, m', x, l, Ref(b), Nodes(b) - (if b.Leaf? then {} else {b.n}));
    SameOnTrans(m, h, m', p, l, Nodes(b) - (if b.Leaf? then {} else {b.n}));
    Reparent(m, m', b, l, x);
    TurnedTidyR(p, t);
    SeesTurnedR(m', p, t);
  }

  lemma SeesTurnedR(m: Mem, p: Path, t: Shape)
    requires t.Fork? && t.l.Fork? && Tidy(TurnR(t)) && PathTidy(p) && Nodes(TurnR(t)) !! PathNodes(p)
    requires Holds(m, t.l.n, t.l.c, t.l.k, t.l.v, Owner(p), Ref(t.l.l), t.n) && PathLinked(m, p, t.l.n)
    requires Holds(m, t.n, t.c, t.k, t.v, t.l.n, Ref(t.l.r), Ref(t.r))
    requires Linked(m, t.l.l, t.l.n) && Linked(m, t.l.r, t.n) && Linked(m, t.r, t.n)
    ensures Sees(m, p, TurnR(t))
  {
    assert Linked(m, TurnR(t).r, t.l.n);
  }

  // ---------- stores at the focus ----------

  /** Only the cell of node n changes. */
  ghost predicate OnlyAt(m: Mem, m': Mem, n: Node)
  {
    m'.root == m.root && n in m'.cell && forall x :: x in m.cell && x != n ==> x in m'.cell && m'.cell[x] == m.cell[x]
  }

  /** Colour, key and value at the focus may change. */
  lemma StoreSees(m: Mem, m': Mem, p: Path, t: Shape, u: Shape)
    requires Sees(m, p, t) && t.Fork? && u.Fork? && u.n == t.n && u.l == t.l && u.r == t.r
    requires OnlyAt(m, m', t.n) && Holds(m', t.n, u.c, u.k, u.v, m.cell[t.n].p, m.cell[t.n].l, m.cell[t.n].r)
    ensures Sees(m', p, u)
  {
    LinkedFrame(m, m', t.l, t.n);
    LinkedFrame(m, m', t.r, t.n);
    PathFrame(m, m', p, t.n);
  }

  lemma PaintSees(m: Mem, p: Path, t: Shape, c: Color)
    requires Sees(m, p, t) && t.Fork?
    ensures t.n in m.cell && Sees(SetC(m, t.n, c), p, t.(c := Hue(c)))
  {
    hide Sees, Linked;
    FocusHas(m, p, t);
    StoreSees(m, SetC(m, t.n, c), p, t, t.(c := Hue(c)));
  }

  /** A black node may be counted as gone. */
  lemma GoneSees(m: Mem, p: Path, t: Shape)
    requires Sees(m, p, t) && t.Fork? && t.c == Hue(Black)
    ensures Sees(m, p, t.(c := Gone))
  {
    hide Sees, Linked;
    FocusHas(m, p, t);
    StoreSees(m, m, p, t, t.(c := Gone));
  }

  lemma KeySees(m: Mem, p: Path, t: Shape, k: int, v: int)
    requires Sees(m, p, t) && t.Fork?
    ensures t.n in m.cell && Sees(SetKV(m, t.n, k, v), p, t.(k := k, v := v))
  {
    hide Sees, Linked;
    FocusHas(m, p, t);
    StoreSees(m, SetKV(m, t.n, k, v), p, t, t.(k := k, v := v));
  }

  lemma FocusHas(m: Mem, p: Path, t: Shape)
    requires Sees(m, p, t)
    ensures Has(m, Owner(p)) && (p.Top? ==> m.root == Ref(t)) && (!p.Top? ==> m.root != null)
    ensures p.InLeft? ==> m.cell[p.n].l == Ref(t) && Holds(m, p.n, p.c, p.k, p.v, Owner(p.up), Ref(t), Ref(p.r))
    ensures p.InRight? && t.Fork? ==> p.n in m.cell && m.cell[p.n].l != t.n
    ensures p.InRight? ==> Holds(m, p.n, p.c, p.k, p.v, Owner(p.up), Ref(p.l), Ref(t))
    ensures t.Fork? ==> Holds(m, t.n, t.c, t.k, t.v, Owner(p), Ref(t.l), Ref(t.r)) && (m.root == t.n <==> p.Top?)
  {
    if p.InRight? { RefNodes(p.l); }
    if !p.Top? { RootInPath(m, p, Ref(t)); }
  }

  lemma {:induction false} RootInPath(m: Mem, p: Path, x: Node?)
    requires PathLinked(m, p, x) && !p.Top?
    ensures m.root != null && m.root in PathNodes(p)
  {
    if !p.up.Top? { RootInPath(m, p.up, p.n); }
  }

  // ---------- hanging, unlinking and splicing ----------

  /** A node outside the tree may change at will. */
  lemma OutsideSees(m: Mem, m': Mem, p: Path, t: Shape, n: Node)
    requires Sees(m, p, t) && OnlyAt(m, m', n) && n !in Nodes(t) && n !in PathNodes(p)
    ensures Sees(m', p, t)
  {
    LinkedFrame(m, m', t, Owner(p));
    PathFrame(m, m', p, Ref(t));
  }

  /** A new leaf is hung at an empty hole. */
  lemma HangSees(m: Mem, p: Path, n: Node, c: Color, k: int, v: int)
    requires Sees(m, p, Leaf) && n !in PathNodes(p) && Holds(m, n, Hue(c), k, v, Owner(p), null, null)
    ensures (p.Top? || p.n in m.cell) && Sees(SetHole(m, p, n), p, Fork(n, Hue(c), k, v, Leaf, Leaf))
  {
    OwnerHas(m, p, null);
    HoleSet(m, p, null, n);
    HoleElsewhere(m, p, n);
  }

  /** A leaf is unlinked. */
  lemma CutSees(m: Mem, p: Path, t: Shape)
    requires Sees(m, p, t) && t.Fork? && t.l.Leaf? && t.r.Leaf?
    ensures (p.Top? || p.n in m.cell) && Sees(SetHole(m, p, null), p, Leaf)
  {
    OwnerHas(m, p, t.n);
    HoleSet(m, p, t.n, null);
  }

  /** A node with one child s is replaced by it. */
  lemma SpliceSees(m: Mem, p: Path, t: Shape, s: Shape)
    requires Sees(m, p, t) && t.Fork? && s.Fork? && ((t.l == s && t.r.Leaf?) || (t.r == s && t.l.Leaf?))
    ensures s.n in m.cell && (p.Top? || p.n in m.cell)
    ensures Sees(SetHole(SetP(m, s.n, Owner(p)), p, s.n), p, s) && t.n !in Nodes(s) && t.n !in PathNodes(p)
  {
    assert Linked(m, s, t.n) && s.n in Nodes(s);
    OwnerHas(m, p, t.n);
    var m1 := SetP(m, s.n, Owner(p));
    var m' := SetHole(m1, p, s.n);
    PathFrame(m, m1, p, t.n);
    HoleSet(m1, p, t.n, s.n);
    HoleElsewhere(m1, p, s.n);
    Reparent(m, m1, s, t.n, Owner(p));
    LinkedFrame(m1, m', s, Owner(p));
  }
}
