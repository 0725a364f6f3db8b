/** What a red-black tree is, and how the cases of the two fix-ups change it, on trees as values. */
module RbBalance {
  import opened Powers
  import opened RbShape

  type Pair = (int, int)

  // ---------- contents ----------

  /** Keys and values from left to right; a node that is Gone holds none. */
  ghost function InOrder(t: Shape): seq<Pair>
  {
    match t
    case Leaf => []
    case Fork(_, c, k, v, l, r) => InOrder(l) + (if c.Gone? then [] else [(k, v)]) + InOrder(r)
  }

  /** Those before and after the hole. */
  ghost function Before(p: Path): seq<Pair>
  {
    match p
    case Top => []
    case InLeft(_, _, _, _, _, up) => Before(up)
    case InRight(_, c, k, v, l, up) => Before(up) + InOrder(l) + (if c.Gone? then [] else [(k, v)])
  }

  ghost function Behind(p: Path): seq<Pair>
  {
    match p
    case Top => []
    case InLeft(_, c, k, v, r, up) => (if c.Gone? then [] else [(k, v)]) + InOrder(r) + Behind(up)
    case InRight(_, _, _, _, _, up) => Behind(up)
  }

  lemma Regroup(a: seq<Pair>, b: seq<Pair>, c: seq<Pair>, d: seq<Pair>, e: seq<Pair>)
    ensures a + (b + c + d) + e == (a + b + c) + d + e
    ensures a + (b + c + d) + e == a + b + (c + d + e)
  {
  }

  lemma {:induction false} PlugInOrder(p: Path, t: Shape)
    ensures InOrder(Plug(p, t)) == Before(p) + InOrder(t) + Behind(p)
    decreases p
  {
    match p
    case Top =>
    case InLeft(_, c, k, v, r, up) =>
      PlugInOrder(up, One(p, t));
      Regroup(Before(up), InOrder(t), if c.Gone? then [] else [(k, v)], InOrder(r), Behind(up));
    case InRight(_, c, k, v, l, up) =>
      PlugInOrder(up, One(p, t));
      Regroup(Before(up), InOrder(l), if c.Gone? then [] else [(k, v)], InOrder(t), Behind(up));
  }

  /** The hole filled, one level up. */
  ghost function One(p: Path, t: Shape): Shape
    requires !p.Top?
  {
    match p
    case InLeft(n, c, k, v, r, _) => Fork(n, c, k, v, t, r)
    case InRight(n, c, k, v, l, _) => Fork(n, c, k, v, l, t)
  }

  /** Keys strictly increase. */
  ghost predicate Sorted(s: seq<Pair>)
  {
    forall i, j :: 0 <= i < j < |s| ==> s[i].0 < s[j].0
  }

  // ---------- red-black trees ----------

  ghost predicate IsRed(t: Shape)
  {
    t.Fork? && t.c == Hue(Red)
  }

  ghost predicate RedTop(p: Path)
  {
    !p.Top? && p.c == Hue(Red)
  }

  ghost function Weight(c: Paint): nat
  {
    if c == Hue(Black) then 1 else 0
  }

  /** Black nodes from here to a leaf, the null leaf included. */
  ghost function Height(t: Shape): nat
  {
    match t
    case Leaf => 1
    case Fork(_, c, _, _, l, _) => Height(l) + Weight(c)
  }

  ghost predicate Bal(t: Shape)
  {
    match t
    case Leaf => true
    case Fork(_, _, _, _, l, r) => Height(l) == Height(r) && Bal(l) && Bal(r)
  }

  ghost predicate NoRedRed(t: Shape)
  {
    match t
    case Leaf => true
    case Fork(_, c, _, _, l, r) => (c == Hue(Red) ==> !IsRed(l) && !IsRed(r)) && NoRedRed(l) && NoRedRed(r)
  }

  /** No node is Gone, except n, which then has no children. */
  ghost predicate Mourns(t: Shape, n: Node?)
  {
    match t
    case Leaf => true
    case Fork(x, c, _, _, l, r) => (c.Gone? <==> x == n) && (c.Gone? ==> l.Leaf? && r.Leaf?) && Mourns(l, n) && Mourns(r, n)
  }

  ghost predicate RedBlack(t: Shape)
  {
    Bal(t) && NoRedRed(t) && !IsRed(t)
  }

  // the same for a tree with a hole of black height h

  ghost predicate PathBal(p: Path, h: nat)
  {
    match p
    case Top => true
    case InLeft(_, c, _, _, r, up) => Height(r) == h && Bal(r) && PathBal(up, h + Weight(c))
    case InRight(_, c, _, _, l, up) => Height(l) == h && Bal(l) && PathBal(up, h + Weight(c))
  }

  ghost function Sibling(p: Path): Shape
    requires !p.Top?
  {
    match p
    case InLeft(_, _, _, _, r, _) => r
    case InRight(_, _, _, _, l, _) => l
  }

  ghost predicate PathNoRedRed(p: Path)
  {
    p.Top? ||
    (NoRedRed(Sibling(p)) && (p.c == Hue(Red) ==> !IsRed(Sibling(p)) && !RedTop(p.up)) && PathNoRedRed(p.up))
  }

  ghost predicate RootBlack(p: Path)
  {
    p.Top? || (if p.up.Top? then p.c != Hue(Red) else RootBlack(p.up))
  }

  ghost predicate PathMourns(p: Path, n: Node?)
  {
    p.Top? || (!p.c.Gone? && p.n != n && Mourns(Sibling(p), n) && PathMourns(p.up, n))
  }

  lemma {:induction false} PlugBal(p: Path, t: Shape)
    ensures Bal(Plug(p, t)) <==> Bal(t) && PathBal(p, Height(t))
    decreases p
  {
    if !p.Top? { PlugBal(p.up, One(p, t)); }
  }

  lemma {:induction false} PlugNoRedRed(p: Path, t: Shape)
    ensures NoRedRed(Plug(p, t)) <==> NoRedRed(t) && PathNoRedRed(p) && !(IsRed(t) && RedTop(p))
    decreases p
  {
    if !p.Top? { PlugNoRedRed(p.up, One(p, t)); }
  }

  lemma {:induction false} PlugRoot(p: Path, t: Shape)
    ensures IsRed(Plug(p, t)) <==> (if p.Top? then IsRed(t) else !RootBlack(p))
    decreases p
  {
    if !p.Top? { PlugRoot(p.up, One(p, t)); }
  }

  lemma {:induction false} PlugMourns(p: Path, t: Shape, n: Node?)
    ensures PathMourns(p, n) && Mourns(t, n) ==> Mourns(Plug(p, t), n)
    ensures t.Fork? && Mourns(Plug(p, t), n) ==> PathMourns(p, n) && Mourns(t, n)
    decreases p
  {
    if !p.Top? { PlugMourns(p.up, One(p, t), n); }
  }

  lemma {:induction false} PlugNodes(p: Path, t: Shape)
    ensures Nodes(Plug(p, t)) == PathNodes(p) + Nodes(t)
    decreases p
  {
    if !p.Top? { PlugNodes(p.up, One(p, t)); }
  }

  lemma UpSees(m: Mem, p: Path, t: Shape)
    requires !p.Top?
    ensures Sees(m, p, t) <==> Sees(m, p.up, One(p, t))
  {
    if p.InLeft? { DownLeft(m, p.up, One(p, t)); } else { DownRight(m, p.up, One(p, t)); }
  }

  /** The same contents in the same order, on the same nodes. */
  ghost predicate Alike(t: Shape, u: Shape)
  {
    InOrder(t) == InOrder(u) && Nodes(t) == Nodes(u)
  }

  lemma TurnKeeps(t: Shape)
    requires t.Fork? && !t.c.Gone?
    ensures t.r.Fork? && !t.r.c.Gone? ==> Alike(TurnL(t), t)
    ensures t.l.Fork? && !t.l.c.Gone? ==> Alike(TurnR(t), t)
  {
    if t.r.Fork? && !t.r.c.Gone? {
      assert InOrder(t) == InOrder(t.l) + [(t.k, t.v)] + (InOrder(t.r.l) + [(t.r.k, t.r.v)] + InOrder(t.r.r));
      assert InOrder(TurnL(t)) == InOrder(t.l) + [(t.k, t.v)] + InOrder(t.r.l) + [(t.r.k, t.r.v)] + InOrder(t.r.r);
    }
    if t.l.Fork? && !t.l.c.Gone? {
      assert InOrder(t) == InOrder(t.l.l) + [(t.l.k, t.l.v)] + InOrder(t.l.r) + [(t.k, t.v)] + InOrder(t.r);
      assert InOrder(TurnR(t)) == InOrder(t.l.l) + [(t.l.k, t.l.v)] + (InOrder(t.l.r) + [(t.k, t.v)] + InOrder(t.r));
    }
  }

  lemma Hued(c: Paint)
    ensures !c.Gone? && c != Hue(Red) ==> c == Hue(Black)
  {
    if c.Hue? { assert c.color == Red || c.color == Black; }
  }

  /** The laws of a tree and of its children. */
  lemma Laws(t: Shape, n: Node?)
    requires t.Fork? && Bal(t) && NoRedRed(t) && Mourns(t, n)
    ensures Height(t) == Height(t.l) + Weight(t.c) && Height(t.l) == Height(t.r)
    ensures Bal(t.l) && NoRedRed(t.l) && Mourns(t.l, n) && Bal(t.r) && NoRedRed(t.r) && Mourns(t.r, n)
    ensures IsRed(t) ==> !IsRed(t.l) && !IsRed(t.r)
    ensures (t.c.Gone? <==> t.n == n) && (t.c.Gone? ==> t.l.Leaf? && t.r.Leaf?)
  {
  }

  /** The laws of a path and of its first level. */
  lemma PathLaws(p: Path, h: nat, n: Node?)
    requires !p.Top? && PathBal(p, h) && PathNoRedRed(p) && RootBlack(p) && PathMourns(p, n)
    ensures var w := Sibling(p);
            && Height(w) == h && Bal(w) && NoRedRed(w) && Mourns(w, n)
            && (p.c == Hue(Red) ==> !IsRed(w) && !RedTop(p.up) && !p.up.Top?)
    ensures !p.c.Gone? && p.n != n
    ensures PathBal(p.up, h + Weight(p.c)) && PathNoRedRed(p.up) && RootBlack(p.up) && PathMourns(p.up, n)
  {
  }

  // ---------- the cases of fixAfterInsertion ----------

  /** All laws hold but that the red node at the focus may be below a red one. */
  ghost predicate RedAt(p: Path, t: Shape)
  {
    && IsRed(t) && Bal(t) && NoRedRed(t) && Mourns(t, null)
    && PathBal(p, Height(t)) && PathNoRedRed(p) && RootBlack(p) && PathMourns(p, null)
  }

  /** Grandparent, parent and focus as one tree. */
  ghost function Grand(p: Path, t: Shape): Shape
    requires !p.Top? && !p.up.Top?
  {
    One(p.up, One(p, t))
  }

  ghost function Blacken(t: Shape): Shape
    requires t.Fork?
  {
    t.(c := Hue(Black))
  }

  ghost function Redden(t: Shape): Shape
    requires t.Fork?
  {
    t.(c := Hue(Red))
  }

  lemma GrandThere(p: Path, t: Shape)
    requires RedAt(p, t) && RedTop(p)
    ensures !p.up.Top? && p.up.c == Hue(Black)
  {
    PathLaws(p, Height(t), null);
    PathLaws(p.up, Height(t), null);
    Hued(p.up.c);
  }

  /** A red uncle: the grandparent becomes the red node to look at. */
  lemma Recolor(p: Path, t: Shape)
    requires RedAt(p, t) && RedTop(p) && !p.up.Top? && IsRed(Sibling(p.up))
    ensures var g := Grand(p, t); g.l.Fork? && g.r.Fork?
    ensures var g := Grand(p, t);
            RedAt(p.up.up, Redden(g.(l := Blacken(g.l), r := Blacken(g.r)))) && Alike(Redden(g.(l := Blacken(g.l), r := Blacken(g.r))), g)
  {
    GrandThere(p, t);
    PathLaws(p, Height(t), null);
    PathLaws(p.up, Height(t), null);
    var y := Sibling(p.up);
    if y.Fork? { Laws(y, null); }
  }

  /** An inner red node becomes an outer one. */
  lemma StraightenL(p: Path, t: Shape)
    requires RedAt(p, t) && RedTop(p) && !p.up.Top? && p.InRight? && p.up.InLeft?
    ensures var p1, t1 := InLeft(t.n, t.c, t.k, t.v, t.r, p.up), Fork(p.n, p.c, p.k, p.v, p.l, t.l);
            RedAt(p1, t1) && RedTop(p1) && Grand(p1, t1) == Grand(p, t).(l := TurnL(Grand(p, t).l))
            && Alike(Grand(p1, t1), Grand(p, t))
  {
    TurnKeeps(One(p, t));
    Laws(t, null);
    PathLaws(p, Height(t), null);
  }

  lemma StraightenR(p: Path, t: Shape)
    requires RedAt(p, t) && RedTop(p) && !p.up.Top? && p.InLeft? && p.up.InRight?
    ensures var p1, t1 := InRight(t.n, t.c, t.k, t.v, t.l, p.up), Fork(p.n, p.c, p.k, p.v, t.r, p.r);
            RedAt(p1, t1) && RedTop(p1) && Grand(p1, t1) == Grand(p, t).(r := TurnR(Grand(p, t).r))
            && Alike(Grand(p1, t1), Grand(p, t))
  {
    TurnKeeps(One(p, t));
    Laws(t, null);
    PathLaws(p, Height(t), null);
  }

  /** A black uncle: one rotation at the grandparent ends it. */
  lemma LiftL(p: Path, t: Shape)
    requires RedAt(p, t) && RedTop(p) && !p.up.Top? && p.InLeft? && p.up.InLeft? && !IsRed(p.up.r)
    ensures var g := Grand(p, t);
            var u := TurnR(Redden(g.(l := Blacken(g.l))));
            && u.l == t && RedAt(InLeft(u.n, u.c, u.k, u.v, u.r, p.up.up), t) && u.c == Hue(Black)
            && Alike(u, g)
  {
    GrandThere(p, t);
    PathLaws(p, Height(t), null);
    PathLaws(p.up, Height(t), null);
    var y := Sibling(p.up);
    if y.Fork? { Laws(y, null); }
    var g := Grand(p, t);
    TurnKeeps(Redden(g.(l := Blacken(g.l))));
  }

  lemma LiftR(p: Path, t: Shape)
    requires RedAt(p, t) && RedTop(p) && !p.up.Top? && p.InRight? && p.up.InRight? && !IsRed(p.up.l)
    ensures var g := Grand(p, t);
            var u := TurnL(Redden(g.(r := Blacken(g.r))));
            && u.r == t && RedAt(InRight(u.n, u.c, u.k, u.v, u.l, p.up.up), t) && u.c == Hue(Black)
            && Alike(u, g)
  {
    GrandThere(p, t);
    PathLaws(p, Height(t), null);
    PathLaws(p.up, Height(t), null);
    var y := Sibling(p.up);
    if y.Fork? { Laws(y, null); }
    var g := Grand(p, t);
    TurnKeeps(Redden(g.(r := Blacken(g.r))));
  }

  /** Once the parent is black, or the focus is the root, blackening the root completes the tree. */
  lemma Inserted(p: Path, t: Shape)
    requires RedAt(p, t) && !RedTop(p)
    ensures var u := if p.Top? then Blacken(t) else Plug(p, t);
            RedBlack(u) && Mourns(u, null) && Alike(u, Plug(p, t)) && u.Fork?
  {
    PlugBal(p, t);
    PlugNoRedRed(p, t);
    PlugRoot(p, t);
    PlugMourns(p, t, null);
    PlugFork(p, t);
  }

  /** Where the loop of fixAfterInsertion ends, only the root may need another colour. */
  lemma InsertionEnds(m: Mem, p: Path, t: Shape)
    requires Sees(m, p, t) && RedAt(p, t) && !RedTop(p)
    ensures var w := Plug(p, t);
            && w.Fork? && w.c.Hue? && Sees(m, Top, w) && Holds(m, w.n, w.c, w.k, w.v, null, Ref(w.l), Ref(w.r)) && m.root == w.n
            && RedBlack(if IsRed(w) then Blacken(w) else w) && Mourns(if IsRed(w) then Blacken(w) else w, null)
            && Alike(if IsRed(w) then Blacken(w) else w, w)
  {
    Inserted(p, t);
    SeesWhole(m, p, t);
    FocusHas(m, Top, Plug(p, t));
  }

  lemma {:induction false} PlugFork(p: Path, t: Shape)
    ensures !p.Top? || t.Fork? ==> Plug(p, t).Fork?
    decreases p
  {
    if !p.Top? { PlugFork(p.up, One(p, t)); }
  }

  // ---------- the cases of fixAfterDeletion ----------

  /** All laws hold but that the subtree at the focus is one black node short, and its root may be
      a red node with red children. */
  ghost predicate ShortAt(p: Path, t: Shape, n: Node?)
  {
    && t.Fork? && Bal(t) && NoRedRed(t.l) && NoRedRed(t.r) && Mourns(t, n)
    && PathBal(p, Height(t) + 1) && PathNoRedRed(p) && RootBlack(p) && PathMourns(p, n)
  }

  lemma {:induction false} HeightPos(t: Shape)
    ensures Height(t) >= 1
  {
    if t.Fork? { HeightPos(t.l); }
  }

  /** The sibling of a short tree is there, and is not the node that is Gone. */
  lemma SiblingThere(p: Path, t: Shape, n: Node?)
    requires ShortAt(p, t, n) && !p.Top?
    ensures Sibling(p).Fork? && Sibling(p).c.Hue? && p.c.Hue?
    ensures !IsRed(Sibling(p)) ==> Sibling(p).c == Hue(Black)
    ensures !RedTop(p) ==> p.c == Hue(Black)
  {
    HeightPos(t);
    PathLaws(p, Height(t) + 1, n);
    Hued(Sibling(p).c);
    Hued(p.c);
  }

  /** A red sibling: rotate, so that the sibling is black. */
  lemma RedSiblingL(p: Path, t: Shape, n: Node?)
    requires ShortAt(p, t, n) && !IsRed(t) && p.InLeft? && IsRed(p.r)
    ensures var f := One(p, t);
            var u := TurnL(Redden(f.(r := Blacken(f.r))));
            var q := InLeft(p.n, Hue(Red), p.k, p.v, p.r.l, InLeft(p.r.n, Hue(Black), p.r.k, p.r.v, p.r.r, p.up));
            && ShortAt(q, t, n) && One(q.up, One(q, t)) == u && q.up.up == p.up && !IsRed(q.r) && Alike(u, f)
  {
    SiblingThere(p, t, n);
    PathLaws(p, Height(t) + 1, n);
    Laws(p.r, n);
    if p.r.l.Fork? { Laws(p.r.l, n); }
    var f := One(p, t);
    TurnKeeps(Redden(f.(r := Blacken(f.r))));
  }

  lemma RedSiblingR(p: Path, t: Shape, n: Node?)
    requires ShortAt(p, t, n) && !IsRed(t) && p.InRight? && IsRed(p.l)
    ensures var f := One(p, t);
            var u := TurnR(Redden(f.(l := Blacken(f.l))));
            var q := InRight(p.n, Hue(Red), p.k, p.v, p.l.r, InRight(p.l.n, Hue(Black), p.l.k, p.l.v, p.l.l, p.up));
            && ShortAt(q, t, n) && One(q.up, One(q, t)) == u && q.up.up == p.up && !IsRed(q.l) && Alike(u, f)
  {
    SiblingThere(p, t, n);
    PathLaws(p, Height(t) + 1, n);
    Laws(p.l, n);
    if p.l.r.Fork? { Laws(p.l.r, n); }
    var f := One(p, t);
    TurnKeeps(Redden(f.(l := Blacken(f.l))));
  }

  /** A black sibling with black children: it becomes red, and the parent is the short one. */
  lemma BlackNephews(p: Path, t: Shape, n: Node?)
    requires ShortAt(p, t, n) && !IsRed(t) && !p.Top? && !IsRed(Sibling(p))
    requires Sibling(p).Fork? && !IsRed(Sibling(p).l) && !IsRed(Sibling(p).r)
    ensures var f := One(p, t);
            var u := if p.InLeft? then f.(r := Redden(f.r)) else f.(l := Redden(f.l));
            ShortAt(p.up, u, n) && Alike(u, f)
  {
    SiblingThere(p, t, n);
    PathLaws(p, Height(t) + 1, n);
    Laws(Sibling(p), n);
  }

  /** A red inner nephew: rotate, so that the outer one is red. */
  lemma InnerNephewL(p: Path, t: Shape, n: Node?)
    requires ShortAt(p, t, n) && !IsRed(t) && p.InLeft? && !IsRed(p.r) && p.r.Fork? && IsRed(p.r.l) && !IsRed(p.r.r)
    ensures var w := TurnR(Redden(p.r.(l := Blacken(p.r.l))));
            ShortAt(p.(r := w), t, n) && !IsRed(w) && IsRed(w.r) && Alike(w, p.r)
  {
    SiblingThere(p, t, n);
    PathLaws(p, Height(t) + 1, n);
    Laws(p.r, n);
    Laws(p.r.l, n);
    var w := TurnR(Redden(p.r.(l := Blacken(p.r.l))));
    TurnKeeps(Redden(p.r.(l := Blacken(p.r.l))));
    assert Bal(w.r) && NoRedRed(w.r) && Mourns(w.r, n) && Height(w.r) == Height(t);
    assert Bal(w) && NoRedRed(w) && Mourns(w, n);
    assert Alike(p.r.(l := Blacken(p.r.l)), p.r) by { assert Alike(Blacken(p.r.l), p.r.l); }
  }

  lemma InnerNephewR(p: Path, t: Shape, n: Node?)
    requires ShortAt(p, t, n) && !IsRed(t) && p.InRight? && !IsRed(p.l) && p.l.Fork? && IsRed(p.l.r) && !IsRed(p.l.l)
    ensures var w := TurnL(Redden(p.l.(r := Blacken(p.l.r))));
            ShortAt(p.(l := w), t, n) && !IsRed(w) && IsRed(w.l) && Alike(w, p.l)
  {
    SiblingThere(p, t, n);
    PathLaws(p, Height(t) + 1, n);
    Laws(p.l, n);
    Laws(p.l.r, n);
    var w := TurnL(Redden(p.l.(r := Blacken(p.l.r))));
    TurnKeeps(Redden(p.l.(r := Blacken(p.l.r))));
    assert Bal(w.l) && NoRedRed(w.l) && Mourns(w.l, n) && Height(w.l) == Height(t);
    assert Bal(w) && NoRedRed(w) && Mourns(w, n);
    assert Alike(p.l.(r := Blacken(p.l.r)), p.l) by { assert Alike(Blacken(p.l.r), p.l.r); }
  }

  /** A red outer nephew: one rotation at the parent makes up for the missing black node. */
  lemma OuterNephewL(p: Path, t: Shape, n: Node?)
    requires ShortAt(p, t, n) && !IsRed(t) && p.InLeft? && !IsRed(p.r) && p.r.Fork? && IsRed(p.r.r)
    ensures var f := One(p, t);
            var u := TurnL(Blacken(f.(r := f.r.(c := f.c, r := Blacken(f.r.r)))));
            && ShortAt(Top, Plug(p.up, u), n) && !IsRed(Plug(p.up, u)) && Alike(u, f)
  {
    SiblingThere(p, t, n);
    PathLaws(p, Height(t) + 1, n);
    Laws(p.r, n);
    Laws(p.r.r, n);
    var f := One(p, t);
    var u := TurnL(Blacken(f.(r := f.r.(c := f.c, r := Blacken(f.r.r)))));
    TurnKeeps(Blacken(f.(r := f.r.(c := f.c, r := Blacken(f.r.r)))));
    assert Alike(f.r.(c := f.c, r := Blacken(f.r.r)), f.r) by { assert Alike(Blacken(f.r.r), f.r.r); }
    Restored(p.up, u, n);
  }

  lemma OuterNephewR(p: Path, t: Shape, n: Node?)
    requires ShortAt(p, t, n) && !IsRed(t) && p.InRight? && !IsRed(p.l) && p.l.Fork? && IsRed(p.l.l)
    ensures var f := One(p, t);
            var u := TurnR(Blacken(f.(l := f.l.(c := f.c, l := Blacken(f.l.l)))));
            && ShortAt(Top, Plug(p.up, u), n) && !IsRed(Plug(p.up, u)) && Alike(u, f)
  {
    SiblingThere(p, t, n);
    PathLaws(p, Height(t) + 1, n);
    Laws(p.l, n);
    Laws(p.l.l, n);
    var f := One(p, t);
    var u := TurnR(Blacken(f.(l := f.l.(c := f.c, l := Blacken(f.l.l)))));
    TurnKeeps(Blacken(f.(l := f.l.(c := f.c, l := Blacken(f.l.l)))));
    assert Alike(f.l.(c := f.c, l := Blacken(f.l.l)), f.l) by { assert Alike(Blacken(f.l.l), f.l.l); }
    Restored(p.up, u, n);
  }

  /** A subtree of the right height in its place gives a whole red-black tree. */
  lemma Restored(p: Path, u: Shape, n: Node?)
    requires u.Fork? && Bal(u) && NoRedRed(u) && Mourns(u, n) && PathBal(p, Height(u)) && PathNoRedRed(p) && PathMourns(p, n)
    requires RootBlack(p) && !(IsRed(u) && RedTop(p)) && (p.Top? ==> !IsRed(u))
    ensures RedBlack(Plug(p, u)) && Mourns(Plug(p, u), n) && Plug(p, u).Fork?
    ensures ShortAt(Top, Plug(p, u), n)
  {
    PlugBal(p, u);
    PlugNoRedRed(p, u);
    PlugRoot(p, u);
    PlugMourns(p, u, n);
    PlugFork(p, u);
  }

  /** At the end the focus is blackened. */
  lemma Evened(p: Path, t: Shape, n: Node?)
    requires ShortAt(p, t, n) && (p.Top? || IsRed(t))
    ensures var u := Plug(p, if IsRed(t) then Blacken(t) else t);
            RedBlack(u) && Mourns(u, n) && Alike(u, Plug(p, t)) && u.Fork?
  {
    if IsRed(t) { Restored(p, Blacken(t), n); }
    if IsRed(t) { Repainted(p, t); }
  }

  // ---------- stores and rotations one level below the focus ----------

  lemma PaintLeft(m: Mem, p: Path, t: Shape, c: Color)
    requires Sees(m, p, t) && t.Fork? && t.l.Fork?
    ensures t.l.n in m.cell && Sees(SetC(m, t.l.n, c), p, t.(l := t.l.(c := Hue(c))))
  {
    hide Sees;
    DownLeft(m, p, t);
    PaintSees(m, InLeft(t.n, t.c, t.k, t.v, t.r, p), t.l, c);
    DownLeft(SetC(m, t.l.n, c), p, t.(l := t.l.(c := Hue(c))));
  }

  lemma PaintRight(m: Mem, p: Path, t: Shape, c: Color)
    requires Sees(m, p, t) && t.Fork? && t.r.Fork?
    ensures t.r.n in m.cell && Sees(SetC(m, t.r.n, c), p, t.(r := t.r.(c := Hue(c))))
  {
    hide Sees;
    DownRight(m, p, t);
    PaintSees(m, InRight(t.n, t.c, t.k, t.v, t.l, p), t.r, c);
    DownRight(SetC(m, t.r.n, c), p, t.(r := t.r.(c := Hue(c))));
  }

  lemma TurnLeft(m: Mem, p: Path, t: Shape)
    requires Sees(m, p, t) && t.Fork? && t.l.Fork?
    ensures t.l.r.Fork? ==> CanRotateL(m, t.l.n) && Sees(RotatedL(m, t.l.n), p, t.(l := TurnL(t.l)))
    ensures t.l.l.Fork? ==> CanRotateR(m, t.l.n) && Sees(RotatedR(m, t.l.n), p, t.(l := TurnR(t.l)))
  {
    hide Sees, RotatedL, RotatedR, CanRotateL, CanRotateR;
    DownLeft(m, p, t);
    var q := InLeft(t.n, t.c, t.k, t.v, t.r, p);
    if t.l.r.Fork? {
      RotateLSees(m, q, t.l);
      DownLeft(RotatedL(m, t.l.n), p, t.(l := TurnL(t.l)));
    }
    if t.l.l.Fork? {
      RotateRSees(m, q, t.l);
      DownLeft(RotatedR(m, t.l.n), p, t.(l := TurnR(t.l)));
    }
  }

  lemma TurnRight(m: Mem, p: Path, t: Shape)
    requires Sees(m, p, t) && t.Fork? && t.r.Fork?
    ensures t.r.r.Fork? ==> CanRotateL(m, t.r.n) && Sees(RotatedL(m, t.r.n), p, t.(r := TurnL(t.r)))
    ensures t.r.l.Fork? ==> CanRotateR(m, t.r.n) && Sees(RotatedR(m, t.r.n), p, t.(r := TurnR(t.r)))
  {
    hide Sees, RotatedL, RotatedR, CanRotateL, CanRotateR;
    DownRight(m, p, t);
    var q := InRight(t.n, t.c, t.k, t.v, t.l, p);
    if t.r.r.Fork? {
      RotateLSees(m, q, t.r);
      DownRight(RotatedL(m, t.r.n), p, t.(r := TurnL(t.r)));
    }
    if t.r.l.Fork? {
      RotateRSees(m, q, t.r);
      DownRight(RotatedR(m, t.r.n), p, t.(r := TurnR(t.r)));
    }
  }

  /** The fields of the focus and of its children, where they are. */
  lemma Around(m: Mem, p: Path, t: Shape)
    requires Sees(m, p, t) && t.Fork?
    ensures Holds(m, t.n, t.c, t.k, t.v, Owner(p), Ref(t.l), Ref(t.r)) && (m.root == t.n <==> p.Top?)
    ensures t.l.Fork? ==> Holds(m, t.l.n, t.l.c, t.l.k, t.l.v, t.n, Ref(t.l.l), Ref(t.l.r))
    ensures t.r.Fork? ==> Holds(m, t.r.n, t.r.c, t.r.k, t.r.v, t.n, Ref(t.r.l), Ref(t.r.r))
    ensures t.l.Fork? && t.r.Fork? ==> t.l.n != t.r.n
    ensures t.l.Fork? ==> t.l.n != t.n
    ensures t.r.Fork? ==> t.r.n != t.n
  {
    FocusHas(m, p, t);
    DownLeft(m, p, t);
    DownRight(m, p, t);
    if t.l.Fork? { FocusHas(m, InLeft(t.n, t.c, t.k, t.v, t.r, p), t.l); }
    if t.r.Fork? { FocusHas(m, InRight(t.n, t.c, t.k, t.v, t.l, p), t.r); }
    RefNodes(t.l);
    RefNodes(t.r);
  }

  function Depth(p: Path): nat
  {
    if p.Top? then 0 else 1 + Depth(p.up)
  }

  /** What fixAfterInsertion finds around a red node below a red one. */
  lemma GrandAround(m: Mem, p: Path, t: Shape)
    requires Sees(m, p, t) && t.Fork? && !p.Top? && !p.up.Top?
    ensures Sees(m, p.up.up, Grand(p, t))
    ensures var g := Grand(p, t);
            && Holds(m, g.n, g.c, g.k, g.v, Owner(p.up.up), Ref(g.l), Ref(g.r))
            && Holds(m, p.n, p.c, p.k, p.v, g.n, Ref(One(p, t).l), Ref(One(p, t).r))
            && m.cell[t.n].p == p.n && t.n in m.cell
            && (g.l.Fork? ==> Holds(m, g.l.n, g.l.c, g.l.k, g.l.v, g.n, Ref(g.l.l), Ref(g.l.r)))
            && (g.r.Fork? ==> Holds(m, g.r.n, g.r.c, g.r.k, g.r.v, g.n, Ref(g.r.l), Ref(g.r.r)))
            && (m.root == g.n <==> p.up.up.Top?) && m.root != t.n && m.root != p.n
            && (m.cell[p.n].r == t.n <==> p.InRight?) && (m.cell[p.n].l == t.n <==> p.InLeft?)
            && (m.cell[g.n].l == p.n <==> p.up.InLeft?)
  {
    UpSees(m, p, t);
    UpSees(m, p.up, One(p, t));
    Around(m, p, t);
    Around(m, p.up, One(p, t));
    Around(m, p.up.up, Grand(p, t));
  }

  /** Changing the tree at the focus changes the contents only there. */
  lemma SameContents(p: Path, t: Shape, u: Shape)
    requires Alike(t, u)
    ensures Alike(Plug(p, t), Plug(p, u))
  {
    PlugInOrder(p, t);
    PlugInOrder(p, u);
    PlugNodes(p, t);
    PlugNodes(p, u);
  }

  lemma GrandSees(m: Mem, p: Path, t: Shape)
    requires !p.Top? && !p.up.Top?
    ensures Sees(m, p, t) <==> Sees(m, p.up.up, Grand(p, t))
    ensures Plug(p, t) == Plug(p.up.up, Grand(p, t)) && Depth(p) == Depth(p.up.up) + 2
  {
    hide Sees;
    UpSees(m, p, t);
    UpSees(m, p.up, One(p, t));
  }

  /** A node that is its parent's left, or right, child: the parent in the path. */
  lemma Descend(m: Mem, p: Path, t: Shape)
    requires t.Fork?
    ensures var q := InLeft(t.n, t.c, t.k, t.v, t.r, p);
            (Sees(m, p, t) <==> Sees(m, q, t.l)) && Plug(q, t.l) == Plug(p, t) && Depth(q) == Depth(p) + 1
    ensures var q := InRight(t.n, t.c, t.k, t.v, t.l, p);
            (Sees(m, p, t) <==> Sees(m, q, t.r)) && Plug(q, t.r) == Plug(p, t) && Depth(q) == Depth(p) + 1
  {
    hide Sees;
    DownLeft(m, p, t);
    DownRight(m, p, t);
  }

  // ---------- searching ----------

  /** All keys before the hole are less than k, all behind it are greater. */
  ghost predicate Between(p: Path, k: int)
  {
    (forall y :: y in Before(p) ==> y.0 < k) && (forall y :: y in Behind(p) ==> k < y.0)
  }

  /** What is left of a key in order is less, what is right of it is greater. */
  lemma Around0(a: seq<Pair>, x: Pair, c: seq<Pair>)
    requires Sorted(a + [x] + c)
    ensures forall y :: y in a ==> y.0 < x.0
    ensures forall y :: y in c ==> x.0 < y.0
  {
    var w := a + [x] + c;
    assert w[|a|] == x;
    forall y | y in a
      ensures y.0 < x.0
    {
      var i :| 0 <= i < |a| && a[i] == y;
      assert w[i] == y;
    }
    forall y | y in c
      ensures x.0 < y.0
    {
      var i :| 0 <= i < |c| && c[i] == y;
      assert w[|a| + 1 + i] == y;
    }
  }

  lemma Parts(p: Path, t: Shape)
    requires t.Fork? && !t.c.Gone?
    ensures Before(p) + InOrder(t) + Behind(p) ==
            (Before(p) + InOrder(t.l)) + [(t.k, t.v)] + (InOrder(t.r) + Behind(p))
    ensures Behind(InLeft(t.n, t.c, t.k, t.v, t.r, p)) == [(t.k, t.v)] + (InOrder(t.r) + Behind(p))
    ensures Before(InRight(t.n, t.c, t.k, t.v, t.l, p)) == (Before(p) + InOrder(t.l)) + [(t.k, t.v)]
  {
  }

  lemma GoDown(p: Path, t: Shape, k: int)
    requires t.Fork? && !t.c.Gone? && Between(p, k) && Sorted(Before(p) + InOrder(t) + Behind(p))
    ensures k < t.k ==> Between(InLeft(t.n, t.c, t.k, t.v, t.r, p), k)
    ensures k > t.k ==> Between(InRight(t.n, t.c, t.k, t.v, t.l, p), k)
  {
    hide InOrder, Sorted;
    Parts(p, t);
    Around0(Before(p) + InOrder(t.l), (t.k, t.v), InOrder(t.r) + Behind(p));
  }

  /** A new pair in its place keeps the order. */
  lemma SortedInsert(b: seq<Pair>, k: int, v: int, e: seq<Pair>)
    requires Sorted(b + e)
    requires (forall y :: y in b ==> y.0 < k) && (forall y :: y in e ==> k < y.0)
    ensures Sorted(b + [(k, v)] + e)
  {
    var w := b + [(k, v)] + e;
    forall i, j | 0 <= i < j < |w|
      ensures w[i].0 < w[j].0
    {
      var i' := if i < |b| then i else i - 1;
      var j' := if j < |b| then j else j - 1;
      assert i < |b| ==> w[i] in b;
      assert j > |b| ==> w[j] in e;
      if i != |b| && j != |b| {
        assert (b + e)[i'] == w[i] && (b + e)[j'] == w[j];
      }
    }
  }

  lemma SortedRemove(b: seq<Pair>, x: Pair, e: seq<Pair>)
    requires Sorted(b + [x] + e)
    ensures Sorted(b + e)
    ensures forall y :: y in b + e <==> y in b + [x] + e && y.0 != x.0
  {
    var w := b + [x] + e;
    forall i, j | 0 <= i < j < |b + e|
      ensures (b + e)[i].0 < (b + e)[j].0
    {
      var i' := if i < |b| then i else i + 1;
      var j' := if j < |b| then j else j + 1;
      assert (b + e)[i] == w[i'] && (b + e)[j] == w[j'];
    }
    forall y | y in b + e
      ensures y.0 != x.0
    {
      var i :| 0 <= i < |b + e| && (b + e)[i] == y;
      assert w[|b|] == x && w[if i < |b| then i else i + 1] == y;
    }
  }

  /** A key that is neither before nor behind an empty hole is not there. */
  lemma NotThere(p: Path, k: int)
    requires Between(p, k)
    ensures forall y :: y in InOrder(Plug(p, Leaf)) ==> y.0 != k
  {
    PlugInOrder(p, Leaf);
  }

  lemma NewRed(p: Path, n: Node, k: int, v: int)
    requires RedBlack(Plug(p, Leaf)) && Mourns(Plug(p, Leaf), null) && !p.Top?
    ensures RedAt(p, Fork(n, Hue(Red), k, v, Leaf, Leaf))
  {
    PlugBal(p, Leaf);
    PlugNoRedRed(p, Leaf);
    PlugRoot(p, Leaf);
    PathMournsOf(p, Leaf);
  }

  lemma {:induction false} PathMournsOf(p: Path, t: Shape)
    requires Mourns(Plug(p, t), null)
    ensures PathMourns(p, null) && Mourns(t, null)
    decreases p
  {
    if !p.Top? { PathMournsOf(p.up, One(p, t)); }
  }

  /** A colour is no content. */
  lemma Repainted(p: Path, t: Shape)
    requires t.Fork? && t.c.Hue?
    ensures Alike(Plug(p, Redden(t)), Plug(p, t)) && Alike(Plug(p, Blacken(t)), Plug(p, t))
  {
    assert Alike(Redden(t), t) && Alike(Blacken(t), t);
    SameContents(p, t, Redden(t));
    SameContents(p, t, Blacken(t));
  }

  lemma Single(n: Node, c: Paint, k: int, v: int)
    requires c.Hue?
    ensures InOrder(Fork(n, c, k, v, Leaf, Leaf)) == [(k, v)] && InOrder(Leaf) == []
  {
  }

  /** Where the pair (k, v) goes. */
  lemma InsertedContents(p: Path, n: Node, c: Paint, k: int, v: int)
    requires Sorted(InOrder(Plug(p, Leaf))) && Between(p, k) && c.Hue?
    ensures var w := InOrder(Plug(p, Fork(n, c, k, v, Leaf, Leaf)));
            Sorted(w) && forall y :: y in w <==> y in InOrder(Plug(p, Leaf)) || y == (k, v)
  {
    hide InOrder, Sorted, Before, Behind, Plug;
    var x := Fork(n, c, k, v, Leaf, Leaf);
    Single(n, c, k, v);
    PlugInOrder(p, Leaf);
    PlugInOrder(p, x);
    assert Before(p) + [] + Behind(p) == Before(p) + Behind(p);
    SortedInsert(Before(p), k, v, Behind(p));
  }

  /** The nodes of a tree are in memory. */
  lemma SeesNodes(m: Mem, p: Path, t: Shape)
    requires Sees(m, p, t)
    ensures forall n :: n in Nodes(t) + PathNodes(p) ==> n in m.cell
  {
    SeesWhole(m, p, t);
    PlugNodes(p, t);
    LinkedHas(m, Plug(p, t), null);
  }

  lemma WholeFocus(m: Mem, t: Shape, k: int)
    requires Sees(m, Top, t)
    ensures m.root == Ref(t) && Plug(Top, t) == t && Between(Top, k) && (t.Leaf? ==> InOrder(t) == [])
  {
  }

  lemma MournsFork(t: Shape)
    requires t.Fork? && Mourns(t, null)
    ensures t.c.Hue? && Mourns(t.l, null) && Mourns(t.r, null)
  {
  }

  lemma Found(p: Path, t: Shape)
    requires t.Fork? && t.c.Hue?
    ensures (t.k, t.v) in InOrder(Plug(p, t))
  {
    PlugInOrder(p, t);
    Parts(p, t);
    var w := Before(p) + InOrder(t) + Behind(p);
    assert w[|Before(p) + InOrder(t.l)|] == (t.k, t.v);
  }

  // ---------- around a short tree ----------

  lemma PaintOuter(m: Mem, p: Path, t: Shape)
    requires Sees(m, p, t) && t.Fork?
    ensures t.r.Fork? && t.r.r.Fork? ==>
              t.r.r.n in m.cell && Sees(SetC(m, t.r.r.n, Black), p, t.(r := t.r.(r := Blacken(t.r.r))))
    ensures t.l.Fork? && t.l.l.Fork? ==>
              t.l.l.n in m.cell && Sees(SetC(m, t.l.l.n, Black), p, t.(l := t.l.(l := Blacken(t.l.l))))
  {
    hide Sees, SetC;
    if t.r.Fork? && t.r.r.Fork? {
      Descend(m, p, t);
      PaintRight(m, InRight(t.n, t.c, t.k, t.v, t.l, p), t.r, Black);
      Descend(SetC(m, t.r.r.n, Black), p, t.(r := t.r.(r := Blacken(t.r.r))));
    }
    if t.l.Fork? && t.l.l.Fork? {
      Descend(m, p, t);
      PaintLeft(m, InLeft(t.n, t.c, t.k, t.v, t.r, p), t.l, Black);
      Descend(SetC(m, t.l.l.n, Black), p, t.(l := t.l.(l := Blacken(t.l.l))));
    }
  }

  /** What fixAfterDeletion finds around a short tree: its parent, its sibling and the nephews. */
  lemma FatherAround(m: Mem, p: Path, t: Shape)
    requires Sees(m, p, t) && t.Fork? && !p.Top?
    ensures Sees(m, p.up, One(p, t)) && Plug(p.up, One(p, t)) == Plug(p, t)
    ensures Depth(p) == Depth(p.up) + 1 && Depth(Top) == 0
    ensures t.n in m.cell && m.cell[t.n].p == p.n && m.cell[t.n].c == ColorOf(t.c) && m.root != t.n
    ensures Holds(m, p.n, p.c, p.k, p.v, Owner(p.up), Ref(One(p, t).l), Ref(One(p, t).r))
    ensures m.cell[p.n].l == t.n <==> p.InLeft?
    ensures m.cell[p.n].r == t.n <==> p.InRight?
    ensures m.root == p.n <==> p.up.Top?
    ensures var w := Sibling(p);
            w.Fork? ==>
              && Holds(m, w.n, w.c, w.k, w.v, p.n, Ref(w.l), Ref(w.r))
              && (w.l.Fork? ==> w.l.n in m.cell && m.cell[w.l.n].c == ColorOf(w.l.c))
              && (w.r.Fork? ==> w.r.n in m.cell && m.cell[w.r.n].c == ColorOf(w.r.c))
  {
    UpSees(m, p, t);
    Around(m, p, t);
    Around(m, p.up, One(p, t));
    var f := One(p, t);
    Descend(m, p.up, f);
    if p.InLeft? {
      if f.r.Fork? { Around(m, InRight(f.n, f.c, f.k, f.v, f.l, p.up), f.r); }
    } else {
      if f.l.Fork? { Around(m, InLeft(f.n, f.c, f.k, f.v, f.r, p.up), f.l); }
    }
  }

  // ---------- unlinking a node ----------

  /** Where the loop of fixAfterDeletion ends. */
  lemma DeletionEnds(m: Mem, p: Path, t: Shape, n: Node?)
    requires Sees(m, p, t) && ShortAt(p, t, n) && (p.Top? || IsRed(t))
    ensures var u := if IsRed(t) then Blacken(t) else t;
            && RedBlack(Plug(p, u)) && Mourns(Plug(p, u), n) && Alike(Plug(p, u), Plug(p, t))
            && t.n in m.cell && m.cell[t.n].c == ColorOf(t.c)
            && (IsRed(t) <==> m.cell[t.n].c == Red)
  {
    Evened(p, t, n);
    FocusHas(m, p, t);
  }

  /** The parts of the laws of a whole tree that a path and a subtree have. */
  lemma PlugLaws(p: Path, t: Shape)
    requires RedBlack(Plug(p, t)) && Mourns(Plug(p, t), null)
    ensures Bal(t) && NoRedRed(t) && Mourns(t, null) && (p.Top? ==> !IsRed(t))
    ensures PathBal(p, Height(t)) && PathNoRedRed(p) && RootBlack(p) && PathMourns(p, null) && !(IsRed(t) && RedTop(p))
  {
    PlugBal(p, t);
    PlugNoRedRed(p, t);
    PlugRoot(p, t);
    PathMournsOf(p, t);
  }

  /** A node with one child is black, and the child is short of one black node. */
  lemma OneChild(p: Path, t: Shape, s: Shape)
    requires RedBlack(Plug(p, t)) && Mourns(Plug(p, t), null) && t.Fork? && s.Fork?
    requires (t.l == s && t.r.Leaf?) || (t.r == s && t.l.Leaf?)
    ensures t.c == Hue(Black) && ShortAt(p, s, null)
  {
    PlugLaws(p, t);
    Laws(t, null);
    Laws(s, null);
    HeightPos(s.l);
    Hued(t.c);
    Hued(s.c);
  }

  /** A black leaf that is counted as gone is short of one black node. */
  lemma Phantom(p: Path, t: Shape)
    requires RedBlack(Plug(p, t)) && Mourns(Plug(p, t), null) && t.Fork? && t.l.Leaf? && t.r.Leaf? && t.c == Hue(Black)
    requires t.n !in PathNodes(p)
    ensures ShortAt(p, t.(c := Gone), t.n)
  {
    PlugLaws(p, t);
    PathWithout(p, t.n);
  }

  lemma {:induction false} TreeWithout(t: Shape, n: Node)
    requires Mourns(t, null) && n !in Nodes(t)
    ensures Mourns(t, n)
  {
    if t.Fork? {
      TreeWithout(t.l, n);
      TreeWithout(t.r, n);
    }
  }

  lemma {:induction false} PathWithout(p: Path, n: Node)
    requires PathMourns(p, null) && n !in PathNodes(p)
    ensures PathMourns(p, n)
  {
    if !p.Top? {
      TreeWithout(Sibling(p), n);
      PathWithout(p.up, n);
    }
  }

  /** The way to a node of a tree. */
  lemma {:induction false} FindNode(w: Shape, n: Node) returns (p: Path, t: Shape)
    requires n in Nodes(w)
    ensures Plug(p, t) == w && t.Fork? && t.n == n
  {
    p, t := FindFrom(Top, w, n);
  }

  lemma {:induction false} FindFrom(q: Path, w: Shape, n: Node) returns (p: Path, t: Shape)
    requires n in Nodes(w)
    ensures Plug(p, t) == Plug(q, w) && t.Fork? && t.n == n
    decreases w
  {
    if w.n == n {
      p, t := q, w;
    } else if n in Nodes(w.l) {
      p, t := FindFrom(InLeft(w.n, w.c, w.k, w.v, w.r, q), w.l, n);
    } else {
      p, t := FindFrom(InRight(w.n, w.c, w.k, w.v, w.l, q), w.r, n);
    }
  }

  lemma CutOrder(p: Path)
    ensures InOrder(Plug(p, Leaf)) == Before(p) + Behind(p)
  {
    PlugInOrder(p, Leaf);
    assert Before(p) + [] + Behind(p) == Before(p) + Behind(p);
  }

  /** Cutting off a leaf that counts for nothing, or a red one. */
  lemma CutLaws(p: Path, t: Shape)
    requires RedBlack(Plug(p, t)) && t.Fork? && t.l.Leaf? && t.r.Leaf? && t.c != Hue(Black)
    requires Mourns(Plug(p, t), if t.c.Gone? then t.n else null) && t.n !in PathNodes(p)
    ensures RedBlack(Plug(p, Leaf)) && Mourns(Plug(p, Leaf), null)
    ensures InOrder(Plug(p, Leaf)) == Before(p) + Behind(p)
  {
    PlugBal(p, t);
    PlugNoRedRed(p, t);
    PlugRoot(p, t);
    PlugMourns(p, t, if t.c.Gone? then t.n else null);
    PlugBal(p, Leaf);
    PlugNoRedRed(p, Leaf);
    PlugRoot(p, Leaf);
    PathMournsNone(p, if t.c.Gone? then t.n else null);
    PlugMourns(p, Leaf, null);
    hide InOrder, Before, Behind, Plug;
    CutOrder(p);
  }

  lemma {:induction false} MournsNone(t: Shape, n: Node?)
    requires Mourns(t, n) && (n == null || n !in Nodes(t))
    ensures Mourns(t, null)
  {
    if t.Fork? {
      MournsNone(t.l, n);
      MournsNone(t.r, n);
    }
  }

  /** Red is the only colour field that a black or gone node cannot have. */
  lemma Colored(c: Paint)
    ensures ColorOf(c) == Red <==> c == Hue(Red)
    ensures ColorOf(c) == Red || ColorOf(c) == Black
  {
    if c.Hue? { assert c.color == Red || c.color == Black; }
  }

  lemma {:induction false} PathMournsNone(p: Path, n: Node?)
    requires PathMourns(p, n) && (n == null || n !in PathNodes(p))
    ensures PathMourns(p, null)
  {
    if !p.Top? {
      MournsNone(Sibling(p), n);
      PathMournsNone(p.up, n);
    }
  }

  /** A node with at most one child leaves its place to it. */
  ghost function Remains(p: Path, t: Shape): seq<Pair>
    requires t.Fork?
  {
    Before(p) + InOrder(t.l) + InOrder(t.r) + Behind(p)
  }

  lemma SpliceContents(p: Path, t: Shape, s: Shape)
    requires t.Fork? && ((t.l == s && t.r.Leaf?) || (t.r == s && t.l.Leaf?))
    ensures InOrder(Plug(p, s)) == Remains(p, t)
  {
    PlugInOrder(p, s);
  }

  /** The node that is Gone holds no pair. */
  lemma PhantomContents(p: Path, t: Shape)
    requires t.Fork? && t.l.Leaf? && t.r.Leaf?
    ensures Remains(p, t) == Before(p) + Behind(p)
    ensures InOrder(Plug(p, t.(c := Gone))) == Before(p) + Behind(p)
    ensures Nodes(Plug(p, t.(c := Gone))) == Nodes(Plug(p, t)) && t.n in Nodes(Plug(p, t))
  {
    PlugInOrder(p, t.(c := Gone));
    PlugNodes(p, t.(c := Gone));
    PlugNodes(p, t);
    assert Before(p) + [] + [] + Behind(p) == Before(p) + Behind(p);
    assert Before(p) + [] + Behind(p) == Before(p) + Behind(p);
  }

  /** A node no longer in the tree may be dropped from memory. */
  lemma DropSees(m: Mem, m': Mem, t: Shape, n: Node)
    requires Sees(m, Top, t) && n !in Nodes(t) && m'.root == m.root
    requires forall x :: x in m.cell && x != n ==> x in m'.cell && m'.cell[x] == m.cell[x]
    ensures Sees(m', Top, t)
  {
    LinkedFrame(m, m', t, null);
  }

  lemma NotInHole(m: Mem, p: Path, t: Shape)
    requires Sees(m, p, t) && t.Fork?
    ensures t.n !in PathNodes(p) && t.n !in Nodes(t.l) && t.n !in Nodes(t.r) && Nodes(Plug(p, Leaf)) == PathNodes(p)
    ensures t.n !in Nodes(Plug(p, t.l)) && t.n !in Nodes(Plug(p, t.r))
  {
    PlugNodes(p, Leaf);
    PlugNodes(p, t.l);
    PlugNodes(p, t.r);
  }

  /** The node being spliced out, and the hole, while the child gets its new parent. */
  lemma SpliceAround(m: Mem, p: Path, t: Shape, s: Shape)
    requires Sees(m, p, t) && t.Fork? && s.Fork? && ((t.l == s && t.r.Leaf?) || (t.r == s && t.l.Leaf?))
    ensures s.n in m.cell && t.n in m.cell && m.cell[t.n].p == Owner(p)
    ensures var m1 := SetP(m, s.n, Owner(p));
            && m1.cell.Keys == m.cell.Keys && m1.cell[t.n] == m.cell[t.n] && m.cell[t.n].c == ColorOf(t.c)
            && (p.InLeft? ==> p.n in m1.cell && m1.cell[p.n].l == t.n)
            && (p.InRight? ==> p.n in m1.cell && m1.cell[p.n].l != t.n)
            && (!p.Top? ==> p.n != t.n)
  {
    assert Linked(m, s, t.n) && s.n in Nodes(s);
    OwnerHas(m, p, t.n);
    FocusHas(m, p, t);
  }

  /** The phantom, found again after the fix-up, still has a parent and no children. */
  lemma PhantomThere(m: Mem, p: Path, t: Shape, w: Shape, q: Path, u: Shape)
    requires !p.Top? && t.Fork? && t.l.Leaf? && t.r.Leaf? && t.n !in PathNodes(p)
    requires Alike(w, Plug(p, t.(c := Gone))) && Mourns(w, t.n) && Sees(m, Top, w)
    requires Plug(q, u) == w && u.Fork? && u.n == t.n
    ensures u.c.Gone? && u.l.Leaf? && u.r.Leaf? && !q.Top? && Sees(m, q, u) && Before(q) + Behind(q) == Remains(p, t)
  {
    hide InOrder, Nodes, PathNodes, Sees, Plug, Mourns, Before, Behind, Remains;
    PhantomLeaf(q, u, t.n);
    PhantomContents(p, t);
    PlugNodes(p, t);
    OwnerNode(p);
    SeesWhole(m, q, u);
  }

  lemma OwnerNode(p: Path)
    ensures !p.Top? ==> p.n in PathNodes(p)
  {
  }

  lemma PhantomLeaf(q: Path, u: Shape, n: Node)
    requires u.Fork? && u.n == n && Mourns(Plug(q, u), n)
    ensures u.c.Gone? && u.l.Leaf? && u.r.Leaf? && InOrder(Plug(q, u)) == Before(q) + Behind(q)
    ensures q.Top? ==> Nodes(Plug(q, u)) == {n}
  {
    PlugMourns(q, u, n);
    PlugInOrder(q, u);
    assert InOrder(u) == [];
    assert Before(q) + [] + Behind(q) == Before(q) + Behind(q);
  }

  lemma LeafContents(p: Path, t: Shape)
    requires t.Fork? && t.l.Leaf? && t.r.Leaf?
    ensures Before(p) + Behind(p) == Remains(p, t)
  {
    PhantomContents(p, t);
  }

  // ---------- the successor, within the right subtree ----------

  /** The leftmost node of a tree, and the way to it. */
  ghost function LeftmostPath(p: Path, t: Shape): Path
    requires t.Fork?
    decreases t
  {
    if t.l.Leaf? then p else LeftmostPath(InLeft(t.n, t.c, t.k, t.v, t.r, p), t.l)
  }

  ghost function Leftmost(t: Shape): (s: Shape)
    requires t.Fork?
    ensures s.Fork?
  {
    if t.l.Leaf? then t else Leftmost(t.l)
  }

  lemma {:induction false} LeftmostFacts(m: Mem, p: Path, t: Shape)
    requires t.Fork?
    ensures var q, s := LeftmostPath(p, t), Leftmost(t);
            && s.l.Leaf? && Plug(q, s) == Plug(p, t) && Before(q) == Before(p)
            && (Sees(m, p, t) <==> Sees(m, q, s))
            && (Mourns(t, null) ==> Mourns(s, null))
    ensures t.c.Hue? && Mourns(t, null) ==> InOrder(t) + Behind(p) == [(Leftmost(t).k, Leftmost(t).v)] + (InOrder(Leftmost(t).r) + Behind(LeftmostPath(p, t)))
    decreases t
  {
    hide Sees, InOrder, Behind;
    if t.c.Hue? && Mourns(t, null) { LeftmostRest(p, t); }
    if t.l.Fork? {
      Descend(m, p, t);
      LeftmostFacts(m, InLeft(t.n, t.c, t.k, t.v, t.r, p), t.l);
    }
  }

  lemma GoLeft(p: Path, t: Shape)
    requires t.Fork? && t.c.Hue?
    ensures InOrder(t) + Behind(p) == InOrder(t.l) + Behind(InLeft(t.n, t.c, t.k, t.v, t.r, p))
  {
    Regroup([], InOrder(t.l), [(t.k, t.v)], InOrder(t.r), Behind(p));
  }

  lemma EndLeft(p: Path, t: Shape)
    requires t.Fork? && t.c.Hue? && t.l.Leaf?
    ensures InOrder(t) + Behind(p) == [(t.k, t.v)] + (InOrder(t.r) + Behind(p))
  {
    Regroup([], [], [(t.k, t.v)], InOrder(t.r), Behind(p));
    assert [] + [(t.k, t.v)] == [(t.k, t.v)];
  }

  lemma {:induction false} LeftmostRest(p: Path, t: Shape)
    requires t.Fork? && t.c.Hue? && Mourns(t, null)
    ensures InOrder(t) + Behind(p) == [(Leftmost(t).k, Leftmost(t).v)] + (InOrder(Leftmost(t).r) + Behind(LeftmostPath(p, t)))
    decreases t
  {
    hide InOrder, Behind;
    MournsFork(t);
    if t.l.Fork? {
      MournsFork(t.l);
      LeftmostRest(InLeft(t.n, t.c, t.k, t.v, t.r, p), t.l);
      GoLeft(p, t);
    } else {
      EndLeft(p, t);
    }
  }

  /** What follows the focus, from left to right. */
  ghost function Rest(p: Path, t: Shape): seq<Pair>
    requires t.Fork?
  {
    InOrder(t.r) + Behind(p)
  }

  ghost function Past(p: Path, t: Shape): seq<Pair>
    requires t.Fork?
  {
    Before(p) + InOrder(t.l)
  }

  lemma SplitEqual(a: seq<Pair>, c: seq<Pair>, d: seq<Pair>)
    ensures a + c == a + d ==> c == d
  {
    if a + c == a + d {
      assert c == (a + c)[|a|..] && d == (a + d)[|a|..];
    }
  }

  /** Copying the successor's pair up and removing the successor removes the pair overwritten. */
  lemma CopiedContents(p: Path, t: Shape, k: int, v: int, q: Path, s: Shape)
    requires t.Fork? && t.c.Hue? && s.Fork? && s.c.Hue? && s.l.Leaf? && s.k == k && s.v == v
    requires Plug(q, s) == Plug(p, t.(k := k, v := v))
    requires Before(q) == Before(p) + InOrder(t.l) + [(k, v)]
    requires Sorted(InOrder(Plug(p, t)))
    ensures Sorted(Remains(q, s))
    ensures forall y :: y in Remains(q, s) <==> y in InOrder(Plug(p, t)) && y.0 != t.k
  {
    hide InOrder, Plug, Before, Behind, Sorted, Remains;
    var b, e := Before(p) + InOrder(t.l), InOrder(t.r) + Behind(p);
    WholeParts(p, t);
    WholeParts(p, t.(k := k, v := v));
    LeftmostParts(q, s);
    CopiedParts(b, (k, v), e, Before(q), InOrder(s.r) + Behind(q));
    SortedRemove(b, (t.k, t.v), e);
  }

  lemma WholeParts(p: Path, t: Shape)
    requires t.Fork? && t.c.Hue?
    ensures InOrder(Plug(p, t)) == (Before(p) + InOrder(t.l)) + [(t.k, t.v)] + (InOrder(t.r) + Behind(p))
  {
    hide InOrder, Plug, Before, Behind;
    PlugInOrder(p, t);
    Parts(p, t);
  }

  lemma LeftmostParts(q: Path, s: Shape)
    requires s.Fork? && s.c.Hue? && s.l.Leaf?
    ensures InOrder(Plug(q, s)) == Before(q) + [(s.k, s.v)] + (InOrder(s.r) + Behind(q))
    ensures Remains(q, s) == Before(q) + (InOrder(s.r) + Behind(q))
  {
    assert InOrder(s.l) == [];
    hide InOrder, Plug, Before, Behind;
    WholeParts(q, s);
    assert Before(q) + [] == Before(q);
  }

  lemma CopiedParts(b: seq<Pair>, y: Pair, e: seq<Pair>, c: seq<Pair>, f: seq<Pair>)
    requires c == b + [y] && b + [y] + e == c + [y] + f
    ensures c + f == b + e
  {
    assert c + [y] + f == (b + [y]) + ([y] + f);
    SplitEqual(b + [y], e, [y] + f);
    assert c + f == b + ([y] + f);
  }

  lemma RemovedContents(p: Path, t: Shape)
    requires t.Fork? && t.c.Hue? && Sorted(InOrder(Plug(p, t))) && (t.l.Leaf? || t.r.Leaf?)
    ensures Sorted(Remains(p, t))
    ensures forall y :: y in Remains(p, t) <==> y in InOrder(Plug(p, t)) && y.0 != t.k
  {
    var b, e := Before(p) + InOrder(t.l), InOrder(t.r) + Behind(p);
    WholeParts(p, t);
    assert Remains(p, t) == b + e;
    SortedRemove(b, (t.k, t.v), e);
  }

  /** Another key and value change no law. */
  lemma RekeyLaws(p: Path, t: Shape, k: int, v: int)
    requires t.Fork? && RedBlack(Plug(p, t)) && Mourns(Plug(p, t), null)
    ensures RedBlack(Plug(p, t.(k := k, v := v))) && Mourns(Plug(p, t.(k := k, v := v)), null)
  {
    var u := t.(k := k, v := v);
    PlugLaws(p, t);
    PlugBal(p, u);
    PlugNoRedRed(p, u);
    PlugRoot(p, u);
    PlugMourns(p, u, null);
  }

  lemma OnlyStored(m: Mem, n: Node, x: Node?)
    requires n in m.cell
    ensures OnlyAt(m, SetP(m, n, x), n)
  {
  }

  lemma OnlyNode(m: Mem, p: Path, t: Shape)
    requires Sees(m, p, t) && t.Fork? && t.l.Leaf? && t.r.Leaf? && p.Top?
    ensures Remains(p, t) == InOrder(Leaf) && Sees(m.(root := null), Top, Leaf) && RedBlack(Leaf) && Mourns(Leaf, null)
    ensures Nodes(Leaf) == {}
  {
  }

  /** The first node to the right of a node without a right child is an ancestor. */
  lemma ClimbLeft(p: Path, t: Shape)
    requires p.InLeft? && p.c.Hue?
    ensures Behind(p) == [(p.k, p.v)] + Rest(p.up, One(p, t)) && Past(p.up, One(p, t)) == Before(p) + InOrder(t)
  {
    assert [(p.k, p.v)] + InOrder(p.r) + Behind(p.up) == [(p.k, p.v)] + (InOrder(p.r) + Behind(p.up));
  }

  lemma ClimbRight(p: Path, t: Shape)
    requires p.InRight? && p.c.Hue?
    ensures Behind(p) == Behind(p.up) && Before(p.up) + InOrder(One(p, t)) == Before(p) + InOrder(t)
  {
    assert Before(p.up) + (InOrder(p.l) + [(p.k, p.v)] + InOrder(t)) == Before(p.up) + InOrder(p.l) + [(p.k, p.v)] + InOrder(t);
  }

  lemma PathHued(p: Path)
    requires !p.Top? && PathMourns(p, null)
    ensures p.c.Hue? && PathMourns(p.up, null)
  {
  }

  lemma NoneBehind(p: Path)
    requires p.Top?
    ensures Behind(p) == [] && Before(p) == []
  {
  }

  lemma NoRight(p: Path, t: Shape)
    requires t.Fork? && t.c.Hue? && t.r.Leaf?
    ensures Behind(p) == Rest(p, t) && Before(p) + InOrder(t) == Past(p, t) + [(t.k, t.v)]
  {
    assert InOrder(t.r) == [];
    assert Before(p) + (InOrder(t.l) + [(t.k, t.v)] + []) == Before(p) + InOrder(t.l) + [(t.k, t.v)];
  }

  lemma RightParts(p: Path, t: Shape)
    requires t.Fork? && t.c.Hue?
    ensures var q := InRight(t.n, t.c, t.k, t.v, t.l, p);
            Rest(p, t) == InOrder(t.r) + Behind(q) && Before(q) == Past(p, t) + [(t.k, t.v)]
  {
  }

  lemma LeafPast(q: Path, y: Shape)
    requires y.Fork? && y.l.Leaf?
    ensures Past(q, y) == Before(q)
  {
    assert InOrder(y.l) == [];
    assert Before(q) + [] == Before(q);
  }

  // ---------- depth ----------

  ghost function Size(t: Shape): nat
  {
    match t
    case Leaf => 0
    case Fork(_, _, _, _, l, r) => 1 + Size(l) + Size(r)
  }

  /** Nodes on the longest way down. */
  ghost function Levels(t: Shape): nat
  {
    match t
    case Leaf => 0
    case Fork(_, _, _, _, l, r) => 1 + if Levels(l) > Levels(r) then Levels(l) else Levels(r)
  }

  lemma {:induction false} Pow2Sum(a: nat, b: nat)
    ensures Pow2(a + b) == Pow2(a) * Pow2(b)
  {
    if a > 0 { Pow2Sum(a - 1, b); }
  }

  lemma {:induction false} Pow2Mono(a: nat, b: nat)
    requires a <= b
    ensures 1 <= Pow2(a) <= Pow2(b)
  {
    if b > 0 && a < b { Pow2Mono(a, b - 1); }
    else if b > 0 { Pow2Mono(a - 1, b - 1); }
  }

  lemma {:induction false} ManyNodes(t: Shape)
    requires Bal(t) && NoRedRed(t) && Mourns(t, null)
    ensures Height(t) >= 1 && Pow2(Height(t) - 1) <= Size(t) + 1
    ensures Levels(t) <= 2 * (Height(t) - 1) + (if IsRed(t) then 1 else 0)
  {
    HeightPos(t);
    if t.Fork? {
      Laws(t, null);
      Hued(t.c);
      ManyNodes(t.l);
      ManyNodes(t.r);
    }
  }

  /** A red-black tree of n nodes has at most 2 * log2(n + 1) levels. */
  lemma LogarithmicDepth(t: Shape)
    requires RedBlack(t) && Mourns(t, null)
    ensures Pow2(Levels(t)) <= (Size(t) + 1) * (Size(t) + 1)
  {
    ManyNodes(t);
    var h := Height(t) - 1;
    Pow2Mono(Levels(t), 2 * h);
    Pow2Sum(h, h);
    Squares(Pow2(h), Size(t) + 1);
  }

  lemma Squares(a: nat, b: nat)
    requires a <= b
    ensures a * a <= b * b
  {
  }
}
