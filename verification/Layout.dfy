/** The split tree of a session and the tiling it produces. */
module Layouts {
  import opened Collections

  const LEAF := 0
  const VERT := 1
  const HORIZ := 2

  /** Any direction other than vertical stacks the children. */
  type SplitDir = d: int | d != LEAF witness VERT

  datatype Shell = Shell(id: int, pane: string)

  datatype Tree = Leaf(shell: Option<Shell>) | Split(dir: SplitDir, a: Tree, b: Tree)

  function Leaves(t: Tree): seq<Option<Shell>> {
    match t
    case Leaf(shell) => [shell]
    case Split(_, a, b) => Leaves(a) + Leaves(b)
  }

  datatype Rect = Rect(x: int, y: int, w: int, h: int) {
    predicate Contains(px: int, py: int) {
      x <= px < x + w && y <= py < y + h
    }

    function Area(): int {
      w * h
    }
  }

  /** The leaf with this position in traversal order, and where it is drawn. */
  datatype LeafRect = LeafRect(leaf: nat, rect: Rect)

  datatype Separator = Separator(x: int, y: int, length: int, vertical: bool) {
    function Cells(): Rect {
      if vertical then Rect(x, y, 1, length) else Rect(x, y, length, 1)
    }
  }

  datatype Tiling = Tiling(leaves: seq<LeafRect>, seps: seq<Separator>)

  function LeftPart(r: Rect): Rect
    requires r.w >= 3
  {
    Rect(r.x, r.y, (r.w - 1) / 2, r.h)
  }

  function RightPart(r: Rect): Rect
    requires r.w >= 3
  {
    var leftW := (r.w - 1) / 2;
    Rect(r.x + leftW + 1, r.y, r.w - 1 - leftW, r.h)
  }

  function TopPart(r: Rect): Rect
    requires r.h >= 3
  {
    Rect(r.x, r.y, r.w, (r.h - 1) / 2)
  }

  function BottomPart(r: Rect): Rect
    requires r.h >= 3
  {
    var topH := (r.h - 1) / 2;
    Rect(r.x, r.y + topH + 1, r.w, r.h - 1 - topH)
  }

  function VertSep(r: Rect): Separator
    requires r.w >= 3
  {
    Separator(r.x + (r.w - 1) / 2, r.y, r.h, true)
  }

  function HorizSep(r: Rect): Separator
    requires r.h >= 3
  {
    Separator(r.x, r.y + (r.h - 1) / 2, r.w, false)
  }

  function Count(t: Tree): (n: nat)
    ensures n >= 1
  {
    match t
    case Leaf(_) => 1
    case Split(_, a, b) => Count(a) + Count(b)
  }

  function Joined(p: Tiling, s: Separator, q: Tiling): Tiling {
    Tiling(p.leaves + q.leaves, p.seps + [s] + q.seps)
  }

  /** The tiling of `r` by `t`, whose first leaf has position `base`. */
  function Layout(t: Tree, r: Rect, base: nat): Tiling {
    match t
    case Leaf(_) => Tiling([LeafRect(base, r)], [])
    case Split(dir, a, b) =>
      if dir == VERT then
        if r.w < 3 then Layout(a, r, base)
        else Joined(Layout(a, LeftPart(r), base), VertSep(r), Layout(b, RightPart(r), base + Count(a)))
      else if r.h < 3 then Layout(a, r, base)
      else Joined(Layout(a, TopPart(r), base), HorizSep(r), Layout(b, BottomPart(r), base + Count(a)))
  }

  /** The accumulating walk. */
  method LayoutInto(t: Tree, r: Rect, base: nat, leaves: seq<LeafRect>, seps: seq<Separator>)
    returns (outLeaves: seq<LeafRect>, outSeps: seq<Separator>)
    ensures outLeaves == leaves + Layout(t, r, base).leaves
    ensures outSeps == seps + Layout(t, r, base).seps
  {
    outLeaves, outSeps := leaves, seps;
    if t.Leaf? {
      outLeaves := outLeaves + [LeafRect(base, r)];
      return;
    }
    if t.dir == VERT {
      if r.w < 3 {
        outLeaves, outSeps := LayoutInto(t.a, r, base, outLeaves, outSeps);
        return;
      }
      var leftW := (r.w - 1) / 2;
      var rightW := r.w - 1 - leftW;
      outLeaves, outSeps := LayoutInto(t.a, Rect(r.x, r.y, leftW, r.h), base, outLeaves, outSeps);
      outSeps := outSeps + [Separator(r.x + leftW, r.y, r.h, true)];
      outLeaves, outSeps :=
        LayoutInto(t.b, Rect(r.x + leftW + 1, r.y, rightW, r.h), base + Count(t.a), outLeaves, outSeps);
      return;
    }
    if r.h < 3 {
      outLeaves, outSeps := LayoutInto(t.a, r, base, outLeaves, outSeps);
      return;
    }
    var topH := (r.h - 1) / 2;
    var botH := r.h - 1 - topH;
    outLeaves, outSeps := LayoutInto(t.a, Rect(r.x, r.y, r.w, topH), base, outLeaves, outSeps);
    outSeps := outSeps + [Separator(r.x, r.y + topH, r.w, false)];
    outLeaves, outSeps :=
      LayoutInto(t.b, Rect(r.x, r.y + topH + 1, r.w, botH), base + Count(t.a), outLeaves, outSeps);
  }

  // ----------------------------------------------------------- exact tiling

  function One(b: bool): nat {
    if b then 1 else 0
  }

  /** How many of the leaf rectangles cover a cell. */
  function LeafCover(leaves: seq<LeafRect>, x: int, y: int): nat {
    if leaves == [] then 0 else
      LeafCover(leaves[..|leaves| - 1], x, y) + One(leaves[|leaves| - 1].rect.Contains(x, y))
  }

  function SepCover(seps: seq<Separator>, x: int, y: int): nat {
    if seps == [] then 0 else
      SepCover(seps[..|seps| - 1], x, y) + One(seps[|seps| - 1].Cells().Contains(x, y))
  }

  function Cover(p: Tiling, x: int, y: int): nat {
    LeafCover(p.leaves, x, y) + SepCover(p.seps, x, y)
  }

  lemma {:induction false} LeafCoverConcat(p: seq<LeafRect>, q: seq<LeafRect>, x: int, y: int)
    ensures LeafCover(p + q, x, y) == LeafCover(p, x, y) + LeafCover(q, x, y)
  {
    if q == [] {
      assert p + q == p;
    } else {
      LeafCoverConcat(p, q[..|q| - 1], x, y);
      assert (p + q)[..|p + q| - 1] == p + q[..|q| - 1];
    }
  }

  lemma {:induction false} SepCoverConcat(p: seq<Separator>, q: seq<Separator>, x: int, y: int)
    ensures SepCover(p + q, x, y) == SepCover(p, x, y) + SepCover(q, x, y)
  {
    if q == [] {
      assert p + q == p;
    } else {
      SepCoverConcat(p, q[..|q| - 1], x, y);
      assert (p + q)[..|p + q| - 1] == p + q[..|q| - 1];
    }
  }

  lemma CoverJoined(p: Tiling, s: Separator, q: Tiling, x: int, y: int)
    ensures Cover(Joined(p, s, q), x, y) == Cover(p, x, y) + One(s.Cells().Contains(x, y)) + Cover(q, x, y)
  {
    LeafCoverConcat(p.leaves, q.leaves, x, y);
    SepCoverConcat(p.seps + [s], q.seps, x, y);
    SepCoverConcat(p.seps, [s], x, y);
    assert [s][..0] == [];
  }

  /** Every cell of the area lies in exactly one pane or separator, and nothing lies outside. */
  lemma {:induction false} ExactTiling(t: Tree, r: Rect, base: nat, x: int, y: int)
    requires r.w >= 0 && r.h >= 0
    ensures Cover(Layout(t, r, base), x, y) == One(r.Contains(x, y))
  {
    if t.Leaf? {
      assert [LeafRect(base, r)][..0] == [];
      assert LeafCover([], x, y) == 0 && SepCover([], x, y) == 0;
    } else if t.dir == VERT {
      if r.w < 3 {
        ExactTiling(t.a, r, base, x, y);
      } else {
        ExactTiling(t.a, LeftPart(r), base, x, y);
        ExactTiling(t.b, RightPart(r), base + Count(t.a), x, y);
        CoverJoined(Layout(t.a, LeftPart(r), base), VertSep(r), Layout(t.b, RightPart(r), base + Count(t.a)), x, y);
      }
    } else if r.h < 3 {
      ExactTiling(t.a, r, base, x, y);
    } else {
      ExactTiling(t.a, TopPart(r), base, x, y);
      ExactTiling(t.b, BottomPart(r), base + Count(t.a), x, y);
      CoverJoined(Layout(t.a, TopPart(r), base), HorizSep(r), Layout(t.b, BottomPart(r), base + Count(t.a)), x, y);
    }
  }

  function LeafArea(leaves: seq<LeafRect>): int {
    if leaves == [] then 0 else LeafArea(leaves[..|leaves| - 1]) + leaves[|leaves| - 1].rect.Area()
  }

  function SepLength(seps: seq<Separator>): int {
    if seps == [] then 0 else SepLength(seps[..|seps| - 1]) + seps[|seps| - 1].length
  }

  lemma {:induction false} LeafAreaConcat(p: seq<LeafRect>, q: seq<LeafRect>)
    ensures LeafArea(p + q) == LeafArea(p) + LeafArea(q)
  {
    if q == [] {
      assert p + q == p;
    } else {
      LeafAreaConcat(p, q[..|q| - 1]);
      assert (p + q)[..|p + q| - 1] == p + q[..|q| - 1];
    }
  }

  lemma {:induction false} SepLengthConcat(p: seq<Separator>, q: seq<Separator>)
    ensures SepLength(p + q) == SepLength(p) + SepLength(q)
  {
    if q == [] {
      assert p + q == p;
    } else {
      SepLengthConcat(p, q[..|q| - 1]);
      assert (p + q)[..|p + q| - 1] == p + q[..|q| - 1];
    }
  }

  lemma AreaJoined(p: Tiling, s: Separator, q: Tiling)
    ensures LeafArea(Joined(p, s, q).leaves) == LeafArea(p.leaves) + LeafArea(q.leaves)
    ensures SepLength(Joined(p, s, q).seps) == SepLength(p.seps) + s.length + SepLength(q.seps)
  {
    LeafAreaConcat(p.leaves, q.leaves);
    SepLengthConcat(p.seps + [s], q.seps);
    SepLengthConcat(p.seps, [s]);
    assert [s][..0] == [];
  }

  lemma SideBySideArea(r: Rect)
    requires r.w >= 3
    ensures LeftPart(r).Area() + RightPart(r).Area() + VertSep(r).length == r.Area()
  {
    var u, v, h := LeftPart(r).w, RightPart(r).w, r.h;
    assert (u + 1 + v) * h == u * h + h + v * h;
  }

  lemma StackedArea(r: Rect)
    requires r.h >= 3
    ensures TopPart(r).Area() + BottomPart(r).Area() + HorizSep(r).length == r.Area()
  {
    var u, v, w := TopPart(r).h, BottomPart(r).h, r.w;
    assert w * (u + 1 + v) == w * u + w + w * v;
  }

  /** The cells a tiling accounts for. */
  function TiledArea(p: Tiling): int {
    LeafArea(p.leaves) + SepLength(p.seps)
  }

  lemma TiledAreaJoined(p: Tiling, s: Separator, q: Tiling)
    ensures TiledArea(Joined(p, s, q)) == TiledArea(p) + TiledArea(q) + s.length
  {
    AreaJoined(p, s, q);
  }

  lemma TiledAreaOfLeaf(r: Rect, base: nat)
    ensures TiledArea(Tiling([LeafRect(base, r)], [])) == r.Area()
  {
    var one := [LeafRect(base, r)];
    assert one[..0] == [] && LeafArea(one) == LeafArea(one[..0]) + r.Area();
    assert LeafArea([]) == 0 && SepLength([]) == 0;
  }

  /** Pane areas and separator lengths add up to the area, whatever its sides. */
  lemma {:induction false} AreasAddUp(t: Tree, r: Rect, base: nat)
    ensures TiledArea(Layout(t, r, base)) == r.Area()
  {
    if t.Leaf? {
      TiledAreaOfLeaf(r, base);
    } else if t.dir == VERT && r.w >= 3 {
      var next := base + Count(t.a);
      AreasAddUp(t.a, LeftPart(r), base);
      AreasAddUp(t.b, RightPart(r), next);
      TiledAreaJoined(Layout(t.a, LeftPart(r), base), VertSep(r), Layout(t.b, RightPart(r), next));
      SideBySideArea(r);
    } else if t.dir != VERT && r.h >= 3 {
      var next := base + Count(t.a);
      AreasAddUp(t.a, TopPart(r), base);
      AreasAddUp(t.b, BottomPart(r), next);
      TiledAreaJoined(Layout(t.a, TopPart(r), base), HorizSep(r), Layout(t.b, BottomPart(r), next));
      StackedArea(r);
    } else {
      AreasAddUp(t.a, r, base);
    }
  }

  /** In an area with sides of at least one cell every pane drawn has sides of at least one cell. */
  lemma {:induction false} PanesAreVisible(t: Tree, r: Rect, base: nat, i: nat)
    requires r.w >= 1 && r.h >= 1 && i < |Layout(t, r, base).leaves|
    ensures Layout(t, r, base).leaves[i].rect.w >= 1 && Layout(t, r, base).leaves[i].rect.h >= 1
  {
    if t.Leaf? {
    } else if t.dir == VERT && r.w >= 3 {
      var n := |Layout(t.a, LeftPart(r), base).leaves|;
      if i < n {
        PanesAreVisible(t.a, LeftPart(r), base, i);
      } else {
        PanesAreVisible(t.b, RightPart(r), base + Count(t.a), i - n);
      }
    } else if t.dir != VERT && r.h >= 3 {
      var n := |Layout(t.a, TopPart(r), base).leaves|;
      if i < n {
        PanesAreVisible(t.a, TopPart(r), base, i);
      } else {
        PanesAreVisible(t.b, BottomPart(r), base + Count(t.a), i - n);
      }
    } else {
      PanesAreVisible(t.a, r, base, i);
    }
  }

  /** What is drawn is a selection of the leaves in traversal order. */
  lemma {:induction false} DrawnInOrder(t: Tree, r: Rect, base: nat, i: nat, j: nat)
    requires i <= j < |Layout(t, r, base).leaves|
    ensures base <= Layout(t, r, base).leaves[i].leaf <= Layout(t, r, base).leaves[j].leaf < base + Count(t)
    ensures i < j ==> Layout(t, r, base).leaves[i].leaf < Layout(t, r, base).leaves[j].leaf
    decreases Count(t), 1
  {
    if t.Leaf? {
    } else if t.dir == VERT && r.w >= 3 {
      DrawnInBoth(t.a, LeftPart(r), t.b, RightPart(r), base, i, j);
    } else if t.dir != VERT && r.h >= 3 {
      DrawnInBoth(t.a, TopPart(r), t.b, BottomPart(r), base, i, j);
    } else {
      DrawnInOrder(t.a, r, base, i, j);
    }
  }

  lemma {:induction false} DrawnInBoth(a: Tree, ra: Rect, b: Tree, rb: Rect, base: nat, i: nat, j: nat)
    requires i <= j < |Layout(a, ra, base).leaves + Layout(b, rb, base + Count(a)).leaves|
    ensures var both := Layout(a, ra, base).leaves + Layout(b, rb, base + Count(a)).leaves;
            && base <= both[i].leaf <= both[j].leaf < base + Count(a) + Count(b)
            && (i < j ==> both[i].leaf < both[j].leaf)
    decreases Count(a) + Count(b), 0
  {
    var n := |Layout(a, ra, base).leaves|;
    if j < n {
      DrawnInOrder(a, ra, base, i, j);
    } else {
      if i < n {
        DrawnInOrder(a, ra, base, i, i);
        DrawnInOrder(b, rb, base + Count(a), j - n, j - n);
      } else {
        DrawnInOrder(b, rb, base + Count(a), i - n, j - n);
      }
    }
  }

  predicate Within(p: Rect, r: Rect) {
    r.x <= p.x && p.x + p.w <= r.x + r.w && r.y <= p.y && p.y + p.h <= r.y + r.h && p.w >= 0 && p.h >= 0
  }

  lemma {:induction false} PanesStayInside(t: Tree, r: Rect, base: nat, i: nat)
    requires r.w >= 0 && r.h >= 0 && i < |Layout(t, r, base).leaves|
    ensures Within(Layout(t, r, base).leaves[i].rect, r)
  {
    if t.Leaf? {
    } else if t.dir == VERT && r.w >= 3 {
      var n := |Layout(t.a, LeftPart(r), base).leaves|;
      if i < n {
        PanesStayInside(t.a, LeftPart(r), base, i);
      } else {
        PanesStayInside(t.b, RightPart(r), base + Count(t.a), i - n);
      }
    } else if t.dir != VERT && r.h >= 3 {
      var n := |Layout(t.a, TopPart(r), base).leaves|;
      if i < n {
        PanesStayInside(t.a, TopPart(r), base, i);
      } else {
        PanesStayInside(t.b, BottomPart(r), base + Count(t.a), i - n);
      }
    } else {
      PanesStayInside(t.a, r, base, i);
    }
  }

  // ------------------------------------------------------------ no collapse

  function Max(a: int, b: int): int {
    if a < b then b else a
  }

  /** The least width in which no side-by-side split of `t` collapses. */
  function MinW(t: Tree): int {
    match t
    case Leaf(_) => 0
    case Split(dir, a, b) =>
      if dir == VERT then Max(3, Max(2 * MinW(a) + 1, 2 * MinW(b))) else Max(MinW(a), MinW(b))
  }

  /** The least height in which no stacked split of `t` collapses. */
  function MinH(t: Tree): int {
    match t
    case Leaf(_) => 0
    case Split(dir, a, b) =>
      if dir == VERT then Max(MinH(a), MinH(b)) else Max(3, Max(2 * MinH(a) + 1, 2 * MinH(b)))
  }

  predicate Fits(t: Tree, r: Rect) {
    r.w >= MinW(t) && r.h >= MinH(t)
  }

  /** Every leaf from position `base` on is drawn, in traversal order. */
  predicate ShowsAll(leaves: seq<LeafRect>, base: nat, n: nat) {
    |leaves| == n && forall i | 0 <= i < n :: leaves[i].leaf == base + i
  }

  lemma {:induction false} ShownAtMost(t: Tree, r: Rect, base: nat)
    ensures |Layout(t, r, base).leaves| <= Count(t)
  {
    if t.Leaf? {
    } else if t.dir == VERT && r.w >= 3 {
      ShownAtMost(t.a, LeftPart(r), base);
      ShownAtMost(t.b, RightPart(r), base + Count(t.a));
    } else if t.dir != VERT && r.h >= 3 {
      ShownAtMost(t.a, TopPart(r), base);
      ShownAtMost(t.b, BottomPart(r), base + Count(t.a));
    } else {
      ShownAtMost(t.a, r, base);
    }
  }

  /** The first pane is always drawn, whatever collapses. */
  lemma {:induction false} FirstPaneStays(t: Tree, r: Rect, base: nat)
    ensures Layout(t, r, base).leaves != [] && Layout(t, r, base).leaves[0].leaf == base
  {
    if t.Split? {
      if t.dir == VERT && r.w >= 3 {
        FirstPaneStays(t.a, LeftPart(r), base);
      } else if t.dir != VERT && r.h >= 3 {
        FirstPaneStays(t.a, TopPart(r), base);
      } else {
        FirstPaneStays(t.a, r, base);
      }
    }
  }

  lemma ShowsBoth(p: seq<LeafRect>, q: seq<LeafRect>, base: nat, m: nat, n: nat)
    requires |p| <= m && |q| <= n
    ensures ShowsAll(p + q, base, m + n) <==> ShowsAll(p, base, m) && ShowsAll(q, base + m, n)
  {
    if ShowsAll(p + q, base, m + n) {
      assert forall i | 0 <= i < m :: (p + q)[i] == p[i];
      assert forall i | 0 <= i < n :: (p + q)[m + i] == q[i];
    }
  }

  lemma FitsSplit(t: Tree, r: Rect)
    requires t.Split? && (if t.dir == VERT then r.w >= 3 else r.h >= 3)
    ensures t.dir == VERT ==> (Fits(t, r) <==> Fits(t.a, LeftPart(r)) && Fits(t.b, RightPart(r)))
    ensures t.dir != VERT ==> (Fits(t, r) <==> Fits(t.a, TopPart(r)) && Fits(t.b, BottomPart(r)))
  {
  }

  /** A split that does not collapse draws all panes of its halves, when each half does. */
  lemma SplitShowsAll(a: Tree, ra: Rect, b: Tree, rb: Rect, base: nat)
    ensures var p, q := Layout(a, ra, base).leaves, Layout(b, rb, base + Count(a)).leaves;
            ShowsAll(p + q, base, Count(a) + Count(b)) <==>
            ShowsAll(p, base, Count(a)) && ShowsAll(q, base + Count(a), Count(b))
  {
    ShownAtMost(a, ra, base);
    ShownAtMost(b, rb, base + Count(a));
    ShowsBoth(Layout(a, ra, base).leaves, Layout(b, rb, base + Count(a)).leaves, base, Count(a), Count(b));
  }

  /** All panes are drawn, in traversal order, exactly when the area is large enough; otherwise some
      pane is missing. */
  lemma {:induction false} NoCollapse(t: Tree, r: Rect, base: nat)
    requires r.w >= 0 && r.h >= 0
    ensures ShowsAll(Layout(t, r, base).leaves, base, Count(t)) <==> Fits(t, r)
  {
    if t.Leaf? {
    } else if t.dir == VERT && r.w >= 3 {
      NoCollapse(t.a, LeftPart(r), base);
      NoCollapse(t.b, RightPart(r), base + Count(t.a));
      SplitShowsAll(t.a, LeftPart(r), t.b, RightPart(r), base);
      FitsSplit(t, r);
    } else if t.dir != VERT && r.h >= 3 {
      NoCollapse(t.a, TopPart(r), base);
      NoCollapse(t.b, BottomPart(r), base + Count(t.a));
      SplitShowsAll(t.a, TopPart(r), t.b, BottomPart(r), base);
      FitsSplit(t, r);
    } else {
      ShownAtMost(t.a, r, base);
    }
  }

  function Pow2(n: nat): nat {
    if n == 0 then 1 else 2 * Pow2(n - 1)
  }

  /** The most side-by-side splits on a path from the root to a leaf. */
  function VertDepth(t: Tree): nat {
    match t
    case Leaf(_) => 0
    case Split(dir, a, b) => Max(VertDepth(a), VertDepth(b)) + One(dir == VERT)
  }

  function HorizDepth(t: Tree): nat {
    match t
    case Leaf(_) => 0
    case Split(dir, a, b) => Max(HorizDepth(a), HorizDepth(b)) + One(dir != VERT)
  }

  lemma {:induction false} Pow2Grows(m: nat, n: nat)
    requires m <= n
    ensures 1 <= Pow2(m) <= Pow2(n)
  {
    if m < n {
      Pow2Grows(m, n - 1);
    } else if m > 0 {
      Pow2Grows(m - 1, n - 1);
    }
  }

  lemma {:induction false} MinWBound(t: Tree)
    ensures MinW(t) <= Pow2(VertDepth(t) + 1) - 1
  {
    if t.Split? {
      MinWBound(t.a);
      MinWBound(t.b);
      var v := Max(VertDepth(t.a), VertDepth(t.b));
      Pow2Grows(VertDepth(t.a) + 1, v + 1);
      Pow2Grows(VertDepth(t.b) + 1, v + 1);
      Pow2Grows(1, v + 1);
    }
  }

  lemma {:induction false} MinHBound(t: Tree)
    ensures MinH(t) <= Pow2(HorizDepth(t) + 1) - 1
  {
    if t.Split? {
      MinHBound(t.a);
      MinHBound(t.b);
      var v := Max(HorizDepth(t.a), HorizDepth(t.b));
      Pow2Grows(HorizDepth(t.a) + 1, v + 1);
      Pow2Grows(HorizDepth(t.b) + 1, v + 1);
      Pow2Grows(1, v + 1);
    }
  }

  /** Enough room for every pane, by the depths of the tree alone. */
  lemma DeepEnough(t: Tree, r: Rect, base: nat)
    requires r.w >= Pow2(VertDepth(t) + 1) - 1 && r.h >= Pow2(HorizDepth(t) + 1) - 1
    ensures ShowsAll(Layout(t, r, base).leaves, base, Count(t))
  {
    MinWBound(t);
    MinHBound(t);
    Pow2Grows(0, VertDepth(t) + 1);
    Pow2Grows(0, HorizDepth(t) + 1);
    NoCollapse(t, r, base);
  }

  /** `n` splits in one direction, each of the first pane of the one before. */
  function Chain(n: nat, dir: SplitDir, shell: Option<Shell>): Tree {
    if n == 0 then Leaf(shell) else Split(dir, Chain(n - 1, dir, shell), Leaf(shell))
  }

  lemma {:induction false} ChainNeeds(n: nat, dir: SplitDir, shell: Option<Shell>)
    ensures var t, least := Chain(n, dir, shell), if n == 0 then 0 else Pow2(n + 1) - 1;
            if dir == VERT then VertDepth(t) == n && MinW(t) == least
            else HorizDepth(t) == n && MinH(t) == least
  {
    if n > 0 {
      ChainNeeds(n - 1, dir, shell);
      Pow2Grows(1, n);
    }
  }

  /** The bound is met with equality in both directions: one column less and a chain of side-by-side
      splits loses a pane, however high the area; one row less and a stacked chain does, however wide. */
  lemma BoundIsTight(n: nat, dir: SplitDir, shell: Option<Shell>, r: Rect, base: nat)
    requires n >= 1 && r.w >= 0 && r.h >= 0
    requires var t := Chain(n, dir, shell);
             if dir == VERT then r.w == Pow2(VertDepth(t) + 1) - 2 else r.h == Pow2(HorizDepth(t) + 1) - 2
    ensures var t := Chain(n, dir, shell); !ShowsAll(Layout(t, r, base).leaves, base, Count(t))
  {
    ChainNeeds(n, dir, shell);
    NoCollapse(Chain(n, dir, shell), r, base);
  }

  // --------------------------------------------------------------- neighbour

  const FAR := 1073741824

  /** Division that truncates toward zero. */
  function Half(n: int): int {
    if n < 0 then -((-n) / 2) else n / 2
  }

  function CentreX(r: Rect): int {
    r.x + Half(r.w)
  }

  function CentreY(r: Rect): int {
    r.y + Half(r.h)
  }

  function Abs(n: int): nat {
    if n < 0 then -n else n
  }

  function Distance(p: Rect, q: Rect): nat {
    Abs(CentreX(q) - CentreX(p)) + Abs(CentreY(q) - CentreY(p))
  }

  /** The centre of `q` lies strictly on the requested side of the centre of `p`. */
  predicate Beyond(p: Rect, q: Rect, dir: SplitDir, forward: bool) {
    if dir == VERT
    then if forward then CentreX(q) > CentreX(p) else CentreX(q) < CentreX(p)
    else if forward then CentreY(q) > CentreY(p) else CentreY(q) < CentreY(p)
  }

  predicate Candidate(leaves: seq<LeafRect>, i: nat, k: nat, dir: SplitDir, forward: bool)
    requires i < |leaves| && k < |leaves|
  {
    && leaves[k].leaf != leaves[i].leaf
    && Beyond(leaves[i].rect, leaves[k].rect, dir, forward)
    && Distance(leaves[i].rect, leaves[k].rect) < FAR
  }

  /** Candidate `k` is the nearest of the first `n`, and the first of those equally near. */
  ghost predicate Nearest(leaves: seq<LeafRect>, i: nat, k: nat, n: nat, dir: SplitDir, forward: bool)
    requires i < |leaves| && k < n <= |leaves|
  {
    && Candidate(leaves, i, k, dir, forward)
    && (forall m | 0 <= m < k && Candidate(leaves, i, m, dir, forward) ::
          Distance(leaves[i].rect, leaves[k].rect) < Distance(leaves[i].rect, leaves[m].rect))
    && (forall m | k <= m < n && Candidate(leaves, i, m, dir, forward) ::
          Distance(leaves[i].rect, leaves[k].rect) <= Distance(leaves[i].rect, leaves[m].rect))
  }

  ghost predicate IsNeighbor(leaves: seq<LeafRect>, i: nat, best: Option<nat>, n: nat, dir: SplitDir, forward: bool)
    requires i < |leaves| && n <= |leaves|
  {
    match best
    case None => forall m | 0 <= m < n :: !Candidate(leaves, i, m, dir, forward)
    case Some(leaf) => exists k | 0 <= k < n :: leaves[k].leaf == leaf && Nearest(leaves, i, k, n, dir, forward)
  }

  /** The centre of a pane is its middle column and row, the later one of two. */
  lemma CentreIsMiddle(r: Rect)
    requires r.w >= 1 && r.h >= 1
    ensures r.Contains(CentreX(r), CentreY(r))
    ensures var left, right := CentreX(r) - r.x, r.x + r.w - 1 - CentreX(r); right <= left <= right + 1
    ensures var above, below := CentreY(r) - r.y, r.y + r.h - 1 - CentreY(r); below <= above <= below + 1
  {
  }

  /** The distance is counted in cells along both axes: it is 0 exactly between equal centres, and a pane
      that moves away by some columns and rows gets farther by as many cells. */
  lemma DistanceCountsCells(p: Rect, q: Rect, columns: nat, rows: nat)
    ensures Distance(p, q) == 0 <==> CentreX(p) == CentreX(q) && CentreY(p) == CentreY(q)
    ensures Distance(q, p) == Distance(p, q)
    ensures CentreX(p) <= CentreX(q) && CentreY(p) <= CentreY(q) ==>
              Distance(p, q.(x := q.x + columns, y := q.y + rows)) == Distance(p, q) + columns + rows
    ensures CentreX(q) <= CentreX(p) && CentreY(q) <= CentreY(p) ==>
              Distance(p, q.(x := q.x - columns, y := q.y - rows)) == Distance(p, q) + columns + rows
  {
  }

  /** Position `i` is drawn in the first half of a split, position `j` in the second. */
  ghost predicate AcrossSplit(t: Tree, r: Rect, base: nat, i: nat, j: nat) {
    && t.Split? && r.w >= 1 && r.h >= 1 && (if t.dir == VERT then r.w >= 3 else r.h >= 3)
    && i < |Layout(t.a, if t.dir == VERT then LeftPart(r) else TopPart(r), base).leaves| <= j
    && j < |Layout(t, r, base).leaves|
  }

  lemma FirstHalf(t: Tree, r: Rect, base: nat, i: nat, j: nat)
    requires AcrossSplit(t, r, base, i, j)
    ensures var p, part := Layout(t, r, base).leaves[i].rect, if t.dir == VERT then LeftPart(r) else TopPart(r);
            Within(p, part) && p.w >= 1 && p.h >= 1
  {
    var part := if t.dir == VERT then LeftPart(r) else TopPart(r);
    PanesStayInside(t.a, part, base, i);
    PanesAreVisible(t.a, part, base, i);
  }

  lemma SecondHalf(t: Tree, r: Rect, base: nat, i: nat, j: nat)
    requires AcrossSplit(t, r, base, i, j)
    ensures var q, part := Layout(t, r, base).leaves[j].rect, if t.dir == VERT then RightPart(r) else BottomPart(r);
            Within(q, part) && q.w >= 1 && q.h >= 1
  {
    var part := if t.dir == VERT then RightPart(r) else BottomPart(r);
    var n := |Layout(t.a, if t.dir == VERT then LeftPart(r) else TopPart(r), base).leaves|;
    PanesStayInside(t.b, part, base + Count(t.a), j - n);
    PanesAreVisible(t.b, part, base + Count(t.a), j - n);
  }

  /** The panes across a separator lie on its two sides: right of and left of each other across an upright
      one, below and above across a lying one. */
  lemma SplitHasTwoSides(t: Tree, r: Rect, base: nat, i: nat, j: nat)
    requires AcrossSplit(t, r, base, i, j)
    ensures var p, q := Layout(t, r, base).leaves[i].rect, Layout(t, r, base).leaves[j].rect;
            && Beyond(p, q, t.dir, true) && Beyond(q, p, t.dir, false)
            && !Beyond(p, q, t.dir, false) && !Beyond(q, p, t.dir, true)
  {
    FirstHalf(t, r, base, i, j);
    SecondHalf(t, r, base, i, j);
  }

  method FindDrawn(leaves: seq<LeafRect>, focus: nat) returns (i: int)
    ensures -1 <= i < |leaves|
    ensures i >= 0 ==> leaves[i].leaf == focus
    ensures i < 0 ==> forall k | 0 <= k < |leaves| :: leaves[k].leaf != focus
  {
    i := 0;
    while i < |leaves|
      invariant 0 <= i <= |leaves|
      invariant forall k | 0 <= k < i :: leaves[k].leaf != focus
    {
      if leaves[i].leaf == focus {
        return;
      }
      i := i + 1;
    }
    return -1;
  }

  /** The search loop over the drawn panes, `i` being the place of the focus. */
  method Search(leaves: seq<LeafRect>, i: nat, dir: SplitDir, forward: bool) returns (best: Option<nat>)
    requires i < |leaves|
    ensures IsNeighbor(leaves, i, best, |leaves|, dir, forward)
  {
    var cur := leaves[i].rect;
    var curCX, curCY := CentreX(cur), CentreY(cur);
    best := None;
    var bestDist := FAR;
    ghost var at := 0;
    var k := 0;
    while k < |leaves|
      invariant 0 <= k <= |leaves|
      invariant best.None? ==> bestDist == FAR && forall m | 0 <= m < k :: !Candidate(leaves, i, m, dir, forward)
      invariant best.Some? ==> at < k && best.value == leaves[at].leaf && Nearest(leaves, i, at, k, dir, forward)
                               && bestDist == Distance(cur, leaves[at].rect)
    {
      var lr := leaves[k];
      var cx, cy := CentreX(lr.rect), CentreY(lr.rect);
      var dist := Abs(cx - curCX) + Abs(cy - curCY);
      var wrongSide :=
        if dir == VERT then (forward && cx <= curCX) || (!forward && cx >= curCX)
        else (forward && cy <= curCY) || (!forward && cy >= curCY);
      if lr.leaf != leaves[i].leaf && !wrongSide && dist < bestDist {
        bestDist, best, at := dist, Some(lr.leaf), k;
      }
      k := k + 1;
    }
  }

  /** The pane nearest to the focus whose centre lies on the requested side, or none. */
  method Neighbor(t: Tree, focus: nat, area: Rect, dir: SplitDir, forward: bool) returns (best: Option<nat>)
    ensures (forall k | 0 <= k < |Layout(t, area, 0).leaves| :: Layout(t, area, 0).leaves[k].leaf != focus)
              ==> best.None?
    ensures forall i | 0 <= i < |Layout(t, area, 0).leaves| && Layout(t, area, 0).leaves[i].leaf == focus ::
              IsNeighbor(Layout(t, area, 0).leaves, i, best, |Layout(t, area, 0).leaves|, dir, forward)
  {
    var leaves, _ := LayoutInto(t, area, 0, [], []);
    assert leaves == Layout(t, area, 0).leaves;
    var i := FindDrawn(leaves, focus);
    if i < 0 {
      return None;
    }
    best := Search(leaves, i, dir, forward);
    forall j | 0 <= j < |leaves| && leaves[j].leaf == focus ensures j == i {
      if j < i {
        DrawnInOrder(t, area, 0, j, i);
      } else if i < j {
        DrawnInOrder(t, area, 0, i, j);
      }
    }
  }

  /** On any screen smaller than the search's initial distance no neighbour is out of reach: there is
      one exactly when some pane's centre lies on that side. */
  lemma NothingIsOutOfReach(t: Tree, area: Rect, i: nat, k: nat, dir: SplitDir, forward: bool)
    requires area.w >= 0 && area.h >= 0 && area.w + area.h < FAR
    requires i < |Layout(t, area, 0).leaves| && k < |Layout(t, area, 0).leaves|
    ensures Candidate(Layout(t, area, 0).leaves, i, k, dir, forward) <==>
            Beyond(Layout(t, area, 0).leaves[i].rect, Layout(t, area, 0).leaves[k].rect, dir, forward)
  {
    PanesStayInside(t, area, 0, i);
    PanesStayInside(t, area, 0, k);
    var leaves := Layout(t, area, 0).leaves;
    if i < k {
      DrawnInOrder(t, area, 0, i, k);
    } else if k < i {
      DrawnInOrder(t, area, 0, k, i);
    }
  }
}
