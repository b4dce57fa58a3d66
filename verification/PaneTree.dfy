/**
  The split tree as linked nodes, edited in place. `Shape` is the ghost outline of a tree: which
  node is where. `Rep` says that the nodes' fields agree with it and that no node is shared.
 */
module PaneTrees {
  import opened Collections
  import opened Layouts
  import opened LayoutEdits

  class PaneNode {
    var dir: int
    var shell: Option<Shell>
    var children: seq<PaneNode>

    constructor (shell: Option<Shell>)
      ensures dir == LEAF && this.shell == shell && children == []
    {
      dir, this.shell, children := LEAF, shell, [];
    }
  }

  datatype Shape = Tip(node: PaneNode) | Fork(node: PaneNode, a: Shape, b: Shape)

  ghost function Nodes(s: Shape): set<PaneNode> {
    match s
    case Tip(n) => {n}
    case Fork(n, a, b) => {n} + Nodes(a) + Nodes(b)
  }

  /** The leaf nodes in traversal order. */
  ghost function Tips(s: Shape): seq<PaneNode> {
    match s
    case Tip(n) => [n]
    case Fork(_, a, b) => Tips(a) + Tips(b)
  }

  ghost predicate Rep(s: Shape)
    reads Nodes(s)
  {
    match s
    case Tip(n) => n.dir == LEAF
    case Fork(n, a, b) =>
      && n.dir != LEAF && n.children == [a.node, b.node]
      && n !in Nodes(a) && n !in Nodes(b) && Nodes(a) !! Nodes(b)
      && Rep(a) && Rep(b)
  }

  /** The tree that the nodes stand for. */
  ghost function TreeOf(s: Shape): Tree
    requires Rep(s)
    reads Nodes(s)
  {
    match s
    case Tip(n) => Leaf(n.shell)
    case Fork(n, a, b) => Split(n.dir, TreeOf(a), TreeOf(b))
  }

  /** Hangs two separate trees under `n`. */
  method SetChildren(n: PaneNode, children: seq<PaneNode>, ghost a: Shape, ghost b: Shape, ghost own: set<PaneNode>)
    requires n.dir != LEAF && children == [a.node, b.node]
    requires Rep(a) && Rep(b) && Nodes(a) !! Nodes(b) && n !in Nodes(a) && n !in Nodes(b) && Nodes(a) + Nodes(b) <= own
    modifies n`children
    ensures Rep(Fork(n, a, b))
    ensures TreeOf(Fork(n, a, b)) == Split(n.dir, old(TreeOf(a)), old(TreeOf(b)))
  {
    n.children := children;
  }

  /** What an edit that may lose the whole tree returns: the new root and its outline. */
  ghost predicate Stands(root: PaneNode?, out: Option<Shape>, t: Option<Tree>, nodes: set<PaneNode>)
    reads if out.Some? then Nodes(out.value) else {}
  {
    match out
    case None => root == null && t.None?
    case Some(s) => root == s.node && Nodes(s) <= nodes && Rep(s) && t == Some(TreeOf(s))
  }

  /** Walks the tree, appending every leaf. `own` is the set of its nodes. */
  method Walk(n: PaneNode, ghost s: Shape, ghost own: set<PaneNode>, acc: seq<PaneNode>) returns (out: seq<PaneNode>)
    requires Rep(s) && s.node == n && own == Nodes(s)
    ensures out == acc + Tips(s)
    decreases s
  {
    if n.dir == LEAF {
      return acc + [n];
    }
    out := Walk(n.children[0], s.a, Nodes(s.a), acc);
    out := Walk(n.children[1], s.b, Nodes(s.b), out);
  }

  ghost function Kid(s: Shape, i: nat): Shape
    requires s.Fork? && i < 2
  {
    if i == 0 then s.a else s.b
  }

  /** The outline with child `i` replaced. */
  ghost function Regraft(s: Shape, i: nat, kid: Shape): Shape
    requires s.Fork? && i < 2
  {
    if i == 0 then Fork(s.node, kid, s.b) else Fork(s.node, s.a, kid)
  }

  /** The tree with what is left of child `i`: without that child its sibling takes the parent's place. */
  function WithChild(t: Tree, i: nat, kid: Option<Tree>): Tree
    requires t.Split? && i < 2
  {
    if kid.None? then if i == 0 then t.b else t.a
    else if i == 0 then Split(t.dir, kid.value, t.b) else Split(t.dir, t.a, kid.value)
  }

  /** Removes the leaf holding shell `id`, its sibling taking the place of their parent. */
  method RemoveLeaf(n: PaneNode, ghost s: Shape, ghost own: set<PaneNode>, id: int)
    returns (root: PaneNode?, removed: bool, ghost out: Option<Shape>)
    requires Rep(s) && s.node == n && own == Nodes(s)
    modifies own`children
    ensures var r := Remove(old(TreeOf(s)), id); removed == r.removed && Stands(root, out, r.tree, own)
    ensures !removed ==> out == Some(s) && unchanged(own)
    decreases s, 1
  {
    if n.dir == LEAF {
      if HasId(n.shell, id) {
        return null, true, None;
      }
      return n, false, Some(s);
    }
    var i := 0;
    while i < |n.children|
      invariant 0 <= i <= 2
      invariant unchanged(own)
      invariant i > 0 ==> !Remove(old(TreeOf(s.a)), id).removed
      invariant i > 1 ==> !Remove(old(TreeOf(s.b)), id).removed
    {
      root, removed, out := RemoveFromChild(n, s, own, i, id);
      if removed {
        return;
      }
      i := i + 1;
    }
    return n, false, Some(s);
  }

  /** The body of the loop over the two children. */
  method RemoveFromChild(n: PaneNode, ghost s: Shape, ghost own: set<PaneNode>, i: nat, id: int)
    returns (root: PaneNode?, removed: bool, ghost out: Option<Shape>)
    requires Rep(s) && s.Fork? && s.node == n && own == Nodes(s) && i < 2
    modifies own`children
    ensures removed == Remove(old(TreeOf(Kid(s, i))), id).removed
    ensures removed ==>
              Stands(root, out, Some(WithChild(old(TreeOf(s)), i, Remove(old(TreeOf(Kid(s, i))), id).tree)), own)
    ensures !removed ==> unchanged(own)
    decreases s, 0
  {
    var child := n.children[i];
    if child.dir == LEAF {
      if HasId(child.shell, id) {
        return n.children[1 - i], true, Some(Kid(s, 1 - i));
      }
      return n, false, None;
    }
    ghost var kid;
    root, removed, kid := RemoveLeaf(child, Kid(s, i), Nodes(Kid(s, i)), id);
    if !removed {
      return n, false, None;
    }
    out := Some(Regraft(s, i, kid.value));
    SetChildren(n, n.children[i := root], out.value.a, out.value.b, own);
    return n, true, out;
  }

  /** Drops the leaves whose pane is not alive. */
  method PruneDeadLeaves(n: PaneNode, ghost s: Shape, ghost own: set<PaneNode>, alive: set<string>)
    returns (root: PaneNode?, ghost out: Option<Shape>)
    requires Rep(s) && s.node == n && own == Nodes(s)
    modifies own`children
    ensures Stands(root, out, Prune(old(TreeOf(s)), alive), own)
    decreases s
  {
    if n.dir == LEAF {
      if n.shell.Some? && n.shell.value.pane in alive {
        return n, Some(s);
      }
      return null, None;
    }
    var a, outA := PruneDeadLeaves(n.children[0], s.a, Nodes(s.a), alive);
    var b, outB := PruneDeadLeaves(n.children[1], s.b, Nodes(s.b), alive);
    if a == null {
      return b, outB;
    }
    if b == null {
      return a, outA;
    }
    SetChildren(n, [a, b], outA.value, outB.value, own);
    return n, Some(Fork(n, outA.value, outB.value));
  }

  /** A node of the tree is one of its leaves exactly when its fields say so. The edits change no
      direction, so the leaves that remain are the very nodes they were. */
  lemma {:induction false} LeavesAreTips(s: Shape, m: PaneNode)
    requires Rep(s) && m in Nodes(s)
    ensures m.dir == LEAF <==> m in Tips(s)
  {
    TipsAreNodes(s);
    if s.Fork? {
      if m in Nodes(s.a) {
        LeavesAreTips(s.a, m);
        TipsAreNodes(s.b);
      } else if m in Nodes(s.b) {
        LeavesAreTips(s.b, m);
        TipsAreNodes(s.a);
      } else {
        TipsAreNodes(s.a);
        TipsAreNodes(s.b);
      }
    }
  }

  lemma {:induction false} TipsAreNodes(s: Shape)
    ensures forall m | m in Tips(s) :: m in Nodes(s)
  {
    if s.Fork? {
      TipsAreNodes(s.a);
      TipsAreNodes(s.b);
    }
  }

  lemma {:induction false} TipsHoldTheLeaves(s: Shape, k: nat)
    requires Rep(s)
    ensures |Tips(s)| == Count(TreeOf(s)) == |Leaves(TreeOf(s))|
    ensures k < |Tips(s)| ==> Tips(s)[k] in Nodes(s) && Leaves(TreeOf(s))[k] == Tips(s)[k].shell
  {
    if s.Fork? {
      TipsHoldTheLeaves(s.a, k);
      TipsHoldTheLeaves(s.b, if k < |Tips(s.a)| then 0 else k - |Tips(s.a)|);
    }
  }

  /** The outline after leaf `k` was split into two new nodes. */
  ghost function SplitShape(s: Shape, k: nat, orig: PaneNode, created: PaneNode): Shape
    requires k < |Tips(s)|
  {
    match s
    case Tip(n) => Fork(n, Tip(orig), Tip(created))
    case Fork(n, a, b) =>
      if k < |Tips(a)| then Fork(n, SplitShape(a, k, orig, created), b)
      else Fork(n, a, SplitShape(b, k - |Tips(a)|, orig, created))
  }

  lemma {:induction false} SplitAdds(s: Shape, k: nat, orig: PaneNode, created: PaneNode)
    requires k < |Tips(s)|
    ensures Nodes(SplitShape(s, k, orig, created)) == Nodes(s) + {orig, created}
    ensures SplitShape(s, k, orig, created).node == s.node
  {
    if s.Fork? {
      if k < |Tips(s.a)| {
        SplitAdds(s.a, k, orig, created);
      } else {
        SplitAdds(s.b, k - |Tips(s.a)|, orig, created);
      }
    }
  }

  /** Everything `Rep` says except about leaf `k` itself. */
  ghost predicate RepAround(s: Shape, k: nat)
    requires k < |Tips(s)|
    reads Nodes(s) - {Tips(s)[k]}
  {
    match s
    case Tip(_) => true
    case Fork(n, a, b) =>
      TipsAreNodes(a);
      TipsAreNodes(b);
      && n !in Nodes(a) && n !in Nodes(b) && Nodes(a) !! Nodes(b)
      && n.dir != LEAF && n.children == [a.node, b.node]
      && if k < |Tips(a)| then RepAround(a, k) && Rep(b) else Rep(a) && RepAround(b, k - |Tips(a)|)
  }

  /** The tree with `part` in the place of leaf `k`. */
  ghost function TreeAround(s: Shape, k: nat, part: Tree): Tree
    requires k < |Tips(s)| && RepAround(s, k)
    reads Nodes(s) - {Tips(s)[k]}
  {
    match s
    case Tip(_) => part
    case Fork(n, a, b) =>
      TipsAreNodes(a);
      TipsAreNodes(b);
      if k < |Tips(a)| then Split(n.dir, TreeAround(a, k, part), TreeOf(b))
      else Split(n.dir, TreeOf(a), TreeAround(b, k - |Tips(a)|, part))
  }

  lemma {:induction false} Around(s: Shape, k: nat)
    requires Rep(s) && k < |Tips(s)|
    ensures RepAround(s, k) && TreeOf(s) == TreeAround(s, k, Leaf(Tips(s)[k].shell))
  {
    if s.Fork? {
      TipsAreNodes(s.a);
      TipsAreNodes(s.b);
      if k < |Tips(s.a)| {
        Around(s.a, k);
      } else {
        Around(s.b, k - |Tips(s.a)|);
      }
    }
  }

  /** When leaf `k` has become a fork of two new leaves the nodes stand for the enlarged tree. */
  lemma {:induction false} Grafted(s: Shape, k: nat, target: PaneNode, orig: PaneNode, created: PaneNode)
    requires k < |Tips(s)| && RepAround(s, k) && Tips(s)[k] == target
    requires orig !in Nodes(s) && created !in Nodes(s) && orig != created
    requires target.dir != LEAF && target.children == [orig, created] && orig.dir == LEAF && created.dir == LEAF
    ensures var grown := SplitShape(s, k, orig, created);
            Rep(grown)
            && TreeOf(grown) == TreeAround(s, k, Split(target.dir, Leaf(orig.shell), Leaf(created.shell)))
  {
    if s.Fork? {
      if k < |Tips(s.a)| {
        Grafted(s.a, k, target, orig, created);
        SplitAdds(s.a, k, orig, created);
      } else {
        Grafted(s.b, k - |Tips(s.a)|, target, orig, created);
        SplitAdds(s.b, k - |Tips(s.a)|, orig, created);
      }
    }
  }

  lemma {:induction false} SplitAround(s: Shape, k: nat, mine: Option<Shell>, shell: Option<Shell>, dir: SplitDir)
    requires k < |Tips(s)| && RepAround(s, k)
    ensures |Tips(s)| == Count(TreeAround(s, k, Leaf(mine)))
    ensures SplitAt(TreeAround(s, k, Leaf(mine)), k, shell, dir)
            == TreeAround(s, k, Split(dir, Leaf(mine), Leaf(shell)))
  {
    if s.Fork? {
      if k < |Tips(s.a)| {
        SplitAround(s.a, k, mine, shell, dir);
        TipsHoldTheLeaves(s.b, 0);
      } else {
        SplitAround(s.b, k - |Tips(s.a)|, mine, shell, dir);
        TipsHoldTheLeaves(s.a, 0);
      }
    }
  }

  /** Turns a leaf of the tree `s` into a fork of its own shell and the new one. */
  method SplitLeaf(target: PaneNode, shell: Option<Shell>, dir: SplitDir,
                   ghost s: Shape, ghost own: set<PaneNode>, ghost k: nat)
    returns (created: PaneNode?, ghost out: Shape)
    requires Rep(s) && own == Nodes(s) && target in own
    requires target.dir == LEAF ==> k < |Tips(s)| && Tips(s)[k] == target
    modifies target
    ensures created == null <==> old(target.dir) != LEAF
    ensures created == null ==> out == s && unchanged(target)
    ensures created != null ==>
              && fresh(created) && created.shell == shell && Rep(out)
              && |Tips(s)| == Count(old(TreeOf(s)))
              && TreeOf(out) == SplitAt(old(TreeOf(s)), k, shell, dir)
  {
    if target.dir != LEAF {
      return null, s;
    }
    Around(s, k);
    ghost var mine := target.shell;
    SplitAround(s, k, mine, shell, dir);
    var orig := new PaneNode(target.shell);
    created := new PaneNode(shell);
    target.dir := dir;
    target.shell := None;
    target.children := [orig, created];
    SplitAround(s, k, mine, shell, dir);
    Grafted(s, k, target, orig, created);
    out := SplitShape(s, k, orig, created);
  }
}
