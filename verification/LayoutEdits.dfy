/** Edits of the split tree, and its serial form. */
module LayoutEdits {
  import opened Collections
  import opened Layouts

  // ---------------------------------------------------------------- removal

  predicate HasId(shell: Option<Shell>, id: int) {
    shell.Some? && shell.value.id == id
  }

  /** What removing the shell `id` leaves: the tree, if anything of it remains, and whether the shell was found. */
  datatype Removal = Removal(tree: Option<Tree>, removed: bool)

  function Remove(t: Tree, id: int): Removal {
    match t
    case Leaf(shell) => if HasId(shell, id) then Removal(None, true) else Removal(Some(t), false)
    case Split(dir, a, b) =>
      var ra := Remove(a, id);
      if ra.removed then Removal(Some(if ra.tree.None? then b else Split(dir, ra.tree.value, b)), true)
      else
        var rb := Remove(b, id);
        if rb.removed then Removal(Some(if rb.tree.None? then a else Split(dir, a, rb.tree.value)), true)
        else Removal(Some(t), false)
  }

  function LeavesOf(t: Option<Tree>): seq<Option<Shell>> {
    if t.None? then [] else Leaves(t.value)
  }

  /** The position of the first leaf with shell `id`, or -1. */
  function FirstWith(leaves: seq<Option<Shell>>, id: int): (k: int)
    ensures -1 <= k < |leaves|
  {
    if leaves == [] then -1
    else
      var k := FirstWith(leaves[..|leaves| - 1], id);
      if k >= 0 then k
      else if HasId(leaves[|leaves| - 1], id) then |leaves| - 1
      else -1
  }

  function DropAt<T>(s: seq<T>, k: nat): seq<T>
    requires k < |s|
  {
    s[..k] + s[k + 1..]
  }

  lemma {:induction false} FirstWithIs(leaves: seq<Option<Shell>>, id: int, i: nat)
    requires i < |leaves|
    ensures FirstWith(leaves, id) >= 0 ==> HasId(leaves[FirstWith(leaves, id)], id)
    ensures HasId(leaves[i], id) ==> 0 <= FirstWith(leaves, id) <= i
  {
    if i < |leaves| - 1 {
      FirstWithIs(leaves[..|leaves| - 1], id, i);
    } else if i > 0 {
      FirstWithIs(leaves[..|leaves| - 1], id, i - 1);
    }
  }

  lemma {:induction false} FirstWithConcat(p: seq<Option<Shell>>, q: seq<Option<Shell>>, id: int)
    ensures FirstWith(p + q, id) ==
            if FirstWith(p, id) >= 0 then FirstWith(p, id)
            else if FirstWith(q, id) >= 0 then |p| + FirstWith(q, id) else -1
  {
    if q == [] {
      assert p + q == p;
    } else {
      FirstWithConcat(p, q[..|q| - 1], id);
      assert (p + q)[..|p + q| - 1] == p + q[..|q| - 1];
    }
  }

  lemma DropConcat<T>(p: seq<T>, q: seq<T>, k: nat)
    requires k < |p + q|
    ensures DropAt(p + q, k) == if k < |p| then DropAt(p, k) + q else p + DropAt(q, k - |p|)
  {
    if k < |p| {
      assert DropAt(p + q, k) == DropAt(p, k) + q;
    } else {
      assert DropAt(p + q, k) == p + DropAt(q, k - |p|);
    }
  }

  /** The leaves without the first one that holds shell `id`. */
  function Shorn(leaves: seq<Option<Shell>>, id: int): seq<Option<Shell>> {
    if FirstWith(leaves, id) >= 0 then DropAt(leaves, FirstWith(leaves, id)) else leaves
  }

  lemma ShornConcat(p: seq<Option<Shell>>, q: seq<Option<Shell>>, id: int)
    ensures Shorn(p + q, id) == if FirstWith(p, id) >= 0 then Shorn(p, id) + q else p + Shorn(q, id)
  {
    FirstWithConcat(p, q, id);
    var k := FirstWith(p + q, id);
    if k >= 0 {
      DropConcat(p, q, k);
    }
  }

  lemma ShornSingle(shell: Option<Shell>, id: int)
    ensures FirstWith([shell], id) == if HasId(shell, id) then 0 else -1
    ensures Shorn([shell], id) == if HasId(shell, id) then [] else [shell]
  {
    assert [shell][..0] == [];
    assert FirstWith([], id) == -1;
  }

  lemma {:induction false} RemoveFindsTheShell(t: Tree, id: int)
    ensures Remove(t, id).removed <==> FirstWith(Leaves(t), id) >= 0
    ensures !Remove(t, id).removed ==> Remove(t, id).tree == Some(t)
  {
    if t.Leaf? {
      ShornSingle(t.shell, id);
    } else {
      RemoveFindsTheShell(t.a, id);
      RemoveFindsTheShell(t.b, id);
      FirstWithConcat(Leaves(t.a), Leaves(t.b), id);
    }
  }

  /** Removal works on the first subtree that holds the shell. */
  lemma RemoveInSplit(t: Tree, id: int)
    requires t.Split?
    ensures LeavesOf(Remove(t, id).tree) ==
            if Remove(t.a, id).removed then LeavesOf(Remove(t.a, id).tree) + Leaves(t.b)
            else Leaves(t.a) + LeavesOf(Remove(t.b, id).tree)
  {
    RemoveFindsTheShell(t.b, id);
  }

  /** Removal deletes exactly the first leaf with that shell and keeps the others in order. */
  lemma {:induction false} RemoveDropsOneLeaf(t: Tree, id: int)
    ensures LeavesOf(Remove(t, id).tree) == Shorn(Leaves(t), id)
  {
    if t.Leaf? {
      ShornSingle(t.shell, id);
    } else {
      RemoveDropsOneLeaf(t.a, id);
      RemoveDropsOneLeaf(t.b, id);
      RemoveInSplit(t, id);
      RemoveFindsTheShell(t.a, id);
      ShornConcat(Leaves(t.a), Leaves(t.b), id);
      assert Leaves(t) == Leaves(t.a) + Leaves(t.b);
    }
  }

  // ---------------------------------------------------------------- pruning

  predicate IsAlive(shell: Option<Shell>, alive: set<string>) {
    shell.Some? && shell.value.pane in alive
  }

  function Collapse(dir: SplitDir, a: Option<Tree>, b: Option<Tree>): Option<Tree> {
    if a.None? then b
    else if b.None? then a
    else Some(Split(dir, a.value, b.value))
  }

  function Prune(t: Tree, alive: set<string>): Option<Tree> {
    match t
    case Leaf(shell) => if IsAlive(shell, alive) then Some(t) else None
    case Split(dir, a, b) => Collapse(dir, Prune(a, alive), Prune(b, alive))
  }

  function AliveIn(leaves: seq<Option<Shell>>, alive: set<string>): seq<Option<Shell>> {
    if leaves == [] then [] else
      AliveIn(leaves[..|leaves| - 1], alive) +
      if IsAlive(leaves[|leaves| - 1], alive) then [leaves[|leaves| - 1]] else []
  }

  lemma {:induction false} AliveConcat(p: seq<Option<Shell>>, q: seq<Option<Shell>>, alive: set<string>)
    ensures AliveIn(p + q, alive) == AliveIn(p, alive) + AliveIn(q, alive)
  {
    if q == [] {
      assert p + q == p;
    } else {
      AliveConcat(p, q[..|q| - 1], alive);
      assert (p + q)[..|p + q| - 1] == p + q[..|q| - 1];
    }
  }

  /** Pruning keeps exactly the leaves whose pane is alive, in order. */
  lemma {:induction false} PruneFiltersLeaves(t: Tree, alive: set<string>)
    ensures LeavesOf(Prune(t, alive)) == AliveIn(Leaves(t), alive)
  {
    match t {
      case Leaf(shell) =>
        assert [shell][..0] == [];
        assert AliveIn([], alive) == [];
      case Split(_, a, b) =>
        PruneFiltersLeaves(a, alive);
        PruneFiltersLeaves(b, alive);
        AliveConcat(Leaves(a), Leaves(b), alive);
    }
  }

  // --------------------------------------- pruning is removal, in any order

  /** `t` without the leaves whose shell id is in `dead`. */
  function Restrict(t: Tree, dead: set<int>): Option<Tree> {
    match t
    case Leaf(shell) => if shell.Some? && shell.value.id in dead then None else Some(t)
    case Split(dir, a, b) => Collapse(dir, Restrict(a, dead), Restrict(b, dead))
  }

  function RestrictAgain(t: Option<Tree>, dead: set<int>): Option<Tree> {
    if t.None? then None else Restrict(t.value, dead)
  }

  function Ids(t: Tree): set<int> {
    match t
    case Leaf(shell) => if shell.Some? then {shell.value.id} else {}
    case Split(_, a, b) => Ids(a) + Ids(b)
  }

  predicate UniqueIds(t: Tree) {
    t.Split? ==> UniqueIds(t.a) && UniqueIds(t.b) && Ids(t.a) !! Ids(t.b)
  }

  lemma {:induction false} RestrictNothing(t: Tree, dead: set<int>)
    requires Ids(t) !! dead
    ensures Restrict(t, dead) == Some(t)
  {
    if t.Split? {
      RestrictNothing(t.a, dead);
      RestrictNothing(t.b, dead);
    }
  }

  lemma {:induction false} RestrictTwice(t: Tree, first: set<int>, second: set<int>)
    ensures RestrictAgain(Restrict(t, first), second) == Restrict(t, first + second)
  {
    if t.Split? {
      RestrictTwice(t.a, first, second);
      RestrictTwice(t.b, first, second);
    }
  }

  lemma {:induction false} RemoveIsRestrict(t: Tree, id: int)
    requires UniqueIds(t)
    ensures Remove(t, id) == Removal(Restrict(t, {id}), id in Ids(t))
  {
    if t.Split? {
      RemoveIsRestrict(t.a, id);
      RemoveIsRestrict(t.b, id);
      if id !in Ids(t.a) {
        RestrictNothing(t.a, {id});
      }
      if id !in Ids(t.b) {
        RestrictNothing(t.b, {id});
      }
    }
  }

  lemma {:induction false} RestrictKeepsUnique(t: Tree, dead: set<int>)
    requires UniqueIds(t)
    ensures Restrict(t, dead).Some? ==>
              UniqueIds(Restrict(t, dead).value) && Ids(Restrict(t, dead).value) == Ids(t) - dead
    ensures Restrict(t, dead).None? ==> Ids(t) <= dead
  {
    if t.Split? {
      RestrictKeepsUnique(t.a, dead);
      RestrictKeepsUnique(t.b, dead);
    }
  }

  /** Removing shells one after another, until nothing is left. */
  function RemoveEach(t: Option<Tree>, ids: seq<int>): Option<Tree> {
    if ids == [] then t else
      var rest := RemoveEach(t, ids[..|ids| - 1]);
      if rest.None? then None else Remove(rest.value, ids[|ids| - 1]).tree
  }

  lemma {:induction false} RemoveEachIsRestrict(t: Tree, ids: seq<int>)
    requires UniqueIds(t)
    ensures RemoveEach(Some(t), ids) == Restrict(t, Elements(ids))
  {
    if ids == [] {
      RestrictNothing(t, Elements(ids));
    } else {
      var front, last := ids[..|ids| - 1], ids[|ids| - 1];
      RemoveEachIsRestrict(t, front);
      RestrictKeepsUnique(t, Elements(front));
      var rest := Restrict(t, Elements(front));
      if rest.Some? {
        RemoveIsRestrict(rest.value, last);
      }
      RestrictTwice(t, Elements(front), {last});
      assert ids == front + [last];
      assert Elements(ids) == Elements(front) + {last};
    }
  }

  /** Exactly the shells of dead panes have their id in `dead`, and every leaf holds a shell. */
  predicate Marks(t: Tree, alive: set<string>, dead: set<int>) {
    match t
    case Leaf(shell) => shell.Some? && (shell.value.id in dead <==> shell.value.pane !in alive)
    case Split(_, a, b) => Marks(a, alive, dead) && Marks(b, alive, dead)
  }

  lemma {:induction false} PruneIsRestrict(t: Tree, alive: set<string>, dead: set<int>)
    requires Marks(t, alive, dead)
    ensures Prune(t, alive) == Restrict(t, dead)
  {
    if t.Split? {
      PruneIsRestrict(t.a, alive, dead);
      PruneIsRestrict(t.b, alive, dead);
    }
  }

  /** Pruning gives the very tree that removing the dead leaves one by one gives, in any order. */
  lemma PruneIsRemovalInAnyOrder(t: Tree, alive: set<string>, order: seq<int>)
    requires UniqueIds(t) && Marks(t, alive, Elements(order))
    ensures Prune(t, alive) == RemoveEach(Some(t), order)
  {
    PruneIsRestrict(t, alive, Elements(order));
    RemoveEachIsRestrict(t, order);
  }

  // --------------------------------------------------------------- splitting

  /** Leaf `k` split in two, the new shell second. */
  function SplitAt(t: Tree, k: nat, shell: Option<Shell>, dir: SplitDir): Tree
    requires k < Count(t)
  {
    match t
    case Leaf(_) => Split(dir, t, Leaf(shell))
    case Split(d, a, b) =>
      if k < Count(a) then Split(d, SplitAt(a, k, shell, dir), b) else Split(d, a, SplitAt(b, k - Count(a), shell, dir))
  }

  lemma {:induction false} CountsLeaves(t: Tree)
    ensures Count(t) == |Leaves(t)|
  {
    if t.Split? {
      CountsLeaves(t.a);
      CountsLeaves(t.b);
    }
  }

  /** The new shell comes right after the one that was split; the others keep their order. */
  lemma {:induction false} SplitInsertsAfter(t: Tree, k: nat, shell: Option<Shell>, dir: SplitDir)
    requires k < Count(t)
    ensures |Leaves(t)| == Count(t)
    ensures Leaves(SplitAt(t, k, shell, dir)) == Leaves(t)[..k + 1] + [shell] + Leaves(t)[k + 1..]
  {
    CountsLeaves(t);
    if t.Split? {
      CountsLeaves(t.a);
      var p, q := Leaves(t.a), Leaves(t.b);
      if k < Count(t.a) {
        SplitInsertsAfter(t.a, k, shell, dir);
        assert (p + q)[..k + 1] == p[..k + 1] && (p + q)[k + 1..] == p[k + 1..] + q;
      } else {
        var j := k - |p|;
        SplitInsertsAfter(t.b, j, shell, dir);
        assert (p + q)[..k + 1] == p + q[..j + 1] && (p + q)[k + 1..] == q[j + 1..];
      }
    }
  }

  /** How many splits of a tree run in one direction. */
  function SplitsIn(t: Tree, dir: SplitDir): nat {
    match t
    case Leaf(_) => 0
    case Split(d, a, b) => SplitsIn(a, dir) + SplitsIn(b, dir) + if d == dir then 1 else 0
  }

  /** Splitting adds one split, in the direction asked for. */
  lemma {:induction false} SplitAddsOneSplit(t: Tree, k: nat, shell: Option<Shell>, dir: SplitDir, other: SplitDir)
    requires k < Count(t)
    ensures SplitsIn(SplitAt(t, k, shell, dir), other) == SplitsIn(t, other) + if other == dir then 1 else 0
  {
    if t.Split? {
      if k < Count(t.a) {
        SplitAddsOneSplit(t.a, k, shell, dir, other);
      } else {
        SplitAddsOneSplit(t.b, k - Count(t.a), shell, dir, other);
      }
    }
  }

  /** Removing the shell just split off restores the tree. */
  lemma {:induction false} RemoveUndoesSplit(t: Tree, k: nat, shell: Shell, dir: SplitDir)
    requires k < Count(t) && shell.id !in Ids(t)
    ensures Remove(SplitAt(t, k, Some(shell), dir), shell.id) == Removal(Some(t), true)
  {
    if t.Split? {
      if k < Count(t.a) {
        RemoveUndoesSplit(t.a, k, shell, dir);
      } else {
        RemoveUndoesSplit(t.b, k - Count(t.a), shell, dir);
        NotThere(t.a, shell.id);
      }
    } else {
      NotThere(t, shell.id);
    }
  }

  lemma {:induction false} NotThere(t: Tree, id: int)
    requires id !in Ids(t)
    ensures Remove(t, id) == Removal(Some(t), false)
  {
    if t.Split? {
      NotThere(t.a, id);
      NotThere(t.b, id);
    }
  }

  // ------------------------------------------------------------- serial form

  datatype SerialNode = SerialNode(dir: int, pane: string, children: seq<SerialNode>)

  function PaneOf(shell: Option<Shell>): string {
    if shell.Some? then shell.value.pane else ""
  }

  function ToSerial(t: Option<Tree>): SerialNode {
    if t.None? then SerialNode(LEAF, "", []) else SerialOf(t.value)
  }

  function SerialOf(t: Tree): SerialNode {
    match t
    case Leaf(shell) => SerialNode(LEAF, PaneOf(shell), [])
    case Split(dir, a, b) => SerialNode(dir, "", [SerialOf(a), SerialOf(b)])
  }

  const PLACEHOLDER_ID := 0

  function FromSerial(s: SerialNode): Tree {
    if |s.children| != 2 || s.dir == LEAF then Leaf(Some(Shell(PLACEHOLDER_ID, s.pane)))
    else Split(s.dir, FromSerial(s.children[0]), FromSerial(s.children[1]))
  }

  /** The same splits over placeholders that carry only the pane names, and no id but 0. */
  function Placeholders(t: Tree): Tree {
    match t
    case Leaf(shell) => Leaf(Some(Shell(0, PaneOf(shell))))
    case Split(dir, a, b) => Split(dir, Placeholders(a), Placeholders(b))
  }

  /** The serial form keeps the splits and the pane names of any tree. */
  lemma {:induction false} SerialRoundTrip(t: Tree)
    ensures FromSerial(ToSerial(Some(t))) == Placeholders(t)
  {
    if t.Split? {
      SerialRoundTrip(t.a);
      SerialRoundTrip(t.b);
    }
  }

  /** A node as `ToSerial` writes it. */
  predicate Canonical(s: SerialNode) {
    if s.dir == LEAF then s.children == []
    else s.pane == "" && |s.children| == 2 && Canonical(s.children[0]) && Canonical(s.children[1])
  }

  /** Reading a node and writing it again changes it exactly when it was not canonical. */
  lemma {:induction false} SerialIsCanonical(s: SerialNode)
    ensures ToSerial(Some(FromSerial(s))) == s <==> Canonical(s)
  {
    if |s.children| == 2 && s.dir != LEAF {
      SerialIsCanonical(s.children[0]);
      SerialIsCanonical(s.children[1]);
      assert s.children == [s.children[0], s.children[1]];
    }
  }

  function NamesIn(leaves: seq<Option<Shell>>): seq<string> {
    if leaves == [] then [] else
      NamesIn(leaves[..|leaves| - 1]) +
      if PaneOf(leaves[|leaves| - 1]) == "" then [] else [PaneOf(leaves[|leaves| - 1])]
  }

  function PaneNamesOf(t: Option<Tree>): seq<string> {
    NamesIn(LeavesOf(t))
  }

  method PaneNames(t: Option<Tree>) returns (names: seq<string>)
    ensures names == PaneNamesOf(t)
  {
    names := [];
    if t.None? {
      return;
    }
    var leaves := Leaves(t.value);
    var i := 0;
    while i < |leaves|
      invariant 0 <= i <= |leaves|
      invariant names == NamesIn(leaves[..i])
    {
      assert leaves[..i + 1][..i] == leaves[..i];
      if leaves[i].Some? && leaves[i].value.pane != "" {
        names := names + [leaves[i].value.pane];
      }
      i := i + 1;
    }
    assert leaves[..i] == leaves;
  }

  lemma {:induction false} NamesConcat(p: seq<Option<Shell>>, q: seq<Option<Shell>>)
    ensures NamesIn(p + q) == NamesIn(p) + NamesIn(q)
  {
    if q == [] {
      assert p + q == p;
    } else {
      var front, last := q[..|q| - 1], q[|q| - 1];
      NamesConcat(p, front);
      assert (p + q)[..|p + q| - 1] == p + front && (p + q)[|p + q| - 1] == last;
      assert NamesIn(p + q) == NamesIn(p + front) + if PaneOf(last) == "" then [] else [PaneOf(last)];
    }
  }

  /** Restoring a layout asks for the panes that were saved, in the same order. */
  lemma {:induction false} RestoreNamesTheSamePanes(t: Tree)
    ensures PaneNamesOf(Some(FromSerial(ToSerial(Some(t))))) == PaneNamesOf(Some(t))
  {
    SerialRoundTrip(t);
    if t.Split? {
      RestoreNamesTheSamePanes(t.a);
      RestoreNamesTheSamePanes(t.b);
      SerialRoundTrip(t.a);
      SerialRoundTrip(t.b);
      NamesConcat(Leaves(t.a), Leaves(t.b));
      NamesConcat(Leaves(Placeholders(t.a)), Leaves(Placeholders(t.b)));
    } else {
      assert [t.shell][..0] == [];
    }
  }

  lemma {:induction false} NamesOfAlive(leaves: seq<Option<Shell>>, alive: set<string>, name: string)
    requires name != ""
    ensures name in NamesIn(AliveIn(leaves, alive)) <==> name in NamesIn(leaves) && name in alive
  {
    if leaves != [] {
      var front, last := leaves[..|leaves| - 1], leaves[|leaves| - 1];
      NamesOfAlive(front, alive, name);
      if IsAlive(last, alive) {
        NamesConcat(AliveIn(front, alive), [last]);
        assert [last][..0] == [];
      } else {
        assert AliveIn(leaves, alive) == AliveIn(front, alive);
      }
    }
  }

  /** Of the panes saved in a layout, the restored and pruned tree names those still alive. */
  lemma RestoredPanesAreAlive(t: Tree, alive: set<string>, name: string)
    requires name != ""
    ensures name in PaneNamesOf(Prune(FromSerial(ToSerial(Some(t))), alive)) <==>
            name in PaneNamesOf(Some(t)) && name in alive
  {
    PruneFiltersLeaves(FromSerial(ToSerial(Some(t))), alive);
    NamesOfAlive(Leaves(FromSerial(ToSerial(Some(t)))), alive, name);
    RestoreNamesTheSamePanes(t);
  }
}
