/**
 * Indentation in the Tree component. The nesting level travels down the
 * element tree through a context: a `Tree` restarts it at 0, each `TreeItem`
 * hands its children one more than it sees, and everything else passes it
 * through unchanged. A trigger and a leaf turn the level they see into a
 * left padding in pixels.
 */
module TreeView {
  import opened Wrappers

  datatype Node =
    | Tree(children: seq<Node>)
    | Item(children: seq<Node>)
    | Content(children: seq<Node>)
    | Trigger
    | Leaf

  /** The level seen where no provider is above: the context's default. */
  const DefaultLevel: nat := 0

  /** The level a node provides to its children, given the level it sees. */
  function Provided(n: Node, level: nat): nat
  {
    match n
    case Tree(_) => 0
    case Item(_) => level + 1
    case _ => level
  }

  function Kids(n: Node): seq<Node>
  {
    if n.Trigger? || n.Leaf? then [] else n.children
  }

  /** The node reached from `root` by following `path`, one child index per step. */
  function NodeAt(root: Node, path: seq<nat>): Option<Node>
    decreases |path|
  {
    if path == [] then Some(root)
    else if path[0] < |Kids(root)| then NodeAt(Kids(root)[path[0]], path[1..])
    else None
  }

  /** The level the node at `path` reads from the context, when `root` itself sees `level`. */
  function LevelFrom(root: Node, path: seq<nat>, level: nat): (r: Option<nat>)
    ensures path == [] ==> r == Some(level)
    ensures |path| == 1 && path[0] < |Kids(root)| && root.Tree? ==> r == Some(0)
    ensures |path| == 1 && path[0] < |Kids(root)| && root.Item? ==> r == Some(level + 1)
    ensures |path| == 1 && path[0] < |Kids(root)| && root.Content? ==> r == Some(level)
    decreases |path|
  {
    if path == [] then Some(level)
    else if path[0] < |Kids(root)| then LevelFrom(Kids(root)[path[0]], path[1..], Provided(root, level))
    else None
  }

  /** The level the node at `path` sees when `root` is rendered outside every provider. */
  function LevelAt(root: Node, path: seq<nat>): (r: Option<nat>)
    ensures r.Some? <==> NodeAt(root, path).Some?
    ensures path == [] ==> r == Some(0)
  {
    LevelDefinedIffNode(root, path, DefaultLevel);
    LevelFrom(root, path, DefaultLevel)
  }

  /** The nodes strictly above the end of `path`, outermost first. */
  function Ancestors(root: Node, path: seq<nat>): seq<Node>
    decreases |path|
  {
    if path == [] then []
    else if path[0] < |Kids(root)| then [root] + Ancestors(Kids(root)[path[0]], path[1..])
    else []
  }

  /** Each level owns a band of 12 pixels, so deeper triggers are always further right. */
  function TriggerPadding(level: nat): (px: nat)
    ensures 12 * level < px < 12 * (level + 1)
  {
    level * 12 + 8
  }

  /** A leaf lines up 24 pixels right of a trigger at the same level. */
  function LeafPadding(level: nat): (px: nat)
    ensures px == TriggerPadding(level) + 24
  {
    level * 12 + 32
  }

  /** The left padding in pixels of the trigger or leaf at `path`; none for other nodes and for bad paths. */
  function PaddingAt(root: Node, path: seq<nat>): (r: Option<nat>)
    ensures r.Some? <==> NodeAt(root, path) == Some(Trigger) || NodeAt(root, path) == Some(Leaf)
    ensures r.Some? ==> r.value >= 8
  {
    LevelDefinedIffNode(root, path, DefaultLevel);
    match (NodeAt(root, path), LevelAt(root, path))
    case (Some(Trigger), Some(level)) => Some(TriggerPadding(level))
    case (Some(Leaf), Some(level)) => Some(LeafPadding(level))
    case _ => None
  }

  // ------------------------------------------- a reference definition of level

  function CountItems(s: seq<Node>): nat
  {
    if s == [] then 0 else (if s[0].Item? then 1 else 0) + CountItems(s[1..])
  }

  /** The position of the innermost `Tree` in `s`, or -1 when there is none. */
  function LastTree(s: seq<Node>): (k: int)
    ensures -1 <= k < |s|
    ensures k >= 0 ==> s[k].Tree?
    ensures forall j :: k < j < |s| ==> !s[j].Tree?
  {
    if s == [] then -1
    else if s[|s| - 1].Tree? then |s| - 1
    else LastTree(s[..|s| - 1])
  }

  /**
   * The level below a chain of ancestors: the number of items inside the
   * innermost tree, or, with no tree at all, the outer level plus every item.
   */
  function ReferenceLevel(ancestors: seq<Node>, level: nat): nat
  {
    var k := LastTree(ancestors);
    if k < 0 then level + CountItems(ancestors) else CountItems(ancestors[k + 1..])
  }

  // ------------------------------------------------------------- properties

  lemma {:induction false} CountItemsCons(a: Node, s: seq<Node>)
    ensures CountItems([a] + s) == (if a.Item? then 1 else 0) + CountItems(s)
  {
    assert ([a] + s)[1..] == s;
  }

  /** A path names a node exactly when it has a level. */
  lemma {:induction false} LevelDefinedIffNode(root: Node, path: seq<nat>, level: nat)
    ensures LevelFrom(root, path, level).Some? <==> NodeAt(root, path).Some?
    ensures NodeAt(root, path).Some? ==> |Ancestors(root, path)| == |path|
    decreases |path|
  {
    if path != [] && path[0] < |Kids(root)| {
      LevelDefinedIffNode(Kids(root)[path[0]], path[1..], Provided(root, level));
    }
  }

  /** With no tree above a node, it sees the outer level plus one per enclosing item. */
  lemma {:induction false} LevelWithoutTree(root: Node, path: seq<nat>, level: nat)
    requires NodeAt(root, path).Some?
    requires forall j :: 0 <= j < |Ancestors(root, path)| ==> !Ancestors(root, path)[j].Tree?
    ensures LevelFrom(root, path, level) == Some(level + CountItems(Ancestors(root, path)))
    decreases |path|
  {
    if path != [] {
      var child := Kids(root)[path[0]];
      var rest := Ancestors(child, path[1..]);
      assert Ancestors(root, path) == [root] + rest;
      assert forall j :: 0 <= j < |rest| ==> rest[j] == Ancestors(root, path)[j + 1];
      assert !Ancestors(root, path)[0].Tree?;
      LevelWithoutTree(child, path[1..], Provided(root, level));
      CountItemsCons(root, rest);
    }
  }

  /** Below the `k`-th ancestor, a tree with no tree beneath it, the level counts only the items inside it. */
  lemma {:induction false} LevelBelowTree(root: Node, path: seq<nat>, level: nat, k: nat)
    requires NodeAt(root, path).Some?
    requires k < |Ancestors(root, path)| && Ancestors(root, path)[k].Tree?
    requires forall j :: k < j < |Ancestors(root, path)| ==> !Ancestors(root, path)[j].Tree?
    ensures LevelFrom(root, path, level) == Some(CountItems(Ancestors(root, path)[k + 1..]))
    decreases |path|
  {
    var child := Kids(root)[path[0]];
    var rest := Ancestors(child, path[1..]);
    assert Ancestors(root, path) == [root] + rest;
    ShiftPastHead(Ancestors(root, path), root, rest, k);
    if k == 0 {
      LevelWithoutTree(child, path[1..], 0);
    } else {
      LevelBelowTree(child, path[1..], Provided(root, level), k - 1);
    }
  }

  /** What an ancestor chain `[root] + rest` says about `rest` past position `k`. */
  lemma ShiftPastHead(s: seq<Node>, root: Node, rest: seq<Node>, k: nat)
    requires s == [root] + rest && k < |s|
    requires forall j :: k < j < |s| ==> !s[j].Tree?
    ensures forall j :: k - 1 < j < |rest| ==> !rest[j].Tree?
    ensures s[k + 1..] == rest[k..]
    ensures k == 0 ==> s[1..] == rest
    ensures k > 0 ==> s[k] == rest[k - 1]
  {
    assert forall j :: 0 <= j < |rest| ==> rest[j] == s[j + 1];
  }

  /** The level every node sees is the reference level of its ancestors. */
  lemma LevelCountsItems(root: Node, path: seq<nat>, level: nat)
    requires NodeAt(root, path).Some?
    ensures LevelFrom(root, path, level) == Some(ReferenceLevel(Ancestors(root, path), level))
  {
    var ancestors := Ancestors(root, path);
    var k := LastTree(ancestors);
    if k < 0 {
      LevelWithoutTree(root, path, level);
    } else {
      LevelBelowTree(root, path, level, k);
    }
  }

  /** The padding of a trigger or leaf from the level it sees. */
  lemma PaddingOfLevel(root: Node, path: seq<nat>, level: nat)
    requires NodeAt(root, path) == Some(Trigger) || NodeAt(root, path) == Some(Leaf)
    requires LevelAt(root, path) == Some(level)
    ensures PaddingAt(root, path) == Some(12 * level + if NodeAt(root, path) == Some(Trigger) then 8 else 32)
  {
  }

  /** A trigger is padded 12 pixels per level plus 8, a leaf 12 per level plus 32, the level being the reference level. */
  lemma PaddingFromAncestors(root: Node, path: seq<nat>)
    requires NodeAt(root, path) == Some(Trigger) || NodeAt(root, path) == Some(Leaf)
    ensures var level := ReferenceLevel(Ancestors(root, path), DefaultLevel);
      PaddingAt(root, path) == Some(12 * level + if NodeAt(root, path) == Some(Trigger) then 8 else 32)
  {
    var level := ReferenceLevel(Ancestors(root, path), DefaultLevel);
    assert LevelAt(root, path) == Some(level) by {
      LevelCountsItems(root, path, DefaultLevel);
    }
    PaddingOfLevel(root, path, level);
  }

  /** Everything inside a tree starts again from level 0, whatever level the tree itself is rendered at. */
  lemma TreeIgnoresOuterLevel(children: seq<Node>, path: seq<nat>, outer: nat)
    requires path != []
    ensures LevelFrom(Tree(children), path, outer) == LevelAt(Tree(children), path)
  {
  }

  /** A content wrapper provides nothing: its children see the level it sees, and an item's content gets the item's inner level. */
  lemma ContentKeepsLevel(children: seq<Node>, i: nat, q: seq<nat>, level: nat)
    requires i < |children|
    ensures LevelFrom(Content(children), [i] + q, level) == LevelFrom(children[i], q, level)
    ensures LevelFrom(Item(children), [i] + q, level) == LevelFrom(children[i], q, level + 1)
  {
    assert ([i] + q)[1..] == q;
  }

  /** Following `p` and then `q` is following `q` from the node `p` reaches, at the level it provides to its end. */
  lemma {:induction false} PathAppend(root: Node, p: seq<nat>, q: seq<nat>, level: nat)
    requires NodeAt(root, p).Some?
    ensures LevelFrom(root, p, level).Some?
    ensures NodeAt(root, p + q) == NodeAt(NodeAt(root, p).value, q)
    ensures LevelFrom(root, p + q, level) == LevelFrom(NodeAt(root, p).value, q, LevelFrom(root, p, level).value)
    decreases |p|
  {
    LevelDefinedIffNode(root, p, level);
    if p != [] {
      assert (p + q)[0] == p[0] && (p + q)[1..] == p[1..] + q;
      PathAppend(Kids(root)[p[0]], p[1..], q, Provided(root, level));
    } else {
      assert p + q == q;
    }
  }

  /** A leaf in an item's content sits exactly 24 pixels right of that item's trigger. */
  lemma LeafBesideTrigger(root: Node, p: seq<nat>, i: nat, j: nat, k: nat)
    requires NodeAt(root, p + [i]) == Some(Trigger)
    requires NodeAt(root, p + [j]).Some? && NodeAt(root, p + [j]).value.Content?
    requires NodeAt(root, p + [j, k]) == Some(Leaf)
    ensures PaddingAt(root, p + [i]).Some?
    ensures PaddingAt(root, p + [j, k]) == Some(PaddingAt(root, p + [i]).value + 24)
  {
    assert p + [j, k] == (p + [j]) + [k];
    PathAppend(root, p + [j], [k], DefaultLevel);
    assert NodeAt(root, p).Some? by { PrefixReaches(root, p, [i]); }
    PathAppend(root, p, [i], DefaultLevel);
    PathAppend(root, p, [j], DefaultLevel);
  }

  /** A trigger one item deeper sits exactly 12 pixels further right. */
  lemma NestedTriggerIndent(root: Node, p: seq<nat>, i: nat, j: nat, k: nat, m: nat)
    requires NodeAt(root, p).Some? && NodeAt(root, p).value.Item?
    requires NodeAt(root, p + [i]) == Some(Trigger)
    requires NodeAt(root, p + [j]).Some? && NodeAt(root, p + [j]).value.Content?
    requires NodeAt(root, p + [j, k]).Some? && NodeAt(root, p + [j, k]).value.Item?
    requires NodeAt(root, p + [j, k, m]) == Some(Trigger)
    ensures PaddingAt(root, p + [i]).Some?
    ensures PaddingAt(root, p + [j, k, m]) == Some(PaddingAt(root, p + [i]).value + 12)
  {
    assert p + [j, k] == (p + [j]) + [k];
    assert p + [j, k, m] == (p + [j, k]) + [m];
    PathAppend(root, p, [i], DefaultLevel);
    PathAppend(root, p, [j], DefaultLevel);
    PathAppend(root, p + [j], [k], DefaultLevel);
    PathAppend(root, p + [j, k], [m], DefaultLevel);
  }

  lemma {:induction false} PrefixReaches(root: Node, p: seq<nat>, q: seq<nat>)
    requires NodeAt(root, p + q).Some?
    ensures NodeAt(root, p).Some?
    decreases |p|
  {
    if p != [] {
      assert (p + q)[0] == p[0] && (p + q)[1..] == p[1..] + q;
      PrefixReaches(Kids(root)[p[0]], p[1..], q);
    }
  }
}
