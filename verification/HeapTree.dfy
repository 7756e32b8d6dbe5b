/** The trie as it lives in memory: nodes that are updated in place. */
module HeapTree {
  import opened Options
  import opened Patterns
  import opened Trie

  class Node {
    var kind: Kind
    var candidates: seq<nat>
    var leaf: Option<nat>
    var children: seq<Node>

    ghost var view: Tree     // the value of the subtree below this node
    ghost var parent: Node?  // whose child this is, and at which place
    ghost var slot: nat

    constructor (kind: Kind, candidates: seq<nat>, leaf: Option<nat>, children: seq<Node>)
      ensures this.kind == kind && this.candidates == candidates && this.leaf == leaf && this.children == children
      ensures parent == null
    {
      this.kind := kind;
      this.candidates := candidates;
      this.leaf := leaf;
      this.children := children;
      view := Tree(kind, candidates, leaf, []);
      parent := null;
    }
  }

  ghost function Views(nodes: seq<Node>): (r: seq<Tree>)
    reads nodes
    ensures |r| == |nodes|
  {
    seq(|nodes|, i requires 0 <= i < |nodes| reads nodes => nodes[i].view)
  }

  /** The value a node shows, given its children's values. */
  ghost function Shown(n: Node): Tree
    reads n, n.children
  {
    Tree(n.kind, n.candidates, n.leaf, Views(n.children))
  }

  ghost predicate Settled(n: Node)
    reads n, n.children
  {
    n.view == Shown(n)
  }

  /** The children of `n` are among the nodes and know their place under `n`. */
  ghost predicate Linked(nodes: set<Node>, n: Node)
    reads n, nodes
  {
    forall j | 0 <= j < |n.children| ::
      var c := n.children[j]; c in nodes && c.parent == n && c.slot == j
  }

  ghost predicate Forest(nodes: set<Node>)
    reads nodes
  {
    forall n | n in nodes :: Linked(nodes, n)
  }

  /** The nodes form a tree under `root`, and every node's view is what it shows. */
  ghost predicate Whole(nodes: set<Node>, root: Node)
    reads nodes
  {
    && root in nodes && root.parent == null && Forest(nodes)
    && forall n | n in nodes :: Settled(n)
  }

  ghost predicate Hangs(above: set<Node>, root: Node, n: Node)
    reads n
  {
    n == root || (n.parent != null && n.parent in above)
  }

  /** An insertion that has walked from `root` down to `n` through `above`.
      The nodes above already have their final views if the insertion is `good`. */
  ghost predicate Walking(nodes: set<Node>, above: set<Node>, root: Node, n: Node, good: bool)
    reads nodes
  {
    && root in nodes && root.parent == null && Forest(nodes)
    && n in nodes && above <= nodes && n !in above
    && Hangs(above, root, n) && (forall m | m in above :: Hangs(above, root, m))
    && (forall m | m in nodes && m !in above && m != n :: Settled(m))
    && (good ==> forall m | m in above :: Settled(m))
  }

  /** The walk at `n` still has to store `w`, and `n` already has its final view. */
  ghost predicate Aims(n: Node, w: Option<Word>, index: nat, good: bool)
    reads n, n.children
  {
    && (good <==> w.Some? && Add(Shown(n), w.value, index).Some?)
    && (good ==> n.view == Add(Shown(n), w.value, index).value)
  }

  /** A child of the current node is neither that node nor above it. */
  lemma {:induction false} ChildIsBelow(nodes: set<Node>, above: set<Node>, root: Node, n: Node, good: bool, j: nat)
    requires Walking(nodes, above, root, n, good) && j < |n.children|
    ensures var c := n.children[j]; c in nodes && c.parent == n && c != n && c !in above && c != root && Settled(c)
  {
  }

  /** Put a fresh node between `n` and its children. */
  method Wedge(n: Node, i: nat, ghost nodes: set<Node>) returns (lower: Node)
    requires n in nodes && Forest(nodes) && n !in n.children && n.kind.Static? && i < |n.kind.s|
    modifies nodes
    ensures fresh(lower) && Linked(nodes + {lower}, n) && Linked(nodes + {lower}, lower)
    ensures n.view == old(n.view) && n.parent == old(n.parent)
    ensures Settled(lower) && lower.view == old(Shown(n)).(kind := Static(old(n.kind.s)[i..]))
    ensures Shown(n) == Tree(Static(old(n.kind.s)[..i]), old(n.candidates), None, [lower.view])
    ensures forall m | m in nodes :: m.view == old(m.view)
    ensures forall m | m in nodes && m !in old(n.children) :: m.parent == old(m.parent)
    ensures forall m | m in nodes && m != n :: Linked(nodes + {lower}, m) && (old(Settled(m)) ==> Settled(m))
  {
    ghost var below := n.children;
    var p1, p2 := n.kind.s[..i], n.kind.s[i..];
    lower := new Node(Static(p2), n.candidates, n.leaf, n.children);
    n.leaf := None;
    n.kind := Static(p1);
    n.children := [lower];
    lower.view := old(Shown(n)).(kind := Static(p2));
    lower.parent, lower.slot := n, 0;
    forall j | 0 <= j < |below| {
      below[j].parent := lower;
    }
    assert Views(n.children) == [lower.view];
    assert Views(lower.children) == old(Views(n.children));
    assert old(Linked(nodes, n));
    forall m | m in nodes && m != n ensures Linked(nodes + {lower}, m) && (old(Settled(m)) ==> Settled(m)) {
      assert old(Linked(nodes, m));
      assert m.children == old(m.children) && Views(m.children) == old(Views(m.children));
    }
  }

  /** Split the static label of `n` after `i` bytes. */
  method Split(n: Node, i: nat, ghost nodes: set<Node>, ghost above: set<Node>, ghost root: Node, ghost good: bool)
    returns (ghost child: Node)
    requires Walking(nodes, above, root, n, good) && n.kind.Static? && i < |n.kind.s|
    modifies nodes
    ensures fresh(child) && Walking(nodes + {child}, above, root, n, good)
    ensures forall m | m in nodes :: m.view == old(m.view)
    ensures Shown(n) == Tree(Static(old(n.kind.s)[..i]), old(n.candidates), None,
                             [old(Shown(n)).(kind := Static(old(n.kind.s)[i..]))])
  {
    assert n !in n.children && root !in n.children && forall m | m in above :: m !in n.children;
    child := Wedge(n, i, nodes);
  }
}
