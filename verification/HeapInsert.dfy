/** Insertion into the trie in memory: one walk down, updating nodes in place. */
module HeapInsert {
  import opened Options
  import opened Patterns
  import opened Trie
  import opened HeapTree
  import opened HeapBranch

  // ---- facts about values -------------------------------------------------

  lemma {:induction false} LcpIs<T>(u: seq<T>, v: seq<T>, k: nat)
    requires k <= |u| && k <= |v| && u[..k] == v[..k] && (k < |u| && k < |v| ==> u[k] != v[k])
    ensures Lcp(u, v) == k
  {
    var j := Lcp(u, v);
    assert forall m | 0 <= m < k :: u[m] == u[..k][m] == v[..k][m] == v[m];
    assert forall m | 0 <= m < j :: u[m] == u[..j][m] == v[..j][m] == v[m];
  }

  /** Comparing bytes with a label is comparing tokens with it. */
  lemma {:induction false} LcpOfErased(path: string, offset: nat, s: string)
    requires offset <= |path| && NoMarker(s)
    ensures var k := Lcp(path[offset..], s);
      && Erase(path, offset) == Prepend(Lits(s[..k]), Erase(path, offset + k))
      && (Erase(path, offset).Some? ==> Lcp(Erase(path, offset).value, Lits(s)) == k)
  {
    var k := Lcp(path[offset..], s);
    assert path[offset..offset + k] == path[offset..][..k] == s[..k];
    assert forall j | offset <= j < offset + k :: path[j] == s[j - offset];
    EraseLiterals(path, offset, offset + k);
    if Erase(path, offset).Some? {
      var w := Erase(path, offset).value;
      assert w[..k] == Lits(s[..k]) == Lits(s)[..k];
      if offset + k < |path| {
        EraseHead(path, offset + k);
        assert w[k] == Erase(path, offset + k).value[0];
        assert path[offset..][k] == path[offset + k];
      }
      LcpIs(w, Lits(s), k);
    }
  }

  /** Once the label is consumed, registering the candidate early changes nothing. */
  lemma {:induction false} AddAfterCandidate(n: Tree, w: Word, i: nat)
    requires !Plan(n, w).Cut?
    ensures Add(n.(candidates := WithCandidate(n.candidates, i)), w, i) == Add(n, w, i)
  {
    var m := n.(candidates := WithCandidate(n.candidates, i));
    assert Plan(m, w) == Plan(n, w);
    assert WithCandidate(m.candidates, i) == m.candidates;
    match Plan(n, w) {
      case Enter(j) => assert m.children[j] == n.children[j];
      case _ =>
    }
  }

  /** After the label has been cut, the insertion goes on at the upper half. */
  lemma {:induction false} AddAfterCut(n: Tree, w: Word, i: nat, k: nat)
    requires n.kind.Static? && k == Lcp(w, n.kind.Label()) && k < |n.kind.s|
    ensures Add(Tree(Static(n.kind.s[..k]), n.candidates, None, [n.(kind := Static(n.kind.s[k..]))]), w, i)
      == Add(n, w, i)
  {
    var lower := n.(kind := Static(n.kind.s[k..]));
    var upper := Tree(Static(n.kind.s[..k]), n.candidates, None, [lower]);
    assert Lits(n.kind.s[..k]) == Lits(n.kind.s)[..k];
    LcpIs(w, upper.kind.Label(), k);
    if k < |w| && w[k].Lit? {
      assert !lower.HeadIs(w[k]);
      assert upper.children[1..] == [];
      assert Scan(upper.children, w[k]) == Absent;
      assert [lower] + [Graft(w[k..], i)] == [lower, Graft(w[k..], i)];
    } else if k < |w| {
      assert upper.children[0].kind.Static?;
    }
  }

  /** The code never looks at an empty label except that of the root. */
  ghost predicate Firm(n: Tree)
    decreases n
  {
    && (n.kind.Static? ==> NoMarker(n.kind.s))
    && forall j | 0 <= j < |n.children| :: n.children[j].kind.Label() != [] && Firm(n.children[j])
  }

  // ---- steps of the walk ----------------------------------------------------

  /** Register the route at the current node. */
  method Mark(n: Node, index: nat, ghost nodes: set<Node>, ghost above: set<Node>, ghost root: Node, ghost good: bool,
              ghost w: Option<Word>)
    requires Walking(nodes, above, root, n, good) && Aims(n, w, index, good)
    requires w.Some? && n.kind.Static? ==> Lcp(w.value, n.kind.Label()) == |n.kind.Label()|
    modifies n
    ensures Walking(nodes, above, root, n, good) && Aims(n, w, index, good)
    ensures Shown(n) == old(Shown(n)).(candidates := WithCandidate(old(n.candidates), index))
    ensures n.view == old(n.view) && index in n.candidates
    ensures n.children == old(n.children) && n.kind == old(n.kind) && n.leaf == old(n.leaf)
  {
    if w.Some? {
      AddAfterCandidate(Shown(n), w.value, index);
    }
    n.candidates := WithCandidate(n.candidates, index);
    assert Views(n.children) == old(Views(n.children));
    forall m | m in nodes && m != n ensures Linked(nodes, m) && (old(Settled(m)) ==> Settled(m)) {
      assert old(Linked(nodes, m));
      assert Views(m.children) == old(Views(m.children));
    }
    assert old(Linked(nodes, n));
  }

  /** Give child `j` of `n` a new view. */
  ghost method Foresee(n: Node, j: nat, view: Tree, nodes: set<Node>)
    requires n in nodes && Forest(nodes) && n !in n.children && j < |n.children|
      && n.children[j] !in n.children[j].children
    modifies n.children[j]
    ensures n.children == old(n.children) && n.children[j].view == view
    ensures Forest(nodes) && Shown(n.children[j]) == old(Shown(n.children[j]))
    ensures Shown(n) == old(Shown(n)).(children := old(Views(n.children))[j := view])
    ensures forall m | m in nodes && m != n.children[j] :: m.view == old(m.view)
    ensures forall m | m in nodes :: m.parent == old(m.parent)
    ensures forall m | m in nodes && m != n && m != n.children[j] && old(Settled(m)) :: Settled(m)
  {
    var c := n.children[j];
    c.view := view;
    assert old(Linked(nodes, n));
    assert Views(n.children) == old(Views(n.children))[j := view];
    assert Views(c.children) == old(Views(c.children));
    forall m | m in nodes && m != n && m != c ensures Linked(nodes, m) && (old(Settled(m)) ==> Settled(m)) {
      assert old(Linked(nodes, m));
      assert Views(m.children) == old(Views(m.children));
    }
    assert old(Linked(nodes, c));
  }

  /** Walk on into child `j`, which receives its final view. */
  ghost method Enter(n: Node, j: nat, index: nat, nodes: set<Node>, above: set<Node>, root: Node, good: bool,
                     w: Option<Word>, rest: Option<Word>)
    requires Walking(nodes, above, root, n, good) && Aims(n, w, index, good)
    requires j < |n.children| && index in n.candidates
    requires w.Some? && rest.Some?
      ==> Plan(Shown(n), w.value) == Trie.Enter(j) && rest.value == w.value[|n.kind.Label()|..]
    requires w.Some? <==> rest.Some?
    modifies n.children[j]
    ensures n.children == old(n.children)
    ensures Walking(nodes, above + {n}, root, n.children[j], good)
    ensures Aims(n.children[j], rest, index, good)
    ensures Shown(n.children[j]) == old(Shown(n.children[j])) == old(n.children[j].view)
    ensures root.view == old(root.view)
  {
    ChildIsBelow(nodes, above, root, n, good, j);
    assert n !in n.children && n.children[j] !in n.children[j].children;
    assert Shown(n).children[j] == n.children[j].view == Shown(n.children[j]);
    var target := n.children[j].view;
    if good {
      EnterAims(Shown(n), w.value, index, j);
      target := Add(n.children[j].view, rest.value, index).value;
    } else if w.Some? {
      EnterAims(Shown(n), w.value, index, j);
    }
    Foresee(n, j, target, nodes);
  }

  lemma {:induction false} EnterAims(n: Tree, w: Word, index: nat, j: nat)
    requires Plan(n, w) == Trie.Enter(j) && index in n.candidates
    ensures var r := Add(n.children[j], w[|n.kind.Label()|..], index);
      Add(n, w, index) == if r.Some? then Some(n.(children := n.children[j := r.value])) else None
  {
  }

  /** Cut the label of a static node after its first `i` bytes, if it is longer. */
  method Shorten(n: Node, i: nat, index: nat,
                 ghost nodes: set<Node>, ghost above: set<Node>, ghost root: Node, ghost good: bool,
                 ghost w: Option<Word>)
    returns (ghost nodes': set<Node>)
    requires Walking(nodes, above, root, n, good) && Aims(n, w, index, good) && Firm(Shown(n))
    requires n.kind.Static? && i <= |n.kind.s|
    requires w.Some? ==> Lcp(w.value, n.kind.Label()) == i
    modifies nodes
    ensures nodes <= nodes' && fresh(nodes' - nodes) && root.view == old(root.view)
    ensures Walking(nodes', above, root, n, good) && Aims(n, w, index, good) && Firm(Shown(n))
    ensures n.kind == Static(old(n.kind.s)[..i])
  {
    ghost var cur := Shown(n);
    nodes' := nodes;
    if i < |n.kind.s| {
      ghost var child := Split(n, i, nodes, above, root, good);
      nodes' := nodes + {child};
      if w.Some? {
        AddAfterCut(cur, w.value, index, i);
      }
      CutFirm(cur, i, Shown(n));
    } else {
      assert n.kind.s[..i] == n.kind.s;
    }
  }

  /** What the bytes of the path say about its tokens at a static label. */
  lemma {:induction false} LabelInTokens(path: string, offset: nat, s: string)
    requires offset <= |path| && NoMarker(s)
    ensures var i := Lcp(path[offset..], s); var w := Erase(path, offset);
      && path[offset..offset + i] == s[..i]
      && w == Prepend(Lits(s[..i]), Erase(path, offset + i))
      && (w.Some? ==> Lcp(w.value, Lits(s)) == i && Lcp(w.value, Lits(s[..i])) == i)
  {
    var i := Lcp(path[offset..], s);
    LcpOfErased(path, offset, s);
    assert path[offset..offset + i] == path[offset..][..i] == s[..i];
    if Erase(path, offset).Some? {
      var w := Erase(path, offset).value;
      assert w[..i] == Lits(s[..i]);
      LcpIs(w, Lits(s[..i]), i);
    }
  }

  /** Match the label of a static node, splitting it where the path departs from it. */
  method ConsumeLabel(n: Node, path: string, offset: nat, index: nat,
                      ghost nodes: set<Node>, ghost above: set<Node>, ghost root: Node, ghost good: bool,
                      ghost w: Option<Word>)
    returns (offset': nat, ghost nodes': set<Node>)
    requires Walking(nodes, above, root, n, good) && Aims(n, w, index, good) && Firm(Shown(n))
    requires n.kind.Static? && offset <= |path| && w == Erase(path, offset)
    modifies nodes
    ensures nodes <= nodes' && fresh(nodes' - nodes) && root.view == old(root.view)
    ensures Walking(nodes', above, root, n, good) && Aims(n, w, index, good) && Firm(Shown(n))
    ensures n.kind.Static? && offset' == offset + |n.kind.s| <= |path| && path[offset..offset'] == n.kind.s
    ensures w == Prepend(n.kind.Label(), Erase(path, offset'))
    ensures index in n.candidates && offset' == offset + Lcp(path[offset..], old(n.kind.s))
  {
    LabelInTokens(path, offset, n.kind.s);
    var i := Lcp(path[offset..], n.kind.s);
    nodes' := Shorten(n, i, index, nodes, above, root, good, w);
    MarkFirm(Shown(n), WithCandidate(n.candidates, index));
    Mark(n, index, nodes', above, root, good, w);
    offset' := offset + i;
  }

  lemma {:induction false} MarkFirm(n: Tree, seen: seq<nat>)
    requires Firm(n)
    ensures Firm(n.(candidates := seen))
  {
  }

  lemma {:induction false} CutFirm(n: Tree, k: nat, t: Tree)
    requires Firm(n) && n.kind.Static? && k < |n.kind.s|
    requires t.kind == Static(n.kind.s[..k]) && t.children == [n.(kind := Static(n.kind.s[k..]))]
    ensures Firm(t)
  {
    assert NoMarker(n.kind.s[..k]) && NoMarker(n.kind.s[k..]);
  }

  function Shift(r: ScanResult, i: nat): ScanResult {
    match r
    case At(j) => At(i + j)
    case other => other
  }

  /** Look for the static child whose label starts with `c`. */
  method ScanChildren(children: seq<Node>, c: char) returns (r: ScanResult)
    requires forall j | 0 <= j < |children| :: Settled(children[j]) && children[j].kind.Label() != []
    ensures r == Scan(Views(children), Lit(c))
  {
    ghost var views := Views(children);
    var i := 0;
    assert views[0..] == views;
    while i < |children|
      invariant i <= |children|
      invariant Scan(views, Lit(c)) == Shift(Scan(views[i..], Lit(c)), i)
    {
      assert views[i..][0] == children[i].view && views[i..][1..] == views[i + 1..];
      match children[i].kind {
        case Static(s) =>
          if s[0] == c {
            return At(i);
          }
        case _ =>
          return Blocked;
      }
      i := i + 1;
    }
    r := Absent;
  }

  /** A parameter at a childless static node: the step is to sprout, if the rest can be grown. */
  lemma {:induction false} SproutsHere(n: Tree, path: string, offset: nat, w: Word, index: nat)
    requires n.kind.Static? && n.children == [] && index in n.candidates
    requires offset < |path| && path[offset] == ':' && Erase(path, offset).Some?
    requires w == n.kind.Label() + Erase(path, offset).value
    ensures var rest := Erase(path, offset).value;
      Add(n, w, index) == if Spaced(rest) then Some(n.(children := [Graft(rest, index)])) else None
  {
    var name, rest := n.kind.Label(), Erase(path, offset).value;
    EraseAtWildcard(path, offset);
    assert w[..|name|] == name && w[|name|..] == rest;
    LcpIs(w, name, |name|);
    PlanAtParam(n, w, |name|, rest);
    assert [] + [Graft(rest, index)] == [Graft(rest, index)];
  }

  lemma {:induction false} PlanAtParam(n: Tree, w: Word, k: nat, rest: Word)
    requires k < |w| && w[k..] == rest && w[k] == Par && n.children == []
    ensures PlanBelow(n, w, k) == if Spaced(rest) then Sprout else Refuse
  {
    GraftableIsSpaced("", rest);
    assert Lits("") + rest == rest;
  }

  /** A node of a fresh branch, once what stores `rest` hangs below it. */
  function Grown(n: Tree, rest: Word, index: nat): Tree {
    if rest == [] then n.(leaf := Some(index)) else n.(children := [Graft(rest, index)])
  }

  /** Grow a branch under the childless node `n` of a tree. */
  method GrowUnder(n: Node, path: string, offset: nat, index: nat, ghost nodes: set<Node>)
    returns (ok: bool, ghost nodes': set<Node>)
    requires n in nodes && Forest(nodes) && n.children == []
    requires offset <= |path| && (if offset < |path| then IsMarker(path[offset]) else n.leaf == None)
    modifies n
    ensures nodes <= nodes' && fresh(nodes' - nodes) && n.kind == old(n.kind)
    ensures forall m | m in nodes :: m.view == old(m.view) && m.parent == old(m.parent)
    ensures ok <==> Erase(path, offset).Some? && Spaced(Erase(path, offset).value)
    ensures ok ==> Forest(nodes') && forall m | m in nodes' - nodes :: Settled(m)
    ensures ok ==> forall m | m in nodes && m != n :: old(Settled(m)) ==> Settled(m)
    ensures ok ==> Shown(n) == Grown(old(Shown(n)), Erase(path, offset).value, index)
  {
    ghost var added;
    EraseAtWildcard(path, offset);
    ok, added := InsertChild(n, path, offset, index);
    nodes' := nodes + added;
    if ok {
      ghost var rest := Erase(path, offset).value;
      assert Views(n.children) == if rest == [] then [] else [Graft(rest, index)];
      forall m | m in nodes' ensures Linked(nodes', m) {
        assert m in nodes && m != n ==> old(Linked(nodes, m));
        assert m in added ==> Linked(added, m);
      }
      forall m | m in nodes && m != n && old(Settled(m)) ensures Settled(m) {
        assert old(Linked(nodes, m));
        assert Views(m.children) == old(Views(m.children));
      }
    }
  }

  /** A wildcard starts a fresh branch under the childless node `n`. */
  method SproutHere(n: Node, path: string, offset: nat, index: nat,
                    ghost nodes: set<Node>, ghost above: set<Node>, ghost root: Node, ghost good: bool,
                    ghost w: Option<Word>)
    returns (ok: bool, ghost nodes': set<Node>)
    requires Walking(nodes, above, root, n, good) && Aims(n, w, index, good)
    requires n.kind.Static? && n.children == [] && index in n.candidates
    requires offset < |path| && path[offset] == ':' && w == Prepend(n.kind.Label(), Erase(path, offset))
    modifies n
    ensures nodes <= nodes' && fresh(nodes' - nodes) && root.view == old(root.view)
    ensures ok <==> good
    ensures ok ==> Whole(nodes', root)
  {
    if w.Some? {
      SproutsHere(Shown(n), path, offset, w.value, index);
    }
    EraseAtWildcard(path, offset);
    ok, nodes' := GrowUnder(n, path, offset, index, nodes);
  }

  /** Search and push at a literal: no child starts with it, so the step is to
      sprout, if the rest can be grown. */
  lemma {:induction false} PlanAtLiteral(n: Tree, path: string, offset: nat, w: Word, k: nat)
    requires offset < |path| && !IsMarker(path[offset]) && Erase(path, offset).Some?
    requires k <= |w| && w[k..] == Erase(path, offset).value
    requires Scan(n.children, Lit(path[offset])) == Absent
    ensures var pos := WildcardBegin(path, offset);
      && Erase(path, pos).Some?
      && (PlanBelow(n, w, k) == if Spaced(Erase(path, pos).value) then Sprout else Refuse)
      && w[k..] == Lits(path[offset..pos]) + Erase(path, pos).value
  {
    var pos := WildcardBegin(path, offset);
    EraseLiterals(path, offset, pos);
    EraseAtWildcard(path, pos);
    EraseHead(path, offset);
    GraftableIsSpaced(path[offset..pos], Erase(path, pos).value);
    assert w[k] == w[k..][0];
  }

  /** A fresh static node for the literals from `offset` on, and what follows them. */
  method NewBranch(path: string, offset: nat, index: nat) returns (ok: bool, ch: Node, ghost added: set<Node>)
    requires offset < |path| && !IsMarker(path[offset])
    ensures fresh(ch) && fresh(added) && ch.parent == null
    ensures var rest := Erase(path, WildcardBegin(path, offset));
      && (ok <==> rest.Some? && Spaced(rest.value))
      && (ok ==> ch in added && Forest(added) && (forall x | x in added :: Settled(x))
                 && ch.view == Graft(Lits(path[offset..WildcardBegin(path, offset)]) + rest.value, index))
  {
    var pos := WildcardBegin(path, offset);
    ch := new Node(Static(path[offset..pos]), [index], None, []);
    ok, added := GrowUnder(ch, path, pos, index, {ch});
    if ok {
      EraseAtWildcard(path, pos);
      GraftOfLiterals(path[offset..pos], Erase(path, pos).value, index);
      label Grown: assert Shown(ch) == Stem(ch.kind, Erase(path, pos).value, index);
      ghost var shown := Shown(ch);
      ch.view := shown;
      forall x | x in added ensures Linked(added, x) && Settled(x) {
        assert old@Grown(Linked(added, x)) && ch !in x.children;
        assert Views(x.children) == old@Grown(Views(x.children));
      }
    }
  }

  /** Push a complete branch onto the children of `n`. */
  method PushBranch(n: Node, ch: Node, index: nat, ghost added: set<Node>, ghost nodes: set<Node>)
    requires n in nodes && Forest(nodes) && nodes !! added
    requires ch in added && ch.parent == null && Forest(added) && forall x | x in added :: Settled(x)
    modifies n, ch`parent, ch`slot
    ensures Forest(nodes + added) && forall m | m in added :: Settled(m)
    ensures forall m | m in nodes :: m.view == old(m.view) && m.parent == old(m.parent)
    ensures forall m | m in nodes && m != n && old(Settled(m)) :: Settled(m)
    ensures Shown(n) == old(Shown(n)).(candidates := WithCandidate(old(n.candidates), index),
                                       children := old(Views(n.children)) + [ch.view])
  {
    ch.parent, ch.slot := n, |n.children|;
    n.children := n.children + [ch];
    n.candidates := WithCandidate(n.candidates, index);
    assert old(Linked(nodes, n));
    assert Views(n.children) == old(Views(n.children)) + [ch.view];
    forall m | m in nodes && m != n ensures Linked(nodes + added, m) && (old(Settled(m)) ==> Settled(m)) {
      assert old(Linked(nodes, m));
      assert Views(m.children) == old(Views(m.children));
    }
    forall m | m in added ensures Linked(nodes + added, m) && Settled(m) {
      assert old(Linked(added, m));
      assert Views(m.children) == old(Views(m.children));
    }
  }

  // ---- the walk ---------------------------------------------------------------

  /** The label of `n` is consumed: what is left of `w` is what is left of the path. */
  ghost predicate Consumed(n: Tree, w: Option<Word>, path: string, offset: nat) {
    && offset <= |path| && (w.Some? <==> Erase(path, offset).Some?)
    && (w.Some? ==>
          && |n.kind.Label()| <= |w.value| && w.value[|n.kind.Label()|..] == Erase(path, offset).value
          && (n.kind.Static? ==> Lcp(w.value, n.kind.Label()) == |n.kind.Label()|))
  }

  lemma {:induction false} ConsumedPlan(n: Tree, w: Option<Word>, path: string, offset: nat)
    requires Consumed(n, w, path, offset) && w.Some?
    ensures Plan(n, w.value) == PlanBelow(n, w.value, |n.kind.Label()|)
    ensures if offset == |path| then |w.value| == |n.kind.Label()|
            else |n.kind.Label()| < |w.value|
                 && w.value[|n.kind.Label()|]
                    == (if IsMarker(path[offset]) then TokenOf(path[offset]) else Lit(path[offset]))
  {
    if offset < |path| {
      EraseHead(path, offset);
      var rest := w.value[|n.kind.Label()|..];
      assert rest[0] == w.value[|n.kind.Label()|];
    }
  }

  /** Insert a new child for the remaining path. */
  method SproutChild(n: Node, path: string, offset: nat, index: nat,
                     ghost nodes: set<Node>, ghost above: set<Node>, ghost root: Node, ghost good: bool,
                     ghost w: Option<Word>)
    returns (ok: bool, ghost nodes': set<Node>)
    requires Walking(nodes, above, root, n, good) && Aims(n, w, index, good)
    requires Consumed(Shown(n), w, path, offset) && offset < |path| && !IsMarker(path[offset])
    requires Scan(Views(n.children), Lit(path[offset])) == Absent
    modifies n
    ensures nodes <= nodes' && fresh(nodes' - nodes) && root.view == old(root.view)
    ensures ok <==> good
    ensures ok ==> Whole(nodes', root)
  {
    var ch;
    ghost var added;
    ghost var pos := WildcardBegin(path, offset);
    EraseLiterals(path, offset, pos);
    if w.Some? {
      ConsumedPlan(Shown(n), w, path, offset);
      PlanAtLiteral(Shown(n), path, offset, w.value, |n.kind.Label()|);
    }
    ok, ch, added := NewBranch(path, offset, index);
    nodes' := nodes + added;
    if ok {
      PushBranch(n, ch, index, added, nodes);
    }
  }

  /** The word ends at `n`, which becomes its leaf. */
  method SettleLeaf(n: Node, index: nat,
                    ghost nodes: set<Node>, ghost above: set<Node>, ghost root: Node, ghost good: bool,
                    ghost w: Option<Word>)
    returns (ok: bool)
    requires Walking(nodes, above, root, n, good) && Aims(n, w, index, good)
    requires w.Some? && |w.value| == |n.kind.Label()|
    requires n.kind.Static? ==> Lcp(w.value, n.kind.Label()) == |n.kind.Label()|
    modifies n
    ensures root.view == old(root.view)
    ensures ok <==> good
    ensures ok ==> Whole(nodes, root)
  {
    assert forall j | 0 <= j < |n.children| :: n.children[j] in nodes && Settled(n.children[j]) by {
      forall j | 0 <= j < |n.children| ensures n.children[j] in nodes && Settled(n.children[j]) {
        ChildIsBelow(nodes, above, root, n, good, j);
      }
    }
    assert forall j | 0 <= j < |n.children| :: Shown(n).children[j].kind == n.children[j].kind;
    assert Plan(Shown(n), w.value) == PlanBelow(Shown(n), w.value, |n.kind.Label()|);
    if exists j | 0 <= j < |n.children| :: n.children[j].kind == CatchAll {
      assert exists j | 0 <= j < |n.children| :: Shown(n).children[j].kind.CatchAll?;
      return false;
    }
    if n.leaf.Some? {
      return false;
    }
    n.leaf := Some(index);
    n.candidates := WithCandidate(n.candidates, index);
    assert Views(n.children) == old(Views(n.children));
    forall m | m in nodes && m != n ensures Linked(nodes, m) && (old(Settled(m)) ==> Settled(m)) {
      assert old(Linked(nodes, m));
      assert Views(m.children) == old(Views(m.children));
    }
    assert old(Linked(nodes, n));
    ok := true;
  }

  /** The node was chosen by its first byte, so its label moves the walk on. */
  ghost predicate HeadMatches(kind: Kind, path: string, offset: nat) {
    kind.Static? && kind.s != "" && offset < |path| && kind.s[0] == path[offset]
  }

  lemma {:induction false} HeadMoves(kind: Kind, path: string, offset: nat)
    requires HeadMatches(kind, path, offset)
    ensures Lcp(path[offset..], kind.s) > 0
  {
    assert path[offset..][0] == path[offset];
  }

  /** What is known at the head of the walk, before the label of `n` is looked at. */
  ghost predicate AtNode(n: Tree, w: Option<Word>, path: string, offset: nat) {
    && offset <= |path| && Firm(n)
    && (n.kind.Static? ==> w == Erase(path, offset))
    && (!n.kind.Static? ==> offset < |path| && path[offset] == '/' && Consumed(n, w, path, offset))
    && (n.kind.Static? ==> offset == 0 || HeadMatches(n.kind, path, offset))
  }

  /** What is known once it is consumed: the byte before the offset is its last. */
  ghost predicate PastLabel(n: Tree, w: Option<Word>, path: string, offset: nat) {
    && Firm(n) && Consumed(n, w, path, offset)
    && (!n.kind.Static? ==> offset < |path| && path[offset] == '/')
    && (n.kind.Static? && n.kind.s != "" ==> offset > 0 && path[offset - 1] == n.kind.s[|n.kind.s| - 1])
    && (n.kind.Static? && n.kind.s == "" ==> offset == 0)
    && (n.kind.Static? && w.Some? ==> w.value[..|n.kind.s|] == Lits(n.kind.s))
  }

  lemma {:induction false} LabelConsumedOnce(n: Tree, w: Option<Word>, path: string, offset: nat, offset': nat)
    requires n.kind.Static? && Firm(n) && offset <= offset' <= |path|
    requires offset' == offset + |n.kind.s| && path[offset..offset'] == n.kind.s
    requires w == Prepend(n.kind.Label(), Erase(path, offset')) && (n.kind.s == "" ==> offset == 0)
    ensures PastLabel(n, w, path, offset')
  {
    var name := n.kind.Label();
    if w.Some? {
      assert w.value[..|name|] == name && w.value[|name|..] == Erase(path, offset').value;
      LcpIs(w.value, name, |name|);
    }
    if n.kind.s != "" {
      assert path[offset..offset'][|n.kind.s| - 1] == path[offset' - 1];
    }
  }

  /** Meeting a wildcard child: the step is to enter it if the wildcard ends well. */
  lemma {:induction false} WildcardStep(n: Tree, w: Option<Word>, path: string, offset: nat)
    requires PastLabel(n, w, path, offset) && offset < |path| && IsMarker(path[offset])
    requires n.children != [] && !exists j | 0 <= j < |n.children| :: n.children[j].kind.Static?
    ensures n.kind.Static?
    ensures var end := WildcardEndFrom(path, 0, offset);
      if end.None? then w.None? || Plan(n, w.value).Refuse?
      else var rest := Prepend([TokenOf(path[offset])], Erase(path, end.value));
        && rest == Erase(path, offset)
        && (w.Some? ==> Plan(n, w.value) == Trie.Enter(0) && rest.value == w.value[|n.kind.Label()|..])
  {
    if w.Some? {
      ConsumedPlan(n, w, path, offset);
      var k := |n.kind.Label()|;
      if k > 0 {
        assert w.value[k - 1] == w.value[..k][k - 1] == Lit(path[offset - 1]);
      }
    }
  }

  /** The state after entering a wildcard child. */
  lemma {:induction false} InWildcard(c: Tree, x: Token, path: string, offset: nat)
    requires Firm(c) && !c.kind.Static? && offset <= |path| && (offset < |path| ==> path[offset] == '/')
    ensures Consumed(c, Prepend([x], Erase(path, offset)), path, offset)
    ensures offset < |path| ==> AtNode(c, Prepend([x], Erase(path, offset)), path, offset)
  {
    var w := Prepend([x], Erase(path, offset));
    if w.Some? {
      assert w.value[1..] == Erase(path, offset).value;
    }
  }

  /** Meeting a literal: the step is to search the children for it. */
  lemma {:induction false} LiteralStep(n: Tree, w: Option<Word>, path: string, offset: nat)
    requires PastLabel(n, w, path, offset) && offset < |path| && !IsMarker(path[offset])
    ensures w.Some? ==>
      match Scan(n.children, Lit(path[offset]))
      case Blocked => Plan(n, w.value) == Refuse
      case At(j) => Plan(n, w.value) == Trie.Enter(j) && Erase(path, offset).value == w.value[|n.kind.Label()|..]
      case Absent => true
    ensures Scan(n.children, Lit(path[offset])).At? ==>
      AtNode(n.children[Scan(n.children, Lit(path[offset])).j], Erase(path, offset), path, offset)
  {
    if w.Some? {
      ConsumedPlan(n, w, path, offset);
    }
  }

  /** At a childless static node a marker is refused unless it is a parameter. */
  lemma {:induction false} CatchAllStep(n: Tree, w: Option<Word>, path: string, offset: nat)
    requires PastLabel(n, w, path, offset) && offset < |path| && IsMarker(path[offset])
    requires if n.children == [] then path[offset] == '*'
      else exists j | 0 <= j < |n.children| :: n.children[j].kind.Static?
    ensures w.Some? ==> Plan(n, w.value) == Refuse
  {
    if w.Some? {
      ConsumedPlan(n, w, path, offset);
    }
  }

  /** How the walk goes on after the label of a node. */
  datatype Turn =
    | Finished(ok: bool)  // the insertion is over
    | Here                // the path is used up at the new current node
    | Onwards             // walk on from the new current node

  /** The views of the children of the current node are in order. */
  lemma {:induction false} ChildrenSettled(nodes: set<Node>, above: set<Node>, root: Node, n: Node, good: bool)
    requires Walking(nodes, above, root, n, good)
    ensures forall j | 0 <= j < |n.children| :: n.children[j] in nodes && Settled(n.children[j])
    ensures forall j | 0 <= j < |n.children| :: Shown(n).children[j] == n.children[j].view == Shown(n.children[j])
  {
    forall j | 0 <= j < |n.children| ensures n.children[j] in nodes && Settled(n.children[j]) {
      ChildIsBelow(nodes, above, root, n, good, j);
    }
  }

  /** The next byte starts a wildcard. */
  method TurnAtWildcard(n: Node, path: string, offset: nat, index: nat,
                        ghost nodes: set<Node>, ghost above: set<Node>, ghost root: Node, ghost good: bool,
                        ghost w: Option<Word>)
    returns (turn: Turn, n': Node, offset': nat,
             ghost nodes': set<Node>, ghost above': set<Node>, ghost w': Option<Word>)
    requires Walking(nodes, above, root, n, good) && Aims(n, w, index, good) && PastLabel(Shown(n), w, path, offset)
    requires offset < |path| && IsMarker(path[offset]) && index in n.candidates
    modifies nodes
    ensures nodes <= nodes' && fresh(nodes' - nodes) && root.view == old(root.view)
    ensures turn.Finished? ==> (turn.ok <==> good) && (turn.ok ==> Whole(nodes', root))
    ensures !turn.Finished? ==>
      && Walking(nodes', above', root, n', good) && Aims(n', w', index, good)
      && offset < offset' <= |path| && Consumed(Shown(n'), w', path, offset')
      && (turn.Here? <==> offset' == |path|) && (turn.Onwards? ==> AtNode(Shown(n'), w', path, offset'))
  {
    n', offset', nodes', above', w' := n, offset, nodes, above, w;
    ChildrenSettled(nodes, above, root, n, good);
    if n.children == [] && path[offset] == ':' {
      if w.Some? {
        assert w.value == w.value[..|n.kind.Label()|] + w.value[|n.kind.Label()|..];
      }
      var ok;
      ok, nodes' := SproutHere(n, path, offset, index, nodes, above, root, good, w);
      return Finished(ok), n, offset, nodes', above, w;
    }
    if n.children == [] || (exists j | 0 <= j < |n.children| :: n.children[j].kind.Static?) {
      assert n.children != [] ==> exists j | 0 <= j < |n.children| :: Shown(n).children[j].kind.Static?;
      CatchAllStep(Shown(n), w, path, offset);
      return Finished(false), n, offset, nodes, above, w;
    }
    WildcardStep(Shown(n), w, path, offset);
    var end := FindWildcardEnd(path, 0, offset);
    if end == None {
      return Finished(false), n, offset, nodes, above, w;
    }
    w' := Prepend([TokenOf(path[offset])], Erase(path, end.value));
    InWildcard(n.children[0].view, TokenOf(path[offset]), path, end.value);
    Enter(n, 0, index, nodes, above, root, good, w, w');
    turn, n', offset', above' := if end.value == |path| then Here else Onwards, n.children[0], end.value, above + {n};
  }

  /** Go on into the static child that starts with the next byte. */
  method EnterLiteral(n: Node, j: nat, path: string, offset: nat, index: nat, ghost nodes: set<Node>,
                      ghost above: set<Node>, ghost root: Node, ghost good: bool, ghost w: Option<Word>)
    requires Walking(nodes, above, root, n, good) && Aims(n, w, index, good) && PastLabel(Shown(n), w, path, offset)
    requires offset < |path| && !IsMarker(path[offset]) && Scan(Shown(n).children, Lit(path[offset])) == At(j)
    modifies nodes
    ensures root.view == old(root.view) && n.children == old(n.children)
    ensures Walking(nodes, above + {n}, root, n.children[j], good)
    ensures Aims(n.children[j], Erase(path, offset), index, good)
    ensures AtNode(Shown(n.children[j]), Erase(path, offset), path, offset)
    ensures HeadMatches(n.children[j].kind, path, offset)
  {
    ChildrenSettled(nodes, above, root, n, good);
    LiteralStep(Shown(n), w, path, offset);
    Mark(n, index, nodes, above, root, good, w);
    Enter(n, j, index, nodes, above, root, good, w, Erase(path, offset));
  }

  /** The next byte is a literal. */
  method TurnAtLiteral(n: Node, path: string, offset: nat, index: nat,
                       ghost nodes: set<Node>, ghost above: set<Node>, ghost root: Node, ghost good: bool,
                       ghost w: Option<Word>)
    returns (turn: Turn, n': Node, ghost nodes': set<Node>, ghost above': set<Node>, ghost w': Option<Word>)
    requires Walking(nodes, above, root, n, good) && Aims(n, w, index, good) && PastLabel(Shown(n), w, path, offset)
    requires offset < |path| && !IsMarker(path[offset])
    modifies nodes
    ensures nodes <= nodes' && fresh(nodes' - nodes) && root.view == old(root.view)
    ensures turn.Finished? ==> (turn.ok <==> good) && (turn.ok ==> Whole(nodes', root))
    ensures !turn.Finished? ==>
      && turn == Onwards && Walking(nodes', above', root, n', good) && Aims(n', w', index, good)
      && AtNode(Shown(n'), w', path, offset) && HeadMatches(n'.kind, path, offset)
  {
    n', nodes', above', w' := n, nodes, above, w;
    ChildrenSettled(nodes, above, root, n, good);
    LiteralStep(Shown(n), w, path, offset);
    var scan := ScanChildren(n.children, path[offset]);
    match scan
    case Blocked =>
      turn := Finished(false);
    case Absent =>
      var ok;
      ok, nodes' := SproutChild(n, path, offset, index, nodes, above, root, good, w);
      turn := Finished(ok);
    case At(j) =>
      EnterLiteral(n, j, path, offset, index, nodes, above, root, good, w);
      turn, n', above', w' := Onwards, n.children[j], above + {n}, Erase(path, offset);
  }

  /** Consume the label of a static node, and see whether the path ends there. */
  method PassLabel(n: Node, path: string, offset: nat, index: nat,
                   ghost nodes: set<Node>, ghost above: set<Node>, ghost root: Node, ghost good: bool,
                   ghost w: Option<Word>)
    returns (offset': nat, ghost nodes': set<Node>)
    requires Walking(nodes, above, root, n, good) && Aims(n, w, index, good) && AtNode(Shown(n), w, path, offset)
    modifies nodes
    ensures nodes <= nodes' && fresh(nodes' - nodes) && root.view == old(root.view)
    ensures Walking(nodes', above, root, n, good) && Aims(n, w, index, good) && PastLabel(Shown(n), w, path, offset')
    ensures offset <= offset' && (old(HeadMatches(n.kind, path, offset)) ==> offset < offset')
    ensures offset' < |path| && IsMarker(path[offset']) ==> index in n.candidates
  {
    offset', nodes' := offset, nodes;
    if n.kind.Static? {
      ghost var kind := n.kind;
      if HeadMatches(kind, path, offset) {
        HeadMoves(kind, path, offset);
      }
      offset', nodes' := ConsumeLabel(n, path, offset, index, nodes, above, root, good, w);
      LabelConsumedOnce(Shown(n), w, path, offset, offset');
    }
  }

  /** One round of the walk: pass the label of `n`, then turn. */
  method Round(n: Node, path: string, offset: nat, index: nat,
               ghost nodes: set<Node>, ghost above: set<Node>, ghost root: Node, ghost good: bool,
               ghost w: Option<Word>)
    returns (turn: Turn, n': Node, offset': nat,
             ghost nodes': set<Node>, ghost above': set<Node>, ghost w': Option<Word>)
    requires Walking(nodes, above, root, n, good) && Aims(n, w, index, good) && AtNode(Shown(n), w, path, offset)
    modifies nodes
    ensures nodes <= nodes' && fresh(nodes' - nodes) && root.view == old(root.view)
    ensures turn.Finished? ==> (turn.ok <==> good) && (turn.ok ==> Whole(nodes', root))
    ensures !turn.Finished? ==> Walking(nodes', above', root, n', good) && Aims(n', w', index, good)
    ensures turn.Here? ==> Consumed(Shown(n'), w', path, |path|)
    ensures turn.Onwards? ==>
      && AtNode(Shown(n'), w', path, offset') && offset <= offset'
      && (offset < offset' || (HeadMatches(n'.kind, path, offset') && !old(HeadMatches(n.kind, path, offset))))
  {
    n', above', w' := n, above, w;
    offset', nodes' := PassLabel(n, path, offset, index, nodes, above, root, good, w);
    if offset' == |path| {
      turn := Here;
    } else if IsMarker(path[offset']) {
      turn, n', offset', nodes', above', w' := TurnAtWildcard(n, path, offset', index, nodes', above, root, good, w);
    } else {
      turn, n', nodes', above', w' := TurnAtLiteral(n, path, offset', index, nodes', above, root, good, w);
    }
  }

  /** Insert the route `index` under `path` into the tree below `root`. */
  method AddPath(root: Node, path: string, index: nat, ghost nodes0: set<Node>)
    returns (ok: bool, ghost nodes: set<Node>)
    requires Whole(nodes0, root) && Firm(root.view) && root.kind.Static?
    modifies nodes0
    ensures nodes0 <= nodes && fresh(nodes - nodes0)
    ensures var w := Erase(path, 0); var t := old(root.view);
      && (ok <==> w.Some? && Add(t, w.value, index).Some?)
      && (ok ==> Whole(nodes, root) && root.view == Add(t, w.value, index).value)
  {
    ghost var w := Erase(path, 0);
    ghost var good := w.Some? && Add(root.view, w.value, index).Some?;
    ghost var target := if good then Add(root.view, w.value, index).value else root.view;
    ghost var above: set<Node> := {};
    nodes := nodes0;
    Start(root, target, nodes);
    var n, offset := root, 0;
    while true
      invariant nodes0 <= nodes && fresh(nodes - nodes0) && root.view == target
      invariant Walking(nodes, above, root, n, good) && Aims(n, w, index, good)
      invariant AtNode(Shown(n), w, path, offset)
      decreases |path| - offset, if HeadMatches(n.kind, path, offset) then 0 else 1
    {
      var turn;
      turn, n, offset, nodes, above, w := Round(n, path, offset, index, nodes, above, root, good, w);
      match turn
      case Finished(done) => return done, nodes;
      case Here => break;
      case Onwards =>
    }
    LeafHere(n, w, path);
    ok := SettleLeaf(n, index, nodes, above, root, good, w);
  }

  lemma {:induction false} LeafHere(n: Node, w: Option<Word>, path: string)
    requires Consumed(Shown(n), w, path, |path|)
    ensures w.Some? && |w.value| == |n.kind.Label()|
    ensures n.kind.Static? ==> Lcp(w.value, n.kind.Label()) == |n.kind.Label()|
  {
    assert Erase(path, |path|) == Some([]);
    assert |w.value[|n.kind.Label()|..]| == 0;
  }

  /** Give the root its final view. */
  ghost method Start(root: Node, view: Tree, nodes: set<Node>)
    requires Whole(nodes, root)
    modifies root
    ensures root.view == view && Shown(root) == old(Shown(root)) == old(root.view)
    ensures Walking(nodes, {}, root, root, true) && Walking(nodes, {}, root, root, false)
  {
    root.view := view;
    assert old(Linked(nodes, root)) && root !in root.children;
    assert Views(root.children) == old(Views(root.children));
    forall m | m in nodes && m != root ensures Linked(nodes, m) && Settled(m) {
      assert old(Linked(nodes, m)) && old(Settled(m));
      assert Views(m.children) == old(Views(m.children));
    }
  }
}
