/** The leaves and the candidates of a tree, over any accepted insertion. */
module Leaves {
  import opened Options
  import opened Patterns
  import opened Trie

  // ---- the leaves of a tree -------------------------------------------------

  /** The routes at the leaves, each as often as it occurs. */
  function Stored(n: Tree): multiset<nat> {
    (if n.leaf.Some? then multiset{n.leaf.value} else multiset{}) + StoredIn(n.children)
  }

  function StoredIn(children: seq<Tree>): multiset<nat> {
    if children == [] then multiset{} else Stored(children[0]) + StoredIn(children[1..])
  }

  lemma {:induction false} StoredPush(children: seq<Tree>, g: Tree)
    ensures StoredIn(children + [g]) == StoredIn(children) + Stored(g)
    decreases |children|
  {
    var cs := children + [g];
    if children == [] {
      assert cs[1..] == [];
    } else {
      assert cs[1..] == children[1..] + [g];
      StoredPush(children[1..], g);
    }
  }

  lemma {:induction false} StoredUpdate(children: seq<Tree>, j: nat, c: Tree, i: nat)
    requires j < |children| && Stored(c) == Stored(children[j]) + multiset{i}
    ensures StoredIn(children[j := c]) == StoredIn(children) + multiset{i}
    decreases j
  {
    var cs := children[j := c];
    if j == 0 {
      assert cs[1..] == children[1..];
    } else {
      assert cs[1..] == children[1..][j - 1 := c];
      StoredUpdate(children[1..], j - 1, c, i);
    }
  }

  lemma {:induction false} StoredOne(t: Tree)
    ensures StoredIn([t]) == Stored(t)
  {
    StoredPush([], t);
    assert [] + [t] == [t];
  }

  lemma {:induction false} StoredTwo(t: Tree, g: Tree)
    ensures StoredIn([t, g]) == Stored(t) + Stored(g)
  {
    StoredOne(t);
    StoredPush([t], g);
    assert [t] + [g] == [t, g];
  }

  lemma {:induction false} GraftStored(w: Word, i: nat)
    requires w != []
    ensures Stored(Graft(w, i)) == multiset{i}
    decreases |w|
  {
    var (kind, k) := FirstKind(w);
    if k < |w| {
      GraftStored(w[k..], i);
      StoredOne(Graft(w[k..], i));
    }
  }

  lemma {:induction false} CutStored(n: Tree, w: Word, i: nat, k: nat)
    requires Plan(n, w) == Cut(k) && Add(n, w, i).Some?
    ensures Stored(Add(n, w, i).value) == Stored(n) + multiset{i}
  {
    var lower := n.(kind := Static(n.kind.s[k..]));
    assert Stored(lower) == Stored(n);
    if k < |w| {
      GraftStored(w[k..], i);
      StoredTwo(lower, Graft(w[k..], i));
    } else {
      StoredOne(lower);
    }
  }

  lemma {:induction false} SproutStored(n: Tree, w: Word, i: nat)
    requires Plan(n, w) == Sprout && Add(n, w, i).Some?
    ensures Stored(Add(n, w, i).value) == Stored(n) + multiset{i}
  {
    var rest := w[|n.kind.Label()|..];
    GraftStored(rest, i);
    StoredPush(n.children, Graft(rest, i));
  }

  /** An accepted insertion adds one leaf and moves no other. */
  lemma {:induction false} AddStored(n: Tree, w: Word, i: nat)
    requires Add(n, w, i).Some?
    ensures Stored(Add(n, w, i).value) == Stored(n) + multiset{i}
    decreases n
  {
    match Plan(n, w)
    case Cut(k) => CutStored(n, w, i, k);
    case Settle =>
    case Sprout => SproutStored(n, w, i);
    case Enter(j) =>
      AddStored(n.children[j], w[|n.kind.Label()|..], i);
      StoredUpdate(n.children, j, Add(n.children[j], w[|n.kind.Label()|..], i).value, i);
    case Refuse =>
  }

  lemma {:induction false} StoredAreIndices(n: Tree, i: nat)
    ensures i in Indices(n) <==> i in Stored(n)
    decreases n
  {
    forall j | 0 <= j < |n.children| ensures i in Indices(n.children[j]) <==> i in Stored(n.children[j]) {
      StoredAreIndices(n.children[j], i);
    }
    StoredAmong(n.children, i);
  }

  lemma {:induction false} StoredAmong(children: seq<Tree>, i: nat)
    ensures i in StoredIn(children) <==> exists j | 0 <= j < |children| :: i in Stored(children[j])
    decreases |children|
  {
    if children != [] {
      var rest := children[1..];
      StoredAmong(rest, i);
      assert forall j | 0 <= j < |rest| :: rest[j] == children[j + 1];
      assert forall j | 1 <= j < |children| :: children[j] == rest[j - 1];
    }
  }

  lemma {:induction false} IndicesAfterAdd(n: Tree, w: Word, i: nat)
    requires Add(n, w, i).Some?
    ensures Indices(Add(n, w, i).value) == Indices(n) + {i}
  {
    AddStored(n, w, i);
    forall x ensures x in Indices(Add(n, w, i).value) <==> x in Indices(n) + {i} {
      StoredAreIndices(n, x);
      StoredAreIndices(Add(n, w, i).value, x);
    }
  }

  // ---- candidates -----------------------------------------------------------------

  lemma {:induction false} GraftTallied(w: Word, i: nat)
    requires w != []
    ensures Tallied(Graft(w, i)) && Indices(Graft(w, i)) == {i}
    decreases |w|
  {
    var (kind, k) := FirstKind(w);
    if k < |w| {
      GraftTallied(w[k..], i);
      assert Graft(w, i).children[0] == Graft(w[k..], i);
    }
  }

  lemma {:induction false} CutTallied(n: Tree, w: Word, i: nat, k: nat)
    requires Tallied(n) && Plan(n, w) == Cut(k) && Add(n, w, i).Some?
    ensures Tallied(Add(n, w, i).value)
  {
    var t := Add(n, w, i).value;
    IndicesAfterAdd(n, w, i);
    KindTallied(n, Static(n.kind.s[k..]));
    if k < |w| {
      GraftTallied(w[k..], i);
    }
    assert forall x :: x in t.candidates <==> x in Indices(t);
  }

  lemma {:induction false} KindTallied(n: Tree, kind: Kind)
    requires Tallied(n)
    ensures Tallied(n.(kind := kind))
  {
    assert Indices(n.(kind := kind)) == Indices(n);
  }

  /** At every node the candidates stay the routes stored at or below it. */
  lemma {:induction false} AddTallied(n: Tree, w: Word, i: nat)
    requires Tallied(n) && Add(n, w, i).Some?
    ensures Tallied(Add(n, w, i).value)
    decreases n
  {
    var t := Add(n, w, i).value;
    IndicesAfterAdd(n, w, i);
    match Plan(n, w)
    case Cut(k) => CutTallied(n, w, i, k);
    case Sprout => GraftTallied(w[|n.kind.Label()|..], i);
    case Enter(j) =>
      AddTallied(n.children[j], w[|n.kind.Label()|..], i);
      assert forall m | 0 <= m < |n.children| :: Tallied(t.children[m]);
    case Settle =>
    case Refuse =>
  }
}
