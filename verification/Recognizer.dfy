/** The recognizer object: an insertion-ordered map of routes, updated in place
    together with the trie over their patterns. */
module Recognizer {
  import opened Options
  import opened Patterns
  import opened Trie
  import Insertion
  import opened HeapTree
  import opened HeapBranch
  import opened HeapInsert
  import opened Recognition
  import opened Routing

  // ---- the trie stays firm ------------------------------------------------

  lemma {:induction false} GraftFirm(w: Word, i: nat)
    requires w != [] && MarkerFree(w)
    ensures Firm(Graft(w, i)) && Graft(w, i).kind.Label() != []
    decreases |w|
  {
    var (kind, k) := FirstKind(w);
    assert forall j | 0 <= j < k :: w[..k][j] == w[j];
    if k < |w| {
      MarkerFreeRest(w, k);
      GraftFirm(w[k..], i);
    }
  }

  lemma {:induction false} AddCutFirm(n: Tree, w: Word, i: nat, k: nat)
    requires Firm(n) && MarkerFree(w) && Plan(n, w) == Cut(k) && Add(n, w, i).Some?
    ensures var t := Add(n, w, i).value;
      Firm(t) && t.kind.Static? && (n.kind.Label() != [] && w != [] && n.HeadIs(w[0]) ==> t.kind.Label() != [])
  {
    assert NoMarker(n.kind.s[..k]) && NoMarker(n.kind.s[k..]);
    if k < |w| {
      MarkerFreeRest(w, k);
      GraftFirm(w[k..], i);
    }
  }

  lemma {:induction false} PushFirm(n: Tree, g: Tree, seen: seq<nat>)
    requires Firm(n) && Firm(g) && g.kind.Label() != []
    ensures Firm(n.(candidates := seen, children := n.children + [g]))
  {
  }

  lemma {:induction false} UpdateFirm(n: Tree, j: nat, c: Tree, seen: seq<nat>)
    requires Firm(n) && Firm(c) && c.kind.Label() != [] && j < |n.children|
    ensures Firm(n.(candidates := seen, children := n.children[j := c]))
  {
  }

  /** Only a cut changes the label of a node. */
  lemma {:induction false} AddKeepsLabel(n: Tree, w: Word, i: nat)
    requires Add(n, w, i).Some? && !Plan(n, w).Cut?
    ensures Add(n, w, i).value.kind == n.kind
  {
  }

  lemma {:induction false} AddFirm(n: Tree, w: Word, i: nat)
    requires Firm(n) && MarkerFree(w) && Add(n, w, i).Some?
    ensures var t := Add(n, w, i).value;
      && Firm(t) && t.kind.Static? == n.kind.Static?
      && (n.kind.Label() != [] && (n.kind.Static? ==> w != [] && n.HeadIs(w[0])) ==> t.kind.Label() != [])
    decreases n
  {
    var seen := WithCandidate(n.candidates, i);
    match Plan(n, w)
    case Cut(k) => AddCutFirm(n, w, i, k);
    case Settle => AddKeepsLabel(n, w, i);
    case Sprout =>
      var rest := w[|n.kind.Label()|..];
      AddKeepsLabel(n, w, i);
      MarkerFreeRest(w, |n.kind.Label()|);
      GraftFirm(rest, i);
      PushFirm(n, Graft(rest, i), seen);
    case Enter(j) =>
      var rest := w[|n.kind.Label()|..];
      AddKeepsLabel(n, w, i);
      MarkerFreeRest(w, |n.kind.Label()|);
      EnteredHead(n, w, j);
      AddFirm(n.children[j], rest, i);
      UpdateFirm(n, j, Add(n.children[j], rest, i).value, seen);
    case Refuse =>
  }

  lemma {:induction false} EnteredHead(n: Tree, w: Word, j: nat)
    requires Plan(n, w) == Enter(j) && Firm(n)
    ensures n.children[j].kind.Label() != []
    ensures var rest := w[|n.kind.Label()|..];
      rest != [] && (n.children[j].kind.Static? ==> n.children[j].HeadIs(rest[0]))
  {
    assert w[|n.kind.Label()|..][0] == w[|n.kind.Label()|];
  }

  // ---- routes in insertion order --------------------------------------------

  function Keys<T>(inner: seq<(string, T)>): seq<string> {
    seq(|inner|, i requires 0 <= i < |inner| => inner[i].0)
  }

  /** The place of a key, or the number of entries. */
  function IndexOf<T>(inner: seq<(string, T)>, key: string): (i: nat)
    ensures i <= |inner|
    ensures i < |inner| ==> inner[i].0 == key
    ensures forall j | 0 <= j < i :: inner[j].0 != key
  {
    if inner == [] || inner[0].0 == key then 0 else 1 + IndexOf(inner[1..], key)
  }

  /** Insertion into the map: a known key keeps its place and gets the new value. */
  function MapPut<T>(inner: seq<(string, T)>, key: string, value: T): (r: seq<(string, T)>)
    ensures Keys(r) == MapInsert(Keys(inner), key)
    ensures key !in Keys(inner) ==> r == inner + [(key, value)]
    ensures key in Keys(inner) ==> IndexOf(inner, key) < |inner| && r == inner[IndexOf(inner, key) := (key, value)]
  {
    var i := IndexOf(inner, key);
    if i < |inner| then
      assert Keys(inner)[i] == key;
      inner[i := (key, value)]
    else
      assert key !in Keys(inner);
      inner + [(key, value)]
  }

  // ---- the object -----------------------------------------------------------

  /** Every stored route number is that of an entry. */
  ghost predicate InBounds(r: Router) {
    && (r.asterisk.Some? ==> r.asterisk.value < |r.keys|)
    && (r.root.Some? ==> forall i | i in Indices(r.root.value) :: i < |r.keys|)
  }

  class Recognizer<T> {
    var inner: seq<(string, T)>
    var root: Node?
    var asterisk: Option<nat>
    ghost var nodes: set<Node>

    ghost predicate Valid()
      reads this, nodes
    {
      if root == null then nodes == {}
      else Whole(nodes, root) && Firm(root.view) && root.kind.Static?
    }

    /** The value of the recognizer. */
    ghost function Model(): Router
      reads this, root
    {
      Router(Keys(inner), if root == null then None else Some(root.view), asterisk)
    }

    constructor ()
      ensures Valid() && Model() == EMPTY && inner == [] && nodes == {}
    {
      inner, root, asterisk, nodes := [], null, None, {};
    }

    /** Register a route; a refused insertion may leave the trie half changed. */
    method Insert(path: string, data: T) returns (ok: bool)
      requires Valid()
      modifies this, nodes
      ensures fresh(nodes - old(nodes))
      ensures ok <==> Routing.Insert(old(Model()), path).Some?
      ensures ok ==> Valid() && Model() == Routing.Insert(old(Model()), path).value
      ensures ok ==> inner == MapPut(old(inner), path, data)
    {
      if !IsAscii(path) {
        return false;
      }
      if path == "*" {
        if asterisk.Some? {
          return false;
        }
        asterisk := Some(|inner|);
      } else {
        ok := VisitTree(path, |inner|);
        if !ok {
          return false;
        }
      }
      inner := MapPut(inner, path, data);
      ok := true;
    }

    /** Look a path up; the captures are those recorded on the way, even on failure. */
    method Recognize(path: string) returns (r: Reply<seq<nat>>, value: Option<T>)
      requires Valid() && InBounds(Model())
      ensures r == Routing.Recognize(Model(), path)
      ensures r.outcome.Matched? ==> r.outcome.i < |inner| && value == Some(inner[r.outcome.i].1)
      ensures !r.outcome.Matched? ==> value == None
    {
      value := None;
      if path == "*" {
        match asterisk
        case Some(i) => r := Reply(Matched(i), None);
        case None => r := Reply(NotMatched, None);
      } else if root == null {
        r := Reply(NotMatched, None);
      } else {
        r := WalkTree(root, path, nodes);
        WalkInBounds(root.view, path, 0, None);
      }
      if r.outcome.Matched? {
        value := Some(inner[r.outcome.i].1);
      }
    }

    method VisitTree(path: string, index: nat) returns (ok: bool)
      requires Valid()
      modifies this`root, this`nodes, nodes
      ensures fresh(nodes - old(nodes))
      ensures ok <==> InsertTree(old(Model()).root, path, index).Some?
      ensures ok ==> Valid() && Model().root == InsertTree(old(Model()).root, path, index)
    {
      if Erase(path, 0).Some? {
        EraseMarkerFree(path, 0);
      }
      if root != null {
        if Erase(path, 0).Some? && Add(root.view, Erase(path, 0).value, index).Some? {
          AddFirm(root.view, Erase(path, 0).value, index);
        }
        ghost var old_view := root.view;
        ok, nodes := AddPath(root, path, index, nodes);
        if ok {
          assert root.view.kind == root.kind;
        }
        return;
      }
      ok := PlantRoot(path, index);
    }

    /** The first route: a static root up to the first wildcard, and a branch for the rest. */
    method PlantRoot(path: string, index: nat) returns (ok: bool)
      requires root == null && nodes == {}
      modifies this`root, this`nodes
      ensures fresh(nodes)
      ensures ok <==> InsertTree(None, path, index).Some?
      ensures ok ==> Valid() && Model().root == InsertTree(None, path, index)
    {
      PlantIsStem(path, index);
      ok, root, nodes := NewRoot(path, index);
    }
  }

  /** Among the children of a node of a whole tree, the one the walk takes. */
  method ChooseChild(children: seq<Node>, path: string, k: nat) returns (j: nat)
    requires k <= |path| && forall i | 0 <= i < |children| :: Settled(children[i]) && children[i].kind.Label() != []
    ensures j == Choose(Views(children), path, k)
  {
    ghost var views := Views(children);
    j := 0;
    assert views[0..] == views;
    while j < |children|
      invariant j <= |children|
      invariant Choose(views, path, k) == j + Choose(views[j..], path, k)
    {
      assert views[j..][0] == children[j].view && views[j..][1..] == views[j + 1..];
      match children[j].kind {
        case Static(s) =>
          if k < |path| && s[0] == path[k] {
            return;
          }
        case _ =>
          return;
      }
      j := j + 1;
    }
  }

  /** The walk finds only stored routes. */
  lemma {:induction false} WalkInBounds(n: Tree, path: string, k: nat, caps: Option<Captures>)
    requires k <= |path|
    ensures var o := Walk(n, path, k, caps).outcome; o.Matched? ==> o.i in Indices(n)
    decreases n, 1
  {
    match n.kind
    case Static(s) =>
      var rest := path[k..];
      NextInBounds(n, path, |path|, caps);
      if |s| < |rest| {
        NextInBounds(n, path, k + |s|, caps);
      }
    case Param =>
      var e := SegmentEnd(path, k);
      NextInBounds(n, path, e, PushParam(caps, (k, e)));
    case CatchAll =>
  }

  lemma {:induction false} NextInBounds(n: Tree, path: string, k: nat, caps: Option<Captures>)
    requires k <= |path|
    ensures var o := Next(n, path, k, caps).outcome; o.Matched? ==> o.i in Indices(n)
    decreases n, 0
  {
    var j := Choose(n.children, path, k);
    if j < |n.children| {
      WalkInBounds(n.children[j], path, k, caps);
    }
  }

  /** Walk down the tree along the path. */
  method WalkTree(root: Node, path: string, ghost nodes: set<Node>) returns (r: Reply<seq<nat>>)
    requires Whole(nodes, root) && Firm(root.view)
    ensures r == Walk(root.view, path, 0, None)
  {
    var n: Node, offset: nat, caps: Option<Captures> := root, 0, None;
    while true
      invariant n in nodes && offset <= |path| && Firm(n.view)
      invariant Walk(root.view, path, 0, None) == Walk(n.view, path, offset, caps)
      decreases n.view
    {
      assert Settled(n) && Linked(nodes, n);
      ghost var view := n.view;
      match n.kind {
        case Static(s) =>
          var rest := path[offset..];
          if |s| < |rest| && s <= rest {
            offset := offset + |s|;
          } else if |s| > |rest| && rest <= s {
            offset := |path|;
          } else if s == rest {
            offset := |path|;
            if n.leaf.Some? {
              return Reply(Matched(n.leaf.value), caps);
            }
          } else {
            return Reply(NotMatched, caps);
          }
        case Param =>
          var end := SegmentEnd(path, offset);
          caps := PushParam(caps, (offset, end));
          offset := end;
          if offset >= |path| {
            return Reply(if n.leaf.Some? then Matched(n.leaf.value) else PartiallyMatched(n.candidates), caps);
          }
        case CatchAll =>
          caps := SetWildcard(caps, (offset, |path|));
          return Reply(if n.leaf.Some? then Matched(n.leaf.value) else PartiallyMatched(n.candidates), caps);
      }
      assert Walk(root.view, path, 0, None) == Next(view, path, offset, caps);
      assert forall i | 0 <= i < |n.children| :: n.children[i] in nodes && view.children[i] == n.children[i].view;
      var j := ChooseChild(n.children, path, offset);
      if j == |n.children| {
        return Reply(PartiallyMatched(n.candidates), caps);
      }
      n := n.children[j];
    }
  }

  /** A fresh tree for the first route. */
  method NewRoot(path: string, index: nat) returns (ok: bool, n: Node, ghost nodes: set<Node>)
    ensures fresh(n) && fresh(nodes) && n.kind.Static?
    ensures var pos := WildcardBegin(path, 0); var rest := Erase(path, pos);
      && (ok <==> rest.Some? && Spaced(rest.value))
      && (ok ==> Whole(nodes, n) && n.view == Stem(Static(path[..pos]), rest.value, index))
  {
    var pos := WildcardBegin(path, 0);
    n := new Node(Static(path[..pos]), [index], None, []);
    ok, nodes := GrowUnder(n, path, pos, index, {n});
    if ok {
      label Grown: assert Shown(n) == Stem(n.kind, Erase(path, pos).value, index);
      ghost var shown := Shown(n);
      n.view := shown;
      forall x | x in nodes ensures Linked(nodes, x) && Settled(x) {
        assert old@Grown(Linked(nodes, x)) && n !in x.children;
        assert Views(x.children) == old@Grown(Views(x.children));
      }
    }
  }

  /** What a first route builds, by the bytes of its path. */
  lemma {:induction false} PlantIsStem(path: string, index: nat)
    ensures var pos := WildcardBegin(path, 0); var rest := Erase(path, pos);
      InsertTree(None, path, index) ==
        if rest.Some? && Spaced(rest.value) then Some(Stem(Static(path[..pos]), rest.value, index)) else None
    ensures InsertTree(None, path, index).Some? ==> Firm(InsertTree(None, path, index).value)
  {
    var pos := WildcardBegin(path, 0);
    EraseLiterals(path, 0, pos);
    EraseAtWildcard(path, pos);
    assert path[0..pos] == path[..pos];
    if Erase(path, pos).Some? {
      var rest := Erase(path, pos).value;
      GraftableIsSpaced(path[..pos], rest);
      if pos > 0 {
        GraftOfLiterals(path[..pos], rest, index);
      } else {
        assert Lits("") + rest == rest;
      }
      EraseMarkerFree(path, pos);
      if rest != [] {
        GraftFirm(rest, index);
      }
    }
  }
}
