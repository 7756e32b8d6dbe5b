/** Wildcard kinds. Insertion descends into a wildcard child without comparing
    kinds, so a run may be accepted although two patterns disagree on a kind.
    Then, and only then, some accepted pattern is not stored under its own word. */
module Kinds {
  import opened Options
  import opened Patterns
  import opened Trie
  import opened Insertion
  import opened Recognition
  import opened Refinement
  import opened Routing
  import opened Guarantees

  /** What every accepted insertion keeps, kinds agreeing or not. */
  ghost predicate Tidy(n: Tree)
    decreases n
  {
    && n.kind.Label() != []
    && (n.kind.Static? ==> NoMarker(n.kind.s))
    && (n.children == [] ==> n.leaf.Some?)
    && Siblings(n.children)
    && forall j | 0 <= j < |n.children| :: Tidy(n.children[j])
  }

  /** The word may be inserted at the node: it starts with the node's first
      byte, or it starts with some wildcard at a wildcard node. */
  ghost predicate Meets(n: Tree, w: Word) {
    w != [] && MarkerFree(w) && if n.kind.Static? then n.HeadIs(w[0]) else !w[0].Lit?
  }

  lemma {:induction false} GraftTidy(w: Word, i: nat)
    requires w != [] && MarkerFree(w)
    ensures Tidy(Graft(w, i)) && Graft(w, i).HeadIs(w[0])
    decreases |w|
  {
    var (kind, k) := FirstKind(w);
    GraftHead(w, i);
    assert forall j | 0 <= j < k :: w[..k][j] == w[j];
    if k < |w| {
      MarkerFreeRest(w, k);
      GraftTidy(w[k..], i);
    }
  }

  lemma {:induction false} StepMeets(n: Tree, w: Word)
    requires Tidy(n) && Meets(n, w)
    ensures match Plan(n, w)
      case Cut(k) => 0 < k && (k < |w| ==> w[k].Lit? && w[k] != n.kind.Label()[k])
      case Sprout =>
        n.children == [] || forall j | 0 <= j < |n.children| ::
          n.children[j].kind.Static? && !n.children[j].HeadIs(w[|n.kind.Label()|])
      case Enter(j) => Meets(n.children[j], w[|n.kind.Label()|..])
      case _ => true
  {
    var name := n.kind.Label();
    if |name| < |w| {
      ScanFinds(n.children, w[|name|]);
      MarkerFreeRest(w, |name|);
      assert w[|name|..][0] == w[|name|];
    }
  }

  lemma {:induction false} AddKeepsTidy(n: Tree, w: Word, i: nat)
    requires Tidy(n) && Meets(n, w) && Add(n, w, i).Some?
    ensures var t := Add(n, w, i).value;
      Tidy(t) && t.kind.Label()[0] == n.kind.Label()[0] && t.kind.Static? == n.kind.Static?
    decreases n
  {
    StepMeets(n, w);
    match Plan(n, w)
    case Cut(k) => CutTidy(n, w, i, k);
    case Settle =>
    case Sprout =>
      var rest := w[|n.kind.Label()|..];
      MarkerFreeRest(w, |n.kind.Label()|);
      GraftTidy(rest, i);
      PushTidy(n, Graft(rest, i), WithCandidate(n.candidates, i));
    case Enter(j) =>
      AddKeepsTidy(n.children[j], w[|n.kind.Label()|..], i);
      UpdateTidy(n, j, Add(n.children[j], w[|n.kind.Label()|..], i).value, WithCandidate(n.candidates, i));
    case Refuse =>
  }

  lemma {:induction false} CutTidy(n: Tree, w: Word, i: nat, k: nat)
    requires Tidy(n) && MarkerFree(w) && n.kind.Static? && 0 < k < |n.kind.s| && k <= |w|
    requires k < |w| ==> w[k].Lit? && w[k] != n.kind.Label()[k]
    ensures var lower := n.(kind := Static(n.kind.s[k..]));
      && Tidy(lower)
      && forall t: Tree |
        && t.kind == Static(n.kind.s[..k])
        && t.children == (if k == |w| then [lower] else [lower, Graft(w[k..], i)])
        :: Tidy(t)
  {
    var s := n.kind.s;
    assert NoMarker(s[k..]) && NoMarker(s[..k]);
    if k < |w| {
      MarkerFreeRest(w, k);
      GraftTidy(w[k..], i);
    }
  }

  lemma {:induction false} PushTidy(n: Tree, g: Tree, seen: seq<nat>)
    requires Tidy(n) && Tidy(g)
    requires n.children == [] || (g.kind.Static? &&
      forall j | 0 <= j < |n.children| :: n.children[j].kind.Static? && !n.children[j].HeadIs(g.kind.Label()[0]))
    ensures Tidy(n.(candidates := seen, children := n.children + [g]))
  {
    var cs := n.children + [g];
    assert Siblings(cs);
  }

  lemma {:induction false} UpdateTidy(n: Tree, j: nat, c: Tree, seen: seq<nat>)
    requires Tidy(n) && Tidy(c) && j < |n.children|
    requires c.kind.Label()[0] == n.children[j].kind.Label()[0] && c.kind.Static? == n.children[j].kind.Static?
    ensures Tidy(n.(candidates := seen, children := n.children[j := c]))
  {
    var cs := n.children[j := c];
    assert Siblings(cs);
  }

  /** Two words that one tidy tree stores agree in their wildcard kinds. */
  lemma {:induction false} StoredWordsAgree(n: Tree, u: Word, v: Word)
    requires Tidy(n) && Lookup(n, u).Some? && Lookup(n, v).Some?
    ensures SameKinds(u, v)
    decreases n
  {
    var name := n.kind.Label();
    var j, x := LookupSplits(n, u);
    var m, y := LookupSplits(n, v);
    ConflictUnderPrefix(name, x, y);
    if x != [] && y != [] {
      if j == m {
        StoredWordsAgree(n.children[j], x, y);
      }
      assert n.children[j].kind.Label()[0] == x[0] && n.children[m].kind.Label()[0] == y[0];
    }
  }

  lemma {:induction false} RunIsTidy(ps: seq<string>)
    requires AllRooted(ps) && Run(ps).Some?
    ensures var r := Run(ps).value; r.root.Some? ==> Tidy(r.root.value) && r.root.value.HeadIs(Lit('/'))
    decreases |ps|
  {
    if ps != [] {
      var front, p := ps[..|ps| - 1], ps[|ps| - 1];
      assert AllRooted(front);
      RunIsTidy(front);
      if p != "*" {
        RootedWord(p);
        var w := WordOf(p).value;
        var r := Run(front).value;
        match r.root
        case None => GraftTidy(w, |r.keys|);
        case Some(t) => AddKeepsTidy(t, w, |r.keys|);
      }
    }
  }

  /** Route `i` is the one found under its own erased pattern. */
  ghost predicate StoredAsItself(ps: seq<string>, i: nat)
    requires Run(ps).Some? && i < |ps|
  {
    && Run(ps).value.root.Some? && WordOf(ps[i]).Some?
    && Lookup(Run(ps).value.root.value, WordOf(ps[i]).value) == Some(i)
  }

  /** An accepted run stores every pattern under its own word if and only if
      the wildcard kinds of the patterns agree. */
  lemma {:induction false} StoredIffKindsAgree(ps: seq<string>)
    requires AllRooted(ps) && Run(ps).Some?
    ensures KindConsistent(ps) <==>
            forall i | 0 <= i < |ps| && ps[i] != "*" ::
              StoredAsItself(ps, i)
  {
    RunIsTidy(ps);
    forall i | 0 <= i < |ps| ensures Fine(ps[i]) {
      AcceptedIsFine(ps, i);
    }
    if KindConsistent(ps) {
      RunRepresents(ps);
      forall i | 0 <= i < |ps| && ps[i] != "*"
        ensures StoredAsItself(ps, i)
      {
        FindIs(WordsOf(ps), i, WordOf(ps[i]).value);
      }
    } else {
      var i, j :| 0 <= i < j < |ps| && !KindsAgree(ps[i], ps[j]);
      if StoredAsItself(ps, i) && StoredAsItself(ps, j) {
        StoredWordsAgree(Run(ps).value.root.value, WordOf(ps[i]).value, WordOf(ps[j]).value);
      }
    }
  }

  lemma {:induction false} AcceptedIsFine(ps: seq<string>, i: nat)
    requires Run(ps).Some? && i < |ps|
    ensures Fine(ps[i])
    decreases |ps|
  {
    var front := ps[..|ps| - 1];
    if i < |front| {
      AcceptedIsFine(front, i);
    } else {
      InsertedIsFine(Run(front).value, ps[i]);
    }
  }

  lemma {:induction false} InsertedIsFine(r: Router, p: string)
    requires Insert(r, p).Some?
    ensures Fine(p)
  {
  }

  const PARAM_ROUTE := "/:id/foo"
  const REST_ROUTE := "/*p"

  lemma {:induction false} MixedWords()
    ensures Erase(PARAM_ROUTE, 0) == Some([Lit('/'), Par] + Lits("/foo"))
    ensures Erase(REST_ROUTE, 0) == Some([Lit('/'), Star])
    ensures IsAscii(PARAM_ROUTE) && IsAscii(REST_ROUTE)
  {
    var p, q := PARAM_ROUTE, REST_ROUTE;
    assert SegmentEnd(p, 4) == 4 && SegmentEnd(p, 3) == 4 && SegmentEnd(p, 2) == 4;
    assert p[2..4] == "id";
    assert WildcardEnd(p, 1) == Some(4);
    EraseLiterals(p, 4, 8);
    assert p[4..8] == "/foo";
    assert Erase(p, 8) == Some([]);
    assert Lits("/foo") + [] == Lits("/foo");
    assert Erase(p, 4) == Some(Lits("/foo"));
    assert Erase(p, 1) == Some([Par] + Lits("/foo"));
    assert [Lit('/')] + ([Par] + Lits("/foo")) == [Lit('/'), Par] + Lits("/foo");
    assert SegmentEnd(q, 3) == 3 && SegmentEnd(q, 2) == 3;
    assert q[2..3] == "p";
    assert WildcardEnd(q, 1) == Some(3);
    assert Erase(q, 3) == Some([]);
    assert [Star] + [] == [Star];
    assert Erase(q, 1) == Some([Star]);
    assert [Lit('/')] + [Star] == [Lit('/'), Star];
  }

  lemma {:induction false} OnePattern(p: string, w: Word)
    requires IsAscii(p) && p != "*" && Erase(p, 0) == Some(w) && w != [] && w[0].Lit? && Graftable(w)
    ensures Run([p]) == Some(Router([p], Some(Graft(w, 0)), None))
  {
    assert [p][..0] == [] && [] + [p] == [p];
    assert Run([p][..0]) == Some(EMPTY);
    assert InsertTree(None, p, 0) == Some(Graft(w, 0));
    assert MapInsert([], p) == [p];
  }

  lemma {:induction false} TwoPatterns(p: string, q: string, t: Tree, w: Word)
    requires IsAscii(q) && q != "*" && Erase(q, 0) == Some(w)
    requires Run([p]) == Some(Router([p], Some(t), None))
    ensures var r := Add(t, w, 1);
      Run([p, q]) == if r.Some? then Some(Router(MapInsert([p], q), r, None)) else None
  {
    assert [p, q][..1] == [p];
    assert InsertTree(Some(t), q, 1) == Add(t, w, 1);
  }

  lemma {:induction false} RootOf(w: Word)
    requires |w| >= 2 && w[0] == Lit('/') && !w[1].Lit?
    ensures Graft(w, 0) == Tree(Static("/"), [0], None, [Graft(w[1..], 0)])
    ensures Static("/").Label() == [Lit('/')] == w[..1] && LitRun(w) == 1
  {
    assert LitRun(w[1..]) == 0;
    assert LitRun(w) == 1;
    assert Text(w[..1]) == "/";
  }

  /** A catch-all word lands in the parameter child, and is not found as itself. */
  lemma {:induction false} RestUnderParam(s: Tree, c: Tree)
    requires s == Tree(Static("/"), [0], None, [c])
    requires c.kind == Param && c.leaf == None && |c.children| == 1 && c.children[0].kind.Static?
    ensures var r := Add(s, [Lit('/'), Star], 1);
      r.Some? && Lookup(r.value, [Lit('/'), Star]) == None
  {
    var v := [Lit('/'), Star];
    assert s.kind.Label() == [Lit('/')] == v[..1] && v[1..] == [Star];
    assert Plan(s, v) == Enter(0);
    assert Plan(c, [Star]) == Settle;
    assert v[|s.kind.Label()|..] == [Star];
    assert Add(c, [Star], 1) == Some(c.(candidates := WithCandidate(c.candidates, 1), leaf := Some(1)));
    var r := Add(s, v, 1).value;
    assert r.children[0].kind == Param && r.children[1..] == [];
    assert Pick(r.children, Star) == 1;
    assert Lookup(r, v) == Below(r, [Star]);
  }

  /** A parameter word goes on below a catch-all leaf, and is not found as itself. */
  lemma {:induction false} ParamUnderRest(t: Tree, d: Tree, w: Word)
    requires t == Tree(Static("/"), [0], None, [d])
    requires d.kind == CatchAll && d.children == []
    requires |w| >= 2 && w[0] == Par && w[1].Lit? && Graftable(w[1..])
    ensures var r := Add(t, [Lit('/')] + w, 1);
      r.Some? && Lookup(r.value, [Lit('/')] + w) == None
  {
    var u := [Lit('/')] + w;
    assert t.kind.Label() == [Lit('/')] == u[..1] && u[1..] == w;
    assert Plan(t, u) == Enter(0);
    assert Plan(d, w) == Sprout;
    assert u[|t.kind.Label()|..] == w && t.children[0] == d;
    assert Add(d, w, 1).Some?;
    var r := Add(t, u, 1).value;
    assert r.children[0].kind == CatchAll && r.children[1..] == [];
    assert Pick(r.children, Par) == 1;
    assert Lookup(r, u) == Below(r, w);
  }

  /** The excluded case exists: these two patterns disagree on the kind of their
      first wildcard, are accepted in either order, and whichever comes second
      is then not found under its own word. */
  lemma {:induction false} MixedKindsAreAccepted()
    ensures Run([PARAM_ROUTE, REST_ROUTE]).Some? && Run([REST_ROUTE, PARAM_ROUTE]).Some?
    ensures !KindConsistent([PARAM_ROUTE, REST_ROUTE])
    ensures !StoredAsItself([PARAM_ROUTE, REST_ROUTE], 1) && !StoredAsItself([REST_ROUTE, PARAM_ROUTE], 1)
  {
    var ps := [PARAM_ROUTE, REST_ROUTE];
    MixedWords();
    var u, v := [Lit('/'), Par] + Lits("/foo"), [Lit('/'), Star];
    assert u[1..] == [Par] + Lits("/foo") && v[1..] == [Star];
    assert u == [Lit('/')] + u[1..] && u[1..][1..] == Lits("/foo");
    assert !SameKinds(u[1..], v[1..]);
    assert !KindsAgree(ps[0], ps[1]);
    RootOf(u);
    RootOf(v);
    assert Graftable(Lits("/foo"));
    OnePattern(PARAM_ROUTE, u);
    OnePattern(REST_ROUTE, v);
    GraftHead(Lits("/foo"), 0);
    RestUnderParam(Graft(u, 0), Graft(u[1..], 0));
    ParamUnderRest(Graft(v, 0), Graft(v[1..], 0), u[1..]);
    TwoPatterns(PARAM_ROUTE, REST_ROUTE, Graft(u, 0), v);
    TwoPatterns(REST_ROUTE, PARAM_ROUTE, Graft(v, 0), u);
  }
}
