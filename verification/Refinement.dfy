/** The walk over a valid trie computes exactly what prefix filtering over the
    flat list of its patterns computes. */
module Refinement {
  import opened Options
  import opened Patterns
  import opened Trie
  import opened Insertion
  import opened Recognition

  ghost predicate Distinct(words: Words) {
    forall i, j | 0 <= i < j < |words| :: words[i].Some? ==> words[i] != words[j]
  }

  lemma {:induction false} FindIs(words: Words, i: nat, u: Word)
    requires Distinct(words) && i < |words| && words[i] == Some(u)
    ensures Find(words, u) == Some(i)
  {
    var j := Find(words, u).value;
    assert words[j] == words[i];
  }

  /** The patterns that begin with `u`, which ends in the label of `n`, are
      exactly those stored at or below `n`. */
  ghost predicate Stands(words: Words, u: Word, n: Tree) {
    Distinct(words) && Valid(n) && forall v :: Find(words, u + v) == Below(n, v)
  }

  /** The same before the label of `n` is consumed. */
  ghost predicate Enters(words: Words, u: Word, n: Tree) {
    && Distinct(words) && Valid(n) && n.kind.Label() != []
    && forall v: Word | v != [] && n.HeadIs(v[0]) :: Find(words, u + v) == Lookup(n, v)
  }

  lemma {:induction false} StandsBelow(words: Words, u: Word, n: Tree, j: nat)
    requires Stands(words, u, n) && j < |n.children|
    ensures Enters(words, u, n.children[j])
  {
    var c := n.children[j];
    forall v: Word | v != [] && c.HeadIs(v[0]) ensures Find(words, u + v) == Lookup(c, v) {
      PickFinds(n.children, j, v[0]);
    }
  }

  lemma {:induction false} EntersThenStands(words: Words, u: Word, n: Tree)
    requires Enters(words, u, n)
    ensures Stands(words, u + n.kind.Label(), n)
  {
    var name := n.kind.Label();
    forall v ensures Find(words, u + name + v) == Below(n, v) {
      assert u + name + v == u + (name + v);
      assert (name + v)[|name|..] == v;
    }
  }

  lemma {:induction false} ExtendsSplits(words: Words, i: nat, u: Word) returns (v: Word)
    requires i < |words| && Extends(words, i, u)
    ensures words[i] == Some(u + v)
  {
    v := words[i].value[|u|..];
    assert words[i].value == u + v;
  }

  lemma {:induction false} LeafIsFound(words: Words, u: Word, n: Tree)
    requires Stands(words, u, n)
    ensures Find(words, u) == n.leaf
  {
    assert u + [] == u;
    assert Find(words, u + []) == Below(n, []);
  }

  /** The candidates kept at a node are the patterns that begin with its labels. */
  lemma {:induction false} CandidatesAreAlive(words: Words, u: Word, n: Tree)
    requires Stands(words, u, n)
    ensures Alive(words, u) == ToSet(n.candidates)
    ensures Live(words, u)
  {
    forall i | i in Alive(words, u) ensures i in n.candidates {
      var v := ExtendsSplits(words, i, u);
      FindIs(words, i, u + v);
      assert (n.kind.Label() + v)[|n.kind.Label()|..] == v;
      StoredIsIndexed(n, n.kind.Label() + v);
    }
    forall i | i in n.candidates ensures i in Alive(words, u) {
      var w := IndexedIsStored(n, i);
      var v := w[|n.kind.Label()|..];
      assert Find(words, u + v) == Some(i);
      assert Extends(words, i, u);
    }
    var w := SomeWord(n);
    var v := w[|n.kind.Label()|..];
    assert Extends(words, Find(words, u + v).value, u);
  }

  /** Some pattern goes on with `x` exactly when some child starts with it. */
  lemma {:induction false} LiveIsChild(words: Words, u: Word, n: Tree, x: Token)
    requires Stands(words, u, n)
    ensures Live(words, u + [x]) <==> Pick(n.children, x) < |n.children|
  {
    var j := Pick(n.children, x);
    if j < |n.children| {
      var v := SomeWord(n.children[j]);
      PickFinds(n.children, j, x);
      assert v[0] == x;
      assert u + v == u + [x] + v[1..];
      assert Extends(words, Find(words, u + v).value, u + [x]);
    }
    if i :| 0 <= i < |words| && Extends(words, i, u + [x]) {
      var v := ExtendsSplits(words, i, u + [x]);
      assert u + [x] + v == u + ([x] + v);
      FindIs(words, i, u + ([x] + v));
      assert Below(n, [x] + v).Some?;
    }
  }

  // ---- inside a label -------------------------------------------------------

  /** All patterns that begin with `u` begin with `u + r`. */
  ghost predicate Funnel(words: Words, u: Word, r: Word) {
    Live(words, u) && forall i | 0 <= i < |words| :: Extends(words, i, u) ==> Extends(words, i, u + r)
  }

  lemma {:induction false} EntersFunnels(words: Words, u: Word, n: Tree)
    requires Enters(words, u, n)
    ensures Funnel(words, u + [n.kind.Label()[0]], n.kind.Label()[1..])
    ensures Stands(words, u + [n.kind.Label()[0]] + n.kind.Label()[1..], n)
  {
    var name := n.kind.Label();
    var u' := u + [name[0]];
    EntersThenStands(words, u, n);
    assert u' + name[1..] == u + name;
    CandidatesAreAlive(words, u + name, n);
    var i :| 0 <= i < |words| && Extends(words, i, u + name);
    assert Extends(words, i, u');
    forall i | 0 <= i < |words| && Extends(words, i, u') ensures Extends(words, i, u + name) {
      EntersWhole(words, u, n, i);
    }
  }

  /** A pattern that begins with the first token of a label begins with the whole label. */
  lemma {:induction false} EntersWhole(words: Words, u: Word, n: Tree, i: nat)
    requires Enters(words, u, n) && i < |words| && Extends(words, i, u + [n.kind.Label()[0]])
    ensures Extends(words, i, u + n.kind.Label())
  {
    var name := n.kind.Label();
    var v := ExtendsSplits(words, i, u + [name[0]]);
    var w := [name[0]] + v;
    assert u + [name[0]] + v == u + w;
    FindIs(words, i, u + w);
    assert Lookup(n, w).Some?;
    assert w == name + w[|name|..];
    assert u + w == u + name + w[|name|..];
  }

  /** Inside a stretch of literals that all remaining patterns share, filtering
      compares the path with that stretch. */
  lemma {:induction false} FilterThrough(words: Words, u: Word, r: string, path: string, k: nat, over: bool,
                                         caps: Option<Captures>)
    requires k <= |path| && Funnel(words, u, Lits(r)) && (over ==> k == |path|)
    ensures Live(words, u + Lits(r))
    ensures Filter(words, u, path, k, over, caps) ==
      if r <= path[k..] then Filter(words, u + Lits(r), path, k + |r|, over, caps)
      else if path[k..] <= r then Filter(words, u + Lits(r), path, |path|, true, caps)
      else Reply(NotMatched, caps)
    decreases |r|
  {
    if r == "" {
      assert u + Lits(r) == u;
    } else {
      var u' := u + [Lit(r[0])];
      FunnelStep(words, u, r);
      FilterStep(words, u, r[0], path, k, over, caps);
      assert u' + Lits(r[1..]) == u + Lits(r);
      assert r == [r[0]] + r[1..];
      if k == |path| {
        FilterThrough(words, u', r[1..], path, k, true, caps);
      } else {
        assert path[k..] == [path[k]] + path[k + 1..];
        if path[k] == r[0] {
          FilterThrough(words, u', r[1..], path, k + 1, over, caps);
        } else {
          FilterThroughLive(words, u, r);
        }
      }
    }
  }

  lemma {:induction false} FilterThroughLive(words: Words, u: Word, r: string)
    requires Funnel(words, u, Lits(r))
    ensures Live(words, u + Lits(r))
  {
    var i :| 0 <= i < |words| && Extends(words, i, u);
    assert Extends(words, i, u + Lits(r));
  }

  /** One step of filtering where all remaining patterns go on with `c`. */
  lemma {:induction false} FilterStep(words: Words, u: Word, c: char, path: string, k: nat, over: bool,
                                      caps: Option<Captures>)
    requires k <= |path| && Live(words, u)
    requires Find(words, u).None? && ForcedLiteral(words, u) == Some(c) && Live(words, u + [Lit(c)])
    requires forall x | x != Lit(c) :: !Live(words, u + [x])
    ensures Filter(words, u, path, k, over, caps) ==
      if k == |path| then Filter(words, u + [Lit(c)], path, k, true, caps)
      else if path[k] == c then Filter(words, u + [Lit(c)], path, k + 1, false, caps)
      else Reply(NotMatched, caps)
  {
  }

  lemma {:induction false} ExtendsByOne(words: Words, i: nat, u: Word, x: Token)
    requires i < |words|
    ensures Extends(words, i, u + [x]) <==>
            Extends(words, i, u) && |u| < |words[i].value| && words[i].value[|u|] == x
  {
    if Extends(words, i, u) && |u| < |words[i].value| {
      assert words[i].value[..|u| + 1] == u + [words[i].value[|u|]];
    }
  }

  /** Inside a funnel the next token of every remaining pattern is known. */
  lemma {:induction false} FunnelToken(words: Words, i: nat, u: Word, r: string)
    requires r != "" && Funnel(words, u, Lits(r)) && i < |words| && Extends(words, i, u)
    ensures |u| < |words[i].value| && words[i].value[|u|] == Lit(r[0])
    ensures Extends(words, i, u + [Lit(r[0])])
  {
    assert words[i].value[|u|] == (u + Lits(r))[|u|];
    ExtendsByOne(words, i, u, Lit(r[0]));
  }

  lemma {:induction false} NoOtherWay(words: Words, u: Word, r: string, x: Token)
    requires r != "" && Funnel(words, u, Lits(r)) && x != Lit(r[0])
    ensures !Live(words, u + [x])
  {
    if i :| 0 <= i < |words| && Extends(words, i, u + [x]) {
      ExtendsByOne(words, i, u, x);
      FunnelToken(words, i, u, r);
    }
  }

  lemma {:induction false} FunnelGoesOn(words: Words, u: Word, r: string)
    requires r != "" && Funnel(words, u, Lits(r))
    ensures Live(words, u + [Lit(r[0])])
    ensures Funnel(words, u + [Lit(r[0])], Lits(r[1..]))
  {
    var c := r[0];
    var i :| 0 <= i < |words| && Extends(words, i, u);
    FunnelToken(words, i, u, r);
    assert u + [Lit(c)] + Lits(r[1..]) == u + Lits(r);
    forall i | 0 <= i < |words| && Extends(words, i, u + [Lit(c)])
      ensures Extends(words, i, u + [Lit(c)] + Lits(r[1..]))
    {
      ExtendsByOne(words, i, u, Lit(c));
    }
  }

  lemma {:induction false} FunnelForces(words: Words, u: Word, r: string)
    requires r != "" && Funnel(words, u, Lits(r))
    ensures ForcedLiteral(words, u) == Some(r[0])
    ensures Find(words, u).None?
  {
    var i :| 0 <= i < |words| && Extends(words, i, u);
    FunnelToken(words, i, u, r);
    forall j | 0 <= j < |words| && Extends(words, j, u) ensures Extends(words, j, u + [Lit(r[0])]) {
      FunnelToken(words, j, u, r);
    }
    assert Forced(words, u, r[0]);
    var d := ForcedLiteral(words, u).value;
    ExtendsByOne(words, i, u, Lit(d));
    if Find(words, u).Some? {
      FunnelToken(words, Find(words, u).value, u, r);
    }
  }

  lemma {:induction false} FunnelStep(words: Words, u: Word, r: string)
    requires r != "" && Funnel(words, u, Lits(r))
    ensures Funnel(words, u + [Lit(r[0])], Lits(r[1..]))
    ensures Find(words, u).None? && !Live(words, u + [Star]) && !Live(words, u + [Par])
    ensures Live(words, u + [Lit(r[0])]) && ForcedLiteral(words, u) == Some(r[0])
    ensures forall x | x != Lit(r[0]) :: !Live(words, u + [x])
  {
    FunnelGoesOn(words, u, r);
    FunnelForces(words, u, r);
    forall x | x != Lit(r[0]) ensures !Live(words, u + [x]) {
      NoOtherWay(words, u, r, x);
    }
  }

  // ---- past a label -----------------------------------------------------------

  /** At the end of a label no single literal is forced: a pattern ends here,
      or the patterns part, or a wildcard comes next. */
  lemma {:induction false} NothingForced(words: Words, u: Word, n: Tree, path: string, k: nat)
    requires Stands(words, u, n) && k <= |path|
    requires Choose(n.children, path, k) == |n.children|
    requires n.kind.Param? ==> k < |path| && path[k] == '/'
    ensures ForcedLiteral(words, u) == None
  {
    if c :| Forced(words, u, c) {
      if n.leaf.Some? {
        LeafIsFound(words, u, n);
        var i := Find(words, u).value;
        assert Extends(words, i, u);
        assert false;
      }
      forall j | 0 <= j < |n.children| ensures n.children[j].HeadIs(Lit(c)) {
        var v := SomeWord(n.children[j]);
        PickFinds(n.children, j, v[0]);
        var i := Find(words, u + v).value;
        assert Extends(words, i, u);
        assert (u + v)[|u|] == v[0];
      }
    }
  }

  /** With the label of `n` behind it, the walk goes on as filtering does. */
  lemma {:induction false} NextIsFilter(words: Words, u: Word, n: Tree, path: string, k: nat, over: bool,
                                        caps: Option<Captures>)
    requires Stands(words, u, n) && k <= |path| && (over ==> k == |path|)
    requires k == |path| && !over ==> n.leaf.None?
    requires n.kind.Param? ==> k < |path| && path[k] == '/'
    requires !n.kind.CatchAll?
    ensures Live(words, u)
    ensures AsSet(Next(n, path, k, caps)) == Filter(words, u, path, k, over, caps)
    decreases n, 0, 0
  {
    CandidatesAreAlive(words, u, n);
    LiveIsChild(words, u, n, Star);
    LiveIsChild(words, u, n, Par);
    LeafIsFound(words, u, n);
    var j := Choose(n.children, path, k);
    if j < |n.children| {
      StandsBelow(words, u, n, j);
      WalkIsFilter(words, u, n, j, path, k, over, caps);
    } else {
      NothingForced(words, u, n, path, k);
      if k < |path| {
        LiveIsChild(words, u, n, Lit(path[k]));
      }
    }
  }

  lemma {:induction false} WalkIsFilter(words: Words, u: Word, n: Tree, j: nat, path: string, k: nat, over: bool,
                                        caps: Option<Captures>)
    requires Stands(words, u, n) && k <= |path| && (over ==> k == |path|)
    requires k == |path| && !over ==> n.leaf.None?
    requires j < |n.children| && j == Choose(n.children, path, k)
    requires Enters(words, u, n.children[j]) && Live(words, u)
    ensures AsSet(Walk(n.children[j], path, k, caps)) == Filter(words, u, path, k, over, caps)
    decreases n.children[j], 3
  {
    var c := n.children[j];
    var name := c.kind.Label();
    LeafIsFound(words, u, n);
    EntersThenStands(words, u, c);
    CandidatesAreAlive(words, u + name, c);
    LeafIsFound(words, u + name, c);
    LiveIsChild(words, u, n, name[0]);
    PickFinds(n.children, j, name[0]);
    LiveIsChild(words, u, n, Star);
    LiveIsChild(words, u, n, Par);
    match c.kind
    case CatchAll =>
    case Param =>
      var e := SegmentEnd(path, k);
      if e < |path| {
        NextIsFilter(words, u + [Par], c, path, e, false, PushParam(caps, (k, e)));
      }
    case Static(s) =>
      assert Filter(words, u, path, k, over, caps) == Filter(words, u + [Lit(path[k])], path, k + 1, false, caps);
      StaticIsFilter(words, u, c, path, k, caps);
  }

  lemma {:induction false} StaticIsFilter(words: Words, u: Word, n: Tree, path: string, k: nat, caps: Option<Captures>)
    requires n.kind.Static? && k < |path| && n.HeadIs(Lit(path[k]))
    requires Enters(words, u, n)
    ensures Live(words, u + [Lit(path[k])])
    ensures AsSet(Walk(n, path, k, caps)) == Filter(words, u + [Lit(path[k])], path, k + 1, false, caps)
    decreases n, 2
  {
    var s := n.kind.s;
    EntersFunnels(words, u, n);
    FunnelLive(words, u + [Lit(path[k])], n.kind.Label()[1..]);
    assert n.kind.Label()[1..] == Lits(s[1..]);
    CompareIsFilter(words, u + [Lit(path[k])], n, s[1..], path, k + 1, caps);
    CompareShifts(n, s, path, k, caps);
  }

  lemma {:induction false} FunnelLive(words: Words, u: Word, r: Word)
    requires Funnel(words, u, r)
    ensures Live(words, u)
  {
  }

  lemma {:induction false} CompareShifts(n: Tree, s: string, path: string, k: nat, caps: Option<Captures>)
    requires k < |path| && s != "" && s[0] == path[k]
    ensures Compare(n, s, path, k, caps) == Compare(n, s[1..], path, k + 1, caps)
  {
    assert s == [s[0]] + s[1..] && path[k..] == [path[k]] + path[k + 1..];
  }

  /** A static node from inside its label, of which `r` is still to be compared. */
  lemma {:induction false} CompareIsFilter(words: Words, u: Word, n: Tree, r: string, path: string, k: nat,
                                           caps: Option<Captures>)
    requires n.kind.Static? && k <= |path| && Funnel(words, u, Lits(r)) && Stands(words, u + Lits(r), n)
    ensures AsSet(Compare(n, r, path, k, caps)) == Filter(words, u, path, k, false, caps)
    decreases n, 1
  {
    var u' := u + Lits(r);
    FilterThrough(words, u, r, path, k, false, caps);
    if r <= path[k..] {
      LabelEndIsFilter(words, u', n, path, k + |r|, caps);
    } else if path[k..] <= r {
      NextIsFilter(words, u', n, path, |path|, true, caps);
    }
    CompareFromCases(Filter(words, u, path, k, false, caps), n, r, path, k, caps);
  }

  /** Comparing a label, from what its three ways out come to. */
  lemma {:induction false} CompareFromCases(f: Reply<set<nat>>, n: Tree, r: string, path: string, k: nat,
                                            caps: Option<Captures>)
    requires k <= |path|
    requires f == if r <= path[k..] then AsSet(LabelEnd(n, path, k + |r|, caps))
                  else if path[k..] <= r then AsSet(Next(n, path, |path|, caps))
                  else Reply(NotMatched, caps)
    ensures AsSet(Compare(n, r, path, k, caps)) == f
  {
    assert r <= path[k..] && |r| == |path[k..]| ==> r == path[k..];
  }

  /** A static node whose label has just been matched. */
  function LabelEnd(n: Tree, path: string, k: nat, caps: Option<Captures>): Reply<seq<nat>>
    requires k <= |path|
  {
    if k == |path| && n.leaf.Some? then Reply(Matched(n.leaf.value), caps) else Next(n, path, k, caps)
  }

  lemma {:induction false} LabelEndIsFilter(words: Words, u: Word, n: Tree, path: string, k: nat,
                                            caps: Option<Captures>)
    requires n.kind.Static? && k <= |path| && Stands(words, u, n)
    ensures Live(words, u)
    ensures AsSet(LabelEnd(n, path, k, caps)) == Filter(words, u, path, k, false, caps)
    decreases n, 0, 1
  {
    LeafIsFound(words, u, n);
    if k == |path| && n.leaf.Some? {
      CandidatesAreAlive(words, u, n);
      FilterEnds(words, u, path, caps);
    } else {
      NextIsFilter(words, u, n, path, k, false, caps);
    }
  }

  lemma {:induction false} FilterEnds(words: Words, u: Word, path: string, caps: Option<Captures>)
    requires Live(words, u) && Find(words, u).Some?
    ensures Filter(words, u, path, |path|, false, caps) == Reply(Matched(Find(words, u).value), caps)
  {
  }
}
