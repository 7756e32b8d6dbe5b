/** Failed lookups, for any accepted run: where the walk stopped, why it went no
    further, and which routes it names. */
module NearMisses {
  import opened Options
  import opened Patterns
  import opened Trie
  import opened Leaves
  import opened Insertion
  import opened Recognition
  import opened Matching
  import opened Routing
  import opened Kinds
  import opened Bookkeeping
  import opened Tracks
  import opened Parameters
  import opened Exactness
  import opened Openers

  // ---- the node a walk stops at -----------------------------------------------------

  /** The labels from `n` down to `s` spell `x`. */
  ghost predicate Down(n: Tree, x: Word, s: Tree)
    decreases n
  {
    var name := n.kind.Label();
    (x == name && s == n) ||
    (name < x && exists j | 0 <= j < |n.children| :: Down(n.children[j], x[|name|..], s))
  }

  lemma {:induction false} DownChild(n: Tree, j: nat, x: Word, s: Tree)
    requires Tidy(n) && j < |n.children| && Down(n.children[j], x, s)
    ensures Down(n, n.kind.Label() + x, s) && x != [] && n.children[j].HeadIs(x[0])
  {
    assert (n.kind.Label() + x)[|n.kind.Label()|..] == x;
  }

  lemma {:induction false} StoredHere(n: Tree, i: nat) returns (v: Word)
    requires Tidy(n) && i in Indices(n)
    ensures Lookup(n, n.kind.Label() + v) == Some(i)
    decreases n
  {
    if n.leaf == Some(i) {
      v := [];
      LookupHere(n);
      assert n.kind.Label() + v == n.kind.Label();
    } else {
      var j :| 0 <= j < |n.children| && i in Indices(n.children[j]);
      var y := StoredHere(n.children[j], i);
      v := n.children[j].kind.Label() + y;
      LookupBelow(n, j, v);
    }
  }

  lemma {:induction false} DownSplits(n: Tree, x: Word, s: Tree) returns (j: nat, y: Word)
    requires Down(n, x, s) && !(x == n.kind.Label() && s == n)
    ensures x == n.kind.Label() + y && j < |n.children| && Down(n.children[j], y, s)
  {
    y := x[|n.kind.Label()|..];
    j :| 0 <= j < |n.children| && Down(n.children[j], y, s);
  }

  lemma {:induction false} LookupThrough(n: Tree, j: nat, y: Word, v: Word)
    requires Tidy(n) && j < |n.children| && y != [] && n.children[j].HeadIs(y[0])
    ensures Lookup(n, n.kind.Label() + y + v) == Lookup(n.children[j], y + v)
  {
    assert n.kind.Label() + y + v == n.kind.Label() + (y + v);
    LookupBelow(n, j, y + v);
  }

  /** What is stored below a node is what its word leads to. */
  lemma {:induction false} FoundDown(n: Tree, x: Word, s: Tree, v: Word)
    requires Tidy(n) && Down(n, x, s)
    ensures Tidy(s) && Lookup(n, x + v) == Lookup(s, s.kind.Label() + v)
    decreases n
  {
    if x != n.kind.Label() || s != n {
      var j, y := DownSplits(n, x, s);
      DownChild(n, j, y, s);
      FoundDown(n.children[j], y, s, v);
      LookupThrough(n, j, y, v);
    }
  }

  lemma {:induction false} TalliedDown(n: Tree, x: Word, s: Tree)
    requires Tallied(n) && Down(n, x, s)
    ensures Tallied(s)
    decreases n
  {
    if x != n.kind.Label() || s != n {
      var j, y := DownSplits(n, x, s);
      TalliedDown(n.children[j], y, s);
    }
  }

  /** A walk stops at a node: no child goes on, or it is a wildcard that took
      the end of the path; and the node is no leaf if it was reached in full. */
  ghost predicate StopsAt(s: Tree, path: string, m: nat, slack: string) {
    && m <= |path|
    && (Choose(s.children, path, m) == |s.children| || (!s.kind.Static? && m == |path|))
    && (m == |path| && slack == "" ==> s.leaf.None?)
  }

  ghost predicate WalkStops(n: Tree, r: Reply<seq<nat>>, s: Tree, x: Word, spans: seq<Span>, slack: string,
                            m: nat, path: string, k: nat, caps: Option<Captures>) {
    && r.outcome.PartiallyMatched? && r.outcome.candidates == s.candidates && Down(n, x, s)
    && Reached(x, spans, slack, path, k, m) && r.captures == Capture(x, spans, caps) && StopsAt(s, path, m, slack)
  }

  lemma {:induction false} PassedReached(s: string, x: Word, spans: seq<Span>, slack: string, path: string, k: nat,
                                         m: nat)
    requires k + |s| <= |path| && path[k..k + |s|] == s && Reached(x, spans, slack, path, k + |s|, m)
    ensures Reached(Lits(s) + x, spans, slack, path, k, m)
  {
    FillAfterLiterals(s, x, Texts(path, spans));
    assert path[k..m] + slack == s + (path[k + |s|..m] + slack);
  }

  lemma {:induction false} OverReached(s: string, x: Word, spans: seq<Span>, path: string, k: nat)
    requires k <= |path| && path[k..] <= s && Reached(x, spans, "", path, |path|, |path|)
    ensures Reached(Lits(s) + x, spans, s[|path| - k..], path, k, |path|)
  {
    FillAfterLiterals(s, x, Texts(path, spans));
    assert path[|path|..|path|] + "" == "" && s + "" == s;
    assert s == path[k..|path|] + s[|path| - k..];
  }

  lemma {:induction false} WalkStop(n: Tree, path: string, k: nat, caps: Option<Captures>)
    returns (s: Tree, x: Word, spans: seq<Span>, slack: string, m: nat)
    requires Tidy(n) && k <= |path| && Walk(n, path, k, caps).outcome.PartiallyMatched?
    ensures WalkStops(n, Walk(n, path, k, caps), s, x, spans, slack, m, path, k, caps)
    ensures k == |path| && !n.kind.Static? ==> slack == "" && m == |path|
    decreases n, 1
  {
    match n.kind
    case Static(t) =>
      s, x, spans, slack, m := StaticStop(n, t, path, k, caps);
    case Param =>
      var e := SegmentEnd(path, k);
      if e == |path| {
        s, x, spans, slack, m := n, [Par], [(k, |path|)], "", |path|;
        LastCapture(path, k, Par, caps);
      } else {
        s, x, spans, slack, m := NextStop(n, path, e, PushParam(caps, (k, e)));
        ReachedParam(x, spans, slack, path, k, e, m);
        ConsParam(x, "", Texts(path, spans), (k, e), spans, caps);
        x, spans := [Par] + x, [(k, e)] + spans;
      }
    case CatchAll =>
      s, x, spans, slack, m := n, [Star], [(k, |path|)], "", |path|;
      LastCapture(path, k, Star, caps);
  }

  lemma {:induction false} StaticStop(n: Tree, t: string, path: string, k: nat, caps: Option<Captures>)
    returns (s: Tree, x: Word, spans: seq<Span>, slack: string, m: nat)
    requires Tidy(n) && n.kind == Static(t) && k <= |path| && Compare(n, t, path, k, caps).outcome.PartiallyMatched?
    ensures WalkStops(n, Compare(n, t, path, k, caps), s, x, spans, slack, m, path, k, caps)
    decreases n, 1, 0
  {
    var r, rest := Compare(n, t, path, k, caps), path[k..];
    if |t| < |rest| {
      s, x, spans, slack, m := NextStop(n, path, k + |t|, caps);
      PassedReached(t, x, spans, slack, path, k, m);
      assert StopsAt(s, path, m, slack);
    } else {
      s, x, spans, slack, m := NextStop(n, path, |path|, caps);
      OverReached(t, x, spans, path, k);
      slack := t[|path| - k..];
      assert StopsAt(s, path, m, slack);
    }
    LabelStops(n, t, r, s, x, spans, slack, m, path, k, caps);
    x := Lits(t) + x;
  }

  lemma {:induction false} LabelStops(n: Tree, t: string, r: Reply<seq<nat>>, s: Tree, x: Word, spans: seq<Span>,
                                      slack: string, m: nat, path: string, k: nat, caps: Option<Captures>)
    requires r.outcome.PartiallyMatched? && r.outcome.candidates == s.candidates && Down(n, Lits(t) + x, s)
    requires Reached(Lits(t) + x, spans, slack, path, k, m) && |spans| == Wilds(x)
      && r.captures == Capture(x, spans, caps)
    requires StopsAt(s, path, m, slack)
    ensures WalkStops(n, r, s, Lits(t) + x, spans, slack, m, path, k, caps)
  {
    CaptureAfterLiterals(Lits(t), x, spans, caps);
  }

  /** The same below a node: the word goes on after its label. */
  lemma {:induction false} NextStop(n: Tree, path: string, k: nat, caps: Option<Captures>)
    returns (s: Tree, x: Word, spans: seq<Span>, slack: string, m: nat)
    requires Tidy(n) && k <= |path| && Next(n, path, k, caps).outcome.PartiallyMatched?
    ensures var r := Next(n, path, k, caps);
      && r.outcome.candidates == s.candidates && Down(n, n.kind.Label() + x, s)
      && Reached(x, spans, slack, path, k, m) && r.captures == Capture(x, spans, caps)
    ensures if s == n && x == [] then m == k && slack == "" && Choose(n.children, path, k) == |n.children|
      else StopsAt(s, path, m, slack)
    ensures k == |path| ==> slack == "" && m == |path|
    decreases n, 0
  {
    var j := Choose(n.children, path, k);
    if j < |n.children| {
      s, x, spans, slack, m := WalkStop(n.children[j], path, k, caps);
      DownChild(n, j, x, s);
    } else {
      s, x, spans, slack, m := n, [], [], "", k;
      assert n.kind.Label() + [] == n.kind.Label();
      assert path[k..k] + "" == "";
    }
  }

  // ---- partial matches of a run ---------------------------------------------------------

  /** Over any accepted run the candidates of every node are the routes stored there. */
  lemma {:induction false} RunIsTallied(ps: seq<string>)
    requires AllRooted(ps) && Run(ps).Some?
    ensures Run(ps).value.root.Some? ==> Tallied(Run(ps).value.root.value)
    decreases |ps|
  {
    if ps != [] {
      var front, p := ps[..|ps| - 1], ps[|ps| - 1];
      assert AllRooted(front);
      RunIsTallied(front);
      if p != "*" {
        RootedWord(p);
        var w, r := WordOf(p).value, Run(front).value;
        if r.root.None? {
          GraftTallied(w, |r.keys|);
        } else {
          AddTallied(r.root.value, w, |r.keys|);
        }
      }
    }
  }

  /** The route's spelling begins with `x`. */
  predicate Begins(ps: seq<string>, i: nat, x: Word)
    requires i < |ps|
  {
    WordOf(ps[i]).Some? && x <= Spelled(ps, WordOf(ps[i]).value)
  }

  lemma {:induction false} StoredBegins(ps: seq<string>, x: Word, s: Tree, i: nat)
    requires AllRooted(ps) && Run(ps).Some? && Run(ps).value.root.Some? && Down(Run(ps).value.root.value, x, s)
    requires i in Indices(s)
    ensures i < |ps| && Begins(ps, i, x)
  {
    var t := Run(ps).value.root.value;
    RunIsTidy(ps);
    RunIsBooked(ps);
    FoundDown(t, x, s, []);
    var v := StoredHere(s, i);
    FoundDown(t, x, s, v);
    LookupIsStored(t, x + v, i);
    assert AllStored(Some(t))[i] > 0;
    AcceptedIsFine(ps, i);
    StoredIsSpelled(ps, i, x + v);
  }

  lemma {:induction false} BeginsStored(ps: seq<string>, x: Word, s: Tree, i: nat)
    requires AllRooted(ps) && Run(ps).Some? && Run(ps).value.root.Some? && Down(Run(ps).value.root.value, x, s)
    requires i < |ps| && Begins(ps, i, x)
    ensures i in Indices(s)
  {
    var t, u := Run(ps).value.root.value, Spelled(ps, WordOf(ps[i]).value);
    RunIsTidy(ps);
    StoredIsSpelled(ps, i, u);
    assert u == x + u[|x|..];
    FoundDown(t, x, s, u[|x|..]);
    StoredIsIndexed(s, s.kind.Label() + u[|x|..]);
  }

  /** The routes of a node are those whose spelling begins with the node's word. */
  lemma {:induction false} NodeRoutes(ps: seq<string>, x: Word, s: Tree, i: nat)
    requires AllRooted(ps) && Run(ps).Some? && Run(ps).value.root.Some? && Down(Run(ps).value.root.value, x, s)
    ensures i in s.candidates <==> i < |ps| && Begins(ps, i, x)
  {
    RunIsTallied(ps);
    TalliedDown(Run(ps).value.root.value, x, s);
    if i in Indices(s) {
      StoredBegins(ps, x, s, i);
    } else if i < |ps| && Begins(ps, i, x) {
      BeginsStored(ps, x, s, i);
    }
  }

  /** Why a walk that consumed `x` and the path up to `m` did not go on into
      route `i`: the route goes on with a literal that is not the path's next
      byte, or it ends there and the path does not, or the path ran out before. */
  ghost predicate StopsShortOf(ps: seq<string>, i: nat, x: Word, path: string, m: nat, slack: string)
    requires i < |ps| && Begins(ps, i, x)
  {
    var v := Spelled(ps, WordOf(ps[i]).value);
    && (|x| < |v| ==> v[|x|].Lit? && (m < |path| ==> v[|x|] != Lit(path[m])))
    && (v == x ==> m < |path| || slack != "")
  }

  /** What the spelling of a route adds to the word of a node it goes through. */
  lemma {:induction false} SpelledBelow(ps: seq<string>, x: Word, s: Tree, i: nat) returns (y: Word)
    requires AllRooted(ps) && Run(ps).Some? && Run(ps).value.root.Some? && Down(Run(ps).value.root.value, x, s)
    requires i < |ps| && Begins(ps, i, x)
    ensures Spelled(ps, WordOf(ps[i]).value) == x + y && Lookup(s, s.kind.Label() + y) == Some(i)
    ensures Tidy(s) && x != [] && (!s.kind.Static? ==> !x[|x| - 1].Lit?)
  {
    var t, v := Run(ps).value.root.value, Spelled(ps, WordOf(ps[i]).value);
    y := v[|x|..];
    RunIsTidy(ps);
    StoredIsSpelled(ps, i, v);
    FoundDown(t, x, s, y);
    assert v == x + y;
    DownEnds(t, x, s);
  }

  lemma {:induction false} NodeStops(ps: seq<string>, x: Word, s: Tree, i: nat, path: string, m: nat, slack: string)
    requires AllRooted(ps) && Run(ps).Some? && Run(ps).value.root.Some? && Down(Run(ps).value.root.value, x, s)
    requires StopsAt(s, path, m, slack) && i < |ps| && Begins(ps, i, x)
    ensures StopsShortOf(ps, i, x, path, m, slack)
  {
    var y := SpelledBelow(ps, x, s, i);
    StopsInTree(s, y, i, path, m, slack);
    if y != [] && !s.kind.Static? {
      AfterWildcard(ps, i, x, y);
    }
    StopsBefore(ps, i, x, y, path, m, slack);
  }

  lemma {:induction false} StopsBefore(ps: seq<string>, i: nat, x: Word, y: Word, path: string, m: nat, slack: string)
    requires i < |ps| && Begins(ps, i, x) && Spelled(ps, WordOf(ps[i]).value) == x + y
    requires y == [] ==> m < |path| || slack != ""
    requires y != [] ==> y[0].Lit? && (m < |path| ==> y[0] != Lit(path[m]))
    ensures StopsShortOf(ps, i, x, path, m, slack)
  {
  }

  /** A node that stops the walk has no child for it to go on to, and no leaf
      unless the path goes on or ran out before. */
  lemma {:induction false} StopsInTree(s: Tree, y: Word, i: nat, path: string, m: nat, slack: string)
    requires Tidy(s) && StopsAt(s, path, m, slack) && Lookup(s, s.kind.Label() + y) == Some(i)
    ensures y == [] ==> m < |path| || slack != ""
    ensures y != [] && Choose(s.children, path, m) == |s.children|
      ==> y[0].Lit? && (m < |path| ==> y[0] != Lit(path[m]))
  {
    if y == [] {
      LookupHere(s);
      assert s.kind.Label() + y == s.kind.Label();
    } else {
      NextToken(s, y, i);
    }
  }

  /** A route goes on after a wildcard with a slash. */
  lemma {:induction false} AfterWildcard(ps: seq<string>, i: nat, x: Word, y: Word)
    requires AllRooted(ps) && i < |ps| && WordOf(ps[i]).Some? && Spelled(ps, WordOf(ps[i]).value) == x + y
    requires x != [] && y != [] && !x[|x| - 1].Lit?
    ensures y[0] == Lit('/')
  {
    var w, k := WordOf(ps[i]).value, |x|;
    RootedWord(ps[i]);
    assert (x + y)[k - 1] == x[k - 1] && (x + y)[k] == y[0];
    assert SameSpot(Spelled(ps, w)[k - 1], w[k - 1]) && SameSpot(Spelled(ps, w)[k], w[k]);
    assert w[k - 1] == Par;
  }

  lemma {:induction false} DownEnds(n: Tree, x: Word, s: Tree)
    requires Tidy(n) && Down(n, x, s)
    ensures x != [] && s.kind.Label() != [] && x[|x| - 1] == s.kind.Label()[|s.kind.Label()| - 1]
    decreases n
  {
    if x != n.kind.Label() || s != n {
      var j, y := DownSplits(n, x, s);
      DownEnds(n.children[j], y, s);
    }
  }

  /** What a node stores below itself starts with the head of one of its children. */
  lemma {:induction false} NextToken(s: Tree, y: Word, i: nat)
    requires Tidy(s) && y != [] && Lookup(s, s.kind.Label() + y) == Some(i)
    ensures exists j | 0 <= j < |s.children| :: s.children[j].HeadIs(y[0])
  {
    var j, v := LookupSplits(s, s.kind.Label() + y);
    assert v == y;
    assert s.children[j].HeadIs(y[0]);
  }

  /** A partial match, for any accepted run: the candidates are exactly the
      routes whose spelling begins with what was consumed, there is at least
      one, and the walk goes on into none of them. */
  lemma {:induction false} PartialMatchesExplain(ps: seq<string>, path: string)
    returns (x: Word, spans: seq<Span>, slack: string, m: nat)
    requires AllRooted(ps) && Run(ps).Some? && path != "*"
    requires Recognize(Run(ps).value, path).outcome.PartiallyMatched?
    ensures Reached(x, spans, slack, path, 0, m)
    ensures Recognize(Run(ps).value, path).captures == Capture(x, spans, None)
    ensures var c := Recognize(Run(ps).value, path).outcome.candidates;
      && c != [] && (forall i: nat :: i in c <==> i < |ps| && Begins(ps, i, x))
      && (forall i | i in c :: StopsShortOf(ps, i, x, path, m, slack))
  {
    RunIsTidy(ps);
    var t := Run(ps).value.root.value;
    var s;
    s, x, spans, slack, m := WalkStop(t, path, 0, None);
    forall i: nat ensures i in s.candidates <==> i < |ps| && Begins(ps, i, x) {
      NodeRoutes(ps, x, s, i);
    }
    forall i | i in s.candidates ensures StopsShortOf(ps, i, x, path, m, slack) {
      NodeStops(ps, x, s, i, path, m, slack);
    }
    FoundDown(t, x, s, []);
    var y := SomeStored(s);
    StoredIsIndexed(s, y);
    RunIsTallied(ps);
    TalliedDown(t, x, s);
    assert Lookup(s, y).value in s.candidates;
  }
}
