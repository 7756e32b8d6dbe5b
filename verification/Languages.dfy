/** Exactly which paths a route answers: the fillings of its pattern, and the
    paths that run out in a stretch of literals that every pattern still in
    play shares, just before the pattern's last wildcard. */
module Languages {
  import opened Options
  import opened Patterns
  import opened Trie
  import opened Insertion
  import opened Recognition
  import opened Refinement
  import opened Routing
  import opened Matching
  import opened Guarantees

  // ---- what a route answers -----------------------------------------------------

  /** The path from `k` on is a filling of `w`, and the captures are the replacements. */
  ghost predicate Fills(w: Word, args: seq<string>, path: string, k: nat, caps: Option<Captures>, c: Option<Captures>) {
    && |args| == Wilds(w) && Ample(w, args) && k <= |path| && path[k..] == Fill(w, args)
    && c == Capture(w, SpansOf(w, args, k), caps)
  }

  predicate EndsInLiteral(w: Word) {
    w == [] || w[|w| - 1].Lit?
  }

  /** The path from `k` to `m` is a filling of `y`, which ends in a literal. */
  ghost predicate FilledUp(y: Word, args: seq<string>, path: string, k: nat, m: nat) {
    EndsInLiteral(y) && |args| == Wilds(y) && Loose(y, args) && k <= m <= |path| && path[k..m] == Fill(y, args)
  }

  function CaptureEnd(x: Token, path: string, caps: Option<Captures>): Option<Captures> {
    if x == Par then PushParam(caps, (|path|, |path|)) else SetWildcard(caps, (|path|, |path|))
  }

  /** The path from `k` on is a filling of `y` and runs out there; the wildcard
      `x` captures the empty span at its end. */
  ghost predicate RunsOut(y: Word, x: Token, args: seq<string>, path: string, k: nat, caps: Option<Captures>,
                          c: Option<Captures>) {
    && FilledUp(y, args, path, k, |path|) && !x.Lit?
    && c == CaptureEnd(x, path, Capture(y, SpansOf(y, args, k), caps))
  }

  /** Every pattern that begins with `u` goes on with the stretch `slack`, and
      unless the path has run out before, none is `u` itself. */
  ghost predicate AllGoOn(words: Words, u: Word, slack: string, over: bool) {
    && (forall i | 0 <= i < |words| && Extends(words, i, u) :: Extends(words, i, u + Lits(slack)))
    && (!over ==> Find(words, u).None?)
  }

  // ---- a path that runs out is answered ------------------------------------------

  lemma {:induction false} GoesOn(words: Words, i: nat, u: Word, y: Word, v: Word, z: Word)
    requires Coherent(words) && i < |words| && words[i] == Some(v + z) && v == u + y
    ensures Live(words, u) && Live(words, v)
    ensures y != [] ==> Live(words, u + [y[0]]) && v == u + [y[0]] + y[1..]
    ensures y != [] && y[0] != Star ==> !Live(words, u + [Star])
    ensures y != [] && y[0] != Par ==> !Live(words, u + [Par])
  {
    assert v + z == u + (y + z);
    assert Extends(words, i, u) && Extends(words, i, v);
    if y != [] {
      assert v == u + [y[0]] + y[1..];
      assert Extends(words, i, u + [y[0]]);
      OnlyOwnWildcard(words, i, u, y + z);
    }
  }

  lemma {:induction false} StarIsLast(u: Word, y: Word, v: Word, z: Word)
    requires WellFormed(v + z) && v == u + y && y != [] && y[0] == Star
    ensures z == []
  {
    assert (v + z)[|u|] == Star;
  }

  lemma {:induction false} LiteralConsumed(y: Word, args: seq<string>, path: string, k: nat, m: nat)
    requires FilledUp(y, args, path, k, m) && y != [] && y[0].Lit?
    ensures k < m && y[0] == Lit(path[k]) && FilledUp(y[1..], args, path, k + 1, m)
  {
    assert path[k..m][0] == path[k];
    assert path[k + 1..m] == path[k..m][1..] == Fill(y[1..], args);
  }

  /** A parameter in such a stretch stops at a slash. */
  lemma {:induction false} ParamConsumed(u: Word, y: Word, v: Word, z: Word, args: seq<string>, path: string, k: nat,
                                         m: nat)
    returns (e: nat)
    requires WellFormed(v + z) && v == u + y && FilledUp(y, args, path, k, m) && y != [] && y[0] == Par
    ensures e == k + |args[0]| < m && SegmentEnd(path, k) == e && FilledUp(y[1..], args[1..], path, e, m)
  {
    var a, f := args[0], Fill(y[1..], args[1..]);
    e := k + |a|;
    assert (v + z)[|u|] == Par && (v + z)[|u| + 1] == y[1..][0];
    assert path[k..m] == a + f && f[0] == '/';
    assert path[e..m] == path[k..m][|a|..] == f;
    assert path[e..m][0] == path[e];
    assert forall j | k <= j < e :: path[j] == path[k..m][j - k] == a[j - k];
    SegmentEndIs(path, k, e);
  }

  lemma {:induction false} FilterAtParam(words: Words, u: Word, path: string, k: nat, e: nat, caps: Option<Captures>)
    requires k <= e < |path| && SegmentEnd(path, k) == e && Live(words, u) && Live(words, u + [Par])
      && !Live(words, u + [Star])
    ensures Filter(words, u, path, k, false, caps) == Filter(words, u + [Par], path, e, false, PushParam(caps, (k, e)))
  {
  }

  lemma {:induction false} CaptureAtParam(y: Word, args: seq<string>, k: nat, caps: Option<Captures>)
    requires y != [] && y[0] == Par && |args| == Wilds(y)
    ensures var e := k + |args[0]|;
      Capture(y, SpansOf(y, args, k), caps) == Capture(y[1..], SpansOf(y[1..], args[1..], e), PushParam(caps, (k, e)))
  {
    var e := k + |args[0]|;
    assert SpansOf(y, args, k)[1..] == SpansOf(y[1..], args[1..], e);
  }

  lemma {:induction false} ParamPassed(words: Words, i: nat, u: Word, y: Word, v: Word, z: Word, path: string, k: nat,
                                       e: nat, caps: Option<Captures>)
    requires Coherent(words) && i < |words| && words[i] == Some(v + z) && v == u + y && y != [] && y[0] == Par
    requires k <= e < |path| && SegmentEnd(path, k) == e
    ensures Live(words, u) && Live(words, u + [Par])
    ensures Filter(words, u, path, k, false, caps) == Filter(words, u + [Par], path, e, false, PushParam(caps, (k, e)))
  {
    GoesOn(words, i, u, y, v, z);
    FilterAtParam(words, u, path, k, e, caps);
  }

  lemma {:induction false} ConsumesParam(words: Words, i: nat, u: Word, y: Word, v: Word, z: Word, args: seq<string>,
                                         path: string, k: nat, m: nat, caps: Option<Captures>) returns (e: nat)
    requires Coherent(words) && i < |words| && words[i] == Some(v + z) && v == u + y
    requires FilledUp(y, args, path, k, m) && y != [] && y[0] == Par
    ensures k <= e && FilledUp(y[1..], args[1..], path, e, m) && Live(words, u) && Live(words, u + [Par])
    ensures Filter(words, u, path, k, false, caps) == Filter(words, u + [Par], path, e, false, PushParam(caps, (k, e)))
    ensures Capture(y, SpansOf(y, args, k), caps)
      == Capture(y[1..], SpansOf(y[1..], args[1..], e), PushParam(caps, (k, e)))
  {
    e := ParamConsumed(u, y, v, z, args, path, k, m);
    ParamPassed(words, i, u, y, v, z, path, k, e, caps);
    CaptureAtParam(y, args, k, caps);
  }

  /** One token of a filled stretch: where filtering goes on from. */
  lemma {:induction false} ConsumesOne(words: Words, i: nat, u: Word, y: Word, v: Word, z: Word, args: seq<string>,
                                       path: string, k: nat, m: nat, caps: Option<Captures>)
    returns (args': seq<string>, k': nat, caps': Option<Captures>)
    requires Coherent(words) && i < |words| && words[i] == Some(v + z) && v == u + y && z != []
      && FilledUp(y, args, path, k, m)
    requires y != []
    ensures FilledUp(y[1..], args', path, k', m) && v == u + [y[0]] + y[1..] && Live(words, u)
      && Live(words, u + [y[0]])
    ensures Filter(words, u, path, k, false, caps) == Filter(words, u + [y[0]], path, k', false, caps')
    ensures Capture(y, SpansOf(y, args, k), caps) == Capture(y[1..], SpansOf(y[1..], args', k'), caps')
  {
    GoesOn(words, i, u, y, v, z);
    if y[0] == Star {
      StarIsLast(u, y, v, z);
    } else if y[0] == Par {
      k' := ConsumesParam(words, i, u, y, v, z, args, path, k, m, caps);
      args', caps' := args[1..], PushParam(caps, (k, k'));
    } else {
      args', k', caps' := args, k + 1, caps;
      LiteralConsumed(y, args, path, k, m);
      FilterAtLiteral(words, u, path, k, caps);
      CaptureAtLiteral(y, args, k, caps);
    }
  }

  lemma {:induction false} CaptureAtLiteral(y: Word, args: seq<string>, k: nat, caps: Option<Captures>)
    requires y != [] && y[0].Lit? && |args| == Wilds(y)
    ensures Capture(y, SpansOf(y, args, k), caps) == Capture(y[1..], SpansOf(y[1..], args, k + 1), caps)
  {
  }

  /** Filtering consumes a filled stretch `y` of a pattern that goes on. */
  lemma {:induction false} Consumes(words: Words, i: nat, u: Word, y: Word, v: Word, z: Word, args: seq<string>,
                                    path: string, k: nat, m: nat, caps: Option<Captures>)
    requires Coherent(words) && i < |words| && words[i] == Some(v + z) && v == u + y && z != []
      && FilledUp(y, args, path, k, m)
    ensures Live(words, u) && Live(words, v)
    ensures Filter(words, u, path, k, false, caps)
      == Filter(words, v, path, m, false, Capture(y, SpansOf(y, args, k), caps))
    decreases |y|
  {
    if y == [] {
      GoesOn(words, i, u, y, v, z);
      assert v == u;
    } else {
      var args', k', caps' := ConsumesOne(words, i, u, y, v, z, args, path, k, m, caps);
      Consumes(words, i, u + [y[0]], y[1..], v, z, args', path, k', m, caps');
    }
  }

  /** Once the path has run out, filtering goes through the stretch and takes the wildcard. */
  lemma {:induction false} EndIsTaken(words: Words, i: nat, u: Word, slack: string, x: Token, path: string, over: bool,
                                      caps: Option<Captures>)
    requires Coherent(words) && i < |words| && words[i] == Some(u + Lits(slack) + [x]) && !x.Lit?
    requires AllGoOn(words, u, slack, over)
    ensures Live(words, u)
    ensures Filter(words, u, path, |path|, over, caps) == Reply(Matched(i), CaptureEnd(x, path, caps))
    decreases |slack|
  {
    assert u + Lits(slack) + [x] == u + (Lits(slack) + [x]);
    assert Extends(words, i, u);
    OnlyOwnWildcard(words, i, u, Lits(slack) + [x]);
    if slack == "" {
      WildcardTaken(words, i, u, x);
    } else {
      SlackStep(words, i, u, slack, x);
      EndIsTaken(words, i, u + [Lit(slack[0])], slack[1..], x, path, true, caps);
    }
  }

  lemma {:induction false} WildcardTaken(words: Words, i: nat, u: Word, x: Token)
    requires Coherent(words) && i < |words| && words[i] == Some(u + Lits("") + [x])
    ensures Find(words, u + [x]) == Some(i) && Live(words, u + [x])
  {
    assert u + Lits("") + [x] == u + [x];
    assert Extends(words, i, u + [x]);
    CoherentIsDistinct(words);
    FindIs(words, i, u + [x]);
  }

  lemma {:induction false} SlackStep(words: Words, i: nat, u: Word, slack: string, x: Token)
    requires i < |words| && words[i] == Some(u + Lits(slack) + [x]) && slack != ""
    requires forall j | 0 <= j < |words| && Extends(words, j, u) :: Extends(words, j, u + Lits(slack))
    ensures ForcedLiteral(words, u) == Some(slack[0])
    ensures u + Lits(slack) + [x] == u + [Lit(slack[0])] + Lits(slack[1..]) + [x]
    ensures AllGoOn(words, u + [Lit(slack[0])], slack[1..], true)
  {
    var c, rest := slack[0], slack[1..];
    assert u + Lits(slack) == u + [Lit(c)] + Lits(rest);
    forall j | 0 <= j < |words| && Extends(words, j, u) ensures Extends(words, j, u + [Lit(c)]) {
      assert Extends(words, j, u + Lits(slack));
    }
    assert Extends(words, i, u);
    assert Forced(words, u, c);
    ForcedIsOne(words, i, u, c);
    forall j | 0 <= j < |words| && Extends(words, j, u + [Lit(c)])
      ensures Extends(words, j, u + [Lit(c)] + Lits(rest)) {
      assert Extends(words, j, u);
    }
  }

  lemma {:induction false} ForcedIsOne(words: Words, i: nat, u: Word, c: char)
    requires i < |words| && Extends(words, i, u) && Forced(words, u, c)
    ensures ForcedLiteral(words, u) == Some(c)
  {
    var d := ForcedLiteral(words, u).value;
    ExtendsByOne(words, i, u, Lit(c));
    ExtendsByOne(words, i, u, Lit(d));
  }

  // ---- nothing else is answered ---------------------------------------------------

  /** What filtering from `u` and `k` on matched: a filling, or a path that runs out. */
  ghost predicate Hits(words: Words, r: Reply<set<nat>>, u: Word, y: Word, slack: string, x: Option<Token>,
                       args: seq<string>, path: string, k: nat, over: bool, caps: Option<Captures>) {
    && r.outcome.Matched? && r.outcome.i < |words|
    && match x
       case None =>
         && !over && words[r.outcome.i] == Some(u + y) && Fills(y, args, path, k, caps, r.captures)
       case Some(t) =>
         && words[r.outcome.i] == Some(u + y + Lits(slack) + [t]) && RunsOut(y, t, args, path, k, caps, r.captures)
         && AllGoOn(words, u + y, slack, over) && (over ==> y == [])
  }

  lemma {:induction false} FilterExactly(words: Words, u: Word, path: string, k: nat, over: bool,
                                         caps: Option<Captures>)
    returns (y: Word, slack: string, x: Option<Token>, args: seq<string>)
    requires Coherent(words) && k <= |path| && Live(words, u) && (over ==> k == |path|)
    requires Filter(words, u, path, k, over, caps).outcome.Matched?
    ensures Hits(words, Filter(words, u, path, k, over, caps), u, y, slack, x, args, path, k, over, caps)
    decreases Longest(words) - |u|
  {
    var r := Filter(words, u, path, k, over, caps);
    if k == |path| && !over && Find(words, u).Some? {
      y, slack, x, args := [], "", None, [];
      assert u + y == u;
    } else if Live(words, u + [Star]) {
      StarIsFound(words, u);
      y, slack, x, args := HitsWildcard(words, r, u, Star, path, k, over, caps);
    } else if Live(words, u + [Par]) {
      var e := SegmentEnd(path, k);
      if e == |path| {
        y, slack, x, args := HitsWildcard(words, r, u, Par, path, k, over, caps);
      } else {
        y, slack, x, args := FilterExactly(words, u + [Par], path, e, false, PushParam(caps, (k, e)));
        HitsParam(words, r, u, y, slack, x, args, path, k, e, caps);
        y, args := [Par] + y, [path[k..e]] + args;
      }
    } else if k < |path| && Live(words, u + [Lit(path[k])]) {
      y, slack, x, args := FilterExactly(words, u + [Lit(path[k])], path, k + 1, false, caps);
      HitsLiteral(words, r, u, y, slack, x, args, path, k, caps);
      y := [Lit(path[k])] + y;
    } else {
      var c := ForcedLiteral(words, u).value;
      y, slack, x, args := FilterExactly(words, u + [Lit(c)], path, k, true, caps);
      HitsOver(words, r, u, slack, x.value, args, path, c, over, caps);
      slack := [c] + slack;
    }
  }

  /** A wildcard that takes the rest of the path. */
  lemma {:induction false} HitsWildcard(words: Words, r: Reply<set<nat>>, u: Word, t: Token, path: string, k: nat,
                                        over: bool, caps: Option<Captures>)
    returns (y: Word, slack: string, x: Option<Token>, args: seq<string>)
    requires !t.Lit? && k <= |path| && (over ==> k == |path|) && (k == |path| && !over ==> Find(words, u).None?)
    requires Find(words, u + [t]).Some? && r.outcome == Matched(Find(words, u + [t]).value)
    requires r.captures == if t == Par then PushParam(caps, (k, |path|)) else SetWildcard(caps, (k, |path|))
    requires t == Par ==> SlashFree(path[k..])
    ensures Hits(words, r, u, y, slack, x, args, path, k, over, caps)
  {
    if k == |path| {
      y, slack, x, args := [], "", Some(t), [];
      assert u + [] + Lits("") == u && u + [] == u;
    } else {
      y, slack, x, args := [t], "", None, [path[k..]];
      assert [t][1..] == [] && args[1..] == [] && Wilds([]) == 0;
      assert path[k..] + "" == path[k..];
      assert SpansOf([t], args, k) == [(k, |path|)] + SpansOf([], [], |path|);
    }
  }

  lemma {:induction false} HitsParam(words: Words, r: Reply<set<nat>>, u: Word, y: Word, slack: string,
                                     x: Option<Token>,
                                     args: seq<string>, path: string, k: nat, e: nat, caps: Option<Captures>)
    requires k <= e < |path| && SlashFree(path[k..e])
    requires Hits(words, r, u + [Par], y, slack, x, args, path, e, false, PushParam(caps, (k, e)))
    ensures Hits(words, r, u, [Par] + y, slack, x, [path[k..e]] + args, path, k, false, caps)
  {
    var all := [path[k..e]] + args;
    assert u + [Par] + y == u + ([Par] + y);
    assert ([Par] + y)[1..] == y && all[1..] == args;
    assert path[k..] == path[k..e] + path[e..];
    assert SpansOf([Par] + y, all, k)[1..] == SpansOf(y, args, e);
  }

  lemma {:induction false} HitsLiteral(words: Words, r: Reply<set<nat>>, u: Word, y: Word, slack: string,
                                       x: Option<Token>,
                                       args: seq<string>, path: string, k: nat, caps: Option<Captures>)
    requires k < |path| && Hits(words, r, u + [Lit(path[k])], y, slack, x, args, path, k + 1, false, caps)
    ensures Hits(words, r, u, [Lit(path[k])] + y, slack, x, args, path, k, false, caps)
  {
    assert u + [Lit(path[k])] + y == u + ([Lit(path[k])] + y);
    assert ([Lit(path[k])] + y)[1..] == y;
    assert path[k..] == [path[k]] + path[k + 1..];
  }

  lemma {:induction false} HitsOver(words: Words, r: Reply<set<nat>>, u: Word, slack: string, t: Token,
                                    args: seq<string>, path: string, c: char, over: bool, caps: Option<Captures>)
    requires Hits(words, r, u + [Lit(c)], [], slack, Some(t), args, path, |path|, true, caps)
    requires Forced(words, u, c) && (!over ==> Find(words, u).None?)
    ensures Hits(words, r, u, [], [c] + slack, Some(t), args, path, |path|, over, caps)
  {
    assert u + [Lit(c)] + [] == u + [Lit(c)] && u + [] == u;
    assert u + [Lit(c)] + Lits(slack) == u + Lits([c] + slack);
    forall j | 0 <= j < |words| && Extends(words, j, u) ensures Extends(words, j, u + Lits([c] + slack)) {
      assert Extends(words, j, u + [Lit(c)]);
    }
  }

  // ---- both directions ------------------------------------------------------------

  /** The request path runs out before the last wildcard of pattern `i`, and
      every pattern that begins with what it filled goes on with that stretch. */
  ghost predicate RunsOutBefore(ps: seq<string>, i: nat, path: string, c: Option<Captures>, y: Word, slack: string,
                                x: Token, args: seq<string>)
    requires i < |ps|
  {
    && WordOf(ps[i]) == Some(y + Lits(slack) + [x]) && RunsOut(y, x, args, path, 0, None, c)
    && AllGoOn(WordsOf(ps), y, slack, false)
  }

  /** A route answers exactly the fillings of its pattern, with the replacements
      as captures, and the paths that run out before its last wildcard. */
  lemma {:induction false} MatchedExactly(ps: seq<string>, path: string, i: nat, c: Option<Captures>)
    requires Accepted(ps) && path != "*" && i < |ps| && WordOf(ps[i]).Some?
    ensures Recognize(Run(ps).value, path) == Reply(Matched(i), c) <==>
      || (exists args :: Fills(WordOf(ps[i]).value, args, path, 0, None, c))
      || (exists y, slack, x, args :: RunsOutBefore(ps, i, path, c, y, slack, x, args))
  {
    if Recognize(Run(ps).value, path) == Reply(Matched(i), c) {
      MatchedOnly(ps, path, i, c);
    }
    if args :| Fills(WordOf(ps[i]).value, args, path, 0, None, c) {
      FillingsAreMatched(ps, path, i, c, args);
    }
    if y, slack, x, args :| RunsOutBefore(ps, i, path, c, y, slack, x, args) {
      RunsOutIsMatched(ps, path, i, c, y, slack, x, args);
    }
  }

  lemma {:induction false} AsFilter(ps: seq<string>, path: string, i: nat)
    requires Accepted(ps) && path != "*" && i < |ps| && WordOf(ps[i]).Some?
    ensures Coherent(WordsOf(ps)) && Live(WordsOf(ps), []) && WordsOf(ps)[i] == WordOf(ps[i])
    ensures AsSet(Recognize(Run(ps).value, path)) == Filter(WordsOf(ps), [], path, 0, false, None)
  {
    AcceptedIsCoherent(ps);
    assert Extends(WordsOf(ps), i, []);
    RecognizeIsFilter(ps, path);
  }

  lemma {:induction false} MatchedOnly(ps: seq<string>, path: string, i: nat, c: Option<Captures>)
    requires Accepted(ps) && path != "*" && i < |ps| && WordOf(ps[i]).Some?
    requires Recognize(Run(ps).value, path) == Reply(Matched(i), c)
    ensures
      || (exists args :: Fills(WordOf(ps[i]).value, args, path, 0, None, c))
      || (exists y, slack, x, args :: RunsOutBefore(ps, i, path, c, y, slack, x, args))
  {
    AsFilter(ps, path, i);
    var y, slack, x, args := FilterExactly(WordsOf(ps), [], path, 0, false, None);
    assert [] + y == y;
    match x
    case None => assert Fills(WordOf(ps[i]).value, args, path, 0, None, c);
    case Some(t) => assert RunsOutBefore(ps, i, path, c, y, slack, t, args);
  }

  lemma {:induction false} FillingsAreMatched(ps: seq<string>, path: string, i: nat, c: Option<Captures>,
                                              args: seq<string>)
    requires Accepted(ps) && path != "*" && i < |ps| && WordOf(ps[i]).Some?
    requires Fills(WordOf(ps[i]).value, args, path, 0, None, c)
    ensures Recognize(Run(ps).value, path) == Reply(Matched(i), c)
  {
    AsFilter(ps, path, i);
    assert [] + WordOf(ps[i]).value == WordOf(ps[i]).value;
    FilterComplete(WordsOf(ps), i, [], WordOf(ps[i]).value, args, path, 0, None);
  }

  lemma {:induction false} RunsOutIsMatched(ps: seq<string>, path: string, i: nat, c: Option<Captures>, y: Word,
                                            slack: string, x: Token, args: seq<string>)
    requires Accepted(ps) && path != "*" && i < |ps| && RunsOutBefore(ps, i, path, c, y, slack, x, args)
    ensures Recognize(Run(ps).value, path) == Reply(Matched(i), c)
  {
    AsFilter(ps, path, i);
    var z := Lits(slack) + [x];
    assert y + z == y + Lits(slack) + [x] && [] + y == y;
    Consumes(WordsOf(ps), i, [], y, y, z, args, path, 0, |path|, None);
    EndIsTaken(WordsOf(ps), i, y, slack, x, path, false, Capture(y, SpansOf(y, args, 0), None));
  }

  // ---- misses -------------------------------------------------------------------------

  /** The path from `k` to `m` is a filling of `y`, and every pattern that begins
      with `u + y` goes on with one literal, which is not the next byte. */
  ghost predicate Stuck(words: Words, u: Word, y: Word, c: char, args: seq<string>, path: string, k: nat, m: nat) {
    FilledUp(y, args, path, k, m) && m < |path| && Forced(words, u + y, c) && c != path[m]
  }

  lemma {:induction false} StuckIsMissed(words: Words, u: Word, y: Word, c: char, args: seq<string>, path: string,
                                         k: nat, m: nat, caps: Option<Captures>)
    requires Coherent(words) && Stuck(words, u, y, c, args, path, k, m)
    ensures Live(words, u)
    ensures Filter(words, u, path, k, false, caps) == Reply(NotMatched, Capture(y, SpansOf(y, args, k), caps))
  {
    var v := u + y;
    var i :| 0 <= i < |words| && Extends(words, i, v);
    var z := ExtendsSplits(words, i, v);
    ExtendsByOne(words, i, v, Lit(c));
    assert (v + z)[|v|..] == z;
    Consumes(words, i, u, y, v, z, args, path, k, m, caps);
    NoWayOn(words, i, v, z, c, path, m, Capture(y, SpansOf(y, args, k), caps));
  }

  lemma {:induction false} NoWayOn(words: Words, i: nat, v: Word, z: Word, c: char, path: string, m: nat,
                                   caps: Option<Captures>)
    requires Coherent(words) && i < |words| && words[i] == Some(v + z) && z != [] && z[0] == Lit(c)
    requires Forced(words, v, c) && m < |path| && c != path[m]
    ensures Live(words, v) && Filter(words, v, path, m, false, caps) == Reply(NotMatched, caps)
  {
    assert Extends(words, i, v);
    OnlyOwnWildcard(words, i, v, z);
    ForcedIsOne(words, i, v, c);
    assert (v + [Lit(path[m])])[|v|] == Lit(path[m]) && (v + [Lit(c)])[|v|] == Lit(c);
    forall j | 0 <= j < |words| ensures !Extends(words, j, v + [Lit(path[m])]) {
      assert Extends(words, j, v) ==> Extends(words, j, v + [Lit(c)]);
    }
  }

  lemma {:induction false} MissIsStuck(words: Words, u: Word, path: string, k: nat, caps: Option<Captures>)
    returns (y: Word, c: char, args: seq<string>, m: nat)
    requires Coherent(words) && k <= |path| && Live(words, u)
    requires Filter(words, u, path, k, false, caps).outcome.NotMatched?
    ensures Stuck(words, u, y, c, args, path, k, m)
    decreases Longest(words) - |u|
  {
    if k == |path| {
      ExhaustedIsNoMiss(words, u, path, false, caps);
    }
    if Live(words, u + [Star]) || Live(words, u + [Par]) {
      FilterAtWildcard(words, u, path, k, caps);
      var e := SegmentEnd(path, k);
      y, c, args, m := MissIsStuck(words, u + [Par], path, e, PushParam(caps, (k, e)));
      StuckParam(words, u, y, c, args, path, k, e, m);
      y, args := [Par] + y, [path[k..e]] + args;
    } else if Live(words, u + [Lit(path[k])]) {
      y, c, args, m := MissIsStuck(words, u + [Lit(path[k])], path, k + 1, caps);
      StuckLiteral(words, u, y, c, args, path, k, m);
      y := [Lit(path[k])] + y;
    } else {
      y, c, args, m := [], ForcedLiteral(words, u).value, [], k;
      assert u + y == u && path[k..k] == "";
      NextIsOther(words, u, c, path[k]);
    }
  }

  lemma {:induction false} NextIsOther(words: Words, u: Word, c: char, d: char)
    requires Forced(words, u, c) && !Live(words, u + [Lit(d)])
    ensures c != d
  {
    var i :| 0 <= i < |words| && Extends(words, i, u);
    assert Extends(words, i, u + [Lit(c)]);
  }

  lemma {:induction false} StuckLiteral(words: Words, u: Word, y: Word, c: char, args: seq<string>, path: string,
                                        k: nat, m: nat)
    requires k < |path| && Stuck(words, u + [Lit(path[k])], y, c, args, path, k + 1, m)
    ensures Stuck(words, u, [Lit(path[k])] + y, c, args, path, k, m)
  {
    assert u + [Lit(path[k])] + y == u + ([Lit(path[k])] + y);
    assert ([Lit(path[k])] + y)[1..] == y;
    assert path[k..m] == [path[k]] + path[k + 1..m];
  }

  lemma {:induction false} StuckParam(words: Words, u: Word, y: Word, c: char, args: seq<string>, path: string, k: nat,
                                      e: nat, m: nat)
    requires Coherent(words) && k <= e < |path| && path[e] == '/' && SlashFree(path[k..e])
    requires Stuck(words, u + [Par], y, c, args, path, e, m)
    ensures Stuck(words, u, [Par] + y, c, [path[k..e]] + args, path, k, m)
  {
    var all := [path[k..e]] + args;
    assert u + [Par] + y == u + ([Par] + y);
    assert ([Par] + y)[1..] == y && all[1..] == args;
    assert path[k..m] == path[k..e] + path[e..m];
    if y == [] {
      SlashIsNext(words, u, c);
    }
  }

  /** After a parameter every pattern goes on with a slash. */
  lemma {:induction false} SlashIsNext(words: Words, u: Word, c: char)
    requires Coherent(words) && Forced(words, u + [Par] + [], c)
    ensures c == '/'
  {
    assert u + [Par] + [] == u + [Par];
    var i :| 0 <= i < |words| && Extends(words, i, u + [Par]);
    var w := words[i].value;
    assert Extends(words, i, u + [Par] + [Lit(c)]);
    assert w[|u|] == (u + [Par] + [Lit(c)])[|u|] == Par && w[|u| + 1] == (u + [Par] + [Lit(c)])[|u| + 1] == Lit(c);
  }

  ghost predicate StuckIn(ps: seq<string>, path: string, c: char, y: Word, args: seq<string>, m: nat) {
    Stuck(WordsOf(ps), [], y, c, args, path, 0, m)
  }

  /** A path is not matched at all if and only if there is no pattern but `*`,
      or it gets stuck: some stretch of it fills what some patterns begin with,
      and all of those go on with one literal that is not the next byte. Any
      other path is matched, or near. */
  lemma {:induction false} MissedExactly(ps: seq<string>, path: string)
    requires Accepted(ps) && path != "*"
    ensures Recognize(Run(ps).value, path).outcome.NotMatched? <==>
      || (forall i | 0 <= i < |ps| :: ps[i] == "*")
      || (exists c, y, args, m :: StuckIn(ps, path, c, y, args, m))
  {
    RunRepresents(ps);
    if forall i | 0 <= i < |ps| :: ps[i] == "*" {
      TreeHasPattern(ps);
    } else {
      var i :| 0 <= i < |ps| && ps[i] != "*";
      assert Fine(ps[i]) && Extends(WordsOf(ps), i, []);
      MissedIffStuck(ps, path);
    }
  }

  lemma {:induction false} TreeHasPattern(ps: seq<string>)
    requires Accepted(ps)
    ensures Run(ps).value.root.Some? ==> exists i | 0 <= i < |ps| :: ps[i] != "*"
  {
    RunRepresents(ps);
    if Run(ps).value.root.Some? {
      var w := SomeWord(Run(ps).value.root.value);
      var i := Find(WordsOf(ps), w).value;
      assert WordOf(ps[i]) == Some(w) && ps[i] != "*";
    }
  }

  lemma {:induction false} MissedIffStuck(ps: seq<string>, path: string)
    requires Accepted(ps) && path != "*" && Live(WordsOf(ps), [])
    ensures Recognize(Run(ps).value, path).outcome.NotMatched? <==>
      exists c, y, args, m :: StuckIn(ps, path, c, y, args, m)
  {
    AcceptedIsCoherent(ps);
    RecognizeIsFilter(ps, path);
    if Recognize(Run(ps).value, path).outcome.NotMatched? {
      var y, c, args, m := MissIsStuck(WordsOf(ps), [], path, 0, None);
      assert StuckIn(ps, path, c, y, args, m);
    }
    if c, y, args, m :| StuckIn(ps, path, c, y, args, m) {
      StuckIsMissed(WordsOf(ps), [], y, c, args, path, 0, m, None);
    }
  }
}
