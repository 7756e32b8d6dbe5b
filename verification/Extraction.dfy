/** Parameters end to end, for any accepted run: which accessors of a matched
    request find their text, and exactly when the generated extractor misses one. */
module Extraction {
  import opened Options
  import opened Patterns
  import opened Trie
  import opened Insertion
  import opened Recognition
  import opened Routing
  import opened Matching
  import opened Uris
  import opened Parameters
  import opened Kinds
  import opened Bookkeeping
  import opened Tracks
  import opened Exactness
  import opened Openers

  // ---- accessors over spans -----------------------------------------------------

  /** The accessor that the macro generates for a parameter. */
  function Extract(p: Params, param: Param): Option<string> {
    match param
    case Single(name) => p.Name(name)
    case CatchAll(_) => p.CatchAll()
  }

  function ParamsOf(ps: seq<string>, path: string, u: Uri): Params
    requires Run(ps).Some?
  {
    Params(path, u.CaptureNames(), Recognize(Run(ps).value, path).captures)
  }

  /** A name is found at its own position. */
  lemma {:induction false} PositionOf(n: Names, k: nat)
    requires NoDuplicates(n.params) && k < |n.params|
    ensures Position(n, n.params[k]) == Some(k)
  {
    var name := n.params[k];
    assert name !in n.params[..k];
    assert Position(n, name).value <= k
      ==> n.params[..k] == n.params[..Position(n, name).value] + n.params[Position(n, name).value..k];
  }

  /** Every parameter is found by its place and by its name, in order; a
      catch-all is found by its own accessor and by the name `*`, but not by
      its own name. */
  ghost predicate Resolves(p: Params, names: seq<string>, w: Word, spans: seq<Span>) {
    && |spans| == Wilds(w) == |names| && SpansIn(p.path, spans)
    && (EndsInStar(w) ==> spans != [])
    && Places(p, w, spans)
    && (forall k | 0 <= k < |spans| ::
          p.Name(names[k]) == if k < Pars(w) then Some(Texts(p.path, spans)[k]) else None)
    && (forall name | name !in names && name != "*" :: p.Name(name).None?)
  }

  /** What the places give, whatever the names. */
  ghost predicate Places(p: Params, w: Word, spans: seq<Span>)
    requires |spans| == Wilds(w) && SpansIn(p.path, spans) && (EndsInStar(w) ==> spans != [])
  {
    && (forall k: nat :: p.Get(k) == if k < Pars(w) && k < |spans| then Some(Texts(p.path, spans)[k]) else None)
    && p.CatchAll() == p.Name("*") == if EndsInStar(w) then Some(Texts(p.path, spans)[|spans| - 1]) else None
  }

  lemma {:induction false} StarIsWild(w: Word)
    requires EndsInStar(w)
    ensures Wilds(w) > 0
  {
    if w[0].Lit? {
      assert w[1..][|w| - 2] == Star;
      StarIsWild(w[1..]);
    }
  }

  lemma {:induction false} PlacedSpans(p: Params, w: Word, spans: seq<Span>)
    requires |spans| == Wilds(w) && spans != [] && p.captures == Capture(w, spans, None)
    requires StarLast(w) && SpansIn(p.path, spans)
    ensures Places(p, w, spans)
  {
    CaptureShape(w, spans, None);
    assert p.captures.value.params == spans[..Pars(w)];
  }

  lemma {:induction false} NamedSpans(p: Params, n: Names, w: Word, spans: seq<Span>)
    requires |spans| == Wilds(w) == |n.params| && spans != []
    requires p.names == Some(n) && p.captures == Capture(w, spans, None)
    requires StarLast(w) && SpansIn(p.path, spans) && PlainNames(n.params) && NoDuplicates(n.params)
    ensures Resolves(p, n.params, w, spans)
  {
    PlacedSpans(p, w, spans);
    forall k | 0 <= k < |spans|
      ensures p.Name(n.params[k]) == if k < Pars(w) then Some(Texts(p.path, spans)[k]) else None
    {
      NamedPlace(p, n, k);
    }
  }

  lemma {:induction false} NamedPlace(p: Params, n: Names, k: nat)
    requires p.names == Some(n) && k < |n.params| && PlainNames(n.params) && NoDuplicates(n.params)
    ensures p.Name(n.params[k]) == p.Get(k)
  {
    PositionOf(n, k);
    PlainIsNoStar(n.params[k]);
  }

  lemma {:induction false} PlainIsNoStar(name: string)
    requires NoMarker(name)
    ensures name != "*"
  {
    if name == "*" {
      assert IsMarker(name[0]);
    }
  }

  lemma {:induction false} NoSpans(p: Params, w: Word, spans: seq<Span>)
    requires |spans| == Wilds(w) == 0 && StarLast(w) && p.captures == Capture(w, spans, None)
    ensures Resolves(p, [], w, spans)
  {
    CaptureShape(w, spans, None);
    if EndsInStar(w) {
      StarIsWild(w);
    }
  }

  /** The erased text of a built URI has a wildcard for every name, and ends in
      a catch-all when the names do. */
  lemma {:induction false} BuiltWilds(u: Uri)
    requires Built(u) && Erase(u.AsStr(), 0).Some?
    ensures var w := Erase(u.AsStr(), 0).value;
      Wilds(w) == |OrEmpty(u.CaptureNames()).params| && (EndsInStar(w) <==> EndsInCatchAll(u))
  {
    var s := u.AsStr();
    WildsAreNames(s, 0);
    assert s[0..] == s;
    if u.Root? {
      assert s[1..] == "" && NamesIn("") == [];
    }
  }

  lemma {:induction false} ListsExtract(p: Params, params: seq<Param>, names: seq<string>, w: Word, spans: seq<Span>)
    requires Lists(params, names, EndsInStar(w)) && Resolves(p, names, w, spans)
    ensures forall k | 0 <= k < |params| :: Extract(p, params[k]) == Some(Texts(p.path, spans)[k])
  {
    forall k | 0 <= k < |params| ensures Extract(p, params[k]) == Some(Texts(p.path, spans)[k]) {
      assert params[k].name == names[k];
    }
  }

  /** A right side that captures gives the join its names. */
  lemma {:induction false} JoinKeepsNames(a: Uri, b: Uri, u: Uri)
    requires Built(a) && Built(b) && NonEmptyNames(b) && JoinUri(a, b) == Some(u) && b.CaptureNames().Some?
    ensures u.CaptureNames() == b.CaptureNames()
  {
    JoinExactly(a, b);
  }

  // ---- soundness for any run ----------------------------------------------------------

  /** A match of any accepted run re-expands from the captures as the spelling
      of the matched route, in which a catch-all can only be last. */
  lemma {:induction false} MatchIsSpelled(ps: seq<string>, path: string, i: nat)
    returns (spans: seq<Span>, slack: string)
    requires AllRooted(ps) && Run(ps).Some? && path != "*" && Recognize(Run(ps).value, path).outcome == Matched(i)
    ensures i < |ps| && WordOf(ps[i]).Some?
    ensures var v := Spelled(ps, WordOf(ps[i]).value);
      && StarLast(v) && Reexpands(v, spans, slack, path, 0)
      && Recognize(Run(ps).value, path).captures == Capture(v, spans, None)
  {
    FoundHasEntry(ps, path);
    AcceptedIsFine(ps, i);
    RunIsTidy(ps);
    var t := Run(ps).value.root.value;
    var v;
    v, spans, slack := WalkWord(t, path, 0, None);
    StoredIsSpelled(ps, i, v);
  }

  // ---- accessors of a route -------------------------------------------------------------

  /** The accessors for the parameters of a URI, the catch-all being the last. */
  function AccessorsOf(u: Uri): (r: seq<Param>)
    ensures Lists(r, OrEmpty(u.CaptureNames()).params, EndsInCatchAll(u) && OrEmpty(u.CaptureNames()).params != [])
  {
    var names := OrEmpty(u.CaptureNames()).params;
    seq(|names|, k requires 0 <= k < |names| =>
      if EndsInCatchAll(u) && k == |names| - 1 then Param.CatchAll(names[k]) else Single(names[k]))
  }

  /** On this request some accessor of the route finds nothing. */
  ghost predicate Misses(p: Params, params: seq<Param>) {
    exists k | 0 <= k < |params| :: Extract(p, params[k]).None?
  }

  /** A request matched to route `i` is read as the route's spelling. If the
      route is not diverted that is the route's own word: every `:name`
      resolves to the text captured at its place, and the catch-all to the
      last. If it is diverted, it has no catch-all to offer. */
  lemma {:induction false} NamesResolve(ps: seq<string>, path: string, i: nat, u: Uri)
    returns (spans: seq<Span>, slack: string)
    requires AllRooted(ps) && Run(ps).Some? && path != "*" && Recognize(Run(ps).value, path).outcome == Matched(i)
    requires i < |ps| && Built(u) && u.AsStr() == ps[i]
    ensures WordOf(ps[i]).Some?
    ensures var w := WordOf(ps[i]).value; var v := if Diverted(ps, i) then w[..|w| - 1] + [Par] else w;
      Spelled(ps, w) == v && Reexpands(v, spans, slack, path, 0)
    ensures EndsInStar(WordOf(ps[i]).value) <==> EndsInCatchAll(u)
    ensures !Diverted(ps, i)
      ==> Resolves(ParamsOf(ps, path, u), OrEmpty(u.CaptureNames()).params, WordOf(ps[i]).value, spans)
    ensures Diverted(ps, i) ==> ParamsOf(ps, path, u).CatchAll().None? && ParamsOf(ps, path, u).Name("*").None?
  {
    spans, slack := MatchIsSpelled(ps, path, i);
    SpelledOrDiverted(ps, i);
    BuiltWilds(u);
    var w, p := WordOf(ps[i]).value, ParamsOf(ps, path, u);
    if Diverted(ps, i) {
      NoCatchAll(p, Spelled(ps, w), spans);
    } else {
      ReadResolves(p, u, w, spans);
    }
  }

  lemma {:induction false} NoCatchAll(p: Params, v: Word, spans: seq<Span>)
    requires |spans| == Wilds(v) && StarLast(v) && !EndsInStar(v) && p.captures == Capture(v, spans, None)
    ensures p.CatchAll().None? && p.Name("*").None?
  {
    CaptureShape(v, spans, None);
  }

  lemma {:induction false} ReadResolves(p: Params, u: Uri, w: Word, spans: seq<Span>)
    requires Built(u) && p.names == u.CaptureNames() && |spans| == Wilds(w) == |OrEmpty(u.CaptureNames()).params|
    requires StarLast(w) && SpansIn(p.path, spans) && p.captures == Capture(w, spans, None)
    ensures Resolves(p, OrEmpty(u.CaptureNames()).params, w, spans)
  {
    if spans != [] {
      NamedSpans(p, u.names.value, w, spans);
    } else {
      NoSpans(p, w, spans);
      assert OrEmpty(u.CaptureNames()).params == [];
    }
  }

  /** On a request matched to a route, some accessor finds nothing if and only
      if the route is diverted. */
  lemma {:induction false} MatchMissesIffDiverted(ps: seq<string>, path: string, i: nat, u: Uri)
    requires AllRooted(ps) && Run(ps).Some? && path != "*" && Recognize(Run(ps).value, path).outcome == Matched(i)
    requires i < |ps| && Built(u) && u.AsStr() == ps[i]
    ensures WordOf(ps[i]).Some? && (Misses(ParamsOf(ps, path, u), AccessorsOf(u)) <==> Diverted(ps, i))
  {
    var spans, slack := NamesResolve(ps, path, i, u);
    var w, p, params := WordOf(ps[i]).value, ParamsOf(ps, path, u), AccessorsOf(u);
    BuiltWilds(u);
    if Diverted(ps, i) {
      StarIsWild(w);
      assert params[|params| - 1].CatchAll?;
    } else {
      if EndsInStar(w) {
        StarIsWild(w);
      }
      ListsExtract(p, params, OrEmpty(u.CaptureNames()).params, w, spans);
    }
  }

  ghost predicate MissedOn(ps: seq<string>, i: nat, u: Uri, path: string)
    requires Run(ps).Some?
  {
    path != "*" && Recognize(Run(ps).value, path).outcome == Matched(i) && Misses(ParamsOf(ps, path, u), AccessorsOf(u))
  }

  /** Some request matched to a route misses a parameter if and only if the
      route ends in a catch-all and each of its wildcards, that one included,
      was first opened by a parameter. */
  lemma {:induction false} MissedIffDiverted(ps: seq<string>, i: nat, u: Uri)
    requires AllRooted(ps) && Run(ps).Some? && i < |ps| && Built(u) && u.AsStr() == ps[i]
    ensures WordOf(ps[i]).Some? && ((exists path :: MissedOn(ps, i, u, path)) <==> Diverted(ps, i))
  {
    AcceptedIsFine(ps, i);
    assert ps[i] != "*";
    if path :| MissedOn(ps, i, u, path) {
      MatchMissesIffDiverted(ps, path, i, u);
    }
    if Diverted(ps, i) {
      SomeArgsAreProper(DivertedWord(WordOf(ps[i]).value));
      var path := DivertedIsReached(ps, i, SomeArgs(DivertedWord(WordOf(ps[i]).value)));
      MatchMissesIffDiverted(ps, path, i, u);
      assert MissedOn(ps, i, u, path);
    }
  }

  function DivertedWord(w: Word): Word
    requires w != []
  {
    w[..|w| - 1] + [Par]
  }

  /** Every instance of a diverted route, its catch-all read as a parameter, is
      answered with the route and without a catch-all. */
  lemma {:induction false} DivertedIsReached(ps: seq<string>, i: nat, args: seq<string>) returns (path: string)
    requires AllRooted(ps) && Run(ps).Some? && i < |ps| && WordOf(ps[i]).Some? && Diverted(ps, i)
    requires var v := DivertedWord(WordOf(ps[i]).value); |args| == Wilds(v) && Proper(v, args)
    ensures var v := DivertedWord(WordOf(ps[i]).value);
      && path == Fill(v, args) && path != "*"
      && Recognize(Run(ps).value, path) == Reply(Matched(i), Capture(v, SpansOf(v, args, 0), None))
  {
    var w := WordOf(ps[i]).value;
    var v := DivertedWord(w);
    RootedWord(ps[i]);
    DivertedSpelling(ps, i);
    StoredIsSpelled(ps, i, v);
    RunIsTidy(ps);
    DivertedWell(w);
    path := Fill(v, args);
    FillIsRooted(v, args);
    assert path[0..] == path;
    WalkFollows(Run(ps).value.root.value, v, i, args, path, 0, None);
  }

  lemma {:induction false} DivertedWell(w: Word)
    requires WellFormed(w) && EndsInStar(w) && w[0] == Lit('/')
    ensures var v := DivertedWord(w); WellFormed(v) && NoStar(v) && v[0] == Lit('/')
  {
    var v := DivertedWord(w);
    assert forall k | 0 <= k < |w| - 1 :: v[k] == w[k] != Star;
  }

  /** The extractor generated from a literal, on a request matched to the route
      that the literal became under some prefix: it misses a parameter if and
      only if it has some and the route is diverted; otherwise it extracts the
      captured texts in order. */
  lemma {:induction false} ExtractorFinds(ps: seq<string>, path: string, i: nat, prefix: Uri, s: string, u: Uri)
    returns (spans: seq<Span>, slack: string)
    requires AllRooted(ps) && Run(ps).Some? && path != "*" && Recognize(Run(ps).value, path).outcome == Matched(i)
      && i < |ps|
    requires Built(prefix) && ParseUri(s).Some? && LiteralOf(s).Holds? && NonEmptyNames(ParseUri(s).value)
    requires JoinUri(prefix, ParseUri(s).value) == Some(u) && u.AsStr() == ps[i]
    ensures WordOf(ps[i]).Some? && |spans| == Wilds(WordOf(ps[i]).value) && SpansIn(path, spans)
    ensures var params, p := LiteralOf(s).params, ParamsOf(ps, path, u);
      && (params != [] ==> |params| == |spans|)
      && (Misses(p, params) <==> params != [] && Diverted(ps, i))
      && (!Diverted(ps, i) ==> Reexpands(WordOf(ps[i]).value, spans, slack, path, 0))
      && (!Diverted(ps, i) ==> forall k | 0 <= k < |params| :: Extract(p, params[k]) == Some(Texts(path, spans)[k]))
  {
    var v := ParseUri(s).value;
    ParsedIsBuilt(s);
    JoinExactly(prefix, v);
    LiteralOfUri(s);
    spans, slack := NamesResolve(ps, path, i, u);
    BuiltWilds(u);
    SameWilds(Spelled(ps, WordOf(ps[i]).value), WordOf(ps[i]).value);
    MatchMissesIffDiverted(ps, path, i, u);
    if LiteralOf(s).params != [] {
      JoinKeepsNames(prefix, v, u);
      SameAccessors(LiteralOf(s).params, u);
      if !Diverted(ps, i) {
        ListsExtract(ParamsOf(ps, path, u), LiteralOf(s).params, OrEmpty(u.CaptureNames()).params, WordOf(ps[i]).value,
                     spans);
      }
    }
  }

  lemma {:induction false} SameAccessors(params: seq<Param>, u: Uri)
    requires Lists(params, OrEmpty(u.CaptureNames()).params, EndsInCatchAll(u))
    ensures params == AccessorsOf(u)
  {
    forall k | 0 <= k < |params| ensures params[k] == AccessorsOf(u)[k] {
      assert params[k].name == AccessorsOf(u)[k].name;
    }
  }

  lemma {:induction false} SameWilds(v: Word, w: Word)
    requires SameSpots(v, w)
    ensures Wilds(v) == Wilds(w)
    decreases |v|
  {
    if v != [] {
      assert forall i | 0 <= i < |v| - 1 :: v[1..][i] == v[i + 1] && w[1..][i] == w[i + 1];
      SameWilds(v[1..], w[1..]);
    }
  }

  // ---- the smallest case ------------------------------------------------------------------

  const REST_URI := Segments(REST_ROUTE, Some(Names(["p"], true)))

  lemma {:induction false} RestUriParses()
    ensures ParseUri(REST_ROUTE) == Some(REST_URI) && LiteralOf(REST_ROUTE) == Holds([Param.CatchAll("p")])
  {
    var s := REST_ROUTE;
    assert SegmentEnd("*p", 2) == 2 && SegmentEnd("*p", 1) == 2 && SegmentEnd("*p", 0) == 2;
    assert Body(s) == s && s[1..] == "*p";
    assert Split("*p") == ["*p"];
    assert "*p"[1..] == "p" && !IsMarker('p');
    assert [["*p"][0]] == ["*p"] && ["*p"][..0] == [];
    assert ParseSegments([]) == Some(None);
    assert StepSegment(None, "*p") == Some(Some(Names([] + ["p"], true)));
    assert [] + ["p"] == ["p"];
    assert SegmentEnd(s, 0) == 0 && s[..0] == "";
    assert Split(s) == [""] + ["*p"];
    assert Split(s)[1..] == ["*p"] && ["*p"][1..] == [];
    assert [] + [Param.CatchAll("p")] == [Param.CatchAll("p")];
  }

  /** Two patterns that are URIs and are accepted together. A request for `/x`
      is matched to the catch-all route, but with a parameter captured, and the
      extractor generated from that route's literal finds no catch-all. */
  lemma {:induction false} DivertedWitness()
    ensures var ps, u := [PARAM_ROUTE, REST_ROUTE], REST_URI;
      && AllRooted(ps) && Run(ps).Some? && ParseUri(PARAM_ROUTE).Some? && ParseUri(REST_ROUTE) == Some(u)
      && Recognize(Run(ps).value, "/x") == Reply(Matched(1), Some(Captures([(1, 2)], None)))
      && LiteralOf(REST_ROUTE) == Holds([Param.CatchAll("p")])
      && Extract(ParamsOf(ps, "/x", u), Param.CatchAll("p")) == None
  {
    MixedReply();
    RestUriParses();
    ParamRouteParses();
  }

  lemma {:induction false} MixedReply()
    ensures AllRooted([PARAM_ROUTE, REST_ROUTE]) && Run([PARAM_ROUTE, REST_ROUTE]).Some?
    ensures Recognize(Run([PARAM_ROUTE, REST_ROUTE]).value, "/x") == Reply(Matched(1), Some(Captures([(1, 2)], None)))
  {
    MixedAreRooted();
    MixedKindsAreAccepted();
    MixedIsDiverted();
    assert DivertedWord([Lit('/'), Star]) == [Lit('/'), Par];
    OneArgument("x");
    var path := DivertedIsReached([PARAM_ROUTE, REST_ROUTE], 1, ["x"]);
    assert path == "/x";
  }

  lemma {:induction false} MixedIsDiverted()
    ensures WordOf(REST_ROUTE) == Some([Lit('/'), Star]) && Diverted([PARAM_ROUTE, REST_ROUTE], 1)
  {
    var ps := [PARAM_ROUTE, REST_ROUTE];
    MixedWords();
    var u, w := WordOf(PARAM_ROUTE).value, WordOf(REST_ROUTE).value;
    assert u[1] == Par && w == [Lit('/'), Star];
    assert Share(u, w, 1);
    assert Shares(ps, 0, w, 1);
    assert FirstSharing(ps, w, 1) == Some(0);
    assert Opening(ps, w, 1) == Par;
  }

  lemma {:induction false} OneArgument(a: string)
    requires SlashFree(a) && a != ""
    ensures var v := [Lit('/'), Par];
      && Wilds(v) == 1 && Proper(v, [a]) && Fill(v, [a]) == "/" + a
      && Capture(v, SpansOf(v, [a], 0), None) == Some(Captures([(1, 1 + |a|)], None))
  {
    var v: Word := [Lit('/'), Par];
    assert v[1..] == [Par] && v[1..][1..] == [] && [a][1..] == [];
    assert Fill([Par], [a]) == a + "" == a;
    var s: Span := (1, 1 + |a|);
    assert SpansOf([Par], [a], 1) == [s] + [] == [s];
    assert SpansOf(v, [a], 0) == [s];
    assert [s][1..] == [] && [Par][1..] == [];
    assert Capture(v, [s], None) == Capture([Par], [s], None) == Capture([], [], PushParam(None, s));
    assert [] + [s] == [s];
  }

  lemma {:induction false} PlainSegment(seg: string)
    requires SlashFree(seg)
    ensures Split(seg) == [seg]
  {
    assert SegmentEnd(seg, 0) == |seg|;
  }

  lemma {:induction false} TwoSegments(x: string, y: string)
    requires SegmentOk(x) && x[0] == ':' && SegmentOk(y) && !IsMarker(y[0])
    ensures SegmentsOk([x, y])
  {
    var segments := [x, y];
    assert segments == [x] + [y] && [x] == [] + [x];
    WildNamesPush([], x);
    WildNamesPush([x], y);
    assert WildNames(segments) == [x[1..]];
  }

  lemma {:induction false} ParamRouteParses()
    ensures ParseUri(PARAM_ROUTE).Some?
  {
    var x, y := ":id", "foo";
    PlainSegment(x);
    PlainSegment(y);
    SplitAcrossSlash(x, y);
    assert x[1..] == "id" && y[1..] == "oo";
    TwoSegments(x, y);
    assert PARAM_ROUTE[1..] == x + "/" + y;
    assert Split(x + "/" + y) == [x, y];
    assert IsAscii(PARAM_ROUTE) && Body(PARAM_ROUTE) == PARAM_ROUTE;
    ParseExactly(PARAM_ROUTE);
  }

  /** In the other order nothing is diverted although the kinds disagree. */
  lemma {:induction false} OtherOrderIsNotDiverted()
    ensures var ps := [REST_ROUTE, PARAM_ROUTE];
      && WordOf(REST_ROUTE).Some? && WordOf(PARAM_ROUTE).Some? && !KindConsistent(ps)
      && !Diverted(ps, 0) && !Diverted(ps, 1)
  {
    var ps := [REST_ROUTE, PARAM_ROUTE];
    MixedWords();
    var u, w := WordOf(PARAM_ROUTE).value, WordOf(REST_ROUTE).value;
    assert w[1] == Star && u[|u| - 1] == Lit('o');
    SharesItself(ps, 0, 1);
    assert Opening(ps, w, 1) == Star;
    assert w[1..] == [Star] && u[1..] == [Par] + Lits("/foo");
    assert !SameKinds(w[1..], u[1..]);
    assert !KindsAgree(ps[0], ps[1]);
  }
}
