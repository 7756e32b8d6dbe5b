/** Where the routes and the scopes of a configuration lie: under the segments
    of the mounts around them, followed by those of their own path. */
module Trails {
  import opened Options
  import opened Patterns
  import opened Uris
  import opened Routing
  import opened Scopes
  import opened Layouts
  import opened Configs
  import opened Flattening
  import Bookkeeping

  /** The prefixes around a part of a configuration and its own path, outermost first. */
  type Trail = seq<string>

  // ---- the URI of a trail ---------------------------------------------------------

  /** All segments in order. The slash at the end is that of the last part that
      has segments; where there is none, it is that of the root. */
  function LayoutAlong(trail: Trail): Layout {
    if trail == [] then Layout([], true)
    else
      var front, last := LayoutAlong(trail[..|trail| - 1]), LayoutOf(trail[|trail| - 1]);
      if last.segments == [] then front else Layout(front.segments + last.segments, last.slash)
  }

  function NamesOfPart(part: string): Option<Names> {
    NamesOfSegments(LayoutOf(part).segments)
  }

  function NamesOfParts(trail: Trail): (r: seq<Option<Names>>)
    ensures |r| == |trail| && forall i | 0 <= i < |r| :: r[i] == NamesOfPart(trail[i])
  {
    seq(|trail|, i requires 0 <= i < |trail| => NamesOfPart(trail[i]))
  }

  function LastSome<T>(xs: seq<Option<T>>): Option<T> {
    if xs == [] then None
    else if xs[|xs| - 1].Some? then xs[|xs| - 1]
    else LastSome(xs[..|xs| - 1])
  }

  ghost predicate AtMostOne<T>(xs: seq<Option<T>>) {
    forall i, j | 0 <= i < j < |xs| :: xs[i].None? || xs[j].None?
  }

  /** The names of the last part that captures. */
  function NamesAlong(trail: Trail): Option<Names> {
    LastSome(NamesOfParts(trail))
  }

  function UriAlong(trail: Trail): Uri {
    var l := LayoutAlong(trail);
    if l.segments == [] then Uri.Root else Segments(l.Text(), NamesAlong(trail))
  }

  /** Every part parses, and no two parts capture. */
  ghost predicate Passable(trail: Trail) {
    AllParse(trail) && AtMostOne(NamesOfParts(trail))
  }

  predicate AllParse(trail: Trail) {
    forall i | 0 <= i < |trail| :: ParseUri(trail[i]).Some?
  }

  lemma {:induction false} NoneIsLast<T>(xs: seq<Option<T>>)
    ensures LastSome(xs).None? <==> forall i | 0 <= i < |xs| :: xs[i].None?
    decreases |xs|
  {
    if xs != [] {
      NoneIsLast(xs[..|xs| - 1]);
    }
  }

  lemma {:induction false} LastPush<T>(xs: seq<Option<T>>, x: Option<T>)
    ensures LastSome(xs + [x]) == if x.Some? then x else LastSome(xs)
    ensures AtMostOne(xs + [x]) <==> AtMostOne(xs) && (LastSome(xs).None? || x.None?)
  {
    var all := xs + [x];
    assert all[..|xs|] == xs;
    NoneIsLast(xs);
    if AtMostOne(all) {
      assert forall i | 0 <= i < |xs| :: all[i].None? || all[|xs|].None?;
      assert forall i, j | 0 <= i < j < |xs| :: all[i].None? || all[j].None?;
    }
  }

  lemma {:induction false} PartsPush(trail: Trail, path: string)
    ensures NamesOfParts(trail + [path]) == NamesOfParts(trail) + [NamesOfPart(path)]
    ensures AllParse(trail + [path]) <==> AllParse(trail) && ParseUri(path).Some?
  {
    var all := trail + [path];
    assert all[|trail|] == path && forall i | 0 <= i < |trail| :: all[i] == trail[i];
    assert AllParse(all) ==> forall i | 0 <= i < |trail| :: ParseUri(all[i]).Some?;
  }

  lemma {:induction false} PassablePush(trail: Trail, path: string)
    ensures Passable(trail + [path]) <==>
      && Passable(trail) && ParseUri(path).Some? && (NamesAlong(trail).None? || NamesOfPart(path).None?)
  {
    PartsPush(trail, path);
    LastPush(NamesOfParts(trail), NamesOfPart(path));
  }

  lemma {:induction false} AlongPush(trail: Trail, path: string)
    ensures LayoutAlong(trail + [path])
      == if LayoutOf(path).segments == [] then LayoutAlong(trail)
         else Layout(LayoutAlong(trail).segments + LayoutOf(path).segments, LayoutOf(path).slash)
    ensures NamesAlong(trail + [path]) == if NamesOfPart(path).Some? then NamesOfPart(path) else NamesAlong(trail)
  {
    assert (trail + [path])[..|trail|] == trail;
    PartsPush(trail, path);
    LastPush(NamesOfParts(trail), NamesOfPart(path));
  }

  /** What is laid along a passable trail. */
  lemma {:induction false} AlongIsLaid(trail: Trail)
    requires Passable(trail)
    ensures Laid(LayoutAlong(trail)) && Built(UriAlong(trail)) && UriAlong(trail).AsStr() == LayoutAlong(trail).Text()
    ensures UriAlong(trail).CaptureNames() == NamesAlong(trail)
    decreases |trail|
  {
    if trail != [] {
      var front, path := trail[..|trail| - 1], trail[|trail| - 1];
      assert trail == front + [path];
      PassablePush(front, path);
      AlongIsLaid(front);
      StepAlong(front, path);
    }
  }

  /** A path that parses: its URI by its layout. */
  lemma {:induction false} ParsedPart(path: string)
    requires ParseUri(path).Some?
    ensures var u, l := ParseUri(path).value, LayoutOf(path);
      && Laid(l) && l.Text() == path && Built(u) && u.CaptureNames() == NamesOfPart(path)
      && (u.Root? <==> l.segments == []) && (u.Segments? ==> u.text == path)
  {
    ParsesByLayout(path);
    ParsedIsBuilt(path);
    if path != "/" {
      ParseExactly(path);
    }
  }

  lemma {:induction false} FirstBytes(l: Layout)
    requires Laid(l) && l.segments != []
    ensures |l.Text()| > 1 && l.Text()[0] == '/' && l.Text()[1] != '/'
  {
    assert Sound(l.segments[0]);
    assert l.Text()[1] == l.segments[0][0];
  }

  lemma {:induction false} JoinPlain(x: string, y: string)
    requires x != "" && x[|x| - 1] != '/'
    ensures JoinText(x, y) == x + y
  {
  }

  lemma {:induction false} JoinSlashed(x: string, y: string)
    requires |y| > 1 && y[0] == '/' && y[1] != '/'
    ensures JoinText(x + "/", y) == x + y
  {
    TrimOnce(y);
    assert y == "/" + y[1..];
    assert x + "/" + y[1..] == x + ("/" + y[1..]);
  }

  /** Joining texts lays their segments one after the other. */
  lemma {:induction false} JoinIsLaid(a: Layout, b: Layout)
    requires Laid(a) && Laid(b) && a.segments != [] && b.segments != []
    ensures JoinText(a.Text(), b.Text()) == Layout(a.segments + b.segments, b.slash).Text()
  {
    var x := Glue(a.segments, false);
    GlueConcat(a.segments, b.segments, b.slash);
    if a.slash {
      GlueSlash(a.segments);
      FirstBytes(b);
      JoinSlashed(x, b.Text());
    } else {
      LastByte(a.segments);
      JoinPlain(x, b.Text());
    }
  }

  lemma {:induction false} LaidConcat(a: Layout, b: Layout)
    requires Laid(a) && Laid(b) && b.segments != []
    ensures Laid(Layout(a.segments + b.segments, b.slash))
  {
    var all := a.segments + b.segments;
    assert forall i | 0 <= i < |all| ::
      all[i] == if i < |a.segments| then a.segments[i] else b.segments[i - |a.segments|];
  }

  /** One more part of a trail is one join. */
  lemma {:induction false} JoinAlong(trail: Trail, path: string)
    requires Laid(LayoutAlong(trail)) && Built(UriAlong(trail)) && UriAlong(trail).CaptureNames() == NamesAlong(trail)
    requires ParseUri(path).Some? && NonEmptyNames(ParseUri(path).value)
    ensures JoinUri(UriAlong(trail), ParseUri(path).value)
      == if NamesAlong(trail).None? || NamesOfPart(path).None? then Some(UriAlong(trail + [path])) else None
  {
    var a, b := UriAlong(trail), ParseUri(path).value;
    AlongPush(trail, path);
    ParsedPart(path);
    JoinExactly(a, b);
    if a.Segments? && b.Segments? {
      JoinIsLaid(LayoutAlong(trail), LayoutOf(path));
    } else if a.Root? && b.Segments? {
      assert [] + LayoutOf(path).segments == LayoutOf(path).segments;
    }
  }

  lemma {:induction false} StepAlong(trail: Trail, path: string)
    requires Laid(LayoutAlong(trail)) && Built(UriAlong(trail)) && UriAlong(trail).CaptureNames() == NamesAlong(trail)
    requires ParseUri(path).Some? && (NamesAlong(trail).None? || NamesOfPart(path).None?)
    ensures var u, l := UriAlong(trail + [path]), LayoutAlong(trail + [path]);
      && Laid(l) && Built(u) && u.AsStr() == l.Text() && u.CaptureNames() == NamesAlong(trail + [path])
  {
    AlongPush(trail, path);
    ParsedPart(path);
    JoinExactly(UriAlong(trail), ParseUri(path).value);
    JoinAlong(trail, path);
    if LayoutOf(path).segments != [] {
      LaidConcat(LayoutAlong(trail), LayoutOf(path));
    }
  }

  /** A path resolves under the URI of a trail if and only if the longer trail
      is passable, and then to its URI. */
  lemma {:induction false} ResolvesAlong(trail: Trail, path: string)
    requires Passable(trail)
    ensures Resolve(UriAlong(trail), path) == if Passable(trail + [path]) then Some(UriAlong(trail + [path])) else None
  {
    AlongIsLaid(trail);
    PassablePush(trail, path);
    if ParseUri(path).Some? {
      ParsedNames(path);
      JoinAlong(trail, path);
    }
  }

  // ---- the trails of a configuration ----------------------------------------------------

  /** The trails of the routes other than `*`, from left to right. */
  function RouteTrails<H, M>(config: Config<H, M>, above: Trail): seq<Trail> {
    match config
    case Unit => []
    case Route(path, _) => if path == "*" then [] else [above + [path]]
    case Mount(prefix, inner) => RouteTrails(inner, above + [prefix])
    case Modify(_, inner) => RouteTrails(inner, above)
    case Chain(left, right) => RouteTrails(left, above) + RouteTrails(right, above)
    case Optional(some) => if some.Some? then RouteTrails(some.value, above) else []
    case Fallible(result) => if result.Ok? then RouteTrails(result.ok, above) else []
  }

  /** The trails of the mounts, in pre-order. */
  function MountTrails<H, M>(config: Config<H, M>, above: Trail): seq<Trail> {
    match config
    case Unit => []
    case Route(_, _) => []
    case Mount(prefix, inner) => [above + [prefix]] + MountTrails(inner, above + [prefix])
    case Modify(_, inner) => MountTrails(inner, above)
    case Chain(left, right) => MountTrails(left, above) + MountTrails(right, above)
    case Optional(some) => if some.Some? then MountTrails(some.value, above) else []
    case Fallible(result) => if result.Ok? then MountTrails(result.ok, above) else []
  }

  predicate NoErrors<H, M>(config: Config<H, M>) {
    match config
    case Unit => true
    case Route(_, _) => true
    case Mount(_, inner) => NoErrors(inner)
    case Modify(_, inner) => NoErrors(inner)
    case Chain(left, right) => NoErrors(left) && NoErrors(right)
    case Optional(some) => some.Some? ==> NoErrors(some.value)
    case Fallible(result) => result.Ok? && NoErrors(result.ok)
  }

  ghost predicate AllPassable(trails: seq<Trail>) {
    forall k | 0 <= k < |trails| :: Passable(trails[k])
  }

  /** Everything on the way to every route and every mount can be joined. */
  ghost predicate Open<H, M>(config: Config<H, M>, above: Trail) {
    NoErrors(config) && AllPassable(RouteTrails(config, above)) && AllPassable(MountTrails(config, above))
  }

  lemma {:induction false} PassableBoth(x: seq<Trail>, y: seq<Trail>)
    ensures AllPassable(x + y) <==> AllPassable(x) && AllPassable(y)
  {
    assert forall k | 0 <= k < |x| :: (x + y)[k] == x[k];
    assert forall k | 0 <= k < |y| :: (x + y)[|x| + k] == y[k];
  }

  lemma {:induction false} PassableOne(trail: Trail)
    ensures AllPassable([trail]) <==> Passable(trail)
  {
    assert [trail][0] == trail;
  }

  /** Everything in a configuration resolves if and only if every part on the
      way to a route or a mount parses, no two of them capture, and nothing is
      an error. */
  lemma {:induction false} ResolvableExactly<H, M>(config: Config<H, M>, above: Trail)
    requires Passable(above)
    ensures Resolvable(config, UriAlong(above)) <==> Open(config, above)
    decreases config, 0
  {
    match config
    case Unit =>
    case Route(path, _) =>
      ResolvesAlong(above, path);
      PassableOne(above + [path]);
    case Mount(prefix, inner) => MountResolves(above, prefix, inner);
    case Modify(_, inner) => ResolvableExactly(inner, above);
    case Chain(left, right) =>
      ResolvableExactly(left, above);
      ResolvableExactly(right, above);
      PassableBoth(RouteTrails(left, above), RouteTrails(right, above));
      PassableBoth(MountTrails(left, above), MountTrails(right, above));
    case Optional(some) =>
      if some.Some? {
        ResolvableExactly(some.value, above);
      }
    case Fallible(result) =>
      if result.Ok? {
        ResolvableExactly(result.ok, above);
      }
  }

  lemma {:induction false} MountResolves<H, M>(above: Trail, prefix: string, inner: Config<H, M>)
    requires Passable(above)
    ensures Resolvable(Config.Mount(prefix, inner), UriAlong(above)) <==> Open(Config.Mount(prefix, inner), above)
    decreases inner, 1
  {
    var trail := above + [prefix];
    ResolvesAlong(above, prefix);
    PassableOne(trail);
    PassableBoth([trail], MountTrails(inner, trail));
    if Passable(trail) {
      ResolvableExactly(inner, trail);
    }
  }

  // ---- where the routes and the scopes lie ---------------------------------------------------

  function UrisAlong(trails: seq<Trail>): (r: seq<Uri>)
    ensures |r| == |trails| && forall k | 0 <= k < |r| :: r[k] == UriAlong(trails[k])
  {
    seq(|trails|, k requires 0 <= k < |trails| => UriAlong(trails[k]))
  }

  function UrisOf<H, M>(endpoints: seq<Endpoint<H, M>>): (r: seq<Uri>)
    ensures |r| == |endpoints| && forall k | 0 <= k < |r| :: r[k] == endpoints[k].uri
  {
    seq(|endpoints|, k requires 0 <= k < |endpoints| => endpoints[k].uri)
  }

  function PrefixesOf<H, M>(nodes: seq<Scope<ScopeData<H, M>>>): (r: seq<Uri>)
    ensures |r| == |nodes| && forall k | 0 <= k < |r| :: r[k] == nodes[k].data.prefix
  {
    seq(|nodes|, k requires 0 <= k < |nodes| => nodes[k].data.prefix)
  }

  /** The k-th route lies at the URI of the k-th trail. */
  ghost predicate RoutesLie<H, M>(endpoints: seq<Endpoint<H, M>>, trails: seq<Trail>) {
    UrisOf(endpoints) == UrisAlong(trails)
  }

  /** The k-th scope has the URI of the k-th trail as its prefix. */
  ghost predicate ScopesLie<H, M>(nodes: seq<Scope<ScopeData<H, M>>>, trails: seq<Trail>) {
    PrefixesOf(nodes) == UrisAlong(trails)
  }

  lemma {:induction false} UrisAlongBoth(a: seq<Trail>, b: seq<Trail>)
    ensures UrisAlong(a + b) == UrisAlong(a) + UrisAlong(b)
  {
  }

  lemma {:induction false} RoutesLieBoth<H, M>(x: seq<Endpoint<H, M>>, y: seq<Endpoint<H, M>>, a: seq<Trail>,
                                               b: seq<Trail>)
    requires RoutesLie(x, a) && RoutesLie(y, b)
    ensures RoutesLie(x + y, a + b)
  {
    UrisAlongBoth(a, b);
    assert UrisOf(x + y) == UrisOf(x) + UrisOf(y);
  }

  lemma {:induction false} ScopesLieBoth<H, M>(x: seq<Scope<ScopeData<H, M>>>, y: seq<Scope<ScopeData<H, M>>>,
                                               a: seq<Trail>, b: seq<Trail>)
    requires ScopesLie(x, a) && ScopesLie(y, b)
    ensures ScopesLie(x + y, a + b)
  {
    UrisAlongBoth(a, b);
    assert PrefixesOf(x + y) == PrefixesOf(x) + PrefixesOf(y);
  }

  lemma {:induction false} ChainTrails<H, M>(left: Config<H, M>, right: Config<H, M>, above: Trail)
    ensures RouteTrails(Config.Chain(left, right), above) == RouteTrails(left, above) + RouteTrails(right, above)
    ensures MountTrails(Config.Chain(left, right), above) == MountTrails(left, above) + MountTrails(right, above)
  {
  }

  lemma {:induction false} ChainEndpoints<H, M>(left: Config<H, M>, right: Config<H, M>, at: Place<M>, next: nat)
    requires at.chain != [] && Resolvable(left, at.prefix) && Resolvable(right, at.prefix)
    ensures Resolvable(Config.Chain(left, right), at.prefix)
    ensures Endpoints(Config.Chain(left, right), at, next)
      == Endpoints(left, at, next) + Endpoints(right, at, next + Mounts(left))
  {
  }

  /** Every route and every scope lies at the URI of its trail. */
  lemma {:induction false} PartsLie<H, M>(config: Config<H, M>, at: Place<M>, next: nat, above: Trail)
    requires Passable(above) && at.prefix == UriAlong(above) && at.chain != [] && Resolvable(config, at.prefix)
    ensures RoutesLie(Endpoints(config, at, next), RouteTrails(config, above))
    ensures ScopesLie(Nodes(config, at, next), MountTrails(config, above))
    decreases config, 0
  {
    match config
    case Unit =>
    case Route(path, _) => ResolvesAlong(above, path);
    case Mount(prefix, inner) =>
      ResolvesAlong(above, prefix);
      MountLies(at, next, above, prefix, inner);
    case Modify(m, inner) => PartsLie(inner, at.(modifiers := at.modifiers + [m]), next, above);
    case Chain(left, right) =>
      PartsLie(left, at, next, above);
      PartsLie(right, at, next + Mounts(left), above);
      ChainTrails(left, right, above);
      ChainEndpoints(left, right, at, next);
      ChainParts(left, right, at, next, []);
      RoutesLieBoth(Endpoints(left, at, next), Endpoints(right, at, next + Mounts(left)),
                    RouteTrails(left, above), RouteTrails(right, above));
      ScopesLieBoth(Nodes(left, at, next), Nodes(right, at, next + Mounts(left)),
                    MountTrails(left, above), MountTrails(right, above));
    case Optional(some) =>
      if some.Some? {
        PartsLie(some.value, at, next, above);
      }
    case Fallible(result) => PartsLie(result.ok, at, next, above);
  }

  lemma {:induction false} MountLies<H, M>(at: Place<M>, next: nat, above: Trail, prefix: string, inner: Config<H, M>)
    requires Passable(above) && at.prefix == UriAlong(above) && at.chain != []
    requires Resolvable(Config.Mount(prefix, inner), at.prefix)
    ensures RoutesLie(Endpoints(Config.Mount(prefix, inner), at, next), RouteTrails(Config.Mount(prefix, inner), above))
    ensures ScopesLie(Nodes(Config.Mount(prefix, inner), at, next), MountTrails(Config.Mount(prefix, inner), above))
    decreases inner, 1
  {
    ResolvesAlong(above, prefix);
    var trail, below := above + [prefix], Under(at, prefix, Index(next));
    PartsLie(inner, below, next + 1, trail);
    var scope := Scope(Index(next), at.chain, ScopeData(below.prefix, Default(inner, at.modifiers)));
    ScopesLieBoth([scope], Nodes(inner, below, next + 1), [trail], MountTrails(inner, trail));
  }

  function TextsAlong(trails: seq<Trail>): (ps: seq<string>)
    ensures |ps| == |trails| && forall k | 0 <= k < |ps| :: ps[k] == LayoutAlong(trails[k]).Text()
  {
    seq(|trails|, k requires 0 <= k < |trails| => LayoutAlong(trails[k]).Text())
  }

  /** Configuring succeeds if and only if everything on the way to every route
      and mount can be joined, and the texts of the routes are accepted in
      order. The k-th route is then registered under its text and its URI, and
      the k-th scope has the prefix, that lie along the k-th trail. */
  lemma {:induction false} CompiledAlongTrails<H, M>(config: Config<H, M>)
    ensures var routes, mounts, t := RouteTrails(config, []), MountTrails(config, []),
                                     Compile(NewTables<H, M>(), config, ScopeId.Root, Identity);
      && (t.Some? <==> Open(config, []) && Run(TextsAlong(routes)).Some?)
      && (t.Some? ==> t.value.router.keys == TextsAlong(routes) && ScopesLie(t.value.scopes.nodes, mounts))
      && (t.Some? ==> |t.value.entries| == |routes| && forall k | 0 <= k < |routes| ::
            t.value.entries[k].0 == LayoutAlong(routes[k]).Text() && t.value.entries[k].1.uri == UriAlong(routes[k]))
  {
    CompileIsFlattening(config);
    assert UriAlong([]) == Uri.Root;
    ResolvableExactly(config, []);
    if Open(config, []) {
      PartsLie(config, Top(), 0, []);
      TextsLie(Endpoints(config, Top(), 0), RouteTrails(config, []));
      if Run(TextsAlong(RouteTrails(config, []))).Some? {
        KeysOfRun(TextsAlong(RouteTrails(config, [])));
      }
    }
  }

  lemma {:induction false} TextsLie<H, M>(endpoints: seq<Endpoint<H, M>>, trails: seq<Trail>)
    requires RoutesLie(endpoints, trails) && AllPassable(trails)
    ensures UriTexts(endpoints) == TextsAlong(trails)
    ensures AllRooted(TextsAlong(trails))
  {
    forall k | 0 <= k < |trails|
      ensures endpoints[k].uri.AsStr() == LayoutAlong(trails[k]).Text() && Rooted(TextsAlong(trails)[k])
    {
      AlongIsLaid(trails[k]);
      LaidIsRooted(LayoutAlong(trails[k]));
    }
  }

  lemma {:induction false} KeysOfRun(ps: seq<string>)
    requires AllRooted(ps) && Run(ps).Some?
    ensures Run(ps).value.keys == ps
  {
    Bookkeeping.RunIsBooked(ps);
  }

  function LayoutsAlong(trails: seq<Trail>): (ls: seq<Layout>)
    ensures |ls| == |trails| && forall k | 0 <= k < |ls| :: ls[k] == LayoutAlong(trails[k])
  {
    seq(|trails|, k requires 0 <= k < |trails| => LayoutAlong(trails[k]))
  }

  /** Where the wildcard kinds agree, an application can be configured if and
      only if everything on the way to every route and mount can be joined,
      nothing comes after a catch-all, and the words of no two routes are in
      conflict. */
  lemma {:induction false} AcceptedAlongTrails<H, M>(config: Config<H, M>)
    requires WordsAgree(LayoutsAlong(RouteTrails(config, [])))
    ensures var ls := LayoutsAlong(RouteTrails(config, []));
      Compile(NewTables<H, M>(), config, ScopeId.Root, Identity).Some? <==>
        && Open(config, [])
        && (forall k | 0 <= k < |ls| :: CatchAllLast(ls[k].segments, ls[k].slash))
        && (forall j, k | 0 <= j < k < |ls| :: !Conflict(ls[j].Word(), ls[k].Word()))
  {
    var trails := RouteTrails(config, []);
    var ls := LayoutsAlong(trails);
    CompiledAlongTrails(config);
    assert Texts(ls) == TextsAlong(trails);
    if Open(config, []) {
      forall k | 0 <= k < |ls| ensures Laid(ls[k]) {
        AlongIsLaid(trails[k]);
      }
      LayoutsAccepted(ls);
    }
  }
}
