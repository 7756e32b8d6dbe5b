/** What a configuration means, read off the tree without any shared state, and
    the theorem that compiling computes exactly that. */
module Flattening {
  import opened Options
  import opened Uris
  import opened Routing
  import opened Scopes
  import opened Recognizer
  import opened Configs
  import Bookkeeping

  // ---- the meaning of a configuration -------------------------------------------

  /** Where a part of a configuration stands: the joined prefix, the chain of
      scopes from the root, and the modifiers around it, outermost first. */
  datatype Place<M> = Place(prefix: Uri, chain: seq<ScopeId>, modifiers: seq<M>)

  /** The innermost modifier is applied last. */
  function Wrap<H, M>(modifiers: seq<M>, handler: Handler<H, M>): Handler<H, M> {
    if modifiers == [] then handler
    else Modified(modifiers[|modifiers| - 1], Wrap(modifiers[..|modifiers| - 1], handler))
  }

  function Mounts<H, M>(config: Config<H, M>): nat {
    match config
    case Unit => 0
    case Route(_, _) => 0
    case Mount(_, inner) => 1 + Mounts(inner)
    case Modify(_, inner) => Mounts(inner)
    case Chain(left, right) => Mounts(left) + Mounts(right)
    case Optional(some) => if some.Some? then Mounts(some.value) else 0
    case Fallible(result) => if result.Ok? then Mounts(result.ok) else 0
  }

  /** Every path parses and joins with the prefixes around it, and nothing is an error. */
  predicate Resolvable<H, M>(config: Config<H, M>, prefix: Uri) {
    match config
    case Unit => true
    case Route(path, _) => path == "*" || Resolve(prefix, path).Some?
    case Mount(path, inner) => Resolve(prefix, path).Some? && Resolvable(inner, Resolve(prefix, path).value)
    case Modify(_, inner) => Resolvable(inner, prefix)
    case Chain(left, right) => Resolvable(left, prefix) && Resolvable(right, prefix)
    case Optional(some) => some.Some? ==> Resolvable(some.value, prefix)
    case Fallible(result) => result.Ok? && Resolvable(result.ok, prefix)
  }

  function Under<M>(at: Place<M>, prefix: string, id: ScopeId): Place<M>
    requires Resolve(at.prefix, prefix).Some?
  {
    Place(Resolve(at.prefix, prefix).value, at.chain + [id], at.modifiers)
  }

  /** The routes other than `*`, from left to right; `next` is the number of
      scopes mounted before. */
  function Endpoints<H, M>(config: Config<H, M>, at: Place<M>, next: nat): seq<Endpoint<H, M>>
    requires Resolvable(config, at.prefix) && at.chain != []
    decreases config
  {
    match config
    case Unit => []
    case Route(path, handler) =>
      if path == "*" then []
      else [Endpoint(at.chain[|at.chain| - 1], at.chain, Resolve(at.prefix, path).value,
                     Wrap(at.modifiers, Plain(handler)))]
    case Mount(prefix, inner) => Endpoints(inner, Under(at, prefix, Index(next)), next + 1)
    case Modify(m, inner) => Endpoints(inner, at.(modifiers := at.modifiers + [m]), next)
    case Chain(left, right) => Endpoints(left, at, next) + Endpoints(right, at, next + Mounts(left))
    case Optional(some) => if some.Some? then Endpoints(some.value, at, next) else []
    case Fallible(result) => Endpoints(result.ok, at, next)
  }

  /** The last route `*` that stands directly in a scope. */
  function Default<H, M>(config: Config<H, M>, modifiers: seq<M>): Option<Handler<H, M>> {
    match config
    case Unit => None
    case Route(path, handler) => if path == "*" then Some(Wrap(modifiers, Plain(handler))) else None
    case Mount(_, _) => None
    case Modify(m, inner) => Default(inner, modifiers + [m])
    case Chain(left, right) => OrElse(Default(right, modifiers), Default(left, modifiers))
    case Optional(some) => if some.Some? then Default(some.value, modifiers) else None
    case Fallible(result) => if result.Ok? then Default(result.ok, modifiers) else None
  }

  /** The mounted scopes in pre-order. */
  function Nodes<H, M>(config: Config<H, M>, at: Place<M>, next: nat): (r: seq<Scope<ScopeData<H, M>>>)
    requires Resolvable(config, at.prefix) && at.chain != []
    ensures |r| == Mounts(config)
    decreases config
  {
    match config
    case Unit => []
    case Route(_, _) => []
    case Mount(prefix, inner) =>
      var below := Under(at, prefix, Index(next));
      [Scope(Index(next), at.chain, ScopeData(below.prefix, Default(inner, at.modifiers)))]
      + Nodes(inner, below, next + 1)
    case Modify(m, inner) => Nodes(inner, at.(modifiers := at.modifiers + [m]), next)
    case Chain(left, right) => Nodes(left, at, next) + Nodes(right, at, next + Mounts(left))
    case Optional(some) => if some.Some? then Nodes(some.value, at, next) else []
    case Fallible(result) => Nodes(result.ok, at, next)
  }

  function UriTexts<H, M>(endpoints: seq<Endpoint<H, M>>): (r: seq<string>)
    ensures |r| == |endpoints|
    ensures forall i | 0 <= i < |r| :: r[i] == endpoints[i].uri.AsStr()
  {
    seq(|endpoints|, i requires 0 <= i < |endpoints| => endpoints[i].uri.AsStr())
  }

  function Entries<H, M>(endpoints: seq<Endpoint<H, M>>): (r: seq<(string, Endpoint<H, M>)>)
    ensures |r| == |endpoints|
    ensures forall i | 0 <= i < |r| :: r[i] == (endpoints[i].uri.AsStr(), endpoints[i])
  {
    seq(|endpoints|, i requires 0 <= i < |endpoints| => (endpoints[i].uri.AsStr(), endpoints[i]))
  }

  function Top<M>(): Place<M> {
    Place(Uri.Root, [ScopeId.Root], [])
  }

  /** The configuration can be built: everything resolves, and the route
      patterns, in order, are accepted. */
  predicate Buildable<H, M>(config: Config<H, M>) {
    Resolvable(config, Uri.Root) && Run(UriTexts(Endpoints(config, Top(), 0))).Some?
  }

  function Flatten<H, M>(config: Config<H, M>): Tables<H, M>
    requires Buildable(config)
  {
    var endpoints := Endpoints(config, Top(), 0);
    Tables(Run(UriTexts(endpoints)).value, Entries(endpoints),
           Forest(Scope(ScopeId.Root, [], ScopeData(Uri.Root, Default(config, []))), Nodes(config, Top(), 0)))
  }

  // ---- compiling is flattening ------------------------------------------------------

  lemma {:induction false} RunOne(ps: seq<string>, p: string)
    ensures Run(ps + [p]) == if Run(ps).Some? then Insert(Run(ps).value, p) else None
  {
    assert (ps + [p])[..|ps|] == ps;
  }

  /** A run never goes past a refusal. */
  lemma {:induction false} RunFront(ps: seq<string>, more: seq<string>)
    requires Run(ps + more).Some?
    ensures Run(ps).Some?
    decreases |more|
  {
    if more == [] {
      assert ps + more == ps;
    } else {
      var front, last := more[..|more| - 1], more[|more| - 1];
      assert ps + more == ps + front + [last];
      RunOne(ps + front, last);
      RunFront(ps, front);
    }
  }

  lemma {:induction false} BuiltIsRooted(u: Uri)
    requires Built(u)
    ensures Rooted(u.AsStr()) && u.AsStr() != "*"
  {
  }

  /** The tables hold what was flattened so far. */
  ghost predicate Holds<H, M>(t: Tables<H, M>, endpoints: seq<Endpoint<H, M>>) {
    && (forall i | 0 <= i < |endpoints| :: Built(endpoints[i].uri))
    && Run(UriTexts(endpoints)) == Some(t.router)
    && t.entries == Entries(endpoints)
  }

  /** The forest with a default for one scope and some scopes more. */
  function Extended<H, M>(f: Forest<ScopeData<H, M>>, id: ScopeId, default: Option<Handler<H, M>>,
                          more: seq<Scope<ScopeData<H, M>>>)
    : (r: Forest<ScopeData<H, M>>)
    requires f.Has(id)
    ensures r.Has(id) && r.At(id).Chain() == f.At(id).Chain() && r.At(id).data.prefix == f.At(id).data.prefix
    ensures r.At(id).id == f.At(id).id && |r.nodes| == |f.nodes| + |more|
  {
    var g := if default.Some? then f.WithData(id, f.At(id).data.(defaultHandler := default)) else f;
    Forest(g.root, g.nodes + more)
  }

  lemma {:induction false} ExtendedTwice<H, M>(f: Forest<ScopeData<H, M>>, id: ScopeId,
      d: Option<Handler<H, M>>, e: Option<Handler<H, M>>, x: seq<Scope<ScopeData<H, M>>>,
      y: seq<Scope<ScopeData<H, M>>>)
    requires f.Has(id)
    ensures Extended(Extended(f, id, d, x), id, e, y) == Extended(f, id, OrElse(e, d), x + y)
  {
    var g := Extended(f, id, d, x);
    var h := Extended(g, id, e, y);
    assert h.nodes == Extended(f, id, OrElse(e, d), x + y).nodes;
  }

  lemma {:induction false} ExtendedBelow<H, M>(f: Forest<ScopeData<H, M>>, parent: ScopeId, prefix: Uri,
      d: Option<Handler<H, M>>, x: seq<Scope<ScopeData<H, M>>>)
    requires f.Has(parent)
    ensures var g, id := f.Grown(parent, ScopeData(prefix, None)), Index(|f.nodes|);
      Extended(g, id, d, x) == Extended(f, parent, None, [Scope(id, f.At(parent).Chain(), ScopeData(prefix, d))] + x)
  {
    var g, id := f.Grown(parent, ScopeData(prefix, None)), Index(|f.nodes|);
    assert Extended(g, id, d, x).nodes == f.nodes + ([Scope(id, f.At(parent).Chain(), ScopeData(prefix, d))] + x);
  }

  /** The modifier of a place is its modifiers, one inside the other. */
  ghost predicate Stacks<M>(modifier: Modifier<M>, modifiers: seq<M>) {
    match modifier
    case Identity => modifiers == []
    case Both(l, r) => modifiers != [] && modifiers[|modifiers| - 1] == r && Stacks(l, modifiers[..|modifiers| - 1])
  }

  lemma {:induction false} StackedWraps<H, M>(modifier: Modifier<M>, modifiers: seq<M>, handler: Handler<H, M>)
    requires Stacks(modifier, modifiers)
    ensures modifier.Apply(handler) == Wrap(modifiers, handler)
    decreases modifier
  {
    if modifier.Both? {
      StackedWraps(modifier.left, modifiers[..|modifiers| - 1], handler);
    }
  }

  lemma {:induction false} StacksPush<M>(modifier: Modifier<M>, modifiers: seq<M>, m: M)
    requires Stacks(modifier, modifiers)
    ensures Stacks(Both(modifier, m), modifiers + [m])
  {
    assert (modifiers + [m])[..|modifiers|] == modifiers;
  }

  /** The scope and the modifier are those of the place. */
  ghost predicate Stands<H, M>(f: Forest<ScopeData<H, M>>, id: ScopeId, modifier: Modifier<M>, at: Place<M>) {
    && f.Has(id) && at.chain != [] && f.At(id).Chain() == at.chain && f.At(id).data.prefix == at.prefix
    && Built(at.prefix) && Stacks(modifier, at.modifiers)
  }

  /** The tables that hold the given endpoints, if their patterns are accepted. */
  function Tabled<H, M>(endpoints: seq<Endpoint<H, M>>, f: Forest<ScopeData<H, M>>): Option<Tables<H, M>> {
    match Run(UriTexts(endpoints))
    case None => None
    case Some(r) => Some(Tables(r, Entries(endpoints), f))
  }

  /** The tables with a part of a configuration flattened into them. */
  function Result<H, M>(t: Tables<H, M>, done: seq<Endpoint<H, M>>, config: Config<H, M>, id: ScopeId, at: Place<M>)
    : Option<Tables<H, M>>
    requires t.scopes.Has(id) && at.chain != []
  {
    var next := |t.scopes.nodes|;
    if !Resolvable(config, at.prefix) then None
    else Tabled(done + Endpoints(config, at, next),
                Extended(t.scopes, id, Default(config, at.modifiers), Nodes(config, at, next)))
  }

  lemma {:induction false} TextsPush<H, M>(endpoints: seq<Endpoint<H, M>>, e: Endpoint<H, M>)
    ensures UriTexts(endpoints + [e]) == UriTexts(endpoints) + [e.uri.AsStr()]
    ensures Entries(endpoints + [e]) == Entries(endpoints) + [(e.uri.AsStr(), e)]
  {
  }

  lemma {:induction false} TextsConcat<H, M>(x: seq<Endpoint<H, M>>, y: seq<Endpoint<H, M>>)
    ensures UriTexts(x + y) == UriTexts(x) + UriTexts(y)
  {
  }

  lemma {:induction false} NoneMore<H, M>(t: Tables<H, M>, done: seq<Endpoint<H, M>>, id: ScopeId)
    requires Holds(t, done) && t.scopes.Has(id)
    ensures Run(UriTexts(done + [])) == Some(t.router) && Entries(done + []) == t.entries
    ensures Extended(t.scopes, id, None, []) == t.scopes
  {
    assert done + [] == done;
  }

  lemma {:induction false} RouteFlattens<H, M>(t: Tables<H, M>, done: seq<Endpoint<H, M>>, path: string, handler: H,
      id: ScopeId, modifier: Modifier<M>, at: Place<M>)
    requires Holds(t, done) && Stands(t.scopes, id, modifier, at)
    ensures AddRoute(t, path, handler, id, modifier) == Result(t, done, Config.Route(path, handler), id, at)
  {
    StackedWraps(modifier, at.modifiers, Plain(handler));
    NoneMore(t, done, id);
    if path == "*" {
      var f := t.scopes.WithData(id, t.scopes.At(id).data.(defaultHandler := Some(modifier.Apply(Plain(handler)))));
      assert f.nodes + [] == f.nodes;
    } else if Resolve(at.prefix, path).Some? {
      ResolvedIsBuilt(at.prefix, path);
      var uri := Resolve(at.prefix, path).value;
      var e := Endpoint(t.scopes.At(id).id, at.chain, uri, Wrap(at.modifiers, Plain(handler)));
      InsertFlattens(t, done, e);
    }
  }

  lemma {:induction false} EndpointsBuilt<H, M>(config: Config<H, M>, at: Place<M>, next: nat)
    requires Resolvable(config, at.prefix) && at.chain != [] && Built(at.prefix)
    ensures forall i | 0 <= i < |Endpoints(config, at, next)| :: Built(Endpoints(config, at, next)[i].uri)
    decreases config
  {
    match config
    case Unit =>
    case Route(path, handler) =>
      if path != "*" {
        ResolvedIsBuilt(at.prefix, path);
      }
    case Mount(prefix, inner) =>
      ResolvedIsBuilt(at.prefix, prefix);
      EndpointsBuilt(inner, Under(at, prefix, Index(next)), next + 1);
    case Modify(m, inner) => EndpointsBuilt(inner, at.(modifiers := at.modifiers + [m]), next);
    case Chain(left, right) =>
      EndpointsBuilt(left, at, next);
      EndpointsBuilt(right, at, next + Mounts(left));
    case Optional(some) =>
      if some.Some? {
        EndpointsBuilt(some.value, at, next);
      }
    case Fallible(result) => EndpointsBuilt(result.ok, at, next);
  }

  lemma {:induction false} InsertFlattens<H, M>(t: Tables<H, M>, done: seq<Endpoint<H, M>>, e: Endpoint<H, M>)
    requires Holds(t, done) && Built(e.uri)
    ensures Run(UriTexts(done + [e])) == Insert(t.router, e.uri.AsStr())
    ensures Run(UriTexts(done + [e])).Some? ==> MapPut(t.entries, e.uri.AsStr(), e) == Entries(done + [e])
  {
    TextsPush(done, e);
    RunOne(UriTexts(done), e.uri.AsStr());
    if Run(UriTexts(done + [e])).Some? {
      NewText(done, e);
      NewEntry(done, e);
    }
  }

  lemma {:induction false} NewEntry<H, M>(done: seq<Endpoint<H, M>>, e: Endpoint<H, M>)
    requires e.uri.AsStr() !in UriTexts(done)
    ensures MapPut(Entries(done), e.uri.AsStr(), e) == Entries(done + [e])
  {
    TextsPush(done, e);
    assert Keys(Entries(done)) == UriTexts(done);
  }

  /** An accepted route is not among those before it. */
  lemma {:induction false} NewText<H, M>(done: seq<Endpoint<H, M>>, e: Endpoint<H, M>)
    requires Run(UriTexts(done + [e])).Some? && Built(e.uri) && forall i | 0 <= i < |done| :: Built(done[i].uri)
    ensures e.uri.AsStr() !in UriTexts(done)
  {
    var texts, text := UriTexts(done), e.uri.AsStr();
    TextsPush(done, e);
    BuiltIsRooted(e.uri);
    forall i | 0 <= i < |texts| ensures Rooted(texts[i]) {
      BuiltIsRooted(done[i].uri);
    }
    LastIsNew(texts, text);
  }

  lemma {:induction false} LastIsNew(ps: seq<string>, p: string)
    requires Run(ps + [p]).Some? && Rooted(p) && forall i | 0 <= i < |ps| :: Rooted(ps[i])
    ensures p !in ps
  {
    var all := ps + [p];
    Bookkeeping.RunIsBooked(all);
    assert forall i | 0 <= i < |ps| :: ps[i] == all[i] != all[|ps|];
  }

  /** What a part leaves is flattened, and stands where the part stood. */
  lemma {:induction false} ResultStands<H, M>(t: Tables<H, M>, done: seq<Endpoint<H, M>>, config: Config<H, M>,
      id: ScopeId, modifier: Modifier<M>, at: Place<M>, t': Tables<H, M>)
    requires Holds(t, done) && Stands(t.scopes, id, modifier, at) && Result(t, done, config, id, at) == Some(t')
    ensures Resolvable(config, at.prefix) && Holds(t', done + Endpoints(config, at, |t.scopes.nodes|))
    ensures Stands(t'.scopes, id, modifier, at) && |t'.scopes.nodes| == |t.scopes.nodes| + Mounts(config)
  {
    EndpointsBuilt(config, at, |t.scopes.nodes|);
  }

  /** Compiling a part of a configuration flattens it into the tables. */
  lemma {:induction false} CompileFlattens<H, M>(t: Tables<H, M>, done: seq<Endpoint<H, M>>, config: Config<H, M>,
      id: ScopeId, modifier: Modifier<M>, at: Place<M>)
    requires Holds(t, done) && Stands(t.scopes, id, modifier, at)
    ensures Compile(t, config, id, modifier) == Result(t, done, config, id, at)
    decreases config, 1
  {
    match config
    case Unit => NothingFlattens(t, done, config, id, at);
    case Route(path, handler) => RouteFlattens(t, done, path, handler, id, modifier, at);
    case Mount(prefix, inner) => MountFlattens(t, done, prefix, inner, id, modifier, at);
    case Modify(m, inner) =>
      StacksPush(modifier, at.modifiers, m);
      CompileFlattens(t, done, inner, id, Both(modifier, m), at.(modifiers := at.modifiers + [m]));
      ModifyResult(t, done, m, inner, id, at);
    case Chain(left, right) => SidesFlatten(t, done, left, right, id, modifier, at);
    case Optional(some) =>
      if some.Some? {
        CompileFlattens(t, done, some.value, id, modifier, at);
        SameResult(t, done, config, some.value, id, at);
      } else {
        NothingFlattens(t, done, config, id, at);
      }
    case Fallible(result) =>
      if result.Ok? {
        CompileFlattens(t, done, result.ok, id, modifier, at);
        SameResult(t, done, config, result.ok, id, at);
      }
  }

  lemma {:induction false} NothingFlattens<H, M>(t: Tables<H, M>, done: seq<Endpoint<H, M>>, config: Config<H, M>,
                                                 id: ScopeId, at: Place<M>)
    requires Holds(t, done) && t.scopes.Has(id) && at.chain != [] && (config == Unit || config == Optional(None))
    ensures Result(t, done, config, id, at) == Some(t)
  {
    NoneMore(t, done, id);
  }

  lemma {:induction false} SameResult<H, M>(t: Tables<H, M>, done: seq<Endpoint<H, M>>, config: Config<H, M>,
                                            inner: Config<H, M>,
      id: ScopeId, at: Place<M>)
    requires t.scopes.Has(id) && at.chain != [] && (config == Optional(Some(inner)) || config == Fallible(Ok(inner)))
    ensures Result(t, done, config, id, at) == Result(t, done, inner, id, at)
  {
  }

  lemma {:induction false} ModifyResult<H, M>(t: Tables<H, M>, done: seq<Endpoint<H, M>>, m: M, inner: Config<H, M>,
                                              id: ScopeId, at: Place<M>)
    requires t.scopes.Has(id) && at.chain != []
    ensures Result(t, done, Config.Modify(m, inner), id, at)
      == Result(t, done, inner, id, at.(modifiers := at.modifiers + [m]))
  {
  }

  lemma {:induction false} MountFlattens<H, M>(t: Tables<H, M>, done: seq<Endpoint<H, M>>, prefix: string,
                                               inner: Config<H, M>,
      id: ScopeId, modifier: Modifier<M>, at: Place<M>)
    requires Holds(t, done) && Stands(t.scopes, id, modifier, at)
    ensures Compile(t, Config.Mount(prefix, inner), id, modifier)
      == Result(t, done, Config.Mount(prefix, inner), id, at)
    decreases inner, 2
  {
    if Resolve(at.prefix, prefix).Some? {
      ResolvedIsBuilt(at.prefix, prefix);
      MountStands(t, prefix, id, modifier, at);
      var t' := AddScope(t, prefix, id).value;
      var below := Under(at, prefix, Index(|t.scopes.nodes|));
      CompileFlattens(t', done, inner, Index(|t.scopes.nodes|), modifier, below);
      MountResult(t, done, prefix, inner, id, at, t');
    }
  }

  /** Flattening a mount is flattening what is mounted, below the new scope. */
  lemma {:induction false} MountResult<H, M>(t: Tables<H, M>, done: seq<Endpoint<H, M>>, prefix: string,
                                             inner: Config<H, M>,
      id: ScopeId, at: Place<M>, t': Tables<H, M>)
    requires t.scopes.Has(id) && at.chain != [] && t.scopes.At(id).Chain() == at.chain
      && Resolve(at.prefix, prefix).Some?
    requires t'.scopes == t.scopes.Grown(id, ScopeData(Resolve(at.prefix, prefix).value, None))
    ensures Result(t, done, Config.Mount(prefix, inner), id, at)
      == Result(t', done, inner, Index(|t.scopes.nodes|), Under(at, prefix, Index(|t.scopes.nodes|)))
  {
    var next := |t.scopes.nodes|;
    var below := Under(at, prefix, Index(next));
    if Resolvable(inner, below.prefix) {
      var d, n := Default(inner, at.modifiers), Nodes(inner, below, next + 1);
      var endpoints := done + Endpoints(inner, below, next + 1);
      ResultIs(t', done, inner, Index(next), below, endpoints, d, n);
      ResultIs(t, done, Config.Mount(prefix, inner), id, at, endpoints, None,
        [Scope(Index(next), at.chain, ScopeData(below.prefix, d))] + n);
      ExtendedBelow(t.scopes, id, below.prefix, d, n);
    }
  }

  lemma {:induction false} SidesFlatten<H, M>(t: Tables<H, M>, done: seq<Endpoint<H, M>>, left: Config<H, M>,
                                              right: Config<H, M>,
      id: ScopeId, modifier: Modifier<M>, at: Place<M>)
    requires Holds(t, done) && Stands(t.scopes, id, modifier, at)
    ensures Compile(t, Config.Chain(left, right), id, modifier) == Result(t, done, Config.Chain(left, right), id, at)
    decreases Config.Chain(left, right), 0
  {
    CompileFlattens(t, done, left, id, modifier, at);
    match Compile(t, left, id, modifier)
    case None => LeftRefused(t, done, left, right, id, at);
    case Some(t') =>
      ResultStands(t, done, left, id, modifier, at, t');
      CompileFlattens(t', done + Endpoints(left, at, |t.scopes.nodes|), right, id, modifier, at);
      ChainFlattens(t, done, left, right, id, at, t');
  }

  lemma {:induction false} MountStands<H, M>(t: Tables<H, M>, prefix: string, id: ScopeId, modifier: Modifier<M>,
                                             at: Place<M>)
    requires Stands(t.scopes, id, modifier, at) && Resolve(at.prefix, prefix).Some?
    ensures AddScope(t, prefix, id).Some?
    ensures var t' := AddScope(t, prefix, id).value;
      && t'.router == t.router && t'.entries == t.entries
      && t'.scopes == t.scopes.Grown(id, ScopeData(Resolve(at.prefix, prefix).value, None))
      && Stands(t'.scopes, Index(|t.scopes.nodes|), modifier, Under(at, prefix, Index(|t.scopes.nodes|)))
  {
    ResolvedIsBuilt(at.prefix, prefix);
  }

  lemma {:induction false} LeftRefused<H, M>(t: Tables<H, M>, done: seq<Endpoint<H, M>>, left: Config<H, M>,
                                             right: Config<H, M>,
      id: ScopeId, at: Place<M>)
    requires t.scopes.Has(id) && at.chain != [] && Result(t, done, left, id, at).None?
    ensures Result(t, done, Config.Chain(left, right), id, at).None?
  {
    var next := |t.scopes.nodes|;
    if Resolvable(left, at.prefix) && Resolvable(right, at.prefix) {
      var x, y := Endpoints(left, at, next), Endpoints(right, at, next + Mounts(left));
      var d, e := Default(left, at.modifiers), Default(right, at.modifiers);
      var n, m := Nodes(left, at, next), Nodes(right, at, next + Mounts(left));
      ChainParts(left, right, at, next, done);
      ResultIs(t, done, left, id, at, done + x, d, n);
      ResultIs(t, done, Config.Chain(left, right), id, at, done + x + y, OrElse(e, d), n + m);
      TabledTwice(done + x, y, Extended(t.scopes, id, d, n), Extended(t.scopes, id, OrElse(e, d), n + m));
    }
  }

  /** Flattening a chain is flattening its sides one after the other. */
  lemma {:induction false} ChainFlattens<H, M>(t: Tables<H, M>, done: seq<Endpoint<H, M>>, left: Config<H, M>,
                                               right: Config<H, M>,
      id: ScopeId, at: Place<M>, t': Tables<H, M>)
    requires t.scopes.Has(id) && at.chain != [] && Result(t, done, left, id, at) == Some(t')
    ensures Resolvable(left, at.prefix)
    ensures Result(t, done, Config.Chain(left, right), id, at)
      == Result(t', done + Endpoints(left, at, |t.scopes.nodes|), right, id, at)
  {
    LeftResult(t, done, left, id, at, t');
    if Resolvable(right, at.prefix) {
      var x, y := Endpoints(left, at, |t.scopes.nodes|), Endpoints(right, at, |t'.scopes.nodes|);
      var d, e := Default(left, at.modifiers), Default(right, at.modifiers);
      var n, m := Nodes(left, at, |t.scopes.nodes|), Nodes(right, at, |t'.scopes.nodes|);
      ChainParts(left, right, at, |t.scopes.nodes|, done);
      ExtendedTwice(t.scopes, id, d, e, n, m);
      ResultIs(t, done, Config.Chain(left, right), id, at, done + x + y, OrElse(e, d), n + m);
      ResultIs(t', done + x, right, id, at, done + x + y, e, m);
    } else {
      assert !Resolvable(Config.Chain(left, right), at.prefix);
    }
  }

  lemma {:induction false} ResultIs<H, M>(t: Tables<H, M>, done: seq<Endpoint<H, M>>, config: Config<H, M>, id: ScopeId,
                                          at: Place<M>,
      endpoints: seq<Endpoint<H, M>>, default: Option<Handler<H, M>>, more: seq<Scope<ScopeData<H, M>>>)
    requires t.scopes.Has(id) && at.chain != [] && Resolvable(config, at.prefix)
    requires endpoints == done + Endpoints(config, at, |t.scopes.nodes|)
    requires default == Default(config, at.modifiers) && more == Nodes(config, at, |t.scopes.nodes|)
    ensures Result(t, done, config, id, at) == Tabled(endpoints, Extended(t.scopes, id, default, more))
  {
  }

  lemma {:induction false} ChainParts<H, M>(left: Config<H, M>, right: Config<H, M>, at: Place<M>, next: nat,
                                            done: seq<Endpoint<H, M>>)
    requires at.chain != [] && Resolvable(left, at.prefix) && Resolvable(right, at.prefix)
    ensures Resolvable(Config.Chain(left, right), at.prefix)
    ensures done + Endpoints(Config.Chain(left, right), at, next)
      == done + Endpoints(left, at, next) + Endpoints(right, at, next + Mounts(left))
    ensures Default(Config.Chain(left, right), at.modifiers)
      == OrElse(Default(right, at.modifiers), Default(left, at.modifiers))
    ensures Nodes(Config.Chain(left, right), at, next) == Nodes(left, at, next) + Nodes(right, at, next + Mounts(left))
  {
    var x, y := Endpoints(left, at, next), Endpoints(right, at, next + Mounts(left));
    assert done + (x + y) == done + x + y;
  }

  lemma {:induction false} LeftResult<H, M>(t: Tables<H, M>, done: seq<Endpoint<H, M>>, left: Config<H, M>,
      id: ScopeId, at: Place<M>, t': Tables<H, M>)
    requires t.scopes.Has(id) && at.chain != [] && Result(t, done, left, id, at) == Some(t')
    ensures Resolvable(left, at.prefix)
    ensures t'.scopes == Extended(t.scopes, id, Default(left, at.modifiers), Nodes(left, at, |t.scopes.nodes|))
    ensures |t'.scopes.nodes| == |t.scopes.nodes| + Mounts(left)
  {
  }

  lemma {:induction false} TabledTwice<H, M>(x: seq<Endpoint<H, M>>, y: seq<Endpoint<H, M>>, f: Forest<ScopeData<H, M>>,
                                             g: Forest<ScopeData<H, M>>)
    ensures Tabled(x, f).None? ==> Tabled(x + y, g).None?
  {
    TextsConcat(x, y);
    if Run(UriTexts(x + y)).Some? {
      RunFront(UriTexts(x), UriTexts(y));
    }
  }

  /** Configuring succeeds exactly when the configuration can be built, and
      then the tables are its flattening. */
  lemma {:induction false} CompileIsFlattening<H, M>(config: Config<H, M>)
    ensures Compile(NewTables<H, M>(), config, ScopeId.Root, Identity)
      == if Buildable(config) then Some(Flatten(config)) else None
  {
    var t := NewTables<H, M>();
    assert UriTexts<H, M>([]) == [] && Entries<H, M>([]) == [];
    assert t.scopes.At(ScopeId.Root).Chain() == [ScopeId.Root];
    CompileFlattens(t, [], config, ScopeId.Root, Identity, Top());
    if Resolvable(config, Uri.Root) {
      assert [] + Endpoints(config, Top(), 0) == Endpoints(config, Top(), 0);
      assert [] + Nodes(config, Top(), 0) == Nodes(config, Top(), 0);
    }
  }
}
