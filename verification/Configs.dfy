/** Configuration: a tree of routes, mounts and modifiers is compiled, in one
    walk over shared tables, into the route table and the scope forest. */
module Configs {
  import opened Options
  import opened Uris
  import opened Routing
  import opened Scopes
  import opened Recognizer

  // ---- handlers ---------------------------------------------------------------

  /** A handler as a term: what was registered, and what was done to it. */
  datatype Handler<H, M> = Plain(h: H) | Modified(modifier: M, handler: Handler<H, M>)

  /** The modifier of a scope; `Both` is `Chain`, whose left side is applied first. */
  datatype Modifier<M> = Identity | Both(left: Modifier<M>, right: M) {
    function Apply<H>(handler: Handler<H, M>): Handler<H, M> {
      match this
      case Identity => handler
      case Both(l, r) => Modified(r, l.Apply(handler))
    }
  }

  // ---- configurations -----------------------------------------------------------

  datatype Config<H, M> =
    | Unit
    | Route(path: string, handler: H)
    | Mount(prefix: string, config: Config<H, M>)
    | Modify(modifier: M, config: Config<H, M>)
    | Chain(left: Config<H, M>, right: Config<H, M>)
    | Optional(some: Option<Config<H, M>>)
    | Fallible(result: Result<Config<H, M>, string>)

  datatype Endpoint<H, M> = Endpoint(scope: ScopeId, ancestors: seq<ScopeId>, uri: Uri, handler: Handler<H, M>)

  datatype ScopeData<H, M> = ScopeData(prefix: Uri, defaultHandler: Option<Handler<H, M>>)

  /** The shared tables: the router, the entries it indexes, and the scopes. */
  datatype Tables<H, M> = Tables(router: Router, entries: seq<(string, Endpoint<H, M>)>,
                                 scopes: Forest<ScopeData<H, M>>)

  function NewTables<H, M>(): Tables<H, M> {
    Tables(EMPTY, [], NewForest(ScopeData(Uri.Root, None)))
  }

  /** A path under a prefix. */
  function Resolve(prefix: Uri, path: string): Option<Uri> {
    match ParseUri(path)
    case None => None
    case Some(u) => ParsedNames(path); JoinUri(prefix, u)
  }

  lemma {:induction false} ParsedNames(path: string)
    requires ParseUri(path).Some?
    ensures NonEmptyNames(ParseUri(path).value)
  {
    ParsedIsBuilt(path);
    JoinExactly(Uri.Root, ParseUri(path).value);
  }

  lemma {:induction false} ResolvedIsBuilt(prefix: Uri, path: string)
    requires Built(prefix) && Resolve(prefix, path).Some?
    ensures Built(Resolve(prefix, path).value)
    ensures prefix.AsStr() <= Resolve(prefix, path).value.AsStr()
  {
    ParsedIsBuilt(path);
    JoinExactly(prefix, ParseUri(path).value);
  }

  // ---- the compiler as a value ----------------------------------------------------

  function AddRoute<H, M>(t: Tables<H, M>, path: string, handler: H, id: ScopeId,
                          modifier: Modifier<M>): Option<Tables<H, M>>
    requires t.scopes.Has(id)
  {
    var scope := t.scopes.At(id);
    var modified := modifier.Apply(Plain(handler));
    if path == "*" then
      Some(t.(scopes := t.scopes.WithData(id, scope.data.(defaultHandler := Some(modified)))))
    else
      match Resolve(scope.data.prefix, path)
      case None => None
      case Some(uri) =>
        match Routing.Insert(t.router, uri.AsStr())
        case None => None
        case Some(r) =>
          var endpoint := Endpoint(scope.id, scope.Chain(), uri, modified);
          Some(t.(router := r, entries := MapPut(t.entries, uri.AsStr(), endpoint)))
  }

  function AddScope<H, M>(t: Tables<H, M>, prefix: string, parent: ScopeId): (r: Option<Tables<H, M>>)
    requires t.scopes.Has(parent)
    ensures r.Some? ==> r.value.scopes.Has(Index(|t.scopes.nodes|)) && r.value.scopes.Has(parent)
  {
    match Resolve(t.scopes.At(parent).data.prefix, prefix)
    case None => None
    case Some(uri) => Some(t.(scopes := t.scopes.Grown(parent, ScopeData(uri, None))))
  }

  function Compile<H, M>(t: Tables<H, M>, config: Config<H, M>, id: ScopeId,
                         modifier: Modifier<M>): (r: Option<Tables<H, M>>)
    requires t.scopes.Has(id)
    ensures r.Some? ==> |t.scopes.nodes| <= |r.value.scopes.nodes|
    decreases config
  {
    match config
    case Unit => Some(t)
    case Route(path, handler) => AddRoute(t, path, handler, id, modifier)
    case Mount(prefix, inner) =>
      (match AddScope(t, prefix, id)
       case None => None
       case Some(t') => Compile(t', inner, Index(|t.scopes.nodes|), modifier))
    case Modify(m, inner) => Compile(t, inner, id, Both(modifier, m))
    case Chain(left, right) =>
      (match Compile(t, left, id, modifier)
       case None => None
       case Some(t') => Compile(t', right, id, modifier))
    case Optional(some) =>
      if some.Some? then Compile(t, some.value, id, modifier) else Some(t)
    case Fallible(result) =>
      if result.Ok? then Compile(t, result.ok, id, modifier) else None
  }

  // ---- the compiler as it runs ------------------------------------------------------

  /** The view of the shared tables from one scope. */
  class Context<H, M> {
    const recognizer: Recognizer<Endpoint<H, M>>
    const scopes: Scopes<ScopeData<H, M>>
    const modifier: Modifier<M>
    const scopeId: ScopeId

    constructor (recognizer: Recognizer<Endpoint<H, M>>, scopes: Scopes<ScopeData<H, M>>,
                 modifier: Modifier<M>, scopeId: ScopeId)
      ensures this.recognizer == recognizer && this.scopes == scopes && this.modifier == modifier
        && this.scopeId == scopeId
    {
      this.recognizer, this.scopes, this.modifier, this.scopeId := recognizer, scopes, modifier, scopeId;
    }

    ghost function State(): Tables<H, M>
      reads recognizer, recognizer.root, scopes
    {
      Tables(recognizer.Model(), recognizer.inner, scopes.Value())
    }

    ghost predicate Ready()
      reads recognizer, recognizer.nodes, scopes
    {
      recognizer.Valid() && scopes.Value().Has(scopeId)
    }

    /** Add a route to the scope; the path `*` sets the scope's default handler. */
    method Route(path: string, handler: H) returns (ok: bool)
      requires Ready()
      modifies recognizer, recognizer.nodes, scopes
      ensures fresh(recognizer.nodes - old(recognizer.nodes))
      ensures ok <==> AddRoute(old(State()), path, handler, scopeId, modifier).Some?
      ensures ok ==> Ready() && State() == AddRoute(old(State()), path, handler, scopeId, modifier).value
    {
      var scope := scopes.Get(scopeId);
      if path == "*" {
        scopes.SetData(scopeId, scope.data.(defaultHandler := Some(modifier.Apply(Plain(handler)))));
        return true;
      }
      var parsed := Parse(path);
      if parsed == None {
        return false;
      }
      ParsedNames(path);
      var joined := Join(scope.data.prefix, parsed.value);
      if joined == None {
        return false;
      }
      var uri := joined.value;
      ok := recognizer.Insert(uri.AsStr(),
                              Endpoint(scope.id, scope.ancestors + [scope.id], uri, modifier.Apply(Plain(handler))));
    }

    /** Create a sub-scope and configure it. */
    method Mount(prefix: string, config: Config<H, M>) returns (ok: bool)
      requires Ready()
      modifies recognizer, recognizer.nodes, scopes
      ensures fresh(recognizer.nodes - old(recognizer.nodes))
      ensures ok <==> Compile(old(State()), Config.Mount(prefix, config), scopeId, modifier).Some?
      ensures ok ==> Ready() && State() == Compile(old(State()), Config.Mount(prefix, config), scopeId, modifier).value
      decreases config, 1
    {
      var parsed := Parse(prefix);
      if parsed == None {
        return false;
      }
      ParsedNames(prefix);
      var joined := Join(scopes.Get(scopeId).data.prefix, parsed.value);
      if joined == None {
        return false;
      }
      var id := scopes.AddNode(scopeId, ScopeData(joined.value, None));
      var cx := new Context(recognizer, scopes, modifier, id);
      ok := cx.Configure(config);
    }

    /** Configure the scope under one more modifier. */
    method Modify(m: M, config: Config<H, M>) returns (ok: bool)
      requires Ready()
      modifies recognizer, recognizer.nodes, scopes
      ensures fresh(recognizer.nodes - old(recognizer.nodes))
      ensures ok <==> Compile(old(State()), config, scopeId, Both(modifier, m)).Some?
      ensures ok ==> Ready() && State() == Compile(old(State()), config, scopeId, Both(modifier, m)).value
      decreases config, 1
    {
      var cx := new Context(recognizer, scopes, Both(modifier, m), scopeId);
      ok := cx.Configure(config);
    }

    method Configure(config: Config<H, M>) returns (ok: bool)
      requires Ready()
      modifies recognizer, recognizer.nodes, scopes
      ensures fresh(recognizer.nodes - old(recognizer.nodes))
      ensures ok <==> Compile(old(State()), config, scopeId, modifier).Some?
      ensures ok ==> Ready() && State() == Compile(old(State()), config, scopeId, modifier).value
      decreases config, 0
    {
      match config
      case Unit => ok := true;
      case Route(path, handler) => ok := Route(path, handler);
      case Mount(prefix, inner) => ok := Mount(prefix, inner);
      case Modify(m, inner) => ok := Modify(m, inner);
      case Chain(left, right) =>
        ok := Configure(left);
        if ok {
          ok := Configure(right);
        }
      case Optional(some) =>
        ok := true;
        if some.Some? {
          ok := Configure(some.value);
        }
      case Fallible(result) =>
        ok := false;
        if result.Ok? {
          ok := Configure(result.ok);
        }
    }
  }

  /** Configure a new application; it stops at the first error. */
  method Create<H, M>(config: Config<H, M>)
    returns (ok: bool, recognizer: Recognizer<Endpoint<H, M>>, scopes: Scopes<ScopeData<H, M>>)
    ensures fresh(recognizer) && fresh(recognizer.nodes) && fresh(scopes)
    ensures ok <==> Compile(NewTables(), config, ScopeId.Root, Identity).Some?
    ensures ok ==> recognizer.Valid()
    ensures ok ==>
              Tables(recognizer.Model(), recognizer.inner, scopes.Value())
              == Compile(NewTables(), config, ScopeId.Root, Identity).value
  {
    recognizer := new Recognizer();
    scopes := new Scopes(ScopeData(Uri.Root, None));
    var cx := new Context(recognizer, scopes, Identity, ScopeId.Root);
    ok := cx.Configure(config);
  }
}
