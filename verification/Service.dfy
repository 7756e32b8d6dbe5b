/** Serving a request: the matched endpoint, or else a default handler, or else 404. */
module Service {
  import opened Options
  import opened Patterns
  import opened Uris
  import opened Recognition
  import opened Matching
  import opened Routing
  import opened Scopes
  import opened Recognizer
  import opened Configs
  import opened Flattening
  import opened Apps
  import Bookkeeping
  import Guarantees
  import NearMisses

  /** The endpoints of those candidates that have an entry. */
  function Listed<H, M>(entries: seq<(string, Endpoint<H, M>)>, candidates: seq<nat>): (r: seq<Endpoint<H, M>>)
    ensures forall e | e in r :: exists i | 0 <= i < |entries| :: entries[i].1 == e
    ensures forall i | i in candidates && i < |entries| :: entries[i].1 in r
  {
    if candidates == [] then []
    else
      var i, rest := candidates[0], Listed(entries, candidates[1..]);
      if i < |entries| then [entries[i].1] + rest else rest
  }

  /** The route table can be served from. */
  ghost predicate Servable<H, M>(t: Tables<H, M>) {
    Sound(t) && InBounds(t.router)
  }

  /** What a path leads to: an entry, or the scope that answers for the failure. */
  function FindEndpoint<H, M>(t: Tables<H, M>, path: string): (r: Result<nat, ScopeId>)
    requires Servable(t)
    ensures r.Ok? ==> r.ok < |t.entries|
    ensures r.Err? ==> t.scopes.Has(r.err)
  {
    FoundIsEntry(t, path);
    match Routing.Recognize(t.router, path).outcome
    case Matched(i) => Ok(i)
    case NotMatched => Err(ScopeId.Root)
    case PartiallyMatched(c) =>
      CommonIsKnown(t.scopes, Listed(t.entries, c));
      Err(Infer(t.scopes, path, Listed(t.entries, c)))
  }

  lemma {:induction false} FoundIsEntry<H, M>(t: Tables<H, M>, path: string)
    requires Servable(t)
    ensures var o := Routing.Recognize(t.router, path).outcome; o.Matched? ==> o.i < |t.entries|
  {
    assert |Keys(t.entries)| == |t.entries|;
    if t.router.root.Some? {
      WalkInBounds(t.router.root.value, path, 0, None);
    }
  }

  /** The handler that serves a path; `None` is the status 404. */
  function Serve<H, M>(t: Tables<H, M>, path: string): Option<Handler<H, M>>
    requires Servable(t)
  {
    match FindEndpoint(t, path)
    case Ok(i) => Some(t.entries[i].1.handler)
    case Err(id) => DefaultIsDeepest(t.scopes, id); FindDefault(t.scopes, id)
  }

  // ---- the request as it is processed ---------------------------------------------------

  datatype Stage<H, M> = Init | InFlight(handler: Handler<H, M>) | Done

  /** What polling the handler gives. */
  datatype Answer<R> = NotReady | Replies(reply: R) | Fails

  datatype Polled<R> = Pending | Answered(reply: R) | Failed | NotFound | Panicked

  class AppFuture<H, M> {
    const recognizer: Recognizer<Endpoint<H, M>>
    const scopes: Scopes<ScopeData<H, M>>
    const path: string
    var endpoint: Option<Endpoint<H, M>>
    var captures: Option<Captures>
    var state: Stage<H, M>

    constructor (recognizer: Recognizer<Endpoint<H, M>>, scopes: Scopes<ScopeData<H, M>>, path: string)
      ensures this.recognizer == recognizer && this.scopes == scopes && this.path == path
      ensures state == Init && endpoint == None && captures == None
    {
      this.recognizer, this.scopes, this.path := recognizer, scopes, path;
      endpoint, captures, state := None, None, Init;
    }

    ghost function App(): Tables<H, M>
      reads recognizer, recognizer.root, scopes
    {
      Tables(recognizer.Model(), recognizer.inner, scopes.Value())
    }

    ghost predicate Ready()
      reads recognizer, recognizer.nodes, scopes
    {
      recognizer.Valid() && Servable(App())
    }

    /** The endpoint and the captures are those of this request alone. */
    method ProcessRecognize() returns (handler: Option<Handler<H, M>>)
      requires Ready()
      modifies this`endpoint, this`captures
      ensures handler == Serve(App(), path)
      ensures captures == Routing.Recognize(App().router, path).captures
      ensures endpoint == match FindEndpoint(App(), path) case Ok(i) => Some(App().entries[i].1) case Err(_) => None
    {
      endpoint, captures := None, None;
      var reply, found := recognizer.Recognize(path);
      captures := reply.captures;
      match reply.outcome {
        case Matched(i) =>
          endpoint := found;
          return Some(found.value.handler);
        case NotMatched =>
          DefaultIsDeepest(scopes.Value(), ScopeId.Root);
          handler := FindDefaultHandler(scopes, ScopeId.Root);
        case PartiallyMatched(c) =>
          var endpoints := ListEndpoints(recognizer.inner, c);
          var scope := InferScope(scopes, path, endpoints);
          DefaultIsDeepest(scopes.Value(), scope);
          handler := FindDefaultHandler(scopes, scope);
      }
    }

    /** One poll; `answer` is what the handler in flight gives if it is polled. */
    method Poll<R>(answer: Answer<R>) returns (r: Polled<R>)
      requires Ready()
      modifies this
      ensures r.Panicked? <==> old(state) == Done
      ensures old(state) == Init ==>
        && captures == Routing.Recognize(App().router, path).captures
        && endpoint == (match FindEndpoint(App(), path) case Ok(i) => Some(App().entries[i].1) case Err(_) => None)
      ensures old(state) != Init ==> endpoint == old(endpoint) && captures == old(captures)
      ensures
        var serving :=
          match old(state)
          case Init => Serve(App(), path)
          case InFlight(h) => Some(h)
          case Done => None;
        && (serving.None? ==> state == Done && (r == NotFound || r == Panicked))
        && (serving.Some? && answer.NotReady? ==> r == Pending && state == InFlight(serving.value))
        && (serving.Some? && !answer.NotReady? ==>
              state == Done && r == if answer.Fails? then Failed else Answered(answer.reply))
    {
      while true
        invariant Ready()
        invariant state == old(state)
          || (old(state) == Init && state.InFlight? && Serve(App(), path) == Some(state.handler))
        invariant state == old(state) ==> endpoint == old(endpoint) && captures == old(captures)
        invariant old(state) == Init && state != Init ==>
          && captures == Routing.Recognize(App().router, path).captures
          && endpoint == (match FindEndpoint(App(), path) case Ok(i) => Some(App().entries[i].1) case Err(_) => None)
        decreases if state == Init then 1 else 0
      {
        match state
        case Init =>
          var handler := ProcessRecognize();
          if handler == None {
            state := Done;
            return NotFound;
          }
          state := InFlight(handler.value);
        case InFlight(_) =>
          if answer.NotReady? {
            return Pending;
          }
          state := Done;
          return if answer.Fails? then Failed else Answered(answer.reply);
        case Done =>
          return Panicked;
      }
    }
  }

  method ListEndpoints<H, M>(entries: seq<(string, Endpoint<H, M>)>, candidates: seq<nat>)
    returns (r: seq<Endpoint<H, M>>)
    ensures r == Listed(entries, candidates)
  {
    var i := 0;
    r := [];
    assert candidates[0..] == candidates;
    while i < |candidates|
      invariant i <= |candidates|
      invariant Listed(entries, candidates) == r + Listed(entries, candidates[i..])
    {
      var k := candidates[i];
      assert candidates[i..][0] == k && candidates[i..][1..] == candidates[i + 1..];
      if k < |entries| {
        r := r + [entries[k].1];
      }
      i := i + 1;
    }
  }

  method FindDefaultHandler<H, M>(scopes: Scopes<ScopeData<H, M>>, start: ScopeId) returns (r: Option<Handler<H, M>>)
    requires scopes.Value().Has(start) && forall x | x in scopes.Value().At(start).ancestors :: scopes.Value().Has(x)
    ensures r == FindDefault(scopes.Value(), start)
  {
    var scope := scopes.Get(start);
    if scope.data.defaultHandler.Some? {
      return scope.data.defaultHandler;
    }
    var ancestors := scope.ancestors;
    var i := |ancestors|;
    assert ancestors[..i] == ancestors;
    while i > 0
      invariant i <= |ancestors|
      invariant Nearest(scopes.Value(), ancestors) == Nearest(scopes.Value(), ancestors[..i])
    {
      i := i - 1;
      assert ancestors[..i + 1][..i] == ancestors[..i];
      var above := scopes.Get(ancestors[i]);
      if above.data.defaultHandler.Some? {
        return above.data.defaultHandler;
      }
    }
    r := None;
  }

  // ---- what a built application serves ----------------------------------------------------

  /** A built application is sound and its route table closed. */
  lemma {:induction false} BuiltIsServable<H, M>(config: Config<H, M>)
    requires Buildable(config)
    ensures Servable(Flatten(config))
  {
    CompileIsFlattening(config);
    NewIsSound<H, M>();
    CompileKeepsSound(NewTables<H, M>(), config, ScopeId.Root, Identity);
    RoutesRooted(config);
    Bookkeeping.FoundHasEntry(UriTexts(Endpoints(config, Top(), 0)), "");
  }

  lemma {:induction false} RoutesRooted<H, M>(config: Config<H, M>)
    requires Resolvable(config, Uri.Root)
    ensures var ps := UriTexts(Endpoints(config, Top(), 0)); AllRooted(ps) && "*" !in ps
  {
    var endpoints := Endpoints(config, Top<M>(), 0);
    EndpointsBuilt(config, Top<M>(), 0);
    forall i | 0 <= i < |endpoints| ensures Rooted(UriTexts(endpoints)[i]) && UriTexts(endpoints)[i] != "*" {
      BuiltIsRooted(endpoints[i].uri);
    }
  }

  /** A path that fills the pattern of the k-th route of a configuration is
      served by that route's handler under its modifiers, with the
      replacements as captures. */
  lemma {:induction false} RouteServes<H, M>(config: Config<H, M>, k: nat, args: seq<string>)
    requires Buildable(config) && k < |Endpoints(config, Top(), 0)|
    requires KindConsistent(UriTexts(Endpoints(config, Top(), 0)))
    requires var w := WordOf(UriTexts(Endpoints(config, Top(), 0))[k]);
      w.Some? && |args| == Wilds(w.value) && Proper(w.value, args)
    ensures Servable(Flatten(config))
    ensures
      var endpoints := Endpoints(config, Top(), 0);
      var w := WordOf(UriTexts(endpoints)[k]).value;
      var path := Fill(w, args);
      && FindEndpoint(Flatten(config), path) == Ok(k)
      && Serve(Flatten(config), path) == Some(endpoints[k].handler)
      && Routing.Recognize(Flatten(config).router, path).captures == Capture(w, SpansOf(w, args, 0), None)
  {
    BuiltIsServable(config);
    RoutesRooted(config);
    Guarantees.InstancesAreMatched(UriTexts(Endpoints(config, Top(), 0)), k, args);
  }

  /** A request whose path matches no route is answered by the default handler
      of the deepest scope, on the path from the root to the scope inferred,
      that has one; it is answered 404 exactly when none has. */
  lemma {:induction false} FallbackServes<H, M>(t: Tables<H, M>, path: string) returns (chain: seq<ScopeId>)
    requires Servable(t) && FindEndpoint(t, path).Err?
    ensures chain == t.scopes.At(FindEndpoint(t, path).err).Chain() && OnRootPath(t.scopes, FindEndpoint(t, path).err)
    ensures forall x | x in chain :: t.scopes.Has(x)
    ensures IsDeepest(t.scopes, chain, Serve(t, path))
    ensures Serve(t, path).None? <==> forall x | x in chain :: t.scopes.At(x).data.defaultHandler.None?
  {
    var id := FindEndpoint(t, path).err;
    chain := t.scopes.At(id).Chain();
    DefaultIsDeepest(t.scopes, id);
  }

  /** A path that is not even a near miss is left to the last `*` directly in
      the root of the configuration. */
  lemma {:induction false} MissServes<H, M>(config: Config<H, M>, path: string)
    requires Buildable(config) && Routing.Recognize(Flatten(config).router, path).outcome.NotMatched?
    ensures Servable(Flatten(config))
    ensures Serve(Flatten(config), path) == Default(config, [])
  {
    BuiltIsServable(config);
    var f := Flatten(config).scopes;
    assert f.At(ScopeId.Root).ancestors == [];
    DefaultIsDeepest(f, ScopeId.Root);
  }

  /** The chains that all routes begin with whose spelling begins with `x`. */
  ghost predicate SharedBy<H, M>(p: seq<ScopeId>, endpoints: seq<Endpoint<H, M>>, x: Word) {
    forall i | 0 <= i < |endpoints| && NearMisses.Begins(UriTexts(endpoints), i, x) :: p <= endpoints[i].ancestors
  }

  lemma {:induction false} PrefixOfPrefix<T>(p: seq<T>, u: seq<T>, v: seq<T>)
    requires p <= u && u <= v
    ensures p <= v
  {
  }

  /** The endpoint of some route that begins with `x`. */
  ghost predicate IsNear<H, M>(endpoints: seq<Endpoint<H, M>>, e: Endpoint<H, M>, x: Word) {
    exists i | 0 <= i < |endpoints| && endpoints[i] == e :: NearMisses.Begins(UriTexts(endpoints), i, x)
  }

  lemma {:induction false} SharedIsCommon<H, M>(p: seq<ScopeId>, endpoints: seq<Endpoint<H, M>>,
                                                near: seq<Endpoint<H, M>>, x: Word)
    requires forall e :: e in near <==> IsNear(endpoints, e, x)
    ensures IsCommon(p, near) <==> SharedBy(p, endpoints, x)
  {
    if IsCommon(p, near) {
      forall i | 0 <= i < |endpoints| && NearMisses.Begins(UriTexts(endpoints), i, x)
        ensures p <= endpoints[i].ancestors {
        assert IsNear(endpoints, endpoints[i], x);
      }
    }
    if SharedBy(p, endpoints, x) {
      forall e | e in near ensures p <= e.ancestors {
        assert IsNear(endpoints, e, x);
      }
    }
  }

  lemma {:induction false} ListedIsNear<H, M>(endpoints: seq<Endpoint<H, M>>, c: seq<nat>, x: Word)
    requires c != []
    requires forall i: nat :: i in c <==> i < |endpoints| && NearMisses.Begins(UriTexts(endpoints), i, x)
    ensures forall e :: e in Listed(Entries(endpoints), c) <==> IsNear(endpoints, e, x)
    ensures Listed(Entries(endpoints), c) != []
  {
    var near := Listed(Entries(endpoints), c);
    assert c[0] in c && endpoints[c[0]] in near;
    forall e | IsNear(endpoints, e, x) ensures e in near {
      var i :| 0 <= i < |endpoints| && endpoints[i] == e && NearMisses.Begins(UriTexts(endpoints), i, x);
      assert i in c;
    }
    ListedIsCandidate(endpoints, c);
  }

  lemma {:induction false} ListedIsCandidate<H, M>(endpoints: seq<Endpoint<H, M>>, c: seq<nat>)
    ensures forall e | e in Listed(Entries(endpoints), c) :: exists i | i in c && i < |endpoints| :: endpoints[i] == e
    decreases |c|
  {
    if c != [] {
      ListedIsCandidate(endpoints, c[1..]);
      assert c == [c[0]] + c[1..];
      assert forall i | i in c[1..] :: i in c;
    }
  }

  /** The chains that all routes that begin with `x` begin with are those that
      the longest common one begins with. */
  lemma {:induction false} ChainIsShared<H, M>(chain: seq<ScopeId>, endpoints: seq<Endpoint<H, M>>,
                                               near: seq<Endpoint<H, M>>, x: Word)
    requires near != [] && Common(near) == Some(chain) && forall e :: e in near <==> IsNear(endpoints, e, x)
    ensures forall p: seq<ScopeId> :: p <= chain <==> SharedBy(p, endpoints, x)
  {
    CommonIsLongest(near);
    forall p: seq<ScopeId> ensures p <= chain <==> SharedBy(p, endpoints, x) {
      SharedIsCommon(p, endpoints, near, x);
      if p <= chain {
        PrefixIsCommon(p, chain, near);
      }
    }
  }

  lemma {:induction false} PrefixIsCommon<H, M>(p: seq<ScopeId>, chain: seq<ScopeId>, near: seq<Endpoint<H, M>>)
    requires p <= chain && IsCommon(chain, near)
    ensures IsCommon(p, near)
  {
    forall e | e in near ensures p <= e.ancestors {
      PrefixOfPrefix(p, chain, e.ancestors);
    }
  }

  /** A near miss is answered from the longest chain of scopes shared by the
      routes that begin with what was consumed of the path: at its shallowest
      scope whose prefix extends the path, or else at its deepest scope. */
  lemma {:induction false} NearMissIsInferred<H, M>(config: Config<H, M>, path: string)
    returns (x: Word, spans: seq<Span>, slack: string, m: nat, chain: seq<ScopeId>, k: nat)
    requires Buildable(config) && path != "*"
    requires Routing.Recognize(Flatten(config).router, path).outcome.PartiallyMatched?
    ensures Servable(Flatten(config)) && Reached(x, spans, slack, path, 0, m)
    ensures forall p: seq<ScopeId> :: p <= chain <==> SharedBy(p, Endpoints(config, Top(), 0), x)
    ensures k < |chain| && forall y | y in chain :: Flatten(config).scopes.Has(y)
    ensures FindEndpoint(Flatten(config), path) == Err(chain[k])
    ensures var f := Flatten(config).scopes;
      && (forall j | 0 <= j < k :: !(path <= f.At(chain[j]).data.prefix.AsStr()))
      && (path <= f.At(chain[k]).data.prefix.AsStr() || k == |chain| - 1)
      && (forall i, j | 0 <= i < j < |chain| && path <= f.At(chain[i]).data.prefix.AsStr() ::
            path <= f.At(chain[j]).data.prefix.AsStr())
  {
    BuiltIsServable(config);
    RoutesRooted(config);
    var t, endpoints := Flatten(config), Endpoints(config, Top(), 0);
    x, spans, slack, m := NearMisses.PartialMatchesExplain(UriTexts(endpoints), path);
    var c := Routing.Recognize(t.router, path).outcome.candidates;
    var near := Listed(t.entries, c);
    ListedIsNear(endpoints, c, x);
    chain, k := InferExactly(t.scopes, path, near);
    ChainIsShared(chain, endpoints, near, x);
  }
}
