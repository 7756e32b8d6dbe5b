/** Where a failed lookup is answered: the scope inferred from the near misses,
    and the default handler found from it. Both rest on what every
    configuration step keeps of the tables. */
module Apps {
  import opened Options
  import opened Patterns
  import opened Trie
  import opened Uris
  import opened Recognition
  import opened Routing
  import opened Scopes
  import opened Recognizer
  import opened Configs

  // ---- what every configuration step keeps ----------------------------------------

  /** Prefixes are built, and grow along every chain of scopes. */
  ghost predicate PrefixesGrow<H, M>(f: Forest<ScopeData<H, M>>) {
    forall id | f.Has(id) :: PrefixGrows(f, id)
  }

  ghost predicate PrefixGrows<H, M>(f: Forest<ScopeData<H, M>>, id: ScopeId)
    requires f.Has(id)
  {
    && Built(f.At(id).data.prefix)
    && forall x | x in f.At(id).Chain() :: f.Has(x) && f.At(x).data.prefix.AsStr() <= f.At(id).data.prefix.AsStr()
  }

  /** An endpoint knows its scope's chain, and its URI lies under the scope's prefix. */
  ghost predicate Placed<H, M>(f: Forest<ScopeData<H, M>>, e: Endpoint<H, M>) {
    && f.Has(e.scope) && e.ancestors == f.At(e.scope).Chain()
    && Built(e.uri) && f.At(e.scope).data.prefix.AsStr() <= e.uri.AsStr()
  }

  ghost predicate Sound<H, M>(t: Tables<H, M>) {
    && WellRooted(t.scopes) && PrefixesGrow(t.scopes)
    && Keys(t.entries) == t.router.keys
    && forall i | 0 <= i < |t.entries| ::
       t.entries[i].0 == t.entries[i].1.uri.AsStr() && Placed(t.scopes, t.entries[i].1)
  }

  lemma {:induction false} NewIsSound<H, M>()
    ensures Sound(NewTables<H, M>())
  {
    var f := NewTables<H, M>().scopes;
    NewIsRooted<ScopeData<H, M>>(ScopeData(Uri.Root, None));
    assert forall id | f.Has(id) :: id == ScopeId.Root && f.At(id).Chain() == [ScopeId.Root];
  }

  lemma {:induction false} RouteKeepsSound<H, M>(t: Tables<H, M>, path: string, handler: H, id: ScopeId,
                                                 modifier: Modifier<M>)
    requires Sound(t) && t.scopes.Has(id) && AddRoute(t, path, handler, id, modifier).Some?
    ensures Sound(AddRoute(t, path, handler, id, modifier).value)
  {
    var t' := AddRoute(t, path, handler, id, modifier).value;
    var scope := t.scopes.At(id);
    var modified := modifier.Apply(Plain(handler));
    assert OnRootPath(t.scopes, id);
    if path == "*" {
      DefaultKeepsSound(t, id, scope.data.(defaultHandler := Some(modified)));
    } else {
      ResolvedIsBuilt(scope.data.prefix, path);
      var uri := Resolve(scope.data.prefix, path).value;
      EntryKeepsSound(t, uri, Endpoint(scope.id, scope.Chain(), uri, modified), t');
    }
  }

  lemma {:induction false} DefaultKeepsSound<H, M>(t: Tables<H, M>, id: ScopeId, data: ScopeData<H, M>)
    requires Sound(t) && t.scopes.Has(id) && data.prefix == t.scopes.At(id).data.prefix
    ensures Sound(t.(scopes := t.scopes.WithData(id, data)))
  {
    var f, g := t.scopes, t.scopes.WithData(id, data);
    DataKeepsRooted(f, id, data);
    assert forall x | f.Has(x) :: g.At(x).data.prefix == f.At(x).data.prefix && g.At(x).Chain() == f.At(x).Chain();
    assert forall x | g.Has(x) :: f.Has(x);
    forall i | 0 <= i < |t.entries| ensures Placed(g, t.entries[i].1) {
      assert Placed(f, t.entries[i].1);
    }
  }

  lemma {:induction false} EntryKeepsSound<H, M>(t: Tables<H, M>, uri: Uri, e: Endpoint<H, M>, t': Tables<H, M>)
    requires Sound(t) && Placed(t.scopes, e) && e.uri == uri
    requires t'.scopes == t.scopes && t'.entries == MapPut(t.entries, uri.AsStr(), e)
    requires t'.router.keys == MapInsert(t.router.keys, uri.AsStr())
    ensures Sound(t')
  {
    assert forall i | 0 <= i < |t'.entries| ::
      (i < |t.entries| && t'.entries[i] == t.entries[i]) || t'.entries[i] == (uri.AsStr(), e);
  }

  lemma {:induction false} GrowthKeepsPrefixes<H, M>(f: Forest<ScopeData<H, M>>, parent: ScopeId, data: ScopeData<H, M>)
    requires WellRooted(f) && PrefixesGrow(f) && f.Has(parent)
    requires Built(data.prefix) && f.At(parent).data.prefix.AsStr() <= data.prefix.AsStr()
    ensures PrefixesGrow(f.Grown(parent, data))
  {
    var g, id := f.Grown(parent, data), Index(|f.nodes|);
    GrowthKeepsRooted(f, parent, data);
    forall x | g.Has(x) ensures PrefixGrows(g, x) {
      if x == id {
        assert PrefixGrows(f, parent);
        assert g.At(x).Chain() == f.At(parent).Chain() + [id];
      } else {
        assert PrefixGrows(f, x);
      }
    }
  }

  lemma {:induction false} ScopeKeepsSound<H, M>(t: Tables<H, M>, prefix: string, parent: ScopeId)
    requires Sound(t) && t.scopes.Has(parent) && AddScope(t, prefix, parent).Some?
    ensures Sound(AddScope(t, prefix, parent).value)
  {
    var f := t.scopes;
    var data: ScopeData<H, M> := ScopeData(Resolve(f.At(parent).data.prefix, prefix).value, None);
    var g := f.Grown(parent, data);
    GrowthKeepsRooted(f, parent, data);
    ResolvedIsBuilt(f.At(parent).data.prefix, prefix);
    GrowthKeepsPrefixes(f, parent, data);
    forall i | 0 <= i < |t.entries| ensures Placed(g, t.entries[i].1) {
      assert Placed(f, t.entries[i].1);
    }
  }

  /** Every part of a configuration keeps the tables sound. */
  lemma {:induction false} CompileKeepsSound<H, M>(t: Tables<H, M>, config: Config<H, M>, id: ScopeId,
                                                   modifier: Modifier<M>)
    requires Sound(t) && t.scopes.Has(id) && Compile(t, config, id, modifier).Some?
    ensures Sound(Compile(t, config, id, modifier).value)
    decreases config
  {
    match config
    case Unit =>
    case Route(path, handler) => RouteKeepsSound(t, path, handler, id, modifier);
    case Mount(prefix, inner) =>
      ScopeKeepsSound(t, prefix, id);
      CompileKeepsSound(AddScope(t, prefix, id).value, inner, Index(|t.scopes.nodes|), modifier);
    case Modify(m, inner) => CompileKeepsSound(t, inner, id, Both(modifier, m));
    case Chain(left, right) =>
      CompileKeepsSound(t, left, id, modifier);
      CompileKeepsSound(Compile(t, left, id, modifier).value, right, id, modifier);
    case Optional(some) =>
      if some.Some? {
        CompileKeepsSound(t, some.value, id, modifier);
      }
    case Fallible(result) => CompileKeepsSound(t, result.ok, id, modifier);
  }

  // ---- the common chain -------------------------------------------------------------

  /** Narrow the common chain by one more endpoint. */
  function Narrow(common: Option<seq<ScopeId>>, chain: seq<ScopeId>): Option<seq<ScopeId>> {
    var so_far := if common.Some? then common.value else chain;
    Some(so_far[..Lcp(so_far, chain)])
  }

  function Common<H, M>(endpoints: seq<Endpoint<H, M>>): Option<seq<ScopeId>> {
    if endpoints == [] then None
    else Narrow(Common(endpoints[..|endpoints| - 1]), endpoints[|endpoints| - 1].ancestors)
  }

  ghost predicate IsCommon<H, M>(chain: seq<ScopeId>, endpoints: seq<Endpoint<H, M>>) {
    forall e | e in endpoints :: chain <= e.ancestors
  }

  lemma {:induction false} LcpIsLongest<T>(u: seq<T>, v: seq<T>, p: seq<T>)
    requires p <= u && p <= v
    ensures |p| <= Lcp(u, v) && p <= u[..Lcp(u, v)]
    decreases |p|
  {
    if p != [] {
      LcpIsLongest(u[1..], v[1..], p[1..]);
      assert u[..Lcp(u, v)] == [u[0]] + u[1..][..Lcp(u[1..], v[1..])];
      assert p == [p[0]] + p[1..];
    }
  }

  /** The fold over the candidates yields their longest common chain. */
  lemma {:induction false} CommonIsLongest<H, M>(endpoints: seq<Endpoint<H, M>>)
    requires endpoints != []
    ensures Common(endpoints).Some? && IsCommon(Common(endpoints).value, endpoints)
    ensures forall p: seq<ScopeId> | IsCommon(p, endpoints) :: p <= Common(endpoints).value
    decreases |endpoints|
  {
    var front, last := endpoints[..|endpoints| - 1], endpoints[|endpoints| - 1];
    assert endpoints == front + [last];
    if front != [] {
      CommonIsLongest(front);
    }
    var so_far := if front == [] then last.ancestors else Common(front).value;
    forall p: seq<ScopeId> | IsCommon(p, endpoints) ensures p <= Common(endpoints).value {
      assert IsCommon(p, front) && p <= last.ancestors;
      LcpIsLongest(so_far, last.ancestors, p);
    }
  }

  lemma {:induction false} SamePrefix<T>(u: seq<T>, v: seq<T>)
    requires u <= v && v <= u
    ensures u == v
  {
    assert |u| == |v|;
    assert v == v[..|u|];
  }

  lemma {:induction false} EmptyTogether<T>(x: seq<T>, y: seq<T>)
    requires forall e :: e in x <==> e in y
    ensures x == [] <==> y == []
  {
    if x != [] {
      assert x[0] in y;
    }
    if y != [] {
      assert y[0] in x;
    }
  }

  /** The order of the candidates is immaterial. */
  lemma {:induction false} CommonIsOrderFree<H, M>(x: seq<Endpoint<H, M>>, y: seq<Endpoint<H, M>>)
    requires forall e :: e in x <==> e in y
    ensures Common(x) == Common(y)
  {
    EmptyTogether(x, y);
    if x != [] {
      CommonIsLongest(x);
      CommonIsLongest(y);
      var u, v := Common(x).value, Common(y).value;
      assert IsCommon(u, y) && IsCommon(v, x);
      SamePrefix(u, v);
    }
  }

  // ---- the inferred scope -------------------------------------------------------------

  /** The prefix of the scope starts with the path. */
  predicate Covers<H, M>(f: Forest<ScopeData<H, M>>, id: ScopeId, path: string)
    requires f.Has(id)
  {
    path <= f.At(id).data.prefix.AsStr()
  }

  /** The first scope of a chain that covers the path, or the length of the chain. */
  function FirstCovering<H, M>(f: Forest<ScopeData<H, M>>, chain: seq<ScopeId>, path: string): (k: nat)
    requires forall x | x in chain :: f.Has(x)
    ensures k <= |chain|
    ensures k < |chain| ==> Covers(f, chain[k], path)
    ensures forall j | 0 <= j < k :: !Covers(f, chain[j], path)
  {
    if chain == [] || Covers(f, chain[0], path) then 0
    else 1 + FirstCovering(f, chain[1..], path)
  }

  function Infer<H, M>(f: Forest<ScopeData<H, M>>, path: string, endpoints: seq<Endpoint<H, M>>): ScopeId
    requires Common(endpoints).Some? ==> forall x | x in Common(endpoints).value :: f.Has(x)
  {
    match Common(endpoints)
    case None => ScopeId.Root
    case Some(chain) =>
      var k := FirstCovering(f, chain, path);
      if k < |chain| then chain[k]
      else if chain != [] then chain[|chain| - 1]
      else ScopeId.Root
  }

  lemma {:induction false} CommonIsKnown<H, M>(f: Forest<ScopeData<H, M>>, endpoints: seq<Endpoint<H, M>>)
    requires WellRooted(f) && forall e | e in endpoints :: Placed(f, e)
    ensures Common(endpoints).Some? ==> forall x | x in Common(endpoints).value :: f.Has(x)
    ensures endpoints != [] ==> Common(endpoints).Some? && Common(endpoints).value != []
  {
    if endpoints != [] {
      CommonIsLongest(endpoints);
      var e := endpoints[0];
      assert e in endpoints && OnRootPath(f, e.scope);
      forall d | d in endpoints ensures [ScopeId.Root] <= d.ancestors {
        assert OnRootPath(f, d.scope);
      }
      assert IsCommon([ScopeId.Root], endpoints);
    }
  }

  method InferScope<H, M>(scopes: Scopes<ScopeData<H, M>>, path: string, endpoints: seq<Endpoint<H, M>>)
    returns (id: ScopeId)
    requires WellRooted(scopes.Value()) && forall e | e in endpoints :: Placed(scopes.Value(), e)
    ensures Common(endpoints).Some? ==> forall x | x in Common(endpoints).value :: scopes.Value().Has(x)
    ensures id == Infer(scopes.Value(), path, endpoints)
  {
    CommonIsKnown(scopes.Value(), endpoints);
    var ancestors: Option<seq<ScopeId>> := None;
    var i := 0;
    while i < |endpoints|
      invariant i <= |endpoints| && ancestors == Common(endpoints[..i])
    {
      assert endpoints[..i + 1][..i] == endpoints[..i];
      if ancestors == None {
        ancestors := Some(endpoints[i].ancestors);
      }
      var n := Lcp(ancestors.value, endpoints[i].ancestors);
      ancestors := Some(ancestors.value[..n]);
      i := i + 1;
    }
    assert endpoints[..i] == endpoints;
    if ancestors == None {
      return ScopeId.Root;
    }
    var chain := ancestors.value;
    var k := FindCovering(scopes, chain, path);
    id := if k < |chain| then chain[k] else if chain != [] then chain[|chain| - 1] else ScopeId.Root;
  }

  method FindCovering<H, M>(scopes: Scopes<ScopeData<H, M>>, chain: seq<ScopeId>, path: string) returns (k: nat)
    requires forall x | x in chain :: scopes.Value().Has(x)
    ensures k == FirstCovering(scopes.Value(), chain, path)
  {
    k := 0;
    assert chain[0..] == chain;
    while k < |chain|
      invariant k <= |chain|
      invariant FirstCovering(scopes.Value(), chain, path) == k + FirstCovering(scopes.Value(), chain[k..], path)
    {
      assert chain[k..][0] == chain[k] && chain[k..][1..] == chain[k + 1..];
      var scope := scopes.Get(chain[k]);
      if path <= scope.data.prefix.AsStr() {
        return;
      }
      k := k + 1;
    }
  }

  /** Along a chain that begins a known chain, every scope has the chain up to
      it as its own, and those that cover a path form a suffix. */
  lemma {:induction false} CoveringIsSuffix<H, M>(f: Forest<ScopeData<H, M>>, id: ScopeId, chain: seq<ScopeId>,
                                                  path: string)
    requires WellRooted(f) && PrefixesGrow(f) && f.Has(id) && chain <= f.At(id).Chain()
    ensures forall j | 0 <= j < |chain| :: f.Has(chain[j]) && f.At(chain[j]).Chain() == chain[..j + 1]
    ensures forall i, j | 0 <= i < j < |chain| && Covers(f, chain[i], path) :: Covers(f, chain[j], path)
  {
    var whole := f.At(id).Chain();
    assert OnRootPath(f, id);
    forall j | 0 <= j < |chain| ensures f.Has(chain[j]) && f.At(chain[j]).Chain() == chain[..j + 1] {
      assert chain[j] == whole[j] && chain[..j + 1] == whole[..j + 1];
    }
    forall i, j | 0 <= i < j < |chain| && Covers(f, chain[i], path) ensures Covers(f, chain[j], path) {
      assert chain[..j + 1][i] == chain[i];
      assert chain[i] in f.At(chain[j]).Chain();
    }
  }

  /** The inferred scope: along the candidates' longest common chain, the scopes
      whose prefix extends the path form a suffix; it is the shallowest of
      them, or the deepest common scope if there is none. */
  lemma {:induction false} InferExactly<H, M>(f: Forest<ScopeData<H, M>>, path: string, endpoints: seq<Endpoint<H, M>>)
    returns (chain: seq<ScopeId>, k: nat)
    requires WellRooted(f) && PrefixesGrow(f) && endpoints != [] && forall e | e in endpoints :: Placed(f, e)
    ensures Common(endpoints) == Some(chain) && k < |chain|
    ensures forall x | x in chain :: f.Has(x)
    ensures Infer(f, path, endpoints) == chain[k] && f.At(chain[k]).Chain() == chain[..k + 1]
    ensures forall i, j | 0 <= i < j < |chain| && Covers(f, chain[i], path) :: Covers(f, chain[j], path)
    ensures forall j | 0 <= j < k :: !Covers(f, chain[j], path)
    ensures Covers(f, chain[k], path) || k == |chain| - 1
  {
    CommonIsKnown(f, endpoints);
    CommonIsLongest(endpoints);
    var e := endpoints[0];
    chain := Common(endpoints).value;
    assert e in endpoints && Placed(f, e) && chain <= e.ancestors;
    CoveringIsSuffix(f, e.scope, chain, path);
    k := Pick(f, chain, path);
    InferPicks(f, path, endpoints, chain);
  }

  /** The first covering scope of a chain, or its last scope. */
  function Pick<H, M>(f: Forest<ScopeData<H, M>>, chain: seq<ScopeId>, path: string): (k: nat)
    requires chain != [] && forall x | x in chain :: f.Has(x)
    ensures k < |chain| && (Covers(f, chain[k], path) || k == |chain| - 1)
    ensures forall j | 0 <= j < k :: !Covers(f, chain[j], path)
  {
    var k := FirstCovering(f, chain, path);
    if k < |chain| then k else k - 1
  }

  lemma {:induction false} InferPicks<H, M>(f: Forest<ScopeData<H, M>>, path: string, endpoints: seq<Endpoint<H, M>>,
                                            chain: seq<ScopeId>)
    requires Common(endpoints) == Some(chain) && chain != [] && forall x | x in chain :: f.Has(x)
    ensures Infer(f, path, endpoints) == chain[Pick(f, chain, path)]
  {
  }

  // ---- default handlers -----------------------------------------------------------------

  /** The nearest default handler among scopes, looked up from the last to the first. */
  function Nearest<H, M>(f: Forest<ScopeData<H, M>>, chain: seq<ScopeId>): Option<Handler<H, M>>
    requires forall x | x in chain :: f.Has(x)
  {
    if chain == [] then None
    else
      OrElse(f.At(chain[|chain| - 1]).data.defaultHandler, Nearest(f, chain[..|chain| - 1]))
  }

  function FindDefault<H, M>(f: Forest<ScopeData<H, M>>, start: ScopeId): Option<Handler<H, M>>
    requires f.Has(start) && forall x | x in f.At(start).ancestors :: f.Has(x)
  {
    match f.At(start).data.defaultHandler
    case Some(h) => Some(h)
    case None => Nearest(f, f.At(start).ancestors)
  }

  ghost predicate IsDeepest<H, M>(f: Forest<ScopeData<H, M>>, chain: seq<ScopeId>, r: Option<Handler<H, M>>)
    requires forall x | x in chain :: f.Has(x)
  {
    match r
    case None => forall k | 0 <= k < |chain| :: f.At(chain[k]).data.defaultHandler.None?
    case Some(h) => exists k | 0 <= k < |chain| :: DeepestAt(f, chain, k, h)
  }

  /** Scope `k` of the chain has the handler, and no deeper one has any. */
  ghost predicate DeepestAt<H, M>(f: Forest<ScopeData<H, M>>, chain: seq<ScopeId>, k: nat, h: Handler<H, M>)
    requires k < |chain| && forall x | x in chain :: f.Has(x)
  {
    && f.At(chain[k]).data.defaultHandler == Some(h)
    && forall j | k < j < |chain| :: f.At(chain[j]).data.defaultHandler.None?
  }

  lemma {:induction false} NearestIsDeepest<H, M>(f: Forest<ScopeData<H, M>>, chain: seq<ScopeId>)
    requires forall x | x in chain :: f.Has(x)
    ensures IsDeepest(f, chain, Nearest(f, chain))
    decreases |chain|
  {
    if chain != [] {
      NearestIsDeepest(f, chain[..|chain| - 1]);
      DeepestPush(f, chain, Nearest(f, chain[..|chain| - 1]));
    }
  }

  lemma {:induction false} DeepestPush<H, M>(f: Forest<ScopeData<H, M>>, chain: seq<ScopeId>, r: Option<Handler<H, M>>)
    requires chain != [] && (forall x | x in chain :: f.Has(x)) && IsDeepest(f, chain[..|chain| - 1], r)
    ensures IsDeepest(f, chain, OrElse(f.At(chain[|chain| - 1]).data.defaultHandler, r))
  {
    var front, last := chain[..|chain| - 1], f.At(chain[|chain| - 1]).data.defaultHandler;
    assert forall k | 0 <= k < |front| :: chain[k] == front[k];
    if last.Some? {
      assert DeepestAt(f, chain, |chain| - 1, last.value);
    } else if r.Some? {
      var k :| 0 <= k < |front| && DeepestAt(f, front, k, r.value);
      assert DeepestAt(f, chain, k, r.value);
    }
  }

  /** The default handler found from a scope is that of the deepest scope on
      its root path that has one. */
  lemma {:induction false} DefaultIsDeepest<H, M>(f: Forest<ScopeData<H, M>>, start: ScopeId)
    requires WellRooted(f) && f.Has(start)
    ensures forall x | x in f.At(start).Chain() :: f.Has(x)
    ensures IsDeepest(f, f.At(start).Chain(), FindDefault(f, start))
  {
    var chain := f.At(start).Chain();
    assert OnRootPath(f, start);
    assert chain[..|chain| - 1] == f.At(start).ancestors && chain[|chain| - 1] == start;
    NearestIsDeepest(f, chain);
  }
}
