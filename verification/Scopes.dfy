/** The scope forest: scopes are only ever added, each under an existing one. */
module Scopes {
  import opened Options

  datatype ScopeId = Root | Index(i: nat) {
    /** Position in the order of creation. */
    function Rank(): nat {
      match this
      case Root => 0
      case Index(i) => i + 1
    }
  }

  datatype Scope<T> = Scope(id: ScopeId, ancestors: seq<ScopeId>, data: T) {
    /** The scopes from the root down to this one. */
    function Chain(): seq<ScopeId> {
      ancestors + [id]
    }
  }

  datatype Forest<T> = Forest(root: Scope<T>, nodes: seq<Scope<T>>) {
    predicate Has(id: ScopeId) {
      id.Index? ==> id.i < |nodes|
    }

    function At(id: ScopeId): Scope<T>
      requires Has(id)
    {
      match id
      case Root => root
      case Index(i) => nodes[i]
    }

    /** A new scope under `parent`, with the next free id. */
    function Grown(parent: ScopeId, data: T): Forest<T>
      requires Has(parent)
    {
      Forest(root, nodes + [Scope(Index(|nodes|), At(parent).Chain(), data)])
    }

    function WithData(id: ScopeId, data: T): Forest<T>
      requires Has(id)
    {
      match id
      case Root => Forest(root.(data := data), nodes)
      case Index(i) => Forest(root, nodes[i := nodes[i].(data := data)])
    }
  }

  function NewForest<T>(data: T): Forest<T> {
    Forest(Scope(Root, [], data), [])
  }

  /** The chain of scope `id` is the path from the root to it: it starts at the
      root, ranks grow along it, and every scope on it has the chain up to
      that point as its own. */
  ghost predicate OnRootPath<T>(f: Forest<T>, id: ScopeId)
    requires f.Has(id)
  {
    var chain := f.At(id).Chain();
    && f.At(id).id == id && chain[0] == Root
    && (forall k | 0 <= k < |chain| :: f.Has(chain[k]) && f.At(chain[k]).Chain() == chain[..k + 1])
    && (forall j, k | 0 <= j < k < |chain| :: chain[j].Rank() < chain[k].Rank())
  }

  ghost predicate WellRooted<T>(f: Forest<T>) {
    forall id | f.Has(id) :: OnRootPath(f, id)
  }

  lemma {:induction false} NewIsRooted<T>(data: T)
    ensures WellRooted(NewForest(data))
  {
    var f := NewForest(data);
    assert f.root.Chain() == [Root];
  }

  lemma {:induction false} DataKeepsRooted<T>(f: Forest<T>, id: ScopeId, data: T)
    requires WellRooted(f) && f.Has(id)
    ensures WellRooted(f.WithData(id, data))
    ensures forall x | f.Has(x) :: f.WithData(id, data).Has(x) && f.WithData(id, data).At(x).Chain() == f.At(x).Chain()
  {
    var g := f.WithData(id, data);
    forall x | g.Has(x) ensures OnRootPath(g, x) {
      assert OnRootPath(f, x) && g.At(x).Chain() == f.At(x).Chain();
    }
  }

  lemma {:induction false} GrowthKeepsRooted<T>(f: Forest<T>, parent: ScopeId, data: T)
    requires WellRooted(f) && f.Has(parent)
    ensures WellRooted(f.Grown(parent, data))
    ensures forall x | f.Has(x) :: f.Grown(parent, data).Has(x) && f.Grown(parent, data).At(x) == f.At(x)
  {
    var g, id := f.Grown(parent, data), Index(|f.nodes|);
    forall x | g.Has(x) ensures OnRootPath(g, x) {
      if x == id {
        NewOnRootPath(f, parent, data);
      } else {
        assert OnRootPath(f, x);
      }
    }
  }

  lemma {:induction false} NewOnRootPath<T>(f: Forest<T>, parent: ScopeId, data: T)
    requires WellRooted(f) && f.Has(parent)
    ensures OnRootPath(f.Grown(parent, data), Index(|f.nodes|))
  {
    var g, id := f.Grown(parent, data), Index(|f.nodes|);
    var front := f.At(parent).Chain();
    var chain := front + [id];
    assert OnRootPath(f, parent) && g.At(id).Chain() == chain;
    forall k | 0 <= k < |chain| ensures g.Has(chain[k]) && g.At(chain[k]).Chain() == chain[..k + 1] {
      if k < |front| {
        assert g.At(chain[k]) == f.At(front[k]) && chain[..k + 1] == front[..k + 1];
      } else {
        assert chain[..k + 1] == chain;
      }
    }
    assert forall k | 0 <= k < |front| :: f.Has(front[k]) && front[k].Rank() < id.Rank();
  }

  // ---- the object -------------------------------------------------------------

  class Scopes<T> {
    var nodes: seq<Scope<T>>
    var root: Scope<T>

    ghost function Value(): Forest<T>
      reads this
    {
      Forest(root, nodes)
    }

    constructor (data: T)
      ensures Value() == NewForest(data)
    {
      root := Scope(Root, [], data);
      nodes := [];
    }

    function Get(id: ScopeId): (s: Scope<T>)
      requires Value().Has(id)
      reads this
      ensures s == Value().At(id)
    {
      match id
      case Root => root
      case Index(i) => nodes[i]
    }

    method AddNode(parent: ScopeId, data: T) returns (id: ScopeId)
      requires Value().Has(parent)
      modifies this
      ensures id == Index(|old(nodes)|)
      ensures Value() == old(Value()).Grown(parent, data)
      ensures Value().At(id) == Scope(id, old(Value()).At(parent).Chain(), data)
      ensures forall x | old(Value()).Has(x) :: Value().Has(x) && Value().At(x) == old(Value()).At(x)
    {
      id := Index(|nodes|);
      var above := Get(parent);
      var ancestors := above.ancestors;
      ancestors := ancestors + [above.id];
      nodes := nodes + [Scope(id, ancestors, data)];
    }

    method SetData(id: ScopeId, data: T)
      requires Value().Has(id)
      modifies this
      ensures Value() == old(Value()).WithData(id, data)
      ensures Value().Has(id) && Value().At(id) == old(Value()).At(id).(data := data)
      ensures forall x | old(Value()).Has(x) && x != id :: Value().Has(x) && Value().At(x) == old(Value()).At(x)
    {
      match id
      case Root => root := root.(data := data);
      case Index(i) => nodes := nodes[i := nodes[i].(data := data)];
    }
  }
}
