/** What one insertion does to a valid tree: it is refused exactly on a
    conflict, and otherwise it adds one word to the tree's meaning. */
module Insertion {
  import opened Options
  import opened Patterns
  import opened Trie

  // ---- reading a tree ---------------------------------------------------

  lemma {:induction false} PickFinds(children: seq<Tree>, j: nat, x: Token)
    requires Siblings(children)
    requires j < |children| && children[j].HeadIs(x)
    ensures Pick(children, x) == j
  {
    var k := Pick(children, x);
    assert k <= j;
    assert children[k].HeadIs(x);
  }

  /** Below a child, a tree means what the child means. */
  lemma {:induction false} LookupBelow(n: Tree, j: nat, v: Word)
    requires Siblings(n.children)
    requires j < |n.children| && v != [] && n.children[j].HeadIs(v[0])
    ensures Lookup(n, n.kind.Label() + v) == Lookup(n.children[j], v)
  {
    var w := n.kind.Label() + v;
    assert w[|n.kind.Label()|..] == v;
    PickFinds(n.children, j, v[0]);
  }

  lemma {:induction false} LookupHere(n: Tree)
    ensures Lookup(n, n.kind.Label()) == n.leaf
  {
    var w := n.kind.Label();
    assert w[|w|..] == [];
  }

  /** Every stored word of a node is its label, or continues into one of its children. */
  lemma {:induction false} LookupSplits(n: Tree, w: Word) returns (j: nat, v: Word)
    requires Lookup(n, w).Some?
    ensures w == n.kind.Label() + v
    ensures v == [] ==> Lookup(n, w) == n.leaf
    ensures v != [] ==> j < |n.children| && n.children[j].HeadIs(v[0]) && Lookup(n.children[j], v) == Lookup(n, w)
  {
    v := w[|n.kind.Label()|..];
    assert w == n.kind.Label() + v;
    j := if v == [] then 0 else Pick(n.children, v[0]);
  }

  /** No node is empty: some route is stored at or below it. */
  lemma {:induction false} SomeWord(n: Tree) returns (w: Word)
    requires WellShaped(n)
    ensures Lookup(n, w).Some?
    decreases n
  {
    if n.leaf.Some? {
      w := n.kind.Label();
      LookupHere(n);
    } else {
      var v := SomeWord(n.children[0]);
      LookupBelow(n, 0, v);
      w := n.kind.Label() + v;
    }
  }

  /** The indices of a node are those of the routes stored at or below it. */
  lemma {:induction false} StoredIsIndexed(n: Tree, w: Word)
    requires Lookup(n, w).Some?
    ensures Lookup(n, w).value in Indices(n)
    decreases n
  {
    var j, v := LookupSplits(n, w);
    if v != [] {
      StoredIsIndexed(n.children[j], v);
    }
  }

  lemma {:induction false} IndexedIsStored(n: Tree, i: nat) returns (w: Word)
    requires WellShaped(n) && i in Indices(n)
    ensures Lookup(n, w) == Some(i)
    decreases n
  {
    if n.leaf == Some(i) {
      w := n.kind.Label();
      LookupHere(n);
    } else {
      var j :| 0 <= j < |n.children| && i in Indices(n.children[j]);
      var v := IndexedIsStored(n.children[j], i);
      LookupBelow(n, j, v);
      w := n.kind.Label() + v;
    }
  }

  // ---- fresh branches ---------------------------------------------------

  lemma {:induction false} WellFormedRest(w: Word, k: nat)
    requires WellFormed(w) && k <= |w|
    ensures WellFormed(w[k..])
  {
    var rest := w[k..];
    assert forall i | 0 <= i < |rest| :: rest[i] == w[k + i];
  }

  lemma {:induction false} GraftLookup(w: Word, i: nat, v: Word)
    requires w != []
    ensures Lookup(Graft(w, i), v) == if v == w then Some(i) else None
    decreases |w|
  {
    var (kind, k) := FirstKind(w);
    var t := Graft(w, i);
    assert w == w[..k] + w[k..];
    if w[..k] <= v {
      var rest := v[k..];
      assert v == w[..k] + rest;
      if k < |w| {
        GraftLookup(w[k..], i, rest);
        GraftHead(w[k..], i);
        if rest != [] && rest[0] == w[k] {
          LookupBelow(t, 0, rest);
        }
      }
    }
  }

  lemma {:induction false} GraftHead(w: Word, i: nat)
    requires w != []
    ensures Graft(w, i).HeadIs(w[0])
  {
    var (kind, k) := FirstKind(w);
    assert w[..k][0] == w[0];
  }

  lemma {:induction false} GraftShaped(w: Word, i: nat)
    requires w != [] && WellFormed(w)
    ensures WellShaped(Graft(w, i))
    decreases |w|
  {
    var (kind, k) := FirstKind(w);
    var t := Graft(w, i);
    assert forall j | 0 <= j < k :: w[..k][j] == w[j];
    if k < |w| {
      var rest := w[k..];
      WellFormedRest(w, k);
      GraftShaped(rest, i);
      GraftHead(rest, i);
      assert w[k] == rest[0];
      assert t.children == [Graft(rest, i)];
    }
  }

  // ---- one insertion ------------------------------------------------------

  /** A well-formed word that may be inserted at a node: it starts like the
      node's label and agrees in wildcard kinds with every stored word. */
  ghost predicate Fits(n: Tree, w: Word) {
    && WellShaped(n) && WellFormed(w) && w != [] && n.HeadIs(w[0])
    && forall u :: Lookup(n, u).Some? ==> SameKinds(w, u)
  }

  lemma {:induction false} FitsBelow(n: Tree, w: Word, j: nat)
    requires Fits(n, w) && n.kind.Label() < w
    requires j < |n.children| && n.children[j].HeadIs(w[|n.kind.Label()|])
    ensures Fits(n.children[j], w[|n.kind.Label()|..])
  {
    var rest := w[|n.kind.Label()|..];
    assert w == n.kind.Label() + rest;
    WellFormedRest(w, |n.kind.Label()|);
    forall u | Lookup(n.children[j], u).Some? ensures SameKinds(rest, u) {
      LookupBelow(n, j, u);
      ConflictUnderPrefix(n.kind.Label(), rest, u);
    }
  }

  /** A refused or accepted scan in a valid child list. */
  lemma {:induction false} ScanFinds(children: seq<Tree>, x: Token)
    requires Siblings(children)
    ensures var r := Scan(children, x);
      && (r.Blocked? <==> children != [] && !children[0].kind.Static?)
      && (r.Absent? ==> forall i | 0 <= i < |children| :: children[i].kind.Static? && !children[i].HeadIs(x))
    decreases |children|
  {
    if children != [] && children[0].kind.Static? && !children[0].HeadIs(x) {
      var tail := children[1..];
      assert forall i | 0 <= i < |tail| :: tail[i] == children[i + 1];
      ScanFinds(tail, x);
      assert forall i | 1 <= i < |children| :: children[i] == tail[i - 1];
    }
  }

  /** A wildcard that meets a wildcard child meets one of its own kind. */
  lemma {:induction false} WildcardBelow(n: Tree, w: Word)
    requires Fits(n, w) && n.kind.Label() < w && !w[|n.kind.Label()|].Lit?
    requires n.children != [] && !n.children[0].kind.Static?
    ensures n.children[0].HeadIs(w[|n.kind.Label()|])
  {
    var rest := w[|n.kind.Label()|..];
    assert w == n.kind.Label() + rest;
    var u := SomeWord(n.children[0]);
    LookupBelow(n, 0, u);
    ConflictUnderPrefix(n.kind.Label(), rest, u);
  }

  /** What each step means for a word that fits. */
  lemma {:induction false} StepFits(n: Tree, w: Word)
    requires Fits(n, w)
    ensures var name := n.kind.Label();
      match Plan(n, w)
      case Cut(k) =>
        && !(name <= w) && 0 < k && w[..k] == name[..k]
        && (k < |w| ==> w[k].Lit? && w[k] != name[k])
      case Settle => name == w && n.leaf.None? && !HasCatchAll(n.children)
      case Sprout => name < w && CanSprout(n, w[|name|])
      case Enter(j) => name < w && n.children[j].HeadIs(w[|name|]) && Fits(n.children[j], w[|name|..])
      case Refuse => name <= w || Conflict(w, name)
  {
    var name := n.kind.Label();
    if !n.kind.Static? {
      assert w[..1] == [w[0]];
    }
    var k := if n.kind.Static? then Lcp(w, name) else 1;
    assert k > 0;
    if k < |name| {
      assert w == w[..k] + w[k..] && name == w[..k] + name[k..];
      ConflictUnderPrefix(w[..k], w[k..], name[k..]);
    } else {
      assert w[..|name|] == name;
      if name < w {
        ScanFinds(n.children, w[|name|]);
        if n.children != [] && !w[|name|].Lit? && !n.children[0].kind.Static? {
          WildcardBelow(n, w);
        }
        if Plan(n, w).Enter? {
          FitsBelow(n, w, Plan(n, w).j);
        }
      }
    }
  }

  /** No child starts with `x`, and a child that does may be pushed. */
  ghost predicate CanSprout(n: Tree, x: Token) {
    if n.children == [] then x != Star
    else x.Lit? && forall j | 0 <= j < |n.children| :: n.children[j].kind.Static? && !n.children[j].HeadIs(x)
  }

  lemma {:induction false} AddKeepsHead(n: Tree, w: Word, i: nat)
    requires Fits(n, w) && Add(n, w, i).Some?
    ensures Add(n, w, i).value.HeadIs(w[0])
    ensures Add(n, w, i).value.kind.Static? == n.kind.Static?
    ensures !n.kind.Static? ==> Add(n, w, i).value.kind == n.kind
  {
    StepFits(n, w);
  }

  /** Replacing a child by one with the same first token moves no search. */
  lemma {:induction false} PickAfterUpdate(children: seq<Tree>, j: nat, c: Tree, y: Token)
    requires j < |children|
    requires forall x :: c.HeadIs(x) <==> children[j].HeadIs(x)
    ensures Pick(children[j := c], y) == Pick(children, y)
    decreases |children|
  {
    if j == 0 {
      assert children[j := c][1..] == children[1..];
    } else {
      assert children[j := c][1..] == children[1..][j - 1 := c];
      PickAfterUpdate(children[1..], j - 1, c, y);
    }
  }

  lemma {:induction false} PickAfterPush(children: seq<Tree>, c: Tree, y: Token)
    ensures Pick(children + [c], y) ==
            if Pick(children, y) < |children| then Pick(children, y)
            else if c.HeadIs(y) then |children| else |children| + 1
    decreases |children|
  {
    if children != [] {
      assert (children + [c])[1..] == children[1..] + [c];
      PickAfterPush(children[1..], c, y);
    }
  }

  /** Cutting a static label in two changes no meaning. */
  lemma {:induction false} CutLookup(n: Tree, k: nat, v: Word)
    requires n.kind.Static? && k <= |n.kind.s| && n.kind.Label()[..k] <= v
    ensures Lookup(n.(kind := Static(n.kind.s[k..])), v[k..]) == Lookup(n, v)
  {
    var s := n.kind.s;
    var x := v[k..];
    assert Lits(s[k..]) == Lits(s)[k..];
    assert v == Lits(s)[..k] + x;
    if Lits(s[k..]) <= x {
      assert v == Lits(s) + x[|s| - k..];
    }
  }

  /** The meaning of a node whose label an insertion cut in two. */
  lemma {:induction false} SplitLookup(n: Tree, w: Word, i: nat, v: Word)
    requires Fits(n, w) && Plan(n, w).Cut?
    ensures Lookup(Add(n, w, i).value, v) == if v == w then Some(i) else Lookup(n, v)
  {
    StepFits(n, w);
    CutMeaning(n, w, i, v, Plan(n, w).k, Add(n, w, i).value);
  }

  lemma {:induction false} CutMeaning(n: Tree, w: Word, i: nat, v: Word, k: nat, t: Tree)
    requires n.kind.Static? && k < |n.kind.s| && k <= |w| && w[..k] == n.kind.Label()[..k]
    requires k < |w| ==> w[k] != n.kind.Label()[k]
    requires t.kind == Static(n.kind.s[..k]) && t.leaf == if k == |w| then Some(i) else None
    requires var lower := n.(kind := Static(n.kind.s[k..]));
      t.children == if k == |w| then [lower] else [lower, Graft(w[k..], i)]
    ensures Lookup(t, v) == if v == w then Some(i) else Lookup(n, v)
  {
    var s := n.kind.s;
    assert Lits(s[..k]) == Lits(s)[..k] == w[..k];
    if w[..k] <= v {
      SplitBelow(n.(kind := Static(s[k..])), t, w[k..], i, v[k..]);
      CutLookup(n, k, v);
      assert v == w[..k] + v[k..] && w == w[..k] + w[k..];
    } else {
      assert w[..k] <= Lits(s);
    }
  }

  lemma {:induction false} SplitBelow(lower: Tree, t: Tree, rest: Word, i: nat, x: Word)
    requires lower.kind.Static? && lower.kind.s != ""
    requires if rest == [] then t.leaf == Some(i) && t.children == [lower]
             else t.leaf == None && t.children == [lower, Graft(rest, i)] && rest[0] != Lit(lower.kind.s[0])
    ensures Below(t, x) == if x == rest then Some(i) else Lookup(lower, x)
  {
    if x != [] {
      if rest != [] {
        GraftLookup(rest, i, x);
        GraftHead(rest, i);
      }
      assert t.children[1..] == if rest == [] then [] else [Graft(rest, i)];
      assert t.children[0] == lower && (rest != [] ==> t.children[1] == Graft(rest, i));
      assert lower.HeadIs(x[0]) <==> x[0] == Lit(lower.kind.s[0]);
    }
  }

  /** The meaning of a node that kept its label, from the meaning below the label. */
  lemma {:induction false} LookupFromBelow(n: Tree, t: Tree, w: Word, i: nat, v: Word)
    requires t.kind == n.kind && n.kind.Label() <= w
    requires var name := n.kind.Label(); name <= v ==>
      Below(t, v[|name|..]) == if v[|name|..] == w[|name|..] then Some(i) else Below(n, v[|name|..])
    ensures Lookup(t, v) == if v == w then Some(i) else Lookup(n, v)
  {
    var name := n.kind.Label();
    if name <= v {
      assert w == name + w[|name|..] && v == name + v[|name|..];
    }
  }

  /** An accepted insertion adds one word to the meaning of the tree. */
  lemma {:induction false} AddLookup(n: Tree, w: Word, i: nat, v: Word)
    requires Fits(n, w) && Add(n, w, i).Some?
    ensures Lookup(Add(n, w, i).value, v) == if v == w then Some(i) else Lookup(n, v)
    decreases n, 1
  {
    var name := n.kind.Label();
    if Plan(n, w).Cut? {
      SplitLookup(n, w, i, v);
    } else {
      AddKeepsKind(n, w, i);
      if name <= v {
        AddBelow(n, w, i, v[|name|..]);
      }
      LookupFromBelow(n, Add(n, w, i).value, w, i, v);
    }
  }

  lemma {:induction false} AddKeepsKind(n: Tree, w: Word, i: nat)
    requires Fits(n, w) && !Plan(n, w).Cut? && Add(n, w, i).Some?
    ensures n.kind.Label() <= w && Add(n, w, i).value.kind == n.kind
  {
    StepFits(n, w);
  }

  lemma {:induction false} AddBelow(n: Tree, w: Word, i: nat, x: Word)
    requires Fits(n, w) && !Plan(n, w).Cut? && Add(n, w, i).Some?
    ensures n.kind.Label() <= w
    ensures Below(Add(n, w, i).value, x) == if x == w[|n.kind.Label()|..] then Some(i) else Below(n, x)
    decreases n, 0
  {
    StepFits(n, w);
    var rest := w[|n.kind.Label()|..];
    if x != [] {
      match Plan(n, w)
      case Sprout =>
        GraftLookup(rest, i, x);
        GraftHead(rest, i);
        PickAfterPush(n.children, Graft(rest, i), x[0]);
      case Enter(j) =>
        AddKeepsHead(n.children[j], rest, i);
        AddLookup(n.children[j], rest, i, x);
        PickAfterUpdate(n.children, j, Add(n.children[j], rest, i).value, x[0]);
        PickFinds(n.children, j, rest[0]);
      case _ =>
    }
  }

  // ---- exact acceptance ---------------------------------------------------

  /** A refused insertion can be blamed on a stored word. */
  lemma {:induction false} AddRefuses(n: Tree, w: Word, i: nat) returns (u: Word)
    requires Fits(n, w) && Add(n, w, i).None?
    ensures Lookup(n, u).Some? && Conflict(w, u)
    decreases n
  {
    StepFits(n, w);
    var name := n.kind.Label();
    if Plan(n, w).Enter? {
      var j, rest := Plan(n, w).j, w[|name|..];
      var v := AddRefuses(n.children[j], rest, i);
      LookupBelow(n, j, v);
      u := name + v;
      assert w == name + rest;
      ConflictUnderPrefix(name, rest, v);
    } else if name <= w {
      u := RefusedHere(n, w);
    } else {
      u := SomeWord(n);
      ConflictExtends(w, name, u);
    }
  }

  /** Why the walk stops at a node whose label it has consumed. */
  lemma {:induction false} RefuseCause(n: Tree, w: Word)
    requires Fits(n, w) && n.kind.Label() <= w && Plan(n, w).Refuse?
    ensures var k := |n.kind.Label()|;
      if k == |w| then n.leaf.Some? || HasCatchAll(n.children)
      else if n.children == [] then w[k] == Star
      else w[k].Lit? != n.children[0].kind.Static?
  {
    var k := |n.kind.Label()|;
    WellFormedRest(w, k);
    WellFormedGraftable(w[k..]);
    if k < |w| {
      ScanFinds(n.children, w[k]);
    }
  }

  lemma {:induction false} WellFormedGraftable(w: Word)
    requires WellFormed(w)
    ensures Graftable(w)
  {
  }

  lemma {:induction false} RefusedHere(n: Tree, w: Word) returns (u: Word)
    requires Fits(n, w) && n.kind.Label() <= w && Plan(n, w).Refuse?
    ensures Lookup(n, u).Some? && Conflict(w, u)
  {
    var name := n.kind.Label();
    assert w == name + w[|name|..];
    RefuseCause(n, w);
    var v := BlockingWord(n, w);
    u := name + v;
    ConflictUnderPrefix(name, w[|name|..], v);
  }

  lemma {:induction false} BlockingWord(n: Tree, w: Word) returns (v: Word)
    requires WellShaped(n) && WellFormed(w) && n.kind.Label() <= w
    requires var k := |n.kind.Label()|;
      if k == |w| then n.leaf.Some? || HasCatchAll(n.children)
      else if n.children == [] then w[k] == Star
      else w[k].Lit? != n.children[0].kind.Static?
    ensures Lookup(n, n.kind.Label() + v).Some? && Conflict(w[|n.kind.Label()|..], v)
  {
    var name := n.kind.Label();
    var rest := w[|name|..];
    LookupHere(n);
    assert name + [] == name;
    if rest == [] && n.leaf.None? {
      var j :| 0 <= j < |n.children| && n.children[j].kind.CatchAll?;
      v := [Star];
      assert WellShaped(n.children[j]);
      LookupHere(n.children[j]);
      LookupBelow(n, j, v);
    } else if rest == [] || n.children == [] {
      v := [];
      assert rest != [] ==> rest == [Star];
    } else {
      v := SomeWord(n.children[0]);
      LookupBelow(n, 0, v);
    }
  }

  /** A conflict with a word that is not a prefix of `w` survives extension. */
  lemma {:induction false} ConflictExtends(w: Word, name: Word, u: Word)
    requires Conflict(w, name) && !(name <= w) && name <= u && AllLits(name)
    ensures Conflict(w, u)
  {
    assert name[0].Lit? && u[0] == name[0];
    if w != [] && w[0] == name[0] {
      ConflictExtends(w[1..], name[1..], u[1..]);
    }
  }

  /** An accepted insertion conflicts with no stored word. */
  lemma {:induction false} AddAccepts(n: Tree, w: Word, i: nat, u: Word)
    requires Fits(n, w) && Add(n, w, i).Some? && Lookup(n, u).Some?
    ensures !Conflict(w, u)
    decreases n
  {
    StepFits(n, w);
    var name := n.kind.Label();
    if Plan(n, w).Cut? {
      CutApart(w, name, u, Plan(n, w).k);
    } else {
      var rest := w[|name|..];
      var j, v := LookupSplits(n, u);
      assert w == name + rest;
      ConflictUnderPrefix(name, rest, v);
      if Plan(n, w).Enter? {
        if v != [] && v[0] == rest[0] {
          PickFinds(n.children, j, rest[0]);
          PickFinds(n.children, Plan(n, w).j, rest[0]);
          AddAccepts(n.children[j], rest, i, v);
        } else {
          EnterApart(n, w, j, v);
        }
      }
    }
  }

  /** Words that part from `w` inside the label that `w` cuts do not conflict with it. */
  lemma {:induction false} CutApart(w: Word, name: Word, u: Word, k: nat)
    requires name <= u && k < |name| && k <= |w| && w[..k] == name[..k] && AllLits(name)
    requires k < |w| ==> w[k].Lit? && w[k] != name[k]
    ensures !Conflict(w, u)
  {
    assert u[..k] == name[..k] && u[k] == name[k];
    assert w == w[..k] + w[k..] && u == w[..k] + u[k..];
    ConflictUnderPrefix(w[..k], w[k..], u[k..]);
  }

  /** Words of other children, or of the node itself, never conflict with a word that enters a child. */
  lemma {:induction false} EnterApart(n: Tree, w: Word, j: nat, v: Word)
    requires Fits(n, w) && Plan(n, w).Enter?
    requires v == [] ==> n.leaf.Some?
    requires v != [] ==> j < |n.children| && n.children[j].HeadIs(v[0]) && v[0] != w[|n.kind.Label()|]
    ensures !Conflict(w[|n.kind.Label()|..], v)
  {
    StepFits(n, w);
    assert w[|n.kind.Label()|..][0] == w[|n.kind.Label()|];
  }

  /** Insertion is refused exactly when the word conflicts with a stored one. */
  lemma {:induction false} AddAcceptsExactly(n: Tree, w: Word, i: nat)
    requires Fits(n, w)
    ensures Add(n, w, i).Some? <==> forall u :: Lookup(n, u).Some? ==> !Conflict(w, u)
  {
    if Add(n, w, i).None? {
      var u := AddRefuses(n, w, i);
    } else {
      forall u | Lookup(n, u).Some? ensures !Conflict(w, u) {
        AddAccepts(n, w, i, u);
      }
    }
  }

  // ---- the invariant --------------------------------------------------------

  lemma {:induction false} SplitShaped(n: Tree, w: Word, i: nat, k: nat)
    requires n.kind.Static? && WellShaped(n) && WellFormed(w)
    requires 0 < k < |n.kind.s| && k <= |w| && (k < |w| ==> w[k].Lit? && w[k] != Lit(n.kind.s[k]))
    ensures var lower := n.(kind := Static(n.kind.s[k..]));
      && WellShaped(lower)
      && forall t: Tree ::
        (&& t.kind == Static(n.kind.s[..k])
         && (if k == |w| then t.leaf == Some(i) && t.children == [lower]
             else t.leaf == None && t.children == [lower, Graft(w[k..], i)])) ==> WellShaped(t)
  {
    var lower := n.(kind := Static(n.kind.s[k..]));
    assert NoMarker(n.kind.s[k..]) && NoMarker(n.kind.s[..k]);
    assert Shaped(lower);
    if k < |w| {
      WellFormedRest(w, k);
      GraftShaped(w[k..], i);
      GraftHead(w[k..], i);
    }
  }

  lemma {:induction false} PushShaped(n: Tree, w: Word, i: nat)
    requires Fits(n, w) && n.kind.Label() < w
    requires CanSprout(n, w[|n.kind.Label()|])
    ensures var g := Graft(w[|n.kind.Label()|..], i);
      forall t: Tree | t.kind == n.kind && t.leaf == n.leaf && t.children == n.children + [g] :: WellShaped(t)
  {
    var rest := w[|n.kind.Label()|..];
    var g := Graft(rest, i);
    WellFormedRest(w, |n.kind.Label()|);
    GraftShaped(rest, i);
    GraftHead(rest, i);
    assert !n.kind.Static? ==> w[0] == n.kind.Label()[0];
    var cs := n.children + [g];
    assert forall j | 0 <= j < |cs| :: WellShaped(cs[j]);
    assert Siblings(cs);
  }

  /** An accepted insertion keeps the shape of the trie. */
  lemma {:induction false} AddShaped(n: Tree, w: Word, i: nat)
    requires Fits(n, w) && Add(n, w, i).Some?
    ensures WellShaped(Add(n, w, i).value)
    decreases n
  {
    StepFits(n, w);
    match Plan(n, w)
    case Cut(k) => SplitShaped(n, w, i, k);
    case Sprout => PushShaped(n, w, i);
    case Enter(j) =>
      var rest := w[|n.kind.Label()|..];
      AddShaped(n.children[j], rest, i);
      AddKeepsHead(n.children[j], rest, i);
      UpdateShaped(n, j, Add(n.children[j], rest, i).value, WithCandidate(n.candidates, i));
    case _ =>
  }

  lemma {:induction false} UpdateShaped(n: Tree, j: nat, c: Tree, seen: seq<nat>)
    requires WellShaped(n) && j < |n.children| && WellShaped(c)
    requires c.kind.Label() != [] && c.kind.Label()[0] == n.children[j].kind.Label()[0]
    requires c.kind.Static? == n.children[j].kind.Static? && (!c.kind.Static? ==> c.kind == n.children[j].kind)
    ensures WellShaped(n.(candidates := seen, children := n.children[j := c]))
  {
    var t := n.(candidates := seen, children := n.children[j := c]);
    assert Siblings(t.children);
    assert HasCatchAll(t.children) ==> HasCatchAll(n.children);
  }

  lemma {:induction false} EqualWordsConflict(w: Word)
    ensures Conflict(w, w)
  {
    if w != [] {
      EqualWordsConflict(w[1..]);
    }
  }
}
