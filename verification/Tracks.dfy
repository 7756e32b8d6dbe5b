/** Where an inserted route really is: the labels on the way to its leaf. They
    spell the route's word except for the kinds of wildcards, which are those
    of the nodes that were there first. */
module Tracks {
  import opened Options
  import opened Patterns
  import opened Trie
  import opened Leaves
  import opened Insertion
  import opened Kinds
  import opened Bookkeeping

  /** The same literals and wildcards at the same places, whatever the kinds. */
  predicate SameSpots(u: Word, v: Word) {
    |u| == |v| && forall i | 0 <= i < |u| :: SameSpot(u[i], v[i])
  }

  predicate SameSpot(x: Token, y: Token) {
    x == y || (!x.Lit? && !y.Lit?)
  }

  /** The child that the insertion walk for `w` goes on to. */
  ghost function Way(n: Tree, w: Word): nat
    requires |n.kind.Label()| < |w|
  {
    var x := w[|n.kind.Label()|];
    if x.Lit? && Scan(n.children, x).At? then Scan(n.children, x).j else 0
  }

  /** The labels along the insertion walk for `w`. */
  ghost function Track(n: Tree, w: Word): (v: Word)
    ensures n.kind.Label() <= v
    decreases n
  {
    var name := n.kind.Label();
    if |w| <= |name| || Way(n, w) >= |n.children| then name
    else name + Track(n.children[Way(n, w)], w[|name|..])
  }

  /** The child that meets the rest of a word is the one the walk takes. */
  lemma {:induction false} MeetsOne(children: seq<Tree>, j: nat, m: nat, w: Word, v: Word)
    requires Siblings(children) && j < |children| && m < |children|
    requires Meets(children[j], w) && Meets(children[m], v) && SameSpot(w[0], v[0])
    ensures j == m
  {
    if !children[j].kind.Static? || !children[m].kind.Static? {
      assert |children| == 1;
    }
  }

  lemma {:induction false} TrackThrough(n: Tree, w: Word, j: nat)
    requires Siblings(n.children) && |n.kind.Label()| < |w| && j < |n.children|
    requires Meets(n.children[j], w[|n.kind.Label()|..])
    ensures Way(n, w) == j && Track(n, w) == n.kind.Label() + Track(n.children[j], w[|n.kind.Label()|..])
  {
    var k := |n.kind.Label()|;
    assert w[k..][0] == w[k];
    if w[k].Lit? {
      ScanIs(n.children, j, w[k]);
    } else {
      assert |n.children| == 1;
    }
  }

  lemma {:induction false} TakenBelow(n: Tree, w: Word, at: nat)
    requires Taken(n, w, at) && |n.kind.Label()| < |w|
    ensures Way(n, w) < |n.children| && Taken(n.children[Way(n, w)], w[|n.kind.Label()|..], at)
  {
  }

  lemma {:induction false} TrackLength(n: Tree, w: Word, at: nat)
    requires Taken(n, w, at)
    ensures |Track(n, w)| == |w|
    decreases n
  {
    var k := |n.kind.Label()|;
    if k < |w| {
      TrackLength(n.children[Way(n, w)], w[k..], at);
    }
  }

  lemma {:induction false} TakenIsStored(n: Tree, w: Word, i: nat)
    requires Tidy(n) && Meets(n, w) && Taken(n, w, i)
    ensures i in Stored(n)
    decreases n
  {
    if |n.kind.Label()| < |w| {
      var j := TakenChild(n, w, i);
      TakenIsStored(n.children[j], w[|n.kind.Label()|..], i);
      StoredAmong(n.children, i);
    }
  }

  lemma {:induction false} LookupIsStored(n: Tree, v: Word, i: nat)
    requires Lookup(n, v) == Some(i)
    ensures i in Stored(n)
  {
    StoredIsIndexed(n, v);
    StoredAreIndices(n, i);
  }

  lemma {:induction false} StoredPart(children: seq<Tree>, j: nat, i: nat)
    requires j < |children|
    ensures Stored(children[j])[i] <= StoredIn(children)[i]
    decreases |children|
  {
    if j > 0 {
      StoredPart(children[1..], j - 1, i);
    }
  }

  /** What two children store adds up. */
  lemma {:induction false} StoredParts(children: seq<Tree>, j: nat, m: nat, i: nat)
    requires j < m < |children|
    ensures Stored(children[j])[i] + Stored(children[m])[i] <= StoredIn(children)[i]
    decreases |children|
  {
    var rest := children[1..];
    assert StoredIn(children)[i] == Stored(children[0])[i] + StoredIn(rest)[i];
    assert rest[m - 1] == children[m];
    if j > 0 {
      assert rest[j - 1] == children[j];
      StoredParts(rest, j - 1, m - 1, i);
    } else {
      StoredPart(rest, m - 1, i);
    }
  }

  /** A route stored once is stored under one child only. */
  lemma {:induction false} StoredOnce(children: seq<Tree>, j: nat, m: nat, i: nat)
    requires j < |children| && m < |children| && StoredIn(children)[i] <= 1
    requires i in Stored(children[j]) && i in Stored(children[m])
    ensures j == m
  {
    if j != m {
      StoredParts(children, if j < m then j else m, if j < m then m else j, i);
    }
  }

  lemma {:induction false} SpotsOfConcat(n: Tree, x: Word, w: Word)
    requires Meets(n, w) && |n.kind.Label()| <= |w| && (n.kind.Static? ==> n.kind.Label() <= w)
    requires SameSpots(x, w[|n.kind.Label()|..])
    ensures SameSpots(n.kind.Label() + x, w)
  {
    var k, u := |n.kind.Label()|, n.kind.Label() + x;
    forall i | 0 <= i < |u| ensures SameSpot(u[i], w[i]) {
      if i >= k {
        assert u[i] == x[i - k] && w[i] == w[k..][i - k];
      }
    }
  }

  /** The track of a word finds the route, and has the word's spots. */
  lemma {:induction false} TrackFinds(n: Tree, w: Word, i: nat)
    requires Tidy(n) && Meets(n, w) && Taken(n, w, i)
    ensures Lookup(n, Track(n, w)) == Some(i) && SameSpots(Track(n, w), w)
    decreases n
  {
    var k := |n.kind.Label()|;
    if k < |w| {
      var j := TakenChild(n, w, i);
      var c, rest := n.children[j], w[k..];
      TrackThrough(n, w, j);
      TrackFinds(c, rest, i);
      var v := Track(c, rest);
      assert c.kind.Label() <= v && c.kind.Label() != [];
      LookupBelow(n, j, v);
      SpotsOfConcat(n, v, w);
    } else {
      LookupHere(n);
      SpotsOfConcat(n, [], w);
      assert n.kind.Label() + [] == n.kind.Label();
    }
  }

  /** Nothing else finds a route that is stored once. */
  lemma {:induction false} FoundAtTrack(n: Tree, v: Word, w: Word, i: nat)
    requires Tidy(n) && Meets(n, w) && Taken(n, w, i) && Lookup(n, v) == Some(i) && Stored(n)[i] == 1
    ensures v == Track(n, w)
    decreases n
  {
    var name := n.kind.Label();
    var j, x := LookupSplits(n, v);
    if x != [] {
      LookupIsStored(n.children[j], x, i);
      StoredPart(n.children, j, i);
    }
    if |name| < |w| {
      var m := TakenChild(n, w, i);
      var y := w[|name|..];
      TakenIsStored(n.children[m], y, i);
      StoredPart(n.children, m, i);
      if x != [] {
        StoredOnce(n.children, j, m, i);
        FoundAtTrack(n.children[m], x, y, i);
        TrackThrough(n, w, m);
      }
    }
  }

  // ---- tracks over insertions -----------------------------------------------------

  lemma {:induction false} TrackOfGraft(w: Word, i: nat)
    requires w != [] && MarkerFree(w)
    ensures Track(Graft(w, i), w) == w
    decreases |w|
  {
    GraftTidy(w, i);
    var (kind, k) := FirstKind(w);
    assert w == w[..k] + w[k..];
    if k < |w| {
      MarkerFreeRest(w, k);
      TrackOfGraft(w[k..], i);
      GraftTidy(w[k..], i);
      TrackThrough(Graft(w, i), w, 0);
    }
  }

  lemma {:induction false} DropTwice(w: Word, k: nat, m: nat)
    requires k <= m < |w|
    ensures w[k..][m - k..] == w[m..] && w[k..][m - k] == w[m]
  {
  }

  lemma {:induction false} AppendCut(u: Word, v: Word, k: nat)
    requires k <= |u|
    ensures (u + v)[k..] == u[k..] + v
  {
  }

  lemma {:induction false} LowerWay(n: Tree, w: Word, k: nat)
    requires n.kind.Static? && k < |n.kind.s| && |n.kind.s| < |w|
    ensures var lower := n.(kind := Static(n.kind.s[k..]));
      && lower.kind.Label() == n.kind.Label()[k..] && Way(lower, w[k..]) == Way(n, w)
      && w[k..][|lower.kind.Label()|..] == w[|n.kind.Label()|..]
  {
    CutLabel(n, k);
    DropTwice(w, k, |n.kind.s|);
  }

  lemma {:induction false} TrackOfLower(n: Tree, w: Word, k: nat)
    requires n.kind.Static? && k < |n.kind.s| && k <= |w|
    ensures Track(n.(kind := Static(n.kind.s[k..])), w[k..]) == Track(n, w)[k..]
  {
    if |n.kind.s| < |w| {
      LowerWay(n, w, k);
      if Way(n, w) < |n.children| {
        AppendCut(n.kind.Label(), Track(n.children[Way(n, w)], w[|n.kind.Label()|..]), k);
      }
    } else {
      CutLabel(n, k);
    }
  }

  lemma {:induction false} TrackAfterCut(n: Tree, w: Word, at: nat, k: nat, t: Tree)
    requires n.kind.Static? && 0 < k < |n.kind.s| && Taken(n, w, at) && Siblings(t.children) && MarkerFree(w)
    requires t.kind == Static(n.kind.s[..k]) && t.children != [] && t.children[0] == n.(kind := Static(n.kind.s[k..]))
    ensures Track(t, w) == Track(n, w)
  {
    CutLabel(n, k);
    MarkerFreeRest(w, k);
    TrackOfLower(n, w, k);
    assert w[k..][0] == n.kind.Label()[k..][0];
    TrackThrough(t, w, 0);
    CutSum(n.kind.Label(), Track(n, w), k);
  }

  lemma {:induction false} CutSum(name: Word, v: Word, k: nat)
    requires name <= v && k <= |name|
    ensures v == name[..k] + v[k..]
  {
  }

  lemma {:induction false} TrackAfterPush(n: Tree, w: Word, at: nat, t: Tree)
    requires Tidy(n) && Meets(n, w) && Taken(n, w, at) && Siblings(t.children)
    requires t.kind == n.kind && n.children <= t.children
    ensures Track(t, w) == Track(n, w)
  {
    if |n.kind.Label()| < |w| {
      var j := TakenChild(n, w, at);
      assert t.children[j] == n.children[j];
      TrackThrough(n, w, j);
      TrackThrough(t, w, j);
    }
  }

  /** Later insertions leave the track of an inserted word. */
  lemma {:induction false} TrackStays(n: Tree, w: Word, at: nat, v: Word, i: nat)
    requires Tidy(n) && Meets(n, v) && Add(n, v, i).Some? && Meets(n, w) && Taken(n, w, at)
    ensures Track(Add(n, v, i).value, w) == Track(n, w)
    decreases n
  {
    var t, name := Add(n, v, i).value, n.kind.Label();
    StepMeets(n, v);
    AddKeepsTidy(n, v, i);
    match Plan(n, v)
    case Cut(k) => TrackAfterCut(n, w, at, k, t);
    case Settle =>
    case Sprout => TrackAfterPush(n, w, at, t);
    case Enter(m) =>
      if |name| < |w| {
        var j := TakenChild(n, w, at);
        if j == m {
          TrackStays(n.children[j], w[|name|..], at, v[|name|..], i);
          AddKeepsTidy(n.children[j], v[|name|..], i);
        }
        TrackThrough(n, w, j);
        TrackThrough(t, w, j);
      }
    case Refuse =>
  }

  // ---- shared and new spots -----------------------------------------------------------

  /** The first `m + 1` tokens of the words have the same spots. */
  predicate Share(u: Word, v: Word, m: nat) {
    m < |u| && m < |v| && forall i | 0 <= i <= m :: SameSpot(u[i], v[i])
  }

  lemma {:induction false} ShareRest(u: Word, v: Word, m: nat, k: nat)
    requires Share(u, v, m) && k <= m
    ensures Share(u[k..], v[k..], m - k)
  {
    assert forall i | 0 <= i <= m - k :: u[k..][i] == u[k + i] && v[k..][i] == v[k + i];
  }

  /** Words that share their spots past the label go on into the same child. */
  lemma {:induction false} SharedChild(n: Tree, u: Word, i: nat, v: Word, j: nat, m: nat) returns (x: nat)
    requires Tidy(n) && Meets(n, u) && Taken(n, u, i) && Meets(n, v) && Taken(n, v, j)
    requires Share(u, v, m) && |n.kind.Label()| <= m
    ensures x < |n.children|
    ensures Meets(n.children[x], u[|n.kind.Label()|..]) && Meets(n.children[x], v[|n.kind.Label()|..])
    ensures Share(u[|n.kind.Label()|..], v[|n.kind.Label()|..], m - |n.kind.Label()|)
  {
    var k := |n.kind.Label()|;
    x := TakenChild(n, u, i);
    var y := TakenChild(n, v, j);
    ShareRest(u, v, m, k);
    assert u[k..][0] == u[k] && v[k..][0] == v[k];
    MeetsOne(n.children, x, y, u[k..], v[k..]);
  }

  /** Where two words share their spots, so do their tracks, kinds included. */
  lemma {:induction false} SharedTrack(n: Tree, u: Word, i: nat, v: Word, j: nat, m: nat)
    requires Tidy(n) && Meets(n, u) && Taken(n, u, i) && Meets(n, v) && Taken(n, v, j) && Share(u, v, m)
    ensures m < |Track(n, u)| && m < |Track(n, v)| && Track(n, u)[m] == Track(n, v)[m]
    decreases n
  {
    var k := |n.kind.Label()|;
    if m >= k {
      var x := SharedChild(n, u, i, v, j, m);
      TrackThrough(n, u, x);
      TakenBelow(n, u, i);
      TrackThrough(n, v, x);
      TakenBelow(n, v, j);
      SharedTrack(n.children[x], u[k..], i, v[k..], j, m - k);
      AppendAt(n.kind.Label(), Track(n.children[x], u[k..]), Track(n.children[x], v[k..]), m);
    }
  }

  lemma {:induction false} AppendAt(name: Word, u: Word, v: Word, m: nat)
    requires |name| <= m < |name| + |u| && m < |name| + |v| && u[m - |name|] == v[m - |name|]
    ensures (name + u)[m] == (name + v)[m]
  {
  }

  /** Some route is stored at or below a tidy node. */
  lemma {:induction false} SomeStored(n: Tree) returns (x: Word)
    requires Tidy(n)
    ensures Lookup(n, x).Some?
    decreases n
  {
    if n.leaf.Some? {
      x := n.kind.Label();
      LookupHere(n);
    } else {
      var v := SomeStored(n.children[0]);
      LookupStarts(n.children[0], v);
      LookupBelow(n, 0, v);
      x := n.kind.Label() + v;
    }
  }

  lemma {:induction false} LookupStarts(n: Tree, v: Word)
    requires Lookup(n, v).Some? && n.kind.Label() != []
    ensures v != [] && n.HeadIs(v[0])
  {
  }

  lemma {:induction false} ShareAfter(n: Tree, y: Word, w: Word, m: nat)
    requires Meets(n, w) && |n.kind.Label()| <= m < |w| && (n.kind.Static? ==> n.kind.Label() <= w)
    requires Share(y, w[|n.kind.Label()|..], m - |n.kind.Label()|)
    ensures Share(n.kind.Label() + y, w, m)
  {
    var k, u := |n.kind.Label()|, n.kind.Label() + y;
    forall i | 0 <= i <= m ensures SameSpot(u[i], w[i]) {
      if i >= k {
        assert u[i] == y[i - k] && w[i] == w[k..][i - k];
      }
    }
  }

  lemma {:induction false} CutTrack(n: Tree, w: Word, i: nat, k: nat)
    requires Tidy(n) && Meets(n, w) && Add(n, w, i).Some? && Plan(n, w) == Cut(k)
    ensures Track(Add(n, w, i).value, w) == w
  {
    var t := Add(n, w, i).value;
    StepMeets(n, w);
    AddKeepsTidy(n, w, i);
    CutLabel(n, k);
    assert w == w[..k] + w[k..] && w[..k] == n.kind.Label()[..k];
    if k < |w| {
      MarkerFreeRest(w, k);
      TrackOfGraft(w[k..], i);
      GraftTidy(w[k..], i);
      assert w[k..][0] == w[k];
      TrackThrough(t, w, 1);
    }
  }

  lemma {:induction false} SproutTrack(n: Tree, w: Word, i: nat)
    requires Tidy(n) && Meets(n, w) && Add(n, w, i).Some? && Plan(n, w) == Sprout
    ensures |n.kind.Label()| < |w| && Track(Add(n, w, i).value, w) == n.kind.Label() + w[|n.kind.Label()|..]
  {
    var rest := w[|n.kind.Label()|..];
    AddKeepsTidy(n, w, i);
    MarkerFreeRest(w, |n.kind.Label()|);
    TrackOfGraft(rest, i);
    GraftTidy(rest, i);
    TrackThrough(Add(n, w, i).value, w, |n.children|);
  }

  lemma {:induction false} EnterTrack(n: Tree, w: Word, i: nat, j: nat)
    requires Tidy(n) && Meets(n, w) && Add(n, w, i).Some? && Plan(n, w) == Enter(j)
    ensures |n.kind.Label()| < |w|
    ensures var rest := w[|n.kind.Label()|..];
      && Meets(n.children[j], rest) && Add(n.children[j], rest, i).Some?
      && Track(Add(n, w, i).value, w) == n.kind.Label() + Track(Add(n.children[j], rest, i).value, rest)
  {
    StepMeets(n, w);
    AddKeepsTidy(n, w, i);
    AddKeepsTidy(n.children[j], w[|n.kind.Label()|..], i);
    TrackThrough(Add(n, w, i).value, w, j);
  }

  lemma {:induction false} SettleTrack(n: Tree, w: Word, i: nat)
    requires w != [] && Add(n, w, i).Some? && Plan(n, w) == Settle
    ensures |w| == |n.kind.Label()| && Track(Add(n, w, i).value, w) == n.kind.Label()
  {
    PlanWhole(n, w);
  }

  /** A label differs from a word that meets it only if it is a wildcard. */
  lemma {:induction false} LabelDiffers(n: Tree, w: Word, m: nat)
    requires Meets(n, w) && !Plan(n, w).Cut? && !Plan(n, w).Refuse? && m < |n.kind.Label()|
    ensures |n.kind.Label()| <= |w| && (n.kind.Label()[m] != w[m] ==> !n.kind.Static? && m == 0)
  {
    PlanWhole(n, w);
  }

  lemma {:induction false} HeadShares(n: Tree, x: Word, w: Word)
    requires !n.kind.Static? && Lookup(n, x).Some? && Meets(n, w)
    ensures Share(x, w, 0)
  {
  }

  /** The track of the word is not the word at position `m`. */
  ghost predicate Differs(n: Tree, w: Word, m: nat) {
    m < |w| && m < |Track(n, w)| && Track(n, w)[m] != w[m]
  }

  /** A difference below the label is one in the child's tree. */
  lemma {:induction false} DiffersBelow(n: Tree, w: Word, i: nat, m: nat, t: Tree, j: nat)
    returns (rest: Word, t': Tree)
    requires Tidy(n) && Meets(n, w) && Add(n, w, i) == Some(t) && Plan(n, w) == Enter(j)
    requires Differs(t, w, m) && |n.kind.Label()| <= m
    ensures |n.kind.Label()| < |w| && (n.kind.Static? ==> n.kind.Label() <= w) && rest == w[|n.kind.Label()|..]
    ensures j < |n.children| && Tidy(n.children[j]) && Meets(n.children[j], rest)
    ensures Add(n.children[j], rest, i) == Some(t') && Differs(t', rest, m - |n.kind.Label()|)
  {
    EnterTrack(n, w, i, j);
    PlanWhole(n, w);
    rest := w[|n.kind.Label()|..];
    t' := Add(n.children[j], rest, i).value;
  }

  lemma {:induction false} FoundBelow(n: Tree, j: nat, y: Word, w: Word, m: nat) returns (x: Word)
    requires Tidy(n) && Meets(n, w) && |n.kind.Label()| <= m < |w| && (n.kind.Static? ==> n.kind.Label() <= w)
    requires j < |n.children| && Lookup(n.children[j], y).Some?
    requires Share(y, w[|n.kind.Label()|..], m - |n.kind.Label()|)
    ensures Lookup(n, x).Some? && Share(x, w, m)
  {
    LookupStarts(n.children[j], y);
    LookupBelow(n, j, y);
    ShareAfter(n, y, w, m);
    x := n.kind.Label() + y;
  }

  /** Without going into a child, a track differs only at a wildcard node itself. */
  lemma {:induction false} NewBranch(n: Tree, w: Word, i: nat, m: nat)
    requires Tidy(n) && Meets(n, w) && Add(n, w, i).Some? && Differs(Add(n, w, i).value, w, m)
    requires Plan(n, w).Enter? ==> m < |n.kind.Label()|
    ensures m == 0 && !n.kind.Static?
  {
    match Plan(n, w)
    case Cut(k) => CutTrack(n, w, i, k);
    case Settle =>
      SettleTrack(n, w, i);
      LabelDiffers(n, w, m);
    case Sprout =>
      SproutTrack(n, w, i);
      SproutDiffers(n, w, m);
    case Enter(j) =>
      EnterTrack(n, w, i, j);
      LabelDiffers(n, w, m);
    case Refuse =>
  }

  lemma {:induction false} SproutDiffers(n: Tree, w: Word, m: nat)
    requires Meets(n, w) && Plan(n, w) == Sprout && |n.kind.Label()| < |w| && m < |w|
    requires (n.kind.Label() + w[|n.kind.Label()|..])[m] != w[m]
    ensures !n.kind.Static? && m == 0
  {
    if m < |n.kind.Label()| {
      LabelDiffers(n, w, m);
    }
  }

  lemma {:induction false} NewHere(n: Tree, w: Word, i: nat, m: nat) returns (x: Word)
    requires Tidy(n) && Meets(n, w) && Add(n, w, i).Some? && Differs(Add(n, w, i).value, w, m)
    requires Plan(n, w).Enter? ==> m < |n.kind.Label()|
    ensures Lookup(n, x).Some? && Share(x, w, m)
  {
    NewBranch(n, w, i, m);
    x := SomeStored(n);
    HeadShares(n, x, w);
  }

  /** A difference is found at the node, or it is one in a child's tree. */
  lemma {:induction false} NewStep(n: Tree, w: Word, i: nat, m: nat, t: Tree)
    returns (x: Word, below: Option<nat>, rest: Word, t': Tree)
    requires Tidy(n) && Meets(n, w) && Add(n, w, i) == Some(t) && Differs(t, w, m)
    ensures below.None? ==> Lookup(n, x).Some? && Share(x, w, m)
    ensures below.Some? ==>
      && |n.kind.Label()| <= m < |w| && (n.kind.Static? ==> n.kind.Label() <= w) && rest == w[|n.kind.Label()|..]
      && below.value < |n.children| && Tidy(n.children[below.value]) && Meets(n.children[below.value], rest)
      && Add(n.children[below.value], rest, i) == Some(t') && Differs(t', rest, m - |n.kind.Label()|)
  {
    var plan := Plan(n, w);
    x, below, rest, t' := [], None, [], t;
    if plan.Enter? && m >= |n.kind.Label()| {
      rest, t' := DiffersBelow(n, w, i, m, t, plan.j);
      below := Some(plan.j);
    } else {
      x := NewHere(n, w, i, m);
    }
  }

  /** Where the track of a word just inserted differs from the word, a route
      that was there before shares the spot. */
  lemma {:induction false} NewTrack(n: Tree, w: Word, i: nat, m: nat, t: Tree) returns (x: Word)
    requires Tidy(n) && Meets(n, w) && Add(n, w, i) == Some(t) && Differs(t, w, m)
    ensures Lookup(n, x).Some? && Share(x, w, m)
    decreases n
  {
    var below, rest, t';
    x, below, rest, t' := NewStep(n, w, i, m, t);
    if below.Some? {
      var y := NewTrack(n.children[below.value], rest, i, m - |n.kind.Label()|, t');
      x := FoundBelow(n, below.value, y, w, m);
    }
  }
}
