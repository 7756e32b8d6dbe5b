/** What every accepted run keeps, whether wildcard kinds agree or not: each
    route has one entry and one place in the tree, so a found route always has
    an entry. Then what kind-consistent runs keep of the tree's shape. */
module Bookkeeping {
  import opened Options
  import opened Patterns
  import opened Trie
  import opened Leaves
  import opened Insertion
  import opened Recognition
  import opened Routing
  import opened Kinds
  import opened Guarantees
  import Recognizer
  import opened HeapBranch

  // ---- an inserted word stays taken -----------------------------------------

  /** The insertion walk for `w` ends at the leaf of route `at`. */
  ghost predicate Taken(n: Tree, w: Word, at: nat)
    decreases n
  {
    var name := n.kind.Label();
    && |name| <= |w|
    && (n.kind.Static? ==> name <= w)
    && if |w| == |name| then n.leaf == Some(at)
       else if w[|name|].Lit? then
         var j := Scan(n.children, w[|name|]);
         j.At? && Taken(n.children[j.j], w[|name|..], at)
       else n.children != [] && !n.children[0].kind.Static? && Taken(n.children[0], w[|name|..], at)
  }

  lemma {:induction false} LcpOfPrefix(u: Word, v: Word)
    requires u <= v
    ensures Lcp(v, u) == |u|
    decreases |u|
  {
    if u != [] {
      LcpOfPrefix(u[1..], v[1..]);
    }
  }

  lemma {:induction false} TakenIsRefused(n: Tree, w: Word, i: nat, at: nat)
    requires Tidy(n) && Meets(n, w) && Taken(n, w, at)
    ensures Add(n, w, i).None?
    decreases n
  {
    var name := n.kind.Label();
    StepMeets(n, w);
    if n.kind.Static? {
      LcpOfPrefix(name, w);
    }
    if |name| < |w| {
      match Plan(n, w)
      case Enter(j) =>
        assert Taken(n.children[j], w[|name|..], at);
        TakenIsRefused(n.children[j], w[|name|..], i, at);
      case _ =>
    }
  }

  /** A scan finds the child that starts with `x`. */
  lemma {:induction false} ScanIs(children: seq<Tree>, j: nat, x: Token)
    requires Siblings(children) && j < |children| && children[j].kind.Static? && children[j].HeadIs(x)
    ensures Scan(children, x) == At(j)
  {
    ScanFinds(children, x);
  }

  lemma {:induction false} GraftTaken(w: Word, i: nat)
    requires w != [] && MarkerFree(w)
    ensures Taken(Graft(w, i), w, i)
    decreases |w|
  {
    var (kind, k) := FirstKind(w);
    if k < |w| {
      MarkerFreeRest(w, k);
      GraftTaken(w[k..], i);
      GraftTidy(w[k..], i);
      var g := Graft(w[k..], i);
      if w[k].Lit? {
        ScanIs([g], 0, w[k]);
      }
    }
  }

  /** A child that takes the rest of a word makes its parent take the word. */
  lemma {:induction false} TakenThrough(n: Tree, w: Word, j: nat, at: nat)
    requires Tidy(n) && (if n.kind.Static? then n.kind.Label() <= w else w != []) && |n.kind.Label()| < |w|
      && j < |n.children|
    requires Meets(n.children[j], w[|n.kind.Label()|..]) && Taken(n.children[j], w[|n.kind.Label()|..], at)
    ensures Taken(n, w, at)
  {
    var x := w[|n.kind.Label()|];
    assert w[|n.kind.Label()|..][0] == x;
    if x.Lit? {
      ScanIs(n.children, j, x);
    } else {
      assert j == 0;
    }
  }

  lemma {:induction false} InsertedIsTaken(n: Tree, w: Word, i: nat)
    requires Tidy(n) && Meets(n, w) && Add(n, w, i).Some?
    ensures Taken(Add(n, w, i).value, w, i)
    decreases n
  {
    var t := Add(n, w, i).value;
    var name := n.kind.Label();
    StepMeets(n, w);
    AddKeepsTidy(n, w, i);
    match Plan(n, w)
    case Cut(k) =>
      CutLabel(n, k);
      assert w[..k] == name[..k];
      if k < |w| {
        MarkerFreeRest(w, k);
        GraftTaken(w[k..], i);
        GraftTidy(w[k..], i);
        assert w[k..][0] == w[k];
        TakenThrough(t, w, 1, i);
      }
    case Settle => PlanWhole(n, w);
    case Sprout =>
      PlanWhole(n, w);
      var rest := w[|name|..];
      MarkerFreeRest(w, |name|);
      GraftTaken(rest, i);
      GraftTidy(rest, i);
      TakenThrough(t, w, |n.children|, i);
    case Enter(j) =>
      PlanWhole(n, w);
      InsertedIsTaken(n.children[j], w[|name|..], i);
      AddKeepsTidy(n.children[j], w[|name|..], i);
      TakenThrough(t, w, j, i);
    case Refuse =>
  }

  lemma {:induction false} CutLabel(n: Tree, k: nat)
    requires n.kind.Static? && k <= |n.kind.s|
    ensures Static(n.kind.s[..k]).Label() == n.kind.Label()[..k]
    ensures Static(n.kind.s[k..]).Label() == n.kind.Label()[k..]
  {
  }

  /** A step past the label has consumed the whole label. */
  lemma {:induction false} PlanWhole(n: Tree, w: Word)
    requires w != [] && !Plan(n, w).Cut? && !Plan(n, w).Refuse?
    ensures |n.kind.Label()| <= |w| && (n.kind.Static? ==> n.kind.Label() <= w)
    ensures Plan(n, w).Settle? ==> |w| == |n.kind.Label()|
  {
    if n.kind.Static? {
      assert w[..|n.kind.Label()|] == n.kind.Label();
    }
  }

  /** Later insertions leave a taken word taken. */
  lemma {:induction false} TakenStays(n: Tree, w: Word, at: nat, v: Word, i: nat)
    requires Tidy(n) && Meets(n, v) && Add(n, v, i).Some? && Meets(n, w) && Taken(n, w, at)
    ensures Taken(Add(n, v, i).value, w, at)
    decreases n
  {
    var t := Add(n, v, i).value;
    var name := n.kind.Label();
    StepMeets(n, v);
    AddKeepsTidy(n, v, i);
    match Plan(n, v)
    case Cut(k) => TakenAfterCut(n, w, at, k, t);
    case Settle =>
    case Sprout => TakenAfterPush(n, w, at, Graft(v[|name|..], i), t);
    case Enter(m) =>
      if |name| < |w| {
        var j := TakenChild(n, w, at);
        var rest := w[|name|..];
        if j == m {
          TakenStays(n.children[j], rest, at, v[|name|..], i);
          AddKeepsTidy(n.children[j], v[|name|..], i);
        }
        TakenThrough(t, w, j, at);
      }
    case Refuse =>
  }

  lemma {:induction false} TakenChild(n: Tree, w: Word, at: nat) returns (j: nat)
    requires Tidy(n) && Taken(n, w, at) && MarkerFree(w) && |n.kind.Label()| < |w|
    ensures j < |n.children| && Meets(n.children[j], w[|n.kind.Label()|..])
      && Taken(n.children[j], w[|n.kind.Label()|..], at)
  {
    var k := |n.kind.Label()|;
    MarkerFreeRest(w, k);
    assert w[k..][0] == w[k];
    j := if w[k].Lit? then Scan(n.children, w[k]).j else 0;
    ScanFinds(n.children, w[k]);
    ScanStatic(n.children, w[k]);
  }

  lemma {:induction false} ScanStatic(children: seq<Tree>, x: Token)
    ensures Scan(children, x).At? ==> children[Scan(children, x).j].kind.Static?
    decreases |children|
  {
    if children != [] {
      ScanStatic(children[1..], x);
    }
  }

  lemma {:induction false} TakenAfterCut(n: Tree, w: Word, at: nat, k: nat, t: Tree)
    requires n.kind.Static? && 0 < k < |n.kind.s| && Taken(n, w, at) && Tidy(t) && MarkerFree(w)
    requires t.kind == Static(n.kind.s[..k]) && t.children != [] && t.children[0] == n.(kind := Static(n.kind.s[k..]))
    ensures Taken(t, w, at)
  {
    var name := n.kind.Label();
    CutLabel(n, k);
    MarkerFreeRest(w, k);
    TakenByLower(n, w, at, k);
    assert w[k..][0] == name[k..][0];
    assert t.kind.Label() <= w;
    TakenThrough(t, w, 0, at);
  }

  lemma {:induction false} TakenByLower(n: Tree, w: Word, at: nat, k: nat)
    requires n.kind.Static? && k < |n.kind.s| && Taken(n, w, at)
    ensures |n.kind.Label()| <= |w| && Taken(n.(kind := Static(n.kind.s[k..])), w[k..], at)
  {
    CutLabel(n, k);
    var name, rest := n.kind.Label(), w[k..];
    assert name[k..] <= rest && |name[k..]| == |name| - k;
    assert rest[|name| - k..] == w[|name|..];
    if |w| > |name| {
      assert rest[|name| - k] == w[|name|];
    }
  }

  lemma {:induction false} TakenAfterPush(n: Tree, w: Word, at: nat, g: Tree, t: Tree)
    requires Tidy(n) && Taken(n, w, at) && MarkerFree(w) && Tidy(t)
    requires t.kind == n.kind && t.leaf == n.leaf && t.children == n.children + [g]
    ensures Taken(t, w, at)
  {
    if |n.kind.Label()| < |w| {
      var j := TakenChild(n, w, at);
      assert t.children[j] == n.children[j];
      TakenThrough(t, w, j, at);
    }
  }

  // ---- runs -------------------------------------------------------------------

  /** Entries, leaves and the asterisk slot of a run: the entries are the
      patterns in order and without repetition, the asterisk slot is that of
      the pattern `*`, and every other pattern has exactly one leaf. */
  ghost predicate Booked(r: Router, ps: seq<string>) {
    && r.keys == ps
    && (forall i, j | 0 <= i < j < |ps| :: ps[i] != ps[j])
    && (forall i: nat :: r.asterisk == Some(i) <==> i < |ps| && ps[i] == "*")
    && LeafEach(r.root, ps)
  }

  function AllStored(root: Option<Tree>): multiset<nat> {
    if root.Some? then Stored(root.value) else multiset{}
  }

  /** One leaf for every pattern but `*`. */
  ghost predicate LeafEach(root: Option<Tree>, ps: seq<string>) {
    forall i: nat :: AllStored(root)[i] == if i < |ps| && ps[i] != "*" then 1 else 0
  }

  /** Every pattern's word is taken in the tree, by that pattern. */
  ghost predicate AllTaken(root: Option<Tree>, ps: seq<string>) {
    forall i | 0 <= i < |ps| && ps[i] != "*" :: root.Some? && PlaceOf(root.value, ps[i], i)
  }

  lemma {:induction false} RootedMeets(t: Tree, p: string)
    requires Rooted(p) && WordOf(p).Some? && t.kind.Static? && t.HeadIs(Lit('/'))
    ensures Meets(t, WordOf(p).value)
  {
    RootedWord(p);
    EraseMarkerFree(p, 0);
  }

  /** One more word in a tree in which others are taken: it is none of them,
      and they stay taken. */
  lemma {:induction false} OthersStayTaken(n: Tree, ps: seq<string>, p: string, t: Tree)
    requires AllRooted(ps) && Rooted(p) && WordOf(p).Some? && AllTaken(Some(n), ps)
    requires Tidy(n) && Meets(n, WordOf(p).value) && Add(n, WordOf(p).value, |ps|) == Some(t)
    ensures forall i | 0 <= i < |ps| && ps[i] != "*" :: ps[i] != p && Taken(t, WordOf(ps[i]).value, i)
  {
    var w := WordOf(p).value;
    forall i | 0 <= i < |ps| && ps[i] != "*" ensures ps[i] != p && Taken(t, WordOf(ps[i]).value, i) {
      var v := WordOf(ps[i]).value;
      TakenStays(n, v, i, w, |ps|);
      if ps[i] == p {
        TakenIsRefused(n, w, |ps|, i);
      }
    }
  }

  /** One more word in a tree, or in none. */
  lemma {:induction false} WordBooked(root: Option<Tree>, ps: seq<string>, p: string, t: Tree)
    requires AllRooted(ps) && Rooted(p) && p != "*" && AllTaken(root, ps)
    requires root.Some? ==> Tidy(root.value) && root.value.HeadIs(Lit('/'))
    requires InsertTree(root, p, |ps|) == Some(t)
    ensures p !in ps && AllTaken(Some(t), ps + [p])
    ensures Stored(t) == AllStored(root) + multiset{|ps|}
  {
    RootedWord(p);
    EraseMarkerFree(p, 0);
    var w := WordOf(p).value;
    if root.None? {
      GraftStored(w, |ps|);
      GraftTaken(w, |ps|);
      GraftTidy(w, |ps|);
    } else {
      var n := root.value;
      RootedMeets(n, p);
      AddKeepsTidy(n, w, |ps|);
      AddStored(n, w, |ps|);
      InsertedIsTaken(n, w, |ps|);
      OthersStayTaken(n, ps, p, t);
    }
    AllMeet(t, ps, p);
  }

  lemma {:induction false} AllMeet(t: Tree, ps: seq<string>, p: string)
    requires AllRooted(ps) && Rooted(p) && p != "*" && WordOf(p).Some? && t.kind.Static? && t.HeadIs(Lit('/'))
    requires Taken(t, WordOf(p).value, |ps|)
    requires forall i | 0 <= i < |ps| && ps[i] != "*" :: WordOf(ps[i]).Some? && Taken(t, WordOf(ps[i]).value, i)
    ensures AllTaken(Some(t), ps + [p])
  {
    var all := ps + [p];
    forall i | 0 <= i < |all| && all[i] != "*" ensures PlaceOf(t, all[i], i) {
      if i < |ps| {
        assert all[i] == ps[i];
        RootedMeets(t, ps[i]);
      } else {
        RootedMeets(t, p);
      }
    }
  }

  /** The pattern's word is taken by route `i`. */
  ghost predicate PlaceOf(t: Tree, p: string, i: nat) {
    WordOf(p).Some? && Meets(t, WordOf(p).value) && Taken(t, WordOf(p).value, i)
  }

  /** An accepted run books every pattern once. */
  lemma {:induction false} RunIsBooked(ps: seq<string>)
    requires AllRooted(ps) && Run(ps).Some?
    ensures Booked(Run(ps).value, ps) && AllTaken(Run(ps).value.root, ps)
    decreases |ps|
  {
    if ps != [] {
      var front, p := ps[..|ps| - 1], ps[|ps| - 1];
      assert ps == front + [p] && AllRooted(front);
      RunStep(front, p);
      RunIsBooked(front);
      RunIsTidy(front);
      BookedPush(Run(front).value, Run(ps).value, front, p);
    }
  }

  lemma {:induction false} BookedPush(r: Router, r': Router, front: seq<string>, p: string)
    requires AllRooted(front) && Rooted(p) && Booked(r, front) && AllTaken(r.root, front) && Insert(r, p) == Some(r')
    requires r.root.Some? ==> Tidy(r.root.value) && r.root.value.HeadIs(Lit('/'))
    ensures Booked(r', front + [p]) && AllTaken(r'.root, front + [p])
  {
    if p != "*" {
      WordBooked(r.root, front, p, r'.root.value);
    } else {
      TakenSkip(r.root, front);
    }
    BookedAfter(r, r', front, p);
  }

  lemma {:induction false} TakenSkip(root: Option<Tree>, ps: seq<string>)
    requires AllTaken(root, ps)
    ensures AllTaken(root, ps + ["*"])
  {
    assert forall i | 0 <= i < |ps| :: (ps + ["*"])[i] == ps[i];
  }

  lemma {:induction false} BookedAfter(r: Router, r': Router, front: seq<string>, p: string)
    requires Booked(r, front) && Insert(r, p) == Some(r') && (p != "*" ==> p !in front)
    requires p != "*" ==> r'.root.Some?
    requires p != "*" ==> AllStored(r'.root) == AllStored(r.root) + multiset{|front|}
    ensures Booked(r', front + [p])
  {
    var ps := front + [p];
    assert forall i | 0 <= i < |front| :: ps[i] == front[i];
    assert ps[|front|] == p;
    if p == "*" {
      assert forall i: nat :: r.asterisk != Some(i);
    }
    LeafAfter(r.root, r'.root, front, p);
  }

  lemma {:induction false} LeafAfter(root: Option<Tree>, root': Option<Tree>, front: seq<string>, p: string)
    requires LeafEach(root, front)
    requires if p == "*" then root' == root else AllStored(root') == AllStored(root) + multiset{|front|}
    ensures LeafEach(root', front + [p])
  {
    var ps := front + [p];
    forall i: nat ensures AllStored(root')[i] == if i < |ps| && ps[i] != "*" then 1 else 0 {
      assert AllStored(root)[i] == if i < |front| && front[i] != "*" then 1 else 0;
    }
  }

  /** Over any accepted run, what recognition finds has an entry, and it is a
      pattern of the run: the final lookup cannot fail. */
  lemma {:induction false} FoundHasEntry(ps: seq<string>, path: string)
    requires AllRooted(ps) && Run(ps).Some?
    ensures Recognizer.InBounds(Run(ps).value) && Run(ps).value.keys == ps
    ensures var o := Recognize(Run(ps).value, path).outcome;
      o.Matched? ==> o.i < |ps| && (ps[o.i] == "*" <==> path == "*")
  {
    RunIsBooked(ps);
    var r := Run(ps).value;
    if r.root.Some? {
      forall i | i in Indices(r.root.value) ensures i < |ps| && ps[i] != "*" {
        StoredAreIndices(r.root.value, i);
      }
      Recognizer.WalkInBounds(r.root.value, path, 0, None);
    }
  }

  /** The shape of the tree after any kind-consistent run, and what its nodes record. */
  lemma {:induction false} TreeInvariant(ps: seq<string>)
    requires Accepted(ps)
    ensures Booked(Run(ps).value, ps)
    ensures var root := Run(ps).value.root;
      root.Some? ==>
        && WellShaped(root.value) && Tallied(root.value)
        && root.value.kind.Static? && root.value.HeadIs(Lit('/'))
  {
    RunRepresents(ps);
    RunIsBooked(ps);
    RunIsTidy(ps);
  }

  // ---- wildcards inside a segment ---------------------------------------------

  /** Markers follow slashes in a text where wildcards do in its word. */
  lemma {:induction false} SpacedWord(path: string, k: nat)
    requires k <= |path| && Erase(path, k).Some?
    ensures Spaced(Erase(path, k).value) <==> SpacedText(path, k)
    decreases |path| - k
  {
    if k < |path| {
      var e := if IsMarker(path[k]) then WildcardEnd(path, k).value else k + 1;
      SpacedWord(path, e);
      var w, rest := Erase(path, k).value, Erase(path, e).value;
      assert w == [w[0]] + rest;
      SpacedCons(w[0], rest);
      SpacedTextCons(path, k, e);
      if e < |path| {
        EraseHead(path, e);
      }
    }
  }

  lemma {:induction false} SpacedTextCons(path: string, k: nat, e: nat)
    requires k < e <= |path| && NoMarker(path[k + 1..e])
    ensures SpacedText(path, k) <==> SpacedText(path, e) && (e < |path| && IsMarker(path[e]) ==> path[e - 1] == '/')
  {
    assert forall i | k < i < e :: path[i] == path[k + 1..e][i - k - 1];
  }

  /** What the recognizer accepts as its first pattern: `*`, or an ASCII text
      with well-formed wildcards, all but the first of which follow a slash.
      (The byte before the first is not looked at.) */
  lemma {:induction false} AcceptedAlone(p: string)
    ensures Insert(EMPTY, p).Some? <==>
            IsAscii(p) && (p == "*" || (Erase(p, 0).Some? && SpacedText(p, WildcardBegin(p, 0))))
  {
    var pos := WildcardBegin(p, 0);
    Recognizer.PlantIsStem(p, 0);
    EraseLiterals(p, 0, pos);
    if Erase(p, pos).Some? {
      SpacedWord(p, pos);
    }
  }

  const INNER_WILDCARD := "/a:b"

  /** A pattern that no URI has, accepted on its own. */
  lemma {:induction false} InnerWildcardIsAccepted()
    ensures Run([INNER_WILDCARD]).Some? && !Rooted(INNER_WILDCARD)
  {
    var p := INNER_WILDCARD;
    assert IsMarker(p[2]) && p[1] == 'a';
    assert SegmentEnd(p, 4) == 4 && SegmentEnd(p, 3) == 4;
    assert p[3..4] == "b";
    assert WildcardEnd(p, 2) == Some(4);
    assert Erase(p, 4) == Some([]);
    assert Erase(p, 2).Some?;
    EraseLiterals(p, 0, 2);
    assert WildcardBegin(p, 2) == 2 && WildcardBegin(p, 1) == 2 && WildcardBegin(p, 0) == 2;
    assert SpacedText(p, 2);
    AcceptedAlone(p);
    assert [p][..0] == [];
  }
}
