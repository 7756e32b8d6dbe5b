/** How the routes of any accepted run are stored, kinds agreeing or not: each
    under its word with the wildcard kinds of the patterns that came first. */
module Openers {
  import opened Options
  import opened Patterns
  import opened Trie
  import opened Leaves
  import opened Insertion
  import opened Routing
  import opened Kinds
  import opened Bookkeeping
  import opened Tracks
  import opened Parameters

  predicate Shares(ps: seq<string>, j: nat, w: Word, m: nat)
    requires j < |ps|
  {
    WordOf(ps[j]).Some? && Share(WordOf(ps[j]).value, w, m)
  }

  /** The first pattern that shares the spots of `w` up to position `m`. */
  function FirstSharing(ps: seq<string>, w: Word, m: nat): (r: Option<nat>)
    ensures r.Some?
      ==> r.value < |ps| && Shares(ps, r.value, w, m) && forall i | 0 <= i < r.value :: !Shares(ps, i, w, m)
    ensures r.None? ==> forall i | 0 <= i < |ps| :: !Shares(ps, i, w, m)
  {
    if ps == [] then None
    else
      var front := ps[..|ps| - 1];
      match FirstSharing(front, w, m)
      case Some(j) =>
        assert forall i | 0 <= i < j :: !Shares(front, i, w, m) && front[i] == ps[i];
        Some(j)
      case None =>
        assert forall i | 0 <= i < |front| :: !Shares(front, i, w, m) && front[i] == ps[i];
        if Shares(ps, |ps| - 1, w, m) then Some(|ps| - 1) else None
  }

  /** The token that the first sharing pattern has at position `m`. */
  function Opening(ps: seq<string>, w: Word, m: nat): Token
    requires m < |w|
  {
    match FirstSharing(ps, w, m)
    case Some(j) => WordOf(ps[j]).value[m]
    case None => w[m]
  }

  /** The word with every wildcard of the kind it was first opened with. */
  function Spelled(ps: seq<string>, w: Word): (v: Word)
    ensures |v| == |w|
    ensures forall m | 0 <= m < |w| :: v[m] == Opening(ps, w, m) && SameSpot(v[m], w[m])
  {
    seq(|w|, m requires 0 <= m < |w| => Opening(ps, w, m))
  }

  lemma {:induction false} SharesItself(ps: seq<string>, i: nat, m: nat)
    requires i < |ps| && WordOf(ps[i]).Some? && m < |WordOf(ps[i]).value|
    ensures FirstSharing(ps, WordOf(ps[i]).value, m).Some? && FirstSharing(ps, WordOf(ps[i]).value, m).value <= i
  {
    assert Shares(ps, i, WordOf(ps[i]).value, m);
  }

  /** The first sharing pattern is the first that shares with itself. */
  lemma {:induction false} OpenerOfOpener(ps: seq<string>, w: Word, m: nat)
    requires FirstSharing(ps, w, m).Some?
    ensures var j := FirstSharing(ps, w, m).value; FirstSharing(ps, WordOf(ps[j]).value, m) == Some(j)
  {
    var j := FirstSharing(ps, w, m).value;
    var v := WordOf(ps[j]).value;
    assert Shares(ps, j, v, m);
    forall i | 0 <= i < j ensures !Shares(ps, i, v, m) {
      assert !Shares(ps, i, w, m);
      if Shares(ps, i, v, m) {
        ShareTransits(WordOf(ps[i]).value, v, w, m);
      }
    }
  }

  lemma {:induction false} ShareTransits(u: Word, v: Word, w: Word, m: nat)
    requires Share(u, v, m) && Share(v, w, m)
    ensures Share(u, w, m)
  {
  }

  lemma {:induction false} FirstSharingPush(ps: seq<string>, p: string, w: Word, m: nat)
    ensures FirstSharing(ps + [p], w, m) ==
            if FirstSharing(ps, w, m).Some? then FirstSharing(ps, w, m)
            else if Shares(ps + [p], |ps|, w, m) then Some(|ps|) else None
  {
    assert (ps + [p])[..|ps|] == ps;
  }

  // ---- runs -------------------------------------------------------------------------

  /** Route `i` is stored under its spelling. */
  ghost predicate Spells(t: Tree, ps: seq<string>, i: nat)
    requires i < |ps| && WordOf(ps[i]).Some?
  {
    var w := WordOf(ps[i]).value;
    Meets(t, w) && Taken(t, w, i) && Track(t, w) == Spelled(ps, w)
  }

  ghost predicate AllSpelled(root: Option<Tree>, ps: seq<string>) {
    forall i | 0 <= i < |ps| && ps[i] != "*" :: root.Some? && WordOf(ps[i]).Some? && Spells(root.value, ps, i)
  }

  /** A later pattern leaves the spelling of an earlier one. */
  lemma {:induction false} OldSpells(n: Tree, t: Tree, ps: seq<string>, p: string, i: nat)
    requires i < |ps| && WordOf(ps[i]).Some? && Spells(n, ps, i) && WordOf(p).Some?
    requires Tidy(n) && Meets(n, WordOf(p).value) && Add(n, WordOf(p).value, |ps|) == Some(t)
    requires Meets(t, WordOf(ps[i]).value)
    ensures (ps + [p])[i] == ps[i] && Spells(t, ps + [p], i)
  {
    var w := WordOf(ps[i]).value;
    TrackStays(n, w, i, WordOf(p).value, |ps|);
    TakenStays(n, w, i, WordOf(p).value, |ps|);
    forall m | 0 <= m < |w| ensures Opening(ps + [p], w, m) == Opening(ps, w, m) {
      SharesItself(ps, i, m);
      FirstSharingPush(ps, p, w, m);
    }
    assert Spelled(ps + [p], w) == Spelled(ps, w);
  }

  /** If the track of a new word differs from it, a pattern before shares the spot. */
  lemma {:induction false} DifferenceIsShared(n: Tree, t: Tree, ps: seq<string>, w: Word, m: nat)
    requires Tidy(n) && AllSpelled(Some(n), ps) && LeafEach(Some(n), ps)
    requires Meets(n, w) && Add(n, w, |ps|) == Some(t) && Differs(t, w, m)
    ensures FirstSharing(ps, w, m).Some?
  {
    var x := NewTrack(n, w, |ps|, m, t);
    var j := Lookup(n, x).value;
    LookupIsStored(n, x, j);
    assert AllStored(Some(n))[j] > 0;
    assert j < |ps| && ps[j] != "*";
    var v := WordOf(ps[j]).value;
    assert Spells(n, ps, j);
    FoundAtTrack(n, x, v, j);
    TrackFinds(n, v, j);
    assert Share(v, x, m);
    ShareTransits(v, x, w, m);
    assert Shares(ps, j, w, m);
  }

  lemma {:induction false} SpelledIs(ps: seq<string>, w: Word, v: Word)
    requires |v| == |w| && forall m | 0 <= m < |w| :: v[m] == Opening(ps, w, m)
    ensures v == Spelled(ps, w)
  {
  }

  /** A new word is tracked as its spelling. */
  lemma {:induction false} NewSpells(n: Tree, t: Tree, ps: seq<string>, p: string)
    requires Tidy(n) && AllSpelled(Some(n), ps) && LeafEach(Some(n), ps) && WordOf(p).Some?
    requires Meets(n, WordOf(p).value) && Add(n, WordOf(p).value, |ps|) == Some(t)
    requires Meets(t, WordOf(p).value) && Tidy(t)
    requires forall i | 0 <= i < |ps| && ps[i] != "*" :: Meets(t, WordOf(ps[i]).value)
    ensures (ps + [p])[|ps|] == p && Spells(t, ps + [p], |ps|)
  {
    var w := WordOf(p).value;
    InsertedIsTaken(n, w, |ps|);
    TrackLength(t, w, |ps|);
    forall m | 0 <= m < |w| ensures Track(t, w)[m] == Opening(ps + [p], w, m) {
      NewToken(n, t, ps, p, m);
    }
    SpelledIs(ps + [p], w, Track(t, w));
  }

  lemma {:induction false} NewToken(n: Tree, t: Tree, ps: seq<string>, p: string, m: nat)
    requires Tidy(n) && AllSpelled(Some(n), ps) && LeafEach(Some(n), ps) && WordOf(p).Some? && m < |WordOf(p).value|
    requires Meets(n, WordOf(p).value) && Add(n, WordOf(p).value, |ps|) == Some(t)
    requires Meets(t, WordOf(p).value) && Tidy(t) && Taken(t, WordOf(p).value, |ps|)
    requires forall i | 0 <= i < |ps| && ps[i] != "*" :: Meets(t, WordOf(ps[i]).value)
    ensures m < |Track(t, WordOf(p).value)|
    ensures Track(t, WordOf(p).value)[m] == Opening(ps + [p], WordOf(p).value, m)
  {
    var w := WordOf(p).value;
    TrackLength(t, w, |ps|);
    FirstSharingPush(ps, p, w, m);
    assert Shares(ps + [p], |ps|, w, m);
    if FirstSharing(ps, w, m).Some? {
      assert ps[FirstSharing(ps, w, m).value] != "*";
      SharedSpells(n, t, ps, w, m);
    } else if Differs(t, w, m) {
      DifferenceIsShared(n, t, ps, w, m);
    }
  }

  lemma {:induction false} SharedSpells(n: Tree, t: Tree, ps: seq<string>, w: Word, m: nat)
    requires Tidy(n) && AllSpelled(Some(n), ps) && m < |w| && FirstSharing(ps, w, m).Some?
    requires Meets(n, w) && Add(n, w, |ps|) == Some(t) && Meets(t, w) && Tidy(t) && Taken(t, w, |ps|)
    requires Meets(t, WordOf(ps[FirstSharing(ps, w, m).value]).value)
    ensures m < |Track(t, w)| && Track(t, w)[m] == Opening(ps, w, m)
  {
    var j := FirstSharing(ps, w, m).value;
    var v := WordOf(ps[j]).value;
    assert ps[j] != "*" && Spells(n, ps, j);
    OpenerOfOpener(ps, w, m);
    TrackStays(n, v, j, w, |ps|);
    TakenStays(n, v, j, w, |ps|);
    assert Share(w, v, m);
    SharedTrack(t, w, |ps|, v, j, m);
    assert Track(n, v)[m] == Opening(ps, v, m);
  }

  lemma {:induction false} FirstSpells(ps: seq<string>, p: string)
    requires WordOf(p).Some? && WordOf(p).value != [] && MarkerFree(WordOf(p).value)
    requires forall i | 0 <= i < |ps| :: ps[i] == "*"
    requires Meets(Graft(WordOf(p).value, |ps|), WordOf(p).value)
    ensures (ps + [p])[|ps|] == p && Spells(Graft(WordOf(p).value, |ps|), ps + [p], |ps|)
  {
    var w := WordOf(p).value;
    GraftTaken(w, |ps|);
    TrackOfGraft(w, |ps|);
    forall m | 0 <= m < |w| ensures w[m] == Opening(ps + [p], w, m) {
      FirstSharingPush(ps, p, w, m);
      assert Shares(ps + [p], |ps|, w, m);
    }
    SpelledIs(ps + [p], w, w);
  }

  lemma {:induction false} AllMeets(t: Tree, ps: seq<string>)
    requires AllRooted(ps) && t.kind.Static? && t.HeadIs(Lit('/'))
    requires forall i | 0 <= i < |ps| && ps[i] != "*" :: WordOf(ps[i]).Some?
    ensures forall i | 0 <= i < |ps| && ps[i] != "*" :: Meets(t, WordOf(ps[i]).value)
  {
    forall i | 0 <= i < |ps| && ps[i] != "*" ensures Meets(t, WordOf(ps[i]).value) {
      RootedMeets(t, ps[i]);
    }
  }

  lemma {:induction false} SpellsPush(root: Option<Tree>, t: Tree, ps: seq<string>, p: string)
    requires AllRooted(ps) && Rooted(p) && p != "*" && AllSpelled(root, ps) && LeafEach(root, ps)
    requires root.Some? ==> Tidy(root.value) && root.value.HeadIs(Lit('/'))
    requires InsertTree(root, p, |ps|) == Some(t) && Tidy(t) && t.HeadIs(Lit('/'))
    ensures AllSpelled(Some(t), ps + [p])
  {
    RootedMeets(t, p);
    RootedWord(p);
    EraseMarkerFree(p, 0);
    if root.None? {
      FirstSpells(ps, p);
    } else {
      RootedMeets(root.value, p);
      AllMeets(t, ps);
      NewSpells(root.value, t, ps, p);
      OldsSpell(root.value, t, ps, p);
    }
    SpelledPush(t, ps, p);
  }

  lemma {:induction false} SpelledPush(t: Tree, ps: seq<string>, p: string)
    requires p != "*" && WordOf(p).Some? && (ps + [p])[|ps|] == p && Spells(t, ps + [p], |ps|)
    requires forall i | 0 <= i < |ps| && ps[i] != "*" ::
      (ps + [p])[i] == ps[i] && WordOf(ps[i]).Some? && Spells(t, ps + [p], i)
    ensures AllSpelled(Some(t), ps + [p])
  {
    var all := ps + [p];
    assert forall i | 0 <= i < |all| :: all[i] == if i < |ps| then ps[i] else p;
  }

  lemma {:induction false} OldsSpell(n: Tree, t: Tree, ps: seq<string>, p: string)
    requires AllSpelled(Some(n), ps) && WordOf(p).Some?
    requires Tidy(n) && Meets(n, WordOf(p).value) && Add(n, WordOf(p).value, |ps|) == Some(t)
    requires forall i | 0 <= i < |ps| && ps[i] != "*" :: Meets(t, WordOf(ps[i]).value)
    ensures forall i | 0 <= i < |ps| && ps[i] != "*" ::
      WordOf(ps[i]).Some? && (ps + [p])[i] == ps[i] && Spells(t, ps + [p], i)
  {
    forall i | 0 <= i < |ps| && ps[i] != "*"
      ensures WordOf(ps[i]).Some? && (ps + [p])[i] == ps[i] && Spells(t, ps + [p], i) {
      OldSpells(n, t, ps, p, i);
    }
  }

  /** Over any accepted run every route is stored under its spelling. */
  lemma {:induction false} RunSpells(ps: seq<string>)
    requires AllRooted(ps) && Run(ps).Some?
    ensures AllSpelled(Run(ps).value.root, ps)
    decreases |ps|
  {
    if ps != [] {
      var front, p := ps[..|ps| - 1], ps[|ps| - 1];
      assert ps == front + [p] && AllRooted(front);
      RunStep(front, p);
      RunSpells(front);
      SpellsAfter(front, p);
    }
  }

  lemma {:induction false} SpellsAfter(front: seq<string>, p: string)
    requires AllRooted(front) && AllRooted(front + [p]) && Rooted(p)
    requires Run(front).Some? && Run(front + [p]).Some? && AllSpelled(Run(front).value.root, front)
    ensures AllSpelled(Run(front + [p]).value.root, front + [p])
  {
    RunStep(front, p);
    RunIsBooked(front);
    RunIsTidy(front);
    RunIsTidy(front + [p]);
    SpellsStep(Run(front).value, Run(front + [p]).value, front, p);
  }

  lemma {:induction false} SpellsStep(r: Router, r': Router, front: seq<string>, p: string)
    requires AllRooted(front) && Rooted(p) && Booked(r, front) && AllSpelled(r.root, front) && Insert(r, p) == Some(r')
    requires r.root.Some? ==> Tidy(r.root.value) && r.root.value.HeadIs(Lit('/'))
    requires r'.root.Some? ==> Tidy(r'.root.value) && r'.root.value.HeadIs(Lit('/'))
    ensures AllSpelled(r'.root, front + [p])
  {
    if p != "*" {
      SpellsPush(r.root, r'.root.value, front, p);
    } else {
      SpellsSkip(r.root, front);
    }
  }

  lemma {:induction false} SpellsSkip(root: Option<Tree>, ps: seq<string>)
    requires AllSpelled(root, ps)
    ensures AllSpelled(root, ps + ["*"])
  {
    var all := ps + ["*"];
    forall i | 0 <= i < |all| && all[i] != "*"
      ensures root.Some? && WordOf(all[i]).Some? && Spells(root.value, all, i) {
      assert all[i] == ps[i];
      var w := WordOf(ps[i]).value;
      forall m | 0 <= m < |w| ensures Opening(all, w, m) == Opening(ps, w, m) {
        SharesItself(ps, i, m);
        FirstSharingPush(ps, "*", w, m);
      }
      assert Spelled(all, w) == Spelled(ps, w);
    }
  }

  /** What a tree stores after any accepted run: each route under its spelling,
      and nothing else. */
  lemma {:induction false} StoredIsSpelled(ps: seq<string>, i: nat, v: Word)
    requires AllRooted(ps) && Run(ps).Some? && i < |ps| && WordOf(ps[i]).Some?
    ensures Run(ps).value.root.Some?
    ensures Lookup(Run(ps).value.root.value, v) == Some(i) <==> v == Spelled(ps, WordOf(ps[i]).value)
  {
    RunSpells(ps);
    RunIsBooked(ps);
    RunIsTidy(ps);
    var t, w := Run(ps).value.root.value, WordOf(ps[i]).value;
    assert Spells(t, ps, i);
    TrackFinds(t, w, i);
    assert AllStored(Some(t))[i] == 1;
    if Lookup(t, v) == Some(i) {
      FoundAtTrack(t, v, w, i);
    }
  }

  /** Where the kinds agree every route is spelled as itself. */
  lemma {:induction false} AgreeingSpelling(ps: seq<string>, i: nat)
    requires AllRooted(ps) && Run(ps).Some? && KindConsistent(ps) && i < |ps| && WordOf(ps[i]).Some?
    ensures Spelled(ps, WordOf(ps[i]).value) == WordOf(ps[i]).value
  {
    StoredIffKindsAgree(ps);
    assert StoredAsItself(ps, i);
    StoredIsSpelled(ps, i, WordOf(ps[i]).value);
  }

  // ---- diverted catch-alls ----------------------------------------------------------

  /** The pattern ends in a catch-all, and each of its wildcards, that one
      included, was first opened by a parameter. */
  predicate Diverted(ps: seq<string>, i: nat)
    requires i < |ps| && WordOf(ps[i]).Some?
  {
    var w := WordOf(ps[i]).value;
    EndsInStar(w) && forall m | 0 <= m < |w| && !w[m].Lit? :: Opening(ps, w, m) == Par
  }

  /** Words with the same spots end at the same leaf. */
  lemma {:induction false} SameLeaf(n: Tree, u: Word, i: nat, v: Word, j: nat)
    requires Tidy(n) && Meets(n, u) && Taken(n, u, i) && Meets(n, v) && Taken(n, v, j) && SameSpots(u, v)
    ensures i == j
    decreases n
  {
    var k := |n.kind.Label()|;
    if |u| > k {
      var x := SharedChild(n, u, i, v, j, |u| - 1);
      TrackThrough(n, u, x);
      TrackThrough(n, v, x);
      TakenBelow(n, u, i);
      TakenBelow(n, v, j);
      SameSpotsRest(u, v, k);
      SameLeaf(n.children[x], u[k..], i, v[k..], j);
    }
  }

  lemma {:induction false} SameSpotsRest(u: Word, v: Word, k: nat)
    requires SameSpots(u, v) && k <= |u|
    ensures SameSpots(u[k..], v[k..])
  {
    assert forall m | 0 <= m < |u| - k :: u[k..][m] == u[k + m] && v[k..][m] == v[k + m];
  }

  /** A last parameter is spelled as one. */
  lemma {:induction false} LastParamKept(ps: seq<string>, i: nat)
    requires AllRooted(ps) && Run(ps).Some? && i < |ps| && WordOf(ps[i]).Some?
    requires var w := WordOf(ps[i]).value; w != [] && w[|w| - 1] == Par
    ensures var w := WordOf(ps[i]).value; Spelled(ps, w)[|w| - 1] == Par
  {
    var w := WordOf(ps[i]).value;
    var m := |w| - 1;
    SharesItself(ps, i, m);
    var j := FirstSharing(ps, w, m).value;
    var v := WordOf(ps[j]).value;
    RootedWord(ps[j]);
    if v[m] == Star {
      RunSpells(ps);
      RunIsTidy(ps);
      var t := Run(ps).value.root.value;
      assert Spells(t, ps, i) && Spells(t, ps, j);
      SameLeaf(t, w, i, v, j);
    }
  }

  /** A route whose spelling has a catch-all only at the end is stored as itself
      unless it is diverted; then it is stored with a parameter for its catch-all. */
  lemma {:induction false} SpelledOrDiverted(ps: seq<string>, i: nat)
    requires AllRooted(ps) && Run(ps).Some? && i < |ps| && WordOf(ps[i]).Some?
    requires StarLast(Spelled(ps, WordOf(ps[i]).value))
    ensures var w := WordOf(ps[i]).value;
      Spelled(ps, w) == if Diverted(ps, i) then w[..|w| - 1] + [Par] else w
  {
    var w := WordOf(ps[i]).value;
    RootedWord(ps[i]);
    if w[|w| - 1] == Par {
      LastParamKept(ps, i);
    }
    DivertedBySpelling(ps, i);
    SpellingCases(Spelled(ps, w), w, Diverted(ps, i));
  }

  lemma {:induction false} DivertedBySpelling(ps: seq<string>, i: nat)
    requires i < |ps| && WordOf(ps[i]).Some?
    ensures var w := WordOf(ps[i]).value;
      Diverted(ps, i) <==> EndsInStar(w) && forall k | 0 <= k < |w| && !w[k].Lit? :: Spelled(ps, w)[k] == Par
  {
    var w := WordOf(ps[i]).value;
    assert forall k | 0 <= k < |w| :: Opening(ps, w, k) == Spelled(ps, w)[k];
  }

  /** Words with the same spots in which a catch-all can only be last. */
  lemma {:induction false} SpellingCases(v: Word, w: Word, diverted: bool)
    requires w != [] && SameSpots(v, w) && StarLast(v) && StarLast(w)
    requires w[|w| - 1] == Par ==> v[|w| - 1] == Par
    requires diverted <==> EndsInStar(w) && forall k | 0 <= k < |w| && !w[k].Lit? :: v[k] == Par
    ensures v == if diverted then w[..|w| - 1] + [Par] else w
  {
    var m := |w| - 1;
    assert forall k | 0 <= k < m :: v[k] != Star && w[k] != Star;
    assert v == w[..m] + [v[m]] && w == w[..m] + [w[m]];
  }

  /** A diverted route is stored with parameters for all its wildcards. */
  lemma {:induction false} DivertedSpelling(ps: seq<string>, i: nat)
    requires AllRooted(ps) && i < |ps| && WordOf(ps[i]).Some? && Diverted(ps, i)
    ensures var w := WordOf(ps[i]).value; Spelled(ps, w) == w[..|w| - 1] + [Par]
  {
    var w := WordOf(ps[i]).value;
    var v := Spelled(ps, w);
    RootedWord(ps[i]);
    assert forall k | 0 <= k < |w| - 1 :: v[k] == w[k];
  }
}
