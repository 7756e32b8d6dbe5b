/** The order of insertion is immaterial: permuted runs are accepted alike,
    build the same tree up to sibling order and route numbers, and recognize
    every path as the same pattern with the same captures. */
module OrderIndependence {
  import opened Options
  import opened Patterns
  import opened Trie
  import opened Insertion
  import opened Recognition
  import opened Refinement
  import opened Routing
  import opened Matching
  import opened Guarantees

  // ---- permuted pattern lists -----------------------------------------------

  ghost predicate Permuted(ps: seq<string>, qs: seq<string>) {
    multiset(ps) == multiset(qs)
  }

  /** In a list without repetitions equal elements stand at equal places. */
  ghost predicate NoRepeats(ps: seq<string>) {
    forall i, j | 0 <= i < j < |ps| :: ps[i] != ps[j]
  }

  lemma {:induction false} CountOnce(ps: seq<string>)
    requires NoRepeats(ps)
    ensures forall p :: multiset(ps)[p] <= 1
    decreases |ps|
  {
    if ps != [] {
      var front, p := ps[..|ps| - 1], ps[|ps| - 1];
      assert ps == front + [p];
      CountOnce(front);
      assert p !in front;
    }
  }

  lemma {:induction false} CountTwice(qs: seq<string>, i: nat, j: nat)
    requires i < j < |qs| && qs[i] == qs[j]
    ensures multiset(qs)[qs[i]] >= 2
  {
    assert qs == qs[..i] + [qs[i]] + qs[i + 1..j] + [qs[j]] + qs[j + 1..];
  }

  lemma {:induction false} PermutedKeepsNoRepeats(ps: seq<string>, qs: seq<string>)
    requires Permuted(ps, qs) && NoRepeats(ps)
    ensures NoRepeats(qs)
  {
    CountOnce(ps);
    forall i, j | 0 <= i < j < |qs| ensures qs[i] != qs[j] {
      if qs[i] == qs[j] {
        CountTwice(qs, i, j);
      }
    }
  }

  lemma {:induction false} PermutedMembers(ps: seq<string>, qs: seq<string>)
    requires Permuted(ps, qs)
    ensures forall p :: p in ps <==> p in qs
    ensures |ps| == |qs|
  {
    forall p ensures p in ps <==> p in qs {
      assert p in ps <==> p in multiset(ps);
      assert p in qs <==> p in multiset(qs);
    }
    assert |ps| == |multiset(ps)| && |qs| == |multiset(qs)|;
  }

  lemma {:induction false} ClashIsReflexive(p: string)
    requires Fine(p)
    ensures Clash(p, p)
  {
    if p != "*" {
      EqualWordsConflict(Erase(p, 0).value);
    }
  }

  lemma {:induction false} ClashIsSymmetric(p: string, q: string)
    ensures Clash(p, q) == Clash(q, p)
    ensures KindsAgree(p, q) == KindsAgree(q, p)
  {
    if WordOf(p).Some? && WordOf(q).Some? {
      ConflictIsSymmetric(WordOf(p).value, WordOf(q).value);
    }
  }

  /** Acceptance does not depend on the order. */
  lemma {:induction false} PermutationsAreAccepted(ps: seq<string>, qs: seq<string>)
    requires Accepted(ps) && Permuted(ps, qs)
    ensures Accepted(qs)
  {
    RunRepresents(ps);
    PermutedMembers(ps, qs);
    assert NoRepeats(ps) by {
      forall i, j | 0 <= i < j < |ps| ensures ps[i] != ps[j] {
        ClashIsReflexive(ps[i]);
      }
    }
    PermutedKeepsNoRepeats(ps, qs);
    forall i | 0 <= i < |qs| ensures Rooted(qs[i]) && Fine(qs[i]) {
      assert qs[i] in ps;
    }
    forall i, j | 0 <= i < j < |qs| ensures !Clash(qs[i], qs[j]) && KindsAgree(qs[i], qs[j]) {
      assert qs[i] in ps && qs[j] in ps;
      var a :| 0 <= a < |ps| && ps[a] == qs[i];
      var b :| 0 <= b < |ps| && ps[b] == qs[j];
      ClashIsSymmetric(qs[i], qs[j]);
      if a < b {
        assert !Clash(ps[a], ps[b]);
      } else {
        assert !Clash(ps[b], ps[a]);
      }
    }
    RunRepresents(qs);
  }

  // ---- the same answers ---------------------------------------------------------

  /** An answer in terms of patterns instead of route numbers. */
  datatype Verdict = Route(pattern: string) | NoRoute | Near(patterns: set<string>)

  ghost function Describe(ps: seq<string>, o: Outcome<set<nat>>): Verdict
    requires o.Matched? ==> o.i < |ps|
    requires o.PartiallyMatched? ==> forall i | i in o.candidates :: i < |ps|
  {
    match o
    case Matched(i) => Route(ps[i])
    case NotMatched => NoRoute
    case PartiallyMatched(c) => Near(set i | i in c :: ps[i])
  }

  ghost predicate InRange(ps: seq<string>, o: Outcome<set<nat>>) {
    && (o.Matched? ==> o.i < |ps|)
    && (o.PartiallyMatched? ==> forall i | i in o.candidates :: i < |ps|)
  }

  lemma {:induction false} LiveByMembers(ps: seq<string>, qs: seq<string>, u: Word)
    requires forall p :: p in ps ==> p in qs
    requires Live(WordsOf(ps), u)
    ensures Live(WordsOf(qs), u)
  {
    var i :| 0 <= i < |ps| && Extends(WordsOf(ps), i, u);
    assert ps[i] in qs;
    var j :| 0 <= j < |qs| && qs[j] == ps[i];
    assert Extends(WordsOf(qs), j, u);
  }

  ghost predicate SameMembers(ps: seq<string>, qs: seq<string>) {
    && (forall p :: p in ps <==> p in qs)
    && Distinct(WordsOf(ps)) && Distinct(WordsOf(qs))
  }

  lemma {:induction false} LiveSame(ps: seq<string>, qs: seq<string>, u: Word)
    requires forall p :: p in ps <==> p in qs
    ensures Live(WordsOf(ps), u) <==> Live(WordsOf(qs), u)
  {
    if Live(WordsOf(ps), u) {
      LiveByMembers(ps, qs, u);
    }
    if Live(WordsOf(qs), u) {
      LiveByMembers(qs, ps, u);
    }
  }

  lemma {:induction false} FindByMembers(ps: seq<string>, qs: seq<string>, u: Word)
    requires SameMembers(ps, qs)
    ensures Find(WordsOf(ps), u).Some? <==> Find(WordsOf(qs), u).Some?
    ensures Find(WordsOf(ps), u).Some? ==> ps[Find(WordsOf(ps), u).value] == qs[Find(WordsOf(qs), u).value]
  {
    if Find(WordsOf(ps), u).Some? {
      var i := Find(WordsOf(ps), u).value;
      assert ps[i] in qs;
      var j :| 0 <= j < |qs| && qs[j] == ps[i];
      FindIs(WordsOf(qs), j, u);
    }
    if Find(WordsOf(qs), u).Some? {
      var j := Find(WordsOf(qs), u).value;
      assert qs[j] in ps;
      var i :| 0 <= i < |ps| && ps[i] == qs[j];
      FindIs(WordsOf(ps), i, u);
    }
  }

  lemma {:induction false} AliveByMembers(ps: seq<string>, qs: seq<string>, u: Word)
    requires SameMembers(ps, qs)
    ensures (set i | i in Alive(WordsOf(ps), u) :: ps[i]) == (set i | i in Alive(WordsOf(qs), u) :: qs[i])
  {
    var a, b := set i | i in Alive(WordsOf(ps), u) :: ps[i], set i | i in Alive(WordsOf(qs), u) :: qs[i];
    forall p | p in a ensures p in b {
      var i :| i in Alive(WordsOf(ps), u) && ps[i] == p;
      assert ps[i] in qs;
      var j :| 0 <= j < |qs| && qs[j] == p;
      assert Extends(WordsOf(qs), j, u);
    }
    forall p | p in b ensures p in a {
      var i :| i in Alive(WordsOf(qs), u) && qs[i] == p;
      assert qs[i] in ps;
      var j :| 0 <= j < |ps| && ps[j] == p;
      assert Extends(WordsOf(ps), j, u);
    }
  }

  lemma {:induction false} ForcedByMembers(ps: seq<string>, qs: seq<string>, u: Word)
    requires SameMembers(ps, qs) && Live(WordsOf(ps), u)
    ensures ForcedLiteral(WordsOf(ps), u) == ForcedLiteral(WordsOf(qs), u)
  {
    LiveByMembers(ps, qs, u);
    forall c ensures Forced(WordsOf(ps), u, c) <==> Forced(WordsOf(qs), u, c) {
      if Forced(WordsOf(ps), u, c) {
        ForcedTransfers(ps, qs, u, c);
      }
      if Forced(WordsOf(qs), u, c) {
        ForcedTransfers(qs, ps, u, c);
      }
    }
    forall c, d | Forced(WordsOf(ps), u, c) && Forced(WordsOf(ps), u, d) ensures c == d {
      var i :| 0 <= i < |ps| && Extends(WordsOf(ps), i, u);
      ExtendsByOne(WordsOf(ps), i, u, Lit(c));
      ExtendsByOne(WordsOf(ps), i, u, Lit(d));
    }
  }

  lemma {:induction false} ForcedTransfers(ps: seq<string>, qs: seq<string>, u: Word, c: char)
    requires SameMembers(ps, qs) && Forced(WordsOf(ps), u, c)
    ensures Forced(WordsOf(qs), u, c)
  {
    LiveByMembers(ps, qs, u);
    forall j | 0 <= j < |qs| && Extends(WordsOf(qs), j, u) ensures Extends(WordsOf(qs), j, u + [Lit(c)]) {
      assert qs[j] in ps;
      var i :| 0 <= i < |ps| && ps[i] == qs[j];
      assert Extends(WordsOf(ps), i, u);
    }
  }

  /** Outcomes that name the same patterns. */
  ghost predicate SameVerdict(ps: seq<string>, qs: seq<string>, x: Outcome<set<nat>>, y: Outcome<set<nat>>) {
    InRange(ps, x) && InRange(qs, y) && Describe(ps, x) == Describe(qs, y)
  }

  ghost predicate SameReply(ps: seq<string>, qs: seq<string>, r: Reply<set<nat>>, s: Reply<set<nat>>) {
    SameVerdict(ps, qs, r.outcome, s.outcome) && r.captures == s.captures
  }

  lemma {:induction false} AliveReply(ps: seq<string>, qs: seq<string>, u: Word, caps: Option<Captures>)
    requires SameMembers(ps, qs)
    ensures SameReply(ps, qs, Reply(PartiallyMatched(Alive(WordsOf(ps), u)), caps),
                      Reply(PartiallyMatched(Alive(WordsOf(qs), u)), caps))
  {
    AliveByMembers(ps, qs, u);
  }

  lemma {:induction false} FoundReply(ps: seq<string>, qs: seq<string>, u: Word, caps: Option<Captures>)
    requires SameMembers(ps, qs)
    ensures SameReply(ps, qs, Reply(FoundOr(WordsOf(ps), u), caps), Reply(FoundOr(WordsOf(qs), u), caps))
  {
    FindByMembers(ps, qs, u);
    AliveReply(ps, qs, u, caps);
  }

  lemma {:induction false} ForcedIsLive(words: Words, u: Word, c: char)
    requires Live(words, u) && ForcedLiteral(words, u) == Some(c)
    ensures Live(words, u + [Lit(c)])
  {
    var i :| 0 <= i < |words| && Extends(words, i, u);
    assert Extends(words, i, u + [Lit(c)]);
  }

  /** Filtering gives the same verdict and captures for the same set of patterns. */
  lemma {:induction false} FilterByMembers(ps: seq<string>, qs: seq<string>, u: Word, path: string, k: nat, over: bool,
                                           caps: Option<Captures>)
    requires SameMembers(ps, qs) && k <= |path| && Live(WordsOf(ps), u)
    ensures Live(WordsOf(qs), u)
    ensures SameReply(ps, qs, Filter(WordsOf(ps), u, path, k, over, caps), Filter(WordsOf(qs), u, path, k, over, caps))
    decreases Longest(WordsOf(ps)) - |u|, 1
  {
    LiveSame(ps, qs, u);
    LiveSame(ps, qs, u + [Star]);
    LiveSame(ps, qs, u + [Par]);
    FindByMembers(ps, qs, u);
    if k == |path| && !over && Find(WordsOf(ps), u).Some? {
      FoundReply(ps, qs, u, caps);
    } else if Live(WordsOf(ps), u + [Star]) {
      FoundReply(ps, qs, u + [Star], SetWildcard(caps, (k, |path|)));
    } else if Live(WordsOf(ps), u + [Par]) {
      var e := SegmentEnd(path, k);
      if e < |path| {
        FilterByMembers(ps, qs, u + [Par], path, e, false, PushParam(caps, (k, e)));
      } else {
        FoundReply(ps, qs, u + [Par], PushParam(caps, (k, e)));
      }
    } else {
      FilterLiteral(ps, qs, u, path, k, over, caps);
    }
  }

  lemma {:induction false} FilterLiteral(ps: seq<string>, qs: seq<string>, u: Word, path: string, k: nat, over: bool,
                                         caps: Option<Captures>)
    requires SameMembers(ps, qs) && k <= |path| && Live(WordsOf(ps), u) && Live(WordsOf(qs), u)
    requires !Live(WordsOf(ps), u + [Star]) && !Live(WordsOf(ps), u + [Par])
    requires !Live(WordsOf(qs), u + [Star]) && !Live(WordsOf(qs), u + [Par])
    requires !(k == |path| && !over && (Find(WordsOf(ps), u).Some? || Find(WordsOf(qs), u).Some?))
    ensures SameReply(ps, qs, Filter(WordsOf(ps), u, path, k, over, caps), Filter(WordsOf(qs), u, path, k, over, caps))
    decreases Longest(WordsOf(ps)) - |u|, 0
  {
    ForcedByMembers(ps, qs, u);
    if k < |path| {
      LiveSame(ps, qs, u + [Lit(path[k])]);
      if Live(WordsOf(ps), u + [Lit(path[k])]) {
        FilterByMembers(ps, qs, u + [Lit(path[k])], path, k + 1, false, caps);
      } else if ForcedLiteral(WordsOf(ps), u).None? {
        AliveReply(ps, qs, u, caps);
      }
    } else if ForcedLiteral(WordsOf(ps), u).Some? {
      var c := ForcedLiteral(WordsOf(ps), u).value;
      ForcedIsLive(WordsOf(ps), u, c);
      FilterByMembers(ps, qs, u + [Lit(c)], path, k, true, caps);
    } else {
      AliveReply(ps, qs, u, caps);
    }
  }

  /** The verdict of a router on a path, in terms of its patterns. */
  ghost function VerdictOn(ps: seq<string>, path: string): Reply<set<nat>>
    requires Run(ps).Some?
  {
    AsSet(Recognize(Run(ps).value, path))
  }

  /** Permuted runs give every path the same verdict and the same captures. */
  lemma {:induction false} AnswersAgree(ps: seq<string>, qs: seq<string>, path: string)
    requires Accepted(ps) && Permuted(ps, qs)
    ensures Accepted(qs)
    ensures var r, s := VerdictOn(ps, path), VerdictOn(qs, path);
      && InRange(ps, r.outcome) && InRange(qs, s.outcome)
      && Describe(ps, r.outcome) == Describe(qs, s.outcome) && r.captures == s.captures
  {
    PermutationsAreAccepted(ps, qs);
    PermutedMembers(ps, qs);
    RunRepresents(ps);
    RunRepresents(qs);
    if path == "*" {
    } else if Live(WordsOf(ps), []) {
      FilterByMembers(ps, qs, [], path, 0, false, None);
      RecognizeIsFilter(ps, path);
      RecognizeIsFilter(qs, path);
    } else {
      if Recognize(Run(ps).value, path) != Reply(NotMatched, None) {
        SomePatternIsLive(ps, path);
      }
      if Recognize(Run(qs).value, path) != Reply(NotMatched, None) {
        SomePatternIsLive(qs, path);
        LiveByMembers(qs, ps, []);
      }
    }
  }

  // ---- the same tree --------------------------------------------------------------

  ghost predicate SameLeaf(ps: seq<string>, a: Option<nat>, qs: seq<string>, b: Option<nat>) {
    match (a, b)
    case (None, None) => true
    case (Some(i), Some(j)) => i < |ps| && j < |qs| && ps[i] == qs[j]
    case _ => false
  }

  ghost predicate SameCandidates(ps: seq<string>, a: seq<nat>, qs: seq<string>, b: seq<nat>) {
    && (forall i | i in a :: i < |ps| && exists j :: j in b && j < |qs| && qs[j] == ps[i])
    && (forall j | j in b :: j < |qs| && exists i :: i in a && i < |ps| && ps[i] == qs[j])
  }

  /** Equal up to the order of siblings and the numbers of routes. */
  ghost predicate SameTree(ps: seq<string>, s: Tree, qs: seq<string>, t: Tree)
    decreases s, 0
  {
    && s.kind == t.kind
    && SameLeaf(ps, s.leaf, qs, t.leaf)
    && SameCandidates(ps, s.candidates, qs, t.candidates)
    && |s.children| == |t.children|
    && (forall j | 0 <= j < |s.children| :: HasTwin(ps, s.children[j], qs, t.children))
  }

  ghost predicate HasTwin(ps: seq<string>, c: Tree, qs: seq<string>, children: seq<Tree>)
    decreases c, 1
  {
    exists m | 0 <= m < |children| :: SameTree(ps, c, qs, children[m])
  }

  /** The trees store the same patterns. */
  ghost predicate SameMeaning(ps: seq<string>, s: Tree, qs: seq<string>, t: Tree) {
    forall w :: SameLeaf(ps, Lookup(s, w), qs, Lookup(t, w))
  }

  /** A static label of a valid trie is as long as its words allow. */
  lemma {:induction false} LabelIsLongest(ps: seq<string>, s: Tree, qs: seq<string>, t: Tree)
    requires Valid(s) && Valid(t) && SameMeaning(ps, s, qs, t)
    requires s.kind.Static? && t.kind.Static? && s.kind.Label()[0] == t.kind.Label()[0]
    ensures |t.kind.s| <= |s.kind.s| && t.kind.Label() <= s.kind.Label()
  {
    var a, b := s.kind.Label(), t.kind.Label();
    var w := SomeWord(s);
    assert SameLeaf(ps, Lookup(s, w), qs, Lookup(t, w));
    assert a <= w && b <= w;
    if |a| < |b| {
      LookupHere(s);
      assert SameLeaf(ps, Lookup(s, a), qs, Lookup(t, a));
      forall j | 0 <= j < |s.children| ensures s.children[j].HeadIs(w[|a|]) {
        var v := SomeWord(s.children[j]);
        LookupBelow(s, j, v);
        assert SameLeaf(ps, Lookup(s, a + v), qs, Lookup(t, a + v));
        assert b[|a|] == (a + v)[|a|] == w[|a|];
      }
      HeadsDiffer(s.children);
    }
  }

  lemma {:induction false} HeadsDiffer(children: seq<Tree>)
    requires Siblings(children)
    ensures |children| > 1 ==> children[0].kind.Label()[0] != children[1].kind.Label()[0]
  {
  }

  lemma {:induction false} SameKind(ps: seq<string>, s: Tree, qs: seq<string>, t: Tree)
    requires Valid(s) && Valid(t) && SameMeaning(ps, s, qs, t)
    requires s.kind.Label() != [] && t.kind.Label() != [] && s.kind.Label()[0] == t.kind.Label()[0]
    ensures s.kind == t.kind
  {
    if s.kind.Static? {
      LabelIsLongest(ps, s, qs, t);
      SameMeaningFlips(ps, s, qs, t);
      LabelIsLongest(qs, t, ps, s);
      assert forall i | 0 <= i < |s.kind.s| :: s.kind.Label()[i] == t.kind.Label()[i];
      assert s.kind.s == t.kind.s;
    }
  }

  lemma {:induction false} SameMeaningFlips(ps: seq<string>, s: Tree, qs: seq<string>, t: Tree)
    requires SameMeaning(ps, s, qs, t)
    ensures SameMeaning(qs, t, ps, s)
  {
    forall w ensures SameLeaf(qs, Lookup(t, w), ps, Lookup(s, w)) {
      assert SameLeaf(ps, Lookup(s, w), qs, Lookup(t, w));
    }
  }

  lemma {:induction false} ChildrenCorrespond(ps: seq<string>, s: Tree, qs: seq<string>, t: Tree, j: nat)
    returns (m: nat)
    requires Valid(s) && Valid(t) && SameMeaning(ps, s, qs, t) && s.kind == t.kind && j < |s.children|
    ensures m < |t.children| && t.children[m].HeadIs(s.children[j].kind.Label()[0])
    ensures SameMeaning(ps, s.children[j], qs, t.children[m])
  {
    var name := s.kind.Label();
    var x := s.children[j].kind.Label()[0];
    var v := SomeWord(s.children[j]);
    LookupBelow(s, j, v);
    assert SameLeaf(ps, Lookup(s, name + v), qs, Lookup(t, name + v));
    assert (name + v)[|name|..] == v && v[0] == x;
    assert Below(t, v).Some?;
    m := Pick(t.children, x);
    forall w ensures SameLeaf(ps, Lookup(s.children[j], w), qs, Lookup(t.children[m], w)) {
      if w != [] && w[0] == x {
        LookupBelow(s, j, w);
        LookupBelow(t, m, w);
        assert SameLeaf(ps, Lookup(s, name + w), qs, Lookup(t, name + w));
      }
    }
  }

  lemma {:induction false} CandidatesCorrespond(ps: seq<string>, s: Tree, qs: seq<string>, t: Tree)
    requires Valid(s) && Valid(t) && SameMeaning(ps, s, qs, t)
    ensures SameCandidates(ps, s.candidates, qs, t.candidates)
  {
    forall i | i in s.candidates
      ensures i < |ps| && exists j :: j in t.candidates && j < |qs| && qs[j] == ps[i]
    {
      var w := IndexedIsStored(s, i);
      assert SameLeaf(ps, Lookup(s, w), qs, Lookup(t, w));
      StoredIsIndexed(t, w);
    }
    forall j | j in t.candidates
      ensures j < |qs| && exists i :: i in s.candidates && i < |ps| && ps[i] == qs[j]
    {
      var w := IndexedIsStored(t, j);
      assert SameLeaf(ps, Lookup(s, w), qs, Lookup(t, w));
      StoredIsIndexed(s, w);
    }
  }

  ghost function Heads(children: seq<Tree>): seq<Token>
    requires Siblings(children)
  {
    seq(|children|, j requires 0 <= j < |children| => children[j].kind.Label()[0])
  }

  /** As many children: sending each child to the one with the same first token is one-to-one. */
  lemma {:induction false} NoMoreChildren(ps: seq<string>, s: Tree, qs: seq<string>, t: Tree)
    requires Valid(s) && Valid(t) && SameMeaning(ps, s, qs, t) && s.kind == t.kind
    ensures |s.children| <= |t.children|
  {
    var a, b := Heads(s.children), Heads(t.children);
    forall x | x in a ensures x in b {
      var j :| 0 <= j < |a| && a[j] == x;
      var m := ChildrenCorrespond(ps, s, qs, t, j);
      assert b[m] == x;
    }
    CountByMembers(a, b);
  }

  lemma {:induction false} CountByMembers<T>(a: seq<T>, b: seq<T>)
    requires forall x :: x in a ==> x in b
    requires forall i, j | 0 <= i < j < |a| :: a[i] != a[j]
    ensures |a| <= |b|
    decreases |a|
  {
    if a != [] {
      assert a[0] in a;
      var m :| 0 <= m < |b| && b[m] == a[0];
      var rest := b[..m] + b[m + 1..];
      forall x | x in a[1..] ensures x in rest {
        assert x in a;
        var i :| 0 <= i < |b| && b[i] == x;
        assert x == rest[if i < m then i else i - 1];
      }
      CountByMembers(a[1..], rest);
    }
  }

  lemma {:induction false} NodesAgree(ps: seq<string>, s: Tree, qs: seq<string>, t: Tree)
    requires Valid(s) && Valid(t) && SameMeaning(ps, s, qs, t)
    requires s.kind.Label() != [] && t.kind.Label() != [] && s.kind.Label()[0] == t.kind.Label()[0]
    ensures s.kind == t.kind && SameLeaf(ps, s.leaf, qs, t.leaf)
    ensures SameCandidates(ps, s.candidates, qs, t.candidates)
    ensures |s.children| == |t.children|
  {
    SameKind(ps, s, qs, t);
    LookupHere(s);
    LookupHere(t);
    assert SameLeaf(ps, Lookup(s, s.kind.Label()), qs, Lookup(t, s.kind.Label()));
    CandidatesCorrespond(ps, s, qs, t);
    NoMoreChildren(ps, s, qs, t);
    SameMeaningFlips(ps, s, qs, t);
    NoMoreChildren(qs, t, ps, s);
  }

  /** A valid trie is determined by the patterns it stores. */
  lemma {:induction false} TreesAgree(ps: seq<string>, s: Tree, qs: seq<string>, t: Tree)
    requires Valid(s) && Valid(t) && SameMeaning(ps, s, qs, t)
    requires s.kind.Label() != [] && t.kind.Label() != [] && s.kind.Label()[0] == t.kind.Label()[0]
    ensures SameTree(ps, s, qs, t)
    decreases s, 1
  {
    NodesAgree(ps, s, qs, t);
    forall j | 0 <= j < |s.children| ensures HasTwin(ps, s.children[j], qs, t.children) {
      TwinAgrees(ps, s, qs, t, j);
    }
    SameTreeFromParts(ps, s, qs, t);
  }

  lemma {:induction false} TwinAgrees(ps: seq<string>, s: Tree, qs: seq<string>, t: Tree, j: nat)
    requires Valid(s) && Valid(t) && SameMeaning(ps, s, qs, t) && s.kind == t.kind && j < |s.children|
    ensures HasTwin(ps, s.children[j], qs, t.children)
    decreases s, 0
  {
    var m := ChildrenCorrespond(ps, s, qs, t, j);
    TreesAgree(ps, s.children[j], qs, t.children[m]);
  }

  lemma {:induction false} SameTreeFromParts(ps: seq<string>, s: Tree, qs: seq<string>, t: Tree)
    requires s.kind == t.kind && SameLeaf(ps, s.leaf, qs, t.leaf)
    requires SameCandidates(ps, s.candidates, qs, t.candidates) && |s.children| == |t.children|
    requires forall j | 0 <= j < |s.children| :: HasTwin(ps, s.children[j], qs, t.children)
    ensures SameTree(ps, s, qs, t)
  {
  }

  /** Permuted runs build the same tree up to sibling order and route numbers. */
  lemma {:induction false} PermutedTreesAgree(ps: seq<string>, qs: seq<string>)
    requires Accepted(ps) && Permuted(ps, qs)
    ensures Accepted(qs)
    ensures var s, t := Run(ps).value.root, Run(qs).value.root;
      (s.Some? <==> t.Some?) && (s.Some? ==> SameTree(ps, s.value, qs, t.value))
  {
    PermutationsAreAccepted(ps, qs);
    PermutedMembers(ps, qs);
    RunRepresents(ps);
    RunRepresents(qs);
    var s, t := Run(ps).value.root, Run(qs).value.root;
    RootByMembers(ps, qs);
    RootByMembers(qs, ps);
    if s.Some? {
      forall w ensures SameLeaf(ps, Lookup(s.value, w), qs, Lookup(t.value, w)) {
        FindByMembers(ps, qs, w);
      }
      TreesAgree(ps, s.value, qs, t.value);
    }
  }

  lemma {:induction false} RootByMembers(ps: seq<string>, qs: seq<string>)
    requires Accepted(ps) && Accepted(qs) && forall p :: p in ps ==> p in qs
    ensures Run(ps).value.root.Some? ==> Run(qs).value.root.Some?
  {
    RunRepresents(ps);
    if Run(ps).value.root.Some? {
      var w := SomeWord(Run(ps).value.root.value);
      var i := Find(WordsOf(ps), w).value;
      assert ps[i] in qs && ps[i] != "*";
      RootOfPattern(qs, ps[i]);
    }
  }

  lemma {:induction false} RootOfPattern(qs: seq<string>, p: string)
    requires Accepted(qs) && p in qs && p != "*"
    ensures Run(qs).value.root.Some?
  {
    RunRepresents(qs);
  }
}
