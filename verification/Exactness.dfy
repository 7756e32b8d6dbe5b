/** When completeness holds: an accepted run answers every instance of every
    pattern with that pattern and its replacements if and only if the wildcard
    kinds of the patterns agree. */
module Exactness {
  import opened Options
  import opened Patterns
  import opened Trie
  import opened Leaves
  import opened Insertion
  import opened Recognition
  import opened Matching
  import opened Routing
  import opened Guarantees
  import opened Kinds
  import opened Bookkeeping
  import opened Tracks
  import opened Parameters

  // ---- what a walk finds -------------------------------------------------------------

  lemma {:induction false} CaptureAfterLiterals(name: Word, v: Word, spans: seq<Span>, caps: Option<Captures>)
    requires AllLits(name) && |spans| == Wilds(v)
    ensures Wilds(name + v) == Wilds(v)
    ensures Capture(name + v, spans, caps) == Capture(v, spans, caps)
    decreases |name|
  {
    if name == [] {
      assert name + v == v;
    } else {
      CaptureAfterLiterals(name[1..], v, spans, caps);
      assert (name + v)[1..] == name[1..] + v;
    }
  }

  lemma {:induction false} FillAfterLiterals(s: string, v: Word, args: seq<string>)
    requires |args| == Wilds(v)
    ensures Wilds(Lits(s) + v) == Wilds(v) && Fill(Lits(s) + v, args) == s + Fill(v, args)
    decreases |s|
  {
    if s == "" {
      assert Lits(s) + v == v;
    } else {
      FillAfterLiterals(s[1..], v, args);
      var w := Lits(s) + v;
      assert w[1..] == Lits(s[1..]) + v && w[0] == Lit(s[0]);
      assert s + Fill(v, args) == [s[0]] + (s[1..] + Fill(v, args));
    }
  }

  /** A walk that finds a route reads its captures off a word that finds the
      route too, in which a catch-all can only be last, and which re-expands to
      the path. */
  ghost predicate WalkFinds(n: Tree, r: Reply<seq<nat>>, v: Word, spans: seq<Span>, slack: string, path: string, k: nat,
                            caps: Option<Captures>) {
    && r.outcome.Matched? && Lookup(n, v) == Some(r.outcome.i) && StarLast(v)
    && Reexpands(v, spans, slack, path, k) && r.captures == Capture(v, spans, caps)
  }

  lemma {:induction false} StarLastAfter(name: Word, v: Word)
    requires StarLast(v) && forall i | 0 <= i < |name| :: name[i] != Star
    ensures StarLast(name + v)
  {
    assert forall i | |name| <= i < |name + v| :: (name + v)[i] == v[i - |name|];
  }

  /** A label that the path goes on past. */
  lemma {:induction false} PassedLabel(s: string, v: Word, spans: seq<Span>, slack: string, path: string, k: nat)
    requires k + |s| <= |path| && path[k..k + |s|] == s && Reexpands(v, spans, slack, path, k + |s|)
    ensures Reexpands(Lits(s) + v, spans, slack, path, k)
  {
    FillAfterLiterals(s, v, Texts(path, spans));
    assert path[k..] + slack == s + (path[k + |s|..] + slack);
    assert path[k..|path|] == path[k..] && path[k + |s|..|path|] == path[k + |s|..];
    SlackAfterLabel(Lits(s), v, spans, slack, path);
  }

  lemma {:induction false} SlackAfterLabel(name: Word, v: Word, spans: seq<Span>, slack: string, path: string)
    requires SlackIsLast(v, spans, slack, path)
    ensures SlackIsLast(name + v, spans, slack, path)
  {
    if slack != "" {
      var h: Word, x: Token :| v == h + Lits(slack) + [x] && !x.Lit?;
      assert name + v == (name + h) + Lits(slack) + [x];
    }
  }

  /** A label in which the path ends, before a wildcard. */
  lemma {:induction false} OverrunLabel(s: string, v: Word, spans: seq<Span>, path: string, k: nat)
    requires k <= |path| && path[k..] <= s && AllSlack(v, spans, "", path) && Reexpands(v, spans, "", path, |path|)
    ensures Reexpands(Lits(s) + v, spans, s[|path| - k..], path, k)
  {
    var slack := s[|path| - k..];
    FillAfterLiterals(s, v, Texts(path, spans));
    assert path[|path|..|path|] + "" == "";
    assert s == path[k..|path|] + slack;
    assert s + "" == s;
    var x: Token :| !x.Lit? && v == Lits("") + [x];
    assert Lits(s) + v == Lits(path[k..]) + Lits(slack) + [x];
  }

  lemma {:induction false} EndOfPath(path: string)
    ensures Reexpands([], [], "", path, |path|)
  {
    assert path[|path|..|path|] + "" == "";
  }

  lemma {:induction false} WalkWord(n: Tree, path: string, k: nat, caps: Option<Captures>)
    returns (v: Word, spans: seq<Span>, slack: string)
    requires Tidy(n) && k <= |path| && Walk(n, path, k, caps).outcome.Matched?
    ensures WalkFinds(n, Walk(n, path, k, caps), v, spans, slack, path, k, caps)
    ensures k == |path| && !n.kind.Static? ==> slack == "" && AllSlack(v, spans, "", path)
    decreases n, 1
  {
    LookupHere(n);
    match n.kind
    case Static(s) =>
      v, spans, slack := StaticWord(n, s, path, k, caps);
    case Param =>
      var e := SegmentEnd(path, k);
      if e == |path| {
        v, spans, slack := [Par], [(k, |path|)], "";
        LastCapture(path, k, Par, caps);
      } else {
        v, spans, slack := NextWord(n, path, e, PushParam(caps, (k, e)));
        ParamWord(v, spans, slack, path, k, e, caps);
        v, spans := [Par] + v, [(k, e)] + spans;
      }
    case CatchAll =>
      v, spans, slack := [Star], [(k, |path|)], "";
      LastCapture(path, k, Star, caps);
  }

  lemma {:induction false} LabelFinds(n: Tree, s: string, r: Reply<seq<nat>>, v: Word, spans: seq<Span>, slack: string,
                                      path: string, k: nat, caps: Option<Captures>)
    requires r.outcome.Matched? && Lookup(n, Lits(s) + v) == Some(r.outcome.i) && StarLast(v)
    requires Reexpands(Lits(s) + v, spans, slack, path, k) && |spans| == Wilds(v)
      && r.captures == Capture(v, spans, caps)
    ensures WalkFinds(n, r, Lits(s) + v, spans, slack, path, k, caps)
  {
    CaptureAfterLiterals(Lits(s), v, spans, caps);
    StarLastAfter(Lits(s), v);
  }

  lemma {:induction false} StaticWord(n: Tree, s: string, path: string, k: nat, caps: Option<Captures>)
    returns (v: Word, spans: seq<Span>, slack: string)
    requires Tidy(n) && n.kind == Static(s) && k <= |path| && Compare(n, s, path, k, caps).outcome.Matched?
    ensures WalkFinds(n, Compare(n, s, path, k, caps), v, spans, slack, path, k, caps)
    decreases n, 1, 0
  {
    var r, rest := Compare(n, s, path, k, caps), path[k..];
    if s == rest && n.leaf.Some? {
      v, spans, slack := [], [], "";
      LookupHere(n);
      EndOfPath(path);
      PassedLabel(s, [], [], "", path, k);
      assert Lits(s) + [] == Lits(s);
    } else if |s| < |rest| {
      v, spans, slack := NextWord(n, path, k + |s|, caps);
      PassedLabel(s, v, spans, slack, path, k);
    } else {
      v, spans, slack := NextWord(n, path, |path|, caps);
      OverrunLabel(s, v, spans, path, k);
      slack := s[|path| - k..];
    }
    LabelFinds(n, s, r, v, spans, slack, path, k, caps);
    v := Lits(s) + v;
  }

  lemma {:induction false} ParamWord(v: Word, spans: seq<Span>, slack: string, path: string, k: nat, e: nat,
                                     caps: Option<Captures>)
    requires k <= e && StarLast(v) && Reexpands(v, spans, slack, path, e)
    ensures StarLast([Par] + v) && Reexpands([Par] + v, [(k, e)] + spans, slack, path, k)
    ensures Capture([Par] + v, [(k, e)] + spans, caps) == Capture(v, spans, PushParam(caps, (k, e)))
  {
    ReachedParam(v, spans, slack, path, k, e, |path|);
    SlackUnderPrefix(Par, v, spans, [(k, e)], slack, path);
    ConsParam(v, "", Texts(path, spans), (k, e), spans, caps);
    StarLastAfter([Par], v);
  }

  /** The same below a node: the word goes on after its label. */
  lemma {:induction false} NextWord(n: Tree, path: string, k: nat, caps: Option<Captures>)
    returns (v: Word, spans: seq<Span>, slack: string)
    requires Tidy(n) && k <= |path| && Next(n, path, k, caps).outcome.Matched?
    ensures var r := Next(n, path, k, caps);
      && Lookup(n, n.kind.Label() + v) == Some(r.outcome.i) && StarLast(v)
      && Reexpands(v, spans, slack, path, k) && r.captures == Capture(v, spans, caps)
    ensures k == |path| ==> slack == "" && AllSlack(v, spans, "", path)
    decreases n, 0
  {
    var j := Choose(n.children, path, k);
    v, spans, slack := WalkWord(n.children[j], path, k, caps);
    LookupStarts(n.children[j], v);
    LookupBelow(n, j, v);
  }

  // ---- what a walk is bound to find ---------------------------------------------------

  predicate NoStar(v: Word) {
    forall i | 0 <= i < |v| :: v[i] != Star
  }

  lemma {:induction false} NoStarRest(v: Word, k: nat)
    requires NoStar(v) && k <= |v|
    ensures NoStar(v[k..])
  {
    assert forall i | 0 <= i < |v| - k :: v[k..][i] == v[k + i];
  }

  lemma {:induction false} SplitFill(s: string, x: Word, args: seq<string>, path: string, k: nat,
                                     caps: Option<Captures>)
    requires |args| == Wilds(Lits(s) + x) && Proper(Lits(s) + x, args)
    requires k <= |path| && path[k..] == Fill(Lits(s) + x, args)
    ensures |args| == Wilds(x) && Proper(x, args)
    ensures k + |s| <= |path| && path[k..] == s + path[k + |s|..] && path[k + |s|..] == Fill(x, args)
    ensures Capture(Lits(s) + x, SpansOf(Lits(s) + x, args, k), caps) == Capture(x, SpansOf(x, args, k + |s|), caps)
    decreases |s|
  {
    var w := Lits(s) + x;
    if s == "" {
      assert w == x;
    } else {
      assert w[1..] == Lits(s[1..]) + x && w[0] == Lit(s[0]);
      assert path[k..][0] == s[0];
      assert path[k + 1..] == path[k..][1..];
      SplitFill(s[1..], x, args, path, k + 1, caps);
      assert path[k..] == [s[0]] + (s[1..] + path[k + |s|..]);
    }
  }

  lemma {:induction false} FillNonEmpty(x: Word, args: seq<string>)
    requires x != [] && NoStar(x) && |args| == Wilds(x) && Proper(x, args)
    ensures Fill(x, args) != ""
    ensures x[0].Lit? ==> Fill(x, args)[0] == x[0].c
  {
  }

  lemma {:induction false} ParamFill(v: Word, args: seq<string>, path: string, k: nat, caps: Option<Captures>)
    requires WellFormed(v) && NoStar(v) && v != [] && v[0] == Par && |args| == Wilds(v) && Proper(v, args)
    requires k <= |path| && path[k..] == Fill(v, args)
    ensures var e, x := k + |args[0]|, v[1..];
      && e <= |path| && SegmentEnd(path, k) == e && path[e..] == Fill(x, args[1..]) && Proper(x, args[1..])
      && Capture(v, SpansOf(v, args, k), caps) == Capture(x, SpansOf(x, args[1..], e), PushParam(caps, (k, e)))
      && (e == |path| <==> x == [])
  {
    var a, x := args[0], v[1..];
    var e := k + |a|;
    assert path[k..] == a + Fill(x, args[1..]);
    assert path[e..] == path[k..][|a|..] == Fill(x, args[1..]);
    assert forall m | k <= m < e :: path[m] == a[m - k];
    if x != [] {
      NoStarRest(v, 1);
      FillNonEmpty(x, args[1..]);
      assert v[1] == x[0];
      assert path[e..][0] == '/';
    }
    SegmentEndIs(path, k, e);
    assert SpansOf(v, args, k)[1..] == SpansOf(x, args[1..], e);
  }

  lemma {:induction false} ChosenChild(n: Tree, j: nat, x: Word, path: string, k: nat)
    requires Siblings(n.children) && j < |n.children| && x != [] && x[0] != Star && n.children[j].HeadIs(x[0])
    requires k < |path| && (x[0].Lit? ==> path[k] == x[0].c)
    ensures Choose(n.children, path, k) == j
  {
    assert n.children[j].kind.Label()[0] == x[0];
    assert x[0].Lit? <==> n.children[j].kind.Static?;
  }

  /** A word without a catch-all that finds a route is found by its own
      instances, whatever else is stored. */
  lemma {:induction false} WalkFollows(n: Tree, v: Word, i: nat, args: seq<string>, path: string, k: nat,
                                       caps: Option<Captures>)
    requires Tidy(n) && Lookup(n, v) == Some(i) && WellFormed(v) && NoStar(v)
    requires |args| == Wilds(v) && Proper(v, args) && k <= |path| && path[k..] == Fill(v, args)
    ensures Walk(n, path, k, caps) == Reply(Matched(i), Capture(v, SpansOf(v, args, k), caps))
    decreases n, 2
  {
    var j, x := LookupSplits(n, v);
    match n.kind
    case Static(s) => StaticFollows(n, s, i, j, x, args, path, k, caps);
    case Param => ParamFollows(n, i, j, x, args, path, k, caps);
    case CatchAll =>
  }

  /** What a node holds for the rest `x` of a word: its leaf, or a child's route. */
  ghost predicate Leads(n: Tree, i: nat, j: nat, x: Word) {
    if x == [] then n.leaf == Some(i)
    else j < |n.children| && n.children[j].HeadIs(x[0]) && Lookup(n.children[j], x) == Some(i)
  }

  lemma {:induction false} StaticFollows(n: Tree, s: string, i: nat, j: nat, x: Word, args: seq<string>,
                                         path: string, k: nat, caps: Option<Captures>)
    requires Tidy(n) && n.kind == Static(s) && Leads(n, i, j, x) && WellFormed(Lits(s) + x) && NoStar(Lits(s) + x)
    requires |args| == Wilds(Lits(s) + x) && Proper(Lits(s) + x, args)
    requires k <= |path| && path[k..] == Fill(Lits(s) + x, args)
    ensures Compare(n, s, path, k, caps)
      == Reply(Matched(i), Capture(Lits(s) + x, SpansOf(Lits(s) + x, args, k), caps))
    decreases n, 1
  {
    StaticEntry(n, s, x, args, path, k, caps);
    WordRest(Lits(s), x);
    if x != [] {
      NextFollows(n, i, j, x, args, path, k + |s|, caps);
    } else {
      NothingCaptured(args, k + |s|, caps);
    }
  }

  /** Past the label of a static node only the rest of the word is left. */
  lemma {:induction false} StaticEntry(n: Tree, s: string, x: Word, args: seq<string>, path: string, k: nat,
                                       caps: Option<Captures>)
    requires |args| == Wilds(Lits(s) + x) && Proper(Lits(s) + x, args) && NoStar(Lits(s) + x)
    requires k <= |path| && path[k..] == Fill(Lits(s) + x, args) && (x == [] ==> n.leaf.Some?)
    ensures |args| == Wilds(x) && Proper(x, args) && k + |s| <= |path| && path[k + |s|..] == Fill(x, args)
    ensures Capture(Lits(s) + x, SpansOf(Lits(s) + x, args, k), caps) == Capture(x, SpansOf(x, args, k + |s|), caps)
    ensures Compare(n, s, path, k, caps)
      == if x == [] then Reply(Matched(n.leaf.value), caps) else Next(n, path, k + |s|, caps)
  {
    SplitFill(s, x, args, path, k, caps);
    ComparePast(n, s, path, k, caps);
    if x != [] {
      assert (Lits(s) + x)[|s|..] == x;
      NoStarRest(Lits(s) + x, |s|);
      FillNonEmpty(x, args);
    }
  }

  lemma {:induction false} ParamFollows(n: Tree, i: nat, j: nat, x: Word, args: seq<string>, path: string, k: nat,
                                        caps: Option<Captures>)
    requires Tidy(n) && n.kind == Param && Leads(n, i, j, x) && WellFormed([Par] + x) && NoStar([Par] + x)
    requires |args| == Wilds([Par] + x) && Proper([Par] + x, args) && k <= |path| && path[k..] == Fill([Par] + x, args)
    ensures Walk(n, path, k, caps) == Reply(Matched(i), Capture([Par] + x, SpansOf([Par] + x, args, k), caps))
    decreases n, 1
  {
    var e := ParamEntry(n, x, args, path, k, caps);
    WordRest([Par], x);
    if x != [] {
      NextFollows(n, i, j, x, args[1..], path, e, PushParam(caps, (k, e)));
    } else {
      NothingCaptured(args[1..], e, PushParam(caps, (k, e)));
    }
  }

  /** Past a parameter only the rest of the word is left. */
  lemma {:induction false} ParamEntry(n: Tree, x: Word, args: seq<string>, path: string, k: nat, caps: Option<Captures>)
    returns (e: nat)
    requires n.kind == Param && WellFormed([Par] + x) && NoStar([Par] + x)
    requires |args| == Wilds([Par] + x) && Proper([Par] + x, args) && k <= |path| && path[k..] == Fill([Par] + x, args)
    ensures |args[1..]| == Wilds(x) && Proper(x, args[1..]) && k <= e <= |path| && path[e..] == Fill(x, args[1..])
    ensures Capture([Par] + x, SpansOf([Par] + x, args, k), caps)
      == Capture(x, SpansOf(x, args[1..], e), PushParam(caps, (k, e)))
    ensures Walk(n, path, k, caps) ==
            if x == [] then Reply(LeafOr(n), PushParam(caps, (k, e))) else Next(n, path, e, PushParam(caps, (k, e)))
  {
    e := k + |args[0]|;
    assert ([Par] + x)[1..] == x;
    ParamFill([Par] + x, args, path, k, caps);
    WalkAtParam(n, path, k, caps);
  }

  lemma {:induction false} WalkAtParam(n: Tree, path: string, k: nat, caps: Option<Captures>)
    requires n.kind == Param && k <= |path|
    ensures var e := SegmentEnd(path, k); var caps' := PushParam(caps, (k, e));
      Walk(n, path, k, caps) == if e == |path| then Reply(LeafOr(n), caps') else Next(n, path, e, caps')
  {
  }

  lemma {:induction false} NothingCaptured(args: seq<string>, e: nat, caps: Option<Captures>)
    requires args == []
    ensures Capture([], SpansOf([], args, e), caps) == caps
  {
  }

  lemma {:induction false} WordRest(u: Word, x: Word)
    requires WellFormed(u + x) && NoStar(u + x)
    ensures WellFormed(x) && NoStar(x)
  {
    assert (u + x)[|u|..] == x;
    NoStarRest(u + x, |u|);
    WellFormedRest(u + x, |u|);
  }

  lemma {:induction false} ComparePast(n: Tree, s: string, path: string, k: nat, caps: Option<Captures>)
    requires k + |s| <= |path| && path[k..] == s + path[k + |s|..]
    ensures Compare(n, s, path, k, caps) ==
            if k + |s| == |path| && n.leaf.Some? then Reply(Matched(n.leaf.value), caps)
            else Next(n, path, k + |s|, caps)
  {
    if k + |s| == |path| {
      assert s + "" == s;
    }
  }

  lemma {:induction false} NextFollows(n: Tree, i: nat, j: nat, x: Word, args: seq<string>, path: string, k: nat,
                                       caps: Option<Captures>)
    requires Tidy(n) && WellFormed(x) && NoStar(x) && x != [] && Leads(n, i, j, x)
    requires |args| == Wilds(x) && Proper(x, args) && k <= |path| && path[k..] == Fill(x, args)
    ensures Next(n, path, k, caps) == Reply(Matched(i), Capture(x, SpansOf(x, args, k), caps))
    decreases n, 0
  {
    FillNonEmpty(x, args);
    assert path[k..][0] == path[k];
    ChosenChild(n, j, x, path, k);
    WalkFollows(n.children[j], x, i, args, path, k, caps);
  }

  // ---- both directions ----------------------------------------------------------------

  /** Words with the same spots and equal captures are equal. */
  lemma {:induction false} SameCapturesSameWord(v: Word, w: Word, x: seq<Span>, y: seq<Span>)
    requires SameSpots(v, w) && StarLast(v) && StarLast(w) && |x| == Wilds(v) && |y| == Wilds(w)
    requires Capture(v, x, None) == Capture(w, y, None)
    ensures v == w
  {
    CaptureShape(v, x, None);
    CaptureShape(w, y, None);
    assert EndsInStar(v) == EndsInStar(w);
    assert forall i | 0 <= i < |v| - 1 :: v[i] != Star && w[i] != Star;
  }

  /** The same replacement for every wildcard. */
  function SomeArgs(w: Word): seq<string> {
    seq(Wilds(w), _ => "a")
  }

  lemma {:induction false} SomeArgsAreProper(w: Word)
    ensures Proper(w, SomeArgs(w))
  {
    if w != [] {
      SomeArgsAreProper(w[1..]);
      if !w[0].Lit? {
        assert SomeArgs(w)[1..] == SomeArgs(w[1..]);
      }
    }
  }

  /** The instance of pattern `i` got from the replacements is answered with
      the pattern and exactly the replacements. */
  ghost predicate Answers(ps: seq<string>, i: nat, args: seq<string>)
    requires Run(ps).Some? && i < |ps| && WordOf(ps[i]).Some? && |args| == Wilds(WordOf(ps[i]).value)
  {
    var w := WordOf(ps[i]).value;
    Recognize(Run(ps).value, Fill(w, args)) == Reply(Matched(i), Capture(w, SpansOf(w, args, 0), None))
  }

  ghost predicate Complete(ps: seq<string>)
    requires Run(ps).Some?
  {
    forall i, args: seq<string> | 0 <= i < |ps| && WordOf(ps[i]).Some? && |args| == Wilds(WordOf(ps[i]).value)
      && Proper(WordOf(ps[i]).value, args) :: Answers(ps, i, args)
  }

  lemma {:induction false} FillIsRooted(w: Word, args: seq<string>)
    requires w != [] && w[0] == Lit('/') && |args| == Wilds(w)
    ensures Fill(w, args) != "*" && Fill(w, args) != ""
  {
    assert Fill(w, args)[0] == '/';
  }

  /** A pattern whose instance is answered exactly is stored under its own word. */
  lemma {:induction false} AnsweredIsStored(ps: seq<string>, i: nat, args: seq<string>)
    requires AllRooted(ps) && Run(ps).Some? && i < |ps| && WordOf(ps[i]).Some?
    requires |args| == Wilds(WordOf(ps[i]).value) && Answers(ps, i, args)
    ensures StoredAsItself(ps, i)
  {
    var w := WordOf(ps[i]).value;
    RunIsBooked(ps);
    RunIsTidy(ps);
    RootedWord(ps[i]);
    FillIsRooted(w, args);
    var t := Run(ps).value.root.value;
    var v, spans, slack := WalkWord(t, Fill(w, args), 0, None);
    FoundAtTrack(t, v, w, i);
    TrackFinds(t, w, i);
    SameCapturesSameWord(v, w, spans, SpansOf(w, args, 0));
  }

  /** Completeness of an accepted run is the agreement of the wildcard kinds. */
  lemma {:induction false} CompleteIffKindsAgree(ps: seq<string>)
    requires AllRooted(ps) && Run(ps).Some?
    ensures Complete(ps) <==> KindConsistent(ps)
  {
    if KindConsistent(ps) {
      forall i, args: seq<string> | 0 <= i < |ps| && WordOf(ps[i]).Some? && |args| == Wilds(WordOf(ps[i]).value)
        && Proper(WordOf(ps[i]).value, args)
        ensures Answers(ps, i, args)
      {
        InstancesAreMatched(ps, i, args);
      }
    }
    if Complete(ps) {
      forall i | 0 <= i < |ps| && ps[i] != "*" ensures StoredAsItself(ps, i) {
        AcceptedIsFine(ps, i);
        var w := WordOf(ps[i]).value;
        SomeArgsAreProper(w);
        assert Answers(ps, i, SomeArgs(w));
        AnsweredIsStored(ps, i, SomeArgs(w));
      }
      StoredIffKindsAgree(ps);
    }
  }

  lemma {:induction false} MixedAreRooted()
    ensures Rooted(PARAM_ROUTE) && Rooted(REST_ROUTE)
  {
    var p, q := PARAM_ROUTE, REST_ROUTE;
    assert p[0] == '/' && p[2] == 'i' && p[3] == 'd' && p[4] == '/' && p[5] == 'f' && p[6] == 'o' && p[7] == 'o';
    assert q[0] == '/' && q[2] == 'p';
  }

  /** The excluded case, observed: two accepted patterns of which some instance
      is not answered. */
  lemma {:induction false} MixedKindsAreIncomplete()
    ensures AllRooted([PARAM_ROUTE, REST_ROUTE]) && Run([PARAM_ROUTE, REST_ROUTE]).Some?
    ensures !Complete([PARAM_ROUTE, REST_ROUTE])
  {
    MixedAreRooted();
    MixedKindsAreAccepted();
    CompleteIffKindsAgree([PARAM_ROUTE, REST_ROUTE]);
  }
}
