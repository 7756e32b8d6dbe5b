/** What recognition means for the patterns themselves: instances of a pattern
    are found, what is found re-expands to the path, and failures are explained. */
module Matching {
  import opened Options
  import opened Patterns
  import opened Recognition
  import opened Refinement
  import opened Insertion

  /** The number of wildcards in a word. */
  function Wilds(w: Word): nat {
    if w == [] then 0 else (if w[0].Lit? then 0 else 1) + Wilds(w[1..])
  }

  /** The path got from a word by replacing its wildcards in order. */
  function Fill(w: Word, args: seq<string>): string
    requires |args| == Wilds(w)
  {
    if w == [] then ""
    else if w[0].Lit? then [w[0].c] + Fill(w[1..], args)
    else args[0] + Fill(w[1..], args[1..])
  }

  predicate SlashFree(s: string) {
    forall i | 0 <= i < |s| :: s[i] != '/'
  }

  /** Parameters take slash-free texts, empty ones included; a catch-all takes any text. */
  ghost predicate Loose(w: Word, args: seq<string>)
    requires |args| == Wilds(w)
  {
    if w == [] then true
    else if w[0].Lit? then Loose(w[1..], args)
    else (w[0] == Par ==> SlashFree(args[0])) && Loose(w[1..], args[1..])
  }

  /** The same where a last parameter is not empty. */
  ghost predicate Ample(w: Word, args: seq<string>)
    requires |args| == Wilds(w)
  {
    if w == [] then true
    else if w[0].Lit? then Ample(w[1..], args)
    else (w[0] == Par ==> SlashFree(args[0]) && (w[1..] == [] ==> args[0] != "")) && Ample(w[1..], args[1..])
  }

  /** The same with no empty parameter. */
  ghost predicate Proper(w: Word, args: seq<string>)
    requires |args| == Wilds(w)
  {
    if w == [] then true
    else if w[0].Lit? then Proper(w[1..], args)
    else (w[0] == Par ==> SlashFree(args[0]) && args[0] != "") && Proper(w[1..], args[1..])
  }

  lemma {:induction false} ProperIsAmple(w: Word, args: seq<string>)
    requires |args| == Wilds(w) && Proper(w, args)
    ensures Ample(w, args)
  {
    if w != [] {
      ProperIsAmple(w[1..], if w[0].Lit? then args else args[1..]);
    }
  }

  /** The captures of a word whose wildcards took the given spans. */
  function Capture(w: Word, spans: seq<Span>, caps: Option<Captures>): Option<Captures>
    requires |spans| == Wilds(w)
  {
    if w == [] then caps
    else if w[0].Lit? then Capture(w[1..], spans, caps)
    else Capture(w[1..], spans[1..], if w[0] == Par then PushParam(caps, spans[0]) else SetWildcard(caps, spans[0]))
  }

  /** Where the replacements of a filled word lie, from offset `k` on. */
  function SpansOf(w: Word, args: seq<string>, k: nat): (r: seq<Span>)
    requires |args| == Wilds(w)
    ensures |r| == Wilds(w)
  {
    if w == [] then []
    else if w[0].Lit? then SpansOf(w[1..], args, k + 1)
    else [(k, k + |args[0]|)] + SpansOf(w[1..], args[1..], k + |args[0]|)
  }

  lemma {:induction false} ConsLiteral(c: char, v: Word, args: seq<string>, spans: seq<Span>, caps: Option<Captures>)
    requires |args| == |spans| == Wilds(v)
    ensures Wilds([Lit(c)] + v) == Wilds(v)
    ensures Fill([Lit(c)] + v, args) == [c] + Fill(v, args)
    ensures Capture([Lit(c)] + v, spans, caps) == Capture(v, spans, caps)
  {
    assert ([Lit(c)] + v)[1..] == v;
  }

  lemma {:induction false} ConsParam(v: Word, a: string, args: seq<string>, s: Span, spans: seq<Span>,
                                     caps: Option<Captures>)
    requires |args| == |spans| == Wilds(v)
    ensures Wilds([Par] + v) == 1 + Wilds(v)
    ensures Fill([Par] + v, [a] + args) == a + Fill(v, args)
    ensures Capture([Par] + v, [s] + spans, caps) == Capture(v, spans, PushParam(caps, s))
  {
    assert ([Par] + v)[1..] == v;
    assert ([a] + args)[1..] == args && ([s] + spans)[1..] == spans;
  }

  /** Erased patterns of an accepted, kind-consistent route set. */
  ghost predicate Coherent(words: Words) {
    && (forall i | 0 <= i < |words| :: words[i].Some? ==>
          WellFormed(words[i].value) && words[i].value != [] && words[i].value[0] == Lit('/'))
    && (forall i, j | 0 <= i < |words| && 0 <= j < |words| && i != j ::
          words[i].Some? && words[j].Some? ==>
          !Conflict(words[i].value, words[j].value) && SameKinds(words[i].value, words[j].value))
  }

  lemma {:induction false} CoherentIsDistinct(words: Words)
    requires Coherent(words)
    ensures Distinct(words)
  {
    forall i, j | 0 <= i < j < |words| && words[i].Some? ensures words[i] != words[j] {
      if words[i] == words[j] {
        EqualWordsConflict(words[i].value);
      }
    }
  }

  /** Where one pattern goes on with `x`, no other goes on with a different
      wildcard, nor with anything else if `x` is a wildcard. */
  lemma {:induction false} NextIsUnique(words: Words, i: nat, u: Word, v: Word, y: Token)
    requires Coherent(words) && i < |words| && words[i] == Some(u + v)
    requires Live(words, u + [y])
    ensures v == [] ==> y != Star
    ensures v != [] && v[0] != y ==> v[0].Lit? && y.Lit?
  {
    var j :| 0 <= j < |words| && Extends(words, j, u + [y]);
    var x := ExtendsSplits(words, j, u + [y]);
    var w := [y] + x;
    assert u + [y] + x == u + w;
    Patterns.ConflictUnderPrefix(u, v, w);
    assert (u + w)[|u|] == y;
    if y == Star {
      assert w == [Star];
    }
    assert (u + v)[|u|..] == v && (u + w)[|u|..] == w;
  }

  // ---- completeness ---------------------------------------------------------

  /** A path that fills a registered pattern is matched to that pattern, with
      the replacements as its captures. */
  lemma {:induction false} FilterComplete(words: Words, i: nat, u: Word, v: Word, args: seq<string>, path: string,
                                          k: nat, caps: Option<Captures>)
    requires Coherent(words) && i < |words| && words[i] == Some(u + v)
    requires |args| == Wilds(v) && Ample(v, args)
    requires k <= |path| && path[k..] == Fill(v, args)
    ensures Live(words, u)
    ensures Filter(words, u, path, k, false, caps) == Reply(Matched(i), Capture(v, SpansOf(v, args, k), caps))
    decreases |v|
  {
    CoherentIsDistinct(words);
    assert Extends(words, i, u);
    if v == [] {
      assert u + v == u;
      FindIs(words, i, u);
    } else {
      assert u + v == u + [v[0]] + v[1..];
      assert Extends(words, i, u + [v[0]]);
      if Find(words, u).Some? {
        ShorterPattern(words, i, Find(words, u).value, u, v);
      }
      match v[0]
      case Lit(c) => CompleteLiteral(words, i, u, v, args, path, k, caps);
      case Par => CompleteParam(words, i, u, v, args, path, k, caps);
      case Star => CompleteCatchAll(words, i, u, v, args, path, k, caps);
    }
  }

  /** A pattern and that pattern followed by a catch-all are not both registered. */
  lemma {:induction false} ShorterPattern(words: Words, i: nat, j: nat, u: Word, v: Word)
    requires Coherent(words) && i < |words| && words[i] == Some(u + v) && v != []
    requires j < |words| && words[j] == Some(u)
    ensures v[0] != Star
  {
    assert u + [] == u;
    Patterns.ConflictUnderPrefix(u, [], v);
    assert (u + v)[|u|] == v[0];
    assert i != j;
    assert v[0] == Star ==> v == [Star];
  }

  lemma {:induction false} CompleteLiteral(words: Words, i: nat, u: Word, v: Word, args: seq<string>, path: string,
                                           k: nat, caps: Option<Captures>)
    requires Coherent(words) && i < |words| && words[i] == Some(u + v) && v != [] && v[0].Lit?
    requires |args| == Wilds(v) && Ample(v, args)
    requires k <= |path| && path[k..] == Fill(v, args) && Live(words, u)
    ensures Filter(words, u, path, k, false, caps) == Reply(Matched(i), Capture(v, SpansOf(v, args, k), caps))
    decreases |v|, 0
  {
    var c := v[0].c;
    assert path[k..][0] == c;
    assert path[k + 1..] == path[k..][1..] == Fill(v[1..], args);
    if Live(words, u + [Star]) {
      NextIsUnique(words, i, u, v, Star);
    }
    if Live(words, u + [Par]) {
      NextIsUnique(words, i, u, v, Par);
    }
    assert u + v == u + [v[0]] + v[1..];
    FilterComplete(words, i, u + [v[0]], v[1..], args, path, k + 1, caps);
  }

  lemma {:induction false} CompleteParam(words: Words, i: nat, u: Word, v: Word, args: seq<string>, path: string,
                                         k: nat, caps: Option<Captures>)
    requires Coherent(words) && i < |words| && words[i] == Some(u + v) && v != [] && v[0] == Par
    requires |args| == Wilds(v) && Ample(v, args)
    requires k <= |path| && path[k..] == Fill(v, args) && Live(words, u)
    ensures Filter(words, u, path, k, false, caps) == Reply(Matched(i), Capture(v, SpansOf(v, args, k), caps))
    decreases |v|, 0
  {
    var a := args[0];
    var e := k + |a|;
    assert path[k..] == a + Fill(v[1..], args[1..]);
    assert path[e..] == path[k..][|a|..] == Fill(v[1..], args[1..]);
    assert forall m | k <= m < e :: path[m] == a[m - k];
    if v[1..] != [] {
      assert (u + v)[|u| + 1] == v[1..][0] && (u + v)[|u|] == Par;
      assert path[e..][0] == '/';
    }
    SegmentEndIs(path, k, e);
    if Live(words, u + [Star]) {
      NextIsUnique(words, i, u, v, Star);
    }
    assert u + v == u + [Par] + v[1..];
    assert Extends(words, i, u + [Par]);
    FilterComplete(words, i, u + [Par], v[1..], args[1..], path, e, PushParam(caps, (k, e)));
    if e == |path| {
      assert v[1..] == [];
      assert u + [Par] + v[1..] == u + [Par];
      CoherentIsDistinct(words);
      FindIs(words, i, u + [Par]);
    }
  }

  lemma {:induction false} SegmentEndIs(path: string, k: nat, e: nat)
    requires k <= e <= |path| && (e < |path| ==> path[e] == '/')
    requires forall m | k <= m < e :: path[m] != '/'
    ensures SegmentEnd(path, k) == e
  {
    var e' := SegmentEnd(path, k);
    assert e' <= e;
    assert e <= e';
  }

  lemma {:induction false} CompleteCatchAll(words: Words, i: nat, u: Word, v: Word, args: seq<string>, path: string,
                                            k: nat, caps: Option<Captures>)
    requires Coherent(words) && i < |words| && words[i] == Some(u + v) && v != [] && v[0] == Star
    requires |args| == Wilds(v)
    requires k <= |path| && path[k..] == Fill(v, args) && Live(words, u) && Find(words, u).None?
    ensures Filter(words, u, path, k, false, caps) == Reply(Matched(i), Capture(v, SpansOf(v, args, k), caps))
  {
    assert (u + v)[|u|] == Star;
    assert v == [Star];
    assert Fill(v[1..], args[1..]) == "";
    assert args[0] + "" == args[0];
    assert Extends(words, i, u + [Star]);
    CoherentIsDistinct(words);
    FindIs(words, i, u + [Star]);
  }

  // ---- soundness --------------------------------------------------------------

  predicate SpansIn(path: string, spans: seq<Span>) {
    forall m | 0 <= m < |spans| :: spans[m].0 <= spans[m].1 <= |path|
  }

  /** The captured texts. */
  function Texts(path: string, spans: seq<Span>): (r: seq<string>)
    requires SpansIn(path, spans)
    ensures |r| == |spans|
  {
    seq(|spans|, m requires 0 <= m < |spans| => path[spans[m].0..spans[m].1])
  }

  /** How far a walk got: `x`, filled with the captured texts, is the path from
      `k` to `m` and then `slack`, a stretch of literals the path ran out in. */
  ghost predicate Reached(x: Word, spans: seq<Span>, slack: string, path: string, k: nat, m: nat) {
    && k <= m <= |path| && |spans| == Wilds(x) && SpansIn(path, spans)
    && Fill(x, Texts(path, spans)) == path[k..m] + slack
    && (slack != "" ==> m == |path|)
  }

  /** Slack in a match only occurs just before a last wildcard, which then
      captured the empty span at the end of the path. */
  ghost predicate SlackIsLast(v: Word, spans: seq<Span>, slack: string, path: string) {
    slack != "" ==>
      && spans != [] && spans[|spans| - 1] == (|path|, |path|)
      && exists h: Word, x: Token :: v == h + Lits(slack) + [x] && !x.Lit?
  }

  /** `v`, filled with the captured texts, is the rest of the path and the slack. */
  ghost predicate Reexpands(v: Word, spans: seq<Span>, slack: string, path: string, k: nat) {
    Reached(v, spans, slack, path, k, |path|) && SlackIsLast(v, spans, slack, path)
  }

  /** The slack of a walk that has already run out inside a literal stretch. */
  ghost predicate AllSlack(v: Word, spans: seq<Span>, slack: string, path: string) {
    spans == [(|path|, |path|)] && exists x: Token :: !x.Lit? && v == Lits(slack) + [x]
  }

  /** What a match found after consuming `u` and `path[..k]` amounts to. */
  ghost predicate Explains(words: Words, r: Reply<set<nat>>, u: Word, v: Word, spans: seq<Span>, slack: string,
                           path: string, k: nat, over: bool, caps: Option<Captures>) {
    && r.outcome.Matched? && r.outcome.i < |words| && words[r.outcome.i] == Some(u + v)
    && Reexpands(v, spans, slack, path, k) && r.captures == Capture(v, spans, caps)
    && (over ==> AllSlack(v, spans, slack, path))
  }

  /** A matched path re-expands from its captures. */
  lemma {:induction false} FilterSound(words: Words, u: Word, path: string, k: nat, over: bool, caps: Option<Captures>)
    returns (v: Word, spans: seq<Span>, slack: string)
    requires Coherent(words) && k <= |path| && Live(words, u) && (over ==> k == |path|)
    requires Filter(words, u, path, k, over, caps).outcome.Matched?
    ensures Explains(words, Filter(words, u, path, k, over, caps), u, v, spans, slack, path, k, over, caps)
    decreases Longest(words) - |u|
  {
    var r := Filter(words, u, path, k, over, caps);
    if k == |path| && !over && Find(words, u).Some? {
      v, spans, slack := [], [], "";
      assert u + v == u;
    } else if Live(words, u + [Star]) {
      v, spans, slack := [Star], [(k, |path|)], "";
      StarIsFound(words, u);
      LastCapture(path, k, Star, caps);
    } else if Live(words, u + [Par]) {
      var e := SegmentEnd(path, k);
      if e == |path| {
        v, spans, slack := [Par], [(k, e)], "";
        LastCapture(path, k, Par, caps);
      } else {
        var caps' := PushParam(caps, (k, e));
        v, spans, slack := FilterSound(words, u + [Par], path, e, false, caps');
        SoundParam(words, r, u, v, spans, slack, path, k, e, caps);
        v, spans := [Par] + v, [(k, e)] + spans;
      }
    } else if k < |path| && Live(words, u + [Lit(path[k])]) {
      v, spans, slack := FilterSound(words, u + [Lit(path[k])], path, k + 1, false, caps);
      SoundLiteral(words, r, u, v, spans, slack, path, k, caps);
      v := [Lit(path[k])] + v;
    } else {
      var c := ForcedLiteral(words, u).value;
      v, spans, slack := FilterSound(words, u + [Lit(c)], path, k, true, caps);
      SoundOver(words, r, u, v, spans, slack, path, c, over, caps);
      v, slack := [Lit(c)] + v, [c] + slack;
    }
  }

  lemma {:induction false} StarIsFound(words: Words, u: Word)
    requires Coherent(words) && Live(words, u + [Star])
    ensures Find(words, u + [Star]).Some?
  {
    var i :| 0 <= i < |words| && Extends(words, i, u + [Star]);
    var x := ExtendsSplits(words, i, u + [Star]);
    assert words[i].value[|u|] == Star;
    assert u + [Star] + x == u + [Star];
  }

  lemma {:induction false} LastCapture(path: string, k: nat, x: Token, caps: Option<Captures>)
    requires k <= |path| && !x.Lit?
    ensures Reexpands([x], [(k, |path|)], "", path, k)
    ensures Capture([x], [(k, |path|)], caps) ==
            if x == Par then PushParam(caps, (k, |path|)) else SetWildcard(caps, (k, |path|))
    ensures k == |path| ==> AllSlack([x], [(k, |path|)], "", path)
  {
    assert [x][1..] == [] && Wilds([]) == 0;
    assert [(k, |path|)][1..] == [];
    var args := Texts(path, [(k, |path|)]);
    assert args[0] == path[k..];
    assert Fill([x], args) == args[0] + Fill([], args[1..]);
    assert [x] == Lits("") + [x];
  }

  lemma {:induction false} ReachedParam(x: Word, spans: seq<Span>, slack: string, path: string, k: nat, e: nat, m: nat)
    requires k <= e && Reached(x, spans, slack, path, e, m)
    ensures Reached([Par] + x, [(k, e)] + spans, slack, path, k, m)
  {
    var all := [(k, e)] + spans;
    assert Texts(path, all) == [path[k..e]] + Texts(path, spans);
    ConsParam(x, path[k..e], Texts(path, spans), (k, e), spans, None);
    assert path[k..e] + (path[e..m] + slack) == path[k..m] + slack;
  }

  lemma {:induction false} ReachedLiteral(x: Word, spans: seq<Span>, slack: string, path: string, k: nat, m: nat)
    requires k < |path| && Reached(x, spans, slack, path, k + 1, m)
    ensures Reached([Lit(path[k])] + x, spans, slack, path, k, m)
  {
    ConsLiteral(path[k], x, Texts(path, spans), spans, None);
    assert [path[k]] + (path[k + 1..m] + slack) == path[k..m] + slack;
  }

  lemma {:induction false} ReachedOver(x: Word, spans: seq<Span>, slack: string, path: string, c: char, m: nat)
    requires Reached(x, spans, slack, path, |path|, m)
    ensures Reached([Lit(c)] + x, spans, [c] + slack, path, |path|, m)
  {
    ConsLiteral(c, x, Texts(path, spans), spans, None);
    assert path[|path|..m] == "";
    assert [c] + ("" + slack) == "" + ([c] + slack);
  }

  lemma {:induction false} SlackUnderPrefix(y: Token, v: Word, spans: seq<Span>, front: seq<Span>, slack: string,
                                            path: string)
    requires SlackIsLast(v, spans, slack, path)
    ensures SlackIsLast([y] + v, front + spans, slack, path)
  {
    if slack != "" {
      var h: Word, x: Token :| v == h + Lits(slack) + [x] && !x.Lit?;
      assert [y] + v == ([y] + h) + Lits(slack) + [x];
    }
  }

  lemma {:induction false} SoundParam(words: Words, r: Reply<set<nat>>, u: Word, v: Word, spans: seq<Span>,
                                      slack: string, path: string, k: nat, e: nat, caps: Option<Captures>)
    requires k <= e <= |path|
    requires Explains(words, r, u + [Par], v, spans, slack, path, e, false, PushParam(caps, (k, e)))
    ensures Explains(words, r, u, [Par] + v, [(k, e)] + spans, slack, path, k, false, caps)
  {
    assert u + [Par] + v == u + ([Par] + v);
    ReachedParam(v, spans, slack, path, k, e, |path|);
    SlackUnderPrefix(Par, v, spans, [(k, e)], slack, path);
    ConsParam(v, path[k..e], Texts(path, spans), (k, e), spans, caps);
  }

  lemma {:induction false} SoundLiteral(words: Words, r: Reply<set<nat>>, u: Word, v: Word, spans: seq<Span>,
                                        slack: string, path: string, k: nat, caps: Option<Captures>)
    requires k < |path|
    requires Explains(words, r, u + [Lit(path[k])], v, spans, slack, path, k + 1, false, caps)
    ensures Explains(words, r, u, [Lit(path[k])] + v, spans, slack, path, k, false, caps)
  {
    assert u + [Lit(path[k])] + v == u + ([Lit(path[k])] + v);
    ReachedLiteral(v, spans, slack, path, k, |path|);
    SlackUnderPrefix(Lit(path[k]), v, spans, [], slack, path);
    assert [] + spans == spans;
    ConsLiteral(path[k], v, Texts(path, spans), spans, caps);
  }

  lemma {:induction false} SoundOver(words: Words, r: Reply<set<nat>>, u: Word, v: Word, spans: seq<Span>,
                                     slack: string, path: string, c: char, over: bool, caps: Option<Captures>)
    requires Explains(words, r, u + [Lit(c)], v, spans, slack, path, |path|, true, caps)
    ensures Explains(words, r, u, [Lit(c)] + v, spans, [c] + slack, path, |path|, over, caps)
  {
    assert u + [Lit(c)] + v == u + ([Lit(c)] + v);
    ReachedOver(v, spans, slack, path, c, |path|);
    ConsLiteral(c, v, Texts(path, spans), spans, caps);
    var x: Token :| !x.Lit? && v == Lits(slack) + [x];
    assert [Lit(c)] + v == Lits([c] + slack) + [x];
    assert [Lit(c)] + v == [] + Lits([c] + slack) + [x];
  }

  // ---- failure ------------------------------------------------------------------

  lemma {:induction false} ExhaustedIsNoMiss(words: Words, u: Word, path: string, over: bool, caps: Option<Captures>)
    requires Live(words, u)
    ensures !Filter(words, u, path, |path|, over, caps).outcome.NotMatched?
    decreases Longest(words) - |u|
  {
    var i :| 0 <= i < |words| && Extends(words, i, u);
    if ForcedLiteral(words, u).Some? {
      var c := ForcedLiteral(words, u).value;
      assert Extends(words, i, u + [Lit(c)]);
      ExhaustedIsNoMiss(words, u + [Lit(c)], path, true, caps);
    }
  }

  /** A path that is not matched at all is a prefix of no instance of any
      registered pattern, even with empty parameters. */
  lemma {:induction false} FilterMiss(words: Words, u: Word, path: string, k: nat, caps: Option<Captures>,
                                      i: nat, v: Word, args: seq<string>)
    requires Coherent(words) && k <= |path| && Live(words, u)
    requires Filter(words, u, path, k, false, caps).outcome.NotMatched?
    requires i < |words| && words[i] == Some(u + v) && |args| == Wilds(v) && Loose(v, args)
    ensures !(path[k..] <= Fill(v, args))
    decreases |v|, 1
  {
    if k == |path| {
      ExhaustedIsNoMiss(words, u, path, false, caps);
    }
    if v != [] {
      assert u + v == u + [v[0]] + v[1..];
      assert Extends(words, i, u + [v[0]]);
      OnlyOwnWildcard(words, i, u, v);
      if v[0].Lit? {
        MissLiteral(words, u, path, k, caps, i, v, args);
      } else {
        MissWildcard(words, u, path, k, caps, i, v, args);
      }
    }
  }

  lemma {:induction false} MissLiteral(words: Words, u: Word, path: string, k: nat, caps: Option<Captures>,
                                       i: nat, v: Word, args: seq<string>)
    requires Coherent(words) && k < |path| && Live(words, u) && v != [] && v[0].Lit?
    requires Filter(words, u, path, k, false, caps).outcome.NotMatched?
    requires !Live(words, u + [Star]) && !Live(words, u + [Par])
    requires i < |words| && words[i] == Some(u + [v[0]] + v[1..]) && |args| == Wilds(v) && Loose(v, args)
    requires Live(words, u + [v[0]])
    ensures !(path[k..] <= Fill(v, args))
    decreases |v|, 0
  {
    if path[k..] <= Fill(v, args) {
      PrefixLiteral(v, args, path, k);
      FilterAtLiteral(words, u, path, k, caps);
      FilterMiss(words, u + [v[0]], path, k + 1, caps, i, v[1..], args);
    }
  }

  lemma {:induction false} MissWildcard(words: Words, u: Word, path: string, k: nat, caps: Option<Captures>,
                                        i: nat, v: Word, args: seq<string>)
    requires Coherent(words) && k < |path| && Live(words, u) && v != [] && !v[0].Lit?
    requires Filter(words, u, path, k, false, caps).outcome.NotMatched?
    requires v[0] != Par ==> !Live(words, u + [Par])
    requires i < |words| && words[i] == Some(u + v) && |args| == Wilds(v) && Loose(v, args)
    requires Live(words, u + [v[0]])
    ensures !(path[k..] <= Fill(v, args))
    decreases |v|, 0
  {
    FilterAtWildcard(words, u, path, k, caps);
    if path[k..] <= Fill(v, args) {
      var e := SegmentEnd(path, k);
      MissParam(u, v, args, path, k, e);
      assert u + v == u + [Par] + v[1..];
      FilterMiss(words, u + [Par], path, e, PushParam(caps, (k, e)), i, v[1..], args[1..]);
    }
  }

  lemma {:induction false} PrefixLiteral(v: Word, args: seq<string>, path: string, k: nat)
    requires v != [] && v[0].Lit? && |args| == Wilds(v) && k < |path|
    requires path[k..] <= Fill(v, args)
    ensures v[0] == Lit(path[k]) && path[k + 1..] <= Fill(v[1..], args)
  {
    assert path[k..] == [path[k]] + path[k + 1..];
    assert Fill(v, args)[1..] == Fill(v[1..], args);
  }

  lemma {:induction false} FilterAtLiteral(words: Words, u: Word, path: string, k: nat, caps: Option<Captures>)
    requires k < |path| && Live(words, u) && Live(words, u + [Lit(path[k])])
    requires !Live(words, u + [Star]) && !Live(words, u + [Par])
    ensures Filter(words, u, path, k, false, caps) == Filter(words, u + [Lit(path[k])], path, k + 1, false, caps)
  {
  }

  lemma {:induction false} FilterAtWildcard(words: Words, u: Word, path: string, k: nat, caps: Option<Captures>)
    requires k < |path| && Live(words, u) && (Live(words, u + [Star]) || Live(words, u + [Par]))
    requires Filter(words, u, path, k, false, caps).outcome.NotMatched?
    ensures !Live(words, u + [Star]) && Live(words, u + [Par]) && SegmentEnd(path, k) < |path|
    ensures var e := SegmentEnd(path, k);
      Filter(words, u, path, k, false, caps) == Filter(words, u + [Par], path, e, false, PushParam(caps, (k, e)))
  {
  }

  lemma {:induction false} OnlyOwnWildcard(words: Words, i: nat, u: Word, v: Word)
    requires Coherent(words) && i < |words| && words[i] == Some(u + v) && v != []
    ensures v[0] != Star ==> !Live(words, u + [Star])
    ensures v[0] != Par ==> !Live(words, u + [Par])
  {
    if Live(words, u + [Star]) {
      NextIsUnique(words, i, u, v, Star);
    }
    if Live(words, u + [Par]) {
      NextIsUnique(words, i, u, v, Par);
    }
  }

  lemma {:induction false} MissParam(u: Word, v: Word, args: seq<string>, path: string, k: nat, e: nat)
    requires WellFormed(u + v) && v != [] && v[0] == Par && |args| == Wilds(v) && Loose(v, args)
    requires k <= e < |path| && path[e] == '/' && forall m | k <= m < e :: path[m] != '/'
    requires path[k..] <= Fill(v, args)
    ensures path[e..] <= Fill(v[1..], args[1..])
  {
    var a, f := args[0], Fill(v[1..], args[1..]);
    var rest := path[k..];
    SlashAfterParam(u, v, args);
    assert rest[e - k] == path[e];
    assert forall m | 0 <= m < e - k :: rest[m] == path[k + m];
    assert rest == (a + f)[..|rest|];
    FirstSlash(a, f, e - k);
    assert path[e..] == rest[|a|..] == (a + f)[..|rest|][|a|..];
  }

  lemma {:induction false} FirstSlash(a: string, f: string, p: nat)
    requires SlashFree(a) && (f == "" || f[0] == '/')
    requires p < |a + f| && (a + f)[p] == '/' && forall j | 0 <= j < p :: (a + f)[j] != '/'
    ensures p == |a|
  {
    assert forall j | 0 <= j < |a| :: (a + f)[j] == a[j];
    assert f != "" ==> (a + f)[|a|] == f[0];
  }

  lemma {:induction false} SlashAfterParam(u: Word, v: Word, args: seq<string>)
    requires WellFormed(u + v) && v != [] && v[0] == Par && |args| == Wilds(v)
    ensures var f := Fill(v[1..], args[1..]); f == "" || f[0] == '/'
  {
    if v[1..] != [] {
      assert (u + v)[|u| + 1] == v[1..][0] && (u + v)[|u|] == Par;
    }
  }
}
