/** Route texts by their segments: which texts parse as URIs, which the
    recognizer takes, the word each stands for, and which runs are accepted. */
module Layouts {
  import opened Options
  import opened Patterns
  import opened Trie
  import opened Routing
  import opened Uris
  import opened Kinds

  /** Segments, each after a slash, and perhaps a slash at the end. */
  datatype Layout = Layout(segments: seq<string>, slash: bool) {
    function Text(): string {
      Glue(segments, slash)
    }

    function Word(): Word {
      WordOfSegments(segments, slash)
    }
  }

  function Glue(segments: seq<string>, slash: bool): string {
    if segments == [] then if slash then "/" else ""
    else "/" + segments[0] + Glue(segments[1..], slash)
  }

  /** A slash, and then the segment's wildcard or literals. */
  function SegmentWord(segment: string): Word
    requires segment != ""
  {
    [Lit('/')] + if segment[0] == ':' then [Par] else if segment[0] == '*' then [Star] else Lits(segment)
  }

  function WordOfSegments(segments: seq<string>, slash: bool): Word {
    if segments == [] then if slash then [Lit('/')] else []
    else (if segments[0] == "" then [] else SegmentWord(segments[0])) + WordOfSegments(segments[1..], slash)
  }

  /** A segment between slashes: a marker only at its front, and a name after it. */
  predicate Sound(segment: string) {
    SegmentOk(segment) && IsAscii(segment) && forall i | 0 <= i < |segment| :: segment[i] != '/'
  }

  ghost predicate AllSound(segments: seq<string>) {
    forall i | 0 <= i < |segments| :: Sound(segments[i])
  }

  /** Nothing comes after a catch-all. */
  ghost predicate CatchAllLast(segments: seq<string>, slash: bool) {
    forall i | 0 <= i < |segments| && segments[i] != "" && segments[i][0] == '*' :: i == |segments| - 1 && !slash
  }

  /** A text that starts with a slash and has sound segments. */
  ghost predicate Laid(l: Layout) {
    AllSound(l.segments) && (l.segments == [] ==> l.slash)
  }

  // ---- taking texts apart ---------------------------------------------------------

  lemma {:induction false} GlueConcat(x: seq<string>, y: seq<string>, slash: bool)
    ensures Glue(x + y, slash) == Glue(x, false) + Glue(y, slash)
    decreases |x|
  {
    if x == [] {
      assert x + y == y && Glue(x, false) + Glue(y, slash) == Glue(y, slash);
    } else {
      GlueConcat(x[1..], y, slash);
      assert (x + y)[0] == x[0] && (x + y)[1..] == x[1..] + y;
    }
  }

  lemma {:induction false} GlueSlash(x: seq<string>)
    ensures Glue(x, true) == Glue(x, false) + "/"
  {
    GlueConcat(x, [], true);
    assert x + [] == x;
  }

  /** The parts between the slashes of a text make it up again. */
  lemma {:induction false} SplitGlues(t: string)
    ensures Glue(Split(t), false) == "/" + t
    decreases |t|
  {
    var e := SegmentEnd(t, 0);
    if e == |t| {
      assert [t][1..] == [];
      assert "/" + t + "" == "/" + t;
    } else {
      SplitGlues(t[e + 1..]);
      assert Split(t)[1..] == Split(t[e + 1..]);
      CutAtSlash(t);
      RegroupText(t[..e], t[e + 1..]);
    }
  }

  lemma {:induction false} RegroupText(x: string, y: string)
    ensures "/" + x + ("/" + y) == "/" + (x + "/" + y)
  {
  }

  lemma {:induction false} SplitSlashFree(t: string)
    ensures forall i, j | 0 <= i < |Split(t)| && 0 <= j < |Split(t)[i]| :: Split(t)[i][j] != '/'
    decreases |t|
  {
    var e := SegmentEnd(t, 0);
    if e < |t| {
      var rest := Split(t[e + 1..]);
      SplitSlashFree(t[e + 1..]);
      assert forall i | 1 <= i < |Split(t)| :: Split(t)[i] == rest[i - 1];
    }
  }

  lemma {:induction false} GlueStarts(segments: seq<string>, slash: bool)
    ensures segments != [] || slash ==> Glue(segments, slash) != "" && Glue(segments, slash)[0] == '/'
  {
  }

  /** Segments without slashes come out as they were put in. */
  lemma {:induction false} GlueSplits(segments: seq<string>)
    requires segments != [] && forall i, j | 0 <= i < |segments| && 0 <= j < |segments[i]| :: segments[i][j] != '/'
    ensures Split(Glue(segments, false)[1..]) == segments
    decreases |segments|
  {
    var seg, rest := segments[0], segments[1..];
    var t := Glue(segments, false)[1..];
    assert t == seg + Glue(rest, false);
    if rest == [] {
      assert t == seg && SegmentEnd(t, 0) == |t|;
      assert segments == [seg];
    } else {
      forall i, j | 0 <= i < |rest| && 0 <= j < |rest[i]| ensures rest[i][j] != '/' {
        assert rest[i] == segments[i + 1];
      }
      GlueSplits(rest);
      GlueStarts(rest, false);
      assert t[|seg|] == '/' && forall j | 0 <= j < |seg| :: t[j] == seg[j];
      assert SegmentEnd(t, 0) == |seg| && t[..|seg|] == seg && t[|seg| + 1..] == Glue(rest, false)[1..];
      assert segments == [seg] + rest;
    }
  }

  // ---- parsing ------------------------------------------------------------------------

  /** The segments of a text, and whether it ends in a slash. */
  function LayoutOf(s: string): Layout {
    if s == "" || s == "/" then Layout([], true)
    else Layout(Split(Body(s)[1..]), s[|s| - 1] == '/')
  }

  lemma {:induction false} SoundParts(segments: seq<string>, s: string, slash: bool)
    requires s == Glue(segments, slash)
    ensures IsAscii(s) <==> forall i | 0 <= i < |segments| :: IsAscii(segments[i])
    decreases |segments|
  {
    if segments != [] {
      var rest := segments[1..];
      SoundParts(rest, Glue(rest, slash), slash);
      assert forall i | 1 <= i < |segments| :: segments[i] == rest[i - 1];
      assert forall i | 0 <= i < |rest| :: rest[i] == segments[i + 1];
      AsciiOfBoth("/" + segments[0], Glue(rest, slash));
      AsciiOfBoth("/", segments[0]);
    }
  }

  lemma {:induction false} AsciiOfBoth(x: string, y: string)
    ensures IsAscii(x + y) <==> IsAscii(x) && IsAscii(y)
  {
    assert forall i | 0 <= i < |x| :: (x + y)[i] == x[i];
    assert forall i | 0 <= i < |y| :: (x + y)[|x| + i] == y[i];
  }

  lemma {:induction false} BodyAndSlash(s: string)
    requires |s| > 1 && s[0] == '/'
    ensures Body(s) != "" && Body(s)[0] == '/' && s == if s[|s| - 1] == '/' then Body(s) + "/" else Body(s)
  {
  }

  lemma {:induction false} SlashAndTail(t: string)
    requires t != "" && t[0] == '/'
    ensures "/" + t[1..] == t
  {
  }

  lemma {:induction false} BodyGlues(s: string)
    requires |s| > 1 && s[0] == '/'
    ensures Glue(Split(Body(s)[1..]), s[|s| - 1] == '/') == s
  {
    BodyAndSlash(s);
    SlashAndTail(Body(s));
    SplitGlues(Body(s)[1..]);
    if s[|s| - 1] == '/' {
      GlueSlash(Split(Body(s)[1..]));
    }
  }

  /** A text with a leading slash is made up of its segments. */
  lemma {:induction false} LayoutGlues(s: string)
    requires s != "" && s[0] == '/'
    ensures LayoutOf(s).Text() == s && (LayoutOf(s).segments == [] ==> LayoutOf(s).slash)
    ensures forall i, j | 0 <= i < |LayoutOf(s).segments| && 0 <= j < |LayoutOf(s).segments[i]| ::
      LayoutOf(s).segments[i][j] != '/'
  {
    if s != "/" {
      BodyGlues(s);
      SplitSlashFree(Body(s)[1..]);
    }
  }

  /** Sound segments come out of their text as they were put in. */
  lemma {:induction false} TextSplits(l: Layout)
    requires Laid(l)
    ensures l.Text() != "" && l.Text()[0] == '/' && LayoutOf(l.Text()) == l
  {
    GlueStarts(l.segments, l.slash);
    if l.segments != [] {
      forall i, j | 0 <= i < |l.segments| && 0 <= j < |l.segments[i]| ensures l.segments[i][j] != '/' {
        assert Sound(l.segments[i]);
      }
      GlueSplits(l.segments);
      GlueSlash(l.segments);
      LastByte(l.segments);
      var t := Glue(l.segments, false);
      assert |t| > 1 && t[|t| - 1] != '/';
      assert (t + "/")[..|t|] == t;
    }
  }

  lemma {:induction false} LastByte(segments: seq<string>)
    requires AllSound(segments) && segments != []
    ensures var t := Glue(segments, false); |t| > 1 && t[|t| - 1] != '/'
    decreases |segments|
  {
    assert Sound(segments[0]);
    if |segments| > 1 {
      assert forall i | 0 <= i < |segments| - 1 :: segments[1..][i] == segments[i + 1];
      LastByte(segments[1..]);
    } else {
      assert Glue(segments[1..], false) == "";
    }
  }

  /** A layout that parses: distinct names, and a catch-all only in the last segment. */
  ghost predicate Wild(l: Layout) {
    Laid(l) && NoDuplicates(WildNames(l.segments)) && forall i | 0 <= i < |l.segments| - 1 :: l.segments[i][0] != '*'
  }

  /** The texts that parse are those of such layouts; the text is kept, and the
      names are those of the wildcard segments. */
  lemma {:induction false} ParsesByLayout(s: string)
    ensures ParseUri(s).Some? <==> exists l :: Wild(l) && s == l.Text()
    ensures ParseUri(s).Some? ==> Wild(LayoutOf(s)) && s == LayoutOf(s).Text()
    ensures ParseUri(s).Some? ==>
      ParseUri(s).value == if s == "/" then Root else Segments(s, NamesOfSegments(LayoutOf(s).segments))
  {
    ParseExactly(s);
    if ParseUri(s).Some? {
      LayoutGlues(s);
      GrammarIsLaid(s);
    }
    if l :| Wild(l) && s == l.Text() {
      TextSplits(l);
      LaidIsGrammar(l);
    }
  }

  lemma {:induction false} GrammarIsLaid(s: string)
    requires Grammar(s)
    ensures Wild(LayoutOf(s))
  {
    LayoutGlues(s);
    var segments := LayoutOf(s).segments;
    SoundParts(segments, s, LayoutOf(s).slash);
    forall i | 0 <= i < |segments| ensures Sound(segments[i]) {
      assert SegmentOk(segments[i]);
    }
  }

  lemma {:induction false} LaidIsGrammar(l: Layout)
    requires Wild(l) && LayoutOf(l.Text()) == l && l.Text() != "" && l.Text()[0] == '/'
    ensures Grammar(l.Text())
  {
    SoundParts(l.segments, l.Text(), l.slash);
    assert forall i | 0 <= i < |l.segments| :: Sound(l.segments[i]);
  }

  // ---- the word of a text -----------------------------------------------------------------

  lemma {:induction false} CatchAllRest(segments: seq<string>, slash: bool)
    requires segments != [] && segments[0] != ""
    ensures CatchAllLast(segments, slash) <==>
      CatchAllLast(segments[1..], slash) && (segments[0][0] == '*' ==> |segments| == 1 && !slash)
  {
    var rest := segments[1..];
    assert forall i | 0 <= i < |rest| :: rest[i] == segments[i + 1];
    assert forall i | 1 <= i < |segments| :: segments[i] == rest[i - 1];
  }

  /** From `k` on the path is the segments, of which the first ends at `e`. */
  lemma {:induction false} FirstPart(path: string, k: nat, segments: seq<string>, slash: bool) returns (e: nat)
    requires k <= |path| && path[k..] == Glue(segments, slash) && segments != [] && Sound(segments[0])
    ensures e == k + 1 + |segments[0]| <= |path| && path[k] == '/' && path[k + 1..e] == segments[0]
    ensures path[e..] == Glue(segments[1..], slash) && SegmentEnd(path, k + 2) == e
    ensures e < |path| <==> |segments| > 1 || slash
  {
    var seg, rest := segments[0], Glue(segments[1..], slash);
    e := k + 1 + |seg|;
    var t := path[k..];
    assert t == "/" + seg + rest;
    assert path[k] == t[0] && path[k + 1..e] == t[1..1 + |seg|] == seg && path[e..] == t[1 + |seg|..] == rest;
    GlueStarts(segments[1..], slash);
    forall j | k + 2 <= j < e ensures path[j] != '/' {
      assert path[j] == path[k + 1..e][j - k - 1];
    }
    if e < |path| {
      assert path[e] == rest[0];
    }
    EndsAt(path, k + 2, e);
  }

  lemma {:induction false} EndsAt(path: string, k: nat, e: nat)
    requires k <= e <= |path| && (e < |path| ==> path[e] == '/') && forall j | k <= j < e :: path[j] != '/'
    ensures SegmentEnd(path, k) == e
  {
    var m := SegmentEnd(path, k);
    assert m <= e;
    assert e <= m;
  }

  /** Erasing one segment. */
  lemma {:induction false} ErasePart(path: string, k: nat, segments: seq<string>, slash: bool, e: nat)
    requires k <= |path| && path[k..] == Glue(segments, slash) && segments != [] && Sound(segments[0])
    requires e == k + 1 + |segments[0]| <= |path|
    ensures Erase(path, k) ==
            if segments[0][0] == '*' && (|segments| > 1 || slash) then None
            else Prepend(SegmentWord(segments[0]), Erase(path, e))
  {
    var m := FirstPart(path, k, segments, slash);
    var seg := segments[0];
    assert path[k + 1] == seg[0] && path[k + 2..e] == seg[1..];
    if IsMarker(seg[0]) {
      assert Erase(path, k) == Prepend([Lit('/')], Erase(path, k + 1));
      var x := if seg[0] == ':' then Par else Star;
      PrependTwice([Lit('/')], [x], Erase(path, e));
    } else {
      forall j | k <= j < e ensures !IsMarker(path[j]) {
        assert j > k + 1 ==> path[j] == seg[1..][j - k - 2];
      }
      EraseLiterals(path, k, e);
      assert path[k..e] == "/" + seg;
      assert Lits("/" + seg) == [Lit('/')] + Lits(seg);
    }
  }

  lemma {:induction false} PrependTwice(u: Word, v: Word, r: Option<Word>)
    ensures Prepend(u, Prepend(v, r)) == Prepend(u + v, r)
  {
    if r.Some? {
      assert u + (v + r.value) == u + v + r.value;
    }
  }

  /** A text erases if and only if nothing comes after a catch-all, and its
      word is then, segment by segment, a slash and the segment's wildcard or
      literals. */
  lemma {:induction false} ErasesBySegments(path: string, k: nat, segments: seq<string>, slash: bool)
    requires k <= |path| && path[k..] == Glue(segments, slash) && AllSound(segments)
    ensures Erase(path, k).Some? <==> CatchAllLast(segments, slash)
    ensures Erase(path, k).Some? ==> Erase(path, k).value == WordOfSegments(segments, slash)
    decreases |segments|
  {
    if segments == [] {
      if slash {
        assert path[k..] == "/" && path[k] == path[k..][0];
        assert Erase(path, k) == Prepend([Lit('/')], Some([]));
      }
    } else {
      assert Sound(segments[0]);
      var e := FirstPart(path, k, segments, slash);
      var rest := segments[1..];
      assert forall i | 0 <= i < |rest| :: rest[i] == segments[i + 1];
      ErasesBySegments(path, e, rest, slash);
      ErasePart(path, k, segments, slash, e);
      CatchAllRest(segments, slash);
    }
  }

  /** The pattern of a layout is fine for the recognizer if and only if nothing
      comes after a catch-all; its word is that of the layout. */
  lemma {:induction false} LaidIsFine(l: Layout)
    requires Laid(l)
    ensures l.Text() != "*" && (Fine(l.Text()) <==> CatchAllLast(l.segments, l.slash))
    ensures Fine(l.Text()) ==> WordOf(l.Text()) == Some(l.Word())
  {
    GlueStarts(l.segments, l.slash);
    assert l.Text()[0..] == l.Text();
    ErasesBySegments(l.Text(), 0, l.segments, l.slash);
    SoundParts(l.segments, l.Text(), l.slash);
    assert forall i | 0 <= i < |l.segments| :: Sound(l.segments[i]);
  }

  lemma {:induction false} LaidIsRooted(l: Layout)
    requires Laid(l)
    ensures Rooted(l.Text())
  {
    GlueStarts(l.segments, l.slash);
    GlueSpaced(l.segments, l.slash);
  }

  lemma {:induction false} GlueSpaced(segments: seq<string>, slash: bool)
    requires AllSound(segments)
    ensures SpacedText(Glue(segments, slash), 0)
    decreases |segments|
  {
    if segments != [] {
      var seg, rest, s := segments[0], Glue(segments[1..], slash), Glue(segments, slash);
      assert Sound(seg);
      assert forall i | 0 <= i < |segments| - 1 :: segments[1..][i] == segments[i + 1];
      GlueSpaced(segments[1..], slash);
      GlueStarts(segments[1..], slash);
      assert s == "/" + seg + rest;
      assert forall i | 1 < i <= |seg| :: s[i] == seg[1..][i - 2];
      forall i | 0 < i < |s| && IsMarker(s[i]) ensures s[i - 1] == '/' {
        if i > |seg| {
          assert s[i] == rest[i - |seg| - 1];
          assert i > |seg| + 1 && s[i - 1] == rest[i - |seg| - 2];
        }
      }
    }
  }

  /** A text that parses as a URI is fine for the recognizer if and only if no
      slash follows a catch-all. */
  lemma {:induction false} ParsedIsFine(s: string)
    requires ParseUri(s).Some?
    ensures Fine(s) <==> !(EndsInCatchAll(ParseUri(s).value) && s[|s| - 1] == '/')
    ensures Fine(s) ==> WordOf(s) == Some(LayoutOf(s).Word())
  {
    ParsesByLayout(s);
    var l := LayoutOf(s);
    LaidIsFine(l);
    if s != "/" {
      ParseExactly(s);
      StarIsNamed(l.segments);
    }
  }

  // ---- runs over layouts ------------------------------------------------------------------

  function Texts(ls: seq<Layout>): (ps: seq<string>)
    ensures |ps| == |ls| && forall i | 0 <= i < |ps| :: ps[i] == ls[i].Text()
  {
    seq(|ls|, i requires 0 <= i < |ls| => ls[i].Text())
  }

  /** The kinds of wildcards of the words agree. */
  ghost predicate WordsAgree(ls: seq<Layout>) {
    forall i, j | 0 <= i < j < |ls| :: SameKinds(ls[i].Word(), ls[j].Word())
  }

  /** A run over texts whose wildcard kinds agree is accepted if and only if
      nothing comes after a catch-all and no two words are in conflict. */
  lemma {:induction false} LayoutsAccepted(ls: seq<Layout>)
    requires (forall i | 0 <= i < |ls| :: Laid(ls[i])) && WordsAgree(ls)
    ensures Run(Texts(ls)).Some? <==>
      && (forall i | 0 <= i < |ls| :: CatchAllLast(ls[i].segments, ls[i].slash))
      && (forall i, j | 0 <= i < j < |ls| :: !Conflict(ls[i].Word(), ls[j].Word()))
  {
    var ps := Texts(ls);
    forall i | 0 <= i < |ps| ensures Rooted(ps[i]) {
      LaidIsRooted(ls[i]);
    }
    forall i | 0 <= i < |ps|
      ensures ps[i] != "*" && (Fine(ps[i]) <==> CatchAllLast(ls[i].segments, ls[i].slash))
      ensures Fine(ps[i]) ==> WordOf(ps[i]) == Some(ls[i].Word())
    {
      LaidIsFine(ls[i]);
    }
    if Run(ps).Some? {
      forall i | 0 <= i < |ps| ensures Fine(ps[i]) {
        AcceptedIsFine(ps, i);
      }
    }
    if forall i | 0 <= i < |ps| :: Fine(ps[i]) {
      AcceptedByWords(ls, ps);
    } else {
      var i :| 0 <= i < |ps| && !Fine(ps[i]);
      assert !CatchAllLast(ls[i].segments, ls[i].slash);
    }
  }

  lemma {:induction false} AcceptedByWords(ls: seq<Layout>, ps: seq<string>)
    requires |ps| == |ls| && AllRooted(ps) && WordsAgree(ls)
    requires forall i | 0 <= i < |ps| :: ps[i] != "*" && Fine(ps[i]) && WordOf(ps[i]) == Some(ls[i].Word())
    ensures Run(ps).Some? <==> forall i, j | 0 <= i < j < |ls| :: !Conflict(ls[i].Word(), ls[j].Word())
  {
    forall i, j | 0 <= i < j < |ps| ensures KindsAgree(ps[i], ps[j]) {
      assert SameKinds(ls[i].Word(), ls[j].Word());
    }
    RunRepresents(ps);
    forall i, j | 0 <= i < j < |ps| ensures Clash(ps[i], ps[j]) <==> Conflict(ls[i].Word(), ls[j].Word()) {
      assert WordOf(ps[i]) == Some(ls[i].Word()) && WordOf(ps[j]) == Some(ls[j].Word());
    }
  }
}
