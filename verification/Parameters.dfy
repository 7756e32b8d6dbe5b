/** Route parameters: the accessors of a matched request, and the literal from
    which the `path!` macro takes the accessors it will use. */
module Parameters {
  import opened Options
  import opened Patterns
  import opened Recognition
  import opened Routing
  import opened Matching
  import opened Uris

  // ---- accessors ----------------------------------------------------------

  datatype Params = Params(path: string, names: Option<Names>, captures: Option<Captures>) {
    function Slice(s: Span): Option<string> {
      if s.0 <= s.1 <= |path| then Some(path[s.0..s.1]) else None
    }

    /** The text of the `i`-th parameter. */
    function Get(i: nat): Option<string> {
      match captures
      case None => None
      case Some(c) => if i < |c.params| then Slice(c.params[i]) else None
    }

    function CatchAll(): Option<string> {
      match captures
      case None => None
      case Some(c) => if c.wildcard.Some? then Slice(c.wildcard.value) else None
    }

    function Name(name: string): Option<string> {
      if name == "*" then CatchAll()
      else
        match names
        case None => None
        case Some(n) =>
          match Position(n, name)
          case None => None
          case Some(i) => Get(i)
    }
  }

  // ---- the literal ------------------------------------------------------------

  datatype Param = Single(name: string) | CatchAll(name: string)

  /** `Panics`: the first byte of an empty or non-ASCII segment is cut off. */
  datatype Literal = Refused | Panics | Holds(params: seq<Param>)

  function ScanLiteral(segments: seq<string>, names: set<string>, params: seq<Param>): Literal
    decreases |segments|
  {
    if segments == [] then Holds(params)
    else
      var segment, rest := segments[0], segments[1..];
      if segment == "" || !(segment[0] < 128 as char) then Panics
      else
        var name := segment[1..];
        if segment[0] == ':' then
          if name in names then Refused else ScanLiteral(rest, names + {name}, params + [Single(name)])
        else if segment[0] == '*' then
          if name in names || rest != [] then Refused else Holds(params + [CatchAll(name)])
        else ScanLiteral(rest, names, params)
  }

  function LiteralOf(path: string): Literal {
    if path == "" then Refused
    else if path == "/" || path == "*" then Holds([])
    else if Split(path)[0] != "" then Refused
    else ScanLiteral(Split(path)[1..], {}, [])
  }

  method ParseLiteral(path: string) returns (r: Literal)
    ensures r == LiteralOf(path)
  {
    if path == "" {
      return Refused;
    }
    if path == "/" || path == "*" {
      return Holds([]);
    }
    var segments := Split(path);
    if segments[0] != "" {
      return Refused;
    }
    var params: seq<Param>, names: set<string>, i := [], {}, 1;
    while i < |segments|
      invariant 1 <= i <= |segments|
      invariant LiteralOf(path) == ScanLiteral(segments[i..], names, params)
    {
      var segment := segments[i];
      assert segments[i..][0] == segment && segments[i..][1..] == segments[i + 1..];
      i := i + 1;
      if segment == "" || !(segment[0] < 128 as char) {
        return Panics;
      }
      var name := segment[1..];
      if segment[0] == ':' {
        if name in names {
          return Refused;
        }
        names := names + {name};
        params := params + [Single(name)];
      } else if segment[0] == '*' {
        if name in names {
          return Refused;
        }
        params := params + [CatchAll(name)];
        break;
      }
    }
    if i < |segments| {
      return Refused;
    }
    return Holds(params);
  }

  // ---- every literal --------------------------------------------------------------

  /** The first byte cannot be cut off the segment. */
  predicate Uncut(segment: string) {
    segment == "" || !(segment[0] < 128 as char)
  }

  /** The segment is a wildcard that repeats the name of an earlier one, or a
      catch-all that something follows. */
  predicate Misplaced(x: seq<string>, k: nat)
    requires k < |x| && !Uncut(x[k])
  {
    || (IsMarker(x[k][0]) && x[k][1..] in WildNames(x[..k]))
    || (x[k][0] == '*' && k + 1 < |x|)
  }

  /** The scan goes past the segment. */
  predicate Passed(x: seq<string>, k: nat)
    requires k < |x|
  {
    !Uncut(x[k]) && !Misplaced(x, k) && x[k][0] != '*'
  }

  ghost predicate Reaches(x: seq<string>, k: nat)
    requires k <= |x|
  {
    forall m | 0 <= m < k :: Passed(x, m)
  }

  ghost predicate PanicsAt(x: seq<string>, k: nat)
    requires k < |x|
  {
    Reaches(x, k) && Uncut(x[k])
  }

  ghost predicate RefusedAt(x: seq<string>, k: nat)
    requires k < |x|
  {
    Reaches(x, k) && !Uncut(x[k]) && Misplaced(x, k)
  }

  function NameSet(names: seq<string>): set<string> {
    set n | n in names
  }

  lemma {:induction false} NamesUpTo(x: seq<string>, k: nat)
    requires k < |x| && x[k] != ""
    ensures WildNames(x[..k + 1]) == WildNames(x[..k]) + if IsMarker(x[k][0]) then [x[k][1..]] else []
    ensures NameSet(WildNames(x[..k + 1])) == NameSet(WildNames(x[..k])) + if IsMarker(x[k][0]) then {x[k][1..]} else {}
    ensures !IsMarker(x[k][0]) ==> WildNames(x[..k + 1]) == WildNames(x[..k])
  {
    assert x[..k + 1] == x[..k] + [x[k]];
    WildNamesPush(x[..k], x[k]);
  }

  /** The parameters are the names in order, and the last is a catch-all if `star`. */
  ghost predicate Lists(params: seq<Param>, names: seq<string>, star: bool) {
    && |params| == |names|
    && (star ==> params != [])
    && forall k | 0 <= k < |params| ::
       params[k].name == names[k] && (params[k].CatchAll? <==> star && k == |params| - 1)
  }

  lemma {:induction false} ListsPush(params: seq<Param>, names: seq<string>, name: string)
    requires Lists(params, names, false)
    ensures Lists(params + [Single(name)], names + [name], false)
    ensures Lists(params + [CatchAll(name)], names + [name], true)
  {
  }

  /** What the scan makes of the segments `x`. */
  ghost predicate ScanGives(r: Literal, x: seq<string>) {
    && (r.Panics? <==> exists k | 0 <= k < |x| :: PanicsAt(x, k))
    && (r.Refused? <==> exists k | 0 <= k < |x| :: RefusedAt(x, k))
    && (r.Holds? ==> Lists(r.params, WildNames(x), x != [] && x[|x| - 1] != "" && x[|x| - 1][0] == '*'))
  }

  /** Nothing before a reached segment stops the scan, and nothing after one that stops it is reached. */
  lemma {:induction false} OneStop(x: seq<string>, k: nat)
    requires k < |x| && Reaches(x, k) && !Passed(x, k)
    ensures forall m | 0 <= m < |x| && m != k :: !PanicsAt(x, m) && !RefusedAt(x, m)
  {
    forall m | 0 <= m < |x| && m != k ensures !PanicsAt(x, m) && !RefusedAt(x, m) {
      if m < k {
        assert Passed(x, m);
      } else {
        assert !Reaches(x, m);
      }
    }
  }

  /** The scan after the first `k` segments. */
  lemma {:induction false} ScanFrom(x: seq<string>, k: nat, params: seq<Param>)
    requires k <= |x| && Reaches(x, k) && Lists(params, WildNames(x[..k]), false)
    ensures ScanGives(ScanLiteral(x[k..], NameSet(WildNames(x[..k])), params), x)
    decreases |x| - k
  {
    if k == |x| {
      assert x[k..] == [] && x[..k] == x;
      AllPassed(x);
    } else {
      assert x[k..][1..] == x[k + 1..] && x[k..][0] == x[k];
      if Passed(x, k) {
        NamesUpTo(x, k);
        ListsPush(params, WildNames(x[..k]), x[k][1..]);
        ScanFrom(x, k + 1, if x[k][0] == ':' then params + [Single(x[k][1..])] else params);
      } else {
        OneStop(x, k);
        StopGives(x, k, params);
      }
    }
  }

  lemma {:induction false} AllPassed(x: seq<string>)
    requires Reaches(x, |x|)
    ensures forall m | 0 <= m < |x| :: !PanicsAt(x, m) && !RefusedAt(x, m) && x[m] != "" && x[m][0] != '*'
  {
    forall m | 0 <= m < |x| ensures !PanicsAt(x, m) && !RefusedAt(x, m) && x[m] != "" && x[m][0] != '*' {
      assert Passed(x, m);
    }
  }

  lemma {:induction false} StopGives(x: seq<string>, k: nat, params: seq<Param>)
    requires k < |x| && Reaches(x, k) && !Passed(x, k) && Lists(params, WildNames(x[..k]), false)
    requires forall m | 0 <= m < |x| && m != k :: !PanicsAt(x, m) && !RefusedAt(x, m)
    ensures ScanGives(ScanLiteral(x[k..], NameSet(WildNames(x[..k])), params), x)
  {
    var r := ScanLiteral(x[k..], NameSet(WildNames(x[..k])), params);
    assert x[k..][1..] == x[k + 1..] && x[k..][0] == x[k];
    if Uncut(x[k]) {
      assert PanicsAt(x, k) && !RefusedAt(x, k);
    } else if Misplaced(x, k) {
      assert RefusedAt(x, k) && !PanicsAt(x, k);
    } else {
      assert !RefusedAt(x, k) && !PanicsAt(x, k);
      NamesUpTo(x, k);
      ListsPush(params, WildNames(x[..k]), x[k][1..]);
      assert x[..k + 1] == x;
    }
  }

  /** What the macro makes of any literal. It panics exactly on a leading slash
      and a segment that is empty or starts with a byte that is not ASCII, with
      no repeated name and no catch-all before it. It refuses exactly the empty
      literal, one without a leading slash, and one in which a wildcard repeats
      a name or a catch-all is not last, with neither of these, nor a segment
      that panics, before. Otherwise it lists the names in order. */
  lemma {:induction false} LiteralExactly(s: string)
    ensures var x := Split(s)[1..]; var scanned := |s| > 1 && s[0] == '/';
      && (LiteralOf(s).Panics? <==> scanned && exists k | 0 <= k < |x| :: PanicsAt(x, k))
      && (LiteralOf(s).Refused? <==>
            s == "" || (s != "*" && s[0] != '/') || (scanned && exists k | 0 <= k < |x| :: RefusedAt(x, k)))
      && (LiteralOf(s).Holds? && scanned ==>
            Lists(LiteralOf(s).params, WildNames(x), x != [] && x[|x| - 1] != "" && x[|x| - 1][0] == '*'))
  {
    var x := Split(s)[1..];
    if s != "" {
      SplitFirst(s);
      assert x[0..] == x && x[..0] == [] && NameSet(WildNames([])) == {};
      ScanFrom(x, 0, []);
    }
  }

  lemma {:induction false} SplitFirst(s: string)
    requires s != ""
    ensures Split(s)[0] == "" <==> s[0] == '/'
  {
    assert Split(s)[0] == s[..SegmentEnd(s, 0)];
  }

  // ---- literals that are URIs -------------------------------------------------

  ghost predicate AllAscii(segments: seq<string>) {
    forall i | 0 <= i < |segments| :: IsAscii(segments[i])
  }

  lemma {:induction false} NewName(x: seq<string>, k: nat)
    requires SegmentsOk(x) && k < |x| && IsMarker(x[k][0])
    ensures x[k][1..] !in WildNames(x[..k])
  {
    var front := x[..k + 1];
    assert front == x[..k] + [x[k]] && x == front + x[k + 1..];
    WildNamesPush(x[..k], x[k]);
    WildNamesConcat(front, x[k + 1..]);
    var names := WildNames(x);
    assert names[|WildNames(x[..k])|] == x[k][1..];
    assert names[..|WildNames(x[..k])|] == WildNames(x[..k]);
  }

  /** Well-placed segments pass, except that a catch-all ends the scan. */
  lemma {:induction false} SegmentsPass(x: seq<string>, y: seq<string>, k: nat)
    requires SegmentsOk(x) && AllAscii(x) && k < |x| && x <= y
    ensures x[k][0] != '*' ==> Passed(y, k)
    ensures !Uncut(y[k]) && (x[k][0] == '*' ==> k == |x| - 1 && (Misplaced(y, k) <==> |y| > |x|))
  {
    assert SegmentOk(x[k]) && IsAscii(x[k]) && y[k] == x[k] && y[..k] == x[..k];
    if IsMarker(x[k][0]) {
      NewName(x, k);
    }
  }

  function Tail(slash: bool): seq<string> {
    if slash then [""] else []
  }

  lemma {:induction false} SegmentsReach(x: seq<string>, y: seq<string>, k: nat)
    requires SegmentsOk(x) && AllAscii(x) && k <= |x| && x <= y && (k > 0 ==> x[k - 1][0] != '*')
    ensures Reaches(y, k)
  {
    forall m | 0 <= m < k ensures Passed(y, m) {
      SegmentsPass(x, y, m);
    }
  }

  /** Well-placed segments and perhaps a trailing slash. */
  lemma {:induction false} UriSegments(x: seq<string>, slash: bool)
    requires SegmentsOk(x) && AllAscii(x) && x != []
    ensures var y, star := x + Tail(slash), x[|x| - 1][0] == '*';
      && ((exists k | 0 <= k < |y| :: PanicsAt(y, k)) <==> slash && !star)
      && ((exists k | 0 <= k < |y| :: RefusedAt(y, k)) <==> slash && star)
  {
    var y, last := x + Tail(slash), |x| - 1;
    var star := x[last][0] == '*';
    SegmentsReach(x, y, last);
    SegmentsPass(x, y, last);
    if star {
      OneStop(y, last);
      assert RefusedAt(y, last) <==> slash;
    } else {
      SegmentsReach(x, y, |x|);
      if slash {
        assert y[|x|] == "" && PanicsAt(y, |x|);
        OneStop(y, |x|);
      } else {
        AllPassed(y);
      }
    }
  }

  lemma {:induction false} SplitAfterSlash(s: string)
    requires s != "" && s[0] == '/'
    ensures Split(s) == [""] + Split(s[1..])
  {
    assert SegmentEnd(s, 0) == 0 && s[..0] == "";
  }

  lemma {:induction false} SplitBeforeSlash(s: string)
    requires s != "" && s[|s| - 1] == '/'
    ensures Split(s) == Split(s[..|s| - 1]) + [""]
  {
    assert s == s[..|s| - 1] + "/" + "";
    SplitAcrossSlash(s[..|s| - 1], "");
  }

  lemma {:induction false} BodyRest(s: string)
    requires |s| > 1 && s[|s| - 1] == '/'
    ensures var t := s[1..]; t != "" && t[|t| - 1] == '/' && t[..|t| - 1] == Body(s)[1..]
  {
  }

  /** The segments that the macro sees. */
  lemma {:induction false} SplitWhole(s: string)
    requires |s| > 1 && s[0] == '/'
    ensures Split(s) == [""] + (Split(Body(s)[1..]) + Tail(s[|s| - 1] == '/'))
  {
    SplitAfterSlash(s);
    if s[|s| - 1] == '/' {
      BodyRest(s);
      SplitBeforeSlash(s[1..]);
    } else {
      AddNothing(Split(s[1..]));
    }
  }

  lemma {:induction false} AddNothing(x: seq<string>)
    ensures x + [] == x
  {
  }

  /** What the macro makes of a literal that is a URI: it panics on a trailing
      slash unless a catch-all precedes it, which it refuses; otherwise it
      lists the capture names, the catch-all being the last. */
  lemma {:induction false} LiteralOfUri(s: string)
    requires ParseUri(s).Some?
    ensures var u, slash := ParseUri(s).value, s != "/" && s[|s| - 1] == '/';
      && (LiteralOf(s).Refused? <==> slash && EndsInCatchAll(u))
      && (LiteralOf(s).Panics? <==> slash && !EndsInCatchAll(u))
      && (LiteralOf(s).Holds? ==> Lists(LiteralOf(s).params, OrEmpty(u.CaptureNames()).params, EndsInCatchAll(u)))
  {
    if s != "/" {
      var u, slash := ParseUri(s).value, s[|s| - 1] == '/';
      assert Parsed(u);
      ParsedIsBuilt(s);
      ParsedSegments(u);
      SplitAscii(Body(s)[1..]);
      SplitWhole(s);
      var x := SegmentsOf(u);
      assert Split(s)[1..] == x + Tail(slash);
      UriSegments(x, slash);
      LiteralExactly(s);
      assert OrEmpty(NamesOfSegments(x)).params == WildNames(x);
      assert !slash ==> x + Tail(slash) == x;
    }
  }

  lemma {:induction false} SplitAscii(t: string)
    requires IsAscii(t)
    ensures AllAscii(Split(t))
    decreases |t|
  {
    var e := SegmentEnd(t, 0);
    if e < |t| {
      SplitAscii(t[e + 1..]);
    }
  }

  // ---- captures ---------------------------------------------------------------

  predicate EndsInStar(w: Word) {
    w != [] && w[|w| - 1] == Star
  }

  predicate StarLast(w: Word) {
    forall i | 0 <= i < |w| :: w[i] == Star ==> i == |w| - 1
  }

  /** The number of parameters. */
  function Pars(w: Word): int {
    Wilds(w) - if EndsInStar(w) then 1 else 0
  }

  /** The captures of a word are the spans of its parameters in order, and that of its catch-all. */
  lemma {:induction false} CaptureShape(w: Word, spans: seq<Span>, caps: Option<Captures>)
    requires |spans| == Wilds(w) && StarLast(w)
    ensures Pars(w) >= 0
    ensures var c := OrDefault(Capture(w, spans, caps));
      && c.params == OrDefault(caps).params + spans[..Pars(w)]
      && c.wildcard == if EndsInStar(w) then Some(spans[|spans| - 1]) else OrDefault(caps).wildcard
    ensures Wilds(w) > 0 || caps.Some? ==> Capture(w, spans, caps).Some?
  {
    if w != [] {
      var v := w[1..];
      assert forall i | 0 <= i < |v| :: v[i] == w[i + 1];
      if w[0].Lit? {
        CaptureShape(v, spans, caps);
      } else if w[0] == Par {
        CaptureShape(v, spans[1..], PushParam(caps, spans[0]));
        assert [spans[0]] + spans[1..][..Pars(v)] == spans[..Pars(w)];
        assert OrDefault(caps).params + [spans[0]] + spans[1..][..Pars(v)]
          == OrDefault(caps).params + ([spans[0]] + spans[1..][..Pars(v)]);
      } else {
        assert v == [] && |w| == 1;
        assert Wilds(v) == 0 && spans[..0] == [];
      }
    }
  }

  lemma {:induction false} SegmentEndShift(path: string, k: nat, j: nat)
    requires k <= j <= |path|
    ensures SegmentEnd(path[k..], j - k) == SegmentEnd(path, j) - k
    decreases |path| - j
  {
    if j < |path| && path[j] != '/' {
      SegmentEndShift(path, k, j + 1);
    }
  }

  lemma {:induction false} NamesAfterWildcard(path: string, k: nat)
    requires k < |path| && IsMarker(path[k]) && WildcardEnd(path, k).Some?
    ensures var e := WildcardEnd(path, k).value;
      && NamesIn(path[k..]) == [path[k + 1..e]] + NamesIn(path[e..])
      && ('*' in path[k..] <==> path[k] == '*' || '*' in path[e..])
  {
    var s, e := path[k..], WildcardEnd(path, k).value;
    SegmentEndShift(path, k, k + 1);
    assert s[e - k..] == path[e..] && s[1..e - k] == path[k + 1..e];
    assert NoMarker(s[1..e - k]);
    assert s == [path[k]] + s[1..e - k] + path[e..];
  }

  /** The wildcards of an erased pattern are its names; it ends in a catch-all
      when the text has a star. */
  lemma {:induction false} WildsAreNames(path: string, k: nat)
    requires k <= |path| && Erase(path, k).Some?
    ensures Wilds(Erase(path, k).value) == |NamesIn(path[k..])|
    ensures '*' in path[k..] <==> EndsInStar(Erase(path, k).value)
    decreases |path| - k
  {
    if k < |path| {
      var e := if IsMarker(path[k]) then WildcardEnd(path, k).value else k + 1;
      WildsAreNames(path, e);
      var w, rest := Erase(path, k).value, Erase(path, e).value;
      assert w == [w[0]] + rest && w[1..] == rest;
      if IsMarker(path[k]) {
        NamesAfterWildcard(path, k);
        assert path[k] == '*' ==> rest == [] && path[e..] == "";
      } else {
        assert path[k..][1..] == path[e..] && path[k..] == [path[k]] + path[e..];
      }
    }
  }
}
