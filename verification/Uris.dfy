/** Route URIs: parsing a literal into its text and capture names, and joining
    a mounted prefix with what comes after it. */
module Uris {
  import opened Options
  import opened Patterns

  /** Capture names in order of appearance; `hasWildcard` is set by a catch-all. */
  datatype Names = Names(params: seq<string>, hasWildcard: bool)

  datatype Uri = Root | Segments(text: string, names: Option<Names>) {
    function AsStr(): string {
      match this
      case Root => "/"
      case Segments(text, _) => text
    }

    function CaptureNames(): Option<Names> {
      match this
      case Root => None
      case Segments(_, names) => names
    }
  }

  const NO_NAMES := Names([], false)

  function OrEmpty(names: Option<Names>): Names {
    match names
    case None => NO_NAMES
    case Some(n) => n
  }

  // ---- capture names ------------------------------------------------------

  /** Add the name of a wildcard segment; `None` when it is refused. */
  function PushName(n: Names, segment: string): Option<Names>
    requires segment != ""
  {
    var kind, name := segment[0], segment[1..];
    if n.hasWildcard then None
    else if !IsMarker(kind) then None
    else if name == "" then None
    else if name in n.params then None
    else Some(Names(n.params + [name], kind == '*'))
  }

  /** Add names one after the other, each taken as a whole segment. */
  function ExtendNames(n: Names, others: seq<string>): Option<Names>
    requires forall i | 0 <= i < |others| :: others[i] != ""
    decreases |others|
  {
    if others == [] then Some(n)
    else
      match PushName(n, others[0])
      case None => None
      case Some(m) => ExtendNames(m, others[1..])
  }

  /** The position of a name among the captures. */
  function Position(n: Names, name: string): (r: Option<nat>)
    ensures r.Some? <==> name in n.params
    ensures r.Some? ==> r.value < |n.params| && n.params[r.value] == name && name !in n.params[..r.value]
    decreases |n.params|
  {
    if n.params == [] then None
    else
      var front := n.params[..|n.params| - 1];
      assert n.params == front + [n.params[|n.params| - 1]];
      match Position(Names(front, false), name)
      case Some(i) => assert n.params[..i] == front[..i]; Some(i)
      case None => if n.params[|n.params| - 1] == name then Some(|n.params| - 1) else None
  }

  class CaptureNames {
    var params: seq<string>
    var hasWildcard: bool

    ghost function Value(): Names
      reads this
    {
      Names(params, hasWildcard)
    }

    constructor (n: Names)
      ensures Value() == n
    {
      params, hasWildcard := n.params, n.hasWildcard;
    }

    method Push(segment: string) returns (ok: bool)
      requires segment != ""
      modifies this
      ensures ok <==> PushName(old(Value()), segment).Some?
      ensures ok ==> Value() == PushName(old(Value()), segment).value
      ensures !ok ==> params == old(params) && hasWildcard == old(hasWildcard)
    {
      if hasWildcard {
        return false;
      }
      var kind, name := segment[0], segment[1..];
      if !IsMarker(kind) {
        return false;
      }
      if name == "" {
        return false;
      }
      if name in params {
        return false;
      }
      params := params + [name];
      if kind == '*' {
        hasWildcard := true;
      }
      ok := true;
    }

    method Extend(names: seq<string>) returns (ok: bool)
      requires forall i | 0 <= i < |names| :: names[i] != ""
      modifies this
      ensures ok <==> ExtendNames(old(Value()), names).Some?
      ensures ok ==> Value() == ExtendNames(old(Value()), names).value
    {
      var i := 0;
      assert names[0..] == names;
      while i < |names|
        invariant i <= |names|
        invariant ExtendNames(old(Value()), names) == ExtendNames(Value(), names[i..])
      {
        assert names[i..][0] == names[i] && names[i..][1..] == names[i + 1..];
        ok := Push(names[i]);
        if !ok {
          return;
        }
        i := i + 1;
      }
      ok := true;
    }
  }

  // ---- parsing ----------------------------------------------------------------

  /** The parts of a text between slashes. */
  function Split(s: string): (r: seq<string>)
    ensures r != []
    decreases |s|
  {
    var e := SegmentEnd(s, 0);
    if e == |s| then [s] else [s[..e]] + Split(s[e + 1..])
  }

  /** Take one more segment into account. */
  function StepSegment(names: Option<Names>, segment: string): Option<Option<Names>> {
    if names.Some? && names.value.hasWildcard then None
    else if segment == "" then None
    else if !NoMarker(segment[1..]) then None
    else if IsMarker(segment[0]) then
      match PushName(OrEmpty(names), segment)
      case None => None
      case Some(n) => Some(Some(n))
    else Some(names)
  }

  function ParseSegments(segments: seq<string>): Option<Option<Names>> {
    if segments == [] then Some(None)
    else
      match ParseSegments(segments[..|segments| - 1])
      case None => None
      case Some(names) => StepSegment(names, segments[|segments| - 1])
  }

  /** The text without a trailing slash. */
  function Body(s: string): string
    requires s != ""
  {
    if s[|s| - 1] == '/' then s[..|s| - 1] else s
  }

  function ParseUri(s: string): Option<Uri> {
    if !IsAscii(s) then None
    else if s == "" || s[0] != '/' then None
    else if s == "/" then Some(Root)
    else
      match ParseSegments(Split(Body(s)[1..]))
      case None => None
      case Some(names) => Some(Segments(s, names))
  }

  method Parse(s: string) returns (r: Option<Uri>)
    ensures r == ParseUri(s)
  {
    if !IsAscii(s) {
      return None;
    }
    if s == "" || s[0] != '/' {
      return None;
    }
    if s == "/" {
      return Some(Root);
    }
    var hasTrailingSlash := s[|s| - 1] == '/';
    var text := if hasTrailingSlash then s[..|s| - 1] else s;
    var segments := Split(text[1..]);
    var table: CaptureNames? := null;
    var i := 0;
    while i < |segments|
      invariant i <= |segments| && (table != null ==> fresh(table))
      invariant ParseSegments(segments[..i]) == Some(Snapshot(table))
    {
      assert segments[..i + 1][..i] == segments[..i];
      ParseStops(segments, i + 1);
      var ok;
      ok, table := TakeSegment(table, segments[i]);
      if !ok {
        return None;
      }
      i := i + 1;
    }
    assert segments[..i] == segments;
    var names := if table == null then None else Some(Names(table.params, table.hasWildcard));
    if hasTrailingSlash {
      assert text + "/" == s;
      return Some(Segments(text + "/", names));
    }
    return Some(Segments(text, names));
  }

  ghost function Snapshot(table: CaptureNames?): Option<Names>
    reads table
  {
    if table == null then None else Some(table.Value())
  }

  /** One round of the loop over the segments; the table is created when first needed. */
  method TakeSegment(table: CaptureNames?, segment: string) returns (ok: bool, table': CaptureNames?)
    modifies table
    ensures ok <==> StepSegment(old(Snapshot(table)), segment).Some?
    ensures ok ==> Snapshot(table') == StepSegment(old(Snapshot(table)), segment).value
    ensures table' == table || (table' != null && fresh(table'))
  {
    table' := table;
    if table != null && table.hasWildcard {
      return false, table;
    }
    if segment == "" {
      return false, table;
    }
    if !NoMarker(segment[1..]) {
      return false, table;
    }
    ok := true;
    if IsMarker(segment[0]) {
      if table' == null {
        table' := new CaptureNames(NO_NAMES);
      }
      ok := table'.Push(segment);
    }
  }

  /** A refused segment refuses the whole text. */
  lemma {:induction false} ParseStops(segments: seq<string>, k: nat)
    requires k <= |segments|
    ensures ParseSegments(segments[..k]).None? ==> ParseSegments(segments).None?
    decreases |segments| - k
  {
    if k < |segments| {
      assert segments[..k + 1][..k] == segments[..k];
      ParseStops(segments, k + 1);
    } else {
      assert segments[..k] == segments;
    }
  }

  // ---- the grammar ----------------------------------------------------------

  predicate SegmentOk(seg: string) {
    seg != "" && NoMarker(seg[1..]) && (IsMarker(seg[0]) ==> seg[1..] != "")
  }

  /** The names of the wildcard segments, in order. */
  function WildNames(segments: seq<string>): seq<string> {
    if segments == [] then []
    else
      var last := segments[|segments| - 1];
      WildNames(segments[..|segments| - 1]) + (if last != "" && IsMarker(last[0]) then [last[1..]] else [])
  }

  ghost predicate NoDuplicates(names: seq<string>) {
    forall i, j | 0 <= i < j < |names| :: names[i] != names[j]
  }

  /** Well-placed segments: names are distinct, and a catch-all comes last. */
  ghost predicate SegmentsOk(segments: seq<string>) {
    && (forall i | 0 <= i < |segments| :: SegmentOk(segments[i]))
    && (forall i | 0 <= i < |segments| - 1 :: segments[i][0] != '*')
    && NoDuplicates(WildNames(segments))
  }

  ghost predicate Grammar(s: string) {
    && IsAscii(s) && s != "" && s[0] == '/'
    && (s == "/" || SegmentsOk(Split(Body(s)[1..])))
  }

  function NamesOfSegments(segments: seq<string>): Option<Names> {
    var names := WildNames(segments);
    if names == [] then None
    else
      var last := segments[|segments| - 1];
      Some(Names(names, last != "" && last[0] == '*'))
  }

  lemma {:induction false} ParseSegmentsExactly(segments: seq<string>)
    ensures ParseSegments(segments).Some? <==> SegmentsOk(segments)
    ensures ParseSegments(segments).Some? ==> ParseSegments(segments).value == NamesOfSegments(segments)
    decreases |segments|
  {
    if segments != [] {
      var front, last := segments[..|segments| - 1], segments[|segments| - 1];
      assert segments == front + [last];
      ParseSegmentsExactly(front);
      SegmentsOkPush(front, last);
      if SegmentsOk(front) {
        NamesAfterStep(front, last);
      }
    }
  }

  /** One more segment after well-placed ones. */
  lemma {:induction false} NamesAfterStep(front: seq<string>, last: string)
    requires SegmentsOk(front)
    ensures StepSegment(NamesOfSegments(front), last) ==
            if SegmentsOk(front + [last]) then Some(NamesOfSegments(front + [last])) else None
  {
    SegmentsOkPush(front, last);
    WildNamesPush(front, last);
    StarIsNamed(front);
    assert (front + [last])[|front|] == last;
    var names := NamesOfSegments(front);
    assert OrEmpty(names).params == WildNames(front);
    assert OrEmpty(names).hasWildcard <==> front != [] && front[|front| - 1][0] == '*';
    var all := front + [last];
    if SegmentsOk(all) {
      assert all[|all| - 1] == last && last != "";
      if IsMarker(last[0]) {
        assert NamesOfSegments(all) == Some(Names(WildNames(front) + [last[1..]], last[0] == '*'));
      } else {
        assert WildNames(all) == WildNames(front);
        assert names.Some? ==> !names.value.hasWildcard;
        assert NamesOfSegments(all) == names;
      }
    }
  }

  lemma {:induction false} WildNamesPush(front: seq<string>, last: string)
    ensures WildNames(front + [last]) == WildNames(front) + if last != "" && IsMarker(last[0]) then [last[1..]] else []
  {
    assert (front + [last])[..|front|] == front;
  }

  /** A catch-all at the end is among the names. */
  lemma {:induction false} StarIsNamed(segments: seq<string>)
    requires SegmentsOk(segments)
    ensures segments != [] && segments[|segments| - 1][0] == '*' <==>
            NamesOfSegments(segments).Some? && NamesOfSegments(segments).value.hasWildcard
  {
    if segments != [] {
      WildNamesPush(segments[..|segments| - 1], segments[|segments| - 1]);
      assert segments == segments[..|segments| - 1] + [segments[|segments| - 1]];
    }
  }

  lemma {:induction false} SegmentsOkPush(front: seq<string>, last: string)
    ensures SegmentsOk(front + [last]) <==>
      && SegmentsOk(front) && SegmentOk(last)
      && (front != [] ==> front[|front| - 1][0] != '*')
      && (IsMarker(last[0]) ==> last[1..] !in WildNames(front))
  {
    var segments := front + [last];
    assert forall i | 0 <= i < |front| :: segments[i] == front[i];
    assert segments[|front|] == last;
    WildNamesPush(front, last);
    if last != "" {
      NoDuplicatesPush(WildNames(front), last[1..]);
    }
    if SegmentsOk(segments) {
      assert SegmentOk(segments[|front|]);
      forall i | 0 <= i < |front| ensures SegmentOk(front[i]) && front[i][0] != '*' {
        assert SegmentOk(segments[i]) && segments[i][0] != '*';
      }
      if !IsMarker(last[0]) {
        assert WildNames(segments) == WildNames(front);
      }
    } else if SegmentsOk(front) && SegmentOk(last) && (front != [] ==> front[|front| - 1][0] != '*')
              && (IsMarker(last[0]) ==> last[1..] !in WildNames(front)) {
      forall i | 0 <= i < |segments| ensures SegmentOk(segments[i]) && (i < |front| ==> segments[i][0] != '*') {
        if i < |front| {
          assert SegmentOk(front[i]);
        }
      }
    }
  }

  lemma {:induction false} NoDuplicatesPush(names: seq<string>, name: string)
    ensures NoDuplicates(names + [name]) <==> NoDuplicates(names) && name !in names
  {
    var all := names + [name];
    assert all[|names|] == name;
    assert forall i | 0 <= i < |names| :: all[i] == names[i];
    if name in names {
      var i :| 0 <= i < |names| && names[i] == name;
      assert all[i] == all[|names|];
    }
  }

  /** Parsing succeeds exactly on the grammar, keeps the text, and collects the
      wildcard names in order. */
  lemma {:induction false} ParseExactly(s: string)
    ensures ParseUri(s).Some? <==> Grammar(s)
    ensures ParseUri(s).Some? ==>
      && ParseUri(s).value.AsStr() == s
      && ParseUri(s).value.CaptureNames() == if s == "/" then None else NamesOfSegments(Split(Body(s)[1..]))
  {
    if s != "" && s != "/" && s[0] == '/' {
      ParseSegmentsExactly(Split(Body(s)[1..]));
    }
  }

  // ---- joining --------------------------------------------------------------

  function TrimLeft(s: string): string {
    if s != "" && s[0] == '/' then TrimLeft(s[1..]) else s
  }

  function JoinText(a: string, b: string): string {
    a + if a != "" && a[|a| - 1] == '/' then TrimLeft(b) else b
  }

  /** Names that can be taken apart into a kind and the rest. */
  predicate NonEmptyNames(u: Uri) {
    u.CaptureNames().Some? ==>
      forall i | 0 <= i < |u.CaptureNames().value.params| :: u.CaptureNames().value.params[i] != ""
  }

  function JoinUri(a: Uri, b: Uri): Option<Uri>
    requires NonEmptyNames(b)
  {
    match a
    case Root => Some(b)
    case Segments(text, names) =>
      match b
      case Root => Some(a)
      case Segments(other, otherNames) =>
        var joined := JoinText(text, other);
        match (names, otherNames)
        case (_, None) => Some(Segments(joined, names))
        case (None, Some(m)) => Some(Segments(joined, Some(m)))
        case (Some(n), Some(m)) =>
          match ExtendNames(n, m.params)
          case None => None
          case Some(all) => Some(Segments(joined, Some(all)))
  }

  method Join(a: Uri, b: Uri) returns (r: Option<Uri>)
    requires NonEmptyNames(b)
    ensures r == JoinUri(a, b)
  {
    match a {
      case Root => return Some(b);
      case Segments(text, names) =>
        match b {
          case Root => return Some(Segments(text, names));
          case Segments(other, otherNames) =>
            var segment := text;
            segment := segment + if segment != "" && segment[|segment| - 1] == '/' then TrimLeft(other) else other;
            match otherNames {
              case None => return Some(Segments(segment, names));
              case Some(m) =>
                match names {
                  case None => return Some(Segments(segment, Some(m)));
                  case Some(n) =>
                    var table := new CaptureNames(n);
                    var ok := table.Extend(m.params);
                    if !ok {
                      return None;
                    }
                    return Some(Segments(segment, Some(Names(table.params, table.hasWildcard))));
                }
            }
        }
    }
  }

  // ---- what parsing and joining keep --------------------------------------------

  /** The names of the wildcards of a text, in order. */
  function NamesIn(s: string): seq<string>
    decreases |s|
  {
    if s == "" then []
    else if IsMarker(s[0]) then
      var e := SegmentEnd(s, 1);
      [s[1..e]] + NamesIn(s[e..])
    else NamesIn(s[1..])
  }

  /** Non-empty names without markers. */
  ghost predicate PlainNames(names: seq<string>) {
    forall i | 0 <= i < |names| :: names[i] != "" && NoMarker(names[i])
  }

  /** What is true of every URI got by parsing and joining. */
  ghost predicate Built(u: Uri) {
    u.Root? ||
    (&& IsAscii(u.text) && |u.text| > 1 && u.text[0] == '/' && u.text[1] != '/' && SpacedText(u.text, 0)
     && (u.names.None? <==> NamesIn(u.text) == [])
     && (u.names.Some? ==>
           && u.names.value.params == NamesIn(u.text)
           && PlainNames(u.names.value.params) && NoDuplicates(u.names.value.params))
     && (EndsInCatchAll(u) <==> '*' in u.text))
  }

  predicate EndsInCatchAll(u: Uri) {
    u.CaptureNames().Some? && u.CaptureNames().value.hasWildcard
  }

  lemma {:induction false} NamesInConcat(x: string, y: string)
    requires y != "" ==> y[0] == '/'
    ensures NamesIn(x + y) == NamesIn(x) + NamesIn(y)
    decreases |x|
  {
    if x == "" {
      assert x + y == y;
    } else if IsMarker(x[0]) {
      var e := SegmentEnd(x, 1);
      SegmentEndConcat(x, y, 1);
      assert (x + y)[1..e] == x[1..e] && (x + y)[e..] == x[e..] + y;
      NamesInConcat(x[e..], y);
    } else {
      assert (x + y)[1..] == x[1..] + y;
      NamesInConcat(x[1..], y);
    }
  }

  lemma {:induction false} SegmentEndConcat(x: string, y: string, k: nat)
    requires k <= |x| && (y != "" ==> y[0] == '/')
    ensures SegmentEnd(x + y, k) == SegmentEnd(x, k)
    decreases |x| - k
  {
    if k < |x| && x[k] != '/' {
      SegmentEndConcat(x, y, k + 1);
    }
  }

  lemma {:induction false} WildNamesConcat(a: seq<string>, b: seq<string>)
    ensures WildNames(a + b) == WildNames(a) + WildNames(b)
    decreases |b|
  {
    if b == [] {
      assert a + b == a;
    } else {
      var front, last := b[..|b| - 1], b[|b| - 1];
      assert a + b == (a + front) + [last] && b == front + [last];
      WildNamesPush(a + front, last);
      WildNamesPush(front, last);
      WildNamesConcat(a, front);
    }
  }

  ghost predicate NoInnerMarkers(segments: seq<string>) {
    forall i | 0 <= i < |segments| :: segments[i] != "" ==> NoMarker(segments[i][1..])
  }

  lemma {:induction false} NamesAcrossSlash(x: string, y: string)
    ensures NamesIn(x + "/" + y) == NamesIn(x) + NamesIn(y)
  {
    assert x + "/" + y == x + ("/" + y) && ("/" + y)[1..] == y;
    NamesInConcat(x, "/" + y);
  }

  lemma {:induction false} SplitTail(t: string)
    requires SegmentEnd(t, 0) < |t| && NoInnerMarkers(Split(t))
    ensures var e := SegmentEnd(t, 0);
      Split(t) == [t[..e]] + Split(t[e + 1..]) && NoInnerMarkers(Split(t[e + 1..]))
  {
    var rest := Split(t[SegmentEnd(t, 0) + 1..]);
    assert forall i | 0 <= i < |rest| :: rest[i] == Split(t)[i + 1];
  }

  lemma {:induction false} CutAtSlash(t: string)
    ensures var e := SegmentEnd(t, 0); t == if e == |t| then t[..e] else t[..e] + "/" + t[e + 1..]
  {
  }

  /** A text whose segments hold no inner markers: its wildcard names are those
      of its segments, and every inner marker follows a slash. */
  lemma {:induction false} SplitNames(t: string)
    requires NoInnerMarkers(Split(t))
    ensures NamesIn(t) == WildNames(Split(t))
    decreases |t|
  {
    var e := SegmentEnd(t, 0);
    CutAtSlash(t);
    assert Split(t)[0] == t[..e];
    SegmentNames(t[..e]);
    if e < |t| {
      SplitTail(t);
      SplitNames(t[e + 1..]);
      NamesInFront(t[..e], t[e + 1..], Split(t[e + 1..]));
    }
  }

  lemma {:induction false} NamesInFront(seg: string, rest: string, segments: seq<string>)
    requires NamesIn(seg) == WildNames([seg]) && NamesIn(rest) == WildNames(segments)
    ensures NamesIn(seg + "/" + rest) == WildNames([seg] + segments)
  {
    NamesAcrossSlash(seg, rest);
    WildNamesConcat([seg], segments);
  }

  lemma {:induction false} SpacedSegment(seg: string)
    requires seg != "" ==> NoMarker(seg[1..])
    ensures SpacedText(seg, 0)
  {
    assert forall i | 0 < i < |seg| :: seg[i] == seg[1..][i - 1];
  }

  lemma {:induction false} SpacedAcrossSlash(seg: string, rest: string)
    requires SpacedText(seg, 0) && SpacedText(rest, 0)
    ensures SpacedText(seg + "/" + rest, 0)
  {
    var s := seg + "/" + rest;
    forall i | 0 < i < |s| && IsMarker(s[i]) ensures s[i - 1] == '/' {
      if i > |seg| + 1 {
        var m := i - |seg| - 1;
        assert rest[m] == s[i] && rest[m - 1] == s[i - 1];
      }
    }
  }

  lemma {:induction false} SplitSpaced(t: string)
    requires NoInnerMarkers(Split(t))
    ensures SpacedText(t, 0)
    decreases |t|
  {
    var e := SegmentEnd(t, 0);
    CutAtSlash(t);
    assert Split(t)[0] == t[..e];
    SpacedSegment(t[..e]);
    if e < |t| {
      SplitTail(t);
      SplitSpaced(t[e + 1..]);
      SpacedAcrossSlash(t[..e], t[e + 1..]);
    }
  }

  lemma {:induction false} SegmentNames(seg: string)
    requires seg != "" ==> NoMarker(seg[1..])
    requires forall i | 0 <= i < |seg| :: seg[i] != '/'
    ensures NamesIn(seg) == WildNames([seg])
  {
    WildNamesPush([], seg);
    assert [] + [seg] == [seg];
    if seg != "" {
      if IsMarker(seg[0]) {
        assert SegmentEnd(seg, 1) == |seg|;
        assert seg[|seg|..] == "" && NamesIn("") == [] && seg[1..|seg|] == seg[1..];
      } else {
        NoNamesIn(seg[1..]);
      }
    }
  }

  lemma {:induction false} NoNamesIn(s: string)
    requires NoMarker(s)
    ensures NamesIn(s) == []
    decreases |s|
  {
    if s != "" {
      NoNamesIn(s[1..]);
    }
  }

  predicate AnyStar(segments: seq<string>) {
    segments != [] && ((segments[0] != "" && segments[0][0] == '*') || AnyStar(segments[1..]))
  }

  lemma {:induction false} AnyStarAt(segments: seq<string>)
    ensures AnyStar(segments) <==> exists i | 0 <= i < |segments| :: segments[i] != "" && segments[i][0] == '*'
  {
    if segments != [] {
      var rest := segments[1..];
      AnyStarAt(rest);
      assert forall i | 0 <= i < |rest| :: segments[i + 1] == rest[i];
      assert forall i | 1 <= i < |segments| :: segments[i] == rest[i - 1];
    }
  }

  /** A text whose segments hold no inner markers has a star where a segment starts with one. */
  lemma {:induction false} SplitStar(t: string)
    requires NoInnerMarkers(Split(t))
    ensures '*' in t <==> AnyStar(Split(t))
    decreases |t|
  {
    var e := SegmentEnd(t, 0);
    CutAtSlash(t);
    assert Split(t)[0] == t[..e];
    SegmentStar(t[..e]);
    if e < |t| {
      SplitTail(t);
      var rest := t[e + 1..];
      SplitStar(rest);
      assert Split(t)[1..] == Split(rest);
    }
  }

  lemma {:induction false} SegmentStar(seg: string)
    requires seg != "" ==> NoMarker(seg[1..])
    ensures '*' in seg <==> seg != "" && seg[0] == '*'
  {
    assert forall i | 1 <= i < |seg| :: seg[i] == seg[1..][i - 1];
  }

  /** Well-placed segments: a star is the mark of a catch-all. */
  lemma {:induction false} StarIsLast(t: string)
    requires SegmentsOk(Split(t))
    ensures '*' in t <==> Split(t)[|Split(t)| - 1][0] == '*'
  {
    var segments := Split(t);
    assert forall i | 0 <= i < |segments| :: SegmentOk(segments[i]);
    SplitStar(t);
    AnyStarAt(segments);
  }

  /** A parsed URI is built. */
  lemma {:induction false} ParsedIsBuilt(s: string)
    requires ParseUri(s).Some?
    ensures Built(ParseUri(s).value)
  {
    if s != "/" {
      ParseExactly(s);
      var t := Body(s)[1..];
      var segments := Split(t);
      assert forall i | 0 <= i < |segments| :: SegmentOk(segments[i]);
      SplitNames(t);
      SplitSpaced(t);
      WildNamesPlain(segments);
      FirstSegment(t);
      SlashedText(t, s);
      StarIsLast(t);
      StarIsNamed(segments);
    }
  }

  /** The names and the spacing of a text with a leading and perhaps a trailing slash. */
  lemma {:induction false} SlashedText(t: string, s: string)
    requires t != "" && SpacedText(t, 0) && (s == "/" + t || s == "/" + t + "/")
    ensures NamesIn(s) == NamesIn(t) && SpacedText(s, 0) && |s| > 1 && s[1] == t[0]
    ensures '*' in s <==> '*' in t
  {
    NamesAcrossSlash("", t);
    assert "" + "/" + t == "/" + t;
    if s == "/" + t + "/" {
      NamesAcrossSlash("/" + t, "");
      assert "/" + t + "/" + "" == s;
    }
    assert forall i | 0 < i < |s| :: s[i] == if i - 1 < |t| then t[i - 1] else '/';
  }

  lemma {:induction false} FirstSegment(t: string)
    requires Split(t)[0] != ""
    ensures t != "" && t[0] != '/'
  {
    assert Split(t)[0] == t[..SegmentEnd(t, 0)];
  }

  lemma {:induction false} WildNamesPlain(segments: seq<string>)
    requires forall i | 0 <= i < |segments| :: SegmentOk(segments[i])
    ensures PlainNames(WildNames(segments))
    decreases |segments|
  {
    if segments != [] {
      WildNamesPlain(segments[..|segments| - 1]);
    }
  }

  lemma {:induction false} TrimOnce(s: string)
    requires |s| > 1 && s[0] == '/' && s[1] != '/'
    ensures TrimLeft(s) == s[1..]
  {
    assert TrimLeft(s[1..]) == s[1..];
  }

  /** Bare names are refused as segments, so two capturing sides never join. */
  lemma {:induction false} ExtendFails(n: Names, others: seq<string>)
    requires PlainNames(others) && others != []
    ensures ExtendNames(n, others).None?
  {
    assert NoMarker(others[0]) && !IsMarker(others[0][0]);
  }

  /** Joining is refused exactly when both sides capture; what it gives is built. */
  lemma {:induction false} JoinExactly(a: Uri, b: Uri)
    requires Built(a) && Built(b)
    ensures NonEmptyNames(b)
    ensures JoinUri(a, b).None? <==> a.CaptureNames().Some? && b.CaptureNames().Some?
    ensures JoinUri(a, b).Some? ==> Built(JoinUri(a, b).value)
    ensures JoinUri(a, b).Some? && a.Segments? ==> a.AsStr() <= JoinUri(a, b).value.AsStr()
  {
    if a.Segments? && b.Segments? {
      TrimOnce(b.text);
      if b.names.Some? {
        if a.names.Some? {
          ExtendFails(a.names.value, b.names.value.params);
        }
      }
      JoinTextNames(a.text, b.text);
    }
  }

  lemma {:induction false} JoinTextNames(a: string, b: string)
    requires |a| > 1 && |b| > 1 && b[0] == '/' && b[1] != '/'
    requires SpacedText(a, 0) && SpacedText(b, 0)
    ensures NamesIn(JoinText(a, b)) == NamesIn(a) + NamesIn(b)
    ensures SpacedText(JoinText(a, b), 0)
    ensures '*' in JoinText(a, b) <==> '*' in a || '*' in b
  {
    TrimOnce(b);
    var c := JoinText(a, b);
    if a[|a| - 1] == '/' {
      var x := a[..|a| - 1];
      assert a == x + "/" + "" && c == x + "/" + b[1..];
      NamesAcrossSlash(x, "");
      NamesAcrossSlash(x, b[1..]);
      assert forall i | 0 <= i < |c| :: c[i] == if i < |a| then a[i] else b[i - |a| + 1];
    } else {
      NamesInConcat(a, b);
      assert forall i | 0 <= i < |c| :: c[i] == if i < |a| then a[i] else b[i - |a|];
    }
  }

  lemma {:induction false} JoinTextAssociates(a: string, b: string, c: string)
    requires |b| > 1 && b[0] == '/' && b[1] != '/' && |c| > 1 && c[0] == '/' && c[1] != '/'
    ensures JoinText(JoinText(a, b), c) == JoinText(a, JoinText(b, c))
  {
    TrimOnce(b);
    TrimOnce(c);
    var bc := JoinText(b, c);
    TrimOnce(bc);
    assert bc[1..] == b[1..] + (bc[|b|..]);
  }

  function JoinBoth(a: Option<Uri>, b: Option<Uri>): Option<Uri>
    requires b.Some? ==> NonEmptyNames(b.value)
  {
    if a.None? || b.None? then None else JoinUri(a.value, b.value)
  }

  /** Joining is a partial monoid: the root is neutral on both sides, and
      grouping matters neither to definedness nor to the value. */
  lemma {:induction false} JoinIsAssociative(a: Uri, b: Uri, c: Uri)
    requires Built(a) && Built(b) && Built(c)
    ensures NonEmptyNames(a) && NonEmptyNames(b) && NonEmptyNames(c)
    ensures JoinUri(b, c).Some? ==> NonEmptyNames(JoinUri(b, c).value)
    ensures JoinBoth(JoinUri(a, b), Some(c)) == JoinBoth(Some(a), JoinUri(b, c))
    ensures JoinUri(Root, a) == Some(a) && JoinUri(a, Root) == Some(a)
  {
    JoinExactly(a, a);
    JoinExactly(a, b);
    JoinExactly(b, c);
    if JoinUri(a, b).Some? {
      JoinExactly(JoinUri(a, b).value, c);
    }
    if JoinUri(b, c).Some? {
      JoinExactly(a, JoinUri(b, c).value);
    }
    if a.Segments? && b.Segments? && c.Segments? {
      JoinTextAssociates(a.text, b.text, c.text);
    }
  }

  // ---- joining and parsing ----------------------------------------------------

  /** The text of the URI parses back to it. */
  predicate Parsed(u: Uri) {
    ParseUri(u.AsStr()) == Some(u)
  }

  lemma {:induction false} CutAcrossSlash(x: string, y: string)
    ensures var s, e := x + "/" + y, SegmentEnd(x, 0);
      && SegmentEnd(s, 0) == e < |s| && s[..e] == x[..e]
      && s[e + 1..] == if e == |x| then y else x[e + 1..] + "/" + y
  {
    assert x + "/" + y == x + ("/" + y);
    SegmentEndConcat(x, "/" + y, 0);
  }

  lemma {:induction false} SplitAcrossSlash(x: string, y: string)
    ensures Split(x + "/" + y) == Split(x) + Split(y)
    decreases |x|
  {
    CutAcrossSlash(x, y);
    var e := SegmentEnd(x, 0);
    if e == |x| {
      assert x[..e] == x;
    } else {
      SplitAcrossSlash(x[e + 1..], y);
      assert [x[..e]] + (Split(x[e + 1..]) + Split(y)) == [x[..e]] + Split(x[e + 1..]) + Split(y);
    }
  }

  /** The segments of a URI other than the root. */
  function SegmentsOf(u: Uri): seq<string>
    requires Built(u) && u.Segments?
  {
    Split(Body(u.text)[1..])
  }

  lemma {:induction false} JoinBody(a: string, b: string)
    requires |a| > 1 && a[0] == '/' && a[1] != '/' && |b| > 1 && b[0] == '/' && b[1] != '/'
    ensures var c := JoinText(a, b);
      |c| > 1 && c[0] == '/' && Body(c)[1..] == Body(a)[1..] + "/" + Body(b)[1..]
  {
    TrimOnce(b);
    var c := JoinText(a, b);
    assert c == Body(a) + b;
    assert Body(c) == Body(a) + Body(b);
  }

  lemma {:induction false} JoinSegments(a: Uri, b: Uri)
    requires Built(a) && Built(b) && a.Segments? && b.Segments?
    ensures var c := JoinText(a.text, b.text);
      |c| > 1 && c[0] == '/' && IsAscii(c) && Split(Body(c)[1..]) == SegmentsOf(a) + SegmentsOf(b)
  {
    JoinBody(a.text, b.text);
    TrimOnce(b.text);
    SplitAcrossSlash(Body(a.text)[1..], Body(b.text)[1..]);
  }

  lemma {:induction false} SegmentsOkConcat(x: seq<string>, y: seq<string>)
    requires SegmentsOk(x) && SegmentsOk(y) && x != [] && y != []
    requires WildNames(x) == [] || WildNames(y) == []
    ensures SegmentsOk(x + y) <==> x[|x| - 1][0] != '*'
  {
    var z := x + y;
    WildNamesConcat(x, y);
    assert WildNames(x) + [] == WildNames(x) && [] + WildNames(y) == WildNames(y);
    assert forall i | 0 <= i < |z| :: z[i] == if i < |x| then x[i] else y[i - |x|];
    if SegmentsOk(z) {
      assert z[|x| - 1][0] != '*';
    }
  }

  lemma {:induction false} NamesOfConcat(x: seq<string>, y: seq<string>)
    requires SegmentsOk(x) && SegmentsOk(y) && x != [] && y != [] && x[|x| - 1][0] != '*'
    requires WildNames(x) == [] || WildNames(y) == []
    ensures NamesOfSegments(x + y) == if WildNames(y) == [] then NamesOfSegments(x) else NamesOfSegments(y)
  {
    WildNamesConcat(x, y);
    StarIsNamed(y);
    assert WildNames(x) + [] == WildNames(x) && [] + WildNames(y) == WildNames(y);
    assert (x + y)[|x + y| - 1] == y[|y| - 1];
  }

  /** What a join gives is what parsing its text gives, unless something was
      put after a catch-all. */
  lemma {:induction false} JoinReparses(a: Uri, b: Uri)
    requires Parsed(a) && Parsed(b)
    ensures NonEmptyNames(b)
    ensures JoinUri(a, b).Some? ==> (Parsed(JoinUri(a, b).value) <==> b.Root? || !EndsInCatchAll(a))
  {
    ParsedUriIsBuilt(a);
    ParsedUriIsBuilt(b);
    JoinExactly(a, b);
    if a.Root? {
      assert JoinUri(a, b) == Some(b);
    } else if b.Root? {
      assert JoinUri(a, b) == Some(a);
    } else if JoinUri(a, b).Some? {
      JoinedReparses(a, b, JoinUri(a, b).value);
    }
  }

  lemma {:induction false} ParsedUriIsBuilt(u: Uri)
    requires Parsed(u)
    ensures Built(u)
  {
    ParsedIsBuilt(u.AsStr());
  }

  lemma {:induction false} JoinedReparses(a: Uri, b: Uri, u: Uri)
    requires Parsed(a) && Parsed(b) && Built(a) && Built(b) && a.Segments? && b.Segments?
    requires a.names.None? || b.names.None?
    requires u == Segments(JoinText(a.text, b.text), if b.names.None? then a.names else b.names)
    ensures Parsed(u) <==> !EndsInCatchAll(a)
  {
    ParsedSegments(a);
    ParsedSegments(b);
    JoinSegments(a, b);
    var x, y := SegmentsOf(a), SegmentsOf(b);
    JoinedNames(x, y, a.names, b.names);
    ParsedBySegments(u, x + y);
  }

  lemma {:induction false} JoinedNames(x: seq<string>, y: seq<string>, xNames: Option<Names>, yNames: Option<Names>)
    requires SegmentsOk(x) && SegmentsOk(y) && x != [] && y != []
    requires xNames == NamesOfSegments(x) && yNames == NamesOfSegments(y) && (xNames.None? || yNames.None?)
    ensures SegmentsOk(x + y) && (if yNames.None? then xNames else yNames) == NamesOfSegments(x + y)
      <==> x[|x| - 1][0] != '*'
  {
    SegmentsOkConcat(x, y);
    if x[|x| - 1][0] != '*' {
      NamesOfConcat(x, y);
    }
  }

  lemma {:induction false} ParsedBySegments(u: Uri, segments: seq<string>)
    requires u.Segments? && |u.text| > 1 && u.text[0] == '/' && IsAscii(u.text)
    requires Split(Body(u.text)[1..]) == segments
    ensures Parsed(u) <==> SegmentsOk(segments) && u.names == NamesOfSegments(segments)
  {
    ParseSegmentsExactly(segments);
  }

  lemma {:induction false} ParsedSegments(a: Uri)
    requires Parsed(a) && Built(a) && a.Segments?
    ensures var x := SegmentsOf(a);
      && SegmentsOk(x) && x != [] && a.names == NamesOfSegments(x) && (a.names.None? <==> WildNames(x) == [])
      && (x[|x| - 1][0] == '*' <==> EndsInCatchAll(a))
  {
    ParseExactly(a.text);
    StarIsNamed(SegmentsOf(a));
  }
}
