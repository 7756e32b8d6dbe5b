/** The set of methods a handler accepts: an insertion-ordered set that is
    printed to and parsed from a header value. */
module Methods {
  import opened Options

  /** A method name is a non-empty token (section 3.2.6 of RFC 7230). */
  predicate IsToken(s: string) {
    s != "" && forall i | 0 <= i < |s| :: IsTokenChar(s[i])
  }

  predicate IsTokenChar(c: char) {
    'a' <= c <= 'z' || 'A' <= c <= 'Z' || '0' <= c <= '9' || c in "!#$%&'*+-.^_`|~"
  }

  predicate IsSpace(c: char) {
    c == ' ' || '\t' <= c <= '\r'
  }

  ghost predicate Ordered(s: seq<string>) {
    forall i, j | 0 <= i < j < |s| :: s[i] != s[j]
  }

  function Add(s: seq<string>, m: string): seq<string> {
    if m in s then s else s + [m]
  }

  /** Insert all in order; a known element keeps its place. */
  function Collect(s: seq<string>, more: seq<string>): (r: seq<string>)
    ensures forall m :: m in r <==> m in s || m in more
    ensures Ordered(s) ==> Ordered(r)
    decreases |more|
  {
    if more == [] then s else Collect(Add(s, more[0]), more[1..])
  }

  lemma {:induction false} CollectOrdered(s: seq<string>, more: seq<string>)
    requires Ordered(s + more)
    ensures Collect(s, more) == s + more
    decreases |more|
  {
    if more == [] {
      assert s + more == s;
    } else {
      var all := s + more;
      assert all[|s|] == more[0];
      assert forall i | 0 <= i < |s| :: s[i] == all[i] != all[|s|];
      assert s + [more[0]] + more[1..] == all;
      CollectOrdered(s + [more[0]], more[1..]);
    }
  }

  /** The first place of an element. */
  function FirstAt(s: seq<string>, m: string): (k: nat)
    requires m in s
    ensures k < |s| && s[k] == m && m !in s[..k]
  {
    if s[0] == m then 0
    else
      assert s == [s[0]] + s[1..];
      var k := 1 + FirstAt(s[1..], m);
      assert s[..k] == [s[0]] + s[1..][..k - 1];
      k
  }

  lemma {:induction false} FirstIs(s: seq<string>, m: string, k: nat)
    requires k < |s| && s[k] == m && m !in s[..k]
    ensures FirstAt(s, m) == k
  {
    var j := FirstAt(s, m);
    assert forall i | 0 <= i < k :: s[..k][i] == s[i];
    assert forall i | 0 <= i < j :: s[..j][i] == s[i];
  }

  /** `r` holds the elements of `s` without repetition, in the order in which
      they first occur. */
  ghost predicate InFirstOrder(r: seq<string>, s: seq<string>) {
    && Ordered(r) && (forall m :: m in r <==> m in s)
    && forall i, j | 0 <= i < j < |r| :: FirstAt(s, r[i]) < FirstAt(s, r[j])
  }

  lemma {:induction false} FirstInFront(s: seq<string>, more: seq<string>, m: string)
    requires m in s
    ensures FirstAt(s + more, m) == FirstAt(s, m)
  {
    var k := FirstAt(s, m);
    assert (s + more)[..k] == s[..k];
    FirstIs(s + more, m, k);
  }

  lemma {:induction false} FirstBehind(s: seq<string>, more: seq<string>, m: string)
    requires m !in s && m in more
    ensures FirstAt(s + more, m) == |s| + FirstAt(more, m)
  {
    var k := FirstAt(more, m);
    assert (s + more)[..|s| + k] == s + more[..k];
    FirstIs(s + more, m, |s| + k);
  }

  lemma {:induction false} OrderedIsFirst(r: seq<string>)
    requires Ordered(r)
    ensures InFirstOrder(r, r)
  {
    forall i | 0 <= i < |r| ensures FirstAt(r, r[i]) == i {
      FirstIs(r, r[i], i);
    }
  }

  lemma {:induction false} AddInOrder(s: seq<string>, done: seq<string>, m: string)
    requires InFirstOrder(s, done)
    ensures InFirstOrder(Add(s, m), done + [m])
  {
    var r, all := Add(s, m), done + [m];
    forall i | 0 <= i < |s| ensures FirstAt(all, s[i]) == FirstAt(done, s[i]) {
      FirstInFront(done, [m], s[i]);
    }
    if m !in s {
      FirstBehind(done, [m], m);
      assert forall i | 0 <= i < |s| :: FirstAt(done, s[i]) < |done|;
    }
  }

  lemma {:induction false} OneFurther(done: seq<string>, more: seq<string>, all: seq<string>)
    requires more != [] && all == done + more
    ensures all == done + [more[0]] + more[1..]
  {
  }

  /** Collecting keeps the order of first occurrence. */
  lemma {:induction false} CollectInOrder(s: seq<string>, done: seq<string>, more: seq<string>, all: seq<string>)
    requires InFirstOrder(s, done) && all == done + more
    ensures InFirstOrder(Collect(s, more), all)
    decreases |more|
  {
    if more == [] {
      assert all == done;
    } else {
      OneFurther(done, more, all);
      AddInOrder(s, done, more[0]);
      CollectInOrder(Add(s, more[0]), done + [more[0]], more[1..], all);
    }
  }

  lemma {:induction false} SameOrder(l: seq<string>, r: seq<string>, x: seq<string>, y: seq<string>, m: string,
                                     n: string)
    requires InFirstOrder(l, x) && InFirstOrder(r, y) && m in l + r && n in l + r
    requires FirstAt(l + r, m) < FirstAt(l + r, n)
    ensures FirstAt(x + y, m) < FirstAt(x + y, n)
  {
    if m in l {
      FirstInFront(x, y, m);
      FirstInFront(l, r, m);
      if n in l {
        FirstInFront(x, y, n);
        FirstInFront(l, r, n);
      } else {
        FirstBehind(x, y, n);
      }
    } else {
      FirstBehind(l, r, m);
      FirstBehind(x, y, m);
      if n in l {
        FirstInFront(l, r, n);
      } else {
        FirstBehind(l, r, n);
        FirstBehind(x, y, n);
      }
    }
  }

  lemma {:induction false} SameMembers(l: seq<string>, r: seq<string>, x: seq<string>, y: seq<string>, m: string)
    requires InFirstOrder(l, x) && InFirstOrder(r, y)
    ensures m in l + r <==> m in x + y
  {
  }

  /** Two lists put one after the other and collected. */
  lemma {:induction false} CollectBoth(l: seq<string>, r: seq<string>, x: seq<string>, y: seq<string>)
    requires InFirstOrder(l, x) && InFirstOrder(r, y)
    ensures InFirstOrder(Collect([], l + r), x + y)
  {
    CollectInOrder([], [], l + r, l + r);
    OrderTransfers(Collect([], l + r), l, r, x, y);
  }

  lemma {:induction false} OrderTransfers(c: seq<string>, l: seq<string>, r: seq<string>, x: seq<string>,
                                          y: seq<string>)
    requires InFirstOrder(l, x) && InFirstOrder(r, y) && InFirstOrder(c, l + r)
    ensures InFirstOrder(c, x + y)
  {
    forall m ensures m in c <==> m in x + y {
      SameMembers(l, r, x, y, m);
    }
    forall i, j | 0 <= i < j < |c| ensures FirstAt(x + y, c[i]) < FirstAt(x + y, c[j]) {
      SameOrder(l, r, x, y, c[i], c[j]);
    }
  }

  // ---- printing -------------------------------------------------------------------

  function Print(ms: seq<string>): string {
    if ms == [] then ""
    else if |ms| == 1 then ms[0]
    else ms[0] + ", " + Print(ms[1..])
  }

  /** Printing puts a comma and a space between the methods and nothing else. */
  lemma {:induction false} PrintsWithCommas(x: seq<string>, y: seq<string>)
    ensures Print([]) == "" && (|x| == 1 ==> Print(x) == x[0])
    ensures x != [] && y != [] ==> Print(x + y) == Print(x) + ", " + Print(y)
    decreases |x|
  {
    if |x| > 1 && y != [] {
      PrintsWithCommas(x[1..], y);
      assert (x + y)[1..] == x[1..] + y && (x + y)[0] == x[0];
      assert x[0] + ", " + (Print(x[1..]) + ", " + Print(y)) == x[0] + ", " + Print(x[1..]) + ", " + Print(y);
    } else if |x| == 1 && y != [] {
      assert (x + y)[1..] == y && (x + y)[0] == x[0];
    }
  }

  method ToHeaderValue(ms: seq<string>) returns (r: string)
    ensures r == Print(ms)
  {
    r := "";
    var i := 0;
    assert ms[0..] == ms;
    while i < |ms|
      invariant i <= |ms|
      invariant Print(ms) == if i == |ms| then r else if i == 0 then Print(ms) else r + ", " + Print(ms[i..])
      invariant i == 0 ==> r == ""
    {
      assert ms[i..][1..] == ms[i + 1..] && ms[i..][0] == ms[i];
      if i > 0 {
        r := r + ", ";
      }
      r := r + ms[i];
      i := i + 1;
    }
  }

  // ---- parsing ----------------------------------------------------------------------

  function CommaAt(s: string): (e: nat)
    ensures e <= |s| && (e < |s| ==> s[e] == ',') && forall j | 0 <= j < e :: s[j] != ','
  {
    if s == "" || s[0] == ',' then 0 else 1 + CommaAt(s[1..])
  }

  function SplitCommas(s: string): seq<string>
    decreases |s|
  {
    var e := CommaAt(s);
    if e == |s| then [s] else [s[..e]] + SplitCommas(s[e + 1..])
  }

  function TrimStart(s: string): string {
    if s != "" && IsSpace(s[0]) then TrimStart(s[1..]) else s
  }

  function TrimEnd(s: string): string {
    if s != "" && IsSpace(s[|s| - 1]) then TrimEnd(s[..|s| - 1]) else s
  }

  function Trim(s: string): string {
    TrimEnd(TrimStart(s))
  }

  /** The trimmed parts, if all are tokens. */
  function Tokens(parts: seq<string>): Option<seq<string>> {
    if parts == [] then Some([])
    else
      var m := Trim(parts[0]);
      match Tokens(parts[1..])
      case None => None
      case Some(rest) => if IsToken(m) then Some([m] + rest) else None
  }

  function Parse(s: string): Option<seq<string>> {
    match Tokens(SplitCommas(s))
    case None => None
    case Some(ms) => Some(Collect([], ms))
  }

  // ---- what parsing does ----------------------------------------------------------------

  function WithCommas(parts: seq<string>): string
    requires parts != []
  {
    if |parts| == 1 then parts[0] else parts[0] + "," + WithCommas(parts[1..])
  }

  /** Splitting gives the parts between the commas. */
  lemma {:induction false} SplitExactly(s: string)
    ensures SplitCommas(s) != [] && WithCommas(SplitCommas(s)) == s
    ensures forall i, j | 0 <= i < |SplitCommas(s)| && 0 <= j < |SplitCommas(s)[i]| :: SplitCommas(s)[i][j] != ','
    decreases |s|
  {
    var e := CommaAt(s);
    if e < |s| {
      var rest := SplitCommas(s[e + 1..]);
      SplitExactly(s[e + 1..]);
      assert SplitCommas(s)[1..] == rest && SplitCommas(s)[0] == s[..e];
      assert s == s[..e] + "," + s[e + 1..];
      assert forall i | 1 <= i < |SplitCommas(s)| :: SplitCommas(s)[i] == rest[i - 1];
    }
  }

  predicate AllSpace(s: string) {
    forall i | 0 <= i < |s| :: IsSpace(s[i])
  }

  /** Trimming takes away all the space at both ends, and nothing else. */
  lemma {:induction false} TrimExactly(s: string) returns (x: string, y: string)
    ensures s == x + Trim(s) + y && AllSpace(x) && AllSpace(y)
    ensures Trim(s) != "" ==> !IsSpace(Trim(s)[0]) && !IsSpace(Trim(s)[|Trim(s)| - 1])
  {
    x := TrimStartExactly(s);
    y := TrimEndExactly(TrimStart(s));
    assert s == x + (Trim(s) + y);
  }

  lemma {:induction false} TrimStartExactly(s: string) returns (x: string)
    ensures s == x + TrimStart(s) && AllSpace(x) && (TrimStart(s) != "" ==> !IsSpace(TrimStart(s)[0]))
    decreases |s|
  {
    if s != "" && IsSpace(s[0]) {
      x := TrimStartExactly(s[1..]);
      assert s == [s[0]] + x + TrimStart(s);
      x := [s[0]] + x;
    } else {
      x := "";
    }
  }

  lemma {:induction false} TrimEndExactly(s: string) returns (y: string)
    ensures s == TrimEnd(s) + y && AllSpace(y)
    ensures TrimEnd(s) != "" ==> TrimEnd(s)[0] == s[0] && !IsSpace(TrimEnd(s)[|TrimEnd(s)| - 1])
    decreases |s|
  {
    if s != "" && IsSpace(s[|s| - 1]) {
      y := TrimEndExactly(s[..|s| - 1]);
      assert s == TrimEnd(s) + (y + [s[|s| - 1]]);
      y := y + [s[|s| - 1]];
    } else {
      y := "";
    }
  }

  function Trimmed(parts: seq<string>): (r: seq<string>)
    ensures |r| == |parts| && forall i | 0 <= i < |r| :: r[i] == Trim(parts[i])
  {
    seq(|parts|, i requires 0 <= i < |parts| => Trim(parts[i]))
  }

  predicate AllTokens(parts: seq<string>) {
    forall i | 0 <= i < |parts| :: IsToken(parts[i])
  }

  lemma {:induction false} AllTokensCons(m: string, rest: seq<string>)
    ensures AllTokens([m] + rest) <==> IsToken(m) && AllTokens(rest)
  {
    var all := [m] + rest;
    assert all[0] == m && forall i | 0 <= i < |rest| :: all[i + 1] == rest[i];
    assert forall i | 1 <= i < |all| :: all[i] == rest[i - 1];
  }

  lemma {:induction false} TokensExactly(parts: seq<string>)
    ensures Tokens(parts) == if AllTokens(Trimmed(parts)) then Some(Trimmed(parts)) else None
    decreases |parts|
  {
    if parts != [] {
      var rest := Trimmed(parts[1..]);
      TokensExactly(parts[1..]);
      assert Trimmed(parts) == [Trim(parts[0])] + rest;
      AllTokensCons(Trim(parts[0]), rest);
    }
  }

  /** A text parses if and only if its trimmed parts are all tokens; it then
      gives them without repetition, in the order in which they first occur. */
  lemma {:induction false} ParseExactly(s: string)
    ensures Parse(s).Some? <==> AllTokens(Trimmed(SplitCommas(s)))
    ensures Parse(s).Some? ==> InFirstOrder(Parse(s).value, Trimmed(SplitCommas(s)))
  {
    var parts := Trimmed(SplitCommas(s));
    TokensExactly(SplitCommas(s));
    OrderedIsFirst([]);
    CollectInOrder([], [], parts, parts);
  }

  // ---- round trip ---------------------------------------------------------------------

  predicate CommaFree(s: string) {
    forall i | 0 <= i < |s| :: s[i] != ','
  }

  lemma {:induction false} TrimPlain(m: string)
    requires m != "" && !IsSpace(m[0]) && !IsSpace(m[|m| - 1])
    ensures Trim(m) == m && Trim(" " + m) == m
  {
    assert (" " + m)[1..] == m && (" " + m)[0] == ' ';
    assert TrimStart(" " + m) == TrimStart(m) == m;
  }

  lemma {:induction false} TokenCharIsPlain(c: char)
    requires IsTokenChar(c)
    ensures !IsSpace(c) && c != ','
  {
  }

  lemma {:induction false} TrimSpaced(space: string, m: string)
    requires IsToken(m) && (space == "" || space == " ")
    ensures Trim(space + m) == m
  {
    TokenCharIsPlain(m[0]);
    TokenCharIsPlain(m[|m| - 1]);
    TrimPlain(m);
    assert "" + m == m;
  }

  lemma {:induction false} NoCommaSpaced(space: string, m: string)
    requires IsToken(m) && (space == "" || space == " ")
    ensures CommaFree(space + m)
  {
    forall i | 0 <= i < |space + m| ensures (space + m)[i] != ',' {
      if i >= |space| {
        TokenCharIsPlain(m[i - |space|]);
      }
    }
  }

  lemma {:induction false} SplitLast(front: string)
    requires CommaFree(front)
    ensures SplitCommas(front) == [front]
  {
  }

  lemma {:induction false} SplitFirst(front: string, rest: string)
    requires CommaFree(front)
    ensures SplitCommas(front + "," + rest) == [front] + SplitCommas(rest)
  {
    var s := front + "," + rest;
    assert s[|front|] == ',' && forall i | 0 <= i < |front| :: s[i] == front[i];
    assert CommaAt(s) == |front| && s[|front| + 1..] == rest && s[..|front|] == front;
  }

  lemma {:induction false} TokensOf(front: string, parts: seq<string>, m: string, ms: seq<string>)
    requires Trim(front) == m && IsToken(m) && Tokens(parts) == Some(ms)
    ensures Tokens([front] + parts) == Some([m] + ms)
  {
    assert ([front] + parts)[1..] == parts;
  }

  lemma {:induction false} PrintTwo(ms: seq<string>, space: string)
    requires |ms| > 1
    ensures space + Print(ms) == (space + ms[0]) + "," + (" " + Print(ms[1..]))
  {
    assert ", " == "," + " ";
  }

  lemma {:induction false} HeadAndTail(ms: seq<string>)
    requires ms != []
    ensures ms == [ms[0]] + ms[1..]
  {
  }

  /** Splitting what was printed, with perhaps a space in front, gives the methods back. */
  lemma {:induction false} SplitPrinted(ms: seq<string>, space: string)
    requires ms != [] && (forall i | 0 <= i < |ms| :: IsToken(ms[i])) && (space == "" || space == " ")
    ensures Tokens(SplitCommas(space + Print(ms))) == Some(ms)
    decreases |ms|
  {
    var m, front := ms[0], space + ms[0];
    TrimSpaced(space, m);
    NoCommaSpaced(space, m);
    if |ms| == 1 {
      SplitLast(front);
      TokensOf(front, [], m, []);
      assert ms == [m] + [];
    } else {
      var rest := " " + Print(ms[1..]);
      PrintTwo(ms, space);
      SplitFirst(front, rest);
      SplitPrinted(ms[1..], " ");
      TokensOf(front, SplitCommas(rest), m, ms[1..]);
      HeadAndTail(ms);
    }
  }

  /** Parsing a printed set gives the set back, in order; an empty set prints
      to a text that does not parse. */
  lemma {:induction false} ParsePrinted(ms: seq<string>)
    requires Ordered(ms) && forall i | 0 <= i < |ms| :: IsToken(ms[i])
    ensures Parse(Print(ms)) == if ms == [] then None else Some(ms)
  {
    if ms == [] {
      assert SplitCommas("") == [""] && Trim("") == "";
      assert Tokens([""]).None?;
    } else {
      SplitPrinted(ms, "");
      assert "" + Print(ms) == Print(ms);
      assert [] + ms == ms;
      CollectOrdered([], ms);
    }
  }
}
