/** Route patterns: the `:name` / `*name` syntax and its name-erased form.

    A pattern is a string of bytes; its erased form is a word of tokens in
    which every `:name` is the token `Par` and a final `*name` is `Star`. */
module Patterns {
  import opened Options

  datatype Token = Lit(c: char) | Par | Star

  type Word = seq<Token>

  predicate IsMarker(c: char) {
    c == ':' || c == '*'
  }

  predicate NoMarker(s: string) {
    forall i | 0 <= i < |s| :: !IsMarker(s[i])
  }

  predicate IsAscii(s: string) {
    forall i | 0 <= i < |s| :: s[i] < 128 as char
  }

  /** The first position at or after `k` that ends a path segment. */
  function SegmentEnd(path: string, k: nat): (e: nat)
    requires k <= |path|
    ensures k <= e <= |path|
    ensures e < |path| ==> path[e] == '/'
    ensures forall j | k <= j < e :: path[j] != '/'
    decreases |path| - k
  {
    if k == |path| || path[k] == '/' then k else SegmentEnd(path, k + 1)
  }

  /** Where the wildcard that starts at `k` ends; `None` if its name is empty or
      holds a marker, or if it is a catch-all and not at the end of the path. */
  function WildcardEnd(path: string, k: nat): (r: Option<nat>)
    requires k < |path| && IsMarker(path[k])
    ensures r.Some? ==> k + 1 < r.value <= |path|
  {
    var e := SegmentEnd(path, k + 1);
    if !NoMarker(path[k + 1..e]) then None
    else if e == k + 1 then None
    else if path[k] == '*' && e < |path| then None
    else Some(e)
  }

  /** The first wildcard marker at or after `k`, or the end of the path. */
  function WildcardBegin(path: string, k: nat): (e: nat)
    requires k <= |path|
    ensures k <= e <= |path|
    ensures e < |path| ==> IsMarker(path[e])
    ensures forall j | k <= j < e :: !IsMarker(path[j])
    decreases |path| - k
  {
    if k == |path| || IsMarker(path[k]) then k else WildcardBegin(path, k + 1)
  }

  /** The name-erased form of `path[k..]`; `None` if some wildcard is malformed. */
  function Erase(path: string, k: nat): (r: Option<Word>)
    requires k <= |path|
    decreases |path| - k
  {
    if k == |path| then Some([])
    else if IsMarker(path[k]) then
      match WildcardEnd(path, k)
      case None => None
      case Some(e) => Prepend([if path[k] == ':' then Par else Star], Erase(path, e))
    else Prepend([Lit(path[k])], Erase(path, k + 1))
  }

  function Prepend(u: Word, r: Option<Word>): Option<Word> {
    match r
    case None => None
    case Some(w) => Some(u + w)
  }

  function Lits(s: string): (w: Word)
    ensures |w| == |s|
    ensures forall i | 0 <= i < |s| :: w[i] == Lit(s[i])
  {
    seq(|s|, i requires 0 <= i < |s| => Lit(s[i]))
  }

  predicate AllLits(w: Word) {
    forall i | 0 <= i < |w| :: w[i].Lit?
  }

  function Text(w: Word): (s: string)
    requires AllLits(w)
    ensures |s| == |w|
    ensures forall i | 0 <= i < |w| :: w[i] == Lit(s[i])
  {
    seq(|w|, i requires 0 <= i < |w| => w[i].c)
  }

  /** What erasure makes of a text whose markers all follow a slash: a catch-all
      is last, a parameter is followed by a slash, every wildcard but a leading
      one follows a slash, and no literal is a marker. */
  predicate WellFormed(w: Word) {
    forall i | 0 <= i < |w| ::
      && (w[i] == Star ==> i == |w| - 1)
      && (w[i] == Par && i + 1 < |w| ==> w[i + 1] == Lit('/'))
      && (w[i].Lit? ==> !IsMarker(w[i].c))
      && (!w[i].Lit? && i > 0 ==> w[i - 1] == Lit('/'))
  }

  /** Every marker of the text after position `k` follows a slash. */
  predicate SpacedText(path: string, k: nat) {
    forall i | k < i < |path| && IsMarker(path[i]) :: path[i - 1] == '/'
  }

  /** No common prefix is followed by a parameter in one word and a catch-all in the other. */
  predicate SameKinds(u: Word, v: Word) {
    if u == [] || v == [] then true
    else if u[0] == v[0] then SameKinds(u[1..], v[1..])
    else u[0].Lit? || v[0].Lit?
  }

  /** Two erased patterns that one tree cannot hold: they are equal, they first
      differ in a wildcard against something else, or one is the other
      followed by a single catch-all. */
  predicate Conflict(u: Word, v: Word) {
    if u == [] then v == [] || v == [Star]
    else if v == [] then u == [Star]
    else if u[0] == v[0] then Conflict(u[1..], v[1..])
    else !(u[0].Lit? && v[0].Lit?)
  }

  lemma {:induction false} EraseWellFormed(path: string, k: nat)
    requires k <= |path| && SpacedText(path, k)
    requires Erase(path, k).Some?
    ensures WellFormed(Erase(path, k).value)
    ensures k < |path| ==> Erase(path, k).value != []
    ensures k < |path| && !IsMarker(path[k]) ==> Erase(path, k).value[0] == Lit(path[k])
    decreases |path| - k
  {
    if k < |path| {
      var e := if IsMarker(path[k]) then WildcardEnd(path, k).value else k + 1;
      EraseWellFormed(path, e);
      var w, rest := Erase(path, k).value, Erase(path, e).value;
      assert w == [w[0]] + rest;
      assert forall i | 1 <= i < |w| :: w[i] == rest[i - 1];
      if e < |path| {
        EraseHead(path, e);
      }
    }
  }

  lemma {:induction false} EraseHead(path: string, k: nat)
    requires k < |path| && Erase(path, k).Some?
    ensures var w := Erase(path, k).value;
      w != [] && (w[0].Lit? <==> !IsMarker(path[k])) && (w[0].Lit? ==> w[0] == Lit(path[k]))
  {
  }

  /** A stretch without markers is erased to its own literals. */
  lemma {:induction false} EraseLiterals(path: string, k: nat, e: nat)
    requires k <= e <= |path|
    requires forall j | k <= j < e :: !IsMarker(path[j])
    ensures Erase(path, k) == Prepend(Lits(path[k..e]), Erase(path, e))
    decreases e - k
  {
    if k == e {
      PrependNothing(Erase(path, e));
    } else {
      EraseLiterals(path, k + 1, e);
      PrependLiteral(path[k], path[k + 1..e], Erase(path, e));
      assert path[k..e] == [path[k]] + path[k + 1..e];
    }
  }

  lemma {:induction false} PrependNothing(r: Option<Word>)
    ensures Prepend([], r) == r
  {
    if r.Some? {
      assert [] + r.value == r.value;
    }
  }

  lemma {:induction false} PrependLiteral(c: char, s: string, r: Option<Word>)
    ensures Prepend([Lit(c)], Prepend(Lits(s), r)) == Prepend(Lits([c] + s), r)
  {
    assert Lits([c] + s) == [Lit(c)] + Lits(s);
    if r.Some? {
      assert [Lit(c)] + (Lits(s) + r.value) == [Lit(c)] + Lits(s) + r.value;
    }
  }

  lemma {:induction false} ConflictUnderPrefix(p: Word, u: Word, v: Word)
    ensures Conflict(p + u, p + v) == Conflict(u, v)
    ensures SameKinds(p + u, p + v) == SameKinds(u, v)
  {
    if p == [] {
      assert p + u == u && p + v == v;
    } else {
      ConflictUnderPrefix(p[1..], u, v);
      assert (p + u)[1..] == p[1..] + u && (p + v)[1..] == p[1..] + v;
    }
  }

  lemma {:induction false} ConflictIsSymmetric(u: Word, v: Word)
    ensures Conflict(u, v) == Conflict(v, u)
    ensures SameKinds(u, v) == SameKinds(v, u)
  {
    if u != [] && v != [] && u[0] == v[0] {
      ConflictIsSymmetric(u[1..], v[1..]);
    }
  }

  ghost predicate MarkerFree(w: Word) {
    forall i | 0 <= i < |w| :: w[i].Lit? ==> !IsMarker(w[i].c)
  }

  lemma {:induction false} MarkerFreeRest(w: Word, k: nat)
    requires MarkerFree(w) && k <= |w|
    ensures MarkerFree(w[k..])
  {
    var rest := w[k..];
    assert forall j | 0 <= j < |rest| :: rest[j] == w[k + j];
  }

  lemma {:induction false} EraseMarkerFree(path: string, k: nat)
    requires k <= |path| && Erase(path, k).Some?
    ensures MarkerFree(Erase(path, k).value)
    decreases |path| - k
  {
    if k < |path| {
      var e := if IsMarker(path[k]) then WildcardEnd(path, k).value else k + 1;
      EraseMarkerFree(path, e);
      var w, rest := Erase(path, k).value, Erase(path, e).value;
      assert w == [w[0]] + rest;
      assert forall i | 1 <= i < |w| :: w[i] == rest[i - 1];
    }
  }
}
