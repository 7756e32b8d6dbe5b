/** Recognizing a path: the walk over the trie, and the reference it refines,
    which reads nothing but the flat list of erased patterns. */
module Recognition {
  import opened Options
  import opened Patterns
  import opened Trie
  import Insertion

  type Span = (nat, nat)

  datatype Captures = Captures(params: seq<Span>, wildcard: Option<Span>)

  /** `C` is how the candidates of a partial match are held. */
  datatype Outcome<C> = Matched(i: nat) | NotMatched | PartiallyMatched(candidates: C)

  datatype Reply<C> = Reply(outcome: Outcome<C>, captures: Option<Captures>)

  function OrDefault(c: Option<Captures>): Captures {
    match c
    case None => Captures([], None)
    case Some(x) => x
  }

  function PushParam(c: Option<Captures>, s: Span): Option<Captures> {
    Some(OrDefault(c).(params := OrDefault(c).params + [s]))
  }

  function SetWildcard(c: Option<Captures>, s: Span): Option<Captures> {
    Some(OrDefault(c).(wildcard := Some(s)))
  }

  // ---- the walk over the trie -------------------------------------------

  /** The child the walk takes at offset `k`, or the number of children. */
  function Choose(children: seq<Tree>, path: string, k: nat): (j: nat)
    requires k <= |path|
    ensures j <= |children|
    ensures j < |children| ==> !children[j].kind.Static? || (k < |path| && children[j].HeadIs(Lit(path[k])))
    ensures forall i | 0 <= i < j :: children[i].kind.Static? && !(k < |path| && children[i].HeadIs(Lit(path[k])))
  {
    if children == [] then 0
    else if !children[0].kind.Static? || (k < |path| && children[0].HeadIs(Lit(path[k]))) then 0
    else 1 + Choose(children[1..], path, k)
  }

  function LeafOr(n: Tree): Outcome<seq<nat>> {
    match n.leaf
    case Some(i) => Matched(i)
    case None => PartiallyMatched(n.candidates)
  }

  function Walk(n: Tree, path: string, k: nat, caps: Option<Captures>): Reply<seq<nat>>
    requires k <= |path|
    decreases n, 2
  {
    match n.kind
    case Static(s) => Compare(n, s, path, k, caps)
    case Param =>
      var e := SegmentEnd(path, k);
      var caps' := PushParam(caps, (k, e));
      if e == |path| then Reply(LeafOr(n), caps') else Next(n, path, e, caps')
    case CatchAll =>
      Reply(LeafOr(n), SetWildcard(caps, (k, |path|)))
  }

  /** Compare the label `s` of a static node with the rest of the path. */
  function Compare(n: Tree, s: string, path: string, k: nat, caps: Option<Captures>): Reply<seq<nat>>
    requires k <= |path|
    decreases n, 1
  {
    var rest := path[k..];
    if |s| < |rest| && s <= rest then Next(n, path, k + |s|, caps)
    else if |s| > |rest| && rest <= s then Next(n, path, |path|, caps)
    else if s == rest then
      if n.leaf.Some? then Reply(Matched(n.leaf.value), caps) else Next(n, path, |path|, caps)
    else Reply(NotMatched, caps)
  }

  function Next(n: Tree, path: string, k: nat, caps: Option<Captures>): Reply<seq<nat>>
    requires k <= |path|
    decreases n, 0
  {
    var j := Choose(n.children, path, k);
    if j < |n.children| then Walk(n.children[j], path, k, caps)
    else Reply(PartiallyMatched(n.candidates), caps)
  }

  // ---- the reference: a list of erased patterns ---------------------------

  /** Route `i` has the erased pattern `words[i]`; the route `*` has none. */
  type Words = seq<Option<Word>>

  predicate Extends(words: Words, i: nat, u: Word)
    requires i < |words|
  {
    words[i].Some? && u <= words[i].value
  }

  /** The routes whose erased pattern begins with `u`. */
  function Alive(words: Words, u: Word): set<nat> {
    set i | 0 <= i < |words| && Extends(words, i, u)
  }

  predicate Live(words: Words, u: Word) {
    exists i | 0 <= i < |words| :: Extends(words, i, u)
  }

  /** The route whose erased pattern is `u`. */
  function Find(words: Words, u: Word): (r: Option<nat>)
    ensures r.Some? ==> r.value < |words| && words[r.value] == Some(u)
    ensures r.None? ==> forall i | 0 <= i < |words| :: words[i] != Some(u)
  {
    if words == [] then None
    else
      var front := words[..|words| - 1];
      match Find(front, u)
      case Some(i) => Some(i)
      case None => if words[|words| - 1] == Some(u) then Some(|words| - 1) else None
  }

  function Longest(words: Words): (m: nat)
    ensures forall i | 0 <= i < |words| :: words[i].Some? ==> |words[i].value| <= m
  {
    if words == [] then 0
    else
      var front := words[..|words| - 1];
      var m := Longest(front);
      var last := words[|words| - 1];
      assert forall i | 0 <= i < |front| :: words[i] == front[i];
      if last.Some? && |last.value| > m then |last.value| else m
  }

  /** All patterns that begin with `u` go on with one and the same literal. */
  ghost predicate Forced(words: Words, u: Word, c: char) {
    Live(words, u) && forall i | 0 <= i < |words| :: Extends(words, i, u) ==> Extends(words, i, u + [Lit(c)])
  }

  ghost function ForcedLiteral(words: Words, u: Word): (r: Option<char>)
    ensures r.Some? ==> Forced(words, u, r.value)
    ensures r.None? ==> forall c :: !Forced(words, u, c)
  {
    if c :| Forced(words, u, c) then Some(c) else None
  }

  /** Recognition by prefix filtering. `u` is what has been consumed of the
      erased patterns and `k` of the path; `over` is set once the path has run
      out inside a stretch of literals that all remaining patterns share. */
  ghost function Filter(words: Words, u: Word, path: string, k: nat, over: bool, caps: Option<Captures>)
    : Reply<set<nat>>
    requires k <= |path| && Live(words, u)
    decreases Longest(words) - |u|
  {
    if k == |path| && !over && Find(words, u).Some? then Reply(Matched(Find(words, u).value), caps)
    else if Live(words, u + [Star]) then
      Reply(FoundOr(words, u + [Star]), SetWildcard(caps, (k, |path|)))
    else if Live(words, u + [Par]) then
      var e := SegmentEnd(path, k);
      var caps' := PushParam(caps, (k, e));
      if e == |path| then Reply(FoundOr(words, u + [Par]), caps')
      else Filter(words, u + [Par], path, e, false, caps')
    else if k < |path| && Live(words, u + [Lit(path[k])]) then
      Filter(words, u + [Lit(path[k])], path, k + 1, false, caps)
    else
      match ForcedLiteral(words, u)
      case None => Reply(PartiallyMatched(Alive(words, u)), caps)
      case Some(c) =>
        if k < |path| then Reply(NotMatched, caps)
        else Filter(words, u + [Lit(c)], path, k, true, caps)
  }

  function FoundOr(words: Words, u: Word): Outcome<set<nat>> {
    match Find(words, u)
    case Some(i) => Matched(i)
    case None => PartiallyMatched(Alive(words, u))
  }

  function ToSet(s: seq<nat>): set<nat> {
    set i | i in s
  }

  function AsSet(r: Reply<seq<nat>>): Reply<set<nat>> {
    match r.outcome
    case Matched(i) => Reply(Matched(i), r.captures)
    case NotMatched => Reply(NotMatched, r.captures)
    case PartiallyMatched(c) => Reply(PartiallyMatched(ToSet(c)), r.captures)
  }
}
