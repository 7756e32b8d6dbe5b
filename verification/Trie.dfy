/** The compressed trie behind the recognizer, as a value: what a tree means
    (`Lookup`), what one insertion does to it (`Add`), and when it is accepted. */
module Trie {
  import opened Options
  import opened Patterns

  datatype Kind = Static(s: string) | Param | CatchAll {
    function Label(): Word {
      match this
      case Static(s) => Lits(s)
      case Param => [Par]
      case CatchAll => [Star]
    }
  }

  /** `candidates` is an insertion-ordered set of route indices. */
  datatype Tree = Tree(kind: Kind, candidates: seq<nat>, leaf: Option<nat>, children: seq<Tree>) {
    predicate HeadIs(x: Token) {
      kind.Label() != [] && kind.Label()[0] == x
    }
  }

  function WithCandidate(s: seq<nat>, i: nat): (r: seq<nat>)
    ensures forall j :: j in r <==> j in s || j == i
  {
    if i in s then s else s + [i]
  }

  // ---- meaning --------------------------------------------------------

  /** The first child whose label starts with `x`, or the number of children. */
  function Pick(children: seq<Tree>, x: Token): (j: nat)
    ensures j <= |children|
    ensures j < |children| ==> children[j].HeadIs(x)
    ensures forall i | 0 <= i < j :: !children[i].HeadIs(x)
  {
    if children == [] then 0
    else if children[0].HeadIs(x) then 0
    else 1 + Pick(children[1..], x)
  }

  /** The route stored under a word: the meaning of a tree. */
  function Lookup(n: Tree, w: Word): (r: Option<nat>)
    ensures r.Some? ==> n.kind.Label() <= w
    decreases n, 1
  {
    var name := n.kind.Label();
    if name <= w then Below(n, w[|name|..]) else None
  }

  /** The route stored under the label of `n` followed by `v`. */
  function Below(n: Tree, v: Word): Option<nat>
    decreases n, 0
  {
    if v == [] then n.leaf
    else
      var j := Pick(n.children, v[0]);
      if j < |n.children| then Lookup(n.children[j], v) else None
  }

  ghost function Indices(n: Tree): set<nat>
    decreases n
  {
    (if n.leaf.Some? then {n.leaf.value} else {})
    + (set j, i | 0 <= j < |n.children| && i in Indices(n.children[j]) :: i)
  }

  // ---- invariant ------------------------------------------------------

  /** No child list mixes a wildcard with anything else, and static siblings
      start with different bytes. Every insertion keeps this, whatever it inserts. */
  ghost predicate Siblings(children: seq<Tree>) {
    && (forall i | 0 <= i < |children| :: children[i].kind.Label() != [])
    && (|children| > 1 ==> forall i | 0 <= i < |children| :: children[i].kind.Static?)
    && (forall i, j | 0 <= i < j < |children| :: children[i].kind.Label()[0] != children[j].kind.Label()[0])
  }

  ghost predicate HasCatchAll(children: seq<Tree>) {
    exists i | 0 <= i < |children| :: children[i].kind.CatchAll?
  }

  /** What a compressed trie promises of one node and its children. */
  ghost predicate Shaped(n: Tree) {
    && Siblings(n.children)
    && (n.kind.Static? ==> n.kind.s != "" && NoMarker(n.kind.s))
    && (n.kind.Param? ==> forall i | 0 <= i < |n.children| :: n.children[i].HeadIs(Lit('/')))
    && (n.kind.CatchAll? ==> n.children == [])
    && (n.children == [] ==> n.leaf.Some?)
    && (HasCatchAll(n.children) ==> n.leaf.None?)
    && (n.kind.Static? && n.leaf.None? && |n.children| == 1 ==> !n.children[0].kind.Static?)
  }

  ghost predicate WellShaped(n: Tree)
    decreases n
  {
    Shaped(n) && forall j | 0 <= j < |n.children| :: WellShaped(n.children[j])
  }

  /** At every node, the candidates are the routes stored at or below it. */
  ghost predicate Tallied(n: Tree)
    decreases n
  {
    && (forall i :: i in n.candidates <==> i in Indices(n))
    && forall j | 0 <= j < |n.children| :: Tallied(n.children[j])
  }

  ghost predicate Valid(n: Tree) {
    WellShaped(n) && Tallied(n)
  }

  // ---- insertion ------------------------------------------------------

  /** The length of the longest common prefix. */
  function Lcp<T(==)>(u: seq<T>, v: seq<T>): (k: nat)
    ensures k <= |u| && k <= |v|
    ensures u[..k] == v[..k]
    ensures k < |u| && k < |v| ==> u[k] != v[k]
  {
    if u == [] || v == [] || u[0] != v[0] then 0
    else
      var k := Lcp(u[1..], v[1..]);
      assert u[..k + 1] == [u[0]] + u[1..][..k];
      assert v[..k + 1] == [v[0]] + v[1..][..k];
      k + 1
  }

  /** How many literals a word starts with. */
  function LitRun(w: Word): (k: nat)
    ensures k <= |w|
    ensures forall i | 0 <= i < k :: w[i].Lit?
    ensures k < |w| ==> !w[k].Lit?
    ensures w != [] && w[0].Lit? ==> k > 0
  {
    if w == [] || !w[0].Lit? then 0
    else
      var k := LitRun(w[1..]);
      assert forall i | 1 <= i <= k :: w[i] == w[1..][i - 1];
      k + 1
  }

  /** The kind and the length of the first node of a fresh branch. */
  function FirstKind(w: Word): (r: (Kind, nat))
    requires w != []
    ensures 0 < r.1 <= |w|
    ensures r.0.Label() == w[..r.1]
  {
    match w[0]
    case Lit(_) =>
      var k := LitRun(w);
      assert Lits(Text(w[..k])) == w[..k];
      (Static(Text(w[..k])), k)
    case Par => (Param, 1)
    case Star => (CatchAll, 1)
  }

  /** A fresh branch that stores route `i` under `w`, one node per stretch. */
  function Graft(w: Word, i: nat): (t: Tree)
    requires w != []
    decreases |w|
  {
    var (kind, k) := FirstKind(w);
    if k == |w| then Tree(kind, [i], Some(i), [])
    else Tree(kind, [i], None, [Graft(w[k..], i)])
  }

  /** A fresh branch can be built for `w`: every wildcard but the first one met
      follows a slash. (The first one is not checked.) */
  predicate Graftable(w: Word) {
    forall i | LitRun(w) < i < |w| && !w[i].Lit? :: w[i - 1] == Lit('/')
  }

  datatype ScanResult = At(j: nat) | Absent | Blocked

  /** Search the children for a static label that starts with `x`; a wildcard
      met on the way blocks the search. */
  function Scan(children: seq<Tree>, x: Token): (r: ScanResult)
    ensures r.At? ==> r.j < |children| && children[r.j].HeadIs(x)
  {
    if children == [] then Absent
    else if !children[0].kind.Static? then Blocked
    else if children[0].HeadIs(x) then At(0)
    else
      match Scan(children[1..], x)
      case At(j) => At(j + 1)
      case other => other
  }

  /** What the insertion walk does at one node. */
  datatype Step =
    | Cut(k: nat)    // split the static label after `k` bytes
    | Settle         // the word ends here: become a leaf
    | Sprout         // push a fresh branch for the rest of the word
    | Enter(j: nat)  // walk on into child `j`
    | Refuse

  /** The step at `n` for a word that still holds the label of `n` (for a
      wildcard node: any one wildcard token, whatever its kind). */
  function Plan(n: Tree, w: Word): (r: Step)
    ensures r.Cut? ==> n.kind.Static? && r.k < |n.kind.s| && r.k <= |w|
    ensures r.Enter? ==> r.j < |n.children| && |n.kind.Label()| < |w|
    ensures r.Sprout? ==> |n.kind.Label()| < |w|
  {
    var k := if n.kind.Static? then Lcp(w, n.kind.Label()) else 1;
    if k < |n.kind.Label()| then
      if k < |w| && !(w[k].Lit? && Graftable(w[k..])) then Refuse else Cut(k)
    else PlanBelow(n, w, k)
  }

  /** The step once the `k` tokens of the label are consumed. */
  function PlanBelow(n: Tree, w: Word, k: nat): (r: Step)
    ensures !r.Cut?
    ensures r.Enter? ==> r.j < |n.children| && k < |w|
    ensures r.Sprout? ==> k < |w|
  {
    if |w| <= k then
      if n.leaf.Some? || (exists j | 0 <= j < |n.children| :: n.children[j].kind.CatchAll?) then Refuse
      else Settle
    else if w[k].Lit? then
      match Scan(n.children, w[k])
      case Blocked => Refuse
      case Absent => if Graftable(w[k..]) then Sprout else Refuse
      case At(j) => Enter(j)
    else if n.children == [] then
      if w[k] == Par && Graftable(w[k..]) then Sprout else Refuse
    else if exists j | 0 <= j < |n.children| :: n.children[j].kind.Static? then Refuse
    else if k > 0 && w[k - 1] != Lit('/') then Refuse
    else Enter(0)
  }

  /** Store route `i` under `w` in `n`; `None` when the insertion is refused. */
  function Add(n: Tree, w: Word, i: nat): Option<Tree>
    decreases n
  {
    var seen := WithCandidate(n.candidates, i);
    match Plan(n, w)
    case Refuse => None
    case Cut(k) =>
      var lower := n.(kind := Static(n.kind.s[k..]));
      Some(Tree(Static(n.kind.s[..k]), seen,
                if k == |w| then Some(i) else None,
                if k == |w| then [lower] else [lower, Graft(w[k..], i)]))
    case Settle => Some(n.(candidates := seen, leaf := Some(i)))
    case Sprout => Some(n.(candidates := seen, children := n.children + [Graft(w[|n.kind.Label()|..], i)]))
    case Enter(j) =>
      match Add(n.children[j], w[|n.kind.Label()|..], i)
      case None => None
      case Some(c) => Some(n.(candidates := seen, children := n.children[j := c]))
  }

  /** The first route of an empty tree; the root is always a static node. */
  function Plant(w: Word, i: nat): Tree {
    if w != [] && w[0].Lit? then Graft(w, i)
    else if w == [] then Tree(Static(""), [i], Some(i), [])
    else Tree(Static(""), [i], None, [Graft(w, i)])
  }
}
