/** The recognizer as a value: an insertion-ordered map of patterns, a trie
    over their erased forms and the slot of the pattern `*`. */
module Routing {
  import opened Options
  import opened Patterns
  import opened Trie
  import opened Leaves
  import opened Insertion
  import opened Recognition
  import opened Refinement

  datatype Router = Router(keys: seq<string>, root: Option<Tree>, asterisk: Option<nat>)

  const EMPTY := Router([], None, None)

  /** Insertion into an insertion-ordered map keeps the place of a known key. */
  function MapInsert(keys: seq<string>, key: string): seq<string> {
    if key in keys then keys else keys + [key]
  }

  function InsertTree(root: Option<Tree>, path: string, i: nat): Option<Tree> {
    match Erase(path, 0)
    case None => None
    case Some(w) =>
      match root
      case None => if Graftable(w) then Some(Plant(w, i)) else None
      case Some(t) => Add(t, w, i)
  }

  /** One insertion; `None` when it is refused. */
  function Insert(r: Router, path: string): Option<Router> {
    if !IsAscii(path) then None
    else if path == "*" then
      if r.asterisk.Some? then None
      else Some(Router(MapInsert(r.keys, path), r.root, Some(|r.keys|)))
    else
      match InsertTree(r.root, path, |r.keys|)
      case None => None
      case Some(t) => Some(Router(MapInsert(r.keys, path), Some(t), r.asterisk))
  }

  /** A run: insertions in order, stopping at the first refusal. */
  function Run(ps: seq<string>): Option<Router> {
    if ps == [] then Some(EMPTY)
    else
      match Run(ps[..|ps| - 1])
      case None => None
      case Some(r) => Insert(r, ps[|ps| - 1])
  }

  /** A run ends with an insertion into what the patterns before it built. */
  lemma {:induction false} RunStep(ps: seq<string>, p: string)
    ensures Run(ps + [p]).Some? ==> Run(ps).Some?
    ensures Run(ps + [p]).Some? ==>
      var r, r' := Run(ps).value, Run(ps + [p]).value;
      && Insert(r, p) == Some(r')
      && (if p == "*" then r'.root == r.root else r'.root.Some? && InsertTree(r.root, p, |r.keys|) == r'.root)
  {
    assert (ps + [p])[..|ps|] == ps;
  }

  function Recognize(r: Router, path: string): Reply<seq<nat>> {
    if path == "*" then
      match r.asterisk
      case Some(i) => Reply(Matched(i), None)
      case None => Reply(NotMatched, None)
    else
      match r.root
      case None => Reply(NotMatched, None)
      case Some(t) => Walk(t, path, 0, None)
  }

  // ---- patterns -----------------------------------------------------------

  /** The patterns that reach the recognizer: `*`, or a text that starts with a
      slash and in which every marker follows a slash. */
  predicate Rooted(p: string) {
    p == "*" || (p != "" && p[0] == '/' && SpacedText(p, 0))
  }

  /** A pattern the recognizer may accept on its own. */
  predicate Fine(p: string) {
    IsAscii(p) && (p == "*" || Erase(p, 0).Some?)
  }

  function WordOf(p: string): Option<Word> {
    if p == "*" then None else Erase(p, 0)
  }

  function WordsOf(ps: seq<string>): (ws: Words)
    ensures |ws| == |ps|
    ensures forall i | 0 <= i < |ps| :: ws[i] == WordOf(ps[i])
  {
    seq(|ps|, i requires 0 <= i < |ps| => WordOf(ps[i]))
  }

  predicate Clash(p: string, q: string) {
    if p == "*" || q == "*" then p == q
    else Erase(p, 0).Some? && Erase(q, 0).Some? && Conflict(Erase(p, 0).value, Erase(q, 0).value)
  }

  predicate KindsAgree(p: string, q: string) {
    WordOf(p).Some? && WordOf(q).Some? ==> SameKinds(WordOf(p).value, WordOf(q).value)
  }

  ghost predicate AllRooted(ps: seq<string>) {
    forall i | 0 <= i < |ps| :: Rooted(ps[i])
  }

  ghost predicate KindConsistent(ps: seq<string>) {
    forall i, j | 0 <= i < j < |ps| :: KindsAgree(ps[i], ps[j])
  }

  ghost predicate Compatible(ps: seq<string>) {
    && (forall i | 0 <= i < |ps| :: Fine(ps[i]))
    && (forall i, j | 0 <= i < j < |ps| :: !Clash(ps[i], ps[j]))
  }

  // ---- what a run builds ----------------------------------------------------

  /** The router holds exactly the patterns `ps`, each under its own index. */
  ghost predicate Represents(r: Router, ps: seq<string>) {
    && r.keys == ps
    && (forall i | 0 <= i < |ps| :: Rooted(ps[i]) && Fine(ps[i]))
    && (match r.asterisk
        case Some(i) => i < |ps| && ps[i] == "*"
        case None => "*" !in ps)
    && Distinct(WordsOf(ps))
    && (match r.root
        case Some(t) => Valid(t) && t.HeadIs(Lit('/')) && forall w :: Lookup(t, w) == Find(WordsOf(ps), w)
        case None => forall i | 0 <= i < |ps| :: ps[i] == "*")
  }

  lemma {:induction false} RootedWord(p: string)
    requires Rooted(p) && WordOf(p).Some?
    ensures var w := WordOf(p).value; w != [] && w[0] == Lit('/') && WellFormed(w)
  {
    EraseWellFormed(p, 0);
  }

  lemma {:induction false} FindAfterPush(words: Words, last: Option<Word>, w: Word)
    ensures Find(words + [last], w) ==
            if Find(words, w).Some? then Find(words, w)
            else if last == Some(w) then Some(|words|) else None
  {
    assert (words + [last])[..|words|] == words;
  }

  lemma {:induction false} WordsAfterPush(ps: seq<string>, p: string)
    ensures WordsOf(ps + [p]) == WordsOf(ps) + [WordOf(p)]
  {
  }

  /** One insertion of a pattern whose kinds agree with the stored ones is
      refused exactly on a malformed pattern or a clash, and otherwise the
      pattern is stored under the next index. */
  lemma {:induction false} InsertRepresents(r: Router, ps: seq<string>, p: string)
    requires Represents(r, ps) && Rooted(p)
    requires forall i | 0 <= i < |ps| :: KindsAgree(ps[i], p)
    ensures Insert(r, p).Some? <==> Fine(p) && forall i | 0 <= i < |ps| :: !Clash(ps[i], p)
    ensures Insert(r, p).Some? ==> Represents(Insert(r, p).value, ps + [p])
  {
    WordsAfterPush(ps, p);
    if p == "*" {
      assert IsAscii(p);
      forall w ensures Find(WordsOf(ps + [p]), w) == Find(WordsOf(ps), w) {
        FindAfterPush(WordsOf(ps), None, w);
      }
    } else if Fine(p) {
      RootedWord(p);
      InsertWord(r, ps, p);
    }
  }

  lemma {:induction false} StoredFits(t: Tree, ps: seq<string>, w: Word, p: string)
    requires Valid(t) && t.HeadIs(Lit('/')) && Rooted(p) && WordOf(p) == Some(w)
    requires forall v :: Lookup(t, v) == Find(WordsOf(ps), v)
    requires forall i | 0 <= i < |ps| :: KindsAgree(ps[i], p)
    ensures Fits(t, w)
  {
    RootedWord(p);
    forall u | Lookup(t, u).Some? ensures SameKinds(w, u) {
      var i := Find(WordsOf(ps), u).value;
      assert KindsAgree(ps[i], p);
      ConflictIsSymmetric(u, w);
    }
  }

  lemma {:induction false} ClashIsConflict(t: Tree, ps: seq<string>, w: Word, p: string)
    requires p != "*" && WordOf(p) == Some(w)
    requires Distinct(WordsOf(ps))
    requires forall i | 0 <= i < |ps| :: Fine(ps[i])
    requires forall v :: Lookup(t, v) == Find(WordsOf(ps), v)
    ensures (forall u :: Lookup(t, u).Some? ==> !Conflict(w, u)) <==> (forall i | 0 <= i < |ps| :: !Clash(ps[i], p))
  {
    if u :| Lookup(t, u).Some? && Conflict(w, u) {
      var i := Find(WordsOf(ps), u).value;
      ConflictIsSymmetric(u, w);
      assert Clash(ps[i], p);
    }
    if i :| 0 <= i < |ps| && Clash(ps[i], p) {
      var u := WordOf(ps[i]).value;
      FindIs(WordsOf(ps), i, u);
      ConflictIsSymmetric(u, w);
      assert Lookup(t, u).Some?;
    }
  }

  lemma {:induction false} InsertWord(r: Router, ps: seq<string>, p: string)
    requires Represents(r, ps) && Rooted(p) && p != "*" && Fine(p)
    requires forall i | 0 <= i < |ps| :: KindsAgree(ps[i], p)
    ensures Insert(r, p).Some? <==> forall i | 0 <= i < |ps| :: !Clash(ps[i], p)
    ensures Insert(r, p).Some? ==> Represents(Insert(r, p).value, ps + [p])
  {
    var w := WordOf(p).value;
    RootedWord(p);
    WordsAfterPush(ps, p);
    var words := WordsOf(ps);
    match r.root
    case None =>
      GraftShaped(w, |ps|);
      GraftTallied(w, |ps|);
      GraftHead(w, |ps|);
      forall v ensures Lookup(Graft(w, |ps|), v) == Find(WordsOf(ps + [p]), v) {
        GraftLookup(w, |ps|, v);
        FindAfterPush(words, Some(w), v);
      }
    case Some(t) =>
      StoredFits(t, ps, w, p);
      AddAcceptsExactly(t, w, |ps|);
      ClashIsConflict(t, ps, w, p);
      if Add(t, w, |ps|).Some? {
        GrownTree(t, ps, w, p);
        DistinctAfterPush(t, ps, w, p);
      }
  }

  lemma {:induction false} GrownTree(t: Tree, ps: seq<string>, w: Word, p: string)
    requires Fits(t, w) && Tallied(t) && t.HeadIs(Lit('/')) && w[0] == Lit('/')
    requires Add(t, w, |ps|).Some? && WordOf(p) == Some(w)
    requires forall v :: Lookup(t, v) == Find(WordsOf(ps), v)
    ensures var t' := Add(t, w, |ps|).value;
      Valid(t') && t'.HeadIs(Lit('/')) && forall v :: Lookup(t', v) == Find(WordsOf(ps + [p]), v)
  {
    AddShaped(t, w, |ps|);
    AddTallied(t, w, |ps|);
    AddKeepsHead(t, w, |ps|);
    WordsAfterPush(ps, p);
    forall v ensures Lookup(Add(t, w, |ps|).value, v) == Find(WordsOf(ps + [p]), v) {
      AddLookup(t, w, |ps|, v);
      FindAfterPush(WordsOf(ps), Some(w), v);
      if v == w && Lookup(t, v).Some? {
        AddAccepts(t, w, |ps|, v);
        EqualWordsConflict(w);
      }
    }
  }

  lemma {:induction false} DistinctAfterPush(t: Tree, ps: seq<string>, w: Word, p: string)
    requires Fits(t, w) && Add(t, w, |ps|).Some? && WordOf(p) == Some(w)
    requires Distinct(WordsOf(ps)) && forall v :: Lookup(t, v) == Find(WordsOf(ps), v)
    ensures Distinct(WordsOf(ps + [p])) && p !in ps
  {
    WordsAfterPush(ps, p);
    if Lookup(t, w).Some? {
      AddAccepts(t, w, |ps|, w);
      EqualWordsConflict(w);
    }
  }

  /** Exact acceptance of a whole run, and what it builds. */
  lemma {:induction false} RunRepresents(ps: seq<string>)
    requires AllRooted(ps) && KindConsistent(ps)
    ensures Run(ps).Some? <==> Compatible(ps)
    ensures Run(ps).Some? ==> Represents(Run(ps).value, ps)
    decreases |ps|
  {
    if ps != [] {
      var front, p := ps[..|ps| - 1], ps[|ps| - 1];
      assert ps == front + [p];
      assert AllRooted(front) && KindConsistent(front);
      RunRepresents(front);
      CompatiblePush(front, p);
      if Run(front).Some? {
        InsertRepresents(Run(front).value, front, p);
      }
    }
  }

  lemma {:induction false} CompatiblePush(front: seq<string>, p: string)
    ensures Compatible(front + [p]) <==>
            Compatible(front) && Fine(p) && forall i | 0 <= i < |front| :: !Clash(front[i], p)
  {
    var ps := front + [p];
    assert ps[|front|] == p;
    assert forall i | 0 <= i < |front| :: ps[i] == front[i];
  }

  /** Recognition is prefix filtering over the registered patterns. */
  lemma {:induction false} RecognizeIsFilter(ps: seq<string>, path: string)
    requires AllRooted(ps) && KindConsistent(ps) && Run(ps).Some? && path != "*"
    requires Live(WordsOf(ps), [])
    ensures AsSet(Recognize(Run(ps).value, path)) == Filter(WordsOf(ps), [], path, 0, false, None)
  {
    RunRepresents(ps);
    var words := WordsOf(ps);
    var i :| 0 <= i < |ps| && Extends(words, i, []);
    assert ps[i] != "*";
    var t := Run(ps).value.root.value;
    assert Enters(words, [], t) by {
      forall v: Word | v != [] && t.HeadIs(v[0]) ensures Find(words, [] + v) == Lookup(t, v) {
        assert [] + v == v;
      }
    }
    EntersThenStands(words, [], t);
    assert [] + t.kind.Label() == t.kind.Label();
    RootFunnels(words, t);
    CompareIsFilter(words, [], t, t.kind.s, path, 0, None);
  }

  lemma {:induction false} RootFunnels(words: Words, t: Tree)
    requires Distinct(words) && forall w :: Lookup(t, w) == Find(words, w)
    requires Live(words, [])
    ensures Funnel(words, [], t.kind.Label())
  {
    forall i | 0 <= i < |words| && Extends(words, i, []) ensures Extends(words, i, [] + t.kind.Label()) {
      FindIs(words, i, words[i].value);
      assert Lookup(t, words[i].value).Some?;
    }
  }
}
