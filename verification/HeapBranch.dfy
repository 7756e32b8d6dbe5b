/** Building a fresh branch of the trie in memory from the rest of a pattern. */
module HeapBranch {
  import opened Options
  import opened Patterns
  import opened Trie
  import opened HeapTree

  /** The end of the wildcard at `k`, for a search that started at `start`: a
      wildcard further on must follow a slash. */
  function WildcardEndFrom(path: string, start: nat, k: nat): (r: Option<nat>)
    requires k < |path| && IsMarker(path[k])
    ensures r.Some? ==> k + 1 < r.value <= |path| && (r.value < |path| ==> path[r.value] == '/')
  {
    if k > start && path[k - 1] != '/' then None else WildcardEnd(path, k)
  }

  method FindWildcardEnd(path: string, start: nat, k: nat) returns (r: Option<nat>)
    requires start <= k < |path| && IsMarker(path[k])
    ensures r == WildcardEndFrom(path, start, k)
  {
    if k > start && path[k - 1] != '/' {
      return None;
    }
    var end := k + 1;
    while end < |path| && path[end] != '/'
      invariant k + 1 <= end <= |path|
      invariant NoMarker(path[k + 1..end])
      invariant SegmentEnd(path, k + 1) == SegmentEnd(path, end)
    {
      if IsMarker(path[end]) {
        assert path[k + 1..SegmentEnd(path, k + 1)][end - k - 1] == path[end];
        return None;
      }
      assert path[k + 1..end + 1] == path[k + 1..end] + [path[end]];
      end := end + 1;
    }
    if end == k + 1 {
      return None;
    }
    if path[k] == '*' && end < |path| {
      return None;
    }
    return Some(end);
  }

  /** Every wildcard of the word but a leading one follows a slash. */
  predicate Spaced(w: Word) {
    forall i | 0 < i < |w| && !w[i].Lit? :: w[i - 1] == Lit('/')
  }

  function TokenOf(c: char): Token {
    if c == ':' then Par else Star
  }

  function KindOf(c: char): Kind {
    if c == ':' then Param else CatchAll
  }

  /** The one node of a fresh branch that holds `kind` and is followed by `rest`. */
  function Stem(kind: Kind, rest: Word, i: nat): Tree {
    if rest == [] then Tree(kind, [i], Some(i), []) else Tree(kind, [i], None, [Graft(rest, i)])
  }

  lemma {:induction false} GraftOfWildcard(x: Token, rest: Word, i: nat)
    requires !x.Lit?
    ensures Graft([x] + rest, i) == Stem(if x == Par then Param else CatchAll, rest, i)
  {
    var w := [x] + rest;
    assert w[1..] == rest;
  }

  lemma {:induction false} LitRunOf(s: string, rest: Word)
    requires rest != [] ==> !rest[0].Lit?
    ensures LitRun(Lits(s) + rest) == |s|
    decreases |s|
  {
    var w := Lits(s) + rest;
    if s != "" {
      LitRunOf(s[1..], rest);
      assert w[1..] == Lits(s[1..]) + rest;
    } else {
      assert w == rest;
    }
  }

  lemma {:induction false} GraftOfLiterals(s: string, rest: Word, i: nat)
    requires s != "" && (rest != [] ==> !rest[0].Lit?)
    ensures Graft(Lits(s) + rest, i) == Stem(Static(s), rest, i)
  {
    var w := Lits(s) + rest;
    LitRunOf(s, rest);
    assert w[0] == Lit(s[0]);
    assert w[..|s|] == Lits(s) && w[|s|..] == rest;
    assert Text(Lits(s)) == s;
  }

  lemma {:induction false} GraftableIsSpaced(s: string, rest: Word)
    requires rest != [] ==> !rest[0].Lit?
    ensures Graftable(Lits(s) + rest) <==> Spaced(rest)
  {
    LitRunOf(s, rest);
    var w := Lits(s) + rest;
    assert forall i | 0 <= i < |rest| :: rest[i] == w[|s| + i];
    if Graftable(w) {
      forall i | 0 < i < |rest| && !rest[i].Lit? ensures rest[i - 1] == Lit('/') {
        assert !w[|s| + i].Lit?;
      }
    }
  }

  lemma {:induction false} SpacedCons(x: Token, rest: Word)
    ensures Spaced([x] + rest) <==> Spaced(rest) && (rest != [] && !rest[0].Lit? ==> x == Lit('/'))
  {
    var w := [x] + rest;
    if Spaced(w) {
      forall i | 0 < i < |rest| && !rest[i].Lit? ensures rest[i - 1] == Lit('/') {
        assert w[i + 1] == rest[i] && w[i] == rest[i - 1];
      }
      if rest != [] {
        assert w[1] == rest[0] && w[0] == x;
        assert !w[1].Lit? ==> w[1 - 1] == Lit('/');
      }
    }
    if Spaced(rest) && (rest != [] && !rest[0].Lit? ==> x == Lit('/')) {
      forall i | 0 < i < |w| && !w[i].Lit? ensures w[i - 1] == Lit('/') {
        assert w[i] == rest[i - 1] && (i > 1 ==> w[i - 1] == rest[i - 2]);
      }
    }
  }

  lemma {:induction false} SpacedLits(s: string, rest: Word)
    ensures Spaced(Lits(s) + rest) <==>
            Spaced(rest) && (s != "" && rest != [] && !rest[0].Lit? ==> s[|s| - 1] == '/')
    decreases |s|
  {
    var w := Lits(s) + rest;
    if s == "" {
      assert w == rest;
    } else {
      var tail := Lits(s[1..]) + rest;
      assert w == [Lit(s[0])] + tail;
      SpacedCons(Lit(s[0]), tail);
      SpacedLits(s[1..], rest);
      assert s[1..] == "" ==> tail == rest;
    }
  }

  /** Spacing of a wildcard, a stretch of literals and the rest. */
  lemma {:induction false} SpacedParts(x: Token, s: string, rest: Word)
    requires !x.Lit? && (rest != [] ==> !rest[0].Lit?)
    ensures Spaced([x] + (Lits(s) + rest)) <==>
            Spaced(rest) && (rest != [] ==> s != "" && s[|s| - 1] == '/')
  {
    SpacedCons(x, Lits(s) + rest);
    SpacedLits(s, rest);
    assert s == "" ==> Lits(s) + rest == rest;
  }

  /** The rest of the pattern from a wildcard on: its token, the literals up to
      the next wildcard at `j`, and what follows. */
  lemma {:induction false} EraseFromWildcard(path: string, start: nat, k: nat)
    requires start <= k < |path| && IsMarker(path[k])
    ensures var e := WildcardEnd(path, k);
      e.None? ==> Erase(path, k).None?
    ensures var e := WildcardEnd(path, k);
      e.Some? ==>
        var j := WildcardBegin(path, e.value);
        Erase(path, k) == Prepend([TokenOf(path[k])], Prepend(Lits(path[e.value..j]), Erase(path, j)))
  {
    var e := WildcardEnd(path, k);
    if e.Some? {
      EraseLiterals(path, e.value, WildcardBegin(path, e.value));
    }
  }

  /** The rest of a pattern at the end or at a wildcard starts with that wildcard. */
  lemma {:induction false} EraseAtWildcard(path: string, k: nat)
    requires k <= |path| && (k < |path| ==> IsMarker(path[k]))
    ensures Erase(path, k).Some? ==> var w := Erase(path, k).value;
      (w == [] <==> k == |path|) && (w != [] ==> w[0] == TokenOf(path[k]))
  {
  }

  /** `added` holds a complete branch that hangs under `n` as child `c`. */
  ghost predicate Branch(added: set<Node>, c: Node, n: Node, slot: nat)
    reads added
  {
    && c in added && c.parent == n && c.slot == slot && n !in added
    && Forest(added) && forall x | x in added :: Settled(x)
  }

  /** A branch under `n` that has grown down to `m`. The views are final if the
      insertion is `good`; `m` still lacks what stores `rest` below it. */
  ghost predicate Growing(added: set<Node>, n: Node, m: Node, w: Word, rest: Word, index: nat, good: bool)
    reads added, n
  {
    && n !in added && Forest(added)
    && (m == n || m in added) && (m == n <==> added == {}) && m.children == []
    && (m != n ==> |n.children| == 1 && n.children[0] in added && n.children[0].parent == n && n.children[0].slot == 0)
    && (m != n ==> m.candidates == [index] && m.leaf == None)
    && (good ==> forall x | x in added && x != m :: Settled(x))
    && (good && m == n ==> rest == w)
    && (good && m != n ==> w != [] && n.children[0].view == Graft(w, index) && m.view == Stem(m.kind, rest, index))
  }

  /** Append to a growing branch the node that holds the next part of the word. */
  method Grow(ghost added: set<Node>, ghost n: Node, m: Node, kind: Kind, index: nat,
              ghost good: bool, ghost w: Word, ghost rest: Word, ghost next: Word)
    returns (c: Node)
    requires Growing(added, n, m, w, rest, index, good)
    requires good ==> rest != [] && Graft(rest, index) == Stem(kind, next, index)
    modifies m
    ensures fresh(c) && Growing(added + {c}, n, c, w, next, index, good)
    ensures n.kind == old(n.kind) && n.candidates == old(n.candidates) && n.leaf == old(n.leaf)
    ensures n.view == old(n.view) && n.parent == old(n.parent) && n.slot == old(n.slot)
  {
    c := new Node(kind, [index], None, []);
    c.parent, c.slot, c.view := m, 0, Stem(kind, next, index);
    m.children := m.children + [c];
    assert Views(m.children) == [c.view];
    forall x | x in added && x != m ensures Linked(added + {c}, x) && (old(Settled(x)) ==> Settled(x)) {
      assert old(Linked(added, x));
      assert Views(x.children) == old(Views(x.children));
    }
  }

  /** Grow the wildcard at `pos` and the stretch of literals after it. */
  method GrowSegment(ghost added: set<Node>, ghost n: Node, m: Node, path: string, start: nat, pos: nat, index: nat,
                     ghost good: bool, ghost w: Word, ghost rest: Word)
    returns (ok: bool, last: Node, pos': nat, ghost added': set<Node>, ghost rest': Word)
    requires start <= pos < |path| && IsMarker(path[pos])
    requires Growing(added, n, m, w, rest, index, good)
    requires good <==> GoodRest(path, start, pos)
    requires good ==> Erase(path, pos) == Some(rest)
    modifies m
    ensures fresh(added' - added) && added <= added'
    ensures n.kind == old(n.kind) && n.candidates == old(n.candidates) && n.leaf == old(n.leaf)
    ensures n.view == old(n.view) && n.parent == old(n.parent) && n.slot == old(n.slot)
    ensures !ok ==> !good
    ensures ok ==> pos < pos' <= |path| && (pos' < |path| ==> IsMarker(path[pos']))
    ensures ok ==> Growing(added', n, last, w, rest', index, good) && fresh(last)
    ensures ok ==> (good <==> GoodRest(path, start, pos'))
    ensures ok && good ==> Erase(path, pos') == Some(rest')
  {
    last, pos', added', rest' := m, pos, added, rest;
    var end := FindWildcardEnd(path, start, pos);
    GoodRestStep(path, start, pos);
    if end == None {
      return false, last, pos', added', rest';
    }
    ok := true;
    ghost var x := TokenOf(path[pos]);
    ghost var j := WildcardBegin(path, end.value);
    ghost var next := if good then Erase(path, j).value else [];
    ghost var after := Lits(path[end.value..j]) + next;
    if good {
      GraftOfWildcard(x, after, index);
    }
    last := Grow(added, n, m, KindOf(path[pos]), index, good, w, rest, after);
    added' := added + {last};
    pos' := end.value;
    EraseAtWildcard(path, j);
    if pos' < |path| {
      pos' := WildcardBegin(path, pos');
      if good {
        GraftOfLiterals(path[end.value..j], next, index);
      }
      last := Grow(added', n, last, Static(path[end.value..pos']), index, good, w, after, next);
      added' := added' + {last};
    } else {
      assert after == next;
    }
    rest' := next;
  }

  /** The end of a growing branch becomes the leaf. */
  method Finish(ghost added: set<Node>, ghost n: Node, m: Node, index: nat, ghost w: Word)
    requires Growing(added, n, m, w, [], index, true) && m.leaf == None
    modifies m
    ensures n.kind == old(n.kind) && n.candidates == old(n.candidates)
    ensures n.view == old(n.view) && n.parent == old(n.parent) && n.slot == old(n.slot)
    ensures if w == [] then added == {} && n.children == [] && n.leaf == Some(index)
            else n.leaf == old(n.leaf) && |n.children| == 1
                 && Branch(added, n.children[0], n, 0) && n.children[0].view == Graft(w, index)
  {
    m.leaf := Some(index);
    forall y | y in added ensures Linked(added, y) && Settled(y) {
      assert old(Linked(added, y));
      assert Views(y.children) == old(Views(y.children));
    }
  }

  /** Grow a branch for `path[start..]` under the childless node `n`; with
      nothing left, `n` itself becomes the leaf. */
  method InsertChild(n: Node, path: string, start: nat, index: nat) returns (ok: bool, ghost added: set<Node>)
    requires start <= |path| && (start < |path| ==> IsMarker(path[start]))
    requires n.children == [] && (start == |path| ==> n.leaf == None)
    modifies n
    ensures fresh(added)
    ensures n.kind == old(n.kind) && n.candidates == old(n.candidates)
    ensures n.view == old(n.view) && n.parent == old(n.parent) && n.slot == old(n.slot)
    ensures ok <==> Erase(path, start).Some? && Spaced(Erase(path, start).value)
    ensures ok ==> var w := Erase(path, start).value;
      if w == [] then added == {} && n.children == [] && n.leaf == Some(index)
      else n.leaf == old(n.leaf) && |n.children| == 1
           && Branch(added, n.children[0], n, 0) && n.children[0].view == Graft(w, index)
  {
    ghost var good := GoodRest(path, start, start);
    ghost var w := if good then Erase(path, start).value else [];
    ghost var rest := w;
    added := {};
    var m, pos := n, start;
    while pos < |path|
      invariant start <= pos <= |path| && (pos < |path| ==> IsMarker(path[pos]))
      invariant fresh(added) && Growing(added, n, m, w, rest, index, good)
      invariant n.kind == old(n.kind) && n.candidates == old(n.candidates) && n.leaf == old(n.leaf)
      invariant n.view == old(n.view) && n.parent == old(n.parent) && n.slot == old(n.slot)
      invariant good <==> GoodRest(path, start, pos)
      invariant good ==> Erase(path, pos) == Some(rest)
      invariant m == n <==> pos == start
    {
      ok, m, pos, added, rest := GrowSegment(added, n, m, path, start, pos, index, good, w, rest);
      if !ok {
        return false, added;
      }
    }
    Finish(added, n, m, index, w);
    ok := true;
  }

  /** The rest of a pattern, from a wildcard or the end on, can still be grown. */
  ghost predicate GoodRest(path: string, start: nat, k: nat)
    requires start <= k <= |path|
  {
    && Erase(path, k).Some? && Spaced(Erase(path, k).value)
    && (start < k < |path| ==> path[k - 1] == '/')
  }

  /** One wildcard and the stretch of literals after it. */
  lemma {:induction false} GoodRestStep(path: string, start: nat, k: nat)
    requires start <= k < |path| && IsMarker(path[k])
    ensures var e := WildcardEndFrom(path, start, k);
      if e.None? then !GoodRest(path, start, k)
      else
        var j := WildcardBegin(path, e.value);
        && (GoodRest(path, start, k) <==> GoodRest(path, start, j))
        && (GoodRest(path, start, k) ==>
              Erase(path, k).value == [TokenOf(path[k])] + (Lits(path[e.value..j]) + Erase(path, j).value))
  {
    EraseFromWildcard(path, start, k);
    var e := WildcardEndFrom(path, start, k);
    if e.Some? {
      var j := WildcardBegin(path, e.value);
      EraseAtWildcard(path, j);
      if Erase(path, j).Some? {
        var s := path[e.value..j];
        SpacedParts(TokenOf(path[k]), s, Erase(path, j).value);
        assert s != "" ==> s[|s| - 1] == path[j - 1];
      }
    }
  }
}
