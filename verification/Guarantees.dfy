/** The router's promises, stated over runs: which pattern lists are accepted,
    what recognition then returns, and that the order of insertion is immaterial. */
module Guarantees {
  import opened Options
  import opened Patterns
  import opened Trie
  import opened Insertion
  import opened Recognition
  import opened Refinement
  import opened Routing
  import opened Matching

  /** A run that was accepted, over patterns whose wildcard kinds agree. */
  ghost predicate Accepted(ps: seq<string>) {
    AllRooted(ps) && KindConsistent(ps) && Run(ps).Some?
  }

  lemma {:induction false} AcceptedIsCoherent(ps: seq<string>)
    requires Accepted(ps)
    ensures Coherent(WordsOf(ps))
  {
    RunRepresents(ps);
    var words := WordsOf(ps);
    forall i | 0 <= i < |words| && words[i].Some?
      ensures WellFormed(words[i].value) && words[i].value != [] && words[i].value[0] == Lit('/')
    {
      RootedWord(ps[i]);
    }
    forall i, j | 0 <= i < |words| && 0 <= j < |words| && i != j && words[i].Some? && words[j].Some?
      ensures !Conflict(words[i].value, words[j].value) && SameKinds(words[i].value, words[j].value)
    {
      var a, b := if i < j then i else j, if i < j then j else i;
      assert !Clash(ps[a], ps[b]) && KindsAgree(ps[a], ps[b]);
      ConflictIsSymmetric(words[a].value, words[b].value);
    }
  }

  /** Completeness: every instance of a registered pattern is matched to that
      pattern, with exactly the replacements as captured spans. */
  lemma {:induction false} InstancesAreMatched(ps: seq<string>, i: nat, args: seq<string>)
    requires Accepted(ps) && i < |ps| && WordOf(ps[i]).Some?
    requires |args| == Wilds(WordOf(ps[i]).value) && Proper(WordOf(ps[i]).value, args)
    ensures var w := WordOf(ps[i]).value;
      Recognize(Run(ps).value, Fill(w, args)) == Reply(Matched(i), Capture(w, SpansOf(w, args, 0), None))
  {
    var w := WordOf(ps[i]).value;
    var path := Fill(w, args);
    RootedWord(ps[i]);
    AcceptedIsCoherent(ps);
    assert [] + w == w;
    assert path[0..] == path;
    ProperIsAmple(w, args);
    FilterComplete(WordsOf(ps), i, [], w, args, path, 0, None);
    RecognizeIsFilter(ps, path);
  }

  /** Soundness: a matched pattern, filled with the captured texts, is the path
      itself, or the path and the literal stretch it ran out in just before a
      last wildcard that captured the empty span at the end of the path. */
  lemma {:induction false} MatchesReexpand(ps: seq<string>, path: string) returns (spans: seq<Span>, slack: string)
    requires Accepted(ps) && path != "*"
    requires Recognize(Run(ps).value, path).outcome.Matched?
    ensures var r := Recognize(Run(ps).value, path);
      && r.outcome.i < |ps| && WordOf(ps[r.outcome.i]).Some?
      && var w := WordOf(ps[r.outcome.i]).value;
        && |spans| == Wilds(w) && r.captures == Capture(w, spans, None)
        && Reexpands(w, spans, slack, path, 0)
        && ((Wilds(w) == 0 || forall m | 0 <= m < |spans| :: spans[m].0 < spans[m].1)
           ==> Fill(w, Texts(path, spans)) == path)
  {
    AcceptedIsCoherent(ps);
    SomePatternIsLive(ps, path);
    RecognizeIsFilter(ps, path);
    var v;
    v, spans, slack := FilterSound(WordsOf(ps), [], path, 0, false, None);
    assert [] + v == v;
    assert path[0..] + "" == path;
  }

  lemma {:induction false} SomePatternIsLive(ps: seq<string>, path: string)
    requires Accepted(ps) && path != "*" && Recognize(Run(ps).value, path) != Reply(NotMatched, None)
    ensures Live(WordsOf(ps), [])
  {
    RunRepresents(ps);
    var w := SomeWord(Run(ps).value.root.value);
    assert Extends(WordsOf(ps), Find(WordsOf(ps), w).value, []);
  }

  /** The path `*` is matched by the pattern `*` and by nothing else. */
  lemma {:induction false} AsteriskIsMatched(ps: seq<string>, i: nat)
    requires Accepted(ps)
    ensures Recognize(Run(ps).value, "*").outcome == Matched(i) <==> i < |ps| && ps[i] == "*"
    ensures "*" !in ps ==> Recognize(Run(ps).value, "*").outcome == NotMatched
  {
    RunRepresents(ps);
    if i < |ps| && ps[i] == "*" {
      var j := Run(ps).value.asterisk.value;
      assert Clash(ps[i], ps[j]) && Clash(ps[j], ps[i]);
    }
  }

  /** A path that is not matched at all is a prefix of no instance of any
      registered pattern. */
  lemma {:induction false} MissesAreNoPrefix(ps: seq<string>, path: string, i: nat, args: seq<string>)
    requires Accepted(ps) && path != "*"
    requires Recognize(Run(ps).value, path).outcome.NotMatched?
    requires i < |ps| && WordOf(ps[i]).Some?
    requires |args| == Wilds(WordOf(ps[i]).value) && Loose(WordOf(ps[i]).value, args)
    ensures !(path <= Fill(WordOf(ps[i]).value, args))
  {
    var w := WordOf(ps[i]).value;
    AcceptedIsCoherent(ps);
    assert Extends(WordsOf(ps), i, []);
    RecognizeIsFilter(ps, path);
    assert [] + w == w;
    FilterMiss(WordsOf(ps), [], path, 0, None, i, w, args);
    assert path[0..] == path;
  }

  /** No path is an instance of two registered patterns. */
  lemma {:induction false} InstancesAreDisjoint(ps: seq<string>, i: nat, j: nat, args: seq<string>, args': seq<string>)
    requires Accepted(ps) && i < |ps| && j < |ps| && WordOf(ps[i]).Some? && WordOf(ps[j]).Some?
    requires |args| == Wilds(WordOf(ps[i]).value) && Proper(WordOf(ps[i]).value, args)
    requires |args'| == Wilds(WordOf(ps[j]).value) && Proper(WordOf(ps[j]).value, args')
    requires Fill(WordOf(ps[i]).value, args) == Fill(WordOf(ps[j]).value, args')
    ensures i == j
  {
    InstancesAreMatched(ps, i, args);
    InstancesAreMatched(ps, j, args');
  }
}
