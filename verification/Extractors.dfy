/** Poll combinators of extractors: `Chain` runs two futures one after the
    other, `Or` races them. A future is what each of its polls gives. */
module Extractors {
  import opened Options

  datatype Polled<+T, +E> = NotReady | Ready(value: T) | Failed(error: E)

  /** What the polls of a future give, in order. */
  type Script<T, E> = nat -> Polled<T, E>

  /** The first of the polls `0..n` that is not `NotReady`. */
  function First<T, E>(s: Script<T, E>, n: nat): (r: Option<nat>)
    ensures r.Some? ==> r.value <= n && !s(r.value).NotReady? && forall k | 0 <= k < r.value :: s(k).NotReady?
    ensures r.None? ==> forall k | 0 <= k <= n :: s(k).NotReady?
  {
    if n > 0 && First(s, n - 1).Some? then First(s, n - 1)
    else if s(n).NotReady? then None
    else Some(n)
  }

  /** A future in progress. Polling it again after it has finished is an error. */
  class Future<T, E> {
    const script: Script<T, E>
    var polls: nat

    constructor (script: Script<T, E>)
      ensures this.script == script && polls == 0
    {
      this.script := script;
      polls := 0;
    }

    ghost predicate Live()
      reads this
    {
      forall k | 0 <= k < polls :: script(k).NotReady?
    }

    method Poll() returns (r: Polled<T, E>)
      requires Live()
      modifies this
      ensures r == script(old(polls)) && polls == old(polls) + 1
    {
      r := script(polls);
      polls := polls + 1;
    }
  }

  datatype Stage<+T> = Done(value: T) | Pending | Gone

  class MaybeDone<T, E> {
    const future: Future<T, E>
    var stage: Stage<T>

    constructor (future: Future<T, E>)
      ensures this.future == future && stage == Pending
    {
      this.future := future;
      stage := Pending;
    }

    method PollReady() returns (r: Polled<(), E>)
      requires stage != Gone && (stage.Pending? ==> future.Live())
      modifies this, future
      ensures old(stage).Done? ==> r == Ready(()) && stage == old(stage) && future.polls == old(future.polls)
      ensures old(stage).Pending? ==>
        && future.polls == old(future.polls) + 1
        && match future.script(old(future.polls))
           case NotReady => r == NotReady && stage == Pending
           case Ready(v) => r == Ready(()) && stage == Done(v)
           case Failed(e) => r == Failed(e) && stage == Pending
    {
      match stage {
        case Done(_) => return Ready(());
        case Pending =>
          var polled := future.Poll();
          match polled {
            case Ready(v) =>
              stage := Done(v);
              return Ready(());
            case NotReady => return NotReady;
            case Failed(e) => return Failed(e);
          }
        case Gone => assert false;
      }
    }

    method TakeItem() returns (r: Option<T>)
      modifies this
      ensures stage == Gone && r == if old(stage).Done? then Some(old(stage).value) else None
    {
      var taken := stage;
      stage := Gone;
      r := if taken.Done? then Some(taken.value) else None;
    }
  }

  // ---- one after the other --------------------------------------------------------------

  /** What the n-th poll of a chain gives, if none before it finished. */
  function ChainAnswer<T, U, E>(l: Script<T, E>, r: Script<U, E>, n: nat): Polled<(T, U), E> {
    match First(l, n)
    case None => NotReady
    case Some(i) =>
      match l(i)
      case NotReady => NotReady
      case Failed(e) => Failed(e)
      case Ready(a) =>
        match First(r, n - i)
        case None => NotReady
        case Some(j) =>
          match r(j)
          case NotReady => NotReady
          case Failed(e) => Failed(e)
          case Ready(b) => Ready((a, b))
  }

  class ChainFuture<T, U, E> {
    const left: MaybeDone<T, E>
    const right: MaybeDone<U, E>
    ghost var polls: nat

    constructor (l: Script<T, E>, r: Script<U, E>)
      ensures left.future.script == l && right.future.script == r && polls == 0
      ensures Running() && fresh(Parts())
    {
      var leftFuture := new Future(l);
      var rightFuture := new Future(r);
      left := new MaybeDone(leftFuture);
      right := new MaybeDone(rightFuture);
      polls := 0;
    }

    ghost function Parts(): set<object> {
      {left, left.future, right, right.future}
    }

    ghost predicate Apart() {
      var x: object, y: object, a: object, b: object := left, right, left.future, right.future;
      x != y && a != b
    }

    /** The left side is polled until it is ready, the right side not before;
        a side that is ready is not polled again. */
    ghost predicate Running()
      reads this, Parts()
    {
      && Apart() && right.stage == Pending && right.future.Live()
      && match left.stage
         case Pending => left.future.Live() && left.future.polls == polls && right.future.polls == 0
         case Done(a) =>
           && 0 < left.future.polls && left.future.script(left.future.polls - 1) == Ready(a)
           && (forall k | 0 <= k < left.future.polls - 1 :: left.future.script(k).NotReady?)
           && polls == left.future.polls - 1 + right.future.polls
           && right.future.polls > 0
         case Gone => false
    }

    method PollReady() returns (r: Polled<(T, U), E>)
      requires Running()
      modifies this, Parts()
      ensures polls == old(polls) + 1
      ensures r == ChainAnswer(left.future.script, right.future.script, old(polls))
      ensures r == NotReady ==> Running()
      ensures r != NotReady ==> left.stage == Gone && right.stage == Gone
    {
      polls := polls + 1;
      var first := left.PollReady();
      match first {
        case NotReady => return NotReady;
        case Failed(e) =>
          var _, _ := Discard();
          return Failed(e);
        case Ready(_) =>
      }
      var second := right.PollReady();
      match second {
        case NotReady => return NotReady;
        case Failed(e) =>
          var _, _ := Discard();
          return Failed(e);
        case Ready(_) =>
      }
      var a, b := Discard();
      r := Ready((a.value, b.value));
    }

    method Discard() returns (a: Option<T>, b: Option<U>)
      requires Apart()
      modifies left, right
      ensures left.stage == Gone && right.stage == Gone
      ensures a == (if old(left.stage).Done? then Some(old(left.stage).value) else None)
      ensures b == (if old(right.stage).Done? then Some(old(right.stage).value) else None)
    {
      a := left.TakeItem();
      b := right.TakeItem();
    }
  }

  /** Poll `i` is the first to finish. */
  ghost predicate Finishes<T, E>(s: Script<T, E>, i: nat) {
    !s(i).NotReady? && forall k | 0 <= k < i :: s(k).NotReady?
  }

  /** When a future finishes; `None` if it never does. */
  ghost function Time<T(!new), E(!new)>(s: Script<T, E>): (t: Option<nat>)
    ensures t.Some? ==> Finishes(s, t.value)
    ensures t.None? ==> forall k: nat :: s(k).NotReady?
  {
    if k: nat :| !s(k).NotReady? then First(s, k) else None
  }

  lemma {:induction false} FirstByTime<T(!new), E(!new)>(s: Script<T, E>, n: nat)
    ensures First(s, n) == if Time(s).Some? && Time(s).value <= n then Time(s) else None
  {
  }

  /** A future that finishes then, and as given, finishes at no other time. */
  lemma {:induction false} TimeIs<T(!new), E(!new)>(s: Script<T, E>, t: Option<nat>)
    requires if t.Some? then Finishes(s, t.value) else forall k: nat :: s(k).NotReady?
    ensures Time(s) == t
  {
  }

  ghost function ChainTime<T(!new), U(!new), E(!new)>(l: Script<T, E>, r: Script<U, E>): Option<nat> {
    match Time(l)
    case None => None
    case Some(i) =>
      if l(i).Failed? then Some(i)
      else if Time(r).None? then None else Some(i + Time(r).value)
  }

  ghost function ChainValue<T(!new), U(!new), E(!new)>(l: Script<T, E>, r: Script<U, E>): Polled<(T, U), E>
    requires ChainTime(l, r).Some?
  {
    var first := l(Time(l).value);
    if first.Failed? then Failed(first.error)
    else
      var second := r(Time(r).value);
      if second.Failed? then Failed(second.error) else Ready((first.value, second.value))
  }

  /** For every pair of schedules: a chain finishes when its left side fails, or
      as many polls after the left side as the right side takes, and otherwise
      never; it then gives the left failure, the right failure or both values. */
  lemma {:induction false} ChainSettles<T(!new), U(!new), E(!new)>(l: Script<T, E>, r: Script<U, E>)
    ensures Time((n: nat) => ChainAnswer(l, r, n)) == ChainTime(l, r)
    ensures ChainTime(l, r).Some? ==> ChainAnswer(l, r, ChainTime(l, r).value) == ChainValue(l, r)
  {
    var s, t := (n: nat) => ChainAnswer(l, r, n), ChainTime(l, r);
    forall n: nat | t.None? || n <= t.value ensures ChainAnswer(l, r, n).NotReady? <==> t.None? || n < t.value {
      FirstByTime(l, n);
      if Time(l).Some? && Time(l).value <= n {
        FirstByTime(r, n - Time(l).value);
      }
    }
    TimeIs(s, t);
    if t.Some? {
      FirstByTime(l, t.value);
      FirstByTime(r, t.value - Time(l).value);
    }
  }

  // ---- racing -------------------------------------------------------------------------------

  predicate LeftWins<T, E>(l: Script<T, E>, r: Script<T, E>, i: Option<nat>, j: Option<nat>) {
    i.Some? && l(i.value).Ready? && (j.None? || i.value <= j.value || r(j.value).Failed?)
  }

  /** What the n-th poll of a race gives, if none before it finished. */
  function OrAnswer<T, E>(l: Script<T, E>, r: Script<T, E>, n: nat): Polled<T, E> {
    var i, j := First(l, n), First(r, n);
    if LeftWins(l, r, i, j) then l(i.value)
    else if j.Some? && r(j.value).Ready? then r(j.value)
    else if i.Some? && j.Some? then if i.value > j.value then l(i.value) else r(j.value)
    else NotReady
  }

  /** The first of the polls before the n-th that finishes is a failure. */
  ghost predicate HasFailed<T, E>(s: Script<T, E>, n: nat) {
    n > 0 && First(s, n - 1).Some? && s(First(s, n - 1).value).Failed?
  }

  /** What the next poll adds to a side that is in progress, or has failed. */
  lemma {:induction false} NextPoll<T, E>(s: Script<T, E>, n: nat)
    ensures (forall k | 0 <= k < n :: s(k).NotReady?) ==>
      First(s, n) == (if s(n).NotReady? then None else Some(n)) && (s(n).Failed? ==> HasFailed(s, n + 1))
    ensures HasFailed(s, n) ==>
      First(s, n).Some? && First(s, n).value < n && s(First(s, n).value).Failed? && HasFailed(s, n + 1)
  {
  }

  class OrFuture<T, E> {
    var left: Option<Future<T, E>>
    var right: Option<Future<T, E>>
    const leftFuture: Future<T, E>
    const rightFuture: Future<T, E>
    ghost var polls: nat

    constructor (l: Script<T, E>, r: Script<T, E>)
      ensures leftFuture.script == l && rightFuture.script == r && polls == 0
      ensures Running() && fresh({leftFuture, rightFuture})
    {
      var a := new Future(l);
      var b := new Future(r);
      leftFuture, rightFuture := a, b;
      left, right := Some(a), Some(b);
      polls := 0;
    }

    /** A side is dropped when it has failed, and never both are; a side that
        is kept has been polled once in every poll of the race. */
    ghost predicate Running()
      reads this, leftFuture, rightFuture
    {
      && leftFuture != rightFuture
      && (left == Some(leftFuture) || left == None) && (right == Some(rightFuture) || right == None)
      && (left.Some? || right.Some?)
      && (if left.Some? then leftFuture.Live() && leftFuture.polls == polls else HasFailed(leftFuture.script, polls))
      && (if right.Some? then rightFuture.Live() && rightFuture.polls == polls
         else HasFailed(rightFuture.script, polls))
    }

    method PollReady() returns (r: Polled<T, E>)
      requires Running()
      modifies this, leftFuture, rightFuture
      ensures polls == old(polls) + 1
      ensures r == OrAnswer(leftFuture.script, rightFuture.script, old(polls))
      ensures r == NotReady ==> Running()
    {
      ghost var n := polls;
      NextPoll(leftFuture.script, n);
      NextPoll(rightFuture.script, n);
      polls := polls + 1;
      while true
        invariant polls == n + 1 && n == old(polls)
        invariant leftFuture != rightFuture
        invariant left == old(left)
          || (left == None && right == old(right) == Some(rightFuture) && leftFuture.script(n).Failed?
          && old(leftFuture.Live()) && old(leftFuture.polls) == n)
        invariant right == old(right) && rightFuture.polls == old(rightFuture.polls)
        invariant left == old(left) ==> leftFuture.polls == old(leftFuture.polls)
        decreases if left.Some? then 1 else 0
      {
        match (left, right) {
          case (Some(l), Some(rt)) =>
            var first := l.Poll();
            match first {
              case NotReady =>
                var second := rt.Poll();
                match second {
                  case Ready(v) => return Ready(v);
                  case NotReady => return NotReady;
                  case Failed(_) =>
                    right := None;
                    return NotReady;
                }
              case Ready(v) => return Ready(v);
              case Failed(_) => left := None;
            }
          case (Some(l), None) =>
            r := l.Poll();
            return;
          case (None, Some(rt)) =>
            r := rt.Poll();
            return;
          case (None, None) => assert false;
        }
      }
    }
  }

  /** By any poll, a race has succeeded if some side has, and has failed if both have. */
  lemma {:induction false} OrByPoll<T, E>(l: Script<T, E>, r: Script<T, E>, n: nat)
    ensures OrAnswer(l, r, n).Ready? <==>
      (First(l, n).Some? && l(First(l, n).value).Ready?) || (First(r, n).Some? && r(First(r, n).value).Ready?)
    ensures OrAnswer(l, r, n).Failed? <==>
      First(l, n).Some? && l(First(l, n).value).Failed? && First(r, n).Some? && r(First(r, n).value).Failed?
  {
  }

  ghost predicate Succeeds<T(!new), E(!new)>(s: Script<T, E>) {
    Time(s).Some? && s(Time(s).value).Ready?
  }

  /** The left side succeeds, and the right side does not succeed before it. */
  ghost predicate LeftFirst<T(!new), E(!new)>(l: Script<T, E>, r: Script<T, E>) {
    Succeeds(l) && (Succeeds(r) ==> Time(l).value <= Time(r).value)
  }

  ghost function OrTime<T(!new), E(!new)>(l: Script<T, E>, r: Script<T, E>): Option<nat> {
    if LeftFirst(l, r) then Time(l)
    else if Succeeds(r) then Time(r)
    else if Time(l).Some? && Time(r).Some? then if Time(l).value > Time(r).value then Time(l) else Time(r)
    else None
  }

  /** For every pair of schedules: a race finishes with the earlier success, the
      left one if both come at once, whatever the other side does; it fails
      only when both sides have failed, with the later failure, the right one
      if both come at once; and otherwise it never finishes. */
  lemma {:induction false} OrSettles<T(!new), E(!new)>(l: Script<T, E>, r: Script<T, E>)
    ensures var s, t := (n: nat) => OrAnswer(l, r, n), OrTime(l, r);
      && Time(s) == t
      && (LeftFirst(l, r) ==> s(t.value) == l(Time(l).value))
      && (!LeftFirst(l, r) && Succeeds(r) ==> s(t.value) == r(Time(r).value))
      && (!Succeeds(l) && !Succeeds(r) && t.Some? ==>
            s(t.value) == if Time(l).value > Time(r).value then l(Time(l).value) else r(Time(r).value))
  {
    var s, t := (n: nat) => OrAnswer(l, r, n), OrTime(l, r);
    forall n: nat | t.None? || n <= t.value ensures OrAnswer(l, r, n).NotReady? <==> t.None? || n < t.value {
      FirstByTime(l, n);
      FirstByTime(r, n);
    }
    TimeIs(s, t);
    if t.Some? {
      FirstByTime(l, t.value);
      FirstByTime(r, t.value);
    }
  }
}
