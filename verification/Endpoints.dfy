/** Endpoints: which of several chained endpoints takes a request, by its method. */
module Endpoints {
  import opened Options
  import Methods

  /** An endpoint built for some methods (`None`: for all), or two chained ones. */
  datatype Endpoint<F> = Built(allowed: Option<seq<string>>, action: F) | Chain(left: Endpoint<F>, right: Endpoint<F>)

  /** What was started, tagged with the sides taken to reach it. */
  datatype Started<F, A> = Call(action: F, args: A) | Left(started: Started<F, A>) | Right(started: Started<F, A>) {
    function Untagged(): (F, A) {
      match this
      case Call(action, args) => (action, args)
      case Left(s) => s.Untagged()
      case Right(s) => s.Untagged()
    }
  }

  /** The arguments come back when the method is not allowed. */
  function Apply<F, A>(e: Endpoint<F>, args: A, verb: string): Result<Started<F, A>, A> {
    match e
    case Built(allowed, action) =>
      if allowed.Some? && verb !in allowed.value then Err(args) else Ok(Call(action, args))
    case Chain(left, right) =>
      match Apply(left, args, verb)
      case Ok(s) => Ok(Left(s))
      case Err(back) =>
        match Apply(right, back, verb)
        case Ok(s) => Ok(Right(s))
        case Err(again) => Err(again)
  }

  function AllowedMethods<F>(e: Endpoint<F>): Option<seq<string>> {
    match e
    case Built(allowed, _) => allowed
    case Chain(left, right) =>
      match (AllowedMethods(left), AllowedMethods(right))
      case (Some(l), Some(r)) => Some(Methods.Collect([], l + r))
      case _ => None
  }

  /** The built endpoints from left to right. */
  function Leaves<F>(e: Endpoint<F>): (r: seq<Endpoint<F>>)
    ensures r != [] && forall i | 0 <= i < |r| :: r[i].Built?
  {
    match e
    case Built(_, _) => [e]
    case Chain(left, right) => Leaves(left) + Leaves(right)
  }

  predicate Accepts<F>(leaf: Endpoint<F>, verb: string)
    requires leaf.Built?
  {
    leaf.allowed.Some? ==> verb in leaf.allowed.value
  }

  /** The first leaf that accepts the method, or their number. */
  function Leftmost<F>(leaves: seq<Endpoint<F>>, verb: string): (k: nat)
    requires forall i | 0 <= i < |leaves| :: leaves[i].Built?
    ensures k <= |leaves| && (k < |leaves| ==> Accepts(leaves[k], verb))
    ensures forall i | 0 <= i < k :: !Accepts(leaves[i], verb)
  {
    if leaves == [] || Accepts(leaves[0], verb) then 0 else 1 + Leftmost(leaves[1..], verb)
  }

  lemma {:induction false} LeftmostOfBoth<F>(x: seq<Endpoint<F>>, y: seq<Endpoint<F>>, verb: string)
    requires (forall i | 0 <= i < |x| :: x[i].Built?) && (forall i | 0 <= i < |y| :: y[i].Built?)
    ensures forall i | 0 <= i < |x + y| :: (x + y)[i].Built?
    ensures Leftmost(x + y, verb) == if Leftmost(x, verb) < |x| then Leftmost(x, verb) else |x| + Leftmost(y, verb)
  {
    var k := Leftmost(x + y, verb);
    assert forall i | 0 <= i < |x| :: (x + y)[i] == x[i];
    assert forall i | 0 <= i < |y| :: (x + y)[|x| + i] == y[i];
    var j := Leftmost(y, verb);
    if j < |y| {
      assert Accepts((x + y)[|x| + j], verb);
    }
  }

  /** Applying a chain starts the leftmost endpoint that accepts the method, with
      the arguments as given; if none does, the arguments come back. */
  lemma {:induction false} ApplyIsLeftmost<F, A>(e: Endpoint<F>, args: A, verb: string)
    ensures var k := Leftmost(Leaves(e), verb);
      match Apply(e, args, verb)
      case Ok(s) => k < |Leaves(e)| && s.Untagged() == (Leaves(e)[k].action, args)
      case Err(back) => k == |Leaves(e)| && back == args
    decreases e
  {
    match e
    case Built(_, _) =>
    case Chain(left, right) =>
      ApplyIsLeftmost(left, args, verb);
      ApplyIsLeftmost(right, args, verb);
      LeftmostOfBoth(Leaves(left), Leaves(right), verb);
  }

  /** The listed methods are those that some leaf accepts; none are listed when
      some leaf accepts all. */
  lemma {:induction false} AllowedIsAccepted<F>(e: Endpoint<F>, verb: string)
    ensures AllowedMethods(e).None? || verb in AllowedMethods(e).value <==> Leftmost(Leaves(e), verb) < |Leaves(e)|
    decreases e
  {
    match e
    case Built(_, _) =>
    case Chain(left, right) =>
      AllowedIsAccepted(left, verb);
      AllowedIsAccepted(right, verb);
      LeftmostOfBoth(Leaves(left), Leaves(right), verb);
  }

  /** The methods that the leaves list, from left to right. */
  function AllListed<F>(leaves: seq<Endpoint<F>>): seq<string>
    requires forall i | 0 <= i < |leaves| :: leaves[i].Built? && leaves[i].allowed.Some?
  {
    if leaves == [] then [] else leaves[0].allowed.value + AllListed(leaves[1..])
  }

  lemma {:induction false} ListedOfBoth<F>(x: seq<Endpoint<F>>, y: seq<Endpoint<F>>)
    requires forall i | 0 <= i < |x| :: x[i].Built? && x[i].allowed.Some?
    requires forall i | 0 <= i < |y| :: y[i].Built? && y[i].allowed.Some?
    ensures forall i | 0 <= i < |x + y| :: (x + y)[i].Built? && (x + y)[i].allowed.Some?
    ensures AllListed(x + y) == AllListed(x) + AllListed(y)
    decreases |x|
  {
    if x == [] {
      assert x + y == y;
    } else {
      ListedOfBoth(x[1..], y);
      assert (x + y)[0] == x[0] && (x + y)[1..] == x[1..] + y;
    }
  }

  /** Every leaf lists methods, each as a set. */
  ghost predicate AllList<F>(leaves: seq<Endpoint<F>>) {
    forall i | 0 <= i < |leaves| ::
      leaves[i].Built? && leaves[i].allowed.Some? && Methods.Ordered(leaves[i].allowed.value)
  }

  lemma {:induction false} AllListBoth<F>(x: seq<Endpoint<F>>, y: seq<Endpoint<F>>)
    ensures AllList(x + y) <==> AllList(x) && AllList(y)
  {
    assert forall i | 0 <= i < |x| :: (x + y)[i] == x[i];
    assert forall i | 0 <= i < |y| :: (x + y)[|x| + i] == y[i];
  }

  /** When every leaf lists methods, those are listed without repetition, in
      the order in which they first occur from left to right. */
  lemma {:induction false} AllowedInOrder<F>(e: Endpoint<F>)
    requires AllList(Leaves(e))
    ensures AllowedMethods(e).Some? && Methods.InFirstOrder(AllowedMethods(e).value, AllListed(Leaves(e)))
    decreases e
  {
    match e
    case Built(allowed, _) =>
      assert Leaves(e)[0] == e && Leaves(e)[1..] == [];
      assert AllListed(Leaves(e)) == allowed.value + [] == allowed.value;
      Methods.OrderedIsFirst(allowed.value);
    case Chain(left, right) =>
      AllListBoth(Leaves(left), Leaves(right));
      AllowedInOrder(left);
      AllowedInOrder(right);
      ListedOfBoth(Leaves(left), Leaves(right));
      Methods.CollectBoth(AllowedMethods(left).value, AllowedMethods(right).value,
                          AllListed(Leaves(left)), AllListed(Leaves(right)));
  }

  /** A method is served exactly when it is listed or nothing is. */
  lemma {:induction false} DispatchAgrees<F, A>(e: Endpoint<F>, args: A, verb: string)
    ensures Apply(e, args, verb).Ok? <==> AllowedMethods(e).None? || verb in AllowedMethods(e).value
  {
    ApplyIsLeftmost(e, args, verb);
    AllowedIsAccepted(e, verb);
  }
}
