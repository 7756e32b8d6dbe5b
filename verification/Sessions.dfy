/** Sessions: what a request does to session data, whatever the backend. */
module Sessions {
  import opened Options

  type Data = map<string, string>

  datatype Inner = Empty | Filled(data: Data) | Cleared

  datatype Op = Set(name: string, value: string) | Remove(name: string) | Clear

  function GetIn(inner: Inner, name: string): Option<string> {
    match inner
    case Filled(m) => if name in m then Some(m[name]) else None
    case _ => None
  }

  function Apply(inner: Inner, op: Op): Inner {
    match op
    case Set(name, value) =>
      (match inner
       case Empty => Filled(map[name := value])
       case Filled(m) => Filled(m[name := value])
       case Cleared => Cleared)
    case Remove(name) => if inner.Filled? then Filled(inner.data - {name}) else inner
    case Clear => Cleared
  }

  function ApplyAll(inner: Inner, ops: seq<Op>): Inner {
    if ops == [] then inner else Apply(ApplyAll(inner, ops[..|ops| - 1]), ops[|ops| - 1])
  }

  /** The operations of a session object, in place. */
  class RawSession {
    var inner: Inner

    constructor (inner: Inner)
      ensures this.inner == inner
    {
      this.inner := inner;
    }

    method Get(name: string) returns (r: Option<string>)
      ensures r == GetIn(inner, name)
    {
      match inner
      case Filled(m) => r := if name in m then Some(m[name]) else None;
      case _ => r := None;
    }

    method Set(name: string, value: string)
      modifies this
      ensures inner == Apply(old(inner), Op.Set(name, value))
    {
      match inner {
        case Empty =>
        case Filled(m) =>
          inner := Filled(m[name := value]);
          return;
        case Cleared => return;
      }
      var taken := inner;
      inner := Empty;
      match taken
      case Empty => inner := Filled(map[name := value]);
      case _ => assert false;
    }

    method Remove(name: string)
      modifies this
      ensures inner == Apply(old(inner), Op.Remove(name))
    {
      if inner.Filled? {
        inner := Filled(inner.data - {name});
      }
    }

    method Clear()
      modifies this
      ensures inner == Apply(old(inner), Op.Clear)
    {
      inner := Cleared;
    }
  }

  // ---- the abstract session -----------------------------------------------------

  /** What is stored for a client between requests, and the session of the
      request in flight. */
  datatype Session = Session(stored: Option<Data>, running: Option<Inner>)

  /** What a step of a backend is to the session. `Lose` is expiry. */
  datatype Label = Nothing | Load | Do(op: Op) | Commit | Lose

  function Loaded(stored: Option<Data>): Inner {
    match stored
    case None => Empty
    case Some(m) => Filled(m)
  }

  function Committed(stored: Option<Data>, inner: Inner): Option<Data> {
    match inner
    case Empty => stored
    case Filled(m) => Some(m)
    case Cleared => None
  }

  ghost predicate Enabled(s: Session, l: Label) {
    match l
    case Nothing => true
    case Load => s.running.None?
    case Do(_) => s.running.Some?
    case Commit => s.running.Some?
    case Lose => true
  }

  ghost function Step(s: Session, l: Label): Session
    requires Enabled(s, l)
  {
    match l
    case Nothing => s
    case Load => s.(running := Some(Loaded(s.stored)))
    case Do(op) => s.(running := Some(Apply(s.running.value, op)))
    case Commit => Session(Committed(s.stored, s.running.value), None)
    case Lose => s.(stored := None)
  }

  /** What one request makes of an optional map: a clear wins over everything
      else; otherwise the first set creates the map and removals act on it. */
  function Request(stored: Option<Data>, ops: seq<Op>): Option<Data> {
    if ops == [] then stored
    else
      var before := Request(stored, ops[..|ops| - 1]);
      if Op.Clear in ops then None
      else
        match ops[|ops| - 1]
        case Set(name, value) => Some((if before.Some? then before.value else map[])[name := value])
        case Remove(name) => if before.Some? then Some(before.value - {name}) else None
        case Clear => None
  }

  /** The three-way state of a session implements the optional map. */
  lemma {:induction false} OperationsImplementRequest(stored: Option<Data>, ops: seq<Op>)
    ensures var inner := ApplyAll(Loaded(stored), ops);
      && Committed(stored, inner) == Request(stored, ops)
      && (inner.Cleared? <==> Op.Clear in ops)
      && (inner.Empty? ==> stored.None?)
      && forall name :: GetIn(inner, name) ==
           if Request(stored, ops).Some? && name in Request(stored, ops).value
             then Some(Request(stored, ops).value[name]) else None
    decreases |ops|
  {
    if ops != [] {
      var front, last := ops[..|ops| - 1], ops[|ops| - 1];
      assert ops == front + [last];
      OperationsImplementRequest(stored, front);
    }
  }

  /** The session after the labels of a whole request. */
  lemma {:induction false} RequestAsSteps(s: Session, ops: seq<Op>)
    requires s.running.None?
    ensures StepAll(s, [Load] + Dos(ops)) == Some(Session(s.stored, Some(ApplyAll(Loaded(s.stored), ops))))
    ensures StepAll(s, [Load] + Dos(ops) + [Commit]) == Some(Session(Request(s.stored, ops), None))
    decreases |ops|
  {
    var all := [Load] + Dos(ops);
    if ops == [] {
      assert all == [Load] && all[..0] == [];
    } else {
      RequestAsSteps(s, ops[..|ops| - 1]);
      assert all[..|all| - 1] == [Load] + Dos(ops[..|ops| - 1]);
    }
    OperationsImplementRequest(s.stored, ops);
    assert (all + [Commit])[..|all|] == all;
  }

  function Dos(ops: seq<Op>): seq<Label> {
    seq(|ops|, i requires 0 <= i < |ops| => Do(ops[i]))
  }

  /** All labels in order; `None` if one is not enabled. */
  ghost function StepAll(s: Session, labels: seq<Label>): Option<Session> {
    if labels == [] then Some(s)
    else
      match StepAll(s, labels[..|labels| - 1])
      case None => None
      case Some(t) => if Enabled(t, labels[|labels| - 1]) then Some(Step(t, labels[|labels| - 1])) else None
  }
}
