/** Clients of one Redis store, with any interleaving of their requests, of the
    polls of each and of the commands on the wire: every step is a step of one
    client's abstract session, and of no other's. */
module SharedStore {
  import opened Options
  import opened Sessions
  import opened RedisSessions

  datatype Phase = Idle | Reading(state: ReadState) | Active(inner: Inner, id: Option<nat>) | Writing(write: WriteState)

  /** A client: its cookie, its request in flight, the command on the wire and
      the reply that has come back. */
  datatype Client = Client(cookie: Option<string>, phase: Phase, wire: Option<Command>, reply: Option<Option<string>>)

  /** `owner` records which client an id was issued to. */
  datatype World = World(store: map<string, string>, clients: map<nat, Client>, owner: map<nat, nat>)

  datatype Event =
    | Begin                        // a request arrives
    | PollOpen(connected: bool)    // its read is polled
    | Serve                        // the store executes the command on the wire
    | Operate(op: Op)              // the request uses its session
    | PollClose(issued: nat)        // its write is polled, with a new id at hand
    | Expire(id: nat)              // the store forgets a key

  function Execute(store: map<string, string>, command: Command): (map<string, string>, Option<string>) {
    match command
    case Get(k) => (store, if k in store then Some(store[k]) else None)
    case Put(k, v) => (store[k := v], None)
    case Del(k) => (store - {k}, None)
  }

  function ReplyAnswer(reply: Option<Option<string>>): Answer<Option<string>> {
    match reply
    case None => NotReady
    case Some(v) => Answer.Ready(v)
  }

  function ReplyDone(reply: Option<Option<string>>): Answer<()> {
    if reply.Some? then Answer.Ready(()) else NotReady
  }

  /** A client after a poll of its write machine. */
  function Closed(b: Backend, c: Client, s: WriteState, issued: nat): Client {
    var (t, cookie, r) := PollWrite(b, s, c.cookie, issued, true, ReplyDone(c.reply));
    match r
    case Waiting =>
      c.(cookie := cookie, phase := Writing(t), wire := if s.Unsent? && t.Op? then Some(t.command) else c.wire)
    case Written => c.(cookie := cookie, phase := Idle, reply := None)
    case Refused => c.(cookie := cookie, phase := Idle, reply := None)
    case Broken => c
  }

  /** The next state of the client that an event concerns. */
  function ClientNext(b: Backend, w: World, c: Client, e: Event): Client {
    match e
    case Begin => if c.phase.Idle? then c.(phase := Reading(Init)) else c
    case PollOpen(connected) =>
      if c.phase.Reading? then
        var answer := if connected then Answer.Ready(()) else NotReady;
        var (state, r) := PollRead(b, c.phase.state, true, c.cookie, answer, ReplyAnswer(c.reply));
        match r
        case Pending =>
          var sent := state.Fetch? && !c.phase.state.Fetch?;
          c.(phase := Reading(state), wire := if sent then Some(Get(state.key)) else c.wire)
        case Opened(inner, id) => c.(phase := Active(inner, id), reply := None)
        case Error => c.(phase := Idle, reply := None)
        case Panicked => c
      else c
    case Serve =>
      if c.wire.Some? then c.(wire := None, reply := Some(Execute(w.store, c.wire.value).1)) else c
    case Operate(op) => if c.phase.Active? then c.(phase := Active(Apply(c.phase.inner, op), c.phase.id)) else c
    case PollClose(issued) =>
      if c.phase.Active? then Closed(b, c, Unsent(Some((c.phase.inner, c.phase.id))), issued)
      else if c.phase.Writing? then Closed(b, c, c.phase.write, issued)
      else c
    case Expire(_) => c
  }

  function Next(b: Backend, w: World, i: nat, e: Event): World
    requires i in w.clients
  {
    var c := w.clients[i];
    var store :=
      match e
      case Serve => if c.wire.Some? then Execute(w.store, c.wire.value).0 else w.store
      case Expire(id) => w.store - {Key(b, id)}
      case _ => w.store;
    var issues := e.PollClose? && c.phase.Active? && c.phase.inner.Filled? && c.phase.id.None?;
    var owner := if issues then w.owner[e.issued := i] else w.owner;
    World(store, w.clients[i := ClientNext(b, w, c, e)], owner)
  }

  /** A new id has not been issued before. */
  predicate Fresh(w: World, e: Event) {
    e.PollClose? ==> e.issued !in w.owner
  }

  // ---- invariant ------------------------------------------------------------------------

  predicate Owns(w: World, i: nat, id: nat) {
    id in w.owner && w.owner[id] == i
  }

  /** The id a cookie carries. */
  function CookieId(b: Backend, cookie: Option<string>): Option<nat> {
    match cookie
    case None => None
    case Some(text) => b.parse(text)
  }

  predicate Decodes(b: Backend, value: string) {
    b.decode(value).Some?
  }

  /** The data stored under an id. */
  function Kept(b: Backend, store: map<string, string>, id: Option<nat>): Option<Data> {
    if id.Some? && Key(b, id.value) in store then b.decode(store[Key(b, id.value)]) else None
  }

  ghost predicate ReadingWell(b: Backend, w: World, c: Client)
    requires c.phase.Reading?
  {
    var id := CookieId(b, c.cookie);
    match c.phase.state
    case Init => c.wire.None? && c.reply.None?
    case Connecting(key, k) =>
      c.wire.None? && c.reply.None? && k == id && key == if id.Some? then Some(Key(b, id.value)) else None
    case Fetch(key, k) =>
      && id == Some(k) && key == Key(b, k)
      && (c.reply.None? ==> c.wire == Some(Get(key)))
      && (c.reply.Some? ==> c.wire.None?)
      && (c.reply == Some(None) ==> Kept(b, w.store, id).None?)
      && (c.reply.Some? && c.reply.value.Some? ==> Decodes(b, c.reply.value.value))
    case Done => false
  }

  ghost predicate ClientWell(b: Backend, w: World, i: nat, c: Client)
  {
    var id := CookieId(b, c.cookie);
    && (c.cookie.Some? ==> id.Some? && Owns(w, i, id.value))
    && match c.phase
       case Idle => c.wire.None? && c.reply.None?
       case Reading(_) => ReadingWell(b, w, c)
       case Active(inner, k) =>
         c.wire.None? && c.reply.None? && (if k.Some? then id == k else Kept(b, w.store, id).None?)
       case Writing(s) =>
         && s.Op? && (c.wire.Some? ==> c.wire == Some(s.command))
         && match c.wire
         case None => c.reply == Some(None)
         case Some(Put(key, value)) => c.reply.None? && id.Some? && key == Key(b, id.value) && Decodes(b, value)
         case Some(Del(key)) =>
           c.reply.None? && c.cookie.None? && exists k | k in w.owner :: w.owner[k] == i && key == Key(b, k)
         case Some(Get(_)) => false
  }

  ghost predicate StoreWell(b: Backend, w: World) {
    forall id: nat :: Key(b, id) in w.store ==> id in w.owner && Decodes(b, w.store[Key(b, id)])
  }

  ghost predicate Inv(b: Backend, w: World) {
    StoreWell(b, w) && forall i | i in w.clients :: ClientWell(b, w, i, w.clients[i])
  }

  // ---- refinement -------------------------------------------------------------------------

  /** The session that a client's state stands for. */
  function SessionOf(b: Backend, store: map<string, string>, c: Client): Session {
    Session(Kept(b, store, CookieId(b, c.cookie)), Running(b, c))
  }

  function Running(b: Backend, c: Client): Option<Inner> {
    match c.phase
    case Idle => None
    case Reading(_) =>
      if c.reply.None? then None
      else Some(Loaded(if c.reply.value.Some? then b.decode(c.reply.value.value) else None))
    case Active(inner, _) => Some(inner)
    case Writing(_) =>
      match c.wire
      case Some(Put(_, value)) => Some(Loaded(b.decode(value)))
      case _ => None
  }

  /** Which step of client `j`'s session an event of client `i` is. */
  function LabelFor(b: Backend, w: World, i: nat, e: Event, j: nat): Label
    requires i in w.clients && j in w.clients
  {
    if e.Expire? then if CookieId(b, w.clients[j].cookie) == Some(e.id) then Lose else Nothing
    else if j == i then LabelOf(b, w, i, e)
    else Nothing
  }

  function LabelOf(b: Backend, w: World, i: nat, e: Event): Label
    requires i in w.clients && !e.Expire?
  {
    var c := w.clients[i];
    match e
    case Begin => Nothing
    case PollOpen(_) =>
      if c.phase.Reading? && c.reply.None? && ClientNext(b, w, c, e).phase.Active? then Load else Nothing
    case Serve =>
      (match c.wire
       case Some(Get(_)) => Load
       case Some(Put(_, _)) => Commit
       case _ => Nothing)
    case Operate(op) => if c.phase.Active? then Do(op) else Nothing
    case PollClose(_) => if c.phase.Active? && !c.phase.inner.Filled? then Commit else Nothing
  }

  lemma {:induction false} ExecuteKeeps(b: Backend, store: map<string, string>, command: Command, k: string)
    requires k != command.key || command.Get?
    ensures k in Execute(store, command).0 <==> k in store
    ensures k in store ==> Execute(store, command).0[k] == store[k]
  {
  }

  /** The key of a command on the wire is that of an id of its client. */
  lemma {:induction false} WireOwner(b: Backend, w: World, i: nat) returns (id: nat)
    requires Lawful(b) && Inv(b, w) && i in w.clients && w.clients[i].wire.Some?
    ensures Owns(w, i, id) && w.clients[i].wire.value.key == Key(b, id)
  {
    var c := w.clients[i];
    assert ClientWell(b, w, i, c);
    if c.wire.value.Del? {
      id :| id in w.owner && w.owner[id] == i && c.wire.value.key == Key(b, id);
    } else {
      id := CookieId(b, c.cookie).value;
    }
  }

  /** A step of one client leaves the data of every other client's ids alone. */
  lemma {:induction false} OthersKept(b: Backend, w: World, i: nat, e: Event, id: nat)
    requires Lawful(b) && Inv(b, w) && i in w.clients && !Owns(w, i, id) && !e.Expire?
    ensures var w' := Next(b, w, i, e);
      (Key(b, id) in w'.store <==> Key(b, id) in w.store)
        && (Key(b, id) in w.store ==> w'.store[Key(b, id)] == w.store[Key(b, id)])
  {
    var c := w.clients[i];
    if e.Serve? && c.wire.Some? {
      var own := WireOwner(b, w, i);
      KeysDiffer(b, own, id);
      ExecuteKeeps(b, w.store, c.wire.value, Key(b, id));
    }
  }

  // ---- each step ----------------------------------------------------------------------------

  ghost predicate Refines(b: Backend, w: World, w': World, j: nat, l: Label)
    requires j in w.clients && j in w'.clients
  {
    var s := SessionOf(b, w.store, w.clients[j]);
    ClientWell(b, w', j, w'.clients[j]) && Enabled(s, l) && SessionOf(b, w'.store, w'.clients[j]) == Sessions.Step(s, l)
  }

  /** A client whose ids and data are left alone is left alone. */
  lemma {:induction false} OtherRefines(b: Backend, w: World, i: nat, e: Event, j: nat)
    requires Lawful(b) && Inv(b, w) && i in w.clients && j in w.clients && i != j && !e.Expire? && Fresh(w, e)
    ensures Refines(b, w, Next(b, w, i, e), j, Nothing)
  {
    var w', c := Next(b, w, i, e), w.clients[j];
    assert ClientWell(b, w, j, c) && w'.clients[j] == c;
    assert forall id | id in w.owner :: id in w'.owner && w'.owner[id] == w.owner[id];
    if c.cookie.Some? {
      OthersKept(b, w, i, e, CookieId(b, c.cookie).value);
    }
  }

  lemma {:induction false} ExpireRefines(b: Backend, w: World, i: nat, id: nat, j: nat)
    requires Lawful(b) && Inv(b, w) && i in w.clients && j in w.clients
    ensures Refines(b, w, Next(b, w, i, Expire(id)), j, LabelFor(b, w, i, Expire(id), j))
  {
    var c := w.clients[j];
    assert ClientWell(b, w, j, c) && Next(b, w, i, Expire(id)).clients[j] == c;
    if c.cookie.Some? && CookieId(b, c.cookie).value != id {
      KeysDiffer(b, CookieId(b, c.cookie).value, id);
    }
  }

  lemma {:induction false} OpenRefines(b: Backend, w: World, i: nat, connected: bool)
    requires Lawful(b) && Inv(b, w) && i in w.clients
    ensures Refines(b, w, Next(b, w, i, PollOpen(connected)), i, LabelOf(b, w, i, PollOpen(connected)))
  {
    var c := w.clients[i];
    assert ClientWell(b, w, i, c);
    if c.phase.Reading? {
      assert ReadingWell(b, w, c);
    }
  }

  lemma {:induction false} ServeRefines(b: Backend, w: World, i: nat)
    requires Lawful(b) && Inv(b, w) && i in w.clients
    ensures Refines(b, w, Next(b, w, i, Serve), i, LabelOf(b, w, i, Serve))
  {
    var c := w.clients[i];
    assert ClientWell(b, w, i, c);
    if c.phase.Reading? {
      assert ReadingWell(b, w, c);
    }
    if c.cookie.Some? && Key(b, CookieId(b, c.cookie).value) in w.store {
      assert Decodes(b, w.store[Key(b, CookieId(b, c.cookie).value)]);
    }
  }

  lemma {:induction false} CloseRefines(b: Backend, w: World, i: nat, issued: nat)
    requires Lawful(b) && Inv(b, w) && i in w.clients && issued !in w.owner
    ensures Refines(b, w, Next(b, w, i, PollClose(issued)), i, LabelOf(b, w, i, PollClose(issued)))
  {
    var c := w.clients[i];
    assert ClientWell(b, w, i, c);
    assert Key(b, issued) !in w.store;
    if c.phase.Active? && c.phase.inner.Filled? {
      assert b.decode(b.encode(c.phase.inner.data)) == Some(c.phase.inner.data);
      var id := if c.phase.id.Some? then c.phase.id.value else issued;
      assert b.parse(b.show(id)) == Some(id);
    }
  }

  lemma {:induction false} StoreStaysWell(b: Backend, w: World, i: nat, e: Event)
    requires Lawful(b) && Inv(b, w) && i in w.clients
    ensures StoreWell(b, Next(b, w, i, e))
  {
    var w', c := Next(b, w, i, e), w.clients[i];
    assert ClientWell(b, w, i, c);
    forall id: nat | Key(b, id) in w'.store ensures id in w'.owner && Decodes(b, w'.store[Key(b, id)]) {
      if e.Serve? && c.wire.Some? && c.wire.value.Put? {
        var own := WireOwner(b, w, i);
        if id != own {
          KeysDiffer(b, id, own);
        }
      }
    }
  }

  /** Every step keeps the invariant, is the labelled step of the session it
      concerns, and is no step of any other session. */
  lemma {:induction false} StepRefines(b: Backend, w: World, i: nat, e: Event)
    requires Lawful(b) && Inv(b, w) && i in w.clients && Fresh(w, e)
    ensures Inv(b, Next(b, w, i, e)) && Next(b, w, i, e).clients.Keys == w.clients.Keys
    ensures forall j | j in w.clients :: Refines(b, w, Next(b, w, i, e), j, LabelFor(b, w, i, e, j))
  {
    StoreStaysWell(b, w, i, e);
    forall j | j in w.clients ensures Refines(b, w, Next(b, w, i, e), j, LabelFor(b, w, i, e, j)) {
      if e.Expire? {
        ExpireRefines(b, w, i, e.id, j);
      } else if j != i {
        OtherRefines(b, w, i, e, j);
      } else {
        OwnRefines(b, w, i, e);
      }
    }
  }

  lemma {:induction false} OwnRefines(b: Backend, w: World, i: nat, e: Event)
    requires Lawful(b) && Inv(b, w) && i in w.clients && Fresh(w, e) && !e.Expire?
    ensures Refines(b, w, Next(b, w, i, e), i, LabelOf(b, w, i, e))
  {
    assert ClientWell(b, w, i, w.clients[i]);
    if e.PollOpen? {
      OpenRefines(b, w, i, e.connected);
    } else if e.Serve? {
      ServeRefines(b, w, i);
    } else if e.PollClose? {
      CloseRefines(b, w, i, e.issued);
    }
  }

  // ---- whole runs -----------------------------------------------------------------------------

  /** The world after a run; `None` if an event has no client or reuses an id. */
  function Run(b: Backend, w: World, events: seq<(nat, Event)>): Option<World> {
    if events == [] then Some(w)
    else
      match Run(b, w, events[..|events| - 1])
      case None => None
      case Some(v) =>
        var (i, e) := events[|events| - 1];
        if i in v.clients && Fresh(v, e) then Some(Next(b, v, i, e)) else None
  }

  /** What a run is to one client's session. */
  function Labels(b: Backend, w: World, events: seq<(nat, Event)>, j: nat): seq<Label> {
    if events == [] then []
    else
      var front := Labels(b, w, events[..|events| - 1], j);
      var (i, e) := events[|events| - 1];
      match Run(b, w, events[..|events| - 1])
      case None => front
      case Some(v) => if i in v.clients && j in v.clients then front + [LabelFor(b, v, i, e, j)] else front
  }

  /** Over any run, every client's session is what its own labels make of it. */
  lemma {:induction false} RunRefines(b: Backend, w: World, events: seq<(nat, Event)>, j: nat)
    requires Lawful(b) && Inv(b, w) && j in w.clients && Run(b, w, events).Some?
    ensures var v := Run(b, w, events).value;
      && Inv(b, v) && j in v.clients
      && StepAll(SessionOf(b, w.store, w.clients[j]), Labels(b, w, events, j))
         == Some(SessionOf(b, v.store, v.clients[j]))
    decreases |events|
  {
    if events != [] {
      var front := events[..|events| - 1];
      var (i, e) := events[|events| - 1];
      RunRefines(b, w, front, j);
      var v := Run(b, w, front).value;
      StepRefines(b, v, i, e);
      var labels := Labels(b, w, front, j);
      assert (labels + [LabelFor(b, v, i, e, j)])[..|labels|] == labels;
      assert Refines(b, v, Next(b, v, i, e), j, LabelFor(b, v, i, e, j));
    }
  }

  /** The labels that are steps. */
  function Visible(labels: seq<Label>): seq<Label> {
    if labels == [] then []
    else
      var front, last := Visible(labels[..|labels| - 1]), labels[|labels| - 1];
      if last == Nothing then front else front + [last]
  }

  lemma {:induction false} VisibleSuffices(s: Session, labels: seq<Label>)
    ensures StepAll(s, Visible(labels)) == StepAll(s, labels)
    decreases |labels|
  {
    if labels != [] {
      var front := labels[..|labels| - 1];
      VisibleSuffices(s, front);
      assert (Visible(front) + [labels[|labels| - 1]])[..|Visible(front)|] == Visible(front);
    }
  }

  /** No client has a cookie or a request, and the store is empty. */
  lemma {:induction false} NewWorldIsWell(b: Backend, clients: set<nat>)
    ensures Inv(b, World(map[], map i | i in clients :: Client(None, Idle, None, None), map[]))
  {
  }

  /** A client's request, however it is interleaved with the steps of others:
      while it runs, its session holds what its operations make of what was
      stored; once it is written, that is what is stored. */
  lemma {:induction false} RequestIsAtomic(b: Backend, w: World, events: seq<(nat, Event)>, j: nat, ops: seq<Op>)
    requires Lawful(b) && Inv(b, w) && j in w.clients && Run(b, w, events).Some? && w.clients[j].phase.Idle?
    ensures j in Run(b, w, events).value.clients
    ensures var before, after := SessionOf(b, w.store, w.clients[j]),
                                 SessionOf(b, Run(b, w, events).value.store, Run(b, w, events).value.clients[j]);
      var steps := Visible(Labels(b, w, events, j));
      && (steps == [Load] + Dos(ops) ==> after == Session(before.stored, Some(ApplyAll(Loaded(before.stored), ops))))
      && (steps == [Load] + Dos(ops) + [Commit] ==> after == Session(Request(before.stored, ops), None))
  {
    RunRefines(b, w, events, j);
    var before := SessionOf(b, w.store, w.clients[j]);
    VisibleSuffices(before, Labels(b, w, events, j));
    RequestAsSteps(before, ops);
  }

  /** While a client's write is under way, a poll reports it done if and only
      if the store has executed its command; otherwise it is still waiting, and
      the client is as it was. */
  lemma {:induction false} WrittenIsServed(b: Backend, w: World, i: nat, issued: nat)
    requires Inv(b, w) && i in w.clients && w.clients[i].phase.Writing?
    ensures var c := w.clients[i];
      var r, c' := PollWrite(b, c.phase.write, c.cookie, issued, true, ReplyDone(c.reply)).2,
                   Next(b, w, i, PollClose(issued)).clients[i];
      && (r == Written <==> c.wire.None?)
      && (r == Waiting <==> c.phase.write.Op? && c.wire == Some(c.phase.write.command))
      && c' == if r == Written then c.(phase := Idle, reply := None) else c
  {
    assert ClientWell(b, w, i, w.clients[i]);
  }

  /** A client whose session was loaded and used, and whose request is over, has
      had it written: what is stored is what its operations make of what was
      stored before. */
  lemma {:induction false} WrittenIsStored(b: Backend, w: World, events: seq<(nat, Event)>, j: nat, ops: seq<Op>)
    requires Lawful(b) && Inv(b, w) && j in w.clients && Run(b, w, events).Some? && w.clients[j].phase.Idle?
    requires j in Run(b, w, events).value.clients && Run(b, w, events).value.clients[j].phase.Idle?
    requires Visible(Labels(b, w, events, j)) in {[Load] + Dos(ops), [Load] + Dos(ops) + [Commit]}
    ensures Visible(Labels(b, w, events, j)) == [Load] + Dos(ops) + [Commit]
    ensures SessionOf(b, Run(b, w, events).value.store, Run(b, w, events).value.clients[j])
      == Session(Request(SessionOf(b, w.store, w.clients[j]).stored, ops), None)
  {
    RequestIsAtomic(b, w, events, j, ops);
  }

  // ---- the cookie over a request ---------------------------------------------------------------

  /** The id is the one the client came with exactly if something was stored under it. */
  ghost predicate IdAfter(b: Backend, before: Option<string>, stored: Option<Data>, after: Option<string>) {
    after.Some? && (CookieId(b, after) == CookieId(b, before) <==> stored.Some?)
  }

  /** The cookie once the request has been committed with the given session. */
  ghost predicate CookieAfter(b: Backend, before: Option<string>, stored: Option<Data>, inner: Inner,
                              after: Option<string>) {
    match inner
    case Empty => after == before
    case Filled(_) => IdAfter(b, before, stored, after)
    case Cleared => after == if stored.Some? then None else before
  }

  /** Where a client stands whose request began with the cookie `before` and
      found `stored`; `steps` are the steps of its session so far. */
  ghost predicate Underway(b: Backend, before: Option<string>, stored: Option<Data>, steps: seq<Label>, inner: Inner,
                           c: Client) {
    if Commit in steps then CookieAfter(b, before, stored, inner, c.cookie)
    else
      match c.phase
      case Idle => c.cookie == before
      case Reading(_) => c.cookie == before && (c.reply.Some? ==> (c.reply.value.Some? <==> stored.Some?))
      case Active(_, k) => c.cookie == before && (k.Some? <==> stored.Some?)
      case Writing(_) => IdAfter(b, before, stored, c.cookie) && inner.Filled? && c.wire.Some? && c.wire.value.Put?
  }

  /** The session in flight, as far as the operations among the steps go. */
  function InFlight(stored: Option<Data>, steps: seq<Label>): Inner {
    if steps == [] then Loaded(stored)
    else
      var front := InFlight(stored, steps[..|steps| - 1]);
      match steps[|steps| - 1]
      case Do(op) => Apply(front, op)
      case _ => front
  }

  lemma {:induction false} InFlightOfRequest(stored: Option<Data>, ops: seq<Op>)
    ensures InFlight(stored, [Load] + Dos(ops)) == ApplyAll(Loaded(stored), ops)
    ensures InFlight(stored, [Load] + Dos(ops) + [Commit]) == ApplyAll(Loaded(stored), ops)
    decreases |ops|
  {
    var all := [Load] + Dos(ops);
    if ops == [] {
      assert all == [Load] && all[..0] == [];
    } else {
      InFlightOfRequest(stored, ops[..|ops| - 1]);
      assert all[..|all| - 1] == [Load] + Dos(ops[..|ops| - 1]);
    }
    assert (all + [Commit])[..|all|] == all;
  }

  /** The session in step with `steps`, none of them an expiry. */
  ghost predicate InStep(b: Backend, w: World, j: nat, stored: Option<Data>, steps: seq<Label>)
    requires j in w.clients
  {
    var s := SessionOf(b, w.store, w.clients[j]);
    if Commit in steps then s.running.None?
    else s == Session(stored, if steps == [] then None else Some(InFlight(stored, steps)))
  }

  /** The label may come next in `[Load] + Dos(_) + [Commit]`. */
  predicate Follows(steps: seq<Label>, l: Label) {
    match l
    case Nothing => true
    case Load => steps == []
    case Do(_) => steps != [] && Commit !in steps
    case Commit => steps != [] && Commit !in steps
    case Lose => false
  }

  function Then(steps: seq<Label>, l: Label): seq<Label> {
    if l == Nothing then steps else steps + [l]
  }

  lemma {:induction false} InFlightThen(stored: Option<Data>, steps: seq<Label>, l: Label)
    ensures InFlight(stored, Then(steps, l))
      == if l.Do? then Apply(InFlight(stored, steps), l.op) else InFlight(stored, steps)
    ensures Commit in Then(steps, l) <==> Commit in steps || l == Commit
  {
    assert (steps + [l])[..|steps|] == steps;
  }

  ghost predicate Going(b: Backend, w: World, j: nat, before: Option<string>, stored: Option<Data>, steps: seq<Label>)
    requires j in w.clients
  {
    InStep(b, w, j, stored, steps) && Underway(b, before, stored, steps, InFlight(stored, steps), w.clients[j])
  }

  lemma {:induction false} OpenUnderway(b: Backend, w: World, j: nat, connected: bool, before: Option<string>,
                                        stored: Option<Data>, steps: seq<Label>)
    requires Lawful(b) && Inv(b, w) && j in w.clients && Going(b, w, j, before, stored, steps)
    requires Follows(steps, LabelOf(b, w, j, PollOpen(connected)))
    ensures var l := LabelOf(b, w, j, PollOpen(connected));
      Underway(b, before, stored, Then(steps, l), InFlight(stored, steps),
               ClientNext(b, w, w.clients[j], PollOpen(connected)))
  {
    var c := w.clients[j];
    assert ClientWell(b, w, j, c);
    if c.phase.Reading? {
      assert ReadingWell(b, w, c);
    }
  }

  lemma {:induction false} ServeUnderway(b: Backend, w: World, j: nat, before: Option<string>, stored: Option<Data>,
                                         steps: seq<Label>)
    requires Lawful(b) && Inv(b, w) && j in w.clients && Going(b, w, j, before, stored, steps)
    requires Follows(steps, LabelOf(b, w, j, Serve))
    ensures Underway(b, before, stored, Then(steps, LabelOf(b, w, j, Serve)), InFlight(stored, steps),
                     ClientNext(b, w, w.clients[j], Serve))
  {
    var c := w.clients[j];
    assert ClientWell(b, w, j, c);
    if c.phase.Reading? {
      assert ReadingWell(b, w, c);
      if c.phase.state.Fetch? && c.phase.state.key in w.store {
        assert Decodes(b, w.store[c.phase.state.key]);
      }
    }
  }

  lemma {:induction false} CloseUnderway(b: Backend, w: World, j: nat, issued: nat, before: Option<string>,
                                         stored: Option<Data>, steps: seq<Label>)
    requires Lawful(b) && Inv(b, w) && j in w.clients && Going(b, w, j, before, stored, steps) && issued !in w.owner
    requires Follows(steps, LabelOf(b, w, j, PollClose(issued)))
    ensures var l := LabelOf(b, w, j, PollClose(issued));
      Underway(b, before, stored, Then(steps, l), InFlight(stored, steps),
               ClientNext(b, w, w.clients[j], PollClose(issued)))
  {
    var c := w.clients[j];
    assert ClientWell(b, w, j, c);
    if c.phase.Active? && c.phase.inner.Filled? {
      var id := if c.phase.id.Some? then c.phase.id.value else issued;
      assert b.parse(b.show(id)) == Some(id);
    }
  }

  lemma {:induction false} UnderwayStep(b: Backend, w: World, i: nat, e: Event, j: nat, before: Option<string>,
                                        stored: Option<Data>, steps: seq<Label>)
    requires Lawful(b) && Inv(b, w) && i in w.clients && j in w.clients && Fresh(w, e)
      && Going(b, w, j, before, stored, steps)
    requires Follows(steps, LabelFor(b, w, i, e, j))
    ensures var l := LabelFor(b, w, i, e, j);
      Underway(b, before, stored, Then(steps, l), InFlight(stored, Then(steps, l)), Next(b, w, i, e).clients[j])
  {
    InFlightThen(stored, steps, LabelFor(b, w, i, e, j));
    assert ClientWell(b, w, j, w.clients[j]);
    if j == i {
      if e.PollOpen? {
        OpenUnderway(b, w, j, e.connected, before, stored, steps);
      } else if e.Serve? {
        ServeUnderway(b, w, j, before, stored, steps);
      } else if e.PollClose? {
        CloseUnderway(b, w, j, e.issued, before, stored, steps);
      }
    }
  }

  function Whole(ops: seq<Op>): seq<Label> {
    [Load] + Dos(ops) + [Commit]
  }

  /** What a session is after the first steps of a request. */
  lemma {:induction false} PrefixOfRequest(s: Session, ops: seq<Op>, steps: seq<Label>)
    requires s.running.None? && steps <= Whole(ops)
    ensures Commit in steps <==> steps == Whole(ops)
    ensures Commit !in steps
      ==> StepAll(s, steps) == Some(Session(s.stored, if steps == [] then None else Some(InFlight(s.stored, steps))))
    ensures Commit in steps ==> StepAll(s, steps) == Some(Session(Request(s.stored, ops), None))
  {
    var whole := Whole(ops);
    assert forall k | 0 <= k < |steps| :: steps[k] == whole[k];
    RequestAsSteps(s, ops);
    if 0 < |steps| < |whole| {
      var some := ops[..|steps| - 1];
      assert steps == [Load] + Dos(some);
      RequestAsSteps(s, some);
      InFlightOfRequest(s.stored, some);
    } else if |steps| == |whole| {
      assert steps == whole && whole[|whole| - 1] == Commit;
    }
  }

  lemma {:induction false} NextOfRequest(ops: seq<Op>, steps: seq<Label>, l: Label)
    requires l != Nothing && steps + [l] <= Whole(ops)
    ensures Follows(steps, l)
  {
    var whole := Whole(ops);
    assert (steps + [l])[|steps|] == l == whole[|steps|];
    assert forall k | 0 <= k < |steps| :: steps[k] == (steps + [l])[k] == whole[k];
  }

  lemma {:induction false} LabelsPush(b: Backend, w: World, events: seq<(nat, Event)>, j: nat)
    requires Lawful(b) && Inv(b, w) && j in w.clients && events != [] && Run(b, w, events).Some?
    ensures var front := events[..|events| - 1]; var (i, e) := events[|events| - 1];
      && Run(b, w, front).Some? && i in Run(b, w, front).value.clients && j in Run(b, w, front).value.clients
      && Fresh(Run(b, w, front).value, e) && Run(b, w, events).value == Next(b, Run(b, w, front).value, i, e)
      && Visible(Labels(b, w, events, j))
         == Then(Visible(Labels(b, w, front, j)), LabelFor(b, Run(b, w, front).value, i, e, j))
  {
    var front := events[..|events| - 1];
    RunRefines(b, w, front, j);
    var (i, e) := events[|events| - 1];
    var labels, l := Labels(b, w, front, j), LabelFor(b, Run(b, w, front).value, i, e, j);
    assert (labels + [l])[..|labels|] == labels;
  }

  /** Through a whole request, a client's cookie is where its steps put it. */
  lemma {:induction false} RunUnderway(b: Backend, w: World, events: seq<(nat, Event)>, j: nat, ops: seq<Op>)
    requires Lawful(b) && Inv(b, w) && j in w.clients && Run(b, w, events).Some? && w.clients[j].phase.Idle?
    requires Visible(Labels(b, w, events, j)) <= Whole(ops)
    ensures j in Run(b, w, events).value.clients
    ensures Going(b, Run(b, w, events).value, j, w.clients[j].cookie, SessionOf(b, w.store, w.clients[j]).stored,
                  Visible(Labels(b, w, events, j)))
    decreases |events|
  {
    var c, s, steps := w.clients[j], SessionOf(b, w.store, w.clients[j]), Visible(Labels(b, w, events, j));
    RunRefines(b, w, events, j);
    VisibleSuffices(s, Labels(b, w, events, j));
    PrefixOfRequest(s, ops, steps);
    if events != [] {
      var front := events[..|events| - 1];
      var (i, e) := events[|events| - 1];
      LabelsPush(b, w, events, j);
      var v, before := Run(b, w, front).value, Visible(Labels(b, w, front, j));
      var l := LabelFor(b, v, i, e, j);
      if l != Nothing {
        NextOfRequest(ops, before, l);
      }
      assert before <= Whole(ops);
      RunUnderway(b, w, front, j, ops);
      RunRefines(b, w, front, j);
      UnderwayStep(b, v, i, e, j, c.cookie, s.stored, before);
    }
  }

  /** What a request does to its client's cookie. A clear removes it exactly if
      something was stored, so that a cookie whose key was gone outlives a
      clear; a request that leaves a map keeps the id exactly if something was
      stored, and otherwise takes a new one; any other request leaves it. */
  lemma {:induction false} RequestMovesCookie(b: Backend, w: World, events: seq<(nat, Event)>, j: nat, ops: seq<Op>)
    requires Lawful(b) && Inv(b, w) && j in w.clients && Run(b, w, events).Some? && w.clients[j].phase.Idle?
    requires Visible(Labels(b, w, events, j)) == Whole(ops)
    ensures j in Run(b, w, events).value.clients
    ensures var stored, before, after := SessionOf(b, w.store, w.clients[j]).stored,
                                        w.clients[j].cookie, Run(b, w, events).value.clients[j].cookie;
      && (Op.Clear in ops ==> (after.None? <==> before.None? || stored.Some?))
      && (Request(stored, ops).Some? ==> after.Some? && (CookieId(b, after) == CookieId(b, before) <==> stored.Some?))
      && (Op.Clear !in ops && Request(stored, ops).None? ==> after == before)
  {
    var stored := SessionOf(b, w.store, w.clients[j]).stored;
    RunUnderway(b, w, events, j, ops);
    PrefixOfRequest(SessionOf(b, w.store, w.clients[j]), ops, Whole(ops));
    InFlightOfRequest(stored, ops);
    OperationsImplementRequest(stored, ops);
  }

  lemma {:induction false} RunPush(b: Backend, w: World, events: seq<(nat, Event)>, v: World, i: nat, e: Event)
    requires Run(b, w, events) == Some(v) && i in v.clients && Fresh(v, e)
    ensures Run(b, w, events + [(i, e)]) == Some(Next(b, v, i, e))
  {
    assert (events + [(i, e)])[..|events|] == events;
  }

  /** A client whose key has expired, as it clears its session. */
  function StaleWorld(b: Backend, id: nat): World {
    World(map[], map[0 := Client(Some(b.show(id)), Idle, None, None)], map[id := 0])
  }

  const CLEARING: seq<Event> := [Begin, PollOpen(true), Serve, PollOpen(true), Operate(Op.Clear)]

  /** Its request is over after its last poll, and the cookie is still there. */
  lemma {:induction false} StaleCookieSurvivesClear(b: Backend, id: nat, issued: nat)
    returns (events: seq<(nat, Event)>)
    requires Lawful(b) && issued != id
    ensures Inv(b, StaleWorld(b, id)) && Run(b, StaleWorld(b, id), events).Some?
    ensures var c := Run(b, StaleWorld(b, id), events).value.clients;
      |events| == 6 && events[4] == (0, Operate(Op.Clear)) && events[5] == (0, PollClose(issued))
      && 0 in c && c[0] == Client(Some(b.show(id)), Idle, None, None)
  {
    var w := StaleWorld(b, id);
    assert b.parse(b.show(id)) == Some(id);
    events := [];
    var v, n := w, 0;
    while n < 5
      invariant 0 <= n <= 5 && |events| == n && Run(b, w, events) == Some(v) && v.clients.Keys == {0}
      invariant v == World(map[], map[0 := StaleClient(b, id, n)], map[id := 0])
      invariant n == 5 ==> events[4] == (0, Operate(Op.Clear))
    {
      StaleStep(b, id, n);
      RunPush(b, w, events, v, 0, CLEARING[n]);
      events := events + [(0, CLEARING[n])];
      v := Next(b, v, 0, CLEARING[n]);
      n := n + 1;
    }
    RunPush(b, w, events, v, 0, PollClose(issued));
    events := events + [(0, PollClose(issued))];
  }

  function StaleClient(b: Backend, id: nat, n: nat): Client {
    var cookie := Some(b.show(id));
    if n == 0 then Client(cookie, Idle, None, None)
    else if n == 1 then Client(cookie, Reading(Init), None, None)
    else if n == 2 then Client(cookie, Reading(Fetch(Key(b, id), id)), Some(Get(Key(b, id))), None)
    else if n == 3 then Client(cookie, Reading(Fetch(Key(b, id), id)), None, Some(None))
    else if n == 4 then Client(cookie, Active(Empty, None), None, None)
    else Client(cookie, Active(Cleared, None), None, None)
  }

  lemma {:induction false} StaleStep(b: Backend, id: nat, n: nat)
    requires Lawful(b) && n < 5
    ensures var v := World(map[], map[0 := StaleClient(b, id, n)], map[id := 0]);
      Next(b, v, 0, CLEARING[n]) == World(map[], map[0 := StaleClient(b, id, n + 1)], map[id := 0])
  {
    assert b.parse(b.show(id)) == Some(id);
    var v := World(map[], map[0 := StaleClient(b, id, n)], map[id := 0]);
    assert v.clients[0] == StaleClient(b, id, n);
  }
}
