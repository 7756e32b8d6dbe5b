/** The Redis backend as it is polled: reading a session and writing it back. */
module RedisSessions {
  import opened Options
  import opened Sessions

  datatype Backend = Backend(prefix: string, show: nat -> string, parse: string -> Option<nat>,
                             encode: Data -> string, decode: string -> Option<Data>)

  ghost predicate Lawful(b: Backend) {
    && (forall m: Data :: b.decode(b.encode(m)) == Some(m))
    && (forall id: nat :: b.parse(b.show(id)) == Some(id))
  }

  function Key(b: Backend, id: nat): string {
    b.prefix + ":" + b.show(id)
  }

  predicate ColonFree(s: string) {
    forall i | 0 <= i < |s| :: s[i] != ':'
  }

  /** A key is the prefix, a colon, and the id. */
  lemma {:induction false} KeyParts(b: Backend, id: nat)
    ensures var n, key := |b.prefix|, Key(b, id);
      n < |key| && key[..n] == b.prefix && key[n] == ':' && key[n + 1..] == b.show(id)
  {
  }

  /** Backends with different prefixes, neither with a colon, share no key. */
  lemma {:induction false} PrefixesDiffer(b: Backend, c: Backend, i: nat, j: nat)
    requires b.prefix != c.prefix && ColonFree(b.prefix) && ColonFree(c.prefix)
    ensures Key(b, i) != Key(c, j)
  {
    KeyParts(b, i);
    KeyParts(c, j);
    assert forall k | 0 <= k < |b.prefix| :: Key(b, i)[k] == b.prefix[k] != ':';
    assert forall k | 0 <= k < |c.prefix| :: Key(c, j)[k] == c.prefix[k] != ':';
  }

  lemma {:induction false} KeysDiffer(b: Backend, i: nat, j: nat)
    requires Lawful(b) && i != j
    ensures Key(b, i) != Key(b, j)
  {
    assert b.show(i) == Key(b, i)[|b.prefix| + 1..] && b.show(j) == Key(b, j)[|b.prefix| + 1..];
    assert b.parse(b.show(i)) == Some(i) && b.parse(b.show(j)) == Some(j);
  }

  // ---- reading --------------------------------------------------------------------

  datatype ReadState =
    | Init
    | Connecting(keyName: Option<string>, sessionId: Option<nat>)
    | Fetch(key: string, id: nat)
    | Done

  /** What polling a future of the client library gives. */
  datatype Answer<T> = NotReady | Ready(value: T) | Failed

  datatype ReadPoll = Pending | Opened(inner: Inner, id: Option<nat>) | Error | Panicked

  predicate Paired(s: ReadState) {
    s.Connecting? ==> (s.keyName.Some? <==> s.sessionId.Some?)
  }

  /** One poll of the read machine, as a whole. `opens`: the cookie header parses. */
  function PollRead(b: Backend, s: ReadState, opens: bool, cookie: Option<string>,
                    connected: Answer<()>, fetched: Answer<Option<string>>): (ReadState, ReadPoll)
  {
    match s
    case Init =>
      if !opens then (Init, Error) else
      (match cookie
       case None => PollConnecting(b, Connecting(None, None), connected, fetched)
       case Some(text) =>
         match b.parse(text)
         case None => (Init, Error)
         case Some(id) => PollConnecting(b, Connecting(Some(Key(b, id)), Some(id)), connected, fetched))
    case Connecting(_, _) => PollConnecting(b, s, connected, fetched)
    case Fetch(_, _) => PollFetch(b, s, fetched)
    case Done => (Done, Panicked)
  }

  function PollConnecting(b: Backend, s: ReadState, connected: Answer<()>, fetched: Answer<Option<string>>)
    : (ReadState, ReadPoll)
    requires s.Connecting?
  {
    match connected
    case NotReady => (s, Pending)
    case Failed => (s, Error)
    case Ready(_) =>
      if s.keyName.Some? && s.sessionId.Some? then PollFetch(b, Fetch(s.keyName.value, s.sessionId.value), fetched)
      else (Done, Opened(Empty, None))
  }

  function PollFetch(b: Backend, s: ReadState, fetched: Answer<Option<string>>): (ReadState, ReadPoll)
    requires s.Fetch?
  {
    match fetched
    case NotReady => (s, Pending)
    case Failed => (s, Error)
    case Ready(None) => (Done, Opened(Empty, None))
    case Ready(Some(text)) =>
      match b.decode(text)
      case None => (Done, Error)
      case Some(m) => (Done, Opened(Filled(m), Some(s.id)))
  }

  class ReadSession {
    const backend: Backend
    var state: ReadState

    constructor (backend: Backend)
      ensures this.backend == backend && state == Init
    {
      this.backend := backend;
      state := Init;
    }

    /** Poll until something is not ready. The key and the id of a connecting
        state are always both there or both absent, so that the last arm of
        the inner match is never taken. */
    method PollReady(opens: bool, cookie: Option<string>, connected: Answer<()>, fetched: Answer<Option<string>>)
      returns (r: ReadPoll)
      requires Paired(state)
      modifies this
      ensures Paired(state)
      ensures (state, r) == PollRead(backend, old(state), opens, cookie, connected, fetched)
    {
      while true
        invariant Paired(state)
        invariant PollRead(backend, old(state), opens, cookie, connected, fetched)
          == PollRead(backend, state, opens, cookie, connected, fetched)
        decreases match state case Init => 3 case Connecting(_, _) => 2 case Fetch(_, _) => 1 case Done => 0
      {
        var value: Option<string> := None;
        match state {
          case Init =>
            if !opens {
              return Error;
            }
            var id: Option<nat> := None;
            if cookie.Some? {
              id := backend.parse(cookie.value);
              if id == None {
                return Error;
              }
            }
            var key := if id.Some? then Some(Key(backend, id.value)) else None;
            state := Connecting(key, id);
            continue;
          case Connecting(_, _) =>
            match connected {
              case NotReady => return Pending;
              case Failed => return Error;
              case Ready(_) =>
            }
          case Fetch(_, _) =>
            match fetched {
              case NotReady => return Pending;
              case Failed => return Error;
              case Ready(v) => value := v;
            }
          case Done => return Panicked;
        }
        var taken := state;
        state := Done;
        match (taken, value) {
          case (Connecting(Some(key), Some(id)), None) => state := Fetch(key, id);
          case (Fetch(_, id), Some(text)) =>
            var data := backend.decode(text);
            if data == None {
              return Error;
            }
            return Opened(Filled(data.value), Some(id));
          case (Connecting(None, None), None) => return Opened(Empty, None);
          case (Fetch(_, _), None) => return Opened(Empty, None);
          case _ => assert false;
        }
      }
    }
  }

  // ---- what one poll of a read gives ------------------------------------------------

  /** The id of the session that is being read. */
  function IdOf(b: Backend, s: ReadState, cookie: Option<string>): Option<nat> {
    match s
    case Init => if cookie.Some? then b.parse(cookie.value) else None
    case Connecting(_, id) => id
    case Fetch(_, id) => Some(id)
    case Done => None
  }

  /** The read cannot be started: the cookie header does not parse, or the cookie is no id. */
  predicate Unstartable(b: Backend, s: ReadState, opens: bool, cookie: Option<string>) {
    s.Init? && (!opens || (cookie.Some? && b.parse(cookie.value).None?))
  }

  /** The poll gets to the reply of the store. */
  predicate Fetches(b: Backend, s: ReadState, opens: bool, cookie: Option<string>, connected: Answer<()>) {
    s.Fetch? || (!s.Done? && !Unstartable(b, s, opens, cookie) && connected.Ready? && IdOf(b, s, cookie).Some?)
  }

  /** What one poll gives. It is an error if the read cannot be started, the
      connection or the fetch fails, or the data do not decode; it is a new
      session if there is no id or nothing is stored, and the stored one if
      there is something; otherwise it is pending. */
  lemma {:induction false} PollReadExactly(b: Backend, s: ReadState, opens: bool, cookie: Option<string>,
                                           connected: Answer<()>, fetched: Answer<Option<string>>)
    requires Paired(s)
    ensures var (s', r) := PollRead(b, s, opens, cookie, connected, fetched);
      var bad, fetches := Unstartable(b, s, opens, cookie), Fetches(b, s, opens, cookie, connected);
      var id := IdOf(b, s, cookie);
      var connects := !s.Done? && !s.Fetch? && !bad;
      && (r == Panicked <==> s.Done?)
      && (r == Error <==>
            || bad || (connects && connected.Failed?)
            || (fetches && (fetched.Failed?
              || (fetched.Ready? && fetched.value.Some? && b.decode(fetched.value.value).None?))))
      && (r == Pending <==> (connects && connected.NotReady?) || (fetches && fetched.NotReady?))
      && (r.Opened? && r.inner.Empty? <==>
            (connects && connected.Ready? && id.None?) || (fetches && fetched == Answer.Ready(None)))
      && (r.Opened? && r.inner.Empty? ==> r.id.None?)
      && (r.Opened? && !r.inner.Empty? ==>
            fetches && fetched.Ready? && fetched.value.Some? && r.id == id
            && b.decode(fetched.value.value).Some? && r.inner == Filled(b.decode(fetched.value.value).value))
  {
  }

  // ---- writing --------------------------------------------------------------------

  datatype Command = Get(key: string) | Put(key: string, value: string) | Del(key: string)

  /** What the first poll of a write does: the cookie it leaves, and the command it issues. */
  function StartWrite(b: Backend, inner: Inner, id: Option<nat>, issued: nat, cookie: Option<string>)
    : (Option<string>, Option<Command>)
  {
    match inner
    case Empty => (cookie, None)
    case Filled(m) =>
      var i := if id.Some? then id.value else issued;
      (Some(b.show(i)), Some(Put(Key(b, i), b.encode(m))))
    case Cleared => if id.Some? then (None, Some(Del(Key(b, id.value)))) else (cookie, None)
  }

  /** `Unsent` loses its session when it is first polled. */
  datatype WriteState = Unsent(session: Option<(Inner, Option<nat>)>) | Op(command: Command)

  datatype WritePoll = Waiting | Written | Refused | Broken

  /** One poll of the write machine: the state and the cookie it leaves, and
      what it gives. `opens`: the cookie header parses. */
  function PollWrite(b: Backend, s: WriteState, cookie: Option<string>, issued: nat, opens: bool, done: Answer<()>)
    : (WriteState, Option<string>, WritePoll)
  {
    match s
    case Unsent(None) => (s, cookie, Broken)
    case Unsent(Some((inner, id))) =>
      var (c, command) := StartWrite(b, inner, id, issued, cookie);
      if command.None? then (Unsent(None), cookie, Written)
      else if !opens then (Unsent(None), cookie, Refused)
      else (Op(command.value), c, Waited(done))
    case Op(_) => (s, cookie, Waited(done))
  }

  function Waited(done: Answer<()>): WritePoll {
    match done
    case NotReady => Waiting
    case Ready(_) => Written
    case Failed => Refused
  }

  /** The session was not changed, or it was cleared before it had an id. */
  predicate NothingToWrite(s: WriteState) {
    s.Unsent? && s.session.Some?
      && (s.session.value.0.Empty? || (s.session.value.0.Cleared? && s.session.value.1.None?))
  }

  /** A pending write and the cookie it changes. */
  class WriteSession {
    const backend: Backend
    var state: WriteState
    var cookie: Option<string>

    constructor (backend: Backend, inner: Inner, id: Option<nat>, cookie: Option<string>)
      ensures this.backend == backend && state == Unsent(Some((inner, id))) && this.cookie == cookie
    {
      this.backend, state, this.cookie := backend, Unsent(Some((inner, id))), cookie;
    }

    /** The first poll writes the cookie, if its header parses, and issues the
        command; a session without anything to write is done at once. A
        command that has been issued is waited for: the write is done when the
        command has answered, and refused when it has failed. */
    method PollReady(issued: nat, opens: bool, done: Answer<()>) returns (r: WritePoll)
      modifies this
      ensures (state, cookie, r) == PollWrite(backend, old(state), old(cookie), issued, opens, done)
      ensures r == Broken <==> old(state) == Unsent(None)
      ensures r == Broken ==> state == old(state) && cookie == old(cookie)
      ensures r == Waiting ==> state.Op? && done.NotReady?
      ensures r == Written ==> if state.Op? then done.Ready? else NothingToWrite(old(state))
      ensures r == Refused ==> if state.Op? then done.Failed? else !opens && !NothingToWrite(old(state))
      ensures old(state).Op? ==> state == old(state) && cookie == old(cookie)
      ensures old(state).Unsent? && old(state).session.Some? ==>
        var (inner, id) := old(state).session.value;
        var (c, command) := StartWrite(backend, inner, id, issued, old(cookie));
        if command.None? || !opens then state == Unsent(None) && cookie == old(cookie)
        else state == Op(command.value) && cookie == c
    {
      match state {
        case Unsent(None) => return Broken;
        case Unsent(Some((inner, id))) =>
          state := Unsent(None);
          match inner {
            case Empty => return Written;
            case Filled(m) =>
              var i := if id.Some? then id.value else issued;
              if !opens {
                return Refused;
              }
              cookie := Some(backend.show(i));
              state := Op(Put(Key(backend, i), backend.encode(m)));
            case Cleared =>
              if id == None {
                return Written;
              }
              if !opens {
                return Refused;
              }
              cookie := None;
              state := Op(Del(Key(backend, id.value)));
          }
        case Op(_) =>
      }
      match done {
        case NotReady => r := Waiting;
        case Ready(_) => r := Written;
        case Failed => r := Refused;
      }
    }
  }

  // ---- a whole write ----------------------------------------------------------------

  /** What a poll is given: a new id, whether the cookie header parses, and
      what the command has answered so far. */
  datatype WriteTurn = WriteTurn(issued: nat, opens: bool, done: Answer<()>)

  /** The state, the cookie and the last answer after some polls. */
  function PollAll(b: Backend, s: WriteState, cookie: Option<string>, turns: seq<WriteTurn>)
    : (WriteState, Option<string>, WritePoll)
    requires turns != []
  {
    var last := turns[|turns| - 1];
    if |turns| == 1 then PollWrite(b, s, cookie, last.issued, last.opens, last.done)
    else
      var (t, c, _) := PollAll(b, s, cookie, turns[..|turns| - 1]);
      PollWrite(b, t, c, last.issued, last.opens, last.done)
  }

  /** Every poll but the last was still waiting. */
  ghost predicate StillWaiting(b: Backend, s: WriteState, cookie: Option<string>, turns: seq<WriteTurn>) {
    forall n | 0 < n < |turns| :: PollAll(b, s, cookie, turns[..n]).2 == Waiting
  }

  /** Over any polls, a write is reported done if and only if there was nothing
      to write, or the command that its first poll issued has answered. */
  lemma {:induction false} WriteIsReported(b: Backend, inner: Inner, id: Option<nat>, cookie: Option<string>,
                                           turns: seq<WriteTurn>)
    requires turns != [] && StillWaiting(b, Unsent(Some((inner, id))), cookie, turns)
    ensures var s := Unsent(Some((inner, id)));
      var (t, c, r) := PollAll(b, s, cookie, turns);
      var last := turns[|turns| - 1];
      && (r == Written <==> NothingToWrite(s) || (turns[0].opens && last.done.Ready?))
      && (r == Refused <==> !NothingToWrite(s) && (!turns[0].opens || last.done.Failed?))
      && (r == Waiting <==> !NothingToWrite(s) && turns[0].opens && last.done.NotReady?)
      && (t.Op? <==> !NothingToWrite(s) && turns[0].opens)
      && (t.Op? ==> (c, Some(t.command)) == StartWrite(b, inner, id, turns[0].issued, cookie))
      && (!t.Op? ==> c == cookie)
    decreases |turns|
  {
    if |turns| > 1 {
      var s, front := Unsent(Some((inner, id))), turns[..|turns| - 1];
      forall n | 0 < n < |front| ensures PollAll(b, s, cookie, front[..n]).2 == Waiting {
        assert front[..n] == turns[..n];
      }
      WriteIsReported(b, inner, id, cookie, front);
      assert turns[..|turns| - 1] == front && front[0] == turns[0];
      assert PollAll(b, s, cookie, front).2 == Waiting;
    }
  }
}
