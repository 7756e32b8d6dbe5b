/** The cookie backend: the session data travel in the cookie itself. */
module CookieSessions {
  import opened Options
  import opened Sessions

  type Cookies = map<string, string>

  /** Serialisation, the hook that may change a cookie before it is added, and
      the sealing of cookie values (plain, signed or private). */
  datatype Backend = Backend(name: string, encode: Data -> string, decode: string -> Option<Data>,
                             build: (string, string) -> (string, string),
                             seal: string -> string, unseal: string -> Option<string>)

  /** Serialisation and sealing can be undone, and the hook keeps name and value. */
  ghost predicate Lawful(b: Backend) {
    && (forall m: Data :: b.decode(b.encode(m)) == Some(m))
    && (forall s: string :: b.unseal(b.seal(s)) == Some(s))
    && (forall s: string :: b.build(b.name, s) == (b.name, s))
  }

  /** The text in the session's cookie; a cookie that does not unseal counts as absent. */
  function TextIn(b: Backend, cookies: Cookies): Option<string> {
    if b.name in cookies then b.unseal(cookies[b.name]) else None
  }

  /** Read the session; `None` is the error of a cookie header that does not
      parse (`opens`) or of a text that does not decode. */
  function Read(b: Backend, opens: bool, cookies: Cookies): Option<Inner> {
    if !opens then None
    else
      match TextIn(b, cookies)
      case None => Some(Empty)
      case Some(text) =>
        match b.decode(text)
        case None => None
        case Some(m) => Some(Filled(m))
  }

  /** A read fails if and only if the cookie header does not parse or the
      session's cookie holds a text that does not decode; a session without a
      cookie that unseals is empty. */
  lemma {:induction false} ReadExactly(b: Backend, opens: bool, cookies: Cookies)
    ensures var text := if b.name in cookies then b.unseal(cookies[b.name]) else None;
      && (Read(b, opens, cookies).None? <==> !opens || (text.Some? && b.decode(text.value).None?))
      && (opens && text.None? ==> Read(b, opens, cookies) == Some(Empty))
      && (opens && text.Some? && b.decode(text.value).Some? ==>
            Read(b, opens, cookies) == Some(Filled(b.decode(text.value).value)))
  {
  }

  class Jar {
    var cookies: Cookies

    constructor (cookies: Cookies)
      ensures this.cookies == cookies
    {
      this.cookies := cookies;
    }
  }

  method Write(b: Backend, inner: Inner, jar: Jar, opens: bool) returns (ok: bool)
    modifies jar
    ensures ok <==> inner.Empty? || opens
    ensures jar.cookies == if ok then Written(b, inner, old(jar.cookies)) else old(jar.cookies)
    ensures !ok || inner.Empty? ==> jar.cookies == old(jar.cookies)
    ensures ok && inner.Cleared? ==> jar.cookies == old(jar.cookies) - {b.name}
    ensures ok && inner.Filled? ==>
      var (name, value) := b.build(b.name, b.encode(inner.data));
      jar.cookies == old(jar.cookies)[name := b.seal(value)]
  {
    match inner
    case Empty => ok := true;
    case Filled(m) =>
      var value := b.encode(m);
      var (name, built) := b.build(b.name, value);
      if !opens {
        return false;
      }
      jar.cookies := jar.cookies[name := b.seal(built)];
      ok := true;
    case Cleared =>
      if !opens {
        return false;
      }
      jar.cookies := jar.cookies - {b.name};
      ok := true;
  }

  function Written(b: Backend, inner: Inner, cookies: Cookies): Cookies {
    match inner
    case Empty => cookies
    case Filled(m) =>
      var (name, built) := b.build(b.name, b.encode(m));
      cookies[name := b.seal(built)]
    case Cleared => cookies - {b.name}
  }

  /** What the session's cookie stores. */
  function Stored(b: Backend, cookies: Cookies): Option<Data> {
    match TextIn(b, cookies)
    case None => None
    case Some(text) => b.decode(text)
  }

  /** One request over the cookies: read, operate, write back. */
  function Serve(b: Backend, cookies: Cookies, ops: seq<Op>): Option<Cookies> {
    match Read(b, true, cookies)
    case None => None
    case Some(inner) => Some(Written(b, ApplyAll(inner, ops), cookies))
  }

  function ServeAll(b: Backend, cookies: Cookies, requests: seq<seq<Op>>): Option<Cookies> {
    if requests == [] then Some(cookies)
    else
      match ServeAll(b, cookies, requests[..|requests| - 1])
      case None => None
      case Some(c) => Serve(b, c, requests[|requests| - 1])
  }

  function RequestAll(stored: Option<Data>, requests: seq<seq<Op>>): Option<Data> {
    if requests == [] then stored
    else Request(RequestAll(stored, requests[..|requests| - 1]), requests[|requests| - 1])
  }

  /** One request does to the stored map what it does to the abstract one, the
      next request can read it, and no other cookie changes. */
  lemma {:induction false} ServeImplementsRequest(b: Backend, cookies: Cookies, ops: seq<Op>)
    requires Lawful(b) && Read(b, true, cookies).Some?
    ensures Serve(b, cookies, ops).Some?
    ensures var c := Serve(b, cookies, ops).value;
      && Stored(b, c) == Request(Stored(b, cookies), ops)
      && Read(b, true, c) == Some(Loaded(Request(Stored(b, cookies), ops)))
      && c - {b.name} == cookies - {b.name}
  {
    OperationsImplementRequest(Stored(b, cookies), ops);
    var inner := ApplyAll(Loaded(Stored(b, cookies)), ops);
    if inner.Filled? {
      assert b.unseal(b.seal(b.encode(inner.data))) == Some(b.encode(inner.data));
    }
  }

  /** The backend implements the abstract session over any sequence of requests. */
  lemma {:induction false} RunImplementsRequests(b: Backend, cookies: Cookies, requests: seq<seq<Op>>)
    requires Lawful(b) && Read(b, true, cookies).Some?
    ensures ServeAll(b, cookies, requests).Some?
    ensures var c := ServeAll(b, cookies, requests).value;
      && Stored(b, c) == RequestAll(Stored(b, cookies), requests) && Read(b, true, c) == Some(Loaded(Stored(b, c)))
      && c - {b.name} == cookies - {b.name}
    decreases |requests|
  {
    if requests != [] {
      var front := requests[..|requests| - 1];
      RunImplementsRequests(b, cookies, front);
      ServeImplementsRequest(b, ServeAll(b, cookies, front).value, requests[|requests| - 1]);
    }
  }
}
