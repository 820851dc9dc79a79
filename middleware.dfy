/**
 * Session.ServeHTTP: the per-request flow around the codec. The request-scoped
 * store (gorilla/context) and the response writer are objects the flow updates
 * in place; the next handler is a function of what it can see and change.
 */
module Middleware {
  import opened Primitives
  import opened Codec

  /** net/http header map: each name carries a list of values. */
  type Header = map<string, seq<Bytes>>

  const SessionHeader: string := "Session"

  /** CONTEXT_KEY: where downstream handlers find the session id. */
  const ContextKey: string := "session_id"

  /** Header.Get: the first value under the name, or the empty string. */
  function HeaderGet(h: Header, name: string): (v: Bytes)
    ensures name !in h || h[name] == [] ==> v == []
    ensures name in h && h[name] != [] ==> v == h[name][0]
  {
    if name in h && h[name] != [] then h[name][0] else []
  }

  /** Header.Add: appends a value under the name and leaves the other names alone. */
  function HeaderAdd(h: Header, name: string, v: Bytes): (r: Header)
    ensures r.Keys == h.Keys + {name}
    ensures r[name] == (if name in h then h[name] else []) + [v]
    ensures forall n :: n in h && n != name ==> r[n] == h[n]
  {
    h[name := (if name in h then h[name] else []) + [v]]
  }

  /** What the next handler sees and may change: the store entries of this
      request, and the response header. */
  datatype Exchange = Exchange(values: map<string, Bytes>, header: Header)

  type Handler = Exchange -> Exchange

  /** The entries gorilla/context keeps for one request. */
  class RequestContext {
    var values: map<string, Bytes>

    constructor ()
      ensures values == map[]
    {
      values := map[];
    }

    /** context.Set */
    method Set(key: string, v: Bytes)
      modifies this
      ensures values == old(values)[key := v]
    {
      values := values[key := v];
    }

    /** context.Get, with the `.(string)` assertion: None where the source panics. */
    method Get(key: string) returns (v: Option<Bytes>)
      ensures key in values <==> v.Some?
      ensures v.Some? ==> v.value == values[key]
    {
      v := if key in values then Some(values[key]) else None;
    }

    /** context.Clear */
    method Clear()
      modifies this
      ensures values == map[]
    {
      values := map[];
    }
  }

  class ResponseWriter {
    var header: Header

    constructor ()
      ensures header == map[]
    {
      header := map[];
    }

    /** w.Header().Add */
    method AddHeader(name: string, v: Bytes)
      modifies this
      ensures header == HeaderAdd(old(header), name, v)
    {
      header := HeaderAdd(header, name, v);
    }
  }

  /** The id published to the store on entry, at time `now`. */
  function Inbound(s: Session, f: Foreign, request: Header, now: int): (sessionId: Bytes)
    ensures HeaderGet(request, SessionHeader) == [] ==> sessionId == []
    ensures HeaderGet(request, SessionHeader) != [] ==> sessionId == UnpackHeader(s, f, HeaderGet(request, SessionHeader), now)
    ensures Semicolon !in sessionId
  {
    var raw := HeaderGet(request, SessionHeader);
    if raw == [] then [] else UnpackHeader(s, f, raw, now)
  }

  /** What one request does to the store and the response. When the handler has
      removed the session entry the type assertion panics: no token is added and
      the store is not cleared. */
  datatype Served = Served(completed: bool, after: Exchange)

  function Serve(s: Session, f: Foreign, request: Header, before: Exchange, next: Handler,
                 clockIn: int, clockOut: int, entropy: Bytes): (r: Served)
    ensures var seen := next(before.(values := before.values[ContextKey := Inbound(s, f, request, clockIn)]));
      && r.completed == (ContextKey in seen.values)
      && (r.completed ==>
            r.after == Exchange(map[], HeaderAdd(seen.header, SessionHeader,
                                                 PackHeader(s, f, seen.values[ContextKey], clockOut, entropy))))
      && (!r.completed ==> r.after == seen)
  {
    var seen := next(before.(values := before.values[ContextKey := Inbound(s, f, request, clockIn)]));
    if ContextKey !in seen.values then Served(false, seen)
    else
      var token := PackHeader(s, f, seen.values[ContextKey], clockOut, entropy);
      Served(true, Exchange(map[], HeaderAdd(seen.header, SessionHeader, token)))
  }

  /** ServeHTTP: publish the inbound id, run next, add the packed id to the
      response, clear the store. */
  method ServeHTTP(s: Session, f: Foreign, w: ResponseWriter, request: Header, ctx: RequestContext,
                   next: Handler, clockIn: int, clockOut: int, entropy: Bytes) returns (completed: bool)
    modifies w, ctx
    ensures var r := Serve(s, f, request, Exchange(old(ctx.values), old(w.header)), next, clockIn, clockOut, entropy);
      completed == r.completed && ctx.values == r.after.values && w.header == r.after.header
  {
    var raw := HeaderGet(request, SessionHeader);
    if raw == [] {
      ctx.Set(ContextKey, []);
    } else {
      ctx.Set(ContextKey, UnpackHeader(s, f, raw, clockIn));
    }

    var seen := next(Exchange(ctx.values, w.header));
    ctx.values, w.header := seen.values, seen.header;

    var current := ctx.Get(ContextKey);
    if current.None? {
      completed := false;
      return;
    }
    w.AddHeader(SessionHeader, PackHeader(s, f, current.value, clockOut, entropy));
    ctx.Clear();
    completed := true;
  }

  // ---------------------------------------------------------------------------
  // Properties

  /** A handler that sets the session id, as an application's login handler does. */
  function SetSession(sessionId: Bytes): Handler
  {
    (e: Exchange) => e.(values := e.values[ContextKey := sessionId])
  }

  /** A handler that reads the store and changes nothing. */
  function Passive(): Handler
  {
    (e: Exchange) => e
  }

  /** The handler sees the published id, and a request that keeps it gets back
      the token of that id as the last Session value of its response. */
  lemma HandlerSeesInbound(s: Session, f: Foreign, request: Header, before: Exchange,
                           clockIn: int, clockOut: int, entropy: Bytes)
    ensures var r := Serve(s, f, request, before, Passive(), clockIn, clockOut, entropy);
      && r.completed && r.after.values == map[]
      && var values := r.after.header[SessionHeader];
         values[|values| - 1] == PackHeader(s, f, Inbound(s, f, request, clockIn), clockOut, entropy)
  {
  }

  /** A request without a Session header publishes the empty id, and packing
      it back adds an empty Session value. */
  lemma NoHeaderNoSession(s: Session, f: Foreign, before: Exchange, clockIn: int, clockOut: int, entropy: Bytes)
    ensures var r := Serve(s, f, map[], before, Passive(), clockIn, clockOut, entropy);
      r.completed && r.after.header[SessionHeader] == (if SessionHeader in before.header then before.header[SessionHeader] else []) + [[]]
  {
  }

  /** Two requests: the first carries no token and its handler sets the id; its
      response header, sent back as the next request's header before the expiry,
      makes the next handler see that id. */
  lemma SessionCarriesAcrossRequests(opt: Options, f: Foreign, sessionId: Bytes,
                                     clockIn: int, clockOut: int, entropy: Bytes, later: int)
    requires Lawful(f)
    requires NewSession(Some(opt)).Some?
    requires sessionId != [] && Semicolon !in sessionId
    requires NonceSize <= |entropy|
    requires later < Expire(clockOut, opt.maxAge)
    ensures var s := NewSession(Some(opt)).value;
      var first := Serve(s, f, map[], Exchange(map[], map[]), SetSession(sessionId), clockIn, clockOut, entropy);
      && first.completed
      && Inbound(s, f, first.after.header, later) == sessionId
  {
  }
}
