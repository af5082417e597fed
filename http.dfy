/**
 * The part of Go's `net/http` that the middleware touches: the request's header and
 * context, and a response writer whose header map, status line and body are written
 * step by step.
 *
 * The wrapped handler is not modelled beyond its invocation: a call `h(w, r, ps)` is
 * recorded by appending `r` to the writer's `handled` log.
 */
module Http {
  import opened Wrappers
  import JwtGo

  /** A context key of a named string type, like `middleware.ContextKey`. */
  datatype ContextKey = ContextKey(name: string)

  /** A request as the middleware sees it: its header and the values in its context. */
  datatype Request = Request(header: map<string, string>, context: map<ContextKey, JwtGo.Claims>)
  {
    /** `r.Header.Get(key)`: the value, or "" when the header is absent. */
    function Get(key: string): string
    {
      if key in header then header[key] else ""
    }

    /** `r.WithContext(context.WithValue(r.Context(), key, value))`. */
    function WithValue(key: ContextKey, value: JwtGo.Claims): Request
    {
      this.(context := context[key := value])
    }
  }

  const StatusOK: int := 200
  const StatusUnauthorized: int := 401
  const StatusInternalServerError: int := 500

  /** `http.StatusText` for the codes the middleware writes itself. */
  function StatusText(code: int): string
  {
    if code == StatusOK then "OK"
    else if code == StatusUnauthorized then "Unauthorized"
    else if code == StatusInternalServerError then "Internal Server Error"
    else ""
  }

  /** What a response writer has been told so far, and which requests reached the wrapped handler. */
  datatype Response = Response(header: map<string, string>, status: Option<int>, body: string, handled: seq<Request>)
  {
    /** `w.Header().Set(key, value)`. */
    function Set(key: string, value: string): Response
    {
      this.(header := header[key := value])
    }

    /** `w.WriteHeader(code)`: only the first status written takes effect. */
    function WriteHeader(code: int): Response
    {
      if status.None? then this.(status := Some(code)) else this
    }

    /** `w.Write(data)`: writes status 200 first if no status was written yet. */
    function Write(data: string): Response
    {
      var w := WriteHeader(StatusOK);
      w.(body := w.body + data)
    }

    /** `http.Error(w, message, code)`: a plain-text error with the message on one line. */
    function Error(message: string, code: int): Response
    {
      Set("Content-Type", "text/plain; charset=utf-8").Set("X-Content-Type-Options", "nosniff")
        .WriteHeader(code).Write(message + "\n")
    }

    /** The wrapped handler is invoked with `r`. */
    function Serve(r: Request): Response
    {
      this.(handled := handled + [r])
    }
  }

  /** The 401 every authentication failure writes: status 401 when none was written, the status
      text as body, and no call of the wrapped handler. */
  lemma UnauthorizedResponse(w: Response)
    requires w.status.None?
    ensures var r := w.Error(StatusText(StatusUnauthorized), StatusUnauthorized);
      && r.status == Some(401)
      && r.body == w.body + "Unauthorized\n"
      && r.header == w.header["Content-Type" := "text/plain; charset=utf-8"]["X-Content-Type-Options" := "nosniff"]
      && r.handled == w.handled
  {
  }

  /** `http.ResponseWriter`: the fields are updated in place by its methods. */
  class ResponseWriter {
    var header: map<string, string>
    var status: Option<int>
    var body: string
    var handled: seq<Request>

    function State(): Response
      reads this
    {
      Response(header, status, body, handled)
    }

    constructor ()
      ensures State() == Response(map[], None, "", [])
    {
      header, status, body, handled := map[], None, "", [];
    }

    method Set(key: string, value: string)
      modifies this
      ensures State() == old(State()).Set(key, value)
    {
      header := header[key := value];
    }

    method WriteHeader(code: int)
      modifies this
      ensures State() == old(State()).WriteHeader(code)
    {
      if status.None? {
        status := Some(code);
      }
    }

    method Write(data: string)
      modifies this
      ensures State() == old(State()).Write(data)
    {
      WriteHeader(StatusOK);
      body := body + data;
    }

    /** `http.Error(w, message, code)`. */
    method Error(message: string, code: int)
      modifies this
      ensures State() == old(State()).Error(message, code)
    {
      Set("Content-Type", "text/plain; charset=utf-8");
      Set("X-Content-Type-Options", "nosniff");
      WriteHeader(code);
      Write(message + "\n");
    }

    /** `h(w, r, ps)`: the wrapped handler runs on `r`. */
    method Serve(r: Request)
      modifies this
      ensures State() == old(State()).Serve(r)
    {
      handled := handled + [r];
    }
  }
}
