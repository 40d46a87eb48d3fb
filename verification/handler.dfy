/** The request handler passed to `makeFetch`: the envelope checks, `formatReq`,
    one branch per method, and the top-level catch that turns anything thrown into
    a 500. A handled request yields the response and the storage calls it issued. */
module Handler {
  import opened Common
  import opened Strings
  import opened Libraries
  import opened Storage
  import opened Requests
  import opened Address
  import opened Envelope
  import opened Negotiation
  import opened Listings

  /** The response headers the handler can set; None when not set. `issue` is `X-Issue`. */
  datatype Headers = Headers(
    contentType: Option<string>,
    link: Option<string>,
    contentLength: Option<nat>,
    issue: Option<string>)

  const NoHeaders := Headers(None, None, None, None)

  /** The response body, as the data it is rendered from rather than the rendered
      text. `Content` is the byte stream of `app.files.read` on the query. */
  datatype Body =
    | Note(text: string)
    | NoBody
    | ErrorStack(error: Failure)
    | ErrorMessage(error: Failure)
    | Listing(entries: seq<DirEntry>)
    | SavedList(saved: seq<SavedEntry>)
    | Removed(stat: Stat, link: string)
    | Content(query: Query)

  datatype Response = Response(status: int, headers: Headers, body: Body)

  /** A handled request: the response and the storage calls made, in order. */
  datatype Handled = Handled(response: Response, calls: seq<Call>)

  /** How a method branch ends: by returning a response, or by throwing to the
      top-level catch; either way after the calls listed. */
  datatype Flow = Returned(response: Response, calls: seq<Call>) | Threw(error: Failure, calls: seq<Call>)

  /** Thrown by the Range branch, which passes the undeclared `size` to `parseRange`. */
  const SizeUndefined := Failure("ReferenceError", "size is not defined")

  /** Thrown by `iterFile`, which reads the undeclared `i`. */
  const IUndefined := Failure("ReferenceError", "i is not defined")

  /** Thrown when a stat is neither a file nor a directory. */
  const NotDirOrFile := Failure("Error", "not a directory or file")

  /** The 400 response that GET, PUT and DELETE give for an error they catch. */
  function Caught(accept: Option<string>, e: Failure, body: Body): (r: Response)
    ensures r.status == 400 && r.headers.issue == Some(e.name)
    ensures r.headers.contentType == Some(ContentTypeOf(Negotiate(accept)))
  {
    Response(400, Headers(Some(ContentTypeOf(Negotiate(accept))), None, None, Some(e.name)), body)
  }

  /** The HEAD branch: stat the query; 400 with the error's message in `X-Issue` on
      failure, otherwise 200 with the canonical link and the size, whatever the kind. */
  function HandleHead(store: Store, timeout: int, q: Query): (f: Flow)
    ensures f.Returned? && f.calls == [Call(StatOp, q, timeout)]
    ensures f.response.body == NoBody
    ensures f.response.headers.contentType == None
    ensures store.stat(q, timeout).StatErr? ==>
      f.response.status == 400
      && f.response.headers == Headers(None, None, None, Some(store.stat(q, timeout).error.message))
    ensures store.stat(q, timeout).StatOk? ==>
      var st := store.stat(q, timeout).stat;
      f.response.status == 200
      && f.response.headers == Headers(None, Some(CanonicalLink(st.cid)), Some(st.size), None)
  {
    var calls := [Call(StatOp, q, timeout)];
    match store.stat(q, timeout)
    case StatErr(e) => Returned(Response(400, Headers(None, None, None, Some(e.message)), NoBody), calls)
    case StatOk(st) =>
      Returned(Response(200, Headers(None, Some(CanonicalLink(st.cid)), Some(st.size), None), NoBody), calls)
  }

  /** The GET branch. */
  function HandleGet(store: Store, req: Request, timeout: int, res: Resolved): (f: Flow)
    ensures |f.calls| >= 1 && f.calls[0] == Call(StatOp, res.query, timeout)
    ensures forall c :: c in f.calls ==> c.timeout == timeout && c.query == res.query
    ensures store.stat(res.query, timeout).StatErr? ==>
      f == Returned(Caught(req.accept, store.stat(res.query, timeout).error,
                           ErrorStack(store.stat(res.query, timeout).error)),
                    [Call(StatOp, res.query, timeout)])
    ensures store.stat(res.query, timeout).StatOk? ==>
      var st := store.stat(res.query, timeout).stat;
      && (st.kind == Directory && store.list(res.query, timeout).Ok? ==>
            && f.Returned?
            && f.response.status == 200
            && f.response.headers == Headers(Some(ContentTypeOf(Negotiate(req.accept))),
                                             Some(CanonicalLink(st.cid)), Some(st.size), None)
            && f.response.body == Listing(DirIter(store.list(res.query, timeout).value))
            && f.calls == [Call(StatOp, res.query, timeout), Call(ListOp, res.query, timeout)])
      && (st.kind == Directory && store.list(res.query, timeout).Err? ==>
            f == Threw(store.list(res.query, timeout).error,
                       [Call(StatOp, res.query, timeout), Call(ListOp, res.query, timeout)]))
      && (st.kind == File && !Truthy(req.range) ==>
            && f.Returned?
            && f.response.status == 200
            && f.response.headers == Headers(Some(FileType(res.mimeType)),
                                             Some(CanonicalLink(st.cid)), Some(st.size), None)
            && f.response.body == Content(res.query)
            && f.calls == [Call(StatOp, res.query, timeout), Call(ReadOp, res.query, timeout)])
      && (st.kind == File && Truthy(req.range) ==> f == Threw(SizeUndefined, [Call(StatOp, res.query, timeout)]))
      && (st.kind.OtherKind? ==> f == Threw(NotDirOrFile, [Call(StatOp, res.query, timeout)]))
  {
    var q := res.query;
    var calls := [Call(StatOp, q, timeout)];
    match store.stat(q, timeout)
    case StatErr(e) => Returned(Caught(req.accept, e, ErrorStack(e)), calls)
    case StatOk(st) =>
      match st.kind
      case Directory =>
        var rep := Negotiate(req.accept);
        var listed := calls + [Call(ListOp, q, timeout)];
        (match store.list(q, timeout)
         case Err(e) => Threw(e, listed)
         case Ok(items) =>
           Returned(Response(200, Headers(Some(ContentTypeOf(rep)), Some(CanonicalLink(st.cid)), Some(st.size), None),
                             Listing(DirIter(items))), listed))
      case File =>
        if Truthy(req.range) then Threw(SizeUndefined, calls)
        else
          Returned(Response(200, Headers(Some(FileType(res.mimeType)), Some(CanonicalLink(st.cid)), Some(st.size), None),
                            Content(q)), calls + [Call(ReadOp, q, timeout)])
      case OtherKind(_) => Threw(NotDirOrFile, calls)
  }

  /** The PUT branch. A malformed x-opt header fails before any call. A multipart
      body writes target + name for each file event, then reports every saved path;
      any other body is written whole and then always fails in `iterFile`. */
  function HandlePut(libs: Libs, store: Store, req: Request, timeout: int, q: Query): (f: Flow)
    ensures f.Returned?
    ensures forall c :: c in f.calls ==>
      (c.op == WriteOp && c.timeout == timeout) || (c.op == StatOp && c.timeout == DefaultTimeout)
    ensures f.response.status in {200, 400}
    ensures f.response.status == 200 <==>
      && HeaderHas(req.contentType, "multipart/form-data")
      && !(Truthy(req.xOpt) && libs.jsonError(req.xOpt.value).Some?)
      && req.form.error == None
      && FirstWriteFailure(store, SavePaths(QueryText(q), req.form.files), timeout) == None
    ensures f.response.status == 200 ==>
      var paths := SavePaths(QueryText(q), req.form.files);
      && f.response.headers == Headers(Some(ContentTypeOf(NegotiatePut(req.accept))), None, None, None)
      && f.response.body == SavedList(IterFiles(store, paths))
      && f.calls == WriteCalls(paths, timeout) + IterFilesCalls(paths)
    ensures f.response.status == 400 ==>
      f.response.headers.issue.Some? && f.response.body.ErrorMessage?
      && f.response.headers.contentType == Some(ContentTypeOf(Negotiate(req.accept)))
      && f.response.headers.issue == Some(f.response.body.error.name)
      && f.response.headers.link == None && f.response.headers.contentLength == None
    // A malformed x-opt fails while the options are built, before any call.
    ensures Truthy(req.xOpt) && libs.jsonError(req.xOpt.value).Some? ==>
      && f.calls == []
      && f.response.body == ErrorMessage(libs.jsonError(req.xOpt.value).value)
    // Any other body is written whole; `iterFile` then stats it and fails on `i`.
    ensures !(Truthy(req.xOpt) && libs.jsonError(req.xOpt.value).Some?)
            && !HeaderHas(req.contentType, "multipart/form-data") ==>
      && |f.calls| >= 1 && f.calls[0] == Call(WriteOp, q, timeout)
      && f.response.status == 400
      && (store.write(q, timeout).WriteFailed? ==>
            && f.calls == [Call(WriteOp, q, timeout)]
            && f.response.body == ErrorMessage(store.write(q, timeout).error))
      && (store.write(q, timeout).Written? ==>
            && f.calls == [Call(WriteOp, q, timeout), Call(StatOp, q, DefaultTimeout)]
            && f.response.body == ErrorMessage(IUndefined))
    // A failing multipart upload has issued every write and reports the parse
    // error, or else the first write failure.
    ensures !(Truthy(req.xOpt) && libs.jsonError(req.xOpt.value).Some?)
            && HeaderHas(req.contentType, "multipart/form-data") && f.response.status == 400 ==>
      var paths := SavePaths(QueryText(q), req.form.files);
      && f.calls == WriteCalls(paths, timeout)
      && (req.form.error.Some? ==> f.response.body == ErrorMessage(req.form.error.value))
      && (req.form.error.None? ==>
            && FirstWriteFailure(store, paths, timeout).Some?
            && f.response.body == ErrorMessage(FirstWriteFailure(store, paths, timeout).value))
  {
    var multipart := HeaderHas(req.contentType, "multipart/form-data");
    if Truthy(req.xOpt) && libs.jsonError(req.xOpt.value).Some? then
      var e := libs.jsonError(req.xOpt.value).value;
      Returned(Caught(req.accept, e, ErrorMessage(e)), [])
    else if multipart then
      var paths := SavePaths(QueryText(q), req.form.files);
      var writes := WriteCalls(paths, timeout);
      assert forall c :: c in writes ==> c.op == WriteOp && c.timeout == timeout;
      assert forall c :: c in IterFilesCalls(paths) ==> c.op == StatOp && c.timeout == DefaultTimeout;
      if req.form.error.Some? then
        Returned(Caught(req.accept, req.form.error.value, ErrorMessage(req.form.error.value)), writes)
      else
        match FirstWriteFailure(store, paths, timeout)
        case Some(e) => Returned(Caught(req.accept, e, ErrorMessage(e)), writes)
        case None =>
          Returned(Response(200, Headers(Some(ContentTypeOf(NegotiatePut(req.accept))), None, None, None),
                            SavedList(IterFiles(store, paths))),
                   writes + IterFilesCalls(paths))
    else
      var written := [Call(WriteOp, q, timeout)];
      match store.write(q, timeout)
      case WriteFailed(e) => Returned(Caught(req.accept, e, ErrorMessage(e)), written)
      case Written =>
        Returned(Caught(req.accept, IUndefined, ErrorMessage(IUndefined)),
                 written + [Call(StatOp, q, DefaultTimeout)])
  }

  /** The DELETE branch: stat, then remove (recursively exactly for a directory),
      then report the stat with its link. */
  function HandleDelete(store: Store, req: Request, timeout: int, q: Query): (f: Flow)
    ensures |f.calls| >= 1 && f.calls[0] == Call(StatOp, q, timeout)
    ensures forall c :: c in f.calls ==> c.timeout == timeout && c.query == q
    ensures store.stat(q, timeout).StatErr? ==>
      f == Returned(Caught(req.accept, store.stat(q, timeout).error, ErrorMessage(store.stat(q, timeout).error)),
                    [Call(StatOp, q, timeout)])
    ensures forall i :: 0 <= i < |f.calls| && f.calls[i].op.RemoveOp? ==>
      && store.stat(q, timeout).StatOk?
      && (f.calls[i].op.recursive <==> store.stat(q, timeout).stat.kind == Directory)
    ensures store.stat(q, timeout).StatOk? && store.stat(q, timeout).stat.kind.OtherKind? ==>
      f == Threw(NotDirOrFile, [Call(StatOp, q, timeout)])
    // A file or a directory is always removed; a failed removal is thrown, outside
    // the branch's own catch.
    ensures store.stat(q, timeout).StatOk? && !store.stat(q, timeout).stat.kind.OtherKind? ==>
      var recursive := store.stat(q, timeout).stat.kind == Directory;
      && f.calls == [Call(StatOp, q, timeout), Call(RemoveOp(recursive), q, timeout)]
      && (store.remove(q, recursive, timeout).WriteFailed? ==>
            f == Threw(store.remove(q, recursive, timeout).error, f.calls))
      && (store.remove(q, recursive, timeout).Written? ==> f.Returned? && f.response.status == 200)
    ensures f.Returned? && f.response.status == 200 ==>
      var st := store.stat(q, timeout).stat;
      && store.stat(q, timeout).StatOk?
      && f.calls == [Call(StatOp, q, timeout), Call(RemoveOp(st.kind == Directory), q, timeout)]
      && f.response.body == Removed(st, Link(st.cid))
      && f.response.headers == Headers(Some(ContentTypeOf(Negotiate(req.accept))), None, None, None)
  {
    var calls := [Call(StatOp, q, timeout)];
    match store.stat(q, timeout)
    case StatErr(e) => Returned(Caught(req.accept, e, ErrorMessage(e)), calls)
    case StatOk(st) =>
      if st.kind.OtherKind? then Threw(NotDirOrFile, calls)
      else
        var recursive := st.kind == Directory;
        var removed := calls + [Call(RemoveOp(recursive), q, timeout)];
        match store.remove(q, recursive, timeout)
        case WriteFailed(e) => Threw(e, removed)
        case Written =>
          Returned(Response(200, Headers(Some(ContentTypeOf(Negotiate(req.accept))), None, None, None),
                            Removed(st, Link(st.cid))), removed)
  }

  /** The method dispatch after `formatReq`, including its last branch for any
      other method. */
  function Dispatch(libs: Libs, store: Store, req: Request, res: Resolved): Flow
  {
    var timeout := Timeout(libs, req.xTimer);
    if req.verb == "HEAD" then HandleHead(store, timeout, res.query)
    else if req.verb == "GET" then HandleGet(store, req, timeout, res)
    else if req.verb == "PUT" then HandlePut(libs, store, req, timeout, res.query)
    else if req.verb == "DELETE" then HandleDelete(store, req, timeout, res.query)
    else Returned(Response(400, NoHeaders, Note("wrong method")), [])
  }

  /** The top-level catch: a thrown error becomes a 500 with the error's stack,
      negotiated like other errors and without `X-Issue`. */
  function Catch(accept: Option<string>, f: Flow): (h: Handled)
    ensures h.calls == f.calls
    ensures f.Returned? ==> h.response == f.response
    ensures f.Threw? ==>
      h.response == Response(500, Headers(Some(ContentTypeOf(Negotiate(accept))), None, None, None), ErrorStack(f.error))
  {
    match f
    case Returned(r, calls) => Handled(r, calls)
    case Threw(e, calls) =>
      Handled(Response(500, Headers(Some(ContentTypeOf(Negotiate(accept))), None, None, None), ErrorStack(e)), calls)
  }

  /** The whole handler. */
  function Handle(libs: Libs, store: Store, req: Request): Handled
  {
    var host := MainHostname(libs, req.hostname);
    match Check(req.protocol, req.verb, host, req.pathname)
    case Some(rejection) => Handled(Response(409, NoHeaders, Note(RejectionNote(rejection))), [])
    case None =>
      var flow := match FormatReq(libs, host, req.pathname)
        case Err(e) => Threw(e, [])
        case Ok(res) => Dispatch(libs, store, req, res);
      Catch(req.accept, flow)
  }
}
