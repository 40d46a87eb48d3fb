/** Properties of the whole handler: what is answered with which status, which
    storage calls a request can cause, and which branches can never be taken. */
module Properties {
  import opened Common
  import opened Strings
  import opened Libraries
  import opened Storage
  import opened Requests
  import opened Address
  import opened Envelope
  import opened Negotiation
  import opened Listings
  import opened Handler

  /** The envelope verdict for a request, on its decoded hostname. */
  function Verdict(libs: Libs, req: Request): Option<Rejection> {
    Check(req.protocol, req.verb, MainHostname(libs, req.hostname), req.pathname)
  }

  /** The resolution of a request, on its decoded hostname. */
  function Resolve(libs: Libs, req: Request): Result<Resolved> {
    FormatReq(libs, MainHostname(libs, req.hostname), req.pathname)
  }

  /** A PUT that reaches its 200: multipart, a parsable x-opt (or none), a body
      that parsed, and every write accepted. */
  predicate PutSucceeds(libs: Libs, store: Store, req: Request, q: Query) {
    && HeaderHas(req.contentType, "multipart/form-data")
    && !(Truthy(req.xOpt) && libs.jsonError(req.xOpt.value).Some?)
    && req.form.error == None
    && FirstWriteFailure(store, SavePaths(QueryText(q), req.form.files), Timeout(libs, req.xTimer)) == None
  }

  /** Hex decoding is transparent: a request whose hostname is `hex` followed by
      an encoding is handled exactly as the same request naming the decoded
      hostname directly, provided that hostname is not itself hex-marked. */
  lemma HexHostTransparent(libs: Libs, store: Store, req: Request)
    requires StartsWith(req.hostname, EncodeType)
    requires !StartsWith(libs.hexDecode(req.hostname[|EncodeType|..]), EncodeType)
    ensures Handle(libs, store, req) ==
      Handle(libs, store, req.(hostname := libs.hexDecode(req.hostname[|EncodeType|..])))
  {
  }

  /** The status of every request as a decision table over what the request and
      the engine say, ordered by outcome rather than by the handler's nesting. */
  function ExpectedStatus(libs: Libs, store: Store, req: Request): int {
    if Verdict(libs, req).Some? then 409
    else if Resolve(libs, req).Err? then 500
    else
      var q := Resolve(libs, req).value.query;
      var t := Timeout(libs, req.xTimer);
      if req.verb == "PUT" then (if PutSucceeds(libs, store, req, q) then 200 else 400)
      else if store.stat(q, t).StatErr? then 400
      else if req.verb == "HEAD" then 200
      else
        var st := store.stat(q, t).stat;
        if st.kind.OtherKind? then 500
        else if req.verb == "GET" then
          if st.kind == Directory then (if store.list(q, t).Ok? then 200 else 500)
          else if Truthy(req.range) then 500
          else 200
        else if store.remove(q, st.kind == Directory, t) == Written then 200
        else 500
  }

  /** The handler answers every request with the status the table gives. */
  lemma StatusTable(libs: Libs, store: Store, req: Request)
    ensures Handle(libs, store, req).response.status == ExpectedStatus(libs, store, req)
  {
    if Verdict(libs, req).None? && Resolve(libs, req).Ok? {
      assert req.verb in SupportedMethods;
    }
  }

  /** Only 200, 400, 409 and 500 ever occur: no partial content and no 416. */
  lemma StatusCodes(libs: Libs, store: Store, req: Request)
    ensures Handle(libs, store, req).response.status in {200, 400, 409, 500}
  {
    StatusTable(libs, store, req);
  }

  /** 409 is given exactly when the envelope check fails, with the note of the
      first failing check and before any storage call. */
  lemma EnvelopeRejection(libs: Libs, store: Store, req: Request)
    ensures Handle(libs, store, req).response.status == 409 <==> Verdict(libs, req).Some?
    ensures Verdict(libs, req).Some? ==>
      Handle(libs, store, req) == Handled(Response(409, NoHeaders, Note(RejectionNote(Verdict(libs, req).value))), [])
  {
    StatusTable(libs, store, req);
  }

  /** A request the resolver throws on ends in 500 without any storage call. */
  lemma ResolutionFailure(libs: Libs, store: Store, req: Request)
    requires Verdict(libs, req).None? && Resolve(libs, req).Err?
    ensures Handle(libs, store, req).response.status == 500
    ensures Handle(libs, store, req).response.body == ErrorStack(Resolve(libs, req).error)
    ensures Handle(libs, store, req).calls == []
  {
  }

  /** Storage is touched only by requests that passed the envelope and resolved. */
  lemma CallsNeedResolution(libs: Libs, store: Store, req: Request)
    requires Handle(libs, store, req).calls != []
    ensures Verdict(libs, req).None? && Resolve(libs, req).Ok?
  {
  }

  /** The 'wrong method' branch after dispatch is dead: the envelope has already
      refused every other method. */
  lemma WrongMethodUnreachable(libs: Libs, store: Store, req: Request)
    ensures Handle(libs, store, req).response.body != Note("wrong method")
  {
    if Verdict(libs, req).None? && Resolve(libs, req).Ok? {
      assert req.verb in SupportedMethods;
    }
  }

  /** Every storage call carries the request's timeout, except the stats made
      after a PUT's writes, which use the default. */
  lemma CallTimeouts(libs: Libs, store: Store, req: Request)
    ensures forall c :: c in Handle(libs, store, req).calls ==>
      c.timeout == Timeout(libs, req.xTimer)
      || (req.verb == "PUT" && c.op == StatOp && c.timeout == DefaultTimeout)
  {
  }

  /** Only a multipart PUT can succeed; any other PUT ends in 400 whatever storage
      does, because `iterFile` fails after a successful write. */
  lemma PutNeedsMultipart(libs: Libs, store: Store, req: Request)
    requires req.verb == "PUT" && Verdict(libs, req).None? && Resolve(libs, req).Ok?
    requires !HeaderHas(req.contentType, "multipart/form-data")
    ensures Handle(libs, store, req).response.status == 400
    ensures Handle(libs, store, req).response.headers.issue.Some?
    ensures !(Truthy(req.xOpt) && libs.jsonError(req.xOpt.value).Some?) ==>
      var q := Resolve(libs, req).value.query;
      var t := Timeout(libs, req.xTimer);
      var h := Handle(libs, store, req);
      && h.calls[0] == Call(WriteOp, q, t)
      && h.response.headers.issue ==
           Some(if store.write(q, t).WriteFailed? then store.write(q, t).error.name else "ReferenceError")
  {
  }

  /** Which responses carry which Content-Type: the shared negotiation for every
      500, the caught 400s of GET, PUT and DELETE, DELETE's 200 and a directory
      listing; the PUT negotiation for a successful PUT; none for the 409s and for
      HEAD's own answers. */
  lemma NegotiatedContentType(libs: Libs, store: Store, req: Request)
    ensures var r := Handle(libs, store, req).response;
      (r.status == 500 || (r.status == 400 && req.verb != "HEAD")
       || (r.status == 200 && (req.verb == "DELETE" || r.body.Listing?))) ==>
        r.headers.contentType == Some(ContentTypeOf(Negotiate(req.accept)))
    ensures var r := Handle(libs, store, req).response;
      req.verb == "PUT" && r.status == 200 ==>
        r.headers.contentType == Some(ContentTypeOf(NegotiatePut(req.accept)))
    ensures var r := Handle(libs, store, req).response;
      (r.status == 409 || (req.verb == "HEAD" && r.status != 500)) ==> r.headers.contentType == None
  {
  }

  /** A GET of a file without a Range header answers 200 with the file's size and
      the decorated mime hint as its type; with no mime hint the type is the
      string 'CID'. */
  lemma GetFileResponse(libs: Libs, store: Store, req: Request)
    requires req.verb == "GET" && Verdict(libs, req).None? && Resolve(libs, req).Ok?
    requires var q := Resolve(libs, req).value.query;
      store.stat(q, Timeout(libs, req.xTimer)).StatOk?
      && store.stat(q, Timeout(libs, req.xTimer)).stat.kind == File
    requires !Truthy(req.range)
    ensures var st := store.stat(Resolve(libs, req).value.query, Timeout(libs, req.xTimer)).stat;
      var r := Handle(libs, store, req).response;
      && r.status == 200
      && r.headers.contentLength == Some(st.size)
      && r.headers.link == Some(CanonicalLink(st.cid))
      && (Resolve(libs, req).value.mimeType == None ==> r.headers.contentType == Some("CID"))
      && (Resolve(libs, req).value.mimeType.Some? && Resolve(libs, req).value.mimeType.value != "" ==>
            r.headers.contentType == Some(GetType(Resolve(libs, req).value.mimeType.value)))
  {
  }

  /** A DELETE removes recursively exactly when the target is a directory. Once
      the target is a file or a directory the removal is always issued, and a
      failed removal ends in 500 with that error, after the removal call. */
  lemma DeleteRecursion(libs: Libs, store: Store, req: Request)
    requires req.verb == "DELETE"
    ensures forall c :: c in Handle(libs, store, req).calls && c.op.RemoveOp? ==>
      var q := Resolve(libs, req).value.query;
      && Resolve(libs, req).Ok?
      && store.stat(q, Timeout(libs, req.xTimer)).StatOk?
      && (c.op.recursive <==> store.stat(q, Timeout(libs, req.xTimer)).stat.kind == Directory)
    ensures Verdict(libs, req).None? && Resolve(libs, req).Ok? ==>
      var q := Resolve(libs, req).value.query;
      var t := Timeout(libs, req.xTimer);
      store.stat(q, t).StatOk? && !store.stat(q, t).stat.kind.OtherKind? ==>
        var recursive := store.stat(q, t).stat.kind == Directory;
        var h := Handle(libs, store, req);
        && h.calls == [Call(StatOp, q, t), Call(RemoveOp(recursive), q, t)]
        && (store.remove(q, recursive, t).WriteFailed? ==>
              h.response.status == 500 && h.response.body == ErrorStack(store.remove(q, recursive, t).error))
  {
    if Verdict(libs, req).None? && Resolve(libs, req).Ok? {
      var f := HandleDelete(store, req, Timeout(libs, req.xTimer), Resolve(libs, req).value.query);
      forall c | c in f.calls && c.op.RemoveOp?
        ensures store.stat(Resolve(libs, req).value.query, Timeout(libs, req.xTimer)).StatOk?
      {
        var i :| 0 <= i < |f.calls| && f.calls[i] == c;
      }
    }
  }
}
