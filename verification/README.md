# ipfs-fetch request handler, modelled in Dafny

This project models the request-resolution and response-assembly layer of
`makeIPFSFetch` (index.js), the function that exposes an IPFS node through a
`fetch`-style interface for `ipfs://` URLs. The model covers:

- the envelope checks that answer 409 before any storage call (protocol `ipfs:`,
  method one of GET/HEAD/PUT/DELETE, hostname rules), after the optional
  `hex` decoding of the hostname;
- `formatReq`, which turns the hostname and pathname into either a parsed CID or
  a path in the node's mutable file system, plus a mime hint;
- `getType`, the timeout taken from `x-timer`, and the two Accept-header
  negotiations the handler uses;
- the HEAD, GET, PUT and DELETE branches, each as a pure function of the request
  and of the storage engine's answers, returning the response together with the
  ordered log of storage calls it made;
- the top-level catch that turns anything thrown into a 500;
- the order-preserving lists `dirIter`, the `savePath` list and `iterFiles`.

The storage engine's `app.files.stat`, `ls`, `write` and `rm` are the fields of a
`Store`: functions from the query, the timeout and, for `rm`, the recursive
flag, to outcomes. `app.files.read` is not a
field: it appears only as a `ReadOp` entry in the call log and as the
`Content(query)` body. The libraries the handler calls
(`CID.parse`, `mime.getType`, `decodeURIComponent`, hex `Buffer` decoding,
`Number`, `JSON.parse`) are the fields of a `Libs` value. The multipart tokenizer
is represented by what it reports for a body: the file names of its `file`
events, in order, and the error that ended parsing, if any.

Modules, leaf first: `Common` (Option, Failure, Result), `Strings` (the
JavaScript string operations), `Libraries`, `Storage`, `Requests`, `Address`,
`Envelope`, `Negotiation`, `Listings`, `Handler`, `Properties`.

## Behaviour of index.js worth knowing

- The methods are GET, HEAD, PUT and DELETE. There is no POST, and HEAD has no
  copy or pin handling.
- No 206 and no 416 is ever produced. The Range branch of GET calls
  `parseRange(size, isRanged)` on two undeclared names, so it throws a
  ReferenceError and the top-level catch answers 500
  (`Properties.StatusCodes`, `Handler.HandleGet`).
- The shared negotiation picks HTML only when Accept mentions both `text/html`
  and `application/json`, and plain text otherwise; its JSON branch is dead. It
  sets the Content-Type of the directory 200 of GET, the 200 of DELETE, the
  400s of GET, PUT and DELETE, and the 500. A successful PUT negotiates
  differently (`Negotiation.NegotiationVariants`). A GET of a file carries its
  decorated mime hint, or `CID`. HEAD's own responses and the 409s carry no
  Content-Type (`Properties.NegotiatedContentType`).
- A PUT whose body is not multipart always ends in 400. The body is written
  first; if that write succeeds, `iterFile` stats the target and then reads the
  undeclared `i`, and the PUT's own catch turns the ReferenceError into a 400
  (`Properties.PutNeedsMultipart`).
- Uploaded parts are written concurrently: every write is started as its `file`
  event arrives, and `Promise.all` waits for all of them. The reported list is in
  event order.
- DELETE passes `recursive` only for directories. Its removal is outside the
  branch's own catch, so a failed removal ends in 500.
- HEAD puts the error's `message` in `X-Issue`. GET, PUT and DELETE put the error's
  `name` there. The 500 response has no `X-Issue`.
- A dotted hostname whose first label is not a CID does not fall back to a path.
  The parse error is rethrown and becomes a 500.
- The hostname `_` is refused when the pathname has more than one non-empty
  segment.

## Model

| member | source | states |
|---|---|---|
| Strings.ContainsIffOccurs | index.js:26 | `includes` as modelled holds exactly when the substring occurs at some position |
| Strings.Split | index.js:28 | `split` on one character gives at least one piece, and no piece contains the separator |
| Strings.SplitCount | index.js:28-30 | there is one more piece than there are separators, so a dotted hostname has a second label |
| Strings.JoinSplit | index.js:41 | joining the pieces of a split gives back the original string |
| Strings.SplitJoin | index.js:44-46 | splitting a join of separator-free pieces gives back the pieces |
| Strings.NonEmpty | index.js:41 | `filter(Boolean)` keeps only non-empty strings, each taken from the input |
| Strings.NonEmptyAppend | index.js:41 | filtering distributes over concatenation, so the order of segments is kept |
| Strings.Segments | index.js:41 | the non-empty path segments contain neither `/` nor the empty string |
| Storage.Link | index.js:78 | a link is `ipfs://` followed by the identifier, and the identifier can be read back from it |
| Storage.CanonicalLink | index.js:204 | the Link header is the link in angle brackets followed by `; rel="canonical"`, and the link can be cut back out |
| Storage.LinkInjective | index.js:78 | distinct identifiers give distinct links |
| Requests.Timeout | index.js:200 | the timeout is x-timer × 1000 when the header is present, non-empty and not "0", else 30000 (index.js:14); for integer x-timer values it is a whole number of seconds |
| Address.MainHostname | index.js:185 | only a hostname starting with `hex` can change, and it becomes the hex-decoding of the rest; the empty hostname stays empty; its effect on the whole handler is `Properties.HexHostTransparent` |
| Address.DotLabels | index.js:28-30 | a hostname with a dot has at least two dot-free labels |
| Address.DecodeAll | index.js:41 | decoding the segments fails exactly when some segment fails; otherwise the result is one decoded segment per segment, in order |
| Address.FallbackPath | index.js:40-48 | the fallback query begins with `/` + hostname |
| Address.FallbackSegments | index.js:40-48 | when no decoded segment contains `/`, the fallback query's non-empty segments are the hostname followed by the decoded segments |
| Address.FallbackTrailingSlash | index.js:42-47 | when no decoded segment contains `/`, the fallback query ends in `/` exactly when there is a last segment and it contains no `.` |
| Address.FormatReq | index.js:19-54 | `_` gives the raw pathname; resolution throws exactly when a dotted hostname's first label is not a CID, or when a fallback segment fails to decode; a path query from any other hostname begins with `/` + hostname; a dotted hostname rethrows the `CID.parse` error of its first label and the fallback throws URIError; outside the dotted form the mime hint comes from the pathname |
| Address.CidHostIgnoresPath | index.js:35-37 | a dot-free CID hostname resolves to that CID whatever the pathname, with the mime hint from the pathname |
| Address.DottedHostUsesFirstTwoLabels | index.js:26-33 | a dotted hostname's result depends only on its first two labels: the CID from the first, the mime hint from the second |
| Address.FallbackQuery | index.js:38-49 | a dot-free non-CID hostname whose decoded segments contain no `/` yields a path whose segments are the hostname plus the decoded segments, with a trailing `/` exactly when the last segment has no dot |
| Address.FallbackIgnoresEmptySegments | index.js:41 | pathnames with the same non-empty segments give the same fallback query |
| Envelope.Check | index.js:187-193 | the checks run in order (protocol, then method, then hostname) and the request proceeds exactly when all three pass |
| Envelope.HostRejectedCases | index.js:191 | a hostname is refused exactly when it is empty, is a single character other than `_`, or is `_` with more than one non-empty segment |
| Negotiation.Negotiate | index.js:210-216 | the shared negotiation (the directory 200 of GET, the 200 of DELETE, the 400s of GET, PUT and DELETE, and the 500) is HTML exactly when Accept mentions both HTML and JSON, plain text otherwise, and never JSON |
| Negotiation.NegotiatePut | index.js:271-283 | a successful PUT is plain text when Accept mentions neither type, HTML whenever it mentions HTML, and JSON when it mentions only JSON |
| Negotiation.NegotiationVariants | index.js:263-283 | the two negotiations agree exactly when Accept mentions both types or neither; otherwise the shared one is plain text |
| Negotiation.GetType | index.js:62-65 | `getType` adds the charset parameter exactly to `text/` types, keeps the type as a prefix, and keeps its family |
| Negotiation.StripGetType | index.js:62-65 | removing one charset parameter undoes `getType`, for any type that does not already end with that parameter |
| Negotiation.FileType | index.js:247 | a file's Content-Type is `CID` when the mime hint is missing or empty, and otherwise `getType` of the hint |
| Listings.DirIter | index.js:74-82 | `dirIter` keeps every item in listing order and sets its link to `ipfs://` + cid |
| Listings.DirIterAppend | index.js:76-80 | listing in two parts gives the listing of the whole |
| Listings.SavePaths | index.js:103-105 | save path i is the target followed directly by file name i, in event order |
| Listings.SavePathsNames | index.js:104 | each file name can be cut back out of its save path |
| Listings.IterFiles | index.js:126-143 | `iterFiles` gives one entry per path, in order; an entry holds only the file exactly when its stat failed, and otherwise holds the stat and its link |
| Listings.IterFilesCalls | index.js:128-130 | `iterFiles` makes one stat per path, in order, with the default timeout |
| Listings.WriteCalls | index.js:103-106 | one write per file event, in event order, with the request's timeout |
| Listings.FirstWriteFailure | index.js:122 | the writes' combined outcome fails exactly when some write fails, and the error is that of the first failing write |
| Handler.Caught | index.js:262-269 | a caught error gives 400 with the error's name in `X-Issue` and the shared negotiation's Content-Type |
| Handler.HandleHead | index.js:197-204 | HEAD makes one stat; on failure it answers 400 with the error message in `X-Issue`, otherwise 200 with the canonical link and size, whatever the kind; neither response carries a Content-Type, and the 200 carries no `X-Issue` |
| Handler.HandleGet | index.js:205-251 | GET stats first: failure gives 400 with `X-Issue`; a directory gives 200 with the shared negotiation's Content-Type, its canonical link, size and listing (a failed listing throws); a file without Range gives 200 with size, canonical link, type and its content; a file with Range and any other kind throw; a directory 200 makes exactly a stat then a listing, a file 200 exactly a stat then a read, and neither carries `X-Issue`; every call uses the request's timeout |
| Handler.HandlePut | index.js:252-284 | PUT answers 200 exactly for a multipart body with parsable x-opt, no parse error and all writes accepted, reporting each saved path after writes then stats; everything else is 400 with the caught error's name in `X-Issue`: a malformed x-opt's before any call; for any other body, the whole-body write's error, or after that write and a stat the ReferenceError; for a multipart body, after all its writes, the parse error or else the first write failure; a 400 carries no `Link` or `Content-Length` |
| Handler.HandleDelete | index.js:285-317 | DELETE stats first: failure gives 400; other kinds throw; a file or directory is always removed, recursively exactly for a directory; a failed removal throws after the removal call; success reports the stat with its link |
| Handler.Catch | index.js:321-328 | a thrown error becomes a 500 with the shared negotiation's Content-Type and the error's stack, keeping the calls made |
| Properties.HexHostTransparent | index.js:185 | a `hex`-marked hostname is handled exactly as the request naming its decoding directly, when that decoding is not itself `hex`-marked |
| Properties.StatusTable | index.js:179-330 | every request's status equals the flat decision table over envelope, resolution, method and storage outcomes |
| Properties.StatusCodes | index.js:179-330 | only 200, 400, 409 and 500 are ever answered |
| Properties.EnvelopeRejection | index.js:187-193 | 409 is answered exactly when an envelope check fails, with that check's note and no storage call |
| Properties.ResolutionFailure | index.js:321-328 | a request whose resolution throws gets 500 with that error and no storage call |
| Properties.CallsNeedResolution | index.js:187-195 | any storage call implies the envelope passed and resolution succeeded |
| Properties.WrongMethodUnreachable | index.js:318-320 | the `wrong method` response is never produced |
| Properties.CallTimeouts | index.js:198-303 | every storage call carries the request's timeout, except the stats after a PUT's writes, which carry the default |
| Properties.PutNeedsMultipart | index.js:145-160 | a PUT without a multipart body always ends in 400, whatever storage does; with a parsable x-opt it writes the body first, and `X-Issue` is the write's error name or else `ReferenceError` |
| Properties.NegotiatedContentType | index.js:179-330 | every 500, every 400 of GET, PUT and DELETE, DELETE's 200 and a directory listing carry the shared negotiation's Content-Type; a successful PUT carries the PUT negotiation's; the 409s and HEAD's 200 and 400 carry none |
| Properties.GetFileResponse | index.js:246-248 | a GET of a file without Range answers 200 with its size and canonical link, with Content-Type `getType` of a non-empty mime hint, and `CID` when there is no hint |
| Properties.DeleteRecursion | index.js:300-306 | a DELETE removes recursively exactly when the stat said directory; a file or directory is always removed, and a failed removal ends in 500 with that error |

## Left out

- IPFS node creation and `fetch.close` (index.js:13, 332): the node is the `Store` parameter.
- URL parsing (index.js:184): the request arrives already split into protocol, hostname and pathname. A URL that fails to parse, which would end in 500, is not modelled.
- The libraries `CID.parse`, `mime.getType`, `decodeURIComponent`, hex `Buffer` decoding and `JSON.parse` are opaque functions. Their own behaviour is outside this model.
- Requests.Timeout: `Number()` is an opaque function to integers. NaN and fractional values of x-timer are not modelled, because they are floating point; the whole-seconds clause holds only for this integer abstraction (x-timer `1.5` gives 1500 ms in the source).
- Address.FallbackSegments, Address.FallbackTrailingSlash, Address.FallbackQuery: the read-back and trailing-slash rules are stated only when no decoded segment contains `/`. A segment such as `%2F` decodes to a `/` that splits differently on reading back, and can put a `/` at the end of a dotted segment (pathname `/a.b%2F` gives `/h/a.b/`). The rules also need a hostname without `/`; a hex hostname can decode to one (`hex2f61` becomes `/a`, passes the envelope and falls back to a path beginning `//a`), and that case is not covered.
- The rendered body text is not modelled: the plain `prop: value` lines, the HTML page, `JSON.stringify` and the contents of `error.stack`. A body is modelled as the data it is rendered from.
- The content stream of `app.files.read` is not modelled. The body records only the query it reads.
- `range-parser` is not modelled. Its call site throws before it runs.
- Busboy's event wiring and listener removal are not modelled. The tokenizer is the list of file names and an optional error.
- Listings.FirstWriteFailure: `Promise.all` rejects with the first write to fail in time. The model picks the first failing write in path order, because timing is not modelled.
- Writes still running after the PUT has answered are not modelled.
- The contents of the options objects are not modelled: `cidVersion`, `parents`, `truncate`, `create`, `rawLeaves` and the x-opt merge. Only the timeout, the recursive flag and whether x-opt parses are kept.
- `getMime` (index.js:56-60) is never called, so it is left out.
- `console.error` logging is left out.
- Engine state is not modelled. Storage answers are functions of the call's arguments, so the stat after a write does not see that write.
- Hostname length is counted in characters. JavaScript counts UTF-16 code units, and the two differ only for characters outside the Basic Multilingual Plane.
- The conversion of stat and listing identifiers to version 1 (`toV1().toString()`) is the engine's. Identifiers arrive already converted.
