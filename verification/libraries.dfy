/** The helper libraries the handler calls. Their behaviour is not part of this
    model, so each is a plain function handed in by the caller; the ones that can
    throw return an `Option` or a `Result`. */
module Libraries {
  import opened Common

  datatype Libs = Libs(
    /** `CID.parse`: the parsed identifier's own text form, or the error it throws. */
    parseCid: string -> Result<string>,
    /** `mime.getType`: a media type, or None where it returns null. */
    mimeOf: string -> Option<string>,
    /** `decodeURIComponent`: None where it throws a URIError. */
    decodeComponent: string -> Option<string>,
    /** `Buffer.from(s, 'hex').toString('utf-8')`. */
    hexDecode: string -> string,
    /** `Number(s)` for the x-timer header, restricted to integers. */
    toNumber: string -> int,
    /** `JSON.parse` of the x-opt header: the SyntaxError it throws, or None when it parses. */
    jsonError: string -> Option<Failure>)

  /** What `decodeURIComponent` throws on a malformed escape. */
  const UriError := Failure("URIError", "URI malformed")
}
