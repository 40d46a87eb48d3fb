/** Content negotiation and media-type decoration. The handler negotiates in two
    different ways: one shared by the directory 200 of GET, the 200 of DELETE, the
    400s of GET, PUT and DELETE, and the 500; another used only for a successful
    PUT. A file's 200 carries its decorated mime hint instead, and HEAD's own
    answers and the 409s carry no Content-Type. */
module Negotiation {
  import opened Common
  import opened Strings
  import opened Requests

  datatype Rep = Plain | Html | Json

  const HtmlType := "text/html"
  const JsonType := "application/json"

  /** The Content-Type header that goes with each representation. */
  function ContentTypeOf(rep: Rep): string {
    match rep
    case Plain => "text/plain; charset=utf-8"
    case Html => "text/html; charset=utf-8"
    case Json => "application/json; charset=utf-8"
  }

  /** The shared negotiation. The first test sends everything to plain text unless
      Accept mentions both HTML and JSON, so HTML is chosen only then and the JSON
      branch is never taken. */
  function Negotiate(accept: Option<string>): (rep: Rep)
    ensures rep != Json
    ensures rep == Html <==> HeaderHas(accept, HtmlType) && HeaderHas(accept, JsonType)
    ensures rep == Plain <==> !HeaderHas(accept, HtmlType) || !HeaderHas(accept, JsonType)
  {
    if !Truthy(accept) || !Contains(accept.value, HtmlType) || !Contains(accept.value, JsonType) then Plain
    else if Contains(accept.value, HtmlType) then Html
    else Json
  }

  /** The negotiation of a successful PUT: plain text when Accept mentions neither
      type, HTML whenever it mentions HTML, JSON when it mentions only JSON. */
  function NegotiatePut(accept: Option<string>): (rep: Rep)
    ensures rep == Plain <==> !HeaderHas(accept, HtmlType) && !HeaderHas(accept, JsonType)
    ensures rep == Html <==> HeaderHas(accept, HtmlType)
    ensures rep == Json <==> HeaderHas(accept, JsonType) && !HeaderHas(accept, HtmlType)
  {
    if !Truthy(accept) || (!Contains(accept.value, HtmlType) && !Contains(accept.value, JsonType)) then Plain
    else if Contains(accept.value, HtmlType) then Html
    else Json
  }

  /** The two negotiations agree exactly when Accept mentions both types or
      neither; when it mentions just one, PUT honours it and the others fall back
      to plain text. */
  lemma NegotiationVariants(accept: Option<string>)
    ensures Negotiate(accept) == NegotiatePut(accept) <==>
      (HeaderHas(accept, HtmlType) <==> HeaderHas(accept, JsonType))
    ensures Negotiate(accept) != NegotiatePut(accept) ==> Negotiate(accept) == Plain
  {
  }

  const Charset := "; charset=utf-8"
  const TextPrefix := "text/"

  /** `getType`: a `text/` type gets a UTF-8 charset parameter, any other type is
      left alone. The result always begins with the given type and stays in the
      same family. */
  function GetType(t: string): (r: string)
    ensures StartsWith(r, t)
    ensures r != t <==> StartsWith(t, TextPrefix)
    ensures r != t ==> r[|t|..] == Charset
    ensures StartsWith(r, TextPrefix) <==> StartsWith(t, TextPrefix)
  {
    if StartsWith(t, TextPrefix) then t + Charset else t
  }

  /** Removes one trailing charset parameter, if there is one. */
  function StripCharset(ct: string): string {
    if EndsWith(ct, Charset) then ct[..|ct| - |Charset|] else ct
  }

  /** Stripping undoes the decoration, for any type that does not already end
      with the charset parameter. */
  lemma StripGetType(t: string)
    requires !EndsWith(t, Charset)
    ensures StripCharset(GetType(t)) == t
  {
    if StartsWith(t, TextPrefix) {
      var r := t + Charset;
      assert r[|r| - |Charset|..] == Charset;
      assert r[..|r| - |Charset|] == t;
    }
  }

  /** The Content-Type of a file response: the decorated mime hint, or the string
      'CID' when there is no hint (null or empty). */
  function FileType(mimeType: Option<string>): (r: string)
    ensures mimeType == None || mimeType == Some("") ==> r == "CID"
    ensures mimeType.Some? && mimeType.value != "" ==> r == GetType(mimeType.value)
  {
    if mimeType.Some? && mimeType.value != "" then GetType(mimeType.value) else "CID"
  }
}
