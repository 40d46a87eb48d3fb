/** The checks the handler makes before touching storage: protocol, method and
    hostname. Any failure is answered with 409. */
module Envelope {
  import opened Common
  import opened Strings
  import Address

  const Protocol := "ipfs:"

  /** `SUPPORTED_METHODS`. */
  const SupportedMethods: seq<string> := ["GET", "HEAD", "PUT", "DELETE"]

  /** Which check failed first. */
  datatype Rejection = WrongProtocol | WrongMethod | WrongHostname

  /** The single body string of each 409 response. */
  function RejectionNote(r: Rejection): string {
    match r
    case WrongProtocol => "wrong protocol"
    case WrongMethod => "something wrong with method"
    case WrongHostname => "something wrong with hostname"
  }

  /** The hostname rule stated positively: the (decoded) hostname is non-empty, and
      a one-character hostname must be `_` with at most one non-empty path segment. */
  predicate HostAccepted(host: string, pathname: string) {
    host != "" && (|host| == 1 ==> host == Address.HostType && |Segments(pathname)| <= 1)
  }

  /** A hostname is refused exactly when it is empty, is a single character other
      than `_`, or is `_` with more than one non-empty path segment. */
  lemma HostRejectedCases(host: string, pathname: string)
    ensures !HostAccepted(host, pathname) <==>
      || host == ""
      || (|host| == 1 && host != Address.HostType)
      || (host == Address.HostType && |Segments(pathname)| > 1)
  {
  }

  /** The three checks in the order the handler makes them: protocol, then method,
      then hostname; None when the request may proceed. */
  function Check(protocol: string, verb: string, host: string, pathname: string): (r: Option<Rejection>)
    ensures r == Some(WrongProtocol) <==> protocol != Protocol
    ensures r == Some(WrongMethod) <==> protocol == Protocol && verb !in SupportedMethods
    ensures r == Some(WrongHostname) <==>
      protocol == Protocol && verb in SupportedMethods && !HostAccepted(host, pathname)
    ensures r == None <==>
      protocol == Protocol && verb in SupportedMethods && HostAccepted(host, pathname)
  {
    if protocol != Protocol then Some(WrongProtocol)
    else if verb == "" || verb !in SupportedMethods then Some(WrongMethod)
    else if host == "" || (|host| == 1 && (|Segments(pathname)| > 1 || host != Address.HostType)) then
      Some(WrongHostname)
    else None
  }
}
