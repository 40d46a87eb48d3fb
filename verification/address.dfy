/** `formatReq` and the hostname decoding before it: how a hostname and a
    pathname become the query handed to the storage engine and a mime hint. */
module Address {
  import opened Common
  import opened Strings
  import opened Libraries
  import opened Storage

  /** The hostname that means "the node's own file tree". */
  const HostType := "_"

  /** The prefix marking a hex-encoded hostname. */
  const EncodeType := "hex"

  /** A hostname starting with `hex` is replaced by the hex-decoding of the rest;
      any other hostname is used as it is. Only a hex-marked hostname can change,
      and the empty hostname stays empty (it is refused later). */
  function MainHostname(libs: Libs, hostname: string): (h: string)
    ensures h != hostname ==> StartsWith(hostname, EncodeType) && |hostname| >= |EncodeType|
    ensures hostname == "" ==> h == ""
    ensures StartsWith(hostname, EncodeType) ==> h == libs.hexDecode(hostname[|EncodeType|..])
  {
    if StartsWith(hostname, EncodeType) then libs.hexDecode(hostname[|EncodeType|..])
    else hostname
  }

  /** The result of `formatReq`: the query and the mime hint. */
  datatype Resolved = Resolved(query: Query, mimeType: Option<string>)

  /** The `.`-separated labels of a hostname that contains a dot: at least two. */
  function DotLabels(hostname: string): (r: seq<string>)
    requires '.' in hostname
    ensures |r| >= 2
    ensures forall i :: 0 <= i < |r| ==> '.' !in r[i]
  {
    SplitCount(hostname, '.');
    assert '.' in multiset(hostname);
    Split(hostname, '.')
  }

  /** Every segment decodes without a URIError. */
  ghost predicate AllDecode(segs: seq<string>, decode: string -> Option<string>) {
    forall i :: 0 <= i < |segs| ==> decode(segs[i]).Some?
  }

  /** `segs.map(decodeURIComponent)`, which throws at the first malformed segment. */
  function DecodeAll(segs: seq<string>, decode: string -> Option<string>): (r: Option<seq<string>>)
    ensures r.Some? <==> AllDecode(segs, decode)
    ensures r.Some? ==> |r.value| == |segs|
    ensures r.Some? ==> forall i :: 0 <= i < |segs| ==> decode(segs[i]) == Some(r.value[i])
    decreases |segs|
  {
    if segs == [] then Some([])
    else
      var rest := DecodeAll(segs[1..], decode);
      assert AllDecode(segs, decode) ==> AllDecode(segs[1..], decode) by {
        if AllDecode(segs, decode) {
          forall i | 0 <= i < |segs[1..]| ensures decode(segs[1..][i]).Some? {
            assert segs[1..][i] == segs[i + 1];
          }
        }
      }
      match decode(segs[0])
      case None => None
      case Some(d) =>
        if rest.None? then None
        else Some([d] + rest.value)
  }

  /** The path a non-CID, dot-free hostname falls back to: `/hostname`, then the
      decoded segments joined by `/`, with a trailing `/` unless the last segment
      contains a dot. */
  function FallbackPath(host: string, mid: seq<string>): (q: string)
    ensures StartsWith(q, "/" + host)
  {
    var base := "/" + host;
    if mid == [] then base
    else if '.' in mid[|mid| - 1] then base + "/" + Join(mid, '/')
    else base + "/" + Join(mid, '/') + "/"
  }

  /** The fallback path without its leading `/`. */
  function FallbackTail(host: string, mid: seq<string>): string {
    if mid == [] then host
    else if '.' in mid[|mid| - 1] then host + "/" + Join(mid, '/')
    else host + "/" + Join(mid, '/') + "/"
  }

  lemma FallbackPathTail(host: string, mid: seq<string>)
    ensures FallbackPath(host, mid) == "/" + FallbackTail(host, mid)
  {
  }

  /** The `/`-pieces of the tail: the hostname, the segments, and an empty piece
      after a trailing `/`. */
  lemma {:induction false} SplitFallbackTail(host: string, mid: seq<string>)
    requires '/' !in host
    requires forall i :: 0 <= i < |mid| ==> '/' !in mid[i]
    ensures mid == [] ==> Split(FallbackTail(host, mid), '/') == [host]
    ensures mid != [] && '.' in mid[|mid| - 1] ==> Split(FallbackTail(host, mid), '/') == [host] + mid
    ensures mid != [] && '.' !in mid[|mid| - 1] ==> Split(FallbackTail(host, mid), '/') == [host] + mid + [""]
  {
    SplitWithoutSeparator(host, '/');
    if mid != [] {
      SplitJoin(mid, '/');
      var j := Join(mid, '/');
      if '.' in mid[|mid| - 1] {
        assert FallbackTail(host, mid) == host + ['/'] + j;
        SplitAtSeparator(host, j, '/');
      } else {
        assert FallbackTail(host, mid) == host + ['/'] + (j + ['/'] + []);
        SplitAtSeparator(host, j + ['/'] + [], '/');
        SplitAtSeparator(j, [], '/');
      }
    }
  }

  /** Filtering the empty pieces around the hostname and segments leaves exactly
      the hostname and segments. */
  lemma {:induction false} FilterFallbackPieces(host: string, mid: seq<string>, pieces: seq<string>)
    requires host != ""
    requires forall i :: 0 <= i < |mid| ==> mid[i] != ""
    requires pieces == [host] + mid || pieces == [host] + mid + [""]
    ensures NonEmpty([""] + pieces) == [host] + mid
  {
    NonEmptyAppend([""], pieces);
    NonEmptyKeeps([host] + mid);
    if pieces != [host] + mid {
      NonEmptyAppend([host] + mid, [""]);
    }
  }

  /** The fallback path can be read back: its non-empty segments are the hostname
      followed by the decoded segments. */
  lemma {:induction false} FallbackSegments(host: string, mid: seq<string>)
    requires host != "" && '/' !in host
    requires forall i :: 0 <= i < |mid| ==> mid[i] != "" && '/' !in mid[i]
    ensures Segments(FallbackPath(host, mid)) == [host] + mid
  {
    var tail := FallbackTail(host, mid);
    FallbackPathTail(host, mid);
    assert "/" + tail == [] + ['/'] + tail;
    SplitAtSeparator([], tail, '/');
    SplitFallbackTail(host, mid);
    FilterFallbackPieces(host, mid, Split(tail, '/'));
  }

  /** The fallback path ends in `/` exactly when there is a last segment and that
      segment has no dot. */
  lemma {:induction false} FallbackTrailingSlash(host: string, mid: seq<string>)
    requires host != "" && '/' !in host
    requires forall i :: 0 <= i < |mid| ==> mid[i] != "" && '/' !in mid[i]
    ensures var q := FallbackPath(host, mid);
      q[|q| - 1] == '/' <==> mid != [] && '.' !in mid[|mid| - 1]
  {
    var q := FallbackPath(host, mid);
    if mid == [] {
      assert q[|q| - 1] == host[|host| - 1];
    } else if '.' in mid[|mid| - 1] {
      var j := Join(mid, '/');
      JoinLastChar(mid, '/');
      assert q == "/" + host + "/" + j;
      assert q[|q| - 1] == j[|j| - 1];
      var last := mid[|mid| - 1];
      assert last[|last| - 1] in last;
    }
  }

  /** `formatReq`. The hostname `_` passes the raw pathname through; a dotted
      hostname is a CID in its first label with the mime hint from its second; a
      dot-free hostname is a CID if it parses and otherwise falls back to a path.
      It throws only when a dotted hostname's first label is not a CID, or when a
      fallback segment is malformed percent-encoding. */
  function FormatReq(libs: Libs, hostname: string, pathname: string): (r: Result<Resolved>)
    ensures hostname == HostType ==> r == Ok(Resolved(ByPath(pathname), libs.mimeOf(pathname)))
    ensures r.Err? <==>
      hostname != HostType &&
      (if '.' in hostname then libs.parseCid(DotLabels(hostname)[0]).Err?
       else libs.parseCid(hostname).Err? && !AllDecode(Segments(pathname), libs.decodeComponent))
    ensures r.Ok? && r.value.query.ByPath? && hostname != HostType ==>
      '.' !in hostname && StartsWith(r.value.query.path, "/" + hostname)
    // The dotted form rethrows the parser's own error; the fallback throws URIError.
    ensures r.Err? && '.' in hostname ==> r.error == libs.parseCid(DotLabels(hostname)[0]).error
    ensures r.Err? && '.' !in hostname ==> r.error == UriError
    // Only the dotted form takes its mime hint from elsewhere than the pathname.
    ensures r.Ok? && '.' !in hostname ==> r.value.mimeType == libs.mimeOf(pathname)
  {
    if hostname == HostType then
      Ok(Resolved(ByPath(pathname), libs.mimeOf(pathname)))
    else if '.' in hostname then
      var labels := DotLabels(hostname);
      match libs.parseCid(labels[0])
      case Err(e) => Err(e)
      case Ok(cid) => Ok(Resolved(ByCid(cid), libs.mimeOf(labels[1])))
    else
      match libs.parseCid(hostname)
      case Ok(cid) => Ok(Resolved(ByCid(cid), libs.mimeOf(pathname)))
      case Err(_) =>
        match DecodeAll(Segments(pathname), libs.decodeComponent)
        case None => Err(UriError)
        case Some(mid) => Ok(Resolved(ByPath(FallbackPath(hostname, mid)), libs.mimeOf(pathname)))
  }

  /** A dot-free hostname that parses as a CID resolves to that CID whatever the
      pathname; the pathname only feeds the mime hint. */
  lemma CidHostIgnoresPath(libs: Libs, hostname: string, p1: string, p2: string)
    requires hostname != HostType && '.' !in hostname
    requires libs.parseCid(hostname).Ok?
    ensures FormatReq(libs, hostname, p1).Ok? && FormatReq(libs, hostname, p2).Ok?
    ensures FormatReq(libs, hostname, p1).value.query == ByCid(libs.parseCid(hostname).value)
    ensures FormatReq(libs, hostname, p1).value.query == FormatReq(libs, hostname, p2).value.query
    ensures FormatReq(libs, hostname, p1).value.mimeType == libs.mimeOf(p1)
  {
  }

  /** A dotted hostname is resolved from its first two labels alone: the pathname
      and any further labels play no part. */
  lemma DottedHostUsesFirstTwoLabels(libs: Libs, h1: string, h2: string, p1: string, p2: string)
    requires h1 != HostType && h2 != HostType && '.' in h1 && '.' in h2
    requires DotLabels(h1)[0] == DotLabels(h2)[0] && DotLabels(h1)[1] == DotLabels(h2)[1]
    ensures FormatReq(libs, h1, p1) == FormatReq(libs, h2, p2)
    ensures FormatReq(libs, h1, p1).Ok? ==>
      FormatReq(libs, h1, p1).value ==
        Resolved(ByCid(libs.parseCid(DotLabels(h1)[0]).value), libs.mimeOf(DotLabels(h1)[1]))
  {
  }

  /** The fallback for a dot-free, non-CID hostname: the query is a path whose
      non-empty segments are the hostname and then the decoded pathname segments,
      ending in `/` exactly when the last segment has no dot. */
  lemma FallbackQuery(libs: Libs, hostname: string, pathname: string, mid: seq<string>)
    requires hostname != HostType && hostname != "" && '.' !in hostname && '/' !in hostname
    requires libs.parseCid(hostname).Err?
    requires DecodeAll(Segments(pathname), libs.decodeComponent) == Some(mid)
    requires forall i :: 0 <= i < |mid| ==> mid[i] != "" && '/' !in mid[i]
    ensures FormatReq(libs, hostname, pathname).Ok?
    ensures FormatReq(libs, hostname, pathname).value.query.ByPath?
    ensures Segments(FormatReq(libs, hostname, pathname).value.query.path) == [hostname] + mid
    ensures |mid| == |Segments(pathname)|
    ensures var q := FormatReq(libs, hostname, pathname).value.query.path;
      q[|q| - 1] == '/' <==> mid != [] && '.' !in mid[|mid| - 1]
  {
    FallbackSegments(hostname, mid);
    FallbackTrailingSlash(hostname, mid);
  }

  /** Empty segments do not matter to the fallback: two pathnames with the same
      non-empty segments resolve to the same query. */
  lemma FallbackIgnoresEmptySegments(libs: Libs, hostname: string, p1: string, p2: string)
    requires hostname != HostType && '.' !in hostname
    requires libs.parseCid(hostname).Err?
    requires Segments(p1) == Segments(p2)
    ensures FormatReq(libs, hostname, p1).Ok? <==> FormatReq(libs, hostname, p2).Ok?
    ensures FormatReq(libs, hostname, p1).Ok? ==>
      FormatReq(libs, hostname, p1).value.query == FormatReq(libs, hostname, p2).value.query
  {
  }
}
