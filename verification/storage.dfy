/** The storage engine as the handler sees it: what it is asked (a query and a
    timeout), what it answers, and the log of calls a request issues. */
module Storage {
  import opened Common
  import opened Strings

  /** A content identifier, in text form. */
  type Cid = string

  /** What `formatReq` hands to `app.files.*`: a parsed CID object or a path string. */
  datatype Query = ByCid(cid: Cid) | ByPath(path: string)

  /** The string JavaScript's `+` makes of a query: a CID object renders as its text. */
  function QueryText(q: Query): string {
    match q
    case ByCid(c) => c
    case ByPath(p) => p
  }

  /** `stat().type`: 'file', 'directory' or anything else. */
  datatype Kind = File | Directory | OtherKind(tag: string)

  /** A successful `stat`, with the identifier already in its version-1 text form. */
  datatype Stat = Stat(kind: Kind, size: nat, cid: Cid)

  datatype StatOutcome = StatOk(stat: Stat) | StatErr(error: Failure)

  /** One item of an `ls` listing, identifier in version-1 text form. */
  datatype ListItem = ListItem(name: string, kind: Kind, size: nat, cid: Cid)

  datatype WriteOutcome = Written | WriteFailed(error: Failure)

  /** The engine's answers, as functions of the query and the timeout passed. */
  datatype Store = Store(
    stat: (Query, int) -> StatOutcome,
    list: (Query, int) -> Result<seq<ListItem>>,
    write: (Query, int) -> WriteOutcome,
    remove: (Query, bool, int) -> WriteOutcome)

  /** The operation of one storage call; `Remove` records whether `recursive` was set. */
  datatype Op = StatOp | ListOp | ReadOp | WriteOp | RemoveOp(recursive: bool)

  /** One storage call: the operation, its query and the timeout in its options. */
  datatype Call = Call(op: Op, query: Query, timeout: int)

  /** `ipfsTimeout`: the timeout used when the request sets none. */
  const DefaultTimeout: int := 30000

  const Scheme := "ipfs://"

  /** `'ipfs://' + cid`: the link attached to listed and saved entries. */
  function Link(cid: Cid): (r: string)
    ensures StartsWith(r, Scheme) && r[|Scheme|..] == cid
  {
    Scheme + cid
  }

  const LinkSuffix := ">; rel=\"canonical\""

  /** The value of the `Link` response header for an identifier: the link in angle
      brackets, marked canonical, from which the link can be cut back out. */
  function CanonicalLink(cid: Cid): (r: string)
    ensures StartsWith(r, "<") && EndsWith(r, LinkSuffix)
    ensures |r| == |Link(cid)| + 1 + |LinkSuffix|
    ensures r[1..|r| - |LinkSuffix|] == Link(cid)
  {
    var l := Link(cid);
    var r := "<" + l + LinkSuffix;
    assert r[..1] == "<";
    assert r[|r| - |LinkSuffix|..] == LinkSuffix;
    assert r[1..|r| - |LinkSuffix|] == l;
    r
  }

  /** Distinct identifiers give distinct links, so the identifier can be read back. */
  lemma LinkInjective(a: Cid, b: Cid)
    requires Link(a) == Link(b)
    ensures a == b
  {
    assert a == Link(a)[|Scheme|..];
  }
}
