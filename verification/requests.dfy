/** The parts of an incoming request the handler reads, and the header tests it
    applies to them. */
module Requests {
  import opened Common
  import opened Strings
  import opened Libraries
  import opened Storage

  /** What the multipart tokenizer reports for a body: the file names of its
      'file' events in arrival order, and the error that ended parsing, if any. */
  datatype FormEvents = FormEvents(files: seq<string>, error: Option<Failure>)

  /** The URL already split into protocol, hostname and pathname, the headers the
      handler consults (None when absent; `range` stands for `Range || range`);
      `verb` is the request method,
      and the body as the tokenizer sees it. */
  datatype Request = Request(
    protocol: string,
    verb: string,
    hostname: string,
    pathname: string,
    accept: Option<string>,
    xTimer: Option<string>,
    range: Option<string>,
    contentType: Option<string>,
    xOpt: Option<string>,
    form: FormEvents)

  /** A header JavaScript treats as true: present and not the empty string. */
  predicate Truthy(h: Option<string>) {
    h.Some? && h.value != ""
  }

  /** `header && header.includes(t)`. */
  predicate HeaderHas(h: Option<string>, t: string) {
    Truthy(h) && Contains(h.value, t)
  }

  /** The timeout passed to storage calls: the x-timer header in seconds, turned
      into milliseconds, unless it is absent, empty or the string "0". */
  function Timeout(libs: Libs, xTimer: Option<string>): (ms: int)
    ensures ms % 1000 == 0
    ensures !Truthy(xTimer) || xTimer.value == "0" ==> ms == DefaultTimeout
    ensures Truthy(xTimer) && xTimer.value != "0" ==> ms == libs.toNumber(xTimer.value) * 1000
  {
    if Truthy(xTimer) && xTimer.value != "0" then libs.toNumber(xTimer.value) * 1000
    else DefaultTimeout
  }
}
