/** The order-preserving lists the handler builds: the directory listing
    (`dirIter`), the upload paths (`savePath` in `saveFormData`) and the saved-file
    report (`iterFiles`). */
module Listings {
  import opened Common
  import opened Storage

  /** A listed item with the `link` field `dirIter` adds. */
  datatype DirEntry = DirEntry(item: ListItem, link: string)

  /** `dirIter`: every listed item, in listing order, with `link = 'ipfs://' + cid`. */
  function DirIter(items: seq<ListItem>): (r: seq<DirEntry>)
    ensures |r| == |items|
    ensures forall i :: 0 <= i < |items| ==> r[i].item == items[i] && r[i].link == Link(items[i].cid)
  {
    if items == [] then []
    else [DirEntry(items[0], Link(items[0].cid))] + DirIter(items[1..])
  }

  /** Listing in two parts and concatenating gives the listing of the whole, so
      the result does not depend on how the engine chunks its stream. */
  lemma {:induction false} DirIterAppend(a: seq<ListItem>, b: seq<ListItem>)
    ensures DirIter(a + b) == DirIter(a) + DirIter(b)
    decreases |a|
  {
    if a != [] {
      DirIterAppend(a[1..], b);
      assert (a + b)[0] == a[0];
      assert (a + b)[1..] == a[1..] + b;
    } else {
      assert a + b == b;
    }
  }

  /** `savePath`: the target string followed by each file name (plain
      concatenation, no separator added), in file-event order. */
  function SavePaths(target: string, files: seq<string>): (r: seq<string>)
    ensures |r| == |files|
    ensures forall i :: 0 <= i < |files| ==> r[i] == target + files[i]
  {
    if files == [] then []
    else [target + files[0]] + SavePaths(target, files[1..])
  }

  /** Each saved path can be cut back to its file name. */
  lemma SavePathsNames(target: string, files: seq<string>, i: int)
    requires 0 <= i < |files|
    ensures SavePaths(target, files)[i][|target|..] == files[i]
  {
  }

  /** One entry of the `iterFiles` report: the stat with its link and file name,
      or only the file name when the stat failed. */
  datatype SavedEntry = Saved(file: string, stat: Stat, link: string) | Unresolved(file: string)

  /** `iterFiles`: one entry per path, in path order, each stat made with the
      default timeout; a failed stat gives an entry holding only the file. */
  function IterFiles(store: Store, paths: seq<string>): (r: seq<SavedEntry>)
    ensures |r| == |paths|
    ensures forall i :: 0 <= i < |paths| ==> r[i].file == paths[i]
    ensures forall i :: 0 <= i < |paths| ==>
      (r[i].Unresolved? <==> store.stat(ByPath(paths[i]), DefaultTimeout).StatErr?)
    ensures forall i :: 0 <= i < |paths| && r[i].Saved? ==>
      r[i].stat == store.stat(ByPath(paths[i]), DefaultTimeout).stat && r[i].link == Link(r[i].stat.cid)
  {
    if paths == [] then []
    else
      var entry := match store.stat(ByPath(paths[0]), DefaultTimeout)
        case StatOk(st) => Saved(paths[0], st, Link(st.cid))
        case StatErr(_) => Unresolved(paths[0]);
      [entry] + IterFiles(store, paths[1..])
  }

  /** The stat calls `iterFiles` issues: one per path, in order, with the default timeout. */
  function IterFilesCalls(paths: seq<string>): (r: seq<Call>)
    ensures |r| == |paths|
    ensures forall i :: 0 <= i < |paths| ==> r[i] == Call(StatOp, ByPath(paths[i]), DefaultTimeout)
  {
    if paths == [] then []
    else [Call(StatOp, ByPath(paths[0]), DefaultTimeout)] + IterFilesCalls(paths[1..])
  }

  /** The write calls `saveFormData` issues: one per path, in order, with the
      request's timeout. */
  function WriteCalls(paths: seq<string>, timeout: int): (r: seq<Call>)
    ensures |r| == |paths|
    ensures forall i :: 0 <= i < |paths| ==> r[i] == Call(WriteOp, ByPath(paths[i]), timeout)
  {
    if paths == [] then []
    else [Call(WriteOp, ByPath(paths[0]), timeout)] + WriteCalls(paths[1..], timeout)
  }

  /** The write at position `i` fails with `e`, and every write before it succeeds. */
  ghost predicate FirstFailureAt(store: Store, paths: seq<string>, timeout: int, i: int, e: Failure) {
    && 0 <= i < |paths|
    && store.write(ByPath(paths[i]), timeout) == WriteFailed(e)
    && forall k :: 0 <= k < i ==> store.write(ByPath(paths[k]), timeout) == Written
  }

  /** The error the writes' `Promise.all` rejects with: that of the first write,
      in path order, that fails; None when every write succeeds. */
  function FirstWriteFailure(store: Store, paths: seq<string>, timeout: int): (r: Option<Failure>)
    ensures r == None <==> forall i :: 0 <= i < |paths| ==> store.write(ByPath(paths[i]), timeout) == Written
    ensures r.Some? ==> exists i :: FirstFailureAt(store, paths, timeout, i, r.value)
  {
    if paths == [] then None
    else match store.write(ByPath(paths[0]), timeout)
      case WriteFailed(e) =>
        assert FirstFailureAt(store, paths, timeout, 0, e);
        Some(e)
      case Written =>
        var rest := FirstWriteFailure(store, paths[1..], timeout);
        assert rest.Some? ==> exists i :: FirstFailureAt(store, paths, timeout, i, rest.value) by {
          if rest.Some? {
            var j :| FirstFailureAt(store, paths[1..], timeout, j, rest.value);
            assert paths[1..][j] == paths[j + 1];
            forall k | 0 <= k < j + 1 ensures store.write(ByPath(paths[k]), timeout) == Written {
              if k > 0 {
                assert paths[1..][k - 1] == paths[k];
              }
            }
            assert FirstFailureAt(store, paths, timeout, j + 1, rest.value);
          }
        }
        assert rest == None ==> forall i :: 0 <= i < |paths| ==> store.write(ByPath(paths[i]), timeout) == Written by {
          if rest == None {
            forall i | 0 <= i < |paths| ensures store.write(ByPath(paths[i]), timeout) == Written {
              if i > 0 {
                assert paths[1..][i - 1] == paths[i];
              }
            }
          }
        }
        rest
  }
}
