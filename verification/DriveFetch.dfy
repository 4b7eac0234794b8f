/**
 * Fetching a Drive folder within limits on pages, files and bytes
 * (src/document_fetchers/drive_fetcher.py). The provider is arbitrary and may fail any call.
 */
module DriveFetch {
  import opened Text
  import opened Numbers
  import opened Bytes

  datatype Kind = Folder | Exportable | OtherNative | Plain

  datatype Item = Item(id: string, name: string, kind: Kind, declaredSize: Option<nat>)

  /** What the provider sends of a file; it may fail after the last of these chunks. */
  datatype Download = Download(chunks: seq<Bytes>, fails: bool)

  datatype Document = Document(id: string, filename: string, exported: bool, content: Bytes)

  datatype Limits = Limits(maxPages: int, maxFiles: int, maxFileBytes: int, maxRunBytes: int)

  function BoundedInt(value: Option<int>, default: int, lo: int, hi: int): int {
    var v := if value.Some? then value.value else default;
    var low := if v < hi then v else hi;
    if low < lo then lo else low
  }

  /** The limits as configured, each within its own bounds. */
  function ConfiguredLimits(pages: Option<int>, files: Option<int>, fileBytes: Option<int>, runBytes: Option<int>)
    : (l: Limits)
    ensures Proper(l)
  {
    var maxFileBytes := BoundedInt(fileBytes, 25 * 1024 * 1024, 1024, 1024 * 1024 * 1024);
    Limits(BoundedInt(pages, 50, 1, 500), BoundedInt(files, 5000, 1, 50000), maxFileBytes,
           BoundedInt(runBytes, 250 * 1024 * 1024, maxFileBytes, 100 * 1024 * 1024 * 1024))
  }

  predicate Proper(l: Limits) {
    1 <= l.maxPages <= 500 && 1 <= l.maxFiles <= 50000 && 1024 <= l.maxFileBytes <= l.maxRunBytes
  }

  // ------------------------------------------------------------------------------------------
  // One file
  // ------------------------------------------------------------------------------------------

  function Concat(chunks: seq<Bytes>): Bytes {
    if chunks == [] then [] else Concat(chunks[..|chunks| - 1]) + chunks[|chunks| - 1]
  }

  lemma {:induction false} ConcatGrows(chunks: seq<Bytes>, i: nat)
    requires i <= |chunks|
    ensures |Concat(chunks[..i])| <= |Concat(chunks)|
  {
    if i < |chunks| {
      assert chunks[..|chunks| - 1][..i] == chunks[..i];
      ConcatGrows(chunks[..|chunks| - 1], i);
    } else {
      assert chunks[..i] == chunks;
    }
  }

  /** A buffer that refuses to grow past its limit. */
  class BoundedBytes {
    const limit: int
    var data: Bytes

    constructor (limit: int)
      ensures this.limit == limit && data == []
    {
      this.limit := limit;
      data := [];
    }

    method Write(chunk: Bytes) returns (ok: bool)
      modifies this
      ensures ok <==> |old(data)| + |chunk| <= limit
      ensures data == if ok then old(data) + chunk else old(data)
    {
      ok := |data| + |chunk| <= limit;
      if ok {
        data := data + chunk;
      }
    }
  }

  datatype Verdict = Skipped | Oversized | Broken | Kept(content: Bytes)

  /** What comes of a download under a limit, whatever the chunks are. */
  function Downloaded(limit: int, download: Download): Verdict {
    if |Concat(download.chunks)| > limit then Oversized
    else if download.fails then Broken
    else Kept(Concat(download.chunks))
  }

  method DownloadFile(limit: int, download: Download) returns (v: Verdict)
    requires limit >= 0
    ensures v == Downloaded(limit, download)
  {
    var buffer := new BoundedBytes(limit);
    var chunks := download.chunks;
    assert chunks[..0] == [];
    for i := 0 to |chunks|
      invariant fresh(buffer) && buffer.data == Concat(chunks[..i]) && |buffer.data| <= limit
    {
      assert chunks[..i + 1][..i] == chunks[..i];
      var ok := buffer.Write(chunks[i]);
      if !ok {
        ConcatGrows(chunks, i + 1);
        return Oversized;
      }
    }
    assert chunks[..|chunks|] == chunks;
    v := if download.fails then Broken else Kept(buffer.data);
  }

  /** What becomes of a file after `used` bytes of the run. */
  function Judge(l: Limits, used: int, item: Item, download: Download): Verdict {
    if item.kind.Folder? then Skipped
    else if item.declaredSize.Some?
            && (item.declaredSize.value > l.maxFileBytes || used + item.declaredSize.value > l.maxRunBytes)
    then Oversized
    else if item.kind.OtherNative? then Skipped
    else if l.maxRunBytes - used <= 0 then Oversized
    else Downloaded(Min(l.maxFileBytes, l.maxRunBytes - used), download)
  }

  predicate EndsWithPdf(name: string) {
    |name| >= 4 && Lower(name)[|name| - 4..] == ".pdf"
  }

  function DocumentOf(item: Item, content: Bytes): Document {
    if item.kind.Exportable? then
      Document(item.id, if EndsWithPdf(item.name) then item.name else item.name + ".pdf", true, content)
    else Document(item.id, item.name, false, content)
  }

  // ------------------------------------------------------------------------------------------
  // The run
  // ------------------------------------------------------------------------------------------

  datatype Progress = Progress(documents: seq<Document>, skipped: nat, oversized: nat, used: int)

  const NOTHING := Progress([], 0, 0, 0)

  function Advance(p: Progress, item: Item, v: Verdict): Progress {
    match v
    case Skipped => p.(skipped := p.skipped + 1)
    case Oversized => p.(skipped := p.skipped + 1, oversized := p.oversized + 1)
    case Broken => p
    case Kept(content) => p.(documents := p.documents + [DocumentOf(item, content)], used := p.used + |content|)
  }

  /** What the provider sends of each file. */
  type Contents = string -> Download

  function Sent(contents: Contents, id: string): Download {
    contents(id)
  }

  /** The verdict on an item, by the bytes used before it. */
  type Verdicts = (int, Item) -> Verdict

  function VerdictsOf(l: Limits, contents: Contents): Verdicts {
    (used: int, item: Item) => Judge(l, used, item, Sent(contents, item.id))
  }

  /** How far the run is after the first `n` items. */
  function After(verdicts: Verdicts, items: seq<Item>, n: nat): Progress
    requires n <= |items|
  {
    if n == 0 then NOTHING
    else
      var p := After(verdicts, items, n - 1);
      Advance(p, items[n - 1], verdicts(p.used, items[n - 1]))
  }

  /** The number of items before the first whose download breaks. */
  function Unbroken(verdicts: Verdicts, items: seq<Item>, n: nat): (k: nat)
    requires n <= |items|
    ensures n <= k <= |items|
    ensures forall i :: n <= i < k ==> verdicts(After(verdicts, items, i).used, items[i]) != Broken
    ensures k < |items| ==> verdicts(After(verdicts, items, k).used, items[k]) == Broken
    decreases |items| - n
  {
    if n == |items| || verdicts(After(verdicts, items, n).used, items[n]) == Broken then n
    else Unbroken(verdicts, items, n + 1)
  }

  /** A page and the token of the next one; without a token it was the last. */
  datatype Page = Page(files: seq<Item>, next: Option<int>)

  /** The page for a token and a page size; the provider may fail. */
  type Server = (Option<int>, int) -> Option<Page>

  function Ask(server: Server, token: Option<int>, size: int): Option<Page> {
    server(token, size)
  }

  datatype Listing = Listing(items: seq<Item>, pages: nat, failed: bool)

  function ListFrom(l: Limits, server: Server, token: Option<int>, items: seq<Item>, pages: nat): Listing
    decreases l.maxPages - pages
  {
    if pages >= l.maxPages || |items| >= l.maxFiles then Listing(items, pages, false)
    else
      match Ask(server, token, Min(1000, l.maxFiles - |items|))
      case None => Listing(items, pages, true)
      case Some(page) =>
        if page.next.None? then Listing(items + page.files, pages + 1, false)
        else ListFrom(l, server, page.next, items + page.files, pages + 1)
  }

  function ListFolder(l: Limits, server: Server): Listing {
    ListFrom(l, server, None, [], 0)
  }

  /** No more than the first `maxFiles` items are looked at. */
  function Considered(l: Limits, listing: Listing): (items: seq<Item>)
    requires Proper(l)
    ensures |items| == Min(|listing.items|, l.maxFiles)
  {
    if |listing.items| <= l.maxFiles then listing.items else listing.items[..l.maxFiles]
  }

  class DriveFetcher {
    var documents: seq<Document>
    var skipped: nat
    var oversized: nat
    var downloadedBytes: int
    var pages: nat

    ghost function View(): Progress
      reads this
    {
      Progress(documents, skipped, oversized, downloadedBytes)
    }

    constructor () {
    }

    method ListPages(l: Limits, server: Server) returns (items: seq<Item>, failed: bool)
      modifies this`pages
      ensures Listing(items, pages, failed) == ListFolder(l, server)
    {
      items, failed, pages := [], false, 0;
      var token: Option<int> := None;
      while pages < l.maxPages && |items| < l.maxFiles
        invariant ListFrom(l, server, token, items, pages) == ListFolder(l, server)
        decreases l.maxPages - pages
      {
        var answer := Ask(server, token, Min(1000, l.maxFiles - |items|));
        if answer.None? {
          return items, true;
        }
        pages := pages + 1;
        items := items + answer.value.files;
        token := answer.value.next;
        if token.None? {
          break;
        }
      }
    }

    /** Fetches the folder; false when the provider failed. What was fetched before is kept. */
    method FetchDocuments(l: Limits, server: Server, contents: Contents) returns (completed: bool)
      requires Proper(l)
      modifies this
      ensures pages == ListFolder(l, server).pages
      ensures ListFolder(l, server).failed ==> !completed && View() == NOTHING
      ensures !ListFolder(l, server).failed ==>
                var items := Considered(l, ListFolder(l, server));
                && (completed <==> Unbroken(VerdictsOf(l, contents), items, 0) == |items|)
                && View() == After(VerdictsOf(l, contents), items, Unbroken(VerdictsOf(l, contents), items, 0))
    {
      documents, skipped, oversized, downloadedBytes := [], 0, 0, 0;
      var listed, failed := ListPages(l, server);
      if failed {
        return false;
      }
      completed := FetchItems(l, contents, if |listed| <= l.maxFiles then listed else listed[..l.maxFiles]);
    }

    method FetchItems(l: Limits, contents: Contents, items: seq<Item>) returns (completed: bool)
      requires Proper(l) && View() == NOTHING
      modifies this`documents, this`skipped, this`oversized, this`downloadedBytes
      ensures completed <==> Unbroken(VerdictsOf(l, contents), items, 0) == |items|
      ensures View() == After(VerdictsOf(l, contents), items, Unbroken(VerdictsOf(l, contents), items, 0))
    {
      ghost var verdicts := VerdictsOf(l, contents);
      var i := 0;
      while i < |items|
        invariant i <= |items|
        invariant View() == After(verdicts, items, i) && Unbroken(verdicts, items, i) == Unbroken(verdicts, items, 0)
      {
        var ok := FetchItem(l, contents, items[i]);
        if !ok {
          return false;
        }
        i := i + 1;
      }
      completed := true;
    }

    /** The body of the loop over the items; false when the download breaks. */
    method FetchItem(l: Limits, contents: Contents, item: Item) returns (ok: bool)
      requires Proper(l)
      modifies this`documents, this`skipped, this`oversized, this`downloadedBytes
      ensures ok <==> VerdictsOf(l, contents)(old(downloadedBytes), item) != Broken
      ensures View() == Advance(old(View()), item, VerdictsOf(l, contents)(old(downloadedBytes), item))
    {
      ok := true;
      if item.kind.Folder? {
        skipped := skipped + 1;
        return;
      }
      if item.declaredSize.Some?
         && (item.declaredSize.value > l.maxFileBytes || downloadedBytes + item.declaredSize.value > l.maxRunBytes)
      {
        skipped, oversized := skipped + 1, oversized + 1;
        return;
      }
      if item.kind.OtherNative? {
        skipped := skipped + 1;
        return;
      }
      var remaining := l.maxRunBytes - downloadedBytes;
      if remaining <= 0 {
        skipped, oversized := skipped + 1, oversized + 1;
        return;
      }
      var v := DownloadFile(Min(l.maxFileBytes, remaining), Sent(contents, item.id));
      if v.Oversized? {
        skipped, oversized := skipped + 1, oversized + 1;
      } else if v.Broken? {
        ok := false;
      } else {
        downloadedBytes := downloadedBytes + |v.content|;
        documents := documents + [DocumentOf(item, v.content)];
      }
    }
  }

  // ------------------------------------------------------------------------------------------
  // Bytes and counts
  // ------------------------------------------------------------------------------------------

  function TotalBytes(documents: seq<Document>): nat {
    if documents == [] then 0 else TotalBytes(documents[..|documents| - 1]) + |documents[|documents| - 1].content|
  }

  /** The bytes counted are the bytes kept, within the run and within each file. */
  ghost predicate WithinLimits(l: Limits, p: Progress) {
    && p.used == TotalBytes(p.documents) <= l.maxRunBytes
    && forall d :: d in p.documents ==> |d.content| <= l.maxFileBytes
  }

  lemma AdvanceWithinLimits(l: Limits, p: Progress, item: Item, download: Download)
    requires Proper(l) && WithinLimits(l, p)
    ensures WithinLimits(l, Advance(p, item, Judge(l, p.used, item, download)))
  {
    var v := Judge(l, p.used, item, download);
    if v.Kept? {
      var d := DocumentOf(item, v.content);
      assert (p.documents + [d])[..|p.documents|] == p.documents;
    }
  }

  lemma {:induction false} BytesBounded(l: Limits, contents: Contents, items: seq<Item>, n: nat)
    requires Proper(l) && n <= |items|
    ensures WithinLimits(l, After(VerdictsOf(l, contents), items, n))
  {
    if n > 0 {
      BytesBounded(l, contents, items, n - 1);
      AdvanceWithinLimits(l, After(VerdictsOf(l, contents), items, n - 1), items[n - 1],
          Sent(contents, items[n - 1].id));
    }
  }

  /** As long as no download breaks, every item is either fetched or skipped. */
  lemma {:induction false} EveryItemCounted(verdicts: Verdicts, items: seq<Item>, n: nat)
    requires n <= Unbroken(verdicts, items, 0)
    ensures var p := After(verdicts, items, n); |p.documents| + p.skipped == n && p.oversized <= p.skipped
  {
    if n > 0 {
      EveryItemCounted(verdicts, items, n - 1);
      assert verdicts(After(verdicts, items, n - 1).used, items[n - 1]) != Broken;
    }
  }

  /** At most `maxPages` pages, and at least one. */
  lemma {:induction false} PagesBounded(l: Limits, server: Server, token: Option<int>, items: seq<Item>, pages: nat)
    requires pages <= l.maxPages
    ensures pages <= ListFrom(l, server, token, items, pages).pages <= l.maxPages
    decreases l.maxPages - pages
  {
    if pages < l.maxPages && |items| < l.maxFiles {
      var answer := Ask(server, token, Min(1000, l.maxFiles - |items|));
      if answer.Some? && answer.value.next.Some? {
        PagesBounded(l, server, answer.value.next, items + answer.value.files, pages + 1);
      }
    }
  }

  /**
   * Whatever the provider lists and sends: pages, files and bytes stay within their limits, and on a
   * completed run everything listed, up to the limit on files, is fetched or skipped.
   */
  lemma RunWithinLimits(l: Limits, server: Server, contents: Contents)
    requires Proper(l)
    ensures ListFolder(l, server).pages <= l.maxPages
    ensures var items := Considered(l, ListFolder(l, server));
            var p := After(VerdictsOf(l, contents), items, Unbroken(VerdictsOf(l, contents), items, 0));
            && WithinLimits(l, p) && |p.documents| <= l.maxFiles
            && (Unbroken(VerdictsOf(l, contents), items, 0) == |items| ==>
                  |p.documents| + p.skipped == Min(|ListFolder(l, server).items|, l.maxFiles))
  {
    var items := Considered(l, ListFolder(l, server));
    var n := Unbroken(VerdictsOf(l, contents), items, 0);
    PagesBounded(l, server, None, [], 0);
    BytesBounded(l, contents, items, n);
    EveryItemCounted(VerdictsOf(l, contents), items, n);
  }

  // ------------------------------------------------------------------------------------------
  // Which files are kept
  // ------------------------------------------------------------------------------------------

  /** It is a file, and fits into the limit on files and into what is left of the run, which must not be used up. */
  predicate Fits(l: Limits, used: int, item: Item, size: nat) {
    && (item.kind.Plain? || item.kind.Exportable?)
    && size <= l.maxFileBytes && used + size <= l.maxRunBytes && used < l.maxRunBytes
  }

  /** The declared size, if any, is within both limits. */
  predicate Declares(l: Limits, used: int, item: Item) {
    item.declaredSize.Some? ==>
      item.declaredSize.value <= l.maxFileBytes && used + item.declaredSize.value <= l.maxRunBytes
  }

  /**
   * Whatever is declared: a file is kept, with exactly its content, if and only if both the declared
   * and the actual size fit and the download does not break.
   */
  lemma KeptIff(l: Limits, used: int, item: Item, download: Download, content: Bytes)
    ensures Judge(l, used, item, download) == Kept(content) <==>
              && content == Concat(download.chunks) && !download.fails
              && Declares(l, used, item) && Fits(l, used, item, |content|)
  {
  }

  /** An empty file does not fit into a run that is exactly used up. */
  lemma EmptyFileAfterFullRun(l: Limits, name: string)
    ensures var item := Item(name, name, Plain, Some(0));
            Judge(l, l.maxRunBytes, item, Download([], false)).Oversized?
  {
  }

  ghost predicate KeptAt(verdicts: Verdicts, items: seq<Item>, i: int, d: Document) {
    && 0 <= i < |items|
    && var v := verdicts(After(verdicts, items, i).used, items[i]);
       v.Kept? && d == DocumentOf(items[i], v.content)
  }

  /** The documents are those of the kept items, and no others. */
  lemma {:induction false} DocumentsAreKept(verdicts: Verdicts, items: seq<Item>, n: nat, d: Document)
    requires n <= |items|
    ensures d in After(verdicts, items, n).documents <==> exists i :: 0 <= i < n && KeptAt(verdicts, items, i, d)
  {
    if n > 0 {
      DocumentsAreKept(verdicts, items, n - 1, d);
      assert KeptAt(verdicts, items, n - 1, d) || !KeptAt(verdicts, items, n - 1, d);
    }
  }

  // ------------------------------------------------------------------------------------------
  // A faithful provider
  // ------------------------------------------------------------------------------------------

  function Offset(token: Option<int>): int {
    if token.Some? then token.value else 0
  }

  /** Pages of the asked size from a fixed folder, the token being where the next page begins. */
  ghost predicate Faithful(server: Server, files: seq<Item>) {
    forall token: Option<int>, size: int :: 0 <= Offset(token) <= |files| && size > 0 ==>
      ServesAt(server, files, token, size)
  }

  ghost predicate ServesAt(server: Server, files: seq<Item>, token: Option<int>, size: int)
    requires 0 <= Offset(token) <= |files| && size > 0
  {
    var hi := Min(Offset(token) + size, |files|);
    Ask(server, token, size) == Some(Page(files[Offset(token)..hi], if hi < |files| then Some(hi) else None))
  }

  lemma {:induction false} FaithfulFrom(l: Limits, server: Server, files: seq<Item>, token: Option<int>, pages: nat)
    requires Proper(l) && Faithful(server, files) && 0 <= Offset(token) <= |files| && Offset(token) <= l.maxFiles
    requires Min(|files|, l.maxFiles) - Offset(token) <= 1000 * (l.maxPages - pages)
    requires token.None? ==> pages < l.maxPages
    requires token.Some? ==> Offset(token) < |files|
    ensures var r := ListFrom(l, server, token, files[..Offset(token)], pages);
            !r.failed && r.items == files[..Min(|files|, l.maxFiles)]
    decreases l.maxPages - pages
  {
    var from := Offset(token);
    if pages < l.maxPages && from < l.maxFiles {
      var size := Min(1000, l.maxFiles - from);
      assert ServesAt(server, files, token, size);
      var hi := Min(from + size, |files|);
      assert files[..from] + files[from..hi] == files[..hi];
      if hi < |files| {
        FaithfulFrom(l, server, files, Some(hi), pages + 1);
      }
    }
  }

  /** A faithful provider's folder is listed in full, up to the limit on files, if the pages suffice for it. */
  lemma FaithfulListing(l: Limits, server: Server, files: seq<Item>)
    requires Proper(l) && Faithful(server, files) && Min(|files|, l.maxFiles) <= 1000 * l.maxPages
    ensures var r := ListFolder(l, server); !r.failed && r.items == files[..Min(|files|, l.maxFiles)]
  {
    assert files[..0] == [];
    FaithfulFrom(l, server, files, None, 0);
  }
}
