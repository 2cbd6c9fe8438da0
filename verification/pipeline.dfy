/** The batch run of `main`: search once, give up on an empty result, make sure the file list
    is at hand, then take the identifiers one by one through lookup, download, PDF selection,
    text extraction and graph building, skipping an identifier at each dead end.
    Nothing in `main` catches an exception, so a step that raises ends the whole batch. */
module Pipeline {
  import opened Options
  import opened Text
  import opened ESearch
  import opened FileList
  import opened Archive
  import opened PdfText
  import opened KnowledgeGraph

  const OutputDir: string := "pdf_output"

  /** What the outside world answers during one run. `None` marks a step that raises. */
  datatype World = World(
    // lines of the ESearch response
    search: Option<seq<string>>,
    // rows of the local copy of the file list, when that file already exists
    cachedFileList: Option<seq<Row>>,
    // rows of the file list as downloaded when there is no local copy
    remoteFileList: Option<seq<Row>>,
    // whether the language model and the graph store connection are set up without raising
    graphSetup: bool,
    // members of the package at a relative path, once downloaded and opened
    archive: string -> Option<seq<Member>>,
    // pages of the PDF extracted to a path from the package at a relative path
    pages: (string, string) -> Option<seq<Option<string>>>,
    split: Splitter,
    // whether the graph transformer and the upload to the graph store return when handed
    // these chunks; constantly false for the file as written, where the transformer's
    // name is never imported
    graphBuilt: seq<string> -> bool)

  /** What happened to one extracted PDF. */
  datatype PdfOutcome =
    | EmptyText(path: string)
    | GraphBuilt(path: string, chunks: seq<string>)
    | GraphFailed(path: string)
    | ReadFailed(path: string)

  /** What happened to one identifier. */
  datatype IdOutcome =
    | NotInFileList(id: string)
    | DownloadFailed(id: string, package: string)
    | NoPdf(id: string, package: string)
    | PdfsRead(id: string, package: string, pdfs: seq<PdfOutcome>)

  /** What a whole run did. */
  datatype Run =
    | SearchFailed
    | NoArticles
    | FileListFailed(ids: seq<string>)
    | SetupFailed(ids: seq<string>, fileListFetched: bool)
    | Ran(ids: seq<string>, fileListFetched: bool, outcomes: seq<IdOutcome>)

  /** A lookup result that Python treats as true: found, and not the empty string. */
  predicate Truthy(found: Option<string>) {
    found.Some? && found.value != ""
  }

  /** A PDF whose handling raised: its text could not be read, or building or uploading
      its graph failed. */
  predicate Raised(o: PdfOutcome) {
    o.ReadFailed? || o.GraphFailed?
  }

  /** An identifier whose processing raised, which ends the batch. */
  predicate Aborts(o: IdOutcome) {
    || o.DownloadFailed?
    || (o.PdfsRead? && o.pdfs != [] && Raised(o.pdfs[|o.pdfs| - 1]))
  }

  function PdfOutcomeOf(w: World, pkg: string, path: string): PdfOutcome {
    match w.pages(pkg, path)
    case None => ReadFailed(path)
    case Some(pages) =>
      var text := ConcatPages(pages);
      if Blank(text) then EmptyText(path)
      else
        var chunks := ForwardedChunks(text, w.split);
        if w.graphBuilt(chunks) then GraphBuilt(path, chunks) else GraphFailed(path)
  }

  /** The PDFs of one package, in order, up to and including the first whose handling raises. */
  function PdfOutcomesOf(w: World, pkg: string, paths: seq<string>): seq<PdfOutcome> {
    if paths == [] then []
    else
      var o := PdfOutcomeOf(w, pkg, paths[0]);
      if Raised(o) then [o] else [o] + PdfOutcomesOf(w, pkg, paths[1..])
  }

  function IdOutcomeOf(w: World, rows: seq<Row>, id: string): IdOutcome {
    var found := Lookup(rows, id);
    if !Truthy(found) then NotInFileList(id)
    else match w.archive(found.value)
      case None => DownloadFailed(id, found.value)
      case Some(members) =>
        var paths := PdfPaths(members, OutputDir);
        if paths == [] then NoPdf(id, found.value)
        else PdfsRead(id, found.value, PdfOutcomesOf(w, found.value, paths))
  }

  /** The identifiers, in order, up to and including the first whose processing raises. */
  function IdOutcomesOf(w: World, rows: seq<Row>, ids: seq<string>): seq<IdOutcome> {
    if ids == [] then []
    else
      var o := IdOutcomeOf(w, rows, ids[0]);
      if Aborts(o) then [o] else [o] + IdOutcomesOf(w, rows, ids[1..])
  }

  /** The run `main` performs. */
  function RunOf(w: World): (r: Run)
    ensures r.SearchFailed? <==> w.search.None?
    ensures r.NoArticles? <==> w.search.Some? && IdsOf(w.search.value) == []
    ensures r.FileListFailed? <==>
      w.search.Some? && IdsOf(w.search.value) != [] && w.cachedFileList.None? && w.remoteFileList.None?
    ensures r.SetupFailed? <==>
      && w.search.Some? && IdsOf(w.search.value) != []
      && (w.cachedFileList.Some? || w.remoteFileList.Some?) && !w.graphSetup
    ensures r.Ran? ==> r.ids == IdsOf(w.search.value) && r.ids != [] && w.graphSetup
    ensures (r.Ran? || r.SetupFailed?) ==> r.fileListFetched == w.cachedFileList.None?
    ensures r.Ran? ==> r.outcomes == IdOutcomesOf(w, FileListRows(w), r.ids)
  {
    if w.search.None? then SearchFailed
    else
      var ids := IdsOf(w.search.value);
      if ids == [] then NoArticles
      else if w.cachedFileList.None? && w.remoteFileList.None? then FileListFailed(ids)
      else if !w.graphSetup then SetupFailed(ids, w.cachedFileList.None?)
      else Ran(ids, w.cachedFileList.None?, IdOutcomesOf(w, FileListRows(w), ids))
  }

  /** The rows `main` looks identifiers up in: the local copy when there is one, otherwise
      the downloaded list. */
  function FileListRows(w: World): seq<Row>
    requires w.cachedFileList.Some? || w.remoteFileList.Some?
  {
    if w.cachedFileList.Some? then w.cachedFileList.value else w.remoteFileList.value
  }

  /** One outcome per PDF path, in order; every PDF before the last was handled without
      raising, and the list falls short of the paths only when its last PDF raised. */
  lemma {:induction false} PdfOutcomesFollowPaths(w: World, pkg: string, paths: seq<string>)
    ensures var outs := PdfOutcomesOf(w, pkg, paths);
      && |outs| <= |paths|
      && (paths != [] ==> outs != [])
      && (forall k :: 0 <= k < |outs| ==> outs[k] == PdfOutcomeOf(w, pkg, paths[k]))
      && (forall k :: 0 <= k < |outs| - 1 ==> !Raised(outs[k]))
      && (|outs| < |paths| ==> Raised(outs[|outs| - 1]))
  {
    if paths != [] && !Raised(PdfOutcomeOf(w, pkg, paths[0])) {
      PdfOutcomesFollowPaths(w, pkg, paths[1..]);
    }
  }

  /** One outcome per identifier, in order; every identifier before the last went through
      without raising (a skip moves on to the next one), and the batch stops short of the
      identifier list only when its last identifier raised. */
  lemma {:induction false} OutcomesFollowIds(w: World, rows: seq<Row>, ids: seq<string>)
    ensures var outs := IdOutcomesOf(w, rows, ids);
      && |outs| <= |ids|
      && (ids != [] ==> outs != [])
      && (forall k :: 0 <= k < |outs| ==> outs[k] == IdOutcomeOf(w, rows, ids[k]))
      && (forall k :: 0 <= k < |outs| - 1 ==> !Aborts(outs[k]))
      && (|outs| < |ids| ==> Aborts(outs[|outs| - 1]))
  {
    if ids != [] && !Aborts(IdOutcomeOf(w, rows, ids[0])) {
      OutcomesFollowIds(w, rows, ids[1..]);
    }
  }

  /** The skip rules for one identifier: no download unless the lookup result is truthy,
      no text extraction unless the package holds a PDF regular file, and one outcome per
      extracted PDF in archive order. */
  lemma IdOutcomeStages(w: World, rows: seq<Row>, id: string)
    ensures var o := IdOutcomeOf(w, rows, id);
      && o.id == id
      && (o.NotInFileList? <==> !Truthy(Lookup(rows, id)))
      && (!o.NotInFileList? ==> o.package == Lookup(rows, id).value)
      && (o.DownloadFailed? <==> Truthy(Lookup(rows, id)) && w.archive(Lookup(rows, id).value).None?)
      && (o.NoPdf? <==>
            && Truthy(Lookup(rows, id))
            && w.archive(Lookup(rows, id).value).Some?
            && var members := w.archive(Lookup(rows, id).value).value;
               forall i :: 0 <= i < |members| ==> !IsPdfMember(members[i]))
      && (o.PdfsRead? ==>
            && o.pdfs != []
            && |o.pdfs| <= |PdfPaths(w.archive(o.package).value, OutputDir)|
            && forall k :: 0 <= k < |o.pdfs| ==>
                 o.pdfs[k] == PdfOutcomeOf(w, o.package, PdfPaths(w.archive(o.package).value, OutputDir)[k]))
  {
    var found := Lookup(rows, id);
    if Truthy(found) && w.archive(found.value).Some? {
      var members := w.archive(found.value).value;
      NoPdfMemberNoPaths(members, OutputDir);
      PdfOutcomesFollowPaths(w, found.value, PdfPaths(members, OutputDir));
    }
  }

  /** The skip rule for one PDF: whitespace-only text builds nothing, and readable text
      forwards at most twenty chunks, which raises when the graph step does. */
  lemma PdfOutcomeStages(w: World, pkg: string, path: string)
    ensures var o := PdfOutcomeOf(w, pkg, path);
      && o.path == path
      && (o.ReadFailed? <==> w.pages(pkg, path).None?)
      && (o.EmptyText? <==> w.pages(pkg, path).Some? && Blank(ConcatPages(w.pages(pkg, path).value)))
      && (o.GraphBuilt? ==> |o.chunks| <= MaxChunks && !Blank(ConcatPages(w.pages(pkg, path).value)))
      && (o.GraphBuilt? || o.GraphFailed? ==>
            var chunks := ForwardedChunks(ConcatPages(w.pages(pkg, path).value), w.split);
            o.GraphBuilt? <==> w.graphBuilt(chunks))
  {
  }

  /** A search that finds one article listed in the file list, whose package holds one PDF
      with readable text, builds the graph from that PDF's first chunks and nothing else. */
  lemma OneArticleEndToEnd(w: World, v: string, pkg: string, name: string, pages: seq<Option<string>>)
    requires '<' !in v && HasPrefix(v)
    requires w.search == Some(["  <Id>" + v + "</Id>"])
    requires w.cachedFileList.Some? && |w.cachedFileList.value| == 2 && w.graphSetup
    requires Matches(w.cachedFileList.value[1], v) && w.cachedFileList.value[1][PathColumn] == pkg && pkg != ""
    requires w.archive(pkg) == Some([Member(name, true)]) && EndsWith(Lower(name), PdfSuffix)
    requires w.pages(pkg, JoinPath(OutputDir, name)) == Some(pages) && !Blank(ConcatPages(pages))
    requires w.graphBuilt(ForwardedChunks(ConcatPages(pages), w.split))
    ensures RunOf(w) == Ran([v], false,
      [PdfsRead(v, pkg, [GraphBuilt(JoinPath(OutputDir, name), ForwardedChunks(ConcatPages(pages), w.split))])])
  {
    var built := GraphBuilt(JoinPath(OutputDir, name), ForwardedChunks(ConcatPages(pages), w.split));
    assert IdsOf(w.search.value) == [v] by {
      IndentedIdLine(v);
    }
    assert IdOutcomesOf(w, w.cachedFileList.value, [v]) == [PdfsRead(v, pkg, [built])] by {
      OneReadableListedPdf(w, w.cachedFileList.value, v, pkg, name, pages);
    }
    RanOnCachedList(w, [v], [PdfsRead(v, pkg, [built])]);
  }

  /** With identifiers found, a local file list and the graph set up, the run reads the
      identifiers against the local list. */
  lemma RanOnCachedList(w: World, ids: seq<string>, outs: seq<IdOutcome>)
    requires w.search.Some? && IdsOf(w.search.value) == ids && ids != []
    requires w.cachedFileList.Some? && w.graphSetup
    requires IdOutcomesOf(w, w.cachedFileList.value, ids) == outs
    ensures RunOf(w) == Ran(ids, false, outs)
  {
  }

  /** The batch of the one identifier of the second row of a two-row file list, whose
      package holds one PDF with readable text, builds the graph from that PDF. */
  lemma OneReadableListedPdf(w: World, rows: seq<Row>, v: string, pkg: string, name: string,
                             pages: seq<Option<string>>)
    requires |rows| == 2 && Matches(rows[1], v) && rows[1][PathColumn] == pkg && pkg != ""
    requires w.archive(pkg) == Some([Member(name, true)]) && EndsWith(Lower(name), PdfSuffix)
    requires w.pages(pkg, JoinPath(OutputDir, name)) == Some(pages) && !Blank(ConcatPages(pages))
    requires w.graphBuilt(ForwardedChunks(ConcatPages(pages), w.split))
    ensures IdOutcomesOf(w, rows, [v]) ==
      [PdfsRead(v, pkg, [GraphBuilt(JoinPath(OutputDir, name), ForwardedChunks(ConcatPages(pages), w.split))])]
  {
    var path := JoinPath(OutputDir, name);
    var built := GraphBuilt(path, ForwardedChunks(ConcatPages(pages), w.split));
    ReadablePdf(w, pkg, path, pages);
    OneListedPackage(w, rows, v, pkg, name, built);
    OneIdentifier(w, rows, v, PdfsRead(v, pkg, [built]));
  }

  /** A single readable PDF whose graph step returns builds the graph. */
  lemma ReadablePdf(w: World, pkg: string, path: string, pages: seq<Option<string>>)
    requires w.pages(pkg, path) == Some(pages) && !Blank(ConcatPages(pages))
    requires w.graphBuilt(ForwardedChunks(ConcatPages(pages), w.split))
    ensures PdfOutcomesOf(w, pkg, [path]) == [GraphBuilt(path, ForwardedChunks(ConcatPages(pages), w.split))]
  {
    var none: seq<string> := [];
    assert [path][1..] == none;
  }

  /** A batch of one identifier has that identifier's outcome alone. */
  lemma OneIdentifier(w: World, rows: seq<Row>, id: string, o: IdOutcome)
    requires IdOutcomeOf(w, rows, id) == o
    ensures IdOutcomesOf(w, rows, [id]) == [o]
  {
    var none: seq<string> := [];
    assert [id][1..] == none;
  }

  /** The identifier of the second row of a two-row file list whose package holds one PDF
      is read from that PDF alone. */
  lemma OneListedPackage(w: World, rows: seq<Row>, id: string, pkg: string, name: string, built: PdfOutcome)
    requires |rows| == 2
    requires Matches(rows[1], id) && rows[1][PathColumn] == pkg && pkg != ""
    requires w.archive(pkg) == Some([Member(name, true)]) && EndsWith(Lower(name), PdfSuffix)
    requires PdfOutcomesOf(w, pkg, [JoinPath(OutputDir, name)]) == [built]
    ensures IdOutcomeOf(w, rows, id) == PdfsRead(id, pkg, [built])
  {
    LookupFindsEarliest(rows, id, 1);
    SinglePdfMember(name, OutputDir);
  }

  /** The file as written (no graph step ever returns): a PDF never builds a graph. */
  lemma AsWrittenPdfOutcome(w: World, pkg: string, path: string)
    requires forall chunks :: !w.graphBuilt(chunks)
    ensures !PdfOutcomeOf(w, pkg, path).GraphBuilt?
  {
    if w.pages(pkg, path).Some? {
      var text := ConcatPages(w.pages(pkg, path).value);
      assert !w.graphBuilt(ForwardedChunks(text, w.split));
    }
  }

  /** The file as written: an identifier builds no graph, and when it lets the batch go on,
      every PDF it read was whitespace only. */
  lemma AsWrittenIdOutcome(w: World, rows: seq<Row>, id: string)
    requires forall chunks :: !w.graphBuilt(chunks)
    ensures var o := IdOutcomeOf(w, rows, id);
      && (o.PdfsRead? ==> forall j :: 0 <= j < |o.pdfs| ==> !o.pdfs[j].GraphBuilt?)
      && (o.PdfsRead? && !Aborts(o) ==> forall j :: 0 <= j < |o.pdfs| ==> o.pdfs[j].EmptyText?)
  {
    var o := IdOutcomeOf(w, rows, id);
    if o.PdfsRead? {
      var pkg := o.package;
      var paths := PdfPaths(w.archive(pkg).value, OutputDir);
      assert o.pdfs == PdfOutcomesOf(w, pkg, paths);
      PdfOutcomesFollowPaths(w, pkg, paths);
      forall j | 0 <= j < |o.pdfs| ensures !o.pdfs[j].GraphBuilt? {
        AsWrittenPdfOutcome(w, pkg, paths[j]);
      }
      if !Aborts(o) {
        assert !Raised(o.pdfs[|o.pdfs| - 1]);
        forall j | 0 <= j < |o.pdfs| ensures o.pdfs[j].EmptyText? {
          assert !Raised(o.pdfs[j]) && !o.pdfs[j].GraphBuilt?;
        }
      }
    }
  }

  /** The file as written: no identifier builds a graph, and the batch gets past an
      identifier only when every PDF it read was whitespace only, so it ends at the first
      PDF with readable text. */
  lemma AsWrittenEndsAtFirstReadablePdf(w: World, rows: seq<Row>, ids: seq<string>)
    requires forall chunks :: !w.graphBuilt(chunks)
    ensures var outs := IdOutcomesOf(w, rows, ids);
      forall k :: 0 <= k < |outs| && outs[k].PdfsRead? ==>
        forall j :: 0 <= j < |outs[k].pdfs| ==> !outs[k].pdfs[j].GraphBuilt?
    ensures var outs := IdOutcomesOf(w, rows, ids);
      forall k :: 0 <= k < |outs| - 1 && outs[k].PdfsRead? ==>
        forall j :: 0 <= j < |outs[k].pdfs| ==> outs[k].pdfs[j].EmptyText?
  {
    var outs := IdOutcomesOf(w, rows, ids);
    OutcomesFollowIds(w, rows, ids);
    forall k | 0 <= k < |outs|
      ensures outs[k].PdfsRead? ==> forall j :: 0 <= j < |outs[k].pdfs| ==> !outs[k].pdfs[j].GraphBuilt?
      ensures k < |outs| - 1 && outs[k].PdfsRead? ==>
        forall j :: 0 <= j < |outs[k].pdfs| ==> outs[k].pdfs[j].EmptyText?
    {
      AsWrittenIdOutcome(w, rows, ids[k]);
    }
  }

  /** `main`'s handling of one extracted PDF: read its text, skip it when the text is
      whitespace only, otherwise build the graph from it, which may raise. */
  method ProcessPdf(w: World, pkg: string, path: string) returns (r: PdfOutcome)
    ensures r == PdfOutcomeOf(w, pkg, path)
  {
    var pages := w.pages(pkg, path);
    if pages.None? {
      return ReadFailed(path);
    }
    var text := ExtractText(pages.value);
    BlankIsStripEmpty(text);
    if Strip(text) == [] {
      r := EmptyText(path);
    } else {
      var chunks := ForwardedChunks(text, w.split);
      if w.graphBuilt(chunks) {
        r := GraphBuilt(path, chunks);
      } else {
        r := GraphFailed(path);
      }
    }
  }

  /** `main`'s inner loop over the PDFs of one package, in order, until the handling of one
      raises. */
  method ProcessPdfs(w: World, pkg: string, paths: seq<string>) returns (results: seq<PdfOutcome>)
    ensures results == PdfOutcomesOf(w, pkg, paths)
  {
    results := [];
    var stopped := false;
    var j := 0;
    while j < |paths| && !stopped
      invariant 0 <= j <= |paths|
      invariant !stopped ==> results + PdfOutcomesOf(w, pkg, paths[j..]) == PdfOutcomesOf(w, pkg, paths)
      invariant stopped ==> results == PdfOutcomesOf(w, pkg, paths)
    {
      var r := ProcessPdf(w, pkg, paths[j]);
      assert PdfOutcomesOf(w, pkg, paths[j..])
          == if Raised(r) then [r] else [r] + PdfOutcomesOf(w, pkg, paths[j + 1..]) by {
        assert paths[j..][0] == paths[j] && paths[j..][1..] == paths[j + 1..];
      }
      results := results + [r];
      stopped := Raised(r);
      j := j + 1;
    }
  }

  /** `main`'s per-identifier body: look the identifier up, skip it when the result is falsy,
      download and open its package, skip it when no PDF is extracted, then read each PDF in
      turn, skipping whitespace-only text and building the graph from the rest. */
  method ProcessArticle(w: World, rows: seq<Row>, id: string) returns (o: IdOutcome)
    ensures o == IdOutcomeOf(w, rows, id)
  {
    var found := FindArchivePath(rows, id);
    if found.None? || found.value == "" {
      return NotInFileList(id);
    }
    var pkg := found.value;
    var members := w.archive(pkg);
    if members.None? {
      return DownloadFailed(id, pkg);
    }
    var paths := ExtractPdfs(members.value, OutputDir);
    if paths == [] {
      return NoPdf(id, pkg);
    }
    var results := ProcessPdfs(w, pkg, paths);
    o := PdfsRead(id, pkg, results);
  }

  /** `main`'s loop over the identifiers, in order, until the processing of one raises. */
  method ProcessArticles(w: World, rows: seq<Row>, ids: seq<string>) returns (outcomes: seq<IdOutcome>)
    ensures outcomes == IdOutcomesOf(w, rows, ids)
  {
    outcomes := [];
    var stopped := false;
    var i := 0;
    while i < |ids| && !stopped
      invariant 0 <= i <= |ids|
      invariant !stopped ==> outcomes + IdOutcomesOf(w, rows, ids[i..]) == IdOutcomesOf(w, rows, ids)
      invariant stopped ==> outcomes == IdOutcomesOf(w, rows, ids)
    {
      var o := ProcessArticle(w, rows, ids[i]);
      assert IdOutcomesOf(w, rows, ids[i..])
          == if Aborts(o) then [o] else [o] + IdOutcomesOf(w, rows, ids[i + 1..]) by {
        assert ids[i..][0] == ids[i] && ids[i..][1..] == ids[i + 1..];
      }
      outcomes := outcomes + [o];
      stopped := Aborts(o);
      i := i + 1;
    }
  }

  /** `main`: one search, an early end when it finds nothing, the file list from its local
      copy or else downloaded, the model and graph store set up, then every identifier in
      order until one raises. */
  method RunPipeline(w: World) returns (r: Run)
    ensures r == RunOf(w)
  {
    if w.search.None? {
      return SearchFailed;
    }
    var ids := ParseIds(w.search.value);
    if ids == [] {
      return NoArticles;
    }
    var fetched := w.cachedFileList.None?;
    var rows: seq<Row>;
    if !fetched {
      rows := w.cachedFileList.value;
    } else if w.remoteFileList.None? {
      return FileListFailed(ids);
    } else {
      rows := w.remoteFileList.value;
    }
    if !w.graphSetup {
      return SetupFailed(ids, fetched);
    }
    var outcomes := ProcessArticles(w, rows, ids);
    r := Ran(ids, fetched, outcomes);
  }
}
