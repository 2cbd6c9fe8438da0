# PMC search-to-knowledge-graph pipeline, modelled in Dafny

This project models the decision logic of `pmc_search_and_download_pdf.py`. That script:

- searches PubMed Central (PMC) through the NCBI E-utilities ESearch service;
- looks each PMC identifier up in the PMC open-access file list;
- downloads the article's `.tar.gz` package and extracts its PDF files;
- reads each PDF's text;
- hands the text, split into chunks, to a knowledge-graph builder.

Every outside service becomes an input value:

- the ESearch response is its list of lines;
- the file list is its CSV rows;
- a package is its tar members, as name and is-regular-file;
- a PDF is its pages, each with some text or `None`;
- the text splitter is an opaque function;
- the graph step (the `LLMGraphTransformer` conversion and the Neo4j upload) is a predicate on the forwarded chunks, true when both return.

A step that raises is an input marked `None` (or `false`). The file as written raises at the graph step on every call (see Findings), which is the graph-step predicate that is constantly false.

The modules follow the script's steps:

- `ESearch` (step A): the identifier-parsing loop and the `PMC` normalisation.
- `FileList` (step B): the first-match lookup in the file list.
- `Archive` (step C): the member filter of the tar extraction.
- `PdfText` (step D): page-text concatenation.
- `KnowledgeGraph` (step D): the blank-text guard and the twenty-chunk cap.
- `Pipeline`: the control flow of `main`.

Three helper modules serve them. `Options` holds the optional value. `Seqs` holds order-preserving filtering with its lemmas. `Text` models Python's `strip`, `isspace`, `startswith`/`endswith`, `upper`/`lower` and `replace(pat, "")`.

Each loop of the script is a method. It is proved equal to a specification function, and the listed properties are lemmas about those functions.

`main` catches no exception, so the model does not recover from errors:

- a failed search, a failed file-list download or a failed model and graph-store setup ends the run;
- a failed package download, a package that cannot be opened or extracted, a PDF that cannot be read, or a graph build or upload that raises ends the batch;
- the identifiers after that are never processed.

The only skips are these: a falsy lookup result (none, or an empty path), a package without a PDF, and whitespace-only text.

Some behaviours of the code are easy to miss, and the model keeps them:

- `main` has no `try`/`except`, so the first step that raises ends the batch.
- `get_llm` and `build_neo4j_connection` run only after the search and the file-list step. A setup failure therefore ends the run only once an identifier has been found and the file list is at hand.
- Column 2 of a file-list row is compared with the identifier after `strip()`.
- A line is kept only when its stripped form starts with `<Id>` and ends with `</Id>`, and then every tag on it is deleted. Two tagged values on one line therefore become one identifier.

## Model

| member | source | states |
|---|---|---|
| `ESearch.ParseIds` | pmc_search_and_download_pdf.py:78-87 | The loop returns exactly the identifiers of the response's identifier lines, in line order, and every one carries the `PMC` prefix in some case |
| `ESearch.IdsFromIdLines` | pmc_search_and_download_pdf.py:79-85 | Each identifier comes from one line whose stripped form starts with `<Id>` and ends with `</Id>`. Source lines strictly increase, every such line yields one identifier, and all identifiers are `PMC`-prefixed |
| `ESearch.IdsOfAppend` | pmc_search_and_download_pdf.py:79-85 | The identifiers of two consecutive stretches of lines are those of the first followed by those of the second |
| `ESearch.IdsOfOneLine` | pmc_search_and_download_pdf.py:79-85 | A one-line response yields that line's value when it is an identifier line, and nothing otherwise |
| `ESearch.Normalise` | pmc_search_and_download_pdf.py:83-84 | The result starts with `PMC` in some case; a value already so prefixed is unchanged, any other gets `PMC` in front |
| `ESearch.NormaliseIdempotent` | pmc_search_and_download_pdf.py:83-84 | Normalising twice equals normalising once |
| `ESearch.TaggedLine` | pmc_search_and_download_pdf.py:80-81 | Any text wrapped in `<Id>`…`</Id>` is an identifier line and is unchanged by stripping |
| `ESearch.WrappedValue` | pmc_search_and_download_pdf.py:80-84 | A value without `<` wrapped in the tags is read back as that value, normalised |
| `ESearch.IndentedIdLine` | pmc_search_and_download_pdf.py:79-85 | An indented line `  <Id>v</Id>`, with `v` `PMC`-prefixed and free of `<`, yields exactly `[v]` |
| `ESearch.CloseTagSurvivesOpenRemoval` | pmc_search_and_download_pdf.py:82 | Deleting `<Id>` does not touch a `</Id>` |
| `ESearch.TwoValuesJoined` | pmc_search_and_download_pdf.py:82 | Deleting both tags from `<Id>a</Id><Id>b</Id>` leaves `ab` |
| `ESearch.TwoValuesOnOneLine` | pmc_search_and_download_pdf.py:79-85 | A line holding two tagged values yields one identifier, the normalised concatenation of the two values |
| `Text.Strip` | pmc_search_and_download_pdf.py:80 | The result is the slice of the input left after whitespace at both ends is removed. It neither starts nor ends with whitespace, and it is empty exactly when the input is all whitespace |
| `Text.StripIndented` | pmc_search_and_download_pdf.py:80 | Whitespace in front of a text not starting with whitespace does not change the stripped result |
| `Text.BlankIsStripEmpty` | pmc_search_and_download_pdf.py:250 | `not text.strip()` holds exactly when every character of the text is whitespace, the empty text included |
| `FileList.FindArchivePath` | pmc_search_and_download_pdf.py:115-126 | The scan answers the lookup: when it finds something, the answer is column 0 of some row after the first whose stripped column 2 equals the identifier |
| `FileList.LookupFindsEarliest` | pmc_search_and_download_pdf.py:120-125 | The earliest matching row after the first decides the answer |
| `FileList.LookupNotFound` | pmc_search_and_download_pdf.py:115-126 | The answer is `None` exactly when no row after the first matches; rows with fewer than three columns never match |
| `FileList.HeaderSkipped` | pmc_search_and_download_pdf.py:118 | The first row is never consulted: replacing it by any other row, matching or not, leaves the answer unchanged, and a file list holding only a matching first row gives `None` |
| `FileList.LookupIgnoresLaterRows` | pmc_search_and_download_pdf.py:123-125 | Once a match exists, appending rows (later duplicates included) does not change the answer |
| `Archive.ExtractPdfs` | pmc_search_and_download_pdf.py:147-155 | The member loop returns the PDF paths of the members; there are never more paths than members |
| `Archive.PdfPathsFromMembers` | pmc_search_and_download_pdf.py:149-154 | Each path is one regular-file member with a `.pdf` name suffix in lower case, joined to the output directory. The paths follow archive order, and every such member yields a path |
| `Archive.NoPdfMemberNoPaths` | pmc_search_and_download_pdf.py:147-155 | The result is empty exactly when no member is a PDF regular file |
| `Archive.SinglePdfMember` | pmc_search_and_download_pdf.py:149-154 | A package whose single member is a PDF regular file yields that member's joined path alone |
| `Archive.SuffixCaseAndKind` | pmc_search_and_download_pdf.py:150 | `.PDF` and `.Pdf` names are chosen; a directory named `.pdf` is not |
| `Archive.JoinPath` | pmc_search_and_download_pdf.py:153 | `os.path.join` on POSIX. An absolute member name is the result alone. Otherwise the result is the directory followed by the name, with one `/` between them when the directory is non-empty and does not already end in `/` |
| `PdfText.ExtractText` | pmc_search_and_download_pdf.py:165-170 | The loop returns the in-order concatenation of the page texts, a page without text giving `""` |
| `PdfText.ConcatPagesAppend` | pmc_search_and_download_pdf.py:168-169 | The text of two consecutive runs of pages is the first's text followed by the second's |
| `PdfText.PageTextAt` | pmc_search_and_download_pdf.py:168-169 | Page `k`'s text appears in the result right after the text of the pages before it |
| `PdfText.MissingPageContributesNothing` | pmc_search_and_download_pdf.py:169 | A page without text leaves the result equal to the text of the other pages |
| `KnowledgeGraph.ForwardedChunks` | pmc_search_and_download_pdf.py:174-185 | Nothing is forwarded for empty or whitespace-only text. Otherwise the first `min(n, 20)` of the splitter's `n` chunks are forwarded, in splitter order |
| `KnowledgeGraph.BuildKgAsWritten` | pmc_search_and_download_pdf.py:172-185 | As written, the function returns normally exactly on blank text; on any other text it raises |
| `KnowledgeGraph.AsWrittenRaisesOnReadableText` | pmc_search_and_download_pdf.py:183 | On `"Hello world. "`, the function as written raises where the corrected one forwards the splitter's first chunk |
| `Pipeline.RunOf` | pmc_search_and_download_pdf.py:210-252 | A run ends at a failed search, an empty identifier list, a failed file-list step or a failed setup, exactly when each occurs. Otherwise it processes the search's identifiers against the cached rows or else the downloaded ones, and records whether the list was downloaded |
| `Pipeline.RunPipeline` | pmc_search_and_download_pdf.py:210-252 | `main`'s control flow produces the run `RunOf` describes |
| `Pipeline.ProcessArticles` | pmc_search_and_download_pdf.py:227-252 | The loop over identifiers yields one outcome per identifier, in order, until one raises |
| `Pipeline.ProcessArticle` | pmc_search_and_download_pdf.py:229-252 | One identifier's lookup, download, PDF selection and per-PDF handling produce its specified outcome |
| `Pipeline.ProcessPdfs` | pmc_search_and_download_pdf.py:247-255 | The loop over one package's PDFs yields one outcome per PDF, in order, until one cannot be read or its graph step raises |
| `Pipeline.ProcessPdf` | pmc_search_and_download_pdf.py:248-255 | One PDF is read, skipped when its text is whitespace only, and otherwise passed to graph building, which either returns or raises |
| `Pipeline.OutcomesFollowIds` | pmc_search_and_download_pdf.py:227-255 | There is at most one outcome per identifier, and each is that identifier's own outcome. Every identifier before the last went through without raising, so a skip moves on. The batch stops short only when its last identifier raised: its download failed, or its last PDF could not be read or its graph step raised |
| `Pipeline.PdfOutcomesFollowPaths` | pmc_search_and_download_pdf.py:247-255 | The same for the PDFs of one package: every PDF before the last was read and its graph step, if reached, returned. The list stops short only at a PDF that could not be read or whose graph step raised |
| `Pipeline.IdOutcomeStages` | pmc_search_and_download_pdf.py:229-247 | No download without a truthy lookup result. No text extraction when the package holds no PDF regular file. When PDFs are read, there is one outcome per extracted PDF, in order |
| `Pipeline.PdfOutcomeStages` | pmc_search_and_download_pdf.py:248-255 | An unreadable PDF raises. Whitespace-only text builds nothing. Readable text forwards at most twenty chunks, and the graph is built exactly when the graph step returns on those chunks |
| `Pipeline.ReadablePdf` | pmc_search_and_download_pdf.py:247-255 | A single readable PDF whose graph step returns builds the graph from its first chunks |
| `Pipeline.OneIdentifier` | pmc_search_and_download_pdf.py:227-229 | A batch of one identifier has that identifier's outcome alone |
| `Pipeline.OneListedPackage` | pmc_search_and_download_pdf.py:229-247 | An identifier listed in the second row, whose package holds one PDF, is read from that PDF alone |
| `Pipeline.OneReadableListedPdf` | pmc_search_and_download_pdf.py:227-255 | An identifier listed in the second row, whose package holds one readable PDF whose graph step returns, builds the graph from that PDF's first chunks |
| `Pipeline.OneArticleEndToEnd` | pmc_search_and_download_pdf.py:210-255 | A search finding one listed article whose package holds one readable PDF, with a graph step that returns, gives exactly one outcome. That outcome builds the graph from that PDF's first chunks |
| `Pipeline.AsWrittenPdfOutcome` | pmc_search_and_download_pdf.py:249-255 | With the graph step raising on every input, as `LLMGraphTransformer` on line 183 does in the file as written, no PDF builds a graph |
| `Pipeline.AsWrittenIdOutcome` | pmc_search_and_download_pdf.py:247-255 | With the graph step always raising, an identifier builds no graph, and an identifier that lets the batch go on read only whitespace-only PDFs |
| `Pipeline.AsWrittenEndsAtFirstReadablePdf` | pmc_search_and_download_pdf.py:227-255 | With the graph step always raising, no outcome of the batch builds a graph, and every identifier before the last read only whitespace-only PDFs: the batch ends at the first identifier with a readable PDF |

## Left out

- HTTP requests, streaming downloads and file writes (the ESearch request, `ensure_file_list_downloaded`, `download_file`). Their results are inputs, and each failure is `None`.
- The internals of `csv.reader`, `tarfile` and `PyPDF2`. The model receives their output: rows, members as name and is-regular-file, and pages as text or `None`.
- `str.splitlines` on the ESearch response. The response arrives already split into lines.
- `tar.extract` writing a member to disk, and `os.makedirs` for the output directory. Only the chosen paths are modelled.
- `os.path.join` for the download URL, and the local package file name.
- `RecursiveCharacterTextSplitter`: an opaque function of the text, the chunk size and the overlap. No claim is made about chunk sizes or overlaps.
- `get_llm` and `build_neo4j_connection`, including the `KeyError` when `NEO4J_URI` or `NEO4J_PASSWORD` is unset. They are one input flag saying whether setup returns.
- The graph documents the transformer produces and what the upload sends to Neo4j. The model forwards the chunks and records only whether the graph step returns or raises.
- Console output from `print`.
- Text.Upper, Text.Lower: only ASCII letters change case, where Python's `upper` and `lower` follow full Unicode case mapping (`ß` upper-cases to `SS`). The two tests built on them give Python's answer on every string all the same: no character other than `p`, `m` and `c` (in either case) upper-cases to something that starts with `P`, `M` or `C`, and no character other than `p`, `d`, `f` and `.` lower-cases to something that ends in one of them. So `ESearch.HasPrefix` and `Archive.IsPdfMember` do not depend on this.
- Pipeline.ReadablePdf, Pipeline.OneReadableListedPdf, Pipeline.OneArticleEndToEnd: they describe the corrected `build_kg_from_text` (see Findings), with a graph step that returns. The other `Pipeline` members hold for any graph step, the file as written included, and the `Pipeline.AsWritten` lemmas state what the constantly raising graph step of the file as written leads to.

## Findings

| source | as written | input that shows it | evidently intended | confidence | as-written member | corrected member |
|---|---|---|---|---|---|---|
| pmc_search_and_download_pdf.py:183 | `LLMGraphTransformer` is used but imported nowhere in the file, so every non-blank text raises `NameError` before any chunk is forwarded | text `"Hello world. "` with a splitter that yields at least one chunk | the graph transformer is imported and receives the splitter's first twenty chunks | not executed | `KnowledgeGraph.AsWrittenRaisesOnReadableText`, `Pipeline.AsWrittenEndsAtFirstReadablePdf` | `KnowledgeGraph.ForwardedChunks` |
