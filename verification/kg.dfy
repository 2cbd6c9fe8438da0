/** Step D, second half: what `build_kg_from_text` hands to the graph transformer.
    The text splitter, the language model and the graph store are not modelled: the splitter
    is an opaque function of the text, the chunk size and the overlap, returning its chunks
    in order, and the model stops at the chunks forwarded to the transformer. */
module KnowledgeGraph {
  import opened Options
  import opened Text

  const ChunkSize: nat := 250
  const ChunkOverlap: nat := 24
  const MaxChunks: nat := 20

  /** A text splitter called as `splitter(text, chunk_size, chunk_overlap)`. */
  type Splitter = (string, nat, nat) -> seq<string>

  function Min(a: nat, b: nat): nat {
    if a <= b then a else b
  }

  /** The chunks `build_kg_from_text` forwards once the transformer it names is available:
      none for empty or whitespace-only text, otherwise the first twenty chunks of the
      splitter's output in the splitter's order. */
  function ForwardedChunks(text: string, split: Splitter): (r: seq<string>)
    ensures |r| <= MaxChunks
    ensures Blank(text) ==> r == []
    ensures !Blank(text) ==> |r| == Min(|split(text, ChunkSize, ChunkOverlap)|, MaxChunks)
    ensures !Blank(text) ==> r == split(text, ChunkSize, ChunkOverlap)[..|r|]
  {
    if Blank(text) then []
    else
      var chunks := split(text, ChunkSize, ChunkOverlap);
      chunks[..Min(|chunks|, MaxChunks)]
  }

  /** `build_kg_from_text` as the file has it: past the guard, the splitter runs and then the
      name `LLMGraphTransformer` is looked up; it is imported nowhere, so `NameError` is raised
      before any chunk is forwarded. `None` stands for that error, `Some([])` for the early
      return on blank text. */
  function BuildKgAsWritten(text: string, split: Splitter): (r: Option<seq<string>>)
    ensures r.Some? <==> Blank(text)
    ensures r.Some? ==> r.value == ForwardedChunks(text, split)
  {
    if Blank(text) then Some([]) else None
  }

  /** Readable text makes the function as written raise, where the evidently intended one
      forwards the splitter's chunks, starting with its first. */
  lemma AsWrittenRaisesOnReadableText(split: Splitter)
    requires split("Hello world. ", ChunkSize, ChunkOverlap) != []
    ensures BuildKgAsWritten("Hello world. ", split) == None
    ensures ForwardedChunks("Hello world. ", split) != []
    ensures ForwardedChunks("Hello world. ", split)[0] == split("Hello world. ", ChunkSize, ChunkOverlap)[0]
  {
    assert !IsSpace("Hello world. "[0]);
  }
}
