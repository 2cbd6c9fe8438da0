/** Step D, first half: the text of a PDF. Parsing the PDF is not modelled: the extractor
    receives, per page in order, the page's text or `None` when the page yields none. */
module PdfText {
  import opened Options

  /** `page.extract_text() or ""`. */
  function PageText(page: Option<string>): string {
    if page.Some? then page.value else ""
  }

  /** The texts of the pages, concatenated in page order. */
  function ConcatPages(pages: seq<Option<string>>): string {
    if pages == [] then ""
    else ConcatPages(pages[..|pages| - 1]) + PageText(pages[|pages| - 1])
  }

  /** Concatenation distributes over consecutive runs of pages. */
  lemma {:induction false} ConcatPagesAppend(a: seq<Option<string>>, b: seq<Option<string>>)
    ensures ConcatPages(a + b) == ConcatPages(a) + ConcatPages(b)
    decreases |b|
  {
    if b == [] {
      assert a + b == a;
    } else {
      var b', last := b[..|b| - 1], b[|b| - 1];
      calc {
        ConcatPages(a + b);
        { assert (a + b)[..|a + b| - 1] == a + b' && (a + b)[|a + b| - 1] == last; }
        ConcatPages(a + b') + PageText(last);
        { ConcatPagesAppend(a, b'); }
        (ConcatPages(a) + ConcatPages(b')) + PageText(last);
        ConcatPages(a) + (ConcatPages(b') + PageText(last));
        ConcatPages(a) + ConcatPages(b);
      }
    }
  }

  /** Page `k`'s text sits in the result right after the text of the pages before it. */
  lemma PageTextAt(pages: seq<Option<string>>, k: nat)
    requires k < |pages|
    ensures var at := |ConcatPages(pages[..k])|;
      && at + |PageText(pages[k])| <= |ConcatPages(pages)|
      && ConcatPages(pages)[at..at + |PageText(pages[k])|] == PageText(pages[k])
  {
    assert pages == pages[..k] + [pages[k]] + pages[k + 1..];
    ConcatPagesAppend(pages[..k] + [pages[k]], pages[k + 1..]);
    ConcatPagesAppend(pages[..k], [pages[k]]);
    assert ConcatPages([pages[k]]) == PageText(pages[k]) by {
      assert [pages[k]][..0] == [];
    }
  }

  /** A page without text contributes nothing: the result is the text of the other pages. */
  lemma MissingPageContributesNothing(a: seq<Option<string>>, b: seq<Option<string>>)
    ensures ConcatPages(a + [None] + b) == ConcatPages(a + b)
  {
    assert ConcatPages(a + [None]) == ConcatPages(a) by {
      assert (a + [None])[..|a|] == a;
    }
    ConcatPagesAppend(a + [None], b);
    ConcatPagesAppend(a, b);
  }

  /** `extract_text_from_pdf`: appends each page's text, or `""`, to the result. */
  method ExtractText(pages: seq<Option<string>>) returns (text: string)
    ensures text == ConcatPages(pages)
  {
    text := "";
    for i := 0 to |pages|
      invariant text == ConcatPages(pages[..i])
    {
      assert pages[..i + 1][..i] == pages[..i];
      text := text + (if pages[i].Some? then pages[i].value else "");
    }
    assert pages[..|pages|] == pages;
  }
}
