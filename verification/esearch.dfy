/** Step A: reading PMC identifiers out of an E-utilities ESearch XML response.
    The HTTP request is not modelled; the response arrives as its list of lines. */
module ESearch {
  import opened Text
  import opened Seqs

  const IdOpen: string := "<Id>"
  const IdClose: string := "</Id>"
  const Prefix: string := "PMC"

  /** `s.upper().startswith("PMC")`. */
  predicate HasPrefix(s: string) {
    StartsWith(Upper(s), Prefix)
  }

  /** Canonical identifier: `PMC` is put in front unless some case of it is already there. */
  function Normalise(raw: string): (id: string)
    ensures HasPrefix(id)
    ensures HasPrefix(raw) ==> id == raw
    ensures !HasPrefix(raw) ==> id == Prefix + raw
  {
    if HasPrefix(raw) then raw else Prefix + raw
  }

  /** Normalising an identifier twice gives what normalising it once gives. */
  lemma NormaliseIdempotent(raw: string)
    ensures Normalise(Normalise(raw)) == Normalise(raw)
  {
  }

  /** A line that, once stripped, starts with `<Id>` and ends with `</Id>`. */
  predicate IsIdLine(line: string) {
    var t := Strip(line);
    StartsWith(t, IdOpen) && EndsWith(t, IdClose)
  }

  /** The stripped line with every `<Id>` and then every `</Id>` deleted, normalised. */
  function IdValue(line: string): string {
    Normalise(RemoveAll(RemoveAll(Strip(line), IdOpen), IdClose))
  }

  /** The identifiers of a response: one per identifier line, in line order. */
  function IdsOf(lines: seq<string>): seq<string> {
    FilterMap(IsIdLine, IdValue, lines)
  }

  /** Each identifier comes from exactly one identifier line, in the order of the lines,
      every identifier line gives one, and every identifier carries the `PMC` prefix. */
  lemma IdsFromIdLines(lines: seq<string>) returns (src: seq<nat>)
    ensures |src| == |IdsOf(lines)|
    ensures forall k :: 0 <= k < |src| ==>
      src[k] < |lines| && IsIdLine(lines[src[k]]) && IdsOf(lines)[k] == IdValue(lines[src[k]])
    ensures forall k, l :: 0 <= k < l < |src| ==> src[k] < src[l]
    ensures forall i :: 0 <= i < |lines| && IsIdLine(lines[i]) ==> i in src
    ensures forall k :: 0 <= k < |IdsOf(lines)| ==> HasPrefix(IdsOf(lines)[k])
  {
    src := FilterMapSources(IsIdLine, IdValue, lines);
  }

  /** Identifiers of two consecutive stretches of a response are those of the first
      followed by those of the second. */
  lemma IdsOfAppend(a: seq<string>, b: seq<string>)
    ensures IdsOf(a + b) == IdsOf(a) + IdsOf(b)
  {
    FilterMapAppend(IsIdLine, IdValue, a, b);
  }

  /** Whatever stands between the tags, the tagged text is an identifier line and is its
      own stripped form. */
  lemma TaggedLine(v: string)
    ensures Strip(IdOpen + v + IdClose) == IdOpen + v + IdClose
    ensures IsIdLine(IdOpen + v + IdClose)
    ensures IdValue(IdOpen + v + IdClose)
         == Normalise(RemoveAll(RemoveAll(IdOpen + v + IdClose, IdOpen), IdClose))
  {
    var line := IdOpen + v + IdClose;
    StripTrimmed(line);
    assert line[..|IdOpen|] == IdOpen;
    assert line[|line| - |IdClose|..] == IdClose;
  }

  /** Deleting the opening tags leaves a value without `<` and its closing tag alone. */
  lemma OpenRemovalKeepsValue(v: string)
    requires '<' !in v
    ensures RemoveAll(v + IdClose, IdOpen) == v + IdClose
  {
    RemoveAllKeepsHead(v, IdClose, IdOpen);
    CloseTagSurvivesOpenRemoval([]);
    assert IdClose + [] == IdClose;
  }

  /** Deleting the closing tags from a value without `<` and its closing tag leaves the value. */
  lemma CloseRemovalLeavesValue(v: string)
    requires '<' !in v
    ensures RemoveAll(v + IdClose, IdClose) == v
  {
    RemoveAllKeepsHead(v, IdClose, IdClose);
    RemoveAllLeading(IdClose, []);
    assert IdClose + [] == IdClose;
    assert v + [] == v;
  }

  /** A value wrapped in the tags, containing no `<`, is read back as itself, normalised. */
  lemma WrappedValue(v: string)
    requires '<' !in v
    ensures IsIdLine(IdOpen + v + IdClose)
    ensures IdValue(IdOpen + v + IdClose) == Normalise(v)
  {
    var line := IdOpen + v + IdClose;
    TaggedLine(v);
    assert RemoveAll(line, IdOpen) == v + IdClose by {
      assert line == IdOpen + (v + IdClose);
      RemoveAllLeading(IdOpen, v + IdClose);
      OpenRemovalKeepsValue(v);
    }
    CloseRemovalLeavesValue(v);
  }

  /** A response line holding one indented, tagged identifier yields exactly that identifier. */
  lemma IndentedIdLine(v: string)
    requires '<' !in v && HasPrefix(v)
    ensures IdsOf(["  <Id>" + v + "</Id>"]) == [v]
  {
    var line := "  <Id>" + v + "</Id>";
    var tagged := IdOpen + v + IdClose;
    assert Strip(line) == Strip(tagged) by {
      assert line == "  " + tagged;
      StripIndented("  ", tagged);
    }
    assert IsIdLine(line) && IdValue(line) == v by {
      WrappedValue(v);
    }
    IdsOfOneLine(line);
  }

  /** A closing tag is not mistaken for an opening one. */
  lemma CloseTagSurvivesOpenRemoval(x: string)
    ensures RemoveAll(IdClose + x, IdOpen) == IdClose + RemoveAll(x, IdOpen)
  {
    var s := IdClose + x;
    assert |s| >= |IdOpen| && s[0] == '<' && s[1..] == "/Id>" + x;
    assert s[..|IdOpen|] != IdOpen by {
      assert s[..|IdOpen|][1] == '/' != IdOpen[1];
    }
    RemoveAllKeepsHead("/Id>", x, IdOpen);
    assert RemoveAll(s, IdOpen) == ['<'] + ("/Id>" + RemoveAll(x, IdOpen));
    assert ['<'] + ("/Id>" + RemoveAll(x, IdOpen)) == IdClose + RemoveAll(x, IdOpen);
  }

  /** The tags of two values on one line are all deleted, leaving the two values joined. */
  lemma TwoValuesJoined(a: string, b: string)
    requires '<' !in a && '<' !in b
    ensures RemoveAll(RemoveAll(IdOpen + a + IdClose + IdOpen + b + IdClose, IdOpen), IdClose) == a + b
  {
    var second := IdOpen + (b + IdClose);
    var stage1 := a + (IdClose + (b + IdClose));
    assert RemoveAll(IdOpen + a + IdClose + IdOpen + b + IdClose, IdOpen) == stage1 by {
      assert IdOpen + a + IdClose + IdOpen + b + IdClose == IdOpen + (a + (IdClose + second));
      RemoveAllLeading(IdOpen, a + (IdClose + second));
      RemoveAllKeepsHead(a, IdClose + second, IdOpen);
      CloseTagSurvivesOpenRemoval(second);
      RemoveAllLeading(IdOpen, b + IdClose);
      OpenRemovalKeepsValue(b);
    }
    assert RemoveAll(stage1, IdClose) == a + b by {
      RemoveAllKeepsHead(a, IdClose + (b + IdClose), IdClose);
      RemoveAllLeading(IdClose, b + IdClose);
      CloseRemovalLeavesValue(b);
    }
  }

  /** Two tagged values on one line become one identifier: their values run together. */
  lemma TwoValuesOnOneLine(a: string, b: string)
    requires '<' !in a && '<' !in b
    ensures IdsOf([IdOpen + a + IdClose + IdOpen + b + IdClose]) == [Normalise(a + b)]
  {
    var line := IdOpen + a + IdClose + IdOpen + b + IdClose;
    var inner := a + IdClose + IdOpen + b;
    TwoValuesTagged(a, b);
    TaggedLine(inner);
    TwoValuesJoined(a, b);
    IdsOfOneLine(line);
  }

  /** The line with two tagged values is one tagged text whose inside holds the inner tags. */
  lemma TwoValuesTagged(a: string, b: string)
    ensures IdOpen + a + IdClose + IdOpen + b + IdClose == IdOpen + (a + IdClose + IdOpen + b) + IdClose
  {
  }

  /** A response of one line yields that line's identifier when it is an identifier line,
      and nothing otherwise. */
  lemma IdsOfOneLine(line: string)
    ensures IdsOf([line]) == if IsIdLine(line) then [IdValue(line)] else []
  {
    var none: seq<string> := [];
    assert [line][..0] == none;
  }

  /** `esearch_pmc`'s parsing loop: scans the response lines, keeps the identifier lines,
      deletes the tags and normalises each value. */
  method ParseIds(lines: seq<string>) returns (ids: seq<string>)
    ensures ids == IdsOf(lines)
    ensures forall k :: 0 <= k < |ids| ==> HasPrefix(ids[k])
  {
    ids := [];
    for i := 0 to |lines|
      invariant ids == IdsOf(lines[..i])
    {
      assert lines[..i + 1][..i] == lines[..i];
      var line := Strip(lines[i]);
      if StartsWith(line, IdOpen) && EndsWith(line, IdClose) {
        var id := RemoveAll(RemoveAll(line, IdOpen), IdClose);
        if !HasPrefix(id) {
          id := Prefix + id;
        }
        ids := ids + [id];
      }
    }
    assert lines[..|lines|] == lines;
    var _ := IdsFromIdLines(lines);
  }
}
