/** Step C: choosing the PDF files of a downloaded `.tar.gz` package.
    Downloading, decompressing and writing members to disk are not modelled: the filter
    receives the archive's members, in archive order, and yields the paths it extracts to. */
module Archive {
  import opened Text
  import opened Seqs

  /** A tar member: its stored name and whether it is a regular file. */
  datatype Member = Member(name: string, isFile: bool)

  const PdfSuffix: string := ".pdf"
  const Sep: string := "/"

  /** A regular file whose lower-cased name ends in `.pdf`. */
  predicate IsPdfMember(m: Member) {
    m.isFile && EndsWith(Lower(m.name), PdfSuffix)
  }

  /** POSIX `os.path.join(dir, name)`: an absolute `name` replaces `dir`; otherwise a
      separator is put between them unless `dir` is empty or already ends in one. */
  function JoinPath(dir: string, name: string): (p: string)
    ensures EndsWith(p, name)
    ensures !StartsWith(name, Sep) && dir != [] ==> StartsWith(p, dir)
    ensures !StartsWith(name, Sep) && dir != [] && !EndsWith(dir, Sep) ==> p == dir + Sep + name
    ensures !StartsWith(name, Sep) && (dir == [] || EndsWith(dir, Sep)) ==> p == dir + name
    ensures StartsWith(name, Sep) ==> p == name
  {
    if StartsWith(name, Sep) then name
    else if dir == [] || EndsWith(dir, Sep) then dir + name
    else dir + Sep + name
  }

  /** The path a member is extracted to under `dir`. */
  function PathUnder(dir: string): Member -> string {
    (m: Member) => JoinPath(dir, m.name)
  }

  /** The paths of the PDF members under `dir`, in archive order. */
  function PdfPaths(members: seq<Member>, dir: string): seq<string> {
    FilterMap(IsPdfMember, PathUnder(dir), members)
  }

  /** One path per PDF member, strictly in archive order, each that member's name joined
      to the output directory, and no path for any other member. */
  lemma PdfPathsFromMembers(members: seq<Member>, dir: string) returns (src: seq<nat>)
    ensures |src| == |PdfPaths(members, dir)|
    ensures forall k :: 0 <= k < |src| ==>
      && src[k] < |members|
      && members[src[k]].isFile
      && EndsWith(Lower(members[src[k]].name), PdfSuffix)
      && PdfPaths(members, dir)[k] == JoinPath(dir, members[src[k]].name)
    ensures forall k, l :: 0 <= k < l < |src| ==> src[k] < src[l]
    ensures forall i :: 0 <= i < |members| && IsPdfMember(members[i]) ==> i in src
  {
    src := FilterMapSources(IsPdfMember, PathUnder(dir), members);
  }

  /** An archive without a PDF regular file yields the empty list, and only such an archive. */
  lemma NoPdfMemberNoPaths(members: seq<Member>, dir: string)
    ensures PdfPaths(members, dir) == [] <==> forall i :: 0 <= i < |members| ==> !IsPdfMember(members[i])
  {
    FilterMapEmpty(IsPdfMember, PathUnder(dir), members);
  }

  /** A package whose one member is a PDF regular file yields that one path. */
  lemma SinglePdfMember(name: string, dir: string)
    requires EndsWith(Lower(name), PdfSuffix)
    ensures PdfPaths([Member(name, true)], dir) == [JoinPath(dir, name)]
  {
    var none: seq<Member> := [];
    assert [Member(name, true)][..0] == none;
  }

  /** The suffix test ignores case, and directories are never chosen. */
  lemma SuffixCaseAndKind(stem: string)
    ensures IsPdfMember(Member(stem + ".PDF", true))
    ensures IsPdfMember(Member(stem + ".Pdf", true))
    ensures !IsPdfMember(Member(stem + ".pdf", false))
  {
    var n := |stem| + 4;
    assert Lower(stem + ".PDF")[n - 4..] == PdfSuffix;
    assert Lower(stem + ".Pdf")[n - 4..] == PdfSuffix;
  }

  /** The member filter of `extract_pdf_from_tar`: walks the members in archive order and
      collects `os.path.join(dir, name)` for each PDF regular file. */
  method ExtractPdfs(members: seq<Member>, dir: string) returns (paths: seq<string>)
    ensures paths == PdfPaths(members, dir)
    ensures |paths| <= |members|
  {
    paths := [];
    for i := 0 to |members|
      invariant paths == PdfPaths(members[..i], dir)
    {
      assert members[..i + 1][..i] == members[..i];
      var m := members[i];
      if m.isFile && EndsWith(Lower(m.name), PdfSuffix) {
        paths := paths + [JoinPath(dir, m.name)];
      }
    }
    assert members[..|members|] == members;
  }
}
