/** Step B: finding an article's package in the PMC open-access file list.
    Downloading and caching the list, and splitting it into CSV rows, are not modelled:
    the lookup receives the rows the CSV reader yields, first line included. */
module FileList {
  import opened Options
  import opened Text

  type Row = seq<string>

  const MinColumns: nat := 3
  const PathColumn: nat := 0
  const IdColumn: nat := 2

  /** A row with at least three columns whose third column, stripped, is `id`. */
  predicate Matches(row: Row, id: string) {
    |row| >= MinColumns && Strip(row[IdColumn]) == id
  }

  /** The first column of the first matching row, scanning every row given. */
  function FirstMatch(rows: seq<Row>, id: string): Option<string> {
    if rows == [] then None
    else if Matches(rows[0], id) then Some(rows[0][PathColumn])
    else FirstMatch(rows[1..], id)
  }

  /** What the lookup answers: the first row (a header or a timestamp) is never consulted. */
  function Lookup(rows: seq<Row>, id: string): Option<string> {
    if rows == [] then None else FirstMatch(rows[1..], id)
  }

  lemma {:induction false} FirstMatchAt(rows: seq<Row>, id: string, i: nat)
    requires i < |rows| && Matches(rows[i], id)
    requires forall j :: 0 <= j < i ==> !Matches(rows[j], id)
    ensures FirstMatch(rows, id) == Some(rows[i][PathColumn])
  {
    if i > 0 {
      assert !Matches(rows[0], id);
      FirstMatchAt(rows[1..], id, i - 1);
    }
  }

  lemma {:induction false} FirstMatchNone(rows: seq<Row>, id: string)
    ensures FirstMatch(rows, id) == None <==> forall j :: 0 <= j < |rows| ==> !Matches(rows[j], id)
  {
    if rows != [] {
      FirstMatchNone(rows[1..], id);
      assert forall j :: 1 <= j < |rows| ==> rows[1..][j - 1] == rows[j];
    }
  }

  /** The earliest matching row after the first decides the answer, whatever follows it. */
  lemma LookupFindsEarliest(rows: seq<Row>, id: string, i: nat)
    requires 1 <= i < |rows| && Matches(rows[i], id)
    requires forall j :: 1 <= j < i ==> !Matches(rows[j], id)
    ensures Lookup(rows, id) == Some(rows[i][PathColumn])
  {
    FirstMatchAt(rows[1..], id, i - 1);
  }

  /** Not found exactly when no row after the first matches; short rows never match. */
  lemma LookupNotFound(rows: seq<Row>, id: string)
    ensures Lookup(rows, id) == None <==> forall j :: 1 <= j < |rows| ==> !Matches(rows[j], id)
  {
    if rows != [] {
      FirstMatchNone(rows[1..], id);
      assert forall j :: 1 <= j < |rows| ==> rows[1..][j - 1] == rows[j];
    }
  }

  /** The first row is never consulted: whatever it holds, a matching row included, the
      answer is decided by the rows after it alone. */
  lemma HeaderSkipped(header: Row, other: Row, rest: seq<Row>, id: string)
    ensures Lookup([header] + rest, id) == Lookup([other] + rest, id)
    ensures Lookup([header], id) == None
  {
    assert ([header] + rest)[1..] == rest;
    assert ([other] + rest)[1..] == rest;
  }

  lemma {:induction false} FirstMatchIgnoresLaterRows(rows: seq<Row>, more: seq<Row>, id: string)
    requires FirstMatch(rows, id).Some?
    ensures FirstMatch(rows + more, id) == FirstMatch(rows, id)
  {
    assert (rows + more)[0] == rows[0];
    if !Matches(rows[0], id) {
      assert (rows + more)[1..] == rows[1..] + more;
      FirstMatchIgnoresLaterRows(rows[1..], more, id);
    }
  }

  /** Once a match is found, rows after it (later duplicates included) are never consulted. */
  lemma LookupIgnoresLaterRows(rows: seq<Row>, more: seq<Row>, id: string)
    requires Lookup(rows, id).Some?
    ensures Lookup(rows + more, id) == Lookup(rows, id)
  {
    assert (rows + more)[1..] == rows[1..] + more;
    FirstMatchIgnoresLaterRows(rows[1..], more, id);
  }

  /** `find_article_tar_gz_in_filelist`: skips the first row, then scans the rest, passing
      over rows with fewer than three columns and stopping at the first whose stripped third
      column equals `id`. */
  method FindArchivePath(rows: seq<Row>, id: string) returns (found: Option<string>)
    ensures found == Lookup(rows, id)
    ensures found.Some? ==> exists i :: 1 <= i < |rows| && Matches(rows[i], id) && found.value == rows[i][PathColumn]
  {
    found := None;
    if rows == [] {
      return;
    }
    var i := 1;
    while i < |rows|
      invariant 1 <= i <= |rows|
      invariant FirstMatch(rows[i..], id) == Lookup(rows, id)
      invariant forall j :: 1 <= j < i ==> !Matches(rows[j], id)
    {
      var row := rows[i];
      if |row| < MinColumns {
        i := i + 1;
        continue;
      }
      if Strip(row[IdColumn]) == id {
        found := Some(row[PathColumn]);
        break;
      }
      i := i + 1;
    }
  }
}
