/** What the listing commands print or export: `_humanize_space` and the row
    structure of `_write_uploads_to_csv` (utils.py). */
module Reports {
  import opened Wrappers
  import opened Catalog

  datatype Unit = KB | MB | GB | TB

  /** The units `_humanize_space` walks through, in order. */
  const Units: seq<Unit> := [KB, MB, GB, TB]

  function Index(u: Unit): nat
  {
    match u
    case KB => 0
    case MB => 1
    case GB => 2
    case TB => 3
  }

  /** 1000 to the power `k`. */
  function Scale(k: nat): real
  {
    if k == 0 then 1.0 else 1000.0 * Scale(k - 1)
  }

  /** The value `_humanize_space(space)` returns, one step of its loop per
      call: `parsed` is the running quotient and `k` the position in
      `Units`. After the last unit it falls back to `(space, 'KB')`. */
  function HumanizeFrom(space: real, parsed: real, k: nat): (r: (real, Unit))
    requires k <= |Units|
    ensures r.0 < 1000.0 || r == (space, KB)
    ensures r.1 == KB ==> r.0 == space || (k == 0 && r.0 == parsed)
    decreases |Units| - k
  {
    if k == |Units| then (space, KB)
    else if parsed < 1000.0 then (parsed, Units[k])
    else HumanizeFrom(space, parsed / 1000.0, k + 1)
  }

  /** `_humanize_space(space)`: a value below 1000 in some unit, or the
      input itself; a KB answer is always the input unchanged. */
  function Humanize(space: real): (r: (real, Unit))
    ensures r.0 < 1000.0 || r == (space, KB)
    ensures r.1 == KB ==> r.0 == space
  {
    HumanizeFrom(space, space, 0)
  }

  /** `_humanize_space`: divides by 1000 until the value drops below 1000. */
  method HumanizeSpace(space: real) returns (value: real, unit: Unit)
    ensures (value, unit) == Humanize(space)
  {
    var parsed := space;
    var i := 0;
    while i < |Units|
      invariant 0 <= i <= |Units|
      invariant HumanizeFrom(space, parsed, i) == Humanize(space)
    {
      if parsed < 1000.0 {
        return parsed, Units[i];
      }
      parsed := parsed / 1000.0;
      i := i + 1;
    }
    return space, KB;
  }

  /** `_humanize_space` picks the smallest scale `k` at which the quotient
      is below 1000 and returns that quotient; when even the terabyte value
      is 1000 or more it returns its input unchanged, labelled KB. Values
      below 1000 (zero and negatives included) come back as they are. */
  lemma HumanizeSmallestScale(space: real)
    ensures var (v, u) := Humanize(space);
      (space < Scale(4) ==>
         v == space / Scale(Index(u)) && v < 1000.0 &&
         (Index(u) > 0 ==> space >= Scale(Index(u)))) &&
      (space >= Scale(4) ==> v == space && u == KB)
  {
    assert Scale(1) == 1000.0;
    assert Scale(2) == 1000000.0;
    assert Scale(3) == 1000000000.0;
    assert Scale(4) == 1000000000000.0;
    var s1 := space / 1000.0;
    var s2 := s1 / 1000.0;
    var s3 := s2 / 1000.0;
    assert Humanize(space) == if space < 1000.0 then (space, KB) else HumanizeFrom(space, s1, 1);
    assert HumanizeFrom(space, s1, 1) == if s1 < 1000.0 then (s1, MB) else HumanizeFrom(space, s2, 2);
    assert HumanizeFrom(space, s2, 2) == if s2 < 1000.0 then (s2, GB) else HumanizeFrom(space, s3, 3);
    assert HumanizeFrom(space, s3, 3) == if s3 < 1000.0 then (s3, TB) else (space, KB);
  }

  /** The worked values: 500 KB, 1500 KB = 1.5 MB, 1000000 KB = 1 GB, 0 KB,
      and the boundary 1000 KB = 1 MB. */
  lemma HumanizeExamples()
    ensures Humanize(500.0) == (500.0, KB)
    ensures Humanize(1500.0) == (1.5, MB)
    ensures Humanize(1000000.0) == (1.0, GB)
    ensures Humanize(0.0) == (0.0, KB)
    ensures Humanize(1000.0) == (1.0, MB)
  {
  }

  /** One CSV cell: text, a number, or the empty cell `None` becomes. */
  datatype Cell = Text(text: string) | Number(number: real) | Empty

  /** The fixed header row of `_write_uploads_to_csv`. */
  const Header: seq<Cell> := [
    Text("resource_id"), Text("package_id"), Text("organization_id"),
    Text("resource_filename"), Text("upload_url"), Text("upload_file_size_in_kb"),
    Text("resource_created"), Text("resource_last_modified"),
    Text("package_state"), Text("resource_state")]

  function TextCell(v: Option<string>): Cell
  {
    match v
    case Some(s) => Text(s)
    case None => Empty
  }

  function NumberCell(v: Option<real>): Cell
  {
    match v
    case Some(x) => Number(x)
    case None => Empty
  }

  /** The data row written for one upload, in header order. */
  function CsvRow(u: UploadRecord): seq<Cell>
  {
    [TextCell(u.resourceId), TextCell(u.packageId), TextCell(u.organizationId),
     TextCell(u.resourceFilename), TextCell(u.uploadUrl), NumberCell(u.uploadSize),
     TextCell(u.created), TextCell(u.lastModified),
     TextCell(u.packageState), TextCell(u.resourceState)]
  }

  function TextOf(c: Cell): Option<Option<string>>
  {
    match c
    case Text(s) => Some(Some(s))
    case Empty => Some(None)
    case Number(_) => None
  }

  function NumberOf(c: Cell): Option<Option<real>>
  {
    match c
    case Number(x) => Some(Some(x))
    case Empty => Some(None)
    case Text(_) => None
  }

  /** Reads a data row back into the record it was written from. */
  function ParseCsvRow(row: seq<Cell>): Option<UploadRecord>
  {
    if |row| != |Header| then None
    else
      var id := TextOf(row[0]); var pkg := TextOf(row[1]); var org := TextOf(row[2]);
      var file := TextOf(row[3]); var url := TextOf(row[4]); var size := NumberOf(row[5]);
      var created := TextOf(row[6]); var modified := TextOf(row[7]);
      var pstate := TextOf(row[8]); var rstate := TextOf(row[9]);
      if id.None? || pkg.None? || org.None? || file.None? || url.None? || size.None? ||
         created.None? || modified.None? || pstate.None? || rstate.None?
      then None
      else Some(UploadRecord(id.value, file.value, pkg.value, created.value, modified.value,
                             org.value, url.value, size.value, pstate.value, rstate.value))
  }

  /** Every data row has the header's width and carries all ten fields of
      its record: reading it back gives the record. */
  lemma CsvRowRoundTrip(u: UploadRecord)
    ensures |CsvRow(u)| == |Header|
    ensures ParseCsvRow(CsvRow(u)) == Some(u)
  {
  }

  datatype CsvOutput = NothingToWrite | Written(rows: seq<seq<Cell>>)

  /** `_write_uploads_to_csv`: nothing for an empty list, otherwise the
      header followed by one row per upload, in order. */
  method WriteUploadsToCsv(uploads: seq<UploadRecord>) returns (out: CsvOutput)
    ensures uploads == [] <==> out == NothingToWrite
    ensures out.Written? ==>
              |out.rows| == |uploads| + 1 && out.rows[0] == Header &&
              forall i :: 0 <= i < |uploads| ==> out.rows[i + 1] == CsvRow(uploads[i])
  {
    if uploads == [] {
      return NothingToWrite;
    }
    var rows := [Header];
    for i := 0 to |uploads|
      invariant |rows| == i + 1 && rows[0] == Header
      invariant forall j :: 0 <= j < i ==> rows[j + 1] == CsvRow(uploads[j])
    {
      rows := rows + [CsvRow(uploads[i])];
    }
    return Written(rows);
  }
}
