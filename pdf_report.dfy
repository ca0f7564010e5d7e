/** `main` of the PDF script: every file of a fixed manifest must exist before any page is
    drawn; then each file's markdown is added in manifest order. File existence and file
    contents are parameters. */
module PdfReport {
  import opened Wrappers
  import opened Seqs
  import opened PdfMarkdown

  /** The report files, in the order they are printed. */
  const Manifest: seq<string> := [
    "0-EXECUTIVE-SUMMARY.md",
    "1-technical-explanation.md",
    "2-assumptions.md",
    "3-schedule-minimal.md",
    "4-schedule-optimal.md",
    "5-rosters.md"
  ]

  /** The index of the first of `files` that does not exist. */
  function FirstMissing(files: seq<string>, present: string -> bool): (r: Option<nat>)
    ensures r.None? <==> forall k :: 0 <= k < |files| ==> present(files[k])
    ensures r.Some? ==>
      r.value < |files| && !present(files[r.value]) && forall k :: 0 <= k < r.value ==> present(files[k])
  {
    FindIndex(files, f => !present(f))
  }

  /** The blocks of the given files, one file after the other; each file starts with an
      empty table buffer. */
  function Contents(files: seq<string>, read: string -> string): seq<Block> {
    if |files| == 0 then []
    else Contents(files[..|files| - 1], read) + Segment(read(files[|files| - 1]))
  }

  /** The document: the first page, the manifest's blocks, and the page of the closing
      notice. */
  function Document(read: string -> string): seq<Block> {
    [PageBreak] + Contents(Manifest, read) + [PageBreak]
  }

  /** The existence loop: stops at the first missing file. */
  method CheckFiles(files: seq<string>, present: string -> bool) returns (missing: Option<nat>)
    ensures missing == FirstMissing(files, present)
  {
    var i := 0;
    while i < |files|
      invariant i <= |files|
      invariant forall k :: 0 <= k < i ==> present(files[k])
    {
      if !present(files[i]) {
        return Some(i);
      }
      i := i + 1;
    }
    return None;
  }

  lemma ContentsStep(files: seq<string>, j: nat, read: string -> string)
    requires j < |files|
    ensures Contents(files[..j + 1], read) == Contents(files[..j], read) + Segment(read(files[j]))
  {
    assert files[..j + 1][..j] == files[..j];
  }

  /** The loop that reads each file and adds its markdown, in order. */
  method AddFiles(files: seq<string>, read: string -> string) returns (blocks: seq<Block>)
    ensures blocks == Contents(files, read)
  {
    blocks := [];
    var j := 0;
    while j < |files|
      invariant j <= |files|
      invariant blocks == Contents(files[..j], read)
    {
      var more := AddMarkdown(read(files[j]));
      ContentsStep(files, j, read);
      blocks := blocks + more;
      j := j + 1;
    }
    assert files[..|files|] == files;
  }

  /** `main`: exit code 1 naming the first missing file and drawing nothing, or exit code 0
      with the whole document. */
  method GenerateReport(present: string -> bool, read: string -> string)
    returns (exitCode: int, missing: Option<string>, document: seq<Block>)
    ensures exitCode == 0 || exitCode == 1
    ensures exitCode == 1 <==> exists k :: 0 <= k < |Manifest| && !present(Manifest[k])
    ensures exitCode == 1 ==> missing == Some(Manifest[FirstMissing(Manifest, present).value]) && document == []
    ensures exitCode == 0 ==> missing.None? && document == Document(read)
  {
    var gap := CheckFiles(Manifest, present);
    if gap.Some? {
      return 1, Some(Manifest[gap.value]), [];
    }
    var blocks := AddFiles(Manifest, read);
    return 0, None, [PageBreak] + blocks + [PageBreak];
  }

  lemma {:induction false} ContentsTablesWellFormed(files: seq<string>, read: string -> string)
    ensures AllTablesWellFormed(Contents(files, read))
    decreases |files|
  {
    if |files| > 0 {
      ContentsTablesWellFormed(files[..|files| - 1], read);
      SegmentTablesWellFormed(read(files[|files| - 1]));
      AllTablesAppend(Contents(files[..|files| - 1], read), Segment(read(files[|files| - 1])));
    }
  }

  /** Every table in the document has headers and well-formed cells. */
  lemma DocumentTablesWellFormed(read: string -> string)
    ensures AllTablesWellFormed(Document(read))
  {
    ContentsTablesWellFormed(Manifest, read);
    AllTablesAppend([PageBreak], Contents(Manifest, read));
    AllTablesAppend([PageBreak] + Contents(Manifest, read), [PageBreak]);
  }
}
