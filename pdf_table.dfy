/** `add_table` of the PDF script: how a markdown table is laid out, as a grid of cells or,
    with too many columns, as plain text lines. Fonts, colours and widths are not modelled. */
module PdfTable {
  import opened Seqs
  import opened Text

  /** Tables wider than this are printed as text. */
  const MaxGridColumns: nat := 6

  /** Cells are cut to this many characters. */
  const CellChars: nat := 20

  /** `str(x)[:20]`: the first 20 characters. */
  function Truncate(s: string): (r: string)
    ensures |r| <= CellChars && r <= s
    ensures |s| <= CellChars ==> r == s
  {
    if |s| <= CellChars then s else s[..CellChars]
  }

  /** One drawn body row: its cells and whether it is shaded. */
  datatype GridRow = GridRow(cells: seq<string>, shaded: bool)

  datatype TableDrawing =
    | NoDrawing
    | TextLines(lines: seq<string>)
    | Grid(header: seq<string>, body: seq<GridRow>)

  function Min(a: nat, b: nat): nat {
    if a <= b then a else b
  }

  /** `n` empty cells. */
  function Blanks(n: nat): (r: seq<string>)
    ensures |r| == n && forall k :: 0 <= k < n ==> r[k] == ""
  {
    seq(n, _ => "")
  }

  /** The cells of one body row under `numCols` headers: the first `numCols` cells cut to
      20 characters, then empty cells up to `numCols`. */
  function RowCells(row: seq<string>, numCols: nat): seq<string> {
    Map(row[..Min(numCols, |row|)], Truncate) + Blanks(if numCols > |row| then numCols - |row| else 0)
  }

  /** The body rows, shaded on every second one starting with the second. */
  function GridRows(rows: seq<seq<string>>, numCols: nat): (r: seq<GridRow>)
    ensures |r| == |rows|
  {
    if |rows| == 0 then []
    else GridRows(rows[..|rows| - 1], numCols) + [GridRow(RowCells(rows[|rows| - 1], numCols), (|rows| - 1) % 2 == 1)]
  }

  function JoinCells(row: seq<string>): string {
    Join(row, " | ")
  }

  /** What `add_table` draws for the headers and rows. */
  function Layout(headers: seq<string>, rows: seq<seq<string>>): TableDrawing {
    if |headers| == 0 then NoDrawing
    else if |headers| > MaxGridColumns then TextLines([JoinCells(headers)] + Map(rows, JoinCells))
    else Grid(Map(headers, Truncate), GridRows(rows, |headers|))
  }

  /** A table without headers draws nothing, one with more than six columns is printed as
      `" | "`-joined lines without truncation: the headers, then one line per row. */
  lemma LayoutKinds(headers: seq<string>, rows: seq<seq<string>>)
    ensures Layout(headers, rows) == NoDrawing <==> |headers| == 0
    ensures Layout(headers, rows).TextLines? <==> |headers| > MaxGridColumns
    ensures |headers| > MaxGridColumns ==>
      var lines := Layout(headers, rows).lines;
      |lines| == |rows| + 1 && lines[0] == Join(headers, " | ")
      && forall r :: 0 <= r < |rows| ==> lines[r + 1] == Join(rows[r], " | ")
  {
  }

  /** The cells of a row: the row's own cells cut to 20 characters while there are
      headers for them, empty cells after the row runs out. */
  lemma RowCellsRules(row: seq<string>, numCols: nat)
    ensures |RowCells(row, numCols)| == numCols
    ensures forall c :: 0 <= c < numCols && c < |row| ==> RowCells(row, numCols)[c] == Truncate(row[c])
    ensures forall c :: |row| <= c < numCols ==> RowCells(row, numCols)[c] == ""
  {
    var m := Min(numCols, |row|);
    var kept := Map(row[..m], Truncate);
    var pad := Blanks(if numCols > |row| then numCols - |row| else 0);
    forall c | 0 <= c < numCols && c < |row|
      ensures RowCells(row, numCols)[c] == Truncate(row[c])
    {
      assert (kept + pad)[c] == kept[c];
    }
    forall c | |row| <= c < numCols
      ensures RowCells(row, numCols)[c] == ""
    {
      assert (kept + pad)[c] == pad[c - m];
    }
  }

  /** Row `r` of the grid is drawn from the table's row `r`, shaded when `r` is odd. */
  lemma {:induction false} GridRowsAt(rows: seq<seq<string>>, numCols: nat, r: nat)
    requires r < |rows|
    ensures GridRows(rows, numCols)[r] == GridRow(RowCells(rows[r], numCols), r % 2 == 1)
    decreases |rows|
  {
    if r < |rows| - 1 {
      var init := rows[..|rows| - 1];
      GridRowsAt(init, numCols, r);
      assert init[r] == rows[r];
    }
  }

  /** Up to six columns, the table is a grid: every header cut to 20 characters, every
      body row with exactly one cell per header (surplus cells dropped, missing ones
      empty), and the shading alternating from an unshaded first row. */
  lemma GridRules(headers: seq<string>, rows: seq<seq<string>>)
    requires 1 <= |headers| <= MaxGridColumns
    ensures Layout(headers, rows).Grid?
    ensures var g := Layout(headers, rows);
      |g.header| == |headers| && (forall c :: 0 <= c < |headers| ==> g.header[c] == Truncate(headers[c]))
      && |g.body| == |rows|
      && forall r :: 0 <= r < |rows| ==>
        |g.body[r].cells| == |headers| && (g.body[r].shaded <==> r % 2 == 1)
        && (forall c :: 0 <= c < |headers| && c < |rows[r]| ==> g.body[r].cells[c] == Truncate(rows[r][c]))
        && (forall c :: |rows[r]| <= c < |headers| ==> g.body[r].cells[c] == "")
  {
    var g := Layout(headers, rows);
    forall r | 0 <= r < |rows|
      ensures |g.body[r].cells| == |headers| && (g.body[r].shaded <==> r % 2 == 1)
      ensures forall c :: 0 <= c < |headers| && c < |rows[r]| ==> g.body[r].cells[c] == Truncate(rows[r][c])
      ensures forall c :: |rows[r]| <= c < |headers| ==> g.body[r].cells[c] == ""
    {
      GridRowsAt(rows, |headers|, r);
      RowCellsRules(rows[r], |headers|);
    }
  }

  /** The cells of one body row (`for i, cell in enumerate(row)`, then the padding loop). */
  method DrawRow(row: seq<string>, numCols: nat) returns (cells: seq<string>)
    ensures cells == RowCells(row, numCols)
  {
    cells := [];
    var i := 0;
    while i < |row|
      invariant i <= |row| && i <= numCols
      invariant cells == Map(row[..i], Truncate)
      decreases |row| - i
    {
      if i >= numCols {
        break;
      }
      assert row[..i + 1][..i] == row[..i];
      cells := cells + [Truncate(row[i])];
      i := i + 1;
    }
    assert i == Min(numCols, |row|);
    var pad := 0;
    while pad < numCols - |row|
      invariant 0 <= pad && (pad <= numCols - |row| || pad == 0)
      invariant cells == Map(row[..i], Truncate) + Blanks(pad)
      decreases numCols - |row| - pad
    {
      cells := cells + [""];
      pad := pad + 1;
    }
  }

  /** The text form: the headers, then one line per row, all `" | "`-joined. */
  method DrawTextLines(headers: seq<string>, rows: seq<seq<string>>) returns (lines: seq<string>)
    ensures lines == [JoinCells(headers)] + Map(rows, JoinCells)
  {
    lines := [JoinCells(headers)];
    var r := 0;
    while r < |rows|
      invariant r <= |rows|
      invariant lines == [JoinCells(headers)] + Map(rows[..r], JoinCells)
    {
      assert rows[..r + 1][..r] == rows[..r];
      lines := lines + [JoinCells(rows[r])];
      r := r + 1;
    }
    assert rows[..|rows|] == rows;
  }

  /** The header cells, each cut to 20 characters. */
  method DrawHeader(headers: seq<string>) returns (header: seq<string>)
    ensures header == Map(headers, Truncate)
  {
    header := [];
    var h := 0;
    while h < |headers|
      invariant h <= |headers|
      invariant header == Map(headers[..h], Truncate)
    {
      assert headers[..h + 1][..h] == headers[..h];
      header := header + [Truncate(headers[h])];
      h := h + 1;
    }
    assert headers[..|headers|] == headers;
  }

  lemma GridRowsStep(rows: seq<seq<string>>, numCols: nat, r: nat)
    requires r < |rows|
    ensures GridRows(rows[..r + 1], numCols) == GridRows(rows[..r], numCols) + [GridRow(RowCells(rows[r], numCols), r % 2 == 1)]
  {
    assert rows[..r + 1][..r] == rows[..r];
  }

  /** The body rows, with the shading flag flipped after each row. */
  method DrawBody(rows: seq<seq<string>>, numCols: nat) returns (body: seq<GridRow>)
    ensures body == GridRows(rows, numCols)
  {
    body := [];
    var fill := false;
    var r := 0;
    while r < |rows|
      invariant r <= |rows|
      invariant body == GridRows(rows[..r], numCols)
      invariant fill <==> r % 2 == 1
    {
      var cells := DrawRow(rows[r], numCols);
      GridRowsStep(rows, numCols, r);
      body := body + [GridRow(cells, fill)];
      fill := !fill;
      r := r + 1;
    }
    assert rows[..|rows|] == rows;
  }

  /** `add_table`. */
  method AddTable(headers: seq<string>, rows: seq<seq<string>>) returns (drawing: TableDrawing)
    ensures drawing == Layout(headers, rows)
  {
    var numCols := |headers|;
    if numCols == 0 {
      return NoDrawing;
    }
    if numCols > MaxGridColumns {
      var lines := DrawTextLines(headers, rows);
      return TextLines(lines);
    }
    var header := DrawHeader(headers);
    var body := DrawBody(rows, numCols);
    drawing := Grid(header, body);
  }
}
