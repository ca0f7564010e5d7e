/** `add_markdown` of the PDF script: the markdown of one report file, split into lines and
    classified one stripped line at a time, with a buffer for a pending pipe table. */
module PdfMarkdown {
  import opened Wrappers
  import opened Seqs
  import opened Text
  import opened PdfInline

  /** What one line, or one finished table, puts on the page. Headings carry their text as
      written; bullets, numbered items and paragraphs carry it after inline stripping. */
  datatype Block =
    | Heading(level: nat, title: string)
    | PageBreak
    | Bullet(text: string)
    | Numbered(ordinal: string, text: string)
    | Paragraph(text: string)
    | Table(headers: seq<string>, rows: seq<seq<string>>)

  /** The table buffer: `in_table`, `table_headers`, `table_rows`. */
  datatype TableBuffer = TableBuffer(inTable: bool, headers: seq<string>, rows: seq<seq<string>>)

  const EmptyBuffer := TableBuffer(false, [], [])

  /** A pending table is drawn only when it has headers. */
  predicate Pending(buf: TableBuffer) {
    buf.inTable && buf.headers != []
  }

  /** What a flush draws. */
  function Flush(buf: TableBuffer): (r: seq<Block>)
    ensures |r| <= 1 && (r != [] <==> Pending(buf))
  {
    if Pending(buf) then [Table(buf.headers, buf.rows)] else []
  }

  /** The buffer after a flush: emptied if a table was drawn, kept as it is otherwise. */
  function Flushed(buf: TableBuffer): TableBuffer {
    if Pending(buf) then EmptyBuffer else buf
  }

  predicate IsRule(line: string) {
    line == "---" || line == "***"
  }

  /** A pipe-table line: it has a `|` and does not start with `|--`. */
  predicate IsTableLine(line: string) {
    '|' in line && !StartsWith(line, "|--")
  }

  predicate IsSeparator(line: string) {
    ContainsStr(line, "|--") || ContainsStr(line, "|:")
  }

  /** `[c.strip() for c in line.split('|') if c.strip()]`. */
  function Cells(line: string): (r: seq<string>)
    ensures forall k :: 0 <= k < |r| ==> r[k] != "" && '|' !in r[k] && r[k] == PyStrip(r[k])
    ensures forall k :: 0 <= k < |Split(line, '|')| && PyStrip(Split(line, '|')[k]) != "" ==> PyStrip(Split(line, '|')[k]) in r
  {
    Pieces(line, '|')
  }

  /** Length of the longest prefix of `s` whose characters satisfy `p`. */
  function Span(s: string, p: char -> bool): (n: nat)
    ensures n <= |s| && (forall k :: 0 <= k < n ==> p(s[k])) && (n < |s| ==> !p(s[n]))
  {
    |s| - |TrimStart(s, p)|
  }

  /** `re.match(r'^(\d+)\.\s+(.+)', line)` on a stripped line of the split content, which
      has no newline and does not end in whitespace: the digit string and the text after
      the whitespace run. */
  function NumberedMatch(line: string): Option<(string, string)> {
    var n := Span(line, IsDigit);
    if n == 0 || n == |line| || line[n] != '.' then None
    else
      var after := line[n + 1..];
      var w := Span(after, IsPySpace);
      if w == 0 || w == |after| then None else Some((line[..n], after[w..]))
  }

  /** How one stripped line is read, in the order the tests are made. */
  datatype LineKind =
    | BlankLine
    | RuleLine
    | HeadingLine(level: nat, title: string)
    | TableLine(cells: seq<string>)
    | SeparatorLine
    | BulletLine(text: string)
    | NumberedLine(ordinal: string, text: string)
    | PlainLine(text: string)

  /** The classification of a stripped line: blank, rule, heading 1/2/3, table line,
      separator, bullet, numbered item, paragraph. The checkbox test of the source comes
      after the bullet test, which every checkbox line passes, so it never applies. */
  function Classify(line: string): LineKind {
    if line == "" then BlankLine
    else if IsRule(line) then RuleLine
    else if StartsWith(line, "# ") then HeadingLine(1, line[2..])
    else if StartsWith(line, "## ") then HeadingLine(2, line[3..])
    else if StartsWith(line, "### ") then HeadingLine(3, line[4..])
    else if IsTableLine(line) then TableLine(Cells(line))
    else if IsSeparator(line) then SeparatorLine
    else ItemKind(line)
  }

  /** The last tests of `Classify`: bullet, numbered item, paragraph. */
  function ItemKind(line: string): LineKind {
    if StartsWith(line, "- ") || StartsWith(line, "* ") then BulletLine(line[2..])
    else match NumberedMatch(line)
      case Some((num, text)) => NumberedLine(num, text)
      case None => PlainLine(line)
  }

  /** A line without a pipe is neither a table line nor a separator. */
  lemma NoPipeNoTable(line: string)
    requires '|' !in line
    ensures !IsTableLine(line) && !IsSeparator(line)
  {
    if ContainsStr(line, "|--") {
      ContainsFirst(line, "|--");
    }
    if ContainsStr(line, "|:") {
      ContainsFirst(line, "|:");
    }
  }

  /** A non-empty line without a pipe that is neither a rule nor a heading is read by the
      item tests alone. */
  lemma PlainTextKind(line: string)
    requires line != "" && !IsRule(line) && '|' !in line
    requires !StartsWith(line, "# ") && !StartsWith(line, "## ") && !StartsWith(line, "### ")
    ensures Classify(line) == ItemKind(line)
  {
    NoPipeNoTable(line);
  }

  /** What one iteration of the loop does with a line of the given kind at index `i`: the
      blocks it draws, the next line index and the new table buffer. */
  function Apply(kind: LineKind, lines: seq<string>, i: nat, buf: TableBuffer): (r: (seq<Block>, nat, TableBuffer))
    requires i < |lines|
    ensures i < r.1 <= |lines|
    ensures r.1 == i + 1 || (r.1 == i + 2 && ContainsStr(lines[i + 1], "|--"))
  {
    match kind
    case BlankLine => (Flush(buf), i + 1, Flushed(buf))
    case RuleLine => (Flush(buf) + [PageBreak], i + 1, Flushed(buf))
    case HeadingLine(level, title) => ([Heading(level, title)], i + 1, buf)
    case TableLine(cells) =>
      if !buf.inTable then
        var skip := i + 1 < |lines| && ContainsStr(lines[i + 1], "|--");
        ([], if skip then i + 2 else i + 1, TableBuffer(true, cells, buf.rows))
      else ([], i + 1, buf.(rows := buf.rows + [cells]))
    case SeparatorLine => ([], i + 1, buf)
    case BulletLine(text) => ([Bullet(ProcessInline(text))], i + 1, buf)
    case NumberedLine(num, text) => ([Numbered(num, ProcessInline(text))], i + 1, buf)
    case PlainLine(text) => ([Paragraph(ProcessInline(text))], i + 1, buf)
  }

  /** The kind of a raw line, read after stripping. */
  function KindOf(raw: string): LineKind {
    Classify(PyStrip(raw))
  }

  /** The kinds of all lines, in order. */
  function Kinds(lines: seq<string>): (r: seq<LineKind>)
    ensures |r| == |lines| && forall k :: 0 <= k < |lines| ==> r[k] == KindOf(lines[k])
  {
    Map(lines, KindOf)
  }

  /** The blocks drawn from line `i` on, ending with the flush of a pending table. */
  function Run(lines: seq<string>, kinds: seq<LineKind>, i: nat, buf: TableBuffer): seq<Block>
    requires |kinds| == |lines| && i <= |lines|
    decreases |lines| - i
  {
    if i == |lines| then Flush(buf)
    else
      var (emitted, j, next) := Apply(kinds[i], lines, i, buf);
      emitted + Run(lines, kinds, j, next)
  }

  /** The blocks of a whole file. */
  function Segment(content: string): seq<Block> {
    var lines := Split(content, '\n');
    Run(lines, Kinds(lines), 0, EmptyBuffer)
  }

  /** The body of the loop of `add_markdown` for line `i`, already classified: it draws
      what the line calls for and updates the index and the table buffer. */
  method HandleLine(lines: seq<string>, i: nat, kind: LineKind, blocks: seq<Block>,
                    inTable: bool, tableHeaders: seq<string>, tableRows: seq<seq<string>>)
    returns (blocks': seq<Block>, i': nat, inTable': bool, tableHeaders': seq<string>, tableRows': seq<seq<string>>)
    requires i < |lines|
    ensures var (emitted, next, buf) := Apply(kind, lines, i, TableBuffer(inTable, tableHeaders, tableRows));
      blocks' == blocks + emitted && i' == next && TableBuffer(inTable', tableHeaders', tableRows') == buf
  {
    blocks', i', inTable', tableHeaders', tableRows' := blocks, i, inTable, tableHeaders, tableRows;
    match kind {
      case BlankLine =>
        if inTable' && tableHeaders' != [] {
          blocks' := blocks' + [Table(tableHeaders', tableRows')];
          inTable' := false;
          tableHeaders' := [];
          tableRows' := [];
        }
      case RuleLine =>
        if inTable' && tableHeaders' != [] {
          blocks' := blocks' + [Table(tableHeaders', tableRows')];
          inTable' := false;
          tableHeaders' := [];
          tableRows' := [];
        }
        AppendAssoc(blocks, Flush(TableBuffer(inTable, tableHeaders, tableRows)), [PageBreak]);
        blocks' := blocks' + [PageBreak];
      case HeadingLine(level, title) =>
        blocks' := blocks' + [Heading(level, title)];
      case TableLine(cells) =>
        if !inTable' {
          tableHeaders' := cells;
          inTable' := true;
          if i' + 1 < |lines| && ContainsStr(lines[i' + 1], "|--") {
            i' := i' + 1;
          }
        } else {
          tableRows' := tableRows' + [cells];
        }
      case SeparatorLine =>
      case BulletLine(text) =>
        blocks' := blocks' + [Bullet(ProcessInline(text))];
      case NumberedLine(num, text) =>
        blocks' := blocks' + [Numbered(num, ProcessInline(text))];
      case PlainLine(text) =>
        blocks' := blocks' + [Paragraph(ProcessInline(text))];
    }
    i' := i' + 1;
  }

  /** `add_markdown`. */
  method AddMarkdown(content: string) returns (blocks: seq<Block>)
    ensures blocks == Segment(content)
  {
    var lines := Split(content, '\n');
    var i := 0;
    var inTable := false;
    var tableHeaders: seq<string> := [];
    var tableRows: seq<seq<string>> := [];
    blocks := [];
    ghost var kinds := Kinds(lines);
    while i < |lines|
      invariant i <= |lines|
      invariant blocks + Run(lines, kinds, i, TableBuffer(inTable, tableHeaders, tableRows)) == Segment(content)
      decreases |lines| - i
    {
      ghost var buf := TableBuffer(inTable, tableHeaders, tableRows);
      var kind := Classify(PyStrip(lines[i]));
      assert kind == kinds[i];
      ghost var step := Apply(kind, lines, i, buf);
      assert Run(lines, kinds, i, buf) == step.0 + Run(lines, kinds, step.1, step.2);
      AppendAssoc(blocks, step.0, Run(lines, kinds, step.1, step.2));
      blocks, i, inTable, tableHeaders, tableRows := HandleLine(lines, i, kind, blocks, inTable, tableHeaders, tableRows);
    }
    if inTable && tableHeaders != [] {
      blocks := blocks + [Table(tableHeaders, tableRows)];
    }
  }

  /** A string that contains `sub` contains its first character. */
  lemma ContainsFirst(s: string, sub: string)
    requires |sub| >= 1 && ContainsStr(s, sub)
    ensures sub[0] in s
  {
    var i := ContainsStrWitness(s, sub);
    assert s[i] == s[i..i + |sub|][0];
  }

  /** Stripped lines `# T`, `## T` and `### T` are headings of level 1, 2 and 3 whose title
      is `T` as written: no inline stripping is applied to it. */
  lemma HeadingsKeepRawTitle(t: string)
    ensures Classify("# " + t) == HeadingLine(1, t)
    ensures Classify("## " + t) == HeadingLine(2, t)
    ensures Classify("### " + t) == HeadingLine(3, t)
  {
    var h1, h2, h3 := "# " + t, "## " + t, "### " + t;
    assert h1[0] == '#' && h1[..2] == "# " && h1[2..] == t;
    assert h2[0] == '#' && h2[1] == '#' && h2[..3] == "## " && h2[3..] == t;
    assert h3[0] == '#' && h3[1] == '#' && h3[2] == '#' && h3[..4] == "### " && h3[4..] == t;
    assert !StartsWith(h2, "# ") by { assert h2[..2][1] == '#'; }
    assert !StartsWith(h3, "# ") by { assert h3[..2][1] == '#'; }
    assert !StartsWith(h3, "## ") by { assert h3[..3][2] == '#'; }
  }

  /** A fourth-level heading is not a heading: without a pipe it is a paragraph of the
      whole line. */
  lemma FourthLevelIsParagraph(t: string)
    requires '|' !in t
    ensures Classify("#### " + t) == PlainLine("#### " + t)
  {
    var h := "#### " + t;
    assert h[0] == '#' && h[1] == '#' && h[2] == '#' && h[3] == '#';
    assert !StartsWith(h, "# ") by { assert h[..2][1] == '#'; }
    assert !StartsWith(h, "## ") by { assert h[..3][2] == '#'; }
    assert !StartsWith(h, "### ") by { assert h[..4][3] == '#'; }
    assert '|' !in h by {
      assert forall k :: 5 <= k < |h| ==> h[k] == t[k - 5];
    }
    PlainTextKind(h);
    assert !StartsWith(h, "- ") by { assert h[..2][0] == '#'; }
    assert !StartsWith(h, "* ") by { assert h[..2][0] == '#'; }
    assert Span(h, IsDigit) == 0;
  }

  /** A checkbox line `- [ ] T` or `- [x] T` is a bullet whose text keeps the box: the
      bullet test comes first, so the checkbox test never strips it. */
  lemma CheckboxIsBullet(box: string, t: string)
    requires box == "[ ]" || box == "[x]"
    requires '|' !in t
    ensures Classify("- " + box + t) == BulletLine(box + t)
  {
    var line := "- " + box + t;
    assert line[0] == '-' && line[1] == ' ';
    assert line != "---" && line != "***";
    assert !StartsWith(line, "# ") && !StartsWith(line, "## ") && !StartsWith(line, "### ") by {
      assert line[..2][0] == '-';
    }
    assert '|' !in line by {
      assert forall k :: 2 + |box| <= k < |line| ==> line[k] == t[k - 2 - |box|];
      assert forall k :: 2 <= k < 2 + |box| ==> line[k] == box[k - 2];
    }
    PlainTextKind(line);
    assert line[..2] == "- " && line[2..] == box + t;
  }

  /** `Span` is determined by the first character that fails the test. */
  lemma SpanIs(s: string, p: char -> bool, n: nat)
    requires n <= |s| && (forall k :: 0 <= k < n ==> p(s[k])) && (n < |s| ==> !p(s[n]))
    ensures Span(s, p) == n
  {
  }

  /** The regular expression on a line made of a digit string, a dot, whitespace and text
      not starting with whitespace captures the digit string and the text. */
  lemma NumberedMatchOf(num: string, ws: string, text: string)
    requires |num| >= 1 && forall k :: 0 <= k < |num| ==> IsDigit(num[k])
    requires |ws| >= 1 && forall k :: 0 <= k < |ws| ==> IsPySpace(ws[k])
    requires |text| >= 1 && !IsPySpace(text[0])
    ensures NumberedMatch(num + "." + ws + text) == Some((num, text))
  {
    assert num + "." + ws + text == num + "." + (ws + text);
    DigitRun(num, ws + text);
    SpaceRun(ws, text);
  }

  /** The digit run of `num` followed by a dot ends at the dot. */
  lemma DigitRun(num: string, rest: string)
    requires forall k :: 0 <= k < |num| ==> IsDigit(num[k])
    ensures var line := num + "." + rest;
      Span(line, IsDigit) == |num| && line[|num|] == '.' && line[..|num|] == num && line[|num| + 1..] == rest
  {
    var line := num + "." + rest;
    assert line[|num|] == '.';
    assert forall k :: 0 <= k < |num| ==> line[k] == num[k];
    SpanIs(line, IsDigit, |num|);
    assert line[..|num|] == num && line[|num| + 1..] == rest;
  }

  /** The whitespace run of `ws` followed by text that does not start with whitespace
      ends at the text. */
  lemma SpaceRun(ws: string, text: string)
    requires forall k :: 0 <= k < |ws| ==> IsPySpace(ws[k])
    requires |text| >= 1 && !IsPySpace(text[0])
    ensures Span(ws + text, IsPySpace) == |ws| && (ws + text)[|ws|..] == text
  {
    var after := ws + text;
    assert forall k :: 0 <= k < |ws| ==> after[k] == ws[k];
    assert after[|ws|] == text[0];
    SpanIs(after, IsPySpace, |ws|);
    assert after[|ws|..] == text;
  }

  /** A line that starts with a digit and has no pipe is a numbered item when the regular
      expression matches it, and a paragraph otherwise. */
  lemma DigitLineKind(line: string)
    requires |line| >= 1 && IsDigit(line[0]) && '|' !in line
    ensures Classify(line) == match NumberedMatch(line)
      case Some((num, text)) => NumberedLine(num, text)
      case None => PlainLine(line)
  {
    assert line != "---" && line != "***";
    assert !StartsWith(line, "# ") && !StartsWith(line, "## ") && !StartsWith(line, "### ")
        && !StartsWith(line, "- ") && !StartsWith(line, "* ") by {
      assert |line| >= 2 ==> line[..2][0] == line[0];
    }
    PlainTextKind(line);
  }

  /** A line made of a digit string, a dot, whitespace and text not starting with
      whitespace is a numbered item whose ordinal is the digit string as written. */
  lemma NumberedItem(num: string, ws: string, text: string)
    requires |num| >= 1 && forall k :: 0 <= k < |num| ==> IsDigit(num[k])
    requires |ws| >= 1 && forall k :: 0 <= k < |ws| ==> IsPySpace(ws[k])
    requires |text| >= 1 && !IsPySpace(text[0]) && '|' !in text
    ensures Classify(num + "." + ws + text) == NumberedLine(num, text)
  {
    var line := num + "." + ws + text;
    NumberedMatchOf(num, ws, text);
    NumberedLineNoPipe(num, ws, text);
    DigitLineKind(line);
  }

  /** Such a line starts with a digit and holds no pipe. */
  lemma NumberedLineNoPipe(num: string, ws: string, text: string)
    requires |num| >= 1 && forall k :: 0 <= k < |num| ==> IsDigit(num[k])
    requires forall k :: 0 <= k < |ws| ==> IsPySpace(ws[k])
    requires '|' !in text
    ensures IsDigit((num + "." + ws + text)[0]) && '|' !in num + "." + ws + text
  {
    assert (num + "." + ws + text)[0] == num[0];
    assert '|' !in num by {
      assert forall k :: 0 <= k < |num| ==> IsDigit(num[k]);
    }
    assert '|' !in ws by {
      assert forall k :: 0 <= k < |ws| ==> IsPySpace(ws[k]);
    }
  }

  /** Conversely, a numbered item comes from a line of that form: the digit string and a
      dot, at least one whitespace character, then the text. */
  lemma NumberedShape(line: string)
    requires NumberedMatch(line).Some?
    ensures var (num, text) := NumberedMatch(line).value;
      |num| >= 1 && (forall k :: 0 <= k < |num| ==> IsDigit(num[k]))
      && |text| >= 1 && !IsPySpace(text[0])
      && |num| + 2 + |text| <= |line|
      && line[..|num|] == num && line[|num|] == '.' && line[|line| - |text|..] == text
      && forall k :: |num| + 1 <= k < |line| - |text| ==> IsPySpace(line[k])
  {
    var n, w := NumberedParts(line);
  }

  /** The two runs the regular expression reads: `n` digits, then after the dot `w`
      whitespace characters, then the text. */
  lemma NumberedParts(line: string) returns (n: nat, w: nat)
    requires NumberedMatch(line).Some?
    ensures 1 <= n && n + 1 + w < |line| && 1 <= w && line[n] == '.'
    ensures forall k :: 0 <= k < n ==> IsDigit(line[k])
    ensures forall k :: n + 1 <= k < n + 1 + w ==> IsPySpace(line[k])
    ensures !IsPySpace(line[n + 1 + w])
    ensures NumberedMatch(line).value == (line[..n], line[n + 1 + w..])
  {
    n := Span(line, IsDigit);
    var after := line[n + 1..];
    w := Span(after, IsPySpace);
    assert after[w] == line[n + 1 + w];
    assert after[w..] == line[n + 1 + w..];
    SpacesBetween(line, n, after, w);
  }

  /** The whitespace run after the dot, read back in the whole line. */
  lemma SpacesBetween(line: string, n: nat, after: string, w: nat)
    requires n < |line| && after == line[n + 1..] && w <= |after|
    requires forall k :: 0 <= k < w ==> IsPySpace(after[k])
    ensures forall k :: n + 1 <= k < n + 1 + w ==> IsPySpace(line[k])
  {
    forall k | n + 1 <= k < n + 1 + w
      ensures IsPySpace(line[k])
    {
      assert line[k] == after[k - n - 1];
    }
  }

  /** A stripped line starting with `|--` never draws anything. */
  lemma DashLineDrawsNothing(line: string, lines: seq<string>, i: nat, buf: TableBuffer)
    requires StartsWith(line, "|--") && i < |lines|
    ensures Classify(line) == SeparatorLine
    ensures Apply(Classify(line), lines, i, buf) == ([], i + 1, buf)
  {
    assert line[0] == '|' && line[1] == '-';
    assert line != "---" && line != "***";
    assert !StartsWith(line, "# ") && !StartsWith(line, "## ") && !StartsWith(line, "### ") by {
      assert line[..2][0] == '|';
    }
  }

  /** Headings, bullets, numbered items and paragraphs draw one block each and leave a
      pending table pending. */
  lemma TextLinesLeaveTablePending(kind: LineKind, lines: seq<string>, i: nat, buf: TableBuffer)
    requires i < |lines|
    requires kind.HeadingLine? || kind.BulletLine? || kind.NumberedLine? || kind.PlainLine?
    ensures var (emitted, next, buf') := Apply(kind, lines, i, buf);
      |emitted| == 1 && !emitted[0].Table? && !emitted[0].PageBreak? && next == i + 1 && buf' == buf
  {
  }

  /** Only a blank line or a rule flushes: a table is drawn exactly when one is pending, the
      buffer is then emptied, and a table buffer with no headers stays open. A rule always
      ends with a page break. */
  lemma FlushAtBlankOrRule(kind: LineKind, lines: seq<string>, i: nat, buf: TableBuffer)
    requires i < |lines| && (kind.BlankLine? || kind.RuleLine?)
    ensures var (emitted, next, buf') := Apply(kind, lines, i, buf);
      next == i + 1
      && (Pending(buf) ==> emitted[0] == Table(buf.headers, buf.rows) && buf' == EmptyBuffer)
      && (!Pending(buf) ==> (forall k :: 0 <= k < |emitted| ==> !emitted[k].Table?) && buf' == buf)
      && (buf.inTable && buf.headers == [] ==> buf'.inTable)
      && (kind.RuleLine? <==> |emitted| >= 1 && emitted[|emitted| - 1] == PageBreak)
  {
  }

  /** Any other line draws no table; an open table keeps its headers and only gains rows. */
  lemma NoFlushElsewhere(kind: LineKind, lines: seq<string>, i: nat, buf: TableBuffer)
    requires i < |lines| && !kind.BlankLine? && !kind.RuleLine?
    ensures var (emitted, next, buf') := Apply(kind, lines, i, buf);
      (forall k :: 0 <= k < |emitted| ==> !emitted[k].Table?)
      && (buf.inTable ==> buf'.inTable && buf'.headers == buf.headers && buf.rows <= buf'.rows)
  {
  }

  /** A table line draws nothing. The first one sets the headers, and the line after it is
      skipped when it contains `|--`; later ones append a row. */
  lemma TableLineStep(cells: seq<string>, lines: seq<string>, i: nat, buf: TableBuffer)
    requires i < |lines|
    ensures var (emitted, next, buf') := Apply(TableLine(cells), lines, i, buf);
      emitted == [] && buf'.inTable
      && (!buf.inTable ==> buf'.headers == cells && buf'.rows == buf.rows)
      && (buf.inTable ==> buf'.headers == buf.headers && buf'.rows == buf.rows + [cells])
      && (next == i + 2 <==> !buf.inTable && i + 1 < |lines| && ContainsStr(lines[i + 1], "|--"))
  {
  }

  /** Cells as a table line yields them: non-empty and free of pipes. */
  predicate CellsOk(cells: seq<string>) {
    forall k :: 0 <= k < |cells| ==> cells[k] != "" && '|' !in cells[k]
  }

  predicate RowsOk(rows: seq<seq<string>>) {
    forall r :: 0 <= r < |rows| ==> CellsOk(rows[r])
  }

  predicate BufferOk(buf: TableBuffer) {
    CellsOk(buf.headers) && RowsOk(buf.rows)
  }

  /** A drawn table has at least one header, and all its cells are well formed. */
  predicate WellFormedTable(b: Block) {
    b.Table? ==> b.headers != [] && CellsOk(b.headers) && RowsOk(b.rows)
  }

  predicate AllTablesWellFormed(bs: seq<Block>) {
    forall k :: 0 <= k < |bs| ==> WellFormedTable(bs[k])
  }

  lemma AllTablesAppend(a: seq<Block>, b: seq<Block>)
    requires AllTablesWellFormed(a) && AllTablesWellFormed(b)
    ensures AllTablesWellFormed(a + b)
  {
    forall k | 0 <= k < |a + b|
      ensures WellFormedTable((a + b)[k])
    {
      if k >= |a| {
        assert (a + b)[k] == b[k - |a|];
      }
    }
  }

  /** Only the table test yields a table line, with the cells of the line. */
  lemma TableLineIs(line: string)
    requires Classify(line).TableLine?
    ensures IsTableLine(line) && Classify(line).cells == Cells(line)
  {
    if line == "" {
    } else if IsRule(line) {
    } else if StartsWith(line, "# ") || StartsWith(line, "## ") || StartsWith(line, "### ") {
    } else if IsTableLine(line) {
    } else if IsSeparator(line) {
    } else if StartsWith(line, "- ") || StartsWith(line, "* ") {
    }
  }

  /** The cells a table line yields are well formed. */
  lemma TableLineCells(raw: string)
    requires KindOf(raw).TableLine?
    ensures CellsOk(KindOf(raw).cells)
  {
    TableLineIs(PyStrip(raw));
  }

  /** One step draws only well-formed tables and keeps the buffer well formed. */
  lemma ApplyKeepsTablesWellFormed(kind: LineKind, lines: seq<string>, i: nat, buf: TableBuffer)
    requires i < |lines| && BufferOk(buf) && (kind.TableLine? ==> CellsOk(kind.cells))
    ensures var (emitted, _, next) := Apply(kind, lines, i, buf);
      AllTablesWellFormed(emitted) && BufferOk(next)
  {
    if kind.RuleLine? {
      AllTablesAppend(Flush(buf), [PageBreak]);
    }
  }

  /** Every table `add_markdown` draws has headers and well-formed cells, so the table
      renderer's zero-column case is never reached from it. */
  lemma {:induction false} TablesWellFormed(lines: seq<string>, i: nat, buf: TableBuffer)
    requires i <= |lines| && BufferOk(buf)
    ensures AllTablesWellFormed(Run(lines, Kinds(lines), i, buf))
    decreases |lines| - i
  {
    var kinds := Kinds(lines);
    if i < |lines| {
      var (emitted, j, next) := Apply(kinds[i], lines, i, buf);
      if kinds[i].TableLine? {
        TableLineCells(lines[i]);
      }
      ApplyKeepsTablesWellFormed(kinds[i], lines, i, buf);
      TablesWellFormed(lines, j, next);
      AllTablesAppend(emitted, Run(lines, kinds, j, next));
    }
  }

  lemma SegmentTablesWellFormed(content: string)
    ensures AllTablesWellFormed(Segment(content))
  {
    TablesWellFormed(Split(content, '\n'), 0, EmptyBuffer);
  }

  predicate IsPageBreak(b: Block) {
    b.PageBreak?
  }

  predicate IsRuleKind(kind: LineKind) {
    kind.RuleLine?
  }

  /** Only the rule test yields a rule line. */
  lemma RuleLineIs(line: string)
    requires !IsRule(line)
    ensures !Classify(line).RuleLine?
  {
    if line == "" {
    } else if StartsWith(line, "# ") || StartsWith(line, "## ") || StartsWith(line, "### ") {
    } else if IsTableLine(line) {
    } else if IsSeparator(line) {
    } else if StartsWith(line, "- ") || StartsWith(line, "* ") {
    }
  }

  /** A line with a pipe is not a rule. */
  lemma PipeIsNoRule(line: string)
    requires '|' in line
    ensures !IsRule(line)
  {
  }

  /** Stripping keeps every character that is not whitespace. */
  lemma StripKeeps(raw: string, c: char)
    requires c in raw && !IsPySpace(c)
    ensures c in PyStrip(raw)
  {
    var t := TrimStart(raw, IsPySpace);
    var r := TrimEnd(t, IsPySpace);
    var p :| 0 <= p < |raw| && raw[p] == c;
    assert p >= |raw| - |t|;
    var q := p - (|raw| - |t|);
    assert t[q] == c;
    assert q < |r|;
    assert r[q] == c;
  }

  /** A raw line with a pipe does not strip to a rule. */
  lemma PipeLineNotRule(raw: string)
    requires '|' in raw
    ensures !KindOf(raw).RuleLine?
  {
    StripKeeps(raw, '|');
    PipeIsNoRule(PyStrip(raw));
    RuleLineIs(PyStrip(raw));
  }

  /** One step draws a page break exactly when its line is a rule. */
  lemma ApplyPageBreaks(kind: LineKind, lines: seq<string>, i: nat, buf: TableBuffer)
    requires i < |lines|
    ensures Count(Apply(kind, lines, i, buf).0, IsPageBreak) == if kind.RuleLine? then 1 else 0
  {
    assert Count(Flush(buf), IsPageBreak) == 0;
    if kind.RuleLine? {
      CountAppend(Flush(buf), [PageBreak], IsPageBreak);
    }
  }

  /** Each `---` or `***` line forces exactly one new page, and nothing else does: the page
      breaks drawn from line `i` on are as many as the rule lines from there. */
  lemma {:induction false} PageBreakPerRule(lines: seq<string>, i: nat, buf: TableBuffer)
    requires i <= |lines|
    ensures Count(Run(lines, Kinds(lines), i, buf), IsPageBreak) == Count(Kinds(lines)[i..], IsRuleKind)
    decreases |lines| - i
  {
    var kinds := Kinds(lines);
    if i == |lines| {
      assert Count(Flush(buf), IsPageBreak) == 0;
      assert kinds[i..] == [];
    } else {
      var (emitted, j, next) := Apply(kinds[i], lines, i, buf);
      var rest := Run(lines, kinds, j, next);
      CountAppend(emitted, rest, IsPageBreak);
      ApplyPageBreaks(kinds[i], lines, i, buf);
      PageBreakPerRule(lines, j, next);
      RuleCountStep(kinds, i);
      if j == i + 2 {
        SkippedNotRule(lines, i + 1);
        RuleCountStep(kinds, i + 1);
      }
      assert Count(kinds[i..], IsRuleKind) == Count(emitted, IsPageBreak) + Count(kinds[j..], IsRuleKind);
    }
  }

  /** Counting rule kinds one position at a time. */
  lemma RuleCountStep(kinds: seq<LineKind>, i: nat)
    requires i < |kinds|
    ensures Count(kinds[i..], IsRuleKind) == (if kinds[i].RuleLine? then 1 else 0) + Count(kinds[i + 1..], IsRuleKind)
  {
    assert kinds[i..][1..] == kinds[i + 1..];
  }

  /** The separator line skipped after a table's header line is not a rule. */
  lemma SkippedNotRule(lines: seq<string>, k: nat)
    requires k < |lines| && ContainsStr(lines[k], "|--")
    ensures !Kinds(lines)[k].RuleLine?
  {
    ContainsFirst(lines[k], "|--");
    PipeLineNotRule(lines[k]);
  }

  lemma SegmentPageBreaks(content: string)
    ensures Count(Segment(content), IsPageBreak) == Count(Kinds(Split(content, '\n')), IsRuleKind)
  {
    var lines := Split(content, '\n');
    PageBreakPerRule(lines, 0, EmptyBuffer);
    assert Kinds(lines)[0..] == Kinds(lines);
  }
}
