/** The terminal layout helpers of bench.ts: `createBox` draws a frame around
    a block of text and `createTable` draws a table with one column per
    header. Both only pad and join strings, and both promise that every line
    they produce has the same width. */
module Layout {
  import opened Text

  // ---------------------------------------------------------------------
  // createBox
  // ---------------------------------------------------------------------

  /** `Math.max(...lines.map(line => line.length))`; split never yields an
      empty list, so the maximum is over at least one length. */
  function MaxLength(lines: seq<string>): (r: nat)
    requires |lines| >= 1
    ensures forall k :: 0 <= k < |lines| ==> |lines[k]| <= r
    ensures exists k :: 0 <= k < |lines| && |lines[k]| == r
  {
    if |lines| == 1 then |lines[0]|
    else
      var m := MaxLength(lines[1..]);
      assert forall k :: 1 <= k < |lines| ==> lines[k] == lines[1..][k - 1];
      if |lines[0]| >= m then |lines[0]| else m
  }

  /** The inner width of the box: the longest line plus the padding on each side. */
  function BoxWidth(lines: seq<string>, padding: nat): nat
    requires |lines| >= 1
  {
    MaxLength(lines) + padding * 2
  }

  /** One framed line: the left padding, the text, then spaces up to the
      inner width. The right-hand count `width - |line| - padding` equals
      `MaxLength - |line| + padding`, so it is never negative. */
  function FramedLine(line: string, padding: nat, width: nat): (f: string)
    requires |line| + 2 * padding <= width
    ensures |f| == width + 2
  {
    "│" + Repeat(' ', padding) + line + Repeat(' ', width - |line| - padding) + "│"
  }

  /** The top or bottom rule of a box: a corner, `width` fill characters,
      a corner. */
  function BoxRule(left: char, fill: char, right: char, width: nat): (r: string)
    ensures |r| == width + 2
  {
    [left] + Repeat(fill, width) + [right]
  }

  /** Every text line framed. */
  function FramedLines(lines: seq<string>, padding: nat, width: nat): seq<string>
    requires forall k :: 0 <= k < |lines| ==> |lines[k]| + 2 * padding <= width
  {
    seq(|lines|, i requires 0 <= i < |lines| => FramedLine(lines[i], padding, width))
  }

  /** The lines of `createBox(text, padding)` before they are joined. */
  function BoxLines(text: string, padding: nat): seq<string>
  {
    var lines := Split(text, '\n');
    var width := BoxWidth(lines, padding);
    [BoxRule('┌', '─', '┐', width)] + FramedLines(lines, padding, width) + [BoxRule('└', '─', '┘', width)]
  }

  /** `createBox(text, padding = 1)` (bench.ts:27-39). */
  function CreateBox(text: string, padding: nat := 1): string
  {
    Join(BoxLines(text, padding), "\n")
  }

  /** A framed line is `width + 2` wide, opens and closes with the frame,
      and carries its text behind the left frame and `padding` spaces; from
      the end of the text up to the right frame there are only spaces, so
      the last `padding` characters before the frame are spaces. */
  lemma FramedLineShape(line: string, padding: nat, width: nat)
    requires |line| + 2 * padding <= width
    ensures var f := FramedLine(line, padding, width);
            && |f| == width + 2
            && f[0] == '│' && f[width + 1] == '│'
            && f[padding + 1 .. padding + 1 + |line|] == line
            && (forall j :: 1 <= j <= padding ==> f[j] == ' ')
            && (forall j :: padding + 1 + |line| <= j <= width ==> f[j] == ' ')
            && (forall j :: width + 1 - padding <= j <= width ==> f[j] == ' ')
  {
    var pre := "│" + Repeat(' ', padding);
    var post := Repeat(' ', width - |line| - padding) + "│";
    var f := FramedLine(line, padding, width);
    assert f == pre + line + post;
    forall j | padding + 1 + |line| <= j <= width ensures f[j] == ' ' {
      assert f[j] == post[j - padding - 1 - |line|];
    }
  }

  /** A rule line (a corner, a run of one fill character, a corner) has no
      line break when none of its characters is one. */
  lemma RuleHasNoBreak(left: char, fill: char, right: char, width: nat)
    requires left != '\n' && fill != '\n' && right != '\n'
    ensures '\n' !in BoxRule(left, fill, right, width)
  {
    var run := Repeat(fill, width);
    assert '\n' !in run;
  }

  /** A framed text line has no line break when the text has none. */
  lemma FramedLineHasNoBreak(line: string, padding: nat, width: nat)
    requires |line| + 2 * padding <= width
    requires '\n' !in line
    ensures '\n' !in FramedLine(line, padding, width)
  {
    var left := Repeat(' ', padding);
    var right := Repeat(' ', width - |line| - padding);
    assert '\n' !in left && '\n' !in right;
  }

  /** No line of the box contains a line break. */
  lemma BoxLinesHaveNoBreak(text: string, padding: nat)
    ensures forall k :: 0 <= k < |BoxLines(text, padding)| ==> '\n' !in BoxLines(text, padding)[k]
  {
    var lines := Split(text, '\n');
    var width := BoxWidth(lines, padding);
    var bl := BoxLines(text, padding);
    SplitHasNoSeparator(text, '\n');
    RuleHasNoBreak('┌', '─', '┐', width);
    RuleHasNoBreak('└', '─', '┘', width);
    var middle := FramedLines(lines, padding, width);
    forall k | 0 <= k < |bl| ensures '\n' !in bl[k] {
      if 1 <= k <= |lines| {
        var line := lines[k - 1];
        assert bl[k] == middle[k - 1] == FramedLine(line, padding, width);
        FramedLineHasNoBreak(line, padding, width);
      }
    }
  }

  /** No text line runs into the right frame: the widest line sets the
      width, so every line leaves at least `padding` spaces on its right, and
      the last `padding` characters before the right frame of every framed
      line of the box are spaces. */
  lemma BoxRightPadding(text: string, padding: nat)
    ensures var bl := BoxLines(text, padding);
            var lines := Split(text, '\n');
            var width := BoxWidth(lines, padding);
            && |bl| == |lines| + 2
            && (forall i :: 0 <= i < |lines| ==> width - |lines[i]| - padding >= padding)
            && (forall k, j :: 1 <= k <= |lines| && width + 1 - padding <= j <= width ==> bl[k][j] == ' ')
  {
    var lines := Split(text, '\n');
    var width := BoxWidth(lines, padding);
    var bl := BoxLines(text, padding);
    BoxLinesShape(text, padding);
    forall k, j | 1 <= k <= |lines| && width + 1 - padding <= j <= width ensures bl[k][j] == ' ' {
      FramedLineShape(lines[k - 1], padding, width);
    }
  }

  /** Splitting the box at its line breaks gives back exactly its lines. */
  lemma BoxSplits(text: string, padding: nat)
    ensures Split(CreateBox(text, padding), '\n') == BoxLines(text, padding)
  {
    BoxLinesHaveNoBreak(text, padding);
    SplitJoin(BoxLines(text, padding), '\n');
  }

  /** The lines of the box, before joining: two more than the text, the
      top and bottom rules around the framed text lines, all as wide. */
  lemma BoxLinesShape(text: string, padding: nat)
    ensures var bl := BoxLines(text, padding);
            var lines := Split(text, '\n');
            var width := BoxWidth(lines, padding);
            && |bl| == |lines| + 2
            && (forall k :: 0 <= k < |bl| ==> |bl[k]| == width + 2)
            && bl[0] == BoxRule('┌', '─', '┐', width)
            && bl[|bl| - 1] == BoxRule('└', '─', '┘', width)
            && (forall i :: 0 <= i < |lines| ==> bl[i + 1] == FramedLine(lines[i], padding, width))
  {
    var lines := Split(text, '\n');
    var width := BoxWidth(lines, padding);
    var top := BoxRule('┌', '─', '┐', width);
    var bottom := BoxRule('└', '─', '┘', width);
    var middle := FramedLines(lines, padding, width);
    var bl := BoxLines(text, padding);
    assert |bl| == |lines| + 2;
    assert bl[0] == top;
    assert bl[|bl| - 1] == bottom;
    forall i | 0 <= i < |lines| ensures bl[i + 1] == FramedLine(lines[i], padding, width) {
      assert bl[i + 1] == middle[i];
    }
    forall k | 0 <= k < |bl| ensures |bl[k]| == width + 2 {
      if 1 <= k <= |lines| {
        assert bl[k] == middle[k - 1];
      }
    }
  }

  /** The box has two more lines than the text; the first and last are the
      top and bottom rules, each line in between is the framed text line,
      and every line is `maxLen + 2 * padding + 2` characters wide. */
  lemma BoxShape(text: string, padding: nat)
    ensures var out := Split(CreateBox(text, padding), '\n');
            var lines := Split(text, '\n');
            var width := BoxWidth(lines, padding);
            && |out| == |lines| + 2
            && (forall k :: 0 <= k < |out| ==> |out[k]| == width + 2)
            && out[0] == BoxRule('┌', '─', '┐', width)
            && out[|out| - 1] == BoxRule('└', '─', '┘', width)
            && (forall i :: 0 <= i < |lines| ==> out[i + 1] == FramedLine(lines[i], padding, width))
  {
    BoxSplits(text, padding);
    BoxLinesShape(text, padding);
  }

  // ---------------------------------------------------------------------
  // createTable
  // ---------------------------------------------------------------------

  /** `(row[i] || "")`: a missing cell reads as the empty string. */
  function CellAt(row: seq<string>, i: nat): string
  {
    if i < |row| then row[i] else ""
  }

  /** The longest cell of column `i` over all rows (0 without rows). */
  function ColumnMax(rows: seq<seq<string>>, i: nat): (r: nat)
    ensures forall k :: 0 <= k < |rows| ==> |CellAt(rows[k], i)| <= r
    ensures r == 0 || exists k :: 0 <= k < |rows| && |CellAt(rows[k], i)| == r
  {
    if |rows| == 0 then 0
    else
      var m := ColumnMax(rows[1..], i);
      assert forall k :: 1 <= k < |rows| ==> rows[k] == rows[1..][k - 1];
      if |CellAt(rows[0], i)| >= m then |CellAt(rows[0], i)| else m
  }

  /** `colWidths`: per header, the widest of the header and its column's
      cells, plus two. Every column is thus at least two characters wider
      than anything placed in it, and exactly two wider than its widest
      entry. */
  function ColWidths(headers: seq<string>, rows: seq<seq<string>>): (ws: seq<nat>)
    ensures |ws| == |headers|
    ensures forall i :: 0 <= i < |ws| ==> ws[i] >= |headers[i]| + 2
    ensures forall i, k :: 0 <= i < |ws| && 0 <= k < |rows| ==> ws[i] >= |CellAt(rows[k], i)| + 2
    ensures forall i :: 0 <= i < |ws| ==>
              ws[i] == |headers[i]| + 2 || exists k :: 0 <= k < |rows| && ws[i] == |CellAt(rows[k], i)| + 2
  {
    seq(|headers|, i requires 0 <= i < |headers| =>
      (if |headers[i]| >= ColumnMax(rows, i) then |headers[i]| else ColumnMax(rows, i)) + 2)
  }

  /** A horizontal rule: one run of `fill` per column, joined by `mid`. */
  function RuleLine(left: char, fill: char, mid: char, right: char, ws: seq<nat>): string
  {
    [left] + Join(seq(|ws|, j requires 0 <= j < |ws| => Repeat(fill, ws[j])), [mid]) + [right]
  }

  /** `cell.padEnd(colWidths[j])`; past the last column `colWidths[j]` is
      undefined and `padEnd(undefined)` leaves the cell as it is. */
  function PadCell(cells: seq<string>, ws: seq<nat>, j: nat): string
    requires j < |cells|
  {
    if j < |ws| then PadEnd(cells[j], ws[j]) else cells[j]
  }

  /** A row of cells between vertical bars. */
  function RowLine(cells: seq<string>, ws: seq<nat>): string
  {
    "│" + Join(seq(|cells|, j requires 0 <= j < |cells| => PadCell(cells, ws, j)), "│") + "│"
  }

  /** `dataRows`: one row line per row. */
  function RowLines(rows: seq<seq<string>>, ws: seq<nat>): seq<string>
  {
    seq(|rows|, i requires 0 <= i < |rows| => RowLine(rows[i], ws))
  }

  /** The lines of `createTable(headers, rows)` before they are joined. The
      source also computes a `├┼┤` separator that it never uses. */
  function TableLines(headers: seq<string>, rows: seq<seq<string>>): seq<string>
  {
    var ws := ColWidths(headers, rows);
    [RuleLine('┌', '─', '┬', '┐', ws), RowLine(headers, ws), RuleLine('╞', '═', '╪', '╡', ws)]
      + RowLines(rows, ws)
      + [RuleLine('└', '─', '┴', '┘', ws)]
  }

  /** `createTable(headers, rows)` (bench.ts:41-71). */
  function CreateTable(headers: seq<string>, rows: seq<seq<string>>): string
  {
    Join(TableLines(headers, rows), "\n")
  }

  /** The width every line of a table with these column widths has. */
  function LineWidth(ws: seq<nat>): nat
  {
    if |ws| == 0 then 2 else SumNat(ws) + |ws| + 1
  }

  lemma RuleLineWidth(left: char, fill: char, mid: char, right: char, ws: seq<nat>)
    ensures |RuleLine(left, fill, mid, right, ws)| == LineWidth(ws)
  {
    var parts := seq(|ws|, j requires 0 <= j < |ws| => Repeat(fill, ws[j]));
    if |ws| > 0 {
      JoinLength(parts, [mid]);
      TotalLengthOfWidths(parts, ws);
    }
  }

  /** A row with one cell per column is as wide as the rules, and every
      cell in it is padded to exactly its column's width. */
  lemma RowLineWidth(cells: seq<string>, ws: seq<nat>)
    requires |cells| == |ws|
    requires forall j :: 0 <= j < |ws| ==> |cells[j]| <= ws[j]
    ensures |RowLine(cells, ws)| == LineWidth(ws)
  {
    var parts := seq(|cells|, j requires 0 <= j < |cells| => PadCell(cells, ws, j));
    if |ws| > 0 {
      JoinLength(parts, "│");
      assert forall j :: 0 <= j < |parts| ==> |parts[j]| == ws[j];
      TotalLengthOfWidths(parts, ws);
    }
  }

  /** A padded cell of a table starts with the cell's text and fills its
      column exactly, leaving at least two trailing spaces. */
  lemma PaddedCell(headers: seq<string>, rows: seq<seq<string>>, r: nat, j: nat)
    requires r < |rows| && j < |rows[r]| && j < |headers|
    ensures var ws := ColWidths(headers, rows);
            var p := PadCell(rows[r], ws, j);
            && |p| == ws[j] && p[..|rows[r][j]|] == rows[r][j] && |rows[r][j]| + 2 <= |p|
            && (forall i :: |rows[r][j]| <= i < |p| ==> p[i] == ' ')
  {
    var ws := ColWidths(headers, rows);
    assert CellAt(rows[r], j) == rows[r][j];
    assert ws[j] >= |CellAt(rows[r], j)| + 2;
  }

  /** When every row has one cell per header, the table has `|rows| + 4`
      lines (top, header, header rule, the rows, bottom) and they all have
      the same width. */
  lemma TableShape(headers: seq<string>, rows: seq<seq<string>>)
    requires forall r :: 0 <= r < |rows| ==> |rows[r]| == |headers|
    ensures var lines := TableLines(headers, rows);
            && |lines| == |rows| + 4
            && forall k :: 0 <= k < |lines| ==> |lines[k]| == LineWidth(ColWidths(headers, rows))
  {
    var ws := ColWidths(headers, rows);
    var lines := TableLines(headers, rows);
    RuleLineWidth('┌', '─', '┬', '┐', ws);
    RuleLineWidth('╞', '═', '╪', '╡', ws);
    RuleLineWidth('└', '─', '┴', '┘', ws);
    RowLineWidth(headers, ws);
    forall r | 0 <= r < |rows| ensures |RowLine(rows[r], ws)| == LineWidth(ws) {
      forall j | 0 <= j < |ws| ensures |rows[r][j]| <= ws[j] {
        assert CellAt(rows[r], j) == rows[r][j];
      }
      RowLineWidth(rows[r], ws);
    }
    var body := RowLines(rows, ws);
    assert |lines| == |rows| + 4;
    forall k | 0 <= k < |lines| ensures |lines[k]| == LineWidth(ws) {
      if 3 <= k < |lines| - 1 {
        assert lines[k] == body[k - 3];
      }
    }
  }

  /** A row whose cells hold no line break is one line. */
  lemma RowLineHasNoBreak(cells: seq<string>, ws: seq<nat>)
    requires forall j :: 0 <= j < |cells| ==> '\n' !in cells[j]
    ensures '\n' !in RowLine(cells, ws)
  {
    var parts := seq(|cells|, j requires 0 <= j < |cells| => PadCell(cells, ws, j));
    forall j | 0 <= j < |parts| ensures '\n' !in parts[j] {
      if j < |ws| && |cells[j]| < ws[j] {
        assert parts[j] == cells[j] + Repeat(' ', ws[j] - |cells[j]|);
      }
    }
    JoinAvoids(parts, "│", '\n');
  }

  lemma RuleLineHasNoBreak(left: char, fill: char, mid: char, right: char, ws: seq<nat>)
    requires '\n' !in [left, fill, mid, right]
    ensures '\n' !in RuleLine(left, fill, mid, right, ws)
  {
    var parts := seq(|ws|, j requires 0 <= j < |ws| => Repeat(fill, ws[j]));
    JoinAvoids(parts, [mid], '\n');
  }

  /** When no header or cell holds a line break, splitting the table at its
      line breaks gives back exactly its lines. */
  lemma TableSplits(headers: seq<string>, rows: seq<seq<string>>)
    requires forall j :: 0 <= j < |headers| ==> '\n' !in headers[j]
    requires forall r, j :: 0 <= r < |rows| && 0 <= j < |rows[r]| ==> '\n' !in rows[r][j]
    ensures Split(CreateTable(headers, rows), '\n') == TableLines(headers, rows)
  {
    var ws := ColWidths(headers, rows);
    var lines := TableLines(headers, rows);
    RuleLineHasNoBreak('┌', '─', '┬', '┐', ws);
    RuleLineHasNoBreak('╞', '═', '╪', '╡', ws);
    RuleLineHasNoBreak('└', '─', '┴', '┘', ws);
    RowLineHasNoBreak(headers, ws);
    var body := RowLines(rows, ws);
    forall k | 0 <= k < |lines| ensures '\n' !in lines[k] {
      if 3 <= k < |lines| - 1 {
        assert lines[k] == body[k - 3];
        RowLineHasNoBreak(rows[k - 3], ws);
      }
    }
    SplitJoin(lines, '\n');
  }
}
