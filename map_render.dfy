/** What the map builder shows and writes: the bordered text view of the grid
    (`print_map`) and the comma-separated rows (`export_map`), stated on values. */
module MapRender {
  import opened MapRaster

  /** `map.reverse()`: the last row (the northernmost) comes first. */
  function Reversed(m: seq<seq<int>>): (r: seq<seq<int>>)
    ensures |r| == |m|
  {
    seq(|m|, k requires 0 <= k < |m| => m[|m| - 1 - k])
  }

  /** Reversing the rows twice gives the grid back. */
  lemma ReversedTwice(m: seq<seq<int>>)
    ensures Reversed(Reversed(m)) == m
  {
  }

  /** The two-character picture of a cell code. */
  function Glyph(v: int): (s: string)
    requires EMPTY <= v <= START_CELL
    ensures |s| == 2 && s[0] == ' '
  {
    if v == EMPTY then "  "
    else if v == PATH then " X"
    else if v == IR_CELL then " I"
    else if v == MAGNETIC_CELL then " M"
    else if v == END_CELL then " E"
    else " S"
  }

  /** Reading a picture back: the second character names the code (-1 if none). */
  function CodeOfGlyph(ch: char): int {
    if ch == ' ' then EMPTY
    else if ch == 'X' then PATH
    else if ch == 'I' then IR_CELL
    else if ch == 'M' then MAGNETIC_CELL
    else if ch == 'E' then END_CELL
    else if ch == 'S' then START_CELL
    else -1
  }

  /** `''.join(tokens)`. */
  function Join(tokens: seq<string>): string {
    if tokens == [] then "" else Join(tokens[..|tokens| - 1]) + tokens[|tokens| - 1]
  }

  function GlyphTokens(row: seq<int>): seq<string>
    requires forall j :: 0 <= j < |row| ==> EMPTY <= row[j] <= START_CELL
  {
    seq(|row|, j requires 0 <= j < |row| => Glyph(row[j]))
  }

  /** The tokens of one displayed row: the left wall, one picture per cell, the right wall. */
  function RowTokens(row: seq<int>): seq<string>
    requires forall j :: 0 <= j < |row| ==> EMPTY <= row[j] <= START_CELL
  {
    ["#"] + GlyphTokens(row) + [" #"]
  }

  /** The border is built while the first row is drawn: "#", " #", and one " #" per cell. */
  function BorderTokens(w: nat): seq<string> {
    ["#", " #"] + seq(w, _ => " #")
  }

  /** Every line `print_map` prints, in order: a border before the first row (only
      when there is one), the rows, and a border after the last. */
  function RenderLines(rows: seq<seq<int>>): (lines: seq<string>)
    requires KnownCodes(rows)
    ensures |lines| == |rows| + (if rows == [] then 1 else 2)
    ensures lines[0] == lines[|lines| - 1]
  {
    if |rows| == 0 then [Join(BorderTokens(0))]
    else
      [Join(BorderTokens(|rows[0]|))]
      + seq(|rows|, k requires 0 <= k < |rows| => Join(RowTokens(rows[k])))
      + [Join(BorderTokens(|rows[0]|))]
  }

  /** Read the cell codes back out of a displayed row. */
  function ParseRow(line: string): seq<int>
    requires |line| >= 3
  {
    seq((|line| - 3) / 2, j requires 0 <= j < (|line| - 3) / 2 => CodeOfGlyph(line[2 + 2 * j]))
  }

  /** Decimal text of an integer, as Python's f-string writes it. */
  function DigitChar(d: int): char
    requires 0 <= d <= 9
  {
    "0123456789"[d]
  }

  function NatToString(n: nat): string
    decreases n
  {
    if n < 10 then [DigitChar(n)] else NatToString(n / 10) + [DigitChar(n % 10)]
  }

  function IntToString(i: int): string {
    if i < 0 then "-" + NatToString(-i) else NatToString(i)
  }

  /** The first w cells of a row, each followed by a comma. */
  function CsvCells(row: seq<int>, w: nat): string
    requires w <= |row|
  {
    if w == 0 then "" else CsvCells(row, w - 1) + IntToString(row[w - 1]) + ","
  }

  /** The rows `export_map` writes: the first w cells of each row, then a newline. */
  function ExportLines(m: seq<seq<int>>, w: nat): (rows: seq<string>)
    requires forall y :: 0 <= y < |m| ==> w <= |m[y]|
    ensures |rows| == |m|
    ensures forall y :: 0 <= y < |m| ==> |rows[y]| > 0 && rows[y][|rows[y]| - 1] == '\n'
  {
    seq(|m|, y requires 0 <= y < |m| => CsvCells(m[y], w) + "\n")
  }

  /** Digit characters read back. */
  function DigitValue(ch: char): int {
    if '0' <= ch <= '9' then ch as int - '0' as int else -1
  }

  /** Read single-digit cells back out of an exported row. */
  function ParseCsv(line: string): seq<int> {
    seq(|line| / 2, j requires 0 <= j < |line| / 2 => DigitValue(line[2 * j]))
  }

  // ---------------------------------------------------------------------------

  lemma {:induction false} JoinAppend(a: seq<string>, b: seq<string>)
    ensures Join(a + b) == Join(a) + Join(b)
    decreases |b|
  {
    if b == [] {
      assert a + b == a;
    } else {
      var b' := b[..|b| - 1];
      assert (a + b)[..|a + b| - 1] == a + b';
      assert (a + b)[|a + b| - 1] == b[|b| - 1];
      JoinAppend(a, b');
      assert Join(b) == Join(b') + b[|b| - 1];
    }
  }

  /** The pictures of a row take two characters per cell: a space, then the code's letter. */
  lemma {:induction false} GlyphsAt(row: seq<int>)
    requires forall j :: 0 <= j < |row| ==> EMPTY <= row[j] <= START_CELL
    ensures |Join(GlyphTokens(row))| == 2 * |row|
    ensures forall j :: 0 <= j < |row| ==>
      Join(GlyphTokens(row))[2 * j] == ' ' && CodeOfGlyph(Join(GlyphTokens(row))[2 * j + 1]) == row[j]
    decreases |row|
  {
    if row != [] {
      var n := |row| - 1;
      var front := row[..n];
      GlyphsAt(front);
      assert GlyphTokens(row) == GlyphTokens(front) + [Glyph(row[n])];
      JoinAppend(GlyphTokens(front), [Glyph(row[n])]);
      assert Join([Glyph(row[n])]) == Glyph(row[n]) by {
        assert [Glyph(row[n])][..0] == [];
      }
      var t := Join(GlyphTokens(front));
      var gl := Glyph(row[n]);
      var s := Join(GlyphTokens(row));
      assert s == t + gl;
      forall j | 0 <= j < |row|
        ensures s[2 * j] == ' ' && CodeOfGlyph(s[2 * j + 1]) == row[j]
      {
        if j < n {
          assert s[2 * j] == t[2 * j] && s[2 * j + 1] == t[2 * j + 1];
          assert front[j] == row[j];
        } else {
          assert s[2 * j] == gl[0] && s[2 * j + 1] == gl[1];
          GlyphRoundTrip(row[n]);
        }
      }
    }
  }

  /** The letter of a cell's picture names the cell's code. */
  lemma GlyphRoundTrip(v: int)
    requires EMPTY <= v <= START_CELL
    ensures CodeOfGlyph(Glyph(v)[1]) == v
  {
  }

  /** A displayed row is "#", two characters per cell, then " #"; it is 2w + 3
      characters long and reading it back gives the row. */
  lemma RowLineRoundTrip(row: seq<int>)
    requires forall j :: 0 <= j < |row| ==> EMPTY <= row[j] <= START_CELL
    ensures |Join(RowTokens(row))| == 2 * |row| + 3
    ensures Join(RowTokens(row))[0] == '#' && Join(RowTokens(row))[2 * |row| + 2] == '#'
    ensures ParseRow(Join(RowTokens(row))) == row
  {
    var g := GlyphTokens(row);
    var body := Join(g);
    var line := Join(RowTokens(row));
    assert line == "#" + body + " #" by {
      JoinAppend(["#"] + g, [" #"]);
      JoinAppend(["#"], g);
      assert Join(["#"]) == "#" by { assert ["#"][..0] == []; }
      assert Join([" #"]) == " #" by { assert [" #"][..0] == []; }
    }
    GlyphsAt(row);
    assert |line| == 2 * |row| + 3;
    var parsed := ParseRow(line);
    assert |parsed| == |row|;
    forall j | 0 <= j < |row|
      ensures parsed[j] == row[j]
    {
      assert line[2 + 2 * j] == body[2 * j + 1];
    }
  }

  /** The border has the same 2w + 3 characters as a row of w cells: '#' then w + 1 " #". */
  lemma {:induction false} BorderLine(w: nat)
    ensures |Join(BorderTokens(w))| == 2 * w + 3
    ensures Join(BorderTokens(w))[0] == '#'
    ensures forall k :: 0 <= k <= w ==> Join(BorderTokens(w))[2 * k + 1] == ' ' && Join(BorderTokens(w))[2 * k + 2] == '#'
    decreases w
  {
    if w == 0 {
      assert BorderTokens(0) == ["#", " #"];
      assert ["#", " #"][..1] == ["#"];
      assert ["#"][..0] == [];
    } else {
      BorderLine(w - 1);
      assert BorderTokens(w) == BorderTokens(w - 1) + [" #"];
      assert BorderTokens(w)[..|BorderTokens(w)| - 1] == BorderTokens(w - 1);
    }
  }

  /** `print_map` shape: a border line, one line per row in the order given, a border
      line; every line 2w + 3 characters wide; each row line reads back as its row. */
  lemma RenderLinesShape(rows: seq<seq<int>>)
    requires KnownCodes(rows) && |rows| > 0
    requires forall k :: 0 <= k < |rows| ==> |rows[k]| == |rows[0]|
    ensures |RenderLines(rows)| == |rows| + 2
    ensures RenderLines(rows)[0] == RenderLines(rows)[|rows| + 1] == Join(BorderTokens(|rows[0]|))
    ensures forall k :: 0 <= k < |rows| + 2 ==> |RenderLines(rows)[k]| == 2 * |rows[0]| + 3
    ensures forall k :: 0 <= k < |rows| ==> ParseRow(RenderLines(rows)[k + 1]) == rows[k]
  {
    var lines := RenderLines(rows);
    BorderLine(|rows[0]|);
    forall k | 0 <= k < |rows|
      ensures |lines[k + 1]| == 2 * |rows[0]| + 3 && ParseRow(lines[k + 1]) == rows[k]
    {
      RowLineRoundTrip(rows[k]);
    }
  }

  /** An exported row of single-digit cells is "d,d,...,": two characters per cell,
      and reading it back gives the cells. */
  lemma {:induction false} CsvCellsRoundTrip(row: seq<int>, w: nat)
    requires w <= |row| && forall j :: 0 <= j < |row| ==> 0 <= row[j] <= 9
    ensures |CsvCells(row, w)| == 2 * w
    ensures forall x :: 0 <= x < w ==> CsvCells(row, w)[2 * x + 1] == ','
    ensures ParseCsv(CsvCells(row, w)) == row[..w]
    decreases w
  {
    if w > 0 {
      CsvCellsRoundTrip(row, w - 1);
      var s := CsvCells(row, w);
      assert IntToString(row[w - 1]) == [DigitChar(row[w - 1])];
      assert s == CsvCells(row, w - 1) + [DigitChar(row[w - 1]), ','];
      forall x | 0 <= x < w
        ensures DigitValue(s[2 * x]) == row[x] && s[2 * x + 1] == ','
      {
        if x < w - 1 {
          assert s[2 * x] == CsvCells(row, w - 1)[2 * x];
          assert DigitValue(CsvCells(row, w - 1)[2 * x]) == ParseCsv(CsvCells(row, w - 1))[x];
        }
      }
    }
  }
}
