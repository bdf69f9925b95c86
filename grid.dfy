/**
 * The program grid of arghonaut/interpreter.py (and its copy in arghonaut.py):
 * rows of integer character codes, every row exactly Columns cells wide,
 * with bounds-checked reads and writes.
 */
module Grid {
  import opened Wrappers
  import opened Codec

  /** Argh! programs are exactly 80 columns wide. */
  const Columns := 80

  /** The code grid, indexed code[y][x]. Cells may leave the chr range through arithmetic. */
  type Code = seq<seq<int>>

  predicate WellFormed(code: Code) {
    forall y :: 0 <= y < |code| ==> |code[y]| == Columns
  }

  /** is_valid: a row of the grid and a column of that row; on a well-formed grid, inside 80 columns. */
  predicate IsValid(code: Code, x: int, y: int) {
    0 <= y < |code| && 0 <= x < |code[y]|
  }

  /** On a grid of full rows, the valid cells are those inside 80 columns and the row count. */
  lemma ValidOnFullRows(code: Code, x: int, y: int)
    requires WellFormed(code)
    ensures IsValid(code, x, y) <==> 0 <= x < Columns && 0 <= y < |code|
  {
  }

  /** The cell at (x, y), or None outside the grid. */
  function Get(code: Code, x: int, y: int): (r: Option<int>)
    ensures r.Some? <==> IsValid(code, x, y)
    ensures r.Some? ==> r.value == code[y][x]
    ensures WellFormed(code) ==> (r.Some? <==> 0 <= x < Columns && 0 <= y < |code|)
  {
    if IsValid(code, x, y) then Some(code[y][x]) else None
  }

  /** Writes one cell if (x, y) is in the grid; anything else is a no-op. */
  function Put(code: Code, symbol: int, x: int, y: int): (r: Code)
    ensures |r| == |code|
    ensures forall j :: 0 <= j < |code| ==> |r[j]| == |code[j]|
    ensures WellFormed(code) ==> WellFormed(r)
    ensures IsValid(code, x, y) ==> r[y][x] == symbol
    ensures forall j, i :: 0 <= j < |code| && 0 <= i < |code[j]| && (i, j) != (x, y) ==> r[j][i] == code[j][i]
    ensures !IsValid(code, x, y) ==> r == code
  {
    if IsValid(code, x, y) then code[y := code[y][x := symbol]] else code
  }

  /** The cell that column x of a padded source line holds. */
  function PadCell(line: seq<CodePoint>, x: nat): int {
    if x < |line| then line[x] else Space
  }

  function PadRow(line: seq<CodePoint>): (row: seq<int>)
    ensures |row| == Columns
    ensures forall x :: 0 <= x < Columns ==> row[x] == PadCell(line, x)
  {
    seq(Columns, x requires 0 <= x => PadCell(line, x))
  }

  /** The grid the constructor builds from the source lines. */
  function FromLines(lines: seq<seq<CodePoint>>): (code: Code)
    ensures |code| == |lines|
    ensures WellFormed(code)
    ensures forall y :: 0 <= y < |lines| ==> code[y] == PadRow(lines[y])
  {
    seq(|lines|, y requires 0 <= y < |lines| => PadRow(lines[y]))
  }

  function Spaces(n: nat): (r: seq<int>)
    ensures |r| == n && forall i :: 0 <= i < n ==> r[i] == Space
  {
    seq(n, _ => Space)
  }

  /** A short line is padded with spaces, a long one is cut at Columns. */
  lemma PadRowPadsOrTruncates(line: seq<CodePoint>)
    ensures |line| <= Columns ==> PadRow(line) == line + Spaces(Columns - |line|)
    ensures |line| >= Columns ==> PadRow(line) == line[..Columns]
  {
    var row := PadRow(line);
    if |line| <= Columns {
      var padded := line + Spaces(Columns - |line|);
      assert forall x :: 0 <= x < Columns ==> row[x] == padded[x];
    } else {
      assert forall x :: 0 <= x < Columns ==> row[x] == line[..Columns][x];
    }
  }

  /** new_line: one more row of spaces at the bottom. */
  function NewLine(code: Code): (r: Code)
    ensures |r| == |code| + 1 && r[..|code|] == code
    ensures r[|code|] == Spaces(Columns)
    ensures WellFormed(code) ==> WellFormed(r)
  {
    code + [Spaces(Columns)]
  }

  predicate AllChr(code: Code) {
    forall y, x :: 0 <= y < |code| && 0 <= x < |code[y]| ==> IsChr(code[y][x])
  }

  /**
   * code_to_string: every row as a Python text, or None (chr raises) when a
   * cell lies outside the chr range.
   */
  function ToText(code: Code): (r: Option<seq<seq<CodePoint>>>)
    ensures r.Some? <==> AllChr(code)
    ensures r.Some? ==> |r.value| == |code| && forall y :: 0 <= y < |code| ==> r.value[y] == code[y]
  {
    if AllChr(code) then Some(code) else None
  }

  /** A padded line is unchanged by padding it again. */
  lemma PadRowOfFullRow(row: seq<CodePoint>)
    requires |row| == Columns
    ensures PadRow(row) == row
  {
    var padded := PadRow(row);
    assert forall x :: 0 <= x < Columns ==> padded[x] == row[x];
  }

  /** Reloading the exported text of a grid gives the grid back. */
  lemma {:induction false} ExportImportRoundTrip(code: Code)
    requires WellFormed(code) && AllChr(code)
    ensures ToText(code).Some? && FromLines(ToText(code).value) == code
  {
    var lines := ToText(code).value;
    var back := FromLines(lines);
    forall y | 0 <= y < |code|
      ensures back[y] == code[y]
    {
      PadRowOfFullRow(lines[y]);
    }
  }

  /** Exporting a freshly loaded grid gives the padded source lines. */
  lemma ImportExport(lines: seq<seq<CodePoint>>)
    ensures ToText(FromLines(lines)) == Some(FromLines(lines))
  {
    var code := FromLines(lines);
    forall y, x | 0 <= y < |code| && 0 <= x < |code[y]|
      ensures IsChr(code[y][x])
    {
      assert code[y][x] == PadCell(lines[y], x);
    }
  }
}
