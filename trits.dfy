/**
 * The cells of the `tt` package's numpy arrays: 0, 1, or 2 for a
 * don't-care; how a row of cells is written (`str(c)` per cell, 2 replaced
 * by a don't-care glyph) and how `_line_to_list` reads a section back.
 */
module Trits {
  import opened Base
  import opened Builtins

  /** A cell: 0, 1, or 2 for don't-care. */
  type Trit = x: int | 0 <= x <= 2

  /** The symbols `_line_to_list` accepts. */
  predicate IsCellChar(c: char) {
    c == '0' || c == '1' || c == '-' || c == '~'
  }

  /** The cell `_line_to_list` appends for an accepted symbol. */
  function CellOf(c: char): Trit
    requires IsCellChar(c)
  {
    if c == '0' then 0 else if c == '1' then 1 else 2
  }

  /**
   * `_line_to_list`: one cell per character, '-' and '~' both read as 2; a
   * ValueError at any other character.
   */
  function ToCells(line: string): (r: Result<seq<Trit>>)
    ensures r.Ok? <==> forall i :: 0 <= i < |line| ==> IsCellChar(line[i])
    ensures r.Ok? ==> |r.value| == |line| && forall i :: 0 <= i < |line| ==> r.value[i] == CellOf(line[i])
    ensures r.Err? ==> r.error == ValueError(BadSymbol)
  {
    if line == [] then Ok([])
    else
      var n := |line| - 1;
      match ToCells(line[..n])
      case Err(e) => Err(e)
      case Ok(front) =>
        if IsCellChar(line[n]) then
          var r := front + [CellOf(line[n])];
          assert forall i :: 0 <= i < n ==> line[..n][i] == line[i];
          Ok(r)
        else Err(ValueError(BadSymbol))
  }

  /** The loop of `_line_to_list`, appending one cell per character. */
  method LineToList(line: string) returns (r: Result<seq<Trit>>)
    ensures r == ToCells(line)
  {
    var cells: seq<Trit> := [];
    for k := 0 to |line|
      invariant ToCells(line[..k]) == Ok(cells)
    {
      assert line[..k + 1][..k] == line[..k];
      var c := line[k];
      if c == '0' {
        cells := cells + [0];
      } else if c == '1' {
        cells := cells + [1];
      } else if c == '-' || c == '~' {
        cells := cells + [2];
      } else {
        CellsFailureSticks(line, k + 1);
        return Err(ValueError(BadSymbol));
      }
    }
    assert line[..|line|] == line;
    return Ok(cells);
  }

  lemma {:induction false} CellsFailureSticks(line: string, k: nat)
    requires k <= |line| && ToCells(line[..k]).Err?
    ensures ToCells(line) == ToCells(line[..k])
    decreases |line| - k
  {
    if k < |line| {
      assert line[..k + 1][..k] == line[..k];
      CellsFailureSticks(line, k + 1);
    } else {
      assert line[..k] == line;
    }
  }

  /** `str(c)` of one cell, with 2 written as the don't-care glyph `dc`. */
  function Glyph(c: Trit, dc: char): char {
    if c == 0 then '0' else if c == 1 then '1' else dc
  }

  /** `''.join(str(c) for c in row).replace('2', dc)`. */
  function Render(row: seq<Trit>, dc: char): (s: string)
    ensures |s| == |row|
  {
    seq(|row|, i requires 0 <= i < |row| => Glyph(row[i], dc))
  }

  /** A written row reads back as the same cells, whichever glyph stood for 2. */
  lemma ReadRendered(row: seq<Trit>, dc: char)
    requires dc == '-' || dc == '~'
    ensures ToCells(Render(row, dc)) == Ok(row)
  {
    var s := Render(row, dc);
    assert forall i :: 0 <= i < |s| ==> IsCellChar(s[i]) && CellOf(s[i]) == row[i];
    assert ToCells(s).value == row;
  }

  /** A written row has no blank in it and, with '-' for 2, is a cube section. */
  lemma RenderedIsWord(row: seq<Trit>, dc: char)
    requires dc == '-' || dc == '~'
    ensures NoSpace(Render(row, dc)) && NoLineBreak(Render(row, dc))
    ensures row != [] ==> Render(row, dc)[0] in {'1', '0', '-', '~'}
  {
  }
}
