/** Bitboards of the 7 x 6 game: seven bits a column, the seventh a sentinel that stays clear. */
module Connect4Board {

  const WIDTH := 7
  const HEIGHT := 6
  const SIZE := 42
  const SIZE1 := 49

  const BOTTOM: bv64 := 0x0408_1020_4081       // bit 0 of every column
  const TOP: bv64 := 0x1_0204_0810_2040        // bit 6 of every column

  predicate IsLegal(board: bv64) {
    board & TOP == 0
  }

  /** Four in a row by shifting the board onto itself: by one step of the direction, then by two. */
  predicate HasWon(board: bv64) {
    Folded6(board) != 0 || Folded7(board) != 0 || Folded8(board) != 0 || Folded1(board) != 0
  }

  predicate IsLegalHasWon(board: bv64) {
    IsLegal(board) && HasWon(board)
  }

  function Folded6(board: bv64): (z: bv64) {
    var y := board & (board >> 6);
    y & (y >> 12)
  }

  function Folded7(board: bv64): (z: bv64) {
    var y := board & (board >> 7);
    y & (y >> 14)
  }

  function Folded8(board: bv64): (z: bv64) {
    var y := board & (board >> 8);
    y & (y >> 16)
  }

  function Folded1(board: bv64): (z: bv64) {
    var y := board & (board >> 1);
    y & (y >> 2)
  }

  function RowBit(r: int): (b: bv64) {
    if r == 0 then 0x1 else if r == 1 then 0x2 else if r == 2 then 0x4 else if r == 3 then 0x8
    else if r == 4 then 0x10 else if r == 5 then 0x20 else 0x40
  }

  /** The bit `1 << i` of a board, as a table by column and row. */
  function Bit(i: nat): (b: bv64)
    requires i < SIZE1
  {
    if i < 7 then RowBit(i) else if i < 14 then RowBit(i - 7) << 7 else if i < 21 then RowBit(i - 14) << 14
    else if i < 28 then RowBit(i - 21) << 21 else if i < 35 then RowBit(i - 28) << 28
    else if i < 42 then RowBit(i - 35) << 35 else RowBit(i - 42) << 42
  }

  lemma BitIsShift(i: nat)
    requires i < SIZE1
    ensures Bit(i) == 1 << i
  {
    if i < 7 {} else if i < 14 {} else if i < 21 {} else if i < 28 {} else if i < 35 {} else if i < 42 {} else {}
  }

  lemma BitNext(i: nat)
    requires i < SIZE1 - 1
    ensures Bit(i + 1) == Bit(i) << 1
  {
    if i < 7 {} else if i < 14 {} else if i < 21 {} else if i < 28 {} else if i < 35 {} else if i < 42 {} else {}
  }

  predicate OnGrid(col: int, row: int) {
    0 <= col < WIDTH && 0 <= row < HEIGHT
  }

  /** The bit of a cell. */
  function Cell(col: int, row: int): (b: bv64)
    requires OnGrid(col, row)
  {
    if col == 0 then RowBit(row) else if col == 1 then RowBit(row) << 7 else if col == 2 then RowBit(row) << 14
    else if col == 3 then RowBit(row) << 21 else if col == 4 then RowBit(row) << 28
    else if col == 5 then RowBit(row) << 35 else RowBit(row) << 42
  }

  lemma CellIsBit(col: int, row: int)
    requires OnGrid(col, row)
    ensures Cell(col, row) == Bit(7 * col + row)
  {
    if col == 0 {} else if col == 1 {} else if col == 2 {} else if col == 3 {} else if col == 4 {} else
    if col == 5 {} else {}
  }

  /** The four cells from (col, row) on in direction (dc, dr), when all of them are on the grid. */
  predicate LineOnGrid(col: int, row: int, dc: int, dr: int) {
    && OnGrid(col, row) && OnGrid(col + dc, row + dr)
    && OnGrid(col + 2 * dc, row + 2 * dr) && OnGrid(col + 3 * dc, row + 3 * dr)
  }

  function Line(col: int, row: int, dc: int, dr: int): (mask: bv64)
    requires LineOnGrid(col, row, dc, dr)
  {
    Cell(col, row) | Cell(col + dc, row + dr) | Cell(col + 2 * dc, row + 2 * dr) | Cell(col + 3 * dc, row + 3 * dr)
  }

  /** The board has all the stones of a mask. */
  predicate Covers(board: bv64, mask: bv64) { mask & !board == 0 }

  predicate HasLine(board: bv64, col: int, row: int, dc: int, dr: int) {
    LineOnGrid(col, row, dc, dr) && Covers(board, Line(col, row, dc, dr))
  }

  ghost predicate LineAlong(board: bv64, dc: int, dr: int) {
    exists col, row :: HasLine(board, col, row, dc, dr)
  }

  /** Some horizontal, vertical or diagonal line of four stones: the rule of the game. */
  ghost predicate HasFour(board: bv64) {
    LineAlong(board, 1, 0) || LineAlong(board, 0, 1) || LineAlong(board, 1, 1) || LineAlong(board, 1, -1)
  }

  /** A cell of a board that is not empty. */
  lemma SomeCell(z: bv64) returns (col: int, row: int)
    requires z != 0 && z <= 0x1_FFFF_FFFF_FFFF && z & 0x1_0204_0810_2040 == 0
    ensures OnGrid(col, row) && z & Cell(col, row) != 0
  {
    col := if z & 0x3F != 0 then 0 else if z & 0x1F80 != 0 then 1 else if z & 0xF_C000 != 0 then 2
      else if z & 0x7E0_0000 != 0 then 3 else if z & 0x3_F000_0000 != 0 then 4
      else if z & 0x1F8_0000_0000 != 0 then 5 else 6;
    row := if z & Cell(col, 0) != 0 then 0 else if z & Cell(col, 1) != 0 then 1 else if z & Cell(col, 2) != 0 then 2
      else if z & Cell(col, 3) != 0 then 3 else if z & Cell(col, 4) != 0 then 4 else 5;
  }

  lemma VerticalFolded(board: bv64, col: int, row: int)
    requires HasLine(board, col, row, 0, 1)
    ensures var y := board & (board >> 1); y & (y >> 2) != 0
  {
    if col == 0 {} else if col == 1 {} else if col == 2 {} else if col == 3 {} else if col == 4 {} else
    if col == 5 {} else {}
  }

  lemma VerticalOnGrid(board: bv64, col: int, row: int)
    requires board <= 0x1_FFFF_FFFF_FFFF && board & 0x1_0204_0810_2040 == 0 && OnGrid(col, row)
    requires var y := board & (board >> 1); (y & (y >> 2)) & Cell(col, row) != 0
    ensures LineOnGrid(col, row, 0, 1)
  {
    if row == 0 {} else if row == 1 {} else if row == 2 {} else if row == 3 {} else if row == 4 {} else {}
  }

  lemma VerticalFound(board: bv64, col: int, row: int)
    requires LineOnGrid(col, row, 0, 1)
    requires var y := board & (board >> 1); (y & (y >> 2)) & Cell(col, row) != 0
    ensures HasLine(board, col, row, 0, 1)
  {
    if col == 0 {
      if row == 0 {} else if row == 1 {} else if row == 2 {} else if row == 3 {} else if row == 4 {} else {}
    } else if col == 1 {} else if col == 2 {} else if col == 3 {} else if col == 4 {} else if col == 5 {} else {}
  }

  lemma VerticalFits(board: bv64)
    requires board <= 0x1_FFFF_FFFF_FFFF && board & 0x1_0204_0810_2040 == 0
    ensures var y := board & (board >> 1);
      y & (y >> 2) <= 0x1_FFFF_FFFF_FFFF && (y & (y >> 2)) & 0x1_0204_0810_2040 == 0
  {}

  lemma VerticalLines(board: bv64)
    requires IsLegal(board) && board <= 0x1_FFFF_FFFF_FFFF
    ensures Folded1(board) != 0 <==> LineAlong(board, 0, 1)
  {
    if Folded1(board) != 0 {
      VerticalFits(board);
      var col, row := SomeCell(Folded1(board));
      VerticalOnGrid(board, col, row);
      VerticalFound(board, col, row);
    }
    if col, row :| HasLine(board, col, row, 0, 1) {
      VerticalFolded(board, col, row);
    }
  }

  lemma FallingFolded(board: bv64, col: int, row: int)
    requires HasLine(board, col, row, 1, -1)
    ensures var y := board & (board >> 6); y & (y >> 12) != 0
  {}

  lemma FallingOnGrid(board: bv64, col: int, row: int)
    requires board <= 0x1_FFFF_FFFF_FFFF && board & 0x1_0204_0810_2040 == 0 && OnGrid(col, row)
    requires var y := board & (board >> 6); (y & (y >> 12)) & Cell(col, row) != 0
    ensures LineOnGrid(col, row, 1, -1)
  {
    if row == 0 {} else if row == 1 {} else if row == 2 {} else if row == 3 {} else if row == 4 {} else {}
  }

  lemma FallingFound(board: bv64, col: int, row: int)
    requires LineOnGrid(col, row, 1, -1)
    requires var y := board & (board >> 6); (y & (y >> 12)) & Cell(col, row) != 0
    ensures HasLine(board, col, row, 1, -1)
  {
    if col == 0 {
      if row == 0 {} else if row == 1 {} else if row == 2 {} else if row == 3 {} else if row == 4 {} else {}
    } else if col == 1 {} else if col == 2 {} else if col == 3 {} else if col == 4 {} else if col == 5 {} else {}
  }

  lemma FallingFits(board: bv64)
    requires board <= 0x1_FFFF_FFFF_FFFF && board & 0x1_0204_0810_2040 == 0
    ensures var y := board & (board >> 6);
      y & (y >> 12) <= 0x1_FFFF_FFFF_FFFF && (y & (y >> 12)) & 0x1_0204_0810_2040 == 0
  {}

  lemma FallingLines(board: bv64)
    requires IsLegal(board) && board <= 0x1_FFFF_FFFF_FFFF
    ensures Folded6(board) != 0 <==> LineAlong(board, 1, -1)
  {
    if Folded6(board) != 0 {
      FallingFits(board);
      var col, row := SomeCell(Folded6(board));
      FallingOnGrid(board, col, row);
      FallingFound(board, col, row);
    }
    if col, row :| HasLine(board, col, row, 1, -1) {
      FallingFolded(board, col, row);
    }
  }

  lemma LevelFolded(board: bv64, col: int, row: int)
    requires HasLine(board, col, row, 1, 0)
    ensures var y := board & (board >> 7); y & (y >> 14) != 0
  {}

  lemma LevelOnGrid(board: bv64, col: int, row: int)
    requires board <= 0x1_FFFF_FFFF_FFFF && board & 0x1_0204_0810_2040 == 0 && OnGrid(col, row)
    requires var y := board & (board >> 7); (y & (y >> 14)) & Cell(col, row) != 0
    ensures LineOnGrid(col, row, 1, 0)
  {
    if col == 0 {} else if col == 1 {} else if col == 2 {} else if col == 3 {} else if col == 4 {} else
    if col == 5 {} else {}
  }

  lemma LevelFound(board: bv64, col: int, row: int)
    requires LineOnGrid(col, row, 1, 0)
    requires var y := board & (board >> 7); (y & (y >> 14)) & Cell(col, row) != 0
    ensures HasLine(board, col, row, 1, 0)
  {
    if col == 0 {
      if row == 0 {} else if row == 1 {} else if row == 2 {} else if row == 3 {} else if row == 4 {} else {}
    } else if col == 1 {} else if col == 2 {} else if col == 3 {} else if col == 4 {} else if col == 5 {} else {}
  }

  lemma LevelFits(board: bv64)
    requires board <= 0x1_FFFF_FFFF_FFFF && board & 0x1_0204_0810_2040 == 0
    ensures var y := board & (board >> 7);
      y & (y >> 14) <= 0x1_FFFF_FFFF_FFFF && (y & (y >> 14)) & 0x1_0204_0810_2040 == 0
  {}

  lemma LevelLines(board: bv64)
    requires IsLegal(board) && board <= 0x1_FFFF_FFFF_FFFF
    ensures Folded7(board) != 0 <==> LineAlong(board, 1, 0)
  {
    if Folded7(board) != 0 {
      LevelFits(board);
      var col, row := SomeCell(Folded7(board));
      LevelOnGrid(board, col, row);
      LevelFound(board, col, row);
    }
    if col, row :| HasLine(board, col, row, 1, 0) {
      LevelFolded(board, col, row);
    }
  }

  lemma RisingFolded(board: bv64, col: int, row: int)
    requires HasLine(board, col, row, 1, 1)
    ensures var y := board & (board >> 8); y & (y >> 16) != 0
  {}

  lemma RisingOnGrid(board: bv64, col: int, row: int)
    requires board <= 0x1_FFFF_FFFF_FFFF && board & 0x1_0204_0810_2040 == 0 && OnGrid(col, row)
    requires var y := board & (board >> 8); (y & (y >> 16)) & Cell(col, row) != 0
    ensures LineOnGrid(col, row, 1, 1)
  {
    if row == 0 {} else if row == 1 {} else if row == 2 {} else if row == 3 {} else if row == 4 {} else {}
  }

  lemma RisingFound(board: bv64, col: int, row: int)
    requires LineOnGrid(col, row, 1, 1)
    requires var y := board & (board >> 8); (y & (y >> 16)) & Cell(col, row) != 0
    ensures HasLine(board, col, row, 1, 1)
  {
    if col == 0 {
      if row == 0 {} else if row == 1 {} else if row == 2 {} else if row == 3 {} else if row == 4 {} else {}
    } else if col == 1 {} else if col == 2 {} else if col == 3 {} else if col == 4 {} else if col == 5 {} else {}
  }

  lemma RisingFits(board: bv64)
    requires board <= 0x1_FFFF_FFFF_FFFF && board & 0x1_0204_0810_2040 == 0
    ensures var y := board & (board >> 8);
      y & (y >> 16) <= 0x1_FFFF_FFFF_FFFF && (y & (y >> 16)) & 0x1_0204_0810_2040 == 0
  {}

  lemma RisingLines(board: bv64)
    requires IsLegal(board) && board <= 0x1_FFFF_FFFF_FFFF
    ensures Folded8(board) != 0 <==> LineAlong(board, 1, 1)
  {
    if Folded8(board) != 0 {
      RisingFits(board);
      var col, row := SomeCell(Folded8(board));
      RisingOnGrid(board, col, row);
      RisingFound(board, col, row);
    }
    if col, row :| HasLine(board, col, row, 1, 1) {
      RisingFolded(board, col, row);
    }
  }

  /** The bit trick finds exactly the four-in-a-row lines of the grid: no shift wraps around a column's end. */
  lemma HasWonIsFour(board: bv64)
    requires IsLegal(board) && board <= 0x1_FFFF_FFFF_FFFF
    ensures HasWon(board) <==> HasFour(board)
  {
    VerticalLines(board);
    FallingLines(board);
    LevelLines(board);
    RisingLines(board);
  }
}
