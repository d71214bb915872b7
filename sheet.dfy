/** An openpyxl worksheet reduced to what `to_excel_bytes` uses: a map from
    (row, column) to a cell value and its style, the sheet bounds `max_row` and
    `max_column`, and the per-cell updates made through `ws[...]` and `iter_rows`.
    Styles (`Font`, `PatternFill`, `Border`, `Alignment`) are plain records. */
module Sheet {
  import opened Values

  /** A cell position; rows and columns count from 1 (column 1 is A). */
  datatype Pos = Pos(row: int, col: int)

  datatype Color = Automatic | Rgb(hex: string)
  datatype Font = DefaultFont | Font(bold: bool, color: Color)
  datatype Fill = NoFill | Solid(fgColor: string)
  datatype Side = NoSide | Thin
  datatype Border = Border(left: Side, right: Side, top: Side, bottom: Side)
  datatype Alignment = DefaultAlignment | Aligned(horizontal: string, vertical: string)
  datatype Style = Style(font: Font, fill: Fill, border: Border, alignment: Alignment)
  datatype Cell = Cell(value: Value, style: Style)

  const NoBorder: Border := Border(NoSide, NoSide, NoSide, NoSide)
  const DefaultStyle: Style := Style(DefaultFont, NoFill, NoBorder, DefaultAlignment)

  /** A cell openpyxl creates on first access: no value, the default style. */
  const Blank: Cell := Cell(Empty, DefaultStyle)

  function Max(a: int, b: int): int {
    if a < b then b else a
  }

  /** The cell at p as openpyxl hands it out: the stored one, or a blank one. */
  function At(cells: map<Pos, Cell>, p: Pos): Cell {
    if p in cells then cells[p] else Blank
  }

  predicate InBlock(p: Pos, fromRow: int, toRow: int, fromCol: int, toCol: int) {
    fromRow <= p.row <= toRow && fromCol <= p.col <= toCol
  }

  /** The positions `iter_rows(min_row=fromRow, max_row=toRow, min_col=fromCol, max_col=toCol)` visits. */
  function Block(fromRow: int, toRow: int, fromCol: int, toCol: int): (b: set<Pos>)
    ensures forall p :: p in b <==> InBlock(p, fromRow, toRow, fromCol, toCol)
  {
    set r, c | fromRow <= r <= toRow && fromCol <= c <= toCol :: Pos(r, c)
  }

  /** The number of indices from `from` to `to`, none when the range is empty. */
  function Span(from: int, to: int): nat {
    if to < from then 0 else to - from + 1
  }

  /** `iter_rows` over one row visits one cell per column of the range. */
  lemma {:induction false} RowSize(row: int, fromCol: int, toCol: int)
    ensures |Block(row, row, fromCol, toCol)| == Span(fromCol, toCol)
    decreases toCol - fromCol + 1
  {
    if toCol < fromCol {
      assert Block(row, row, fromCol, toCol) == {};
    } else {
      RowSize(row, fromCol, toCol - 1);
      assert Block(row, row, fromCol, toCol) == Block(row, row, fromCol, toCol - 1) + {Pos(row, toCol)};
      assert Pos(row, toCol) !in Block(row, row, fromCol, toCol - 1);
    }
  }

  /** `iter_rows` visits (rows in range) × (columns in range) cells, each once. */
  lemma {:induction false} BlockSize(fromRow: int, toRow: int, fromCol: int, toCol: int)
    ensures |Block(fromRow, toRow, fromCol, toCol)| == Span(fromRow, toRow) * Span(fromCol, toCol)
    decreases toRow - fromRow + 1
  {
    if toRow < fromRow {
      assert Block(fromRow, toRow, fromCol, toCol) == {};
    } else {
      var above := Block(fromRow, toRow - 1, fromCol, toCol);
      var last := Block(toRow, toRow, fromCol, toCol);
      BlockSize(fromRow, toRow - 1, fromCol, toCol);
      RowSize(toRow, fromCol, toCol);
      assert Block(fromRow, toRow, fromCol, toCol) == above + last;
      assert above !! last;
      var rows, cols := Span(fromRow, toRow - 1), Span(fromCol, toCol);
      assert Span(fromRow, toRow) == rows + 1;
      OneMoreRow(rows, cols);
    }
  }

  lemma OneMoreRow(rows: nat, cols: nat)
    ensures (rows + 1) * cols == rows * cols + cols
  {
  }

  /** The cells after `f` has been applied to every cell of a block, missing ones
      being created first; the cells outside the block are kept as they are. */
  function Restyled(cells: map<Pos, Cell>, fromRow: int, toRow: int, fromCol: int, toCol: int,
                    f: Cell -> Cell): (r: map<Pos, Cell>)
    ensures r.Keys == cells.Keys + Block(fromRow, toRow, fromCol, toCol)
  {
    map p | p in cells.Keys + Block(fromRow, toRow, fromCol, toCol) ::
      if InBlock(p, fromRow, toRow, fromCol, toCol) then f(At(cells, p)) else cells[p]
  }

  /** `ws[p] = v`: the value is replaced, the style of the cell is kept. */
  function WithValue(cells: map<Pos, Cell>, p: Pos, v: Value): map<Pos, Cell> {
    cells[p := At(cells, p).(value := v)]
  }

  /** `ws[p].font = font`. */
  function WithFont(cells: map<Pos, Cell>, p: Pos, font: Font): map<Pos, Cell> {
    cells[p := At(cells, p).(style := At(cells, p).style.(font := font))]
  }

  /** One cell of a restyled sheet: present when it was or when the block covers it,
      and updated exactly when the block covers it. */
  lemma RestyledCell(cells: map<Pos, Cell>, fromRow: int, toRow: int, fromCol: int, toCol: int,
                     f: Cell -> Cell, p: Pos)
    ensures var r := Restyled(cells, fromRow, toRow, fromCol, toCol, f);
      && (p in r <==> p in cells || InBlock(p, fromRow, toRow, fromCol, toCol))
      && At(r, p) == if InBlock(p, fromRow, toRow, fromCol, toCol) then f(At(cells, p)) else At(cells, p)
  {
  }

  /** An empty block changes nothing. */
  lemma RestyledEmpty(cells: map<Pos, Cell>, fromRow: int, toRow: int, fromCol: int, toCol: int, f: Cell -> Cell)
    requires toRow < fromRow || toCol < fromCol
    ensures Restyled(cells, fromRow, toRow, fromCol, toCol, f) == cells
  {
  }

  /** Visiting one more cell at the end of a row extends the block by that cell. */
  lemma RestyledNextCell(cells: map<Pos, Cell>, row: int, fromCol: int, col: int, f: Cell -> Cell)
    requires fromCol <= col
    ensures var m := Restyled(cells, row, row, fromCol, col - 1, f);
      m[Pos(row, col) := f(At(m, Pos(row, col)))] == Restyled(cells, row, row, fromCol, col, f)
  {
    var m := Restyled(cells, row, row, fromCol, col - 1, f);
    var m' := m[Pos(row, col) := f(At(m, Pos(row, col)))];
    var r := Restyled(cells, row, row, fromCol, col, f);
    assert At(m, Pos(row, col)) == At(cells, Pos(row, col));
    assert m'.Keys == r.Keys;
    forall p | p in r
      ensures m'[p] == r[p]
    {
    }
  }

  /** One row updated cell by cell from `fromCol` to `toCol`, as the inner loop does it. */
  function RowUpdated(cells: map<Pos, Cell>, row: int, fromCol: int, toCol: int, f: Cell -> Cell): map<Pos, Cell>
    decreases toCol - fromCol + 1
  {
    if toCol < fromCol then cells
    else
      var m := RowUpdated(cells, row, fromCol, toCol - 1, f);
      m[Pos(row, toCol) := f(At(m, Pos(row, toCol)))]
  }

  /** Updating the cells of a row one after the other is updating the row as a block. */
  lemma {:induction false} RowUpdatedIsRestyled(cells: map<Pos, Cell>, row: int, fromCol: int, toCol: int, f: Cell -> Cell)
    ensures RowUpdated(cells, row, fromCol, toCol, f) == Restyled(cells, row, row, fromCol, toCol, f)
    decreases toCol - fromCol + 1
  {
    if toCol < fromCol {
      RestyledEmpty(cells, row, row, fromCol, toCol, f);
    } else {
      RowUpdatedIsRestyled(cells, row, fromCol, toCol - 1, f);
      RestyledNextCell(cells, row, fromCol, toCol, f);
    }
  }

  /** A block updated row by row from `fromRow` to `toRow`, as the outer loop does it. */
  function BlockUpdated(cells: map<Pos, Cell>, fromRow: int, toRow: int, fromCol: int, toCol: int, f: Cell -> Cell): map<Pos, Cell>
    decreases toRow - fromRow + 1
  {
    if toRow < fromRow then cells
    else RowUpdated(BlockUpdated(cells, fromRow, toRow - 1, fromCol, toCol, f), toRow, fromCol, toCol, f)
  }

  /** Updating the rows of a block one after the other is updating the block as a whole. */
  lemma {:induction false} BlockUpdatedIsRestyled(cells: map<Pos, Cell>, fromRow: int, toRow: int, fromCol: int, toCol: int, f: Cell -> Cell)
    ensures BlockUpdated(cells, fromRow, toRow, fromCol, toCol, f) == Restyled(cells, fromRow, toRow, fromCol, toCol, f)
    decreases toRow - fromRow + 1
  {
    if toRow < fromRow {
      RestyledEmpty(cells, fromRow, toRow, fromCol, toCol, f);
    } else {
      var m := BlockUpdated(cells, fromRow, toRow - 1, fromCol, toCol, f);
      BlockUpdatedIsRestyled(cells, fromRow, toRow - 1, fromCol, toCol, f);
      RowUpdatedIsRestyled(m, toRow, fromCol, toCol, f);
      RestyledNextRow(cells, fromRow, toRow, fromCol, toCol, f);
    }
  }

  /** Visiting one more row extends the block by that row. */
  lemma RestyledNextRow(cells: map<Pos, Cell>, fromRow: int, row: int, fromCol: int, toCol: int, f: Cell -> Cell)
    requires fromRow <= row
    ensures Restyled(Restyled(cells, fromRow, row - 1, fromCol, toCol, f), row, row, fromCol, toCol, f)
      == Restyled(cells, fromRow, row, fromCol, toCol, f)
  {
    var m := Restyled(cells, fromRow, row - 1, fromCol, toCol, f);
    var a := Restyled(m, row, row, fromCol, toCol, f);
    var b := Restyled(cells, fromRow, row, fromCol, toCol, f);
    assert a.Keys == b.Keys;
    forall p | p in a
      ensures a[p] == b[p]
    {
      if InBlock(p, row, row, fromCol, toCol) {
        assert At(m, p) == At(cells, p);
      }
    }
  }

  /** `maxRow` and `maxCol` are the largest row and column holding a cell, 1 when there is none. */
  ghost predicate Bounds(cells: map<Pos, Cell>, maxRow: int, maxCol: int) {
    && (forall p :: p in cells ==> 1 <= p.row <= maxRow && 1 <= p.col <= maxCol)
    && (cells == map[] ==> maxRow == 1 && maxCol == 1)
    && (cells != map[] ==>
          && (exists p :: p in cells && p.row == maxRow)
          && (exists p :: p in cells && p.col == maxCol))
  }

  /** Updating a block inside the bounds leaves the bounds as they are. */
  lemma RestyledKeepsBounds(cells: map<Pos, Cell>, maxRow: int, maxCol: int,
                            fromRow: int, toRow: int, fromCol: int, toCol: int, f: Cell -> Cell)
    requires Bounds(cells, maxRow, maxCol)
    requires 1 <= fromRow && toRow <= maxRow && 1 <= fromCol && toCol <= maxCol
    ensures Bounds(Restyled(cells, fromRow, toRow, fromCol, toCol, f), maxRow, maxCol)
  {
    var r := Restyled(cells, fromRow, toRow, fromCol, toCol, f);
    if cells == map[] && r != map[] {
      var p :| p in r;
      assert p == Pos(1, 1);
    } else if cells != map[] {
      var p :| p in cells && p.row == maxRow;
      var q :| q in cells && q.col == maxCol;
      assert p in r && q in r;
    }
  }

  /** The active worksheet. `maxRow` and `maxCol` are openpyxl's `max_row` and
      `max_column`: the largest row and column holding a cell, 1 on an empty sheet. */
  class Worksheet {
    var cells: map<Pos, Cell>
    var maxRow: int
    var maxCol: int

    ghost predicate Valid()
      reads this
    {
      Bounds(cells, maxRow, maxCol)
    }

    constructor ()
      ensures Valid() && cells == map[] && maxRow == 1 && maxCol == 1
    {
      cells := map[];
      maxRow := 1;
      maxCol := 1;
    }

    /** Stores a cell at p; the sheet bounds grow to take it in. */
    method Put(p: Pos, c: Cell)
      requires p.row >= 1 && p.col >= 1
      modifies this
      ensures old(Valid()) ==> Valid()
      ensures cells == old(cells)[p := c]
      ensures maxRow == Max(old(maxRow), p.row) && maxCol == Max(old(maxCol), p.col)
    {
      cells := cells[p := c];
      maxRow := Max(maxRow, p.row);
      maxCol := Max(maxCol, p.col);
    }

    /** `ws[p] = v`. */
    method SetValue(p: Pos, v: Value)
      requires Valid() && p.row >= 1 && p.col >= 1
      modifies this
      ensures Valid()
      ensures cells == WithValue(old(cells), p, v)
      ensures maxRow == Max(old(maxRow), p.row) && maxCol == Max(old(maxCol), p.col)
    {
      Put(p, At(cells, p).(value := v));
    }

    /** `ws[p].font = font`. */
    method SetFont(p: Pos, font: Font)
      requires Valid() && p.row >= 1 && p.col >= 1
      modifies this
      ensures Valid()
      ensures cells == WithFont(old(cells), p, font)
      ensures maxRow == Max(old(maxRow), p.row) && maxCol == Max(old(maxCol), p.col)
    {
      var c := At(cells, p);
      Put(p, c.(style := c.style.(font := font)));
    }

    /** `for row in ws.iter_rows(min_row=fromRow, max_row=toRow, min_col=fromCol, max_col=toCol):
           for cell in row: <update cell by f>`, inside the sheet's bounds. */
    method UpdateBlock(fromRow: int, toRow: int, fromCol: int, toCol: int, f: Cell -> Cell)
      requires Valid() && 1 <= fromRow && toRow <= maxRow && 1 <= fromCol && toCol <= maxCol
      modifies this
      ensures Valid() && maxRow == old(maxRow) && maxCol == old(maxCol)
      ensures cells == Restyled(old(cells), fromRow, toRow, fromCol, toCol, f)
    {
      UpdateRows(fromRow, toRow, fromCol, toCol, f);
      BlockUpdatedIsRestyled(old(cells), fromRow, toRow, fromCol, toCol, f);
      RestyledKeepsBounds(old(cells), maxRow, maxCol, fromRow, toRow, fromCol, toCol, f);
    }

    /** The outer loop of `UpdateBlock`: the rows of the block, top to bottom. */
    method UpdateRows(fromRow: int, toRow: int, fromCol: int, toCol: int, f: Cell -> Cell)
      modifies this
      ensures maxRow == old(maxRow) && maxCol == old(maxCol)
      ensures cells == BlockUpdated(old(cells), fromRow, toRow, fromCol, toCol, f)
    {
      ghost var before := cells;
      if toRow < fromRow {
        return;
      }
      var r := fromRow;
      while r <= toRow
        invariant fromRow <= r <= toRow + 1
        invariant maxRow == old(maxRow) && maxCol == old(maxCol)
        invariant cells == BlockUpdated(before, fromRow, r - 1, fromCol, toCol, f)
      {
        UpdateRow(r, fromCol, toCol, f);
        r := r + 1;
      }
    }

    /** The inner loop of `UpdateRows`: the cells of one row, left to right. */
    method UpdateRow(row: int, fromCol: int, toCol: int, f: Cell -> Cell)
      modifies this
      ensures maxRow == old(maxRow) && maxCol == old(maxCol)
      ensures cells == RowUpdated(old(cells), row, fromCol, toCol, f)
    {
      ghost var before := cells;
      if toCol < fromCol {
        return;
      }
      var c := fromCol;
      while c <= toCol
        invariant fromCol <= c <= toCol + 1
        invariant maxRow == old(maxRow) && maxCol == old(maxCol)
        invariant cells == RowUpdated(before, row, fromCol, c - 1, f)
      {
        var p := Pos(row, c);
        cells := cells[p := f(At(cells, p))];
        c := c + 1;
      }
    }
  }
}
