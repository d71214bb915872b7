/** `to_excel_bytes` (Timesheet.py:30-97) up to the point where the workbook is
    saved: pandas writes the one-row frame from row 5, then the active worksheet is
    decorated in place with the metadata block, the header style, the borders, the
    highlight of weekends, holidays and leaves, and the signature block. */
module Excel {
  import opened Text
  import opened Calendar
  import opened Timesheet
  import opened Sheet
  import opened Values

  /** The arguments of `to_excel_bytes` besides the frame. */
  datatype RenderMeta = RenderMeta(monthName: string, year: int, poNumber: string, projectId: string,
                                   tataManager: string, clientManager: string)

  /** `startrow=4` puts the header on row 5 and the data row on row 6. */
  const HeaderRow: int := 5
  const DataRow: int := 6

  const J1: Pos := Pos(1, 10)
  const J2: Pos := Pos(2, 10)
  const J3: Pos := Pos(3, 10)
  const ColumnB: int := 2
  const ColumnH: int := 8

  const MetaFont: Font := Font(true, Rgb("1F4E78"))
  const HeaderFill: Fill := Solid("1F4E78")
  const HeaderFont: Font := Font(true, Rgb("FFFFFF"))
  const Centered: Alignment := Aligned("center", "center")
  const ThinBorder: Border := Border(Thin, Thin, Thin, Thin)

  /** The style pandas gives a header cell it writes: bold, thin borders, centred at the top. */
  const PandasHeaderStyle: Style := Style(Font(true, Automatic), NoFill, ThinBorder, Aligned("center", "top"))

  /** The dashed rule above each signature block: 34 dashes. */
  const Rule: string := "----------------------------------"

  /** A frame `to_excel_bytes` is given: at least one column, one value per column,
      and no missing value (so pandas writes every data cell). */
  predicate WellFormed(frame: Frame) {
    && |frame.columns| >= 1
    && |frame.row| == |frame.columns|
    && forall i :: 0 <= i < |frame.row| ==> frame.row[i] != Empty
  }

  /** The cell pandas writes at p of the header or the data row. */
  function WrittenCell(frame: Frame, p: Pos): Cell
    requires WellFormed(frame) && 1 <= p.col <= |frame.columns|
  {
    if p.row == HeaderRow then Cell(Str(frame.columns[p.col - 1]), PandasHeaderStyle)
    else Cell(frame.row[p.col - 1], DefaultStyle)
  }

  /** The cells pandas has written after the first h header cells and the first d data cells. */
  function WrittenPart(frame: Frame, h: int, d: int): map<Pos, Cell>
    requires WellFormed(frame) && h <= |frame.columns| && d <= |frame.columns|
  {
    map p | p in Block(HeaderRow, HeaderRow, 1, h) + Block(DataRow, DataRow, 1, d) :: WrittenCell(frame, p)
  }

  /** `df.to_excel(output, index=False, startrow=4)` on a fresh sheet. */
  function Written(frame: Frame): map<Pos, Cell>
    requires WellFormed(frame)
  {
    WrittenPart(frame, |frame.columns|, |frame.columns|)
  }

  /** The three metadata lines in J1..J3, each in the bold dark-blue font. */
  function WithMetadata(cells: map<Pos, Cell>, meta: RenderMeta): map<Pos, Cell> {
    var m := WithValue(WithValue(WithValue(cells,
      J1, Str(MetaLine1(meta))),
      J2, Str(MetaLine2(meta))),
      J3, Str(MetaLine3(meta)));
    WithFont(WithFont(WithFont(m, J1, MetaFont), J2, MetaFont), J3, MetaFont)
  }

  function MetaLine1(meta: RenderMeta): string {
    "PO Number: " + meta.poNumber
  }

  function MetaLine2(meta: RenderMeta): string {
    "Project ID: " + meta.projectId
  }

  function MetaLine3(meta: RenderMeta): string {
    "Month: " + meta.monthName + " " + IntToString(meta.year)
  }

  /** The loop over `ws[5]`: header fill, white bold font, centred. */
  function HeaderCell(c: Cell): Cell {
    c.(style := c.style.(fill := HeaderFill, font := HeaderFont, alignment := Centered))
  }

  /** The border loop: thin border on every side, centred. */
  function BorderCell(c: Cell): Cell {
    c.(style := c.style.(border := ThinBorder, alignment := Centered))
  }

  /** The highlight loop: the fill (and for "H" and "L" the font) chosen by the cell's value. */
  function Highlight(c: Cell): Cell {
    if c.value == Str("WO") then c.(style := c.style.(fill := Solid("D9D9D9")))
    else if c.value == Str("H") then c.(style := c.style.(fill := Solid("FFC7CE"), font := Font(true, Rgb("9C0006"))))
    else if c.value == Str("L") then c.(style := c.style.(fill := Solid("FFD966"), font := Font(true, Rgb("7F6000"))))
    else c
  }

  /** The colour scheme of the markers, one entry per value: the fill ... */
  function MarkFill(v: Value): Fill {
    match v
    case Str(s) =>
      if s == "WO" then Solid("D9D9D9")
      else if s == "H" then Solid("FFC7CE")
      else if s == "L" then Solid("FFD966")
      else NoFill
    case _ => NoFill
  }

  /** ... and the font. */
  function MarkFont(v: Value): Font {
    match v
    case Str(s) =>
      if s == "H" then Font(true, Rgb("9C0006"))
      else if s == "L" then Font(true, Rgb("7F6000"))
      else DefaultFont
    case _ => DefaultFont
  }

  /** On a cell with no fill and the default font, the highlight sets exactly the
      fill and font the colour scheme gives its value. */
  lemma HighlightScheme(c: Cell)
    requires c.style.fill == NoFill && c.style.font == DefaultFont
    ensures Highlight(c) == c.(style := c.style.(fill := MarkFill(c.value), font := MarkFont(c.value)))
  {
  }

  /** The five lines of one signature block. */
  function SignatureLines(role: string, name: string): (lines: seq<string>)
    ensures |lines| == 5
  {
    [Rule, " " + role, " Name: " + name, " Signature: ___________", " Date: _______________"]
  }

  /** Five lines written one below the other, from (row, col) down. */
  function WithColumn(cells: map<Pos, Cell>, row: int, col: int, lines: seq<string>): map<Pos, Cell>
    requires |lines| == 5
  {
    WithValue(WithValue(WithValue(WithValue(WithValue(cells,
      Pos(row, col), Str(lines[0])),
      Pos(row + 1, col), Str(lines[1])),
      Pos(row + 2, col), Str(lines[2])),
      Pos(row + 3, col), Str(lines[3])),
      Pos(row + 4, col), Str(lines[4]))
  }

  /** Both signature blocks: the company manager's in column B, the client's in column H. */
  function WithSignatures(cells: map<Pos, Cell>, signRow: int, meta: RenderMeta): map<Pos, Cell> {
    var b := WithColumn(cells, signRow, ColumnB, SignatureLines("Tata Technologies Manager", meta.tataManager));
    WithColumn(b, signRow, ColumnH, SignatureLines("Client Manager", meta.clientManager))
  }

  /** `ws.max_column` once the metadata is written: column J widens a narrower table. */
  function Width(frame: Frame): int {
    Max(|frame.columns|, 10)
  }

  /** The sheet after pandas and the metadata lines. */
  function Annotated(frame: Frame, meta: RenderMeta): map<Pos, Cell>
    requires WellFormed(frame)
  {
    WithMetadata(Written(frame), meta)
  }

  /** ... after the header-row loop over `ws[5]`, ... */
  function Headed(frame: Frame, meta: RenderMeta): map<Pos, Cell>
    requires WellFormed(frame)
  {
    Restyled(Annotated(frame, meta), HeaderRow, HeaderRow, 1, Width(frame), HeaderCell)
  }

  /** ... after the border loop over rows 5..max_row, ... */
  function Bordered(frame: Frame, meta: RenderMeta): map<Pos, Cell>
    requires WellFormed(frame)
  {
    Restyled(Headed(frame, meta), HeaderRow, DataRow, 1, Width(frame), BorderCell)
  }

  /** ... after the highlight loop over rows 6..max_row from column B, ... */
  function Highlighted(frame: Frame, meta: RenderMeta): map<Pos, Cell>
    requires WellFormed(frame)
  {
    Restyled(Bordered(frame, meta), DataRow, DataRow, 2, Width(frame), Highlight)
  }

  /** ... and after the signature block: the worksheet `to_excel_bytes` saves. */
  function Rendered(frame: Frame, meta: RenderMeta): map<Pos, Cell>
    requires WellFormed(frame)
  {
    WithSignatures(Highlighted(frame, meta), DataRow + 3, meta)
  }

  /** The sheet pandas leaves has the header and the data row, and nothing else. */
  lemma WrittenBounds(frame: Frame)
    requires WellFormed(frame)
    ensures Bounds(Written(frame), DataRow, |frame.columns|)
  {
    var w := Written(frame);
    var n := |frame.columns|;
    assert Pos(DataRow, 1) in w;
    assert Pos(HeaderRow, n) in w;
  }

  /** Writing the next header cell, or the next data cell, extends the written part by it. */
  lemma WrittenNextCell(frame: Frame, row: int, h: int, d: int)
    requires WellFormed(frame) && (row == HeaderRow || row == DataRow)
    requires 0 <= h <= |frame.columns| && 0 <= d <= |frame.columns|
    requires row == HeaderRow ==> h < |frame.columns| && d == 0
    requires row == DataRow ==> h == |frame.columns| && d < |frame.columns|
    ensures var c := if row == HeaderRow then h + 1 else d + 1;
      var h', d' := if row == HeaderRow then h + 1 else h, if row == DataRow then d + 1 else d;
      WrittenPart(frame, h, d)[Pos(row, c) := WrittenCell(frame, Pos(row, c))] == WrittenPart(frame, h', d')
  {
  }

  /** The pandas write: the header cells left to right, then the data cells. */
  method WriteFrame(ws: Worksheet, frame: Frame)
    requires ws.Valid() && ws.cells == map[] && WellFormed(frame)
    modifies ws
    ensures ws.Valid() && ws.cells == Written(frame)
    ensures ws.maxRow == DataRow && ws.maxCol == |frame.columns|
  {
    WriteHeader(ws, frame);
    WriteData(ws, frame);
    WrittenBounds(frame);
  }

  /** The header row, one column name per cell. */
  method WriteHeader(ws: Worksheet, frame: Frame)
    requires ws.cells == map[] && ws.maxRow == 1 && ws.maxCol == 1 && WellFormed(frame)
    modifies ws
    ensures ws.cells == WrittenPart(frame, |frame.columns|, 0)
    ensures ws.maxRow == HeaderRow && ws.maxCol == |frame.columns|
  {
    var n := |frame.columns|;
    var c := 0;
    while c < n
      invariant 0 <= c <= n
      invariant ws.cells == WrittenPart(frame, c, 0)
      invariant ws.maxRow == (if c == 0 then 1 else HeaderRow) && ws.maxCol == Max(1, c)
    {
      WrittenNextCell(frame, HeaderRow, c, 0);
      ws.Put(Pos(HeaderRow, c + 1), Cell(Str(frame.columns[c]), PandasHeaderStyle));
      c := c + 1;
    }
  }

  /** The data row, one value per cell. */
  method WriteData(ws: Worksheet, frame: Frame)
    requires WellFormed(frame) && ws.cells == WrittenPart(frame, |frame.columns|, 0)
    requires ws.maxRow == HeaderRow && ws.maxCol == |frame.columns|
    modifies ws
    ensures ws.cells == Written(frame)
    ensures ws.maxRow == DataRow && ws.maxCol == |frame.columns|
  {
    var n := |frame.columns|;
    var c := 0;
    while c < n
      invariant 0 <= c <= n
      invariant ws.cells == WrittenPart(frame, n, c)
      invariant ws.maxRow == (if c == 0 then HeaderRow else DataRow) && ws.maxCol == n
    {
      WrittenNextCell(frame, DataRow, n, c);
      ws.Put(Pos(DataRow, c + 1), Cell(frame.row[c], DefaultStyle));
      c := c + 1;
    }
  }

  /** The metadata lines in J1..J3 and their font. */
  method WriteMetadata(ws: Worksheet, meta: RenderMeta)
    requires ws.Valid()
    modifies ws
    ensures ws.Valid() && ws.cells == WithMetadata(old(ws.cells), meta)
    ensures ws.maxRow == Max(old(ws.maxRow), 3) && ws.maxCol == Max(old(ws.maxCol), 10)
  {
    ws.SetValue(J1, Str(MetaLine1(meta)));
    ws.SetValue(J2, Str(MetaLine2(meta)));
    ws.SetValue(J3, Str(MetaLine3(meta)));
    ws.SetFont(J1, MetaFont);
    ws.SetFont(J2, MetaFont);
    ws.SetFont(J3, MetaFont);
  }

  /** One signature block: five values written down a column from (row, col). */
  method WriteColumn(ws: Worksheet, row: int, col: int, lines: seq<string>)
    requires ws.Valid() && row >= 1 && col >= 1 && |lines| == 5
    modifies ws
    ensures ws.Valid() && ws.cells == WithColumn(old(ws.cells), row, col, lines)
    ensures ws.maxRow == Max(old(ws.maxRow), row + 4) && ws.maxCol == Max(old(ws.maxCol), col)
  {
    ws.SetValue(Pos(row, col), Str(lines[0]));
    ws.SetValue(Pos(row + 1, col), Str(lines[1]));
    ws.SetValue(Pos(row + 2, col), Str(lines[2]));
    ws.SetValue(Pos(row + 3, col), Str(lines[3]));
    ws.SetValue(Pos(row + 4, col), Str(lines[4]));
  }

  /** `to_excel_bytes(df, month_name, year, po_number, project_id, tata_manager,
      client_manager)` up to `wb.save`: the worksheet it builds. */
  method ToExcel(frame: Frame, meta: RenderMeta) returns (ws: Worksheet)
    requires WellFormed(frame)
    ensures fresh(ws) && ws.Valid()
    ensures ws.cells == Rendered(frame, meta)
  {
    ws := new Worksheet();
    WriteFrame(ws, frame);
    WriteMetadata(ws, meta);
    assert ws.cells == Annotated(frame, meta);
    assert ws.maxRow == DataRow && ws.maxCol == Width(frame);
    ws.UpdateBlock(HeaderRow, HeaderRow, 1, ws.maxCol, HeaderCell);
    assert ws.cells == Headed(frame, meta);
    ws.UpdateBlock(HeaderRow, ws.maxRow, 1, ws.maxCol, BorderCell);
    assert ws.cells == Bordered(frame, meta);
    ws.UpdateBlock(DataRow, ws.maxRow, 2, ws.maxCol, Highlight);
    assert ws.cells == Highlighted(frame, meta);
    var signRow := ws.maxRow + 3;
    WriteColumn(ws, signRow, ColumnB, SignatureLines("Tata Technologies Manager", meta.tataManager));
    WriteColumn(ws, signRow, ColumnH, SignatureLines("Client Manager", meta.clientManager));
  }

  /** The cells pandas writes are exactly those of the header and the data row. */
  lemma WrittenAt(frame: Frame, p: Pos)
    requires WellFormed(frame)
    ensures p in Written(frame) <==> InBlock(p, HeaderRow, DataRow, 1, |frame.columns|)
    ensures p in Written(frame) ==> Written(frame)[p] == WrittenCell(frame, p)
  {
  }

  /** Five lines written down a column replace the values there and nothing else. */
  lemma WithColumnAt(cells: map<Pos, Cell>, row: int, col: int, lines: seq<string>, p: Pos)
    requires |lines| == 5
    ensures var r := WithColumn(cells, row, col, lines);
      && (p in r <==> p in cells || InBlock(p, row, row + 4, col, col))
      && At(r, p) == if InBlock(p, row, row + 4, col, col) then At(cells, p).(value := Str(lines[p.row - row]))
                     else At(cells, p)
  {
  }

  /** The signature stage at one position. */
  lemma SignaturesAt(frame: Frame, meta: RenderMeta, p: Pos)
    requires WellFormed(frame)
    ensures var hl := Highlighted(frame, meta);
      var r := Rendered(frame, meta);
      var inB := InBlock(p, DataRow + 3, DataRow + 7, ColumnB, ColumnB);
      var inH := InBlock(p, DataRow + 3, DataRow + 7, ColumnH, ColumnH);
      && (p in r <==> p in hl || inB || inH)
      && At(r, p) ==
           if inB then At(hl, p).(value := Str(SignatureLines("Tata Technologies Manager", meta.tataManager)[p.row - DataRow - 3]))
           else if inH then At(hl, p).(value := Str(SignatureLines("Client Manager", meta.clientManager)[p.row - DataRow - 3]))
           else At(hl, p)
  {
    var hl := Highlighted(frame, meta);
    var b := WithColumn(hl, DataRow + 3, ColumnB, SignatureLines("Tata Technologies Manager", meta.tataManager));
    WithColumnAt(hl, DataRow + 3, ColumnB, SignatureLines("Tata Technologies Manager", meta.tataManager), p);
    WithColumnAt(b, DataRow + 3, ColumnH, SignatureLines("Client Manager", meta.clientManager), p);
  }

  /** The stages of `Rendered` seen at one position: membership and cell of each
      stage follow from those of the stage before. */
  lemma StagesAt(frame: Frame, meta: RenderMeta, p: Pos)
    requires WellFormed(frame)
    ensures var cols := Width(frame);
      var w := Written(frame);
      var m := Annotated(frame, meta);
      var hd := Headed(frame, meta);
      var bd := Bordered(frame, meta);
      var hl := Highlighted(frame, meta);
      && (p in m <==> p in w || p in {J1, J2, J3})
      && (p !in {J1, J2, J3} ==> At(m, p) == At(w, p))
      && (p in hd <==> p in m || InBlock(p, HeaderRow, HeaderRow, 1, cols))
      && At(hd, p) == (if InBlock(p, HeaderRow, HeaderRow, 1, cols) then HeaderCell(At(m, p)) else At(m, p))
      && (p in bd <==> p in hd || InBlock(p, HeaderRow, DataRow, 1, cols))
      && At(bd, p) == (if InBlock(p, HeaderRow, DataRow, 1, cols) then BorderCell(At(hd, p)) else At(hd, p))
      && (p in hl <==> p in bd || InBlock(p, DataRow, DataRow, 2, cols))
      && At(hl, p) == (if InBlock(p, DataRow, DataRow, 2, cols) then Highlight(At(bd, p)) else At(bd, p))
  {
    var cols := Width(frame);
    RestyledCell(Annotated(frame, meta), HeaderRow, HeaderRow, 1, cols, HeaderCell, p);
    RestyledCell(Headed(frame, meta), HeaderRow, DataRow, 1, cols, BorderCell, p);
    RestyledCell(Bordered(frame, meta), DataRow, DataRow, 2, cols, Highlight, p);
  }

  /** J1..J3 hold the PO number, the project id and the month, in the bold dark-blue
      font, with no fill, border or alignment of their own. */
  lemma MetadataBlock(frame: Frame, meta: RenderMeta)
    requires WellFormed(frame)
    ensures var r := Rendered(frame, meta);
      && J1 in r && r[J1] == Cell(Str("PO Number: " + meta.poNumber), DefaultStyle.(font := MetaFont))
      && J2 in r && r[J2] == Cell(Str("Project ID: " + meta.projectId), DefaultStyle.(font := MetaFont))
      && J3 in r && r[J3] == Cell(Str("Month: " + meta.monthName + " " + IntToString(meta.year)),
                                  DefaultStyle.(font := MetaFont))
  {
    SignaturesAt(frame, meta, J1);
    SignaturesAt(frame, meta, J2);
    SignaturesAt(frame, meta, J3);
    StagesAt(frame, meta, J1);
    StagesAt(frame, meta, J2);
    StagesAt(frame, meta, J3);
    WrittenAt(frame, J1);
    WrittenAt(frame, J2);
    WrittenAt(frame, J3);
  }

  /** Row 5 holds the column names, and one cell more for every column up to J
      when the table is narrower; every cell of it has the header fill, the white
      bold font, a thin border and centred text, whatever pandas gave it. */
  lemma HeaderRowCells(frame: Frame, meta: RenderMeta, c: int)
    requires WellFormed(frame) && 1 <= c <= Width(frame)
    ensures var r := Rendered(frame, meta);
      && Pos(HeaderRow, c) in r
      && r[Pos(HeaderRow, c)].value == (if c <= |frame.columns| then Str(frame.columns[c - 1]) else Empty)
      && r[Pos(HeaderRow, c)].style == Style(HeaderFont, HeaderFill, ThinBorder, Centered)
  {
    StagesAt(frame, meta, Pos(HeaderRow, c));
    SignaturesAt(frame, meta, Pos(HeaderRow, c));
    WrittenAt(frame, Pos(HeaderRow, c));
  }

  /** Row 6 holds the frame's values; every cell has a thin border and centred text;
      from column B on, the fill and font follow the marker colour scheme, and
      column A keeps the default fill and font. */
  lemma DataRowCells(frame: Frame, meta: RenderMeta, c: int)
    requires WellFormed(frame) && 1 <= c <= Width(frame)
    ensures var r := Rendered(frame, meta);
      var v := if c <= |frame.columns| then frame.row[c - 1] else Empty;
      && Pos(DataRow, c) in r
      && r[Pos(DataRow, c)].value == v
      && r[Pos(DataRow, c)].style ==
           if c == 1 then Style(DefaultFont, NoFill, ThinBorder, Centered)
           else Style(MarkFont(v), MarkFill(v), ThinBorder, Centered)
  {
    var p := Pos(DataRow, c);
    var v := if c <= |frame.columns| then frame.row[c - 1] else Empty;
    var bordered := Cell(v, Style(DefaultFont, NoFill, ThinBorder, Centered));
    HighlightedDataCell(frame, meta, c);
    SignaturesAt(frame, meta, p);
    if c > 1 {
      HighlightScheme(bordered);
    }
  }

  /** A data-row cell before the signature stage: the bordered cell, highlighted from column B on. */
  lemma HighlightedDataCell(frame: Frame, meta: RenderMeta, c: int)
    requires WellFormed(frame) && 1 <= c <= Width(frame)
    ensures var p := Pos(DataRow, c);
      var v := if c <= |frame.columns| then frame.row[c - 1] else Empty;
      var bordered := Cell(v, Style(DefaultFont, NoFill, ThinBorder, Centered));
      && p in Highlighted(frame, meta)
      && At(Highlighted(frame, meta), p) == if c == 1 then bordered else Highlight(bordered)
  {
    var p := Pos(DataRow, c);
    var v := if c <= |frame.columns| then frame.row[c - 1] else Empty;
    var cols := Width(frame);
    var bordered := Cell(v, Style(DefaultFont, NoFill, ThinBorder, Centered));
    assert At(Annotated(frame, meta), p) == Cell(v, DefaultStyle) by {
      WrittenAt(frame, p);
    }
    assert At(Headed(frame, meta), p) == Cell(v, DefaultStyle) by {
      RestyledCell(Annotated(frame, meta), HeaderRow, HeaderRow, 1, cols, HeaderCell, p);
    }
    assert p in Bordered(frame, meta) && At(Bordered(frame, meta), p) == bordered by {
      RestyledCell(Headed(frame, meta), HeaderRow, DataRow, 1, cols, BorderCell, p);
    }
    RestyledCell(Bordered(frame, meta), DataRow, DataRow, 2, cols, Highlight, p);
  }


  /** Three rows below the table, columns B and H carry the two signature blocks. */
  lemma SignatureBlock(frame: Frame, meta: RenderMeta, k: int)
    requires WellFormed(frame) && 0 <= k < 5
    ensures var r := Rendered(frame, meta);
      && Pos(DataRow + 3 + k, ColumnB) in r
      && r[Pos(DataRow + 3 + k, ColumnB)] ==
           Cell(Str(SignatureLines("Tata Technologies Manager", meta.tataManager)[k]), DefaultStyle)
      && Pos(DataRow + 3 + k, ColumnH) in r
      && r[Pos(DataRow + 3 + k, ColumnH)] ==
           Cell(Str(SignatureLines("Client Manager", meta.clientManager)[k]), DefaultStyle)
  {
    StagesAt(frame, meta, Pos(DataRow + 3 + k, ColumnB));
    SignaturesAt(frame, meta, Pos(DataRow + 3 + k, ColumnB));
    WrittenAt(frame, Pos(DataRow + 3 + k, ColumnB));
    StagesAt(frame, meta, Pos(DataRow + 3 + k, ColumnH));
    SignaturesAt(frame, meta, Pos(DataRow + 3 + k, ColumnH));
    WrittenAt(frame, Pos(DataRow + 3 + k, ColumnH));
  }

  /** The cells of the saved sheet are exactly the metadata cells, the table of
      rows 5 and 6 over columns A..max_column, and the two signature columns of
      rows 9..13: rows 4, 7 and 8 stay empty. */
  lemma SheetCells(frame: Frame, meta: RenderMeta)
    requires WellFormed(frame)
    ensures forall p :: p in Rendered(frame, meta) <==>
      || p in {J1, J2, J3}
      || InBlock(p, HeaderRow, DataRow, 1, Width(frame))
      || InBlock(p, DataRow + 3, DataRow + 7, ColumnB, ColumnB)
      || InBlock(p, DataRow + 3, DataRow + 7, ColumnH, ColumnH)
  {
    forall p
      ensures p in Rendered(frame, meta) <==>
        || p in {J1, J2, J3}
        || InBlock(p, HeaderRow, DataRow, 1, Width(frame))
        || InBlock(p, DataRow + 3, DataRow + 7, ColumnB, ColumnB)
        || InBlock(p, DataRow + 3, DataRow + 7, ColumnH, ColumnH)
    {
      HighlightedKeys(frame, meta, p);
      SignaturesAt(frame, meta, p);
    }
  }

  /** Before the signature stage the sheet holds the metadata cells and the table. */
  lemma HighlightedKeys(frame: Frame, meta: RenderMeta, p: Pos)
    requires WellFormed(frame)
    ensures p in Highlighted(frame, meta) <==> p in {J1, J2, J3} || InBlock(p, HeaderRow, DataRow, 1, Width(frame))
  {
    StagesAt(frame, meta, p);
    WrittenAt(frame, p);
  }

  /** Over the whole saved sheet, the thin border and the centred alignment mark
      exactly the table (rows 5 and 6, columns A..max_column), and a fill appears
      only in the header row and in the data row from column B on. */
  lemma TableStyles(frame: Frame, meta: RenderMeta, p: Pos)
    requires WellFormed(frame) && p in Rendered(frame, meta)
    ensures var r := Rendered(frame, meta);
      && (r[p].style.border == ThinBorder <==> InBlock(p, HeaderRow, DataRow, 1, Width(frame)))
      && (r[p].style.alignment == Centered <==> InBlock(p, HeaderRow, DataRow, 1, Width(frame)))
      && (r[p].style.fill != NoFill ==> p.row == HeaderRow || (p.row == DataRow && p.col >= 2))
  {
    HighlightedKeys(frame, meta, p);
    SignaturesAt(frame, meta, p);
    if p in {J1, J2, J3} {
      MetadataBlock(frame, meta);
    } else if p.row == HeaderRow {
      HeaderRowCells(frame, meta, p.col);
    } else if p.row == DataRow {
      DataRowCells(frame, meta, p.col);
    } else {
      SignatureBlock(frame, meta, p.row - DataRow - 3);
    }
  }

  /** The frame `generate_timesheet` returns is one `to_excel_bytes` accepts, and
      its table is one column wider than the month is long, so never padded to J. */
  lemma GeneratedFrameFits(empName: string, year: int, month: int, leaves: seq<int>, holidays: seq<int>)
    requires ValidMonth(month)
    ensures var frame := GeneratedFrame(empName, year, month, leaves, holidays);
      WellFormed(frame) && Width(frame) == DaysInMonth(year, month) + 1
  {
  }

  /** In the saved timesheet, the column of day d is column d + 1: its header names
      the day, and its data cell is grey on a weekend, red with a dark-red bold font
      on a weekday holiday, yellow with a brown bold font on a weekday leave, and
      unfilled on a worked day. */
  lemma RenderedDay(empName: string, year: int, month: int, leaves: seq<int>, holidays: seq<int>,
                    meta: RenderMeta, day: int)
    requires ValidDate(year, month, day)
    ensures var r := Rendered(GeneratedFrame(empName, year, month, leaves, holidays), meta);
      var w := Weekday(year, month, day);
      && Pos(HeaderRow, day + 1) in r
      && r[Pos(HeaderRow, day + 1)].value == Str(DayLabel(day, DayAbbrev(year, month, day)))
      && Pos(DataRow, day + 1) in r
      && r[Pos(DataRow, day + 1)].style.fill ==
           (if w >= 5 then Solid("D9D9D9")
            else if day in holidays then Solid("FFC7CE")
            else if day in leaves then Solid("FFD966")
            else NoFill)
      && r[Pos(DataRow, day + 1)].style.font ==
           (if w >= 5 then DefaultFont
            else if day in holidays then Font(true, Rgb("9C0006"))
            else if day in leaves then Font(true, Rgb("7F6000"))
            else DefaultFont)
  {
    var frame := GeneratedFrame(empName, year, month, leaves, holidays);
    var v := DayCells(year, month, leaves, holidays)[day - 1];
    var heading := DayLabel(day, DayAbbrev(year, month, day));
    assert WellFormed(frame) && 2 <= day + 1 <= Width(frame) && day + 1 <= |frame.columns|
        && frame.row[day] == v && frame.columns[day] == heading by {
      GeneratedFrameFits(empName, year, month, leaves, holidays);
      assert frame.columns == Header(year, month);
      assert frame.row == [Str(empName)] + DayCells(year, month, leaves, holidays);
    }
    DayColours(year, month, leaves, holidays, day);
    var r := Rendered(frame, meta);
    assert Pos(HeaderRow, day + 1) in r && r[Pos(HeaderRow, day + 1)].value == Str(heading) by {
      HeaderRowCells(frame, meta, day + 1);
    }
    assert Pos(DataRow, day + 1) in r
        && r[Pos(DataRow, day + 1)].style == Style(MarkFont(v), MarkFill(v), ThinBorder, Centered) by {
      DataRowCells(frame, meta, day + 1);
    }
  }

  /** The colour scheme applied to the marker of a day. */
  lemma DayColours(year: int, month: int, leaves: seq<int>, holidays: seq<int>, day: int)
    requires ValidDate(year, month, day)
    ensures var v := DayCells(year, month, leaves, holidays)[day - 1];
      var w := Weekday(year, month, day);
      && MarkFill(v) ==
           (if w >= 5 then Solid("D9D9D9")
            else if day in holidays then Solid("FFC7CE")
            else if day in leaves then Solid("FFD966")
            else NoFill)
      && MarkFont(v) ==
           (if w >= 5 then DefaultFont
            else if day in holidays then Font(true, Rgb("9C0006"))
            else if day in leaves then Font(true, Rgb("7F6000"))
            else DefaultFont)
  {
    WeekendAbbrev(Weekday(year, month, day));
  }
}
