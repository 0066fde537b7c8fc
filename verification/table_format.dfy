/** The work `format_tables` (pdf3md/formatters/docx_formatter.py) does on
    one table: every run in the table's font size, a bold and centred header
    row, the known header labels rewritten, the columns that look numeric or
    short centred, and the column widths shared out. The border writers are
    constant attribute writes and are not part of this model. */
module TableFormat {
  import opened Wrappers
  import opened Text
  import opened Document
  import opened TableLayout
  import opened ColumnWidths
  import opened HeaderLabels

  // ----- runs, paragraphs and cells -----

  /** A run in the table's font size, made bold in the header row. */
  function FormatRun(r: Run, pt: nat, header: bool): (o: Run)
    ensures o.text == r.text && o.pageField == r.pageField
    ensures o.size == Some(pt)
    ensures o.bold == if header then Some(true) else r.bold
  {
    r.(size := Some(pt), bold := if header then Some(true) else r.bold)
  }

  /** A paragraph of a cell: every run formatted, and the paragraph centred
      in the header row. */
  function FormatParagraph(p: Paragraph, pt: nat, header: bool): (r: Paragraph)
    ensures ParagraphText(r) == ParagraphText(p)
    ensures |r.runs| == |p.runs|
    ensures forall k :: 0 <= k < |r.runs| ==> r.runs[k] == FormatRun(p.runs[k], pt, header)
    ensures r.style == p.style && r.hasDrawing == p.hasDrawing && r.hasPict == p.hasPict
    ensures Alignment(r) == if header then Some(AlignCenter) else Alignment(p)
    ensures !header ==> r.props == p.props
  {
    var runs := seq(|p.runs|, k requires 0 <= k < |p.runs| => FormatRun(p.runs[k], pt, header));
    RunsTextSame(p.runs, runs);
    var q := p.(runs := runs);
    if header then SetAlign(q, AlignCenter) else q
  }

  /** A cell: its paragraphs formatted; a header cell is also centred
      vertically. */
  function FormatCell(c: Cell, pt: nat, header: bool): (d: Cell)
    ensures CellText(d) == CellText(c)
    ensures |d.paragraphs| == |c.paragraphs| && d.width == c.width
    ensures forall k :: 0 <= k < |d.paragraphs| ==> d.paragraphs[k] == FormatParagraph(c.paragraphs[k], pt, header)
    ensures d.vCenter == (header || c.vCenter)
  {
    var d := Cell(
      seq(|c.paragraphs|, k requires 0 <= k < |c.paragraphs| => FormatParagraph(c.paragraphs[k], pt, header)),
      c.width, header || c.vCenter);
    CellTextSame(c, d);
    d
  }

  /** A header cell after `normalize_header_labels`. */
  function RelabelCell(c: Cell): (d: Cell)
    ensures |d.paragraphs| == |c.paragraphs| && d.width == c.width && d.vCenter == c.vCenter
    ensures forall k :: 0 <= k < |d.paragraphs| ==> d.paragraphs[k] == Relabel(c.paragraphs[k])
  {
    c.(paragraphs := seq(|c.paragraphs|, k requires 0 <= k < |c.paragraphs| => Relabel(c.paragraphs[k])))
  }

  /** Every paragraph of a cell centred. */
  function CenterCell(c: Cell): (d: Cell)
    ensures CellText(d) == CellText(c)
    ensures |d.paragraphs| == |c.paragraphs| && d.width == c.width && d.vCenter == c.vCenter
    ensures forall k :: 0 <= k < |d.paragraphs| ==> d.paragraphs[k] == SetAlign(c.paragraphs[k], AlignCenter)
  {
    var d := c.(paragraphs := seq(|c.paragraphs|, k requires 0 <= k < |c.paragraphs| => SetAlign(c.paragraphs[k], AlignCenter)));
    CellTextSame(c, d);
    d
  }

  // ----- the table, loop by loop -----

  /** The loop over every cell that sets fonts, bold and centring. */
  function FormatCells(t: Table, pt: nat): (r: Table)
    requires Rectangular(t)
    ensures Rectangular(r) && |r.rows| == |t.rows| && r.colWidths == t.colWidths
    ensures r.style == t.style && r.autofit == t.autofit
  {
    t.(rows := seq(|t.rows|, i requires 0 <= i < |t.rows| =>
      seq(|t.rows[i]|, j requires 0 <= j < |t.rows[i]| => FormatCell(t.rows[i][j], pt, i == 0))))
  }

  lemma FormatCellsAt(t: Table, pt: nat, i: nat, j: nat)
    requires Rectangular(t) && i < |t.rows| && j < |t.colWidths|
    ensures FormatCells(t, pt).rows[i][j] == FormatCell(t.rows[i][j], pt, i == 0)
  {
  }

  /** `normalize_header_labels` on the first row, when there is one. */
  function RelabelHeader(t: Table): (r: Table)
    requires Rectangular(t)
    ensures Rectangular(r) && |r.rows| == |t.rows| && r.colWidths == t.colWidths
    ensures r.style == t.style && r.autofit == t.autofit
  {
    if |t.rows| == 0 then t
    else t.(rows := [seq(|t.rows[0]|, j requires 0 <= j < |t.rows[0]| => RelabelCell(t.rows[0][j]))] + t.rows[1..])
  }

  lemma RelabelHeaderAt(t: Table, i: nat, j: nat)
    requires Rectangular(t) && i < |t.rows| && j < |t.colWidths|
    ensures RelabelHeader(t).rows[i][j] == if i == 0 then RelabelCell(t.rows[i][j]) else t.rows[i][j]
  {
  }

  /** `align_table_columns`. Centring changes no text, so deciding every
      column up front, as here, decides as the column-by-column loop does. */
  function AlignColumns(t: Table): (r: Table)
    requires Rectangular(t)
    ensures Rectangular(r) && |r.rows| == |t.rows| && r.colWidths == t.colWidths
    ensures r.style == t.style && r.autofit == t.autofit
  {
    var centred := seq(|t.colWidths|, j requires 0 <= j < |t.colWidths| => ShouldCenter(ColumnTexts(t, j)));
    t.(rows := seq(|t.rows|, i requires 0 <= i < |t.rows| =>
      seq(|t.rows[i]|, j requires 0 <= j < |t.rows[i]| => if centred[j] then CenterCell(t.rows[i][j]) else t.rows[i][j])))
  }

  lemma AlignColumnsAt(t: Table, i: nat, j: nat)
    requires Rectangular(t) && i < |t.rows| && j < |t.colWidths|
    ensures AlignColumns(t).rows[i][j] == if ShouldCenter(ColumnTexts(t, j)) then CenterCell(t.rows[i][j]) else t.rows[i][j]
  {
  }

  /** The header texts the width computation reads: the first row's cell
      texts, or blanks for a table without rows. */
  function HeaderTexts(t: Table): (h: seq<string>)
    requires Rectangular(t)
    ensures |h| == |t.colWidths|
    ensures |t.rows| > 0 ==> forall j :: 0 <= j < |h| ==> h[j] == CellText(t.rows[0][j])
    ensures |t.rows| == 0 ==> forall j :: 0 <= j < |h| ==> h[j] == ""
  {
    if |t.rows| > 0 then seq(|t.colWidths|, j requires 0 <= j < |t.colWidths| => CellText(t.rows[0][j]))
    else seq(|t.colWidths|, j => "")
  }

  /** The texts of every column. */
  function Columns(t: Table): (cs: seq<seq<string>>)
    requires Rectangular(t)
    ensures |cs| == |t.colWidths|
    ensures forall j :: 0 <= j < |cs| ==> cs[j] == ColumnTexts(t, j)
  {
    seq(|t.colWidths|, j requires 0 <= j < |t.colWidths| => ColumnTexts(t, j))
  }

  /** Each width written to its grid column and to every cell of it. */
  function SetWidths(t: Table, ws: seq<int>): (r: Table)
    requires Rectangular(t) && |ws| == |t.colWidths|
    ensures Rectangular(r) && |r.rows| == |t.rows| && |r.colWidths| == |ws|
    ensures r.style == t.style && r.autofit == t.autofit
  {
    Table(t.style, t.autofit,
      seq(|ws|, j requires 0 <= j < |ws| => Some(ws[j])),
      seq(|t.rows|, i requires 0 <= i < |t.rows| =>
        seq(|t.rows[i]|, j requires 0 <= j < |t.rows[i]| => t.rows[i][j].(width := Some(ws[j])))))
  }

  lemma SetWidthsAt(t: Table, ws: seq<int>, i: nat, j: nat)
    requires Rectangular(t) && |ws| == |t.colWidths| && i < |t.rows| && j < |ws|
    ensures SetWidths(t, ws).rows[i][j] == t.rows[i][j].(width := Some(ws[j]))
  {
  }

  /** The size class of a table, from its row and grid column counts. */
  function ClassOf(t: Table): SizeClass {
    ChooseSizeClass(|t.rows|, |t.colWidths|)
  }

  /** The table once its cells are formatted and its header labels
      rewritten: the state the centring and the widths are decided from. */
  function Labelled(t: Table): (r: Table)
    requires Rectangular(t)
    ensures Rectangular(r) && |r.rows| == |t.rows| && r.colWidths == t.colWidths
    ensures r.style == Some("Table") && !r.autofit
  {
    RelabelHeader(FormatCells(t.(style := Some("Table"), autofit := false), ClassOf(t).fontPt))
  }

  /** Which columns of a table are centred: those whose texts, once
      labelled, should be. */
  function Centring(t: Table): (cen: seq<bool>)
    requires Rectangular(t)
    ensures |cen| == |t.colWidths|
  {
    seq(|t.colWidths|, j requires 0 <= j < |t.colWidths| => ShouldCenter(ColumnTexts(Labelled(t), j)))
  }

  /** The widths a table's columns are given, as stored. */
  function Widths(t: Table, avail: int): (ws: seq<int>)
    requires Rectangular(t)
    ensures |ws| == |t.colWidths|
  {
    var a := AlignColumns(Labelled(t));
    Stored(AdjustWidths(avail, ClassOf(t), HeaderTexts(a), Columns(a)))
  }

  /** One table of `format_tables`, given the available width in EMU. */
  function FormatTable(t: Table, avail: int): (r: Table)
    requires Rectangular(t)
    ensures Rectangular(r) && |r.rows| == |t.rows| && |r.colWidths| == |t.colWidths|
    ensures r.style == Some("Table") && !r.autofit
  {
    SetWidths(AlignColumns(Labelled(t)), Widths(t, avail))
  }

  // ----- the table, cell by cell -----

  /** A cell paragraph once formatted and, in the header row, relabelled. */
  function LabelParagraph(q: Paragraph, pt: nat, header: bool): Paragraph {
    if header then Relabel(FormatParagraph(q, pt, true)) else FormatParagraph(q, pt, false)
  }

  function CentredIf(p: Paragraph, centred: bool): Paragraph {
    if centred then SetAlign(p, AlignCenter) else p
  }

  /** A cell once formatted and, in the header row, relabelled. */
  function LabelCell(c: Cell, pt: nat, header: bool): (d: Cell)
    ensures |d.paragraphs| == |c.paragraphs| && d.width == c.width && d.vCenter == (header || c.vCenter)
    ensures forall k :: 0 <= k < |d.paragraphs| ==> d.paragraphs[k] == LabelParagraph(c.paragraphs[k], pt, header)
  {
    if header then RelabelCell(FormatCell(c, pt, true)) else FormatCell(c, pt, false)
  }

  /** A cell of the formatted table: labelled, centred if its column is,
      and given its column's width. */
  function FinalCell(c: Cell, pt: nat, header: bool, centred: bool, w: int): (d: Cell)
    ensures |d.paragraphs| == |c.paragraphs| && d.vCenter == (header || c.vCenter) && d.width == Some(w)
    ensures forall k :: 0 <= k < |d.paragraphs| ==>
      d.paragraphs[k] == CentredIf(LabelParagraph(c.paragraphs[k], pt, header), centred)
    ensures CellText(d) == CellText(LabelCell(c, pt, header))
  {
    var l := LabelCell(c, pt, header);
    (if centred then CenterCell(l) else l).(width := Some(w))
  }

  /** A table put together from its cells' final form, the centring of its
      columns and their widths. */
  function Assemble(t: Table, pt: nat, cen: seq<bool>, ws: seq<int>): (r: Table)
    requires Rectangular(t) && |cen| == |t.colWidths| && |ws| == |t.colWidths|
    ensures Rectangular(r) && |r.rows| == |t.rows| && |r.colWidths| == |t.colWidths|
    ensures r.style == Some("Table") && !r.autofit
  {
    Table(Some("Table"), false,
      seq(|ws|, j requires 0 <= j < |ws| => Some(ws[j])),
      seq(|t.rows|, i requires 0 <= i < |t.rows| =>
        seq(|t.rows[i]|, j requires 0 <= j < |t.rows[i]| => FinalCell(t.rows[i][j], pt, i == 0, cen[j], ws[j]))))
  }

  lemma AssembleAt(t: Table, pt: nat, cen: seq<bool>, ws: seq<int>, i: nat, j: nat)
    requires Rectangular(t) && |cen| == |t.colWidths| && |ws| == |t.colWidths| && i < |t.rows| && j < |t.colWidths|
    ensures Assemble(t, pt, cen, ws).rows[i][j] == FinalCell(t.rows[i][j], pt, i == 0, cen[j], ws[j])
  {
  }

  /** Where each cell of a table is once labelled. */
  lemma LabelledAt(t: Table, i: nat, j: nat)
    requires Rectangular(t) && i < |t.rows| && j < |t.colWidths|
    ensures Labelled(t).rows[i][j] == LabelCell(t.rows[i][j], ClassOf(t).fontPt, i == 0)
  {
    var u := t.(style := Some("Table"), autofit := false);
    FormatCellsAt(u, ClassOf(t).fontPt, i, j);
    RelabelHeaderAt(FormatCells(u, ClassOf(t).fontPt), i, j);
  }

  /** Where each cell of a table ends up once formatted. */
  lemma FinalAt(t: Table, avail: int, i: nat, j: nat)
    requires Rectangular(t) && i < |t.rows| && j < |t.colWidths|
    ensures FormatTable(t, avail).rows[i][j] ==
      FinalCell(t.rows[i][j], ClassOf(t).fontPt, i == 0, Centring(t)[j], Widths(t, avail)[j])
  {
    var l := Labelled(t);
    SetWidthsAt(AlignColumns(l), Widths(t, avail), i, j);
    AlignColumnsAt(l, i, j);
    LabelledAt(t, i, j);
    CentringAt(t, j);
  }

  lemma FormatTableColumnWidths(t: Table, avail: int)
    requires Rectangular(t)
    ensures FormatTable(t, avail).colWidths == Assemble(t, ClassOf(t).fontPt, Centring(t), Widths(t, avail)).colWidths
  {
  }

  /** Two rectangular tables with the same attributes and the same cells
      are the same table. */
  lemma SameCells(r: Table, x: Table)
    requires Rectangular(r) && Rectangular(x)
    requires r.style == x.style && r.autofit == x.autofit && r.colWidths == x.colWidths && |r.rows| == |x.rows|
    requires forall i, j :: 0 <= i < |r.rows| && 0 <= j < |r.colWidths| ==> r.rows[i][j] == x.rows[i][j]
    ensures r == x
  {
    forall i | 0 <= i < |r.rows|
      ensures r.rows[i] == x.rows[i]
    {
    }
    assert r.rows == x.rows;
  }

  /** One row of the formatted table. */
  lemma FormatTableRow(t: Table, avail: int, i: nat)
    requires Rectangular(t) && i < |t.rows|
    ensures FormatTable(t, avail).rows[i] == Assemble(t, ClassOf(t).fontPt, Centring(t), Widths(t, avail)).rows[i]
  {
    var a := FormatTable(t, avail).rows[i];
    var b := Assemble(t, ClassOf(t).fontPt, Centring(t), Widths(t, avail)).rows[i];
    forall j | 0 <= j < |t.colWidths|
      ensures a[j] == b[j]
    {
      FinalAt(t, avail, i, j);
      AssembleAt(t, ClassOf(t).fontPt, Centring(t), Widths(t, avail), i, j);
    }
  }

  /** The formatted table, cell by cell: each cell labelled, centred when
      its column is, and given its column's width. */
  lemma FormatTableAssembled(t: Table, avail: int)
    requires Rectangular(t)
    ensures FormatTable(t, avail) == Assemble(t, ClassOf(t).fontPt, Centring(t), Widths(t, avail))
  {
    var r := FormatTable(t, avail);
    var x := Assemble(t, ClassOf(t).fontPt, Centring(t), Widths(t, avail));
    forall i | 0 <= i < |t.rows|
      ensures r.rows[i] == x.rows[i]
    {
      FormatTableRow(t, avail, i);
    }
    FormatTableColumnWidths(t, avail);
  }

  lemma CentringAt(t: Table, j: nat)
    requires Rectangular(t) && j < |t.colWidths|
    ensures Centring(t)[j] == ShouldCenter(ColumnTexts(Labelled(t), j))
  {
  }

  // ----- what formatting promises -----

  /** The widths a table's grid columns carry, 0 for one without. */
  function WidthsOf(t: Table): (ws: seq<int>)
    ensures |ws| == |t.colWidths|
  {
    seq(|t.colWidths|, j requires 0 <= j < |t.colWidths| => if t.colWidths[j].Some? then t.colWidths[j].value else 0)
  }

  /** Every grid column has a width, and every cell of a column the width
      of its column. */
  predicate WidthsSet(t: Table) {
    && (forall j :: 0 <= j < |t.colWidths| ==> t.colWidths[j].Some?)
    && (forall i, j :: 0 <= i < |t.rows| && 0 <= j < |t.colWidths| && j < |t.rows[i]| ==> t.rows[i][j].width == t.colWidths[j])
  }

  /** What an assembled table carries as widths. */
  lemma AssembledWidths(t: Table, pt: nat, cen: seq<bool>, ws: seq<int>)
    requires Rectangular(t) && |cen| == |t.colWidths| && |ws| == |t.colWidths|
    ensures WidthsOf(Assemble(t, pt, cen, ws)) == ws && WidthsSet(Assemble(t, pt, cen, ws))
  {
    var x := Assemble(t, pt, cen, ws);
    forall i, j | 0 <= i < |t.rows| && 0 <= j < |t.colWidths|
      ensures x.rows[i][j].width == x.colWidths[j]
    {
      AssembleAt(t, pt, cen, ws, i, j);
    }
  }

  /** Formatting writes a width to every grid column and the same width to
      every cell of the column. */
  lemma FormatTableWidths(t: Table, avail: int)
    requires Rectangular(t)
    ensures WidthsSet(FormatTable(t, avail))
  {
    FormatTableAssembled(t, avail);
    AssembledWidths(t, ClassOf(t).fontPt, Centring(t), Widths(t, avail));
  }

  /** The widths of a table with columns are whole twips and fill the
      available width: computed short of it by less than one EMU per
      column, then each rounded by at most 317 EMU. */
  lemma FormatTableFills(t: Table, avail: int)
    requires Rectangular(t) && avail >= 0 && |t.colWidths| > 0
    ensures var ws := WidthsOf(FormatTable(t, avail));
      var n := |t.colWidths|;
      && (forall j :: 0 <= j < n ==> ws[j] % EmuPerTwip == 0)
      && avail - 318 * n < SumInt(ws) <= avail + 317 * n
  {
    FormatTableAssembled(t, avail);
    AssembledWidths(t, ClassOf(t).fontPt, Centring(t), Widths(t, avail));
    var a := AlignColumns(Labelled(t));
    AdjustedSum(avail, |t.rows|, HeaderTexts(a), Columns(a));
    StoredSum(AdjustWidths(avail, ClassOf(t), HeaderTexts(a), Columns(a)));
  }

  lemma AdjustedSum(avail: int, rows: nat, headers: seq<string>, columns: seq<seq<string>>)
    requires avail >= 0 && |headers| == |columns| && |columns| > 0
    ensures avail - |columns| < SumInt(AdjustWidths(avail, ChooseSizeClass(rows, |columns|), headers, columns)) <= avail
  {
    AdjustWidthsFit(avail, rows, headers, columns, 0, 0);
  }

  /** Every paragraph of the header row ends up centred, and every cell of
      it centred vertically; a body paragraph is centred exactly when its
      column is judged to be and otherwise keeps its alignment; no other
      alignment is ever set. */
  lemma FormatTableAlignment(t: Table, avail: int, i: nat, j: nat, k: nat)
    requires Rectangular(t) && i < |t.rows| && j < |t.colWidths| && k < |t.rows[i][j].paragraphs|
    ensures var c := FormatTable(t, avail).rows[i][j];
      && |c.paragraphs| == |t.rows[i][j].paragraphs|
      && c.vCenter == (i == 0 || t.rows[i][j].vCenter)
      && Alignment(c.paragraphs[k]) ==
        if i == 0 || ShouldCenter(ColumnTexts(Labelled(t), j)) then Some(AlignCenter)
        else Alignment(t.rows[i][j].paragraphs[k])
  {
    FinalAt(t, avail, i, j);
    CentringAt(t, j);
    FinalCellAlignment(t.rows[i][j], ClassOf(t).fontPt, i == 0, Centring(t)[j], Widths(t, avail)[j], k);
  }

  lemma FinalCellAlignment(c: Cell, pt: nat, header: bool, centred: bool, w: int, k: nat)
    requires k < |c.paragraphs|
    ensures Alignment(FinalCell(c, pt, header, centred, w).paragraphs[k]) ==
      if header || centred then Some(AlignCenter) else Alignment(c.paragraphs[k])
  {
    var q := LabelParagraph(c.paragraphs[k], pt, header);
    assert FinalCell(c, pt, header, centred, w).paragraphs[k] == CentredIf(q, centred);
  }

  /** `after` is `before` with every run's font size set to `pt` and nothing
      else changed. */
  predicate Resized(after: seq<Run>, before: seq<Run>, pt: nat) {
    |after| == |before| && forall m :: 0 <= m < |after| ==> after[m] == before[m].(size := Some(pt))
  }

  /** A body run keeps its text, boldness and field and takes the table's
      font size. */
  lemma FormatTableBodyFonts(t: Table, avail: int, i: nat, j: nat, k: nat)
    requires Rectangular(t) && 0 < i < |t.rows| && j < |t.colWidths| && k < |t.rows[i][j].paragraphs|
    ensures var c := FormatTable(t, avail).rows[i][j];
      |c.paragraphs| == |t.rows[i][j].paragraphs|
      && Resized(c.paragraphs[k].runs, t.rows[i][j].paragraphs[k].runs, ClassOf(t).fontPt)
  {
    FinalAt(t, avail, i, j);
    FinalCellBodyFonts(t.rows[i][j], ClassOf(t).fontPt, Centring(t)[j], Widths(t, avail)[j], k);
  }

  lemma FinalCellBodyFonts(c: Cell, pt: nat, centred: bool, w: int, k: nat)
    requires k < |c.paragraphs|
    ensures Resized(FinalCell(c, pt, false, centred, w).paragraphs[k].runs, c.paragraphs[k].runs, pt)
  {
    var q := FormatParagraph(c.paragraphs[k], pt, false);
    assert FinalCell(c, pt, false, centred, w).paragraphs[k].runs == q.runs by {
      assert FinalCell(c, pt, false, centred, w).paragraphs[k] == CentredIf(q, centred);
    }
  }

  /** A header run ends up bold, in the table's font size or, when its
      paragraph was relabelled, in 10 pt. */
  lemma FormatTableHeaderFonts(t: Table, avail: int, j: nat, k: nat)
    requires Rectangular(t) && 0 < |t.rows| && j < |t.colWidths| && k < |t.rows[0][j].paragraphs|
    ensures var c := FormatTable(t, avail).rows[0][j];
      |c.paragraphs| == |t.rows[0][j].paragraphs|
      && forall m :: 0 <= m < |c.paragraphs[k].runs| ==>
        c.paragraphs[k].runs[m].bold == Some(true)
        && (c.paragraphs[k].runs[m].size == Some(ClassOf(t).fontPt) || c.paragraphs[k].runs[m].size == Some(10))
  {
    FinalAt(t, avail, 0, j);
    FinalCellHeaderFonts(t.rows[0][j], ClassOf(t).fontPt, Centring(t)[j], Widths(t, avail)[j], k);
  }

  lemma FinalCellHeaderFonts(c: Cell, pt: nat, centred: bool, w: int, k: nat)
    requires k < |c.paragraphs|
    ensures var p := FinalCell(c, pt, true, centred, w).paragraphs[k];
      forall m :: 0 <= m < |p.runs| ==> p.runs[m].bold == Some(true) && (p.runs[m].size == Some(pt) || p.runs[m].size == Some(10))
  {
    var q := FormatParagraph(c.paragraphs[k], pt, true);
    assert FinalCell(c, pt, true, centred, w).paragraphs[k].runs == Relabel(q).runs by {
      assert FinalCell(c, pt, true, centred, w).paragraphs[k] == CentredIf(Relabel(q), centred);
    }
    RelabelReads(q);
  }

  /** Centring is decided on the texts after relabelling: the body rows read
      as before, and each header paragraph reads as its label. */
  lemma LabelledTexts(t: Table, i: nat, j: nat)
    requires Rectangular(t) && i < |t.rows| && j < |t.colWidths|
    ensures i > 0 ==> CellText(Labelled(t).rows[i][j]) == CellText(t.rows[i][j])
    ensures i == 0 ==> forall k :: 0 <= k < |t.rows[0][j].paragraphs| ==>
      ParagraphText(Labelled(t).rows[0][j].paragraphs[k]) == RelabelledText(ParagraphText(t.rows[0][j].paragraphs[k]))
  {
    LabelledAt(t, i, j);
    if i == 0 {
      forall k | 0 <= k < |t.rows[0][j].paragraphs|
        ensures ParagraphText(Labelled(t).rows[0][j].paragraphs[k]) == RelabelledText(ParagraphText(t.rows[0][j].paragraphs[k]))
      {
        RelabelReads(FormatParagraph(t.rows[0][j].paragraphs[k], ClassOf(t).fontPt, true));
      }
    }
  }

  // ----- formatting a table twice -----

  lemma FormatParagraphTwice(q: Paragraph, pt: nat, header: bool)
    ensures FormatParagraph(FormatParagraph(q, pt, header), pt, header) == FormatParagraph(q, pt, header)
  {
    var f := FormatParagraph(q, pt, header);
    assert FormatParagraph(f, pt, header).runs == f.runs;
  }

  lemma SetAlignFixed(p: Paragraph, a: Align)
    requires p.props.Some? && p.props.value.align == Some(a)
    ensures SetAlign(p, a) == p
  {
  }

  /** A formatted body paragraph, centred or not, is left as it is by a
      second formatting. */
  lemma BodyParagraphFixed(q: Paragraph, pt: nat, centred: bool)
    ensures var y := CentredIf(FormatParagraph(q, pt, false), centred);
      LabelParagraph(y, pt, false) == y
  {
    var f := FormatParagraph(q, pt, false);
    FormatParagraphTwice(q, pt, false);
    if centred {
      var y := SetAlign(f, AlignCenter);
      assert FormatParagraph(y, pt, false).runs == f.runs;
    }
  }

  /** A formatted and relabelled header paragraph is already centred, and
      a second formatting and relabelling leaves it as it is. */
  lemma HeaderParagraphFixed(q: Paragraph, pt: nat, centred: bool)
    ensures var y := CentredIf(Relabel(FormatParagraph(q, pt, true)), centred);
      LabelParagraph(y, pt, true) == y
  {
    var f := FormatParagraph(q, pt, true);
    var y := Relabel(f);
    SetAlignFixed(y, AlignCenter);
    assert CentredIf(y, centred) == y;
    var text := Strip(ParagraphText(f));
    FormatParagraphTwice(q, pt, true);
    if text != "" {
      RewriteAllIsLastMatch(f, text, Labels);
      if LastMatch(text, Labels).Some? {
        RelabelledFixed(f, pt, LastMatch(text, Labels).value);
      }
    }
  }

  /** A paragraph relabelled to `l` is relabelled to `l` again, whatever
      the formatting did to its runs in between. */
  lemma RelabelledFixed(f: Paragraph, pt: nat, l: Label)
    requires f.props.Some? && f.props.value.align == Some(AlignCenter)
    ensures var y := Clear(f).(runs := LabelRuns(l));
      Relabel(FormatParagraph(y, pt, true)) == y
  {
    var y := Clear(f).(runs := LabelRuns(l));
    var g := FormatParagraph(y, pt, true);
    LabelRunsText(l);
    LabelIsOwnLastMatch(l);
    StripLabel(l);
    assert Strip(ParagraphText(g)) == LabelText(l);
    RewriteAllIsLastMatch(g, LabelText(l), Labels);
  }

  /** A cell of the formatted table is left as it is by a second labelling
      and a second centring. */
  lemma FinalCellFixed(c: Cell, pt: nat, header: bool, centred: bool, w: int)
    ensures var d := FinalCell(c, pt, header, centred, w);
      LabelCell(d, pt, header) == d && (centred ==> CenterCell(d) == d)
  {
    FinalCellLabelFixed(c, pt, header, centred, w);
    if centred {
      FinalCellCentreFixed(c, pt, header, w);
    }
  }

  /** A second labelling leaves a cell of the formatted table as it is. */
  lemma FinalCellLabelFixed(c: Cell, pt: nat, header: bool, centred: bool, w: int)
    ensures var d := FinalCell(c, pt, header, centred, w);
      LabelCell(d, pt, header) == d
  {
    var d := FinalCell(c, pt, header, centred, w);
    var l := LabelCell(d, pt, header);
    forall k | 0 <= k < |d.paragraphs|
      ensures l.paragraphs[k] == d.paragraphs[k]
    {
      FinalParagraphFixed(c, pt, header, centred, w, k);
    }
    assert l.paragraphs == d.paragraphs;
  }

  /** A second centring leaves a cell of a centred column as it is. */
  lemma FinalCellCentreFixed(c: Cell, pt: nat, header: bool, w: int)
    ensures var d := FinalCell(c, pt, header, true, w);
      CenterCell(d) == d
  {
    var d := FinalCell(c, pt, header, true, w);
    var e := CenterCell(d);
    forall k | 0 <= k < |d.paragraphs|
      ensures e.paragraphs[k] == d.paragraphs[k]
    {
      FinalParagraphFixed(c, pt, header, true, w, k);
    }
    assert e.paragraphs == d.paragraphs;
  }

  /** One paragraph of a formatted cell is left as it is by a second
      labelling and a second centring. */
  lemma FinalParagraphFixed(c: Cell, pt: nat, header: bool, centred: bool, w: int, k: nat)
    requires k < |FinalCell(c, pt, header, centred, w).paragraphs|
    ensures var p := FinalCell(c, pt, header, centred, w).paragraphs[k];
      LabelParagraph(p, pt, header) == p && (centred ==> SetAlign(p, AlignCenter) == p)
  {
    var d := FinalCell(c, pt, header, centred, w);
    if header {
      HeaderParagraphFixed(c.paragraphs[k], pt, centred);
    } else {
      BodyParagraphFixed(c.paragraphs[k], pt, centred);
    }
    if centred {
      SetAlignFixed(d.paragraphs[k], AlignCenter);
    }
  }

  /** A cell of the formatted table, put through the same steps again with
      the same column decisions, stays as it is. */
  lemma FinalCellTwice(c: Cell, pt: nat, header: bool, centred: bool, w: int)
    ensures var d := FinalCell(c, pt, header, centred, w);
      FinalCell(d, pt, header, centred, w) == d
  {
    FinalCellFixed(c, pt, header, centred, w);
  }

  /** Two rectangular tables of the same shape whose cells read the same. */
  predicate SameTexts(x: Table, y: Table)
    requires Rectangular(x) && Rectangular(y)
  {
    && |x.rows| == |y.rows| && |x.colWidths| == |y.colWidths|
    && forall i, j :: 0 <= i < |x.rows| && 0 <= j < |x.colWidths| ==> CellText(x.rows[i][j]) == CellText(y.rows[i][j])
  }

  /** Tables that read the same give the width computation the same input
      and the centring the same columns. */
  lemma SameTextsSameInputs(x: Table, y: Table)
    requires Rectangular(x) && Rectangular(y) && SameTexts(x, y)
    ensures HeaderTexts(x) == HeaderTexts(y) && Columns(x) == Columns(y)
  {
    forall j | 0 <= j < |x.colWidths|
      ensures ColumnTexts(x, j) == ColumnTexts(y, j)
    {
    }
  }

  /** Centring changes no text. */
  lemma AlignKeepsTexts(t: Table)
    requires Rectangular(t)
    ensures SameTexts(AlignColumns(t), t)
  {
    forall i, j | 0 <= i < |t.rows| && 0 <= j < |t.colWidths|
      ensures CellText(AlignColumns(t).rows[i][j]) == CellText(t.rows[i][j])
    {
      AlignColumnsAt(t, i, j);
    }
  }

  /** A cell of an assembled table, labelled again, reads as the cell
      labelled once. */
  lemma AssembledCellReads(t: Table, cen: seq<bool>, ws: seq<int>, i: nat, j: nat)
    requires Rectangular(t) && |cen| == |t.colWidths| && |ws| == |t.colWidths| && i < |t.rows| && j < |t.colWidths|
    ensures CellText(Labelled(Assemble(t, ClassOf(t).fontPt, cen, ws)).rows[i][j]) == CellText(Labelled(t).rows[i][j])
  {
    var pt := ClassOf(t).fontPt;
    var x := Assemble(t, pt, cen, ws);
    assert ClassOf(x) == ClassOf(t);
    LabelledAt(x, i, j);
    AssembleAt(t, pt, cen, ws, i, j);
    FinalCellFixed(t.rows[i][j], pt, i == 0, cen[j], ws[j]);
    LabelledAt(t, i, j);
  }

  lemma AssembledRowReads(t: Table, cen: seq<bool>, ws: seq<int>, i: nat)
    requires Rectangular(t) && |cen| == |t.colWidths| && |ws| == |t.colWidths| && i < |t.rows|
    ensures var a := Labelled(Assemble(t, ClassOf(t).fontPt, cen, ws)).rows[i];
      var b := Labelled(t).rows[i];
      forall j :: 0 <= j < |t.colWidths| ==> CellText(a[j]) == CellText(b[j])
  {
    forall j | 0 <= j < |t.colWidths|
      ensures CellText(Labelled(Assemble(t, ClassOf(t).fontPt, cen, ws)).rows[i][j]) == CellText(Labelled(t).rows[i][j])
    {
      AssembledCellReads(t, cen, ws, i, j);
    }
  }

  /** An assembled table, labelled again, reads as the table labelled
      once, whatever the centring and the widths. */
  lemma AssembledReadsSame(t: Table, cen: seq<bool>, ws: seq<int>)
    requires Rectangular(t) && |cen| == |t.colWidths| && |ws| == |t.colWidths|
    ensures SameTexts(Labelled(Assemble(t, ClassOf(t).fontPt, cen, ws)), Labelled(t))
  {
    var a := Labelled(Assemble(t, ClassOf(t).fontPt, cen, ws));
    var b := Labelled(t);
    forall i | 0 <= i < |t.rows|
      ensures forall j :: 0 <= j < |t.colWidths| ==> CellText(a.rows[i][j]) == CellText(b.rows[i][j])
    {
      AssembledRowReads(t, cen, ws, i);
    }
    SameTextsIntro(a, b);
  }

  lemma SameTextsIntro(x: Table, y: Table)
    requires Rectangular(x) && Rectangular(y) && |x.rows| == |y.rows| && |x.colWidths| == |y.colWidths|
    requires forall i, j :: 0 <= i < |x.rows| && 0 <= j < |x.colWidths| ==> CellText(x.rows[i][j]) == CellText(y.rows[i][j])
    ensures SameTexts(x, y)
  {
  }

  /** Two tables of the same shape that read the same once labelled get the
      same centring and the same widths. */
  lemma SameDecisionsOf(x: Table, t: Table, avail: int)
    requires Rectangular(x) && Rectangular(t) && |x.rows| == |t.rows| && |x.colWidths| == |t.colWidths|
    requires SameTexts(Labelled(x), Labelled(t))
    ensures Centring(x) == Centring(t)
    ensures Widths(x, avail) == Widths(t, avail)
  {
    var lx := Labelled(x);
    var lt := Labelled(t);
    SameTextsSameInputs(lx, lt);
    AlignKeepsTexts(lx);
    AlignKeepsTexts(lt);
    var ax := AlignColumns(lx);
    var at := AlignColumns(lt);
    SameTextsTrans(ax, lx, lt, at);
    SameTextsSameInputs(ax, at);
    assert ClassOf(x) == ClassOf(t);
  }

  lemma SameTextsTrans(a: Table, b: Table, c: Table, d: Table)
    requires Rectangular(a) && Rectangular(b) && Rectangular(c) && Rectangular(d)
    requires SameTexts(a, b) && SameTexts(b, c) && SameTexts(d, c)
    ensures SameTexts(a, d)
  {
  }

  /** Assembling an assembled table again, with the same centring and
      widths, changes nothing. */
  lemma AssembleTwice(t: Table, pt: nat, cen: seq<bool>, ws: seq<int>)
    requires Rectangular(t) && |cen| == |t.colWidths| && |ws| == |t.colWidths|
    ensures Assemble(Assemble(t, pt, cen, ws), pt, cen, ws) == Assemble(t, pt, cen, ws)
  {
    var x := Assemble(t, pt, cen, ws);
    var y := Assemble(x, pt, cen, ws);
    forall i | 0 <= i < |t.rows|
      ensures y.rows[i] == x.rows[i]
    {
      ReassembledRow(t, pt, cen, ws, i);
    }
    assert y.rows == x.rows;
  }

  lemma ReassembledRow(t: Table, pt: nat, cen: seq<bool>, ws: seq<int>, i: nat)
    requires Rectangular(t) && |cen| == |t.colWidths| && |ws| == |t.colWidths| && i < |t.rows|
    ensures var x := Assemble(t, pt, cen, ws);
      Assemble(x, pt, cen, ws).rows[i] == x.rows[i]
  {
    var x := Assemble(t, pt, cen, ws);
    var a := Assemble(x, pt, cen, ws).rows[i];
    forall j | 0 <= j < |t.colWidths|
      ensures a[j] == x.rows[i][j]
    {
      AssembleAt(x, pt, cen, ws, i, j);
      AssembleAt(t, pt, cen, ws, i, j);
      FinalCellTwice(t.rows[i][j], pt, i == 0, cen[j], ws[j]);
    }
  }

  /** Formatting a table twice is formatting it once. */
  lemma FormatTableIdempotent(t: Table, avail: int)
    requires Rectangular(t)
    ensures FormatTable(FormatTable(t, avail), avail) == FormatTable(t, avail)
  {
    var r := FormatTable(t, avail);
    var pt := ClassOf(t).fontPt;
    var cen := Centring(t);
    var ws := Widths(t, avail);
    FormatTableAssembled(t, avail);
    FormatTableAssembled(r, avail);
    AssembledReadsSame(t, cen, ws);
    SameDecisionsOf(r, t, avail);
    assert ClassOf(r) == ClassOf(t);
    AssembleTwice(t, pt, cen, ws);
  }
}
