/** The parts of a Word document that the reformatting passes read and
    write, as python-docx presents them: body paragraphs, tables, sections
    with their header and footer, and the paragraph styles. Body paragraphs
    and tables are kept apart, as `doc.paragraphs` and `doc.tables` list
    them apart. */
module Document {
  import opened Wrappers
  import opened Text

  datatype Align = AlignLeft | AlignCenter | AlignRight | AlignJustify

  /** The child elements a `w:pBdr` border element may hold. */
  datatype Edge = EdgeTop | EdgeBottom | EdgeLeft | EdgeRight | EdgeBetween | EdgeBar

  /** A run: its text (a `w:br` break reads as a line feed), its explicit
      font size in points and bold flag (`None` when inherited), and whether
      it holds a PAGE field, whose field codes contribute no text. */
  datatype Run = Run(text: string, size: Option<int>, bold: Option<bool>, pageField: bool)

  /** The paragraph properties `w:pPr`: the alignment they set and the
      border element `w:pBdr`, which maps each edge present to its `w:val`
      attribute (`""` when the attribute is missing). */
  datatype Props = Props(align: Option<Align>, borders: Option<map<Edge, string>>)

  /** A paragraph: its runs, the name of its explicit paragraph style, its
      properties element if it has one, and whether a `w:drawing` or a
      `w:pict` occurs anywhere inside it. */
  datatype Paragraph = Paragraph(
    runs: seq<Run>,
    style: Option<string>,
    props: Option<Props>,
    hasDrawing: bool,
    hasPict: bool)

  /** A header or a footer: whether it is linked to the previous section's,
      and its paragraphs. A linked part has no definition of its own; its
      paragraphs stand for the ones its section shows. */
  datatype Part = Part(linked: bool, paragraphs: seq<Paragraph>)

  /** The page geometry of a section in twentieths of a point, as the
      `w:pgSz` and `w:pgMar` attributes store it; `None` for an attribute
      that is missing. */
  datatype Geometry = Geometry(
    pageWidth: Option<int>,
    pageHeight: Option<int>,
    top: Option<int>,
    bottom: Option<int>,
    left: Option<int>,
    right: Option<int>,
    headerDistance: Option<int>,
    footerDistance: Option<int>)

  /** A section. A header or footer of `None` is one whose access raises
      `FileNotFoundError` (python-docx could not load the template part it
      needs). */
  datatype Section = Section(geometry: Geometry, header: Option<Part>, footer: Option<Part>)

  /** A table cell: its paragraphs, its width in EMU if set, and whether it
      is vertically centred. */
  datatype Cell = Cell(paragraphs: seq<Paragraph>, width: Option<int>, vCenter: bool)

  /** A table: its style name, its autofit flag, the widths of its grid
      columns and its rows of cells. */
  datatype Table = Table(style: Option<string>, autofit: bool, colWidths: seq<Option<int>>, rows: seq<seq<Cell>>)

  /** The document; `styles` maps the name of each style it defines,
      paragraph and table styles alike, to its font size in points, if
      set. */
  datatype Doc = Doc(body: seq<Paragraph>, tables: seq<Table>, sections: seq<Section>, styles: map<string, Option<int>>)

  /** Every row has one cell per grid column (no merged cells). */
  predicate Rectangular(t: Table) {
    forall i :: 0 <= i < |t.rows| ==> |t.rows[i]| == |t.colWidths|
  }

  /** `paragraph.text`: the run texts, concatenated. */
  function RunsText(runs: seq<Run>): string
  {
    if |runs| == 0 then "" else RunsText(runs[..|runs| - 1]) + runs[|runs| - 1].text
  }

  function ParagraphText(p: Paragraph): string {
    RunsText(p.runs)
  }

  /** `paragraph.alignment`. */
  function Alignment(p: Paragraph): Option<Align> {
    if p.props.Some? then p.props.value.align else None
  }

  /** Setting `paragraph.alignment`: the properties element is created if
      missing; its borders are untouched. */
  function SetAlign(p: Paragraph, a: Align): (r: Paragraph)
    ensures Alignment(r) == Some(a)
    ensures r.runs == p.runs && r.style == p.style
    ensures r.hasDrawing == p.hasDrawing && r.hasPict == p.hasPict
    ensures r.props.Some? && (p.props.Some? ==> r.props.value.borders == p.props.value.borders)
    ensures p.props.None? ==> r.props.value.borders.None?
  {
    var borders := if p.props.Some? then p.props.value.borders else None;
    p.(props := Some(Props(Some(a), borders)))
  }

  /** `paragraph.clear()`: every run goes, and with the runs every drawing
      and picture inside them; style and properties stay. */
  function Clear(p: Paragraph): (r: Paragraph)
    ensures ParagraphText(r) == "" && !r.hasDrawing && !r.hasPict
    ensures r.style == p.style && r.props == p.props
  {
    p.(runs := [], hasDrawing := false, hasPict := false)
  }

  /** `get_cell_text(cell)`: the stripped texts of the cell's paragraphs
      with non-empty text, joined by spaces and stripped again. */
  function CellText(c: Cell): (r: string)
    ensures |r| > 0 ==> !IsSpace(r[0]) && !IsSpace(r[|r| - 1])
  {
    Strip(Join(NonEmptyTexts(c.paragraphs), ' '))
  }

  /** The stripped texts of the paragraphs with non-empty text, in order. */
  function NonEmptyTexts(ps: seq<Paragraph>): (r: seq<string>)
    ensures |r| <= |ps|
  {
    if |ps| == 0 then []
    else
      var rest := NonEmptyTexts(ps[1..]);
      if ParagraphText(ps[0]) != "" then [Strip(ParagraphText(ps[0]))] + rest else rest
  }

  /** A cell whose paragraphs all read as whitespace has no text. */
  lemma {:induction false} BlankCellText(c: Cell)
    requires forall k :: 0 <= k < |c.paragraphs| ==> AllSpace(ParagraphText(c.paragraphs[k]))
    ensures CellText(c) == ""
  {
    BlankTexts(c.paragraphs);
    BlankJoin(NonEmptyTexts(c.paragraphs));
  }

  lemma {:induction false} BlankTexts(ps: seq<Paragraph>)
    requires forall k :: 0 <= k < |ps| ==> AllSpace(ParagraphText(ps[k]))
    ensures forall k :: 0 <= k < |NonEmptyTexts(ps)| ==> NonEmptyTexts(ps)[k] == ""
    decreases |ps|
  {
    if |ps| > 0 {
      BlankTexts(ps[1..]);
    }
  }

  lemma {:induction false} BlankJoin(parts: seq<string>)
    requires forall k :: 0 <= k < |parts| ==> parts[k] == ""
    ensures AllSpace(Join(parts, ' '))
    decreases |parts|
  {
    if |parts| > 1 {
      BlankJoin(parts[1..]);
    }
  }

  /** A cell holding one paragraph reads as that paragraph's stripped text. */
  lemma SingleParagraphText(c: Cell)
    requires |c.paragraphs| == 1
    ensures CellText(c) == Strip(ParagraphText(c.paragraphs[0]))
  {
    var t := ParagraphText(c.paragraphs[0]);
    if t != "" {
      StripTwice(t);
    }
  }

  lemma StripTwice(s: string)
    ensures Strip(Strip(s)) == Strip(s)
  {
    var t := Strip(s);
    if |t| > 0 {
      assert TrimStart(t) == t;
      assert TrimEnd(t) == t;
    }
  }

  /** The texts of column `j`, top to bottom. */
  function ColumnTexts(t: Table, j: nat): (r: seq<string>)
    requires Rectangular(t) && j < |t.colWidths|
    ensures |r| == |t.rows|
    ensures forall i :: 0 <= i < |r| ==> r[i] == CellText(t.rows[i][j])
  {
    seq(|t.rows|, i requires 0 <= i < |t.rows| => CellText(t.rows[i][j]))
  }

  /** Two run lists with the same texts, one for one, read the same. */
  lemma {:induction false} RunsTextSame(a: seq<Run>, b: seq<Run>)
    requires |a| == |b| && forall k :: 0 <= k < |a| ==> a[k].text == b[k].text
    ensures RunsText(a) == RunsText(b)
    decreases |a|
  {
    if |a| > 0 {
      RunsTextSame(a[..|a| - 1], b[..|b| - 1]);
    }
  }

  /** Two cells whose paragraphs read the same, one for one, read the same. */
  lemma CellTextSame(c: Cell, d: Cell)
    requires |c.paragraphs| == |d.paragraphs|
    requires forall k :: 0 <= k < |c.paragraphs| ==> ParagraphText(c.paragraphs[k]) == ParagraphText(d.paragraphs[k])
    ensures CellText(c) == CellText(d)
  {
    NonEmptyTextsSame(c.paragraphs, d.paragraphs);
  }

  lemma {:induction false} NonEmptyTextsSame(ps: seq<Paragraph>, qs: seq<Paragraph>)
    requires |ps| == |qs|
    requires forall k :: 0 <= k < |ps| ==> ParagraphText(ps[k]) == ParagraphText(qs[k])
    ensures NonEmptyTexts(ps) == NonEmptyTexts(qs)
    decreases |ps|
  {
    if |ps| > 0 {
      NonEmptyTextsSame(ps[1..], qs[1..]);
    }
  }

  /** How many PAGE fields some runs hold. */
  function PageFields(runs: seq<Run>): nat
  {
    if |runs| == 0 then 0 else PageFields(runs[..|runs| - 1]) + (if runs[|runs| - 1].pageField then 1 else 0)
  }

  /** How many PAGE fields some paragraphs hold. */
  function PartPageFields(ps: seq<Paragraph>): nat
  {
    if |ps| == 0 then 0 else PageFields(ps[0].runs) + PartPageFields(ps[1..])
  }
}
