/** The document-level passes of pdf3md/formatters/docx_formatter.py and the
    order `apply_docx_formatting` runs them in: the page geometry, the page
    number field in each footer, the heading sizes, and the tables. A pass
    that raises stops the whole run before the document is saved, so a
    failed run is `None` and leaves the file as it was. */
module Formatter {
  import opened Wrappers
  import opened Text
  import opened Document
  import opened Cleaners
  import opened TableLayout
  import opened FileSize
  import opened ColumnWidths
  import opened TableFormat

  // ----- page geometry -----

  /** The geometry `apply_page_margins` gives every section: a Letter page,
      margins of 0.3 in at top and bottom, 0.79 in on the left and 0.33 in
      on the right, no header distance and a footer distance of 0.2 in. */
  const StandardGeometry: Geometry := Geometry(
    Some(Twips(Inches(850))), Some(Twips(Inches(1100))),
    Some(Twips(Inches(30))), Some(Twips(Inches(30))),
    Some(Twips(Inches(79))), Some(Twips(Inches(33))),
    Some(Twips(Inches(0))), Some(Twips(Inches(20))))

  /** The twips the standard geometry stores: the left and right margins
      are not whole twips and are rounded to the nearest one. */
  lemma StandardGeometryTwips()
    ensures StandardGeometry == Geometry(Some(12240), Some(15840), Some(432), Some(432), Some(1138), Some(475), Some(0), Some(288))
  {
    TwipsOf(Inches(850), 12240);
    TwipsOf(Inches(1100), 15840);
    TwipsOf(Inches(30), 432);
    TwipsOf(Inches(79), 1138);
    TwipsOf(Inches(33), 475);
    TwipsOf(Inches(0), 0);
    TwipsOf(Inches(20), 288);
  }

  /** A length strictly within half a twip of `t` twips is written as `t`. */
  lemma TwipsOf(emu: nat, t: nat)
    requires 2 * (emu - t * EmuPerTwip) < EmuPerTwip && 2 * (t * EmuPerTwip - emu) < EmuPerTwip
    ensures Twips(emu) == t
  {
  }

  /** `apply_page_margins(doc)`. */
  function ApplyPageMargins(doc: Doc): (r: Doc)
    ensures |r.sections| == |doc.sections|
    ensures forall i :: 0 <= i < |r.sections| ==>
      r.sections[i].geometry == StandardGeometry
      && r.sections[i].header == doc.sections[i].header && r.sections[i].footer == doc.sections[i].footer
    ensures r.body == doc.body && r.tables == doc.tables && r.styles == doc.styles
  {
    doc.(sections := seq(|doc.sections|, i requires 0 <= i < |doc.sections| => doc.sections[i].(geometry := StandardGeometry)))
  }

  /** Applying the geometry twice is applying it once. */
  lemma ApplyPageMarginsIdempotent(doc: Doc)
    ensures ApplyPageMargins(ApplyPageMargins(doc)) == ApplyPageMargins(doc)
  {
  }

  /** `section.page_width - section.left_margin - section.right_margin` on
      the first section, in EMU: python-docx reads a twips attribute back
      as `twips * 635`. There is no first section (an `IndexError`), or a
      missing attribute reads as `None` and the subtraction raises. */
  function AvailableWidth(doc: Doc): (r: Option<int>)
    ensures r.Some? <==> (|doc.sections| > 0
      && doc.sections[0].geometry.pageWidth.Some? && doc.sections[0].geometry.left.Some? && doc.sections[0].geometry.right.Some?)
    ensures r.Some? ==> r.value % EmuPerTwip == 0
  {
    if |doc.sections| == 0 then None
    else
      var g := doc.sections[0].geometry;
      if g.pageWidth.Some? && g.left.Some? && g.right.Some? then
        Some((g.pageWidth.value - g.left.value - g.right.value) * EmuPerTwip)
      else None
  }

  /** Once the geometry is applied, the tables get 6748145 EMU: the
      rounding of the margins to whole twips moves the width less than one
      twip away from the 6748272 EMU of 8.5 - 0.79 - 0.33 inches. */
  lemma AvailableAfterMargins(doc: Doc)
    requires |doc.sections| > 0
    ensures AvailableWidth(ApplyPageMargins(doc)) == Some(6748145)
    ensures var exact := Inches(850) - Inches(79) - Inches(33);
      exact == 6748272 && exact - EmuPerTwip < 6748145 < exact + EmuPerTwip
  {
    StandardGeometryTwips();
  }

  // ----- page numbers -----

  /** The run `add_page_numbers` appends: a PAGE field and no text. */
  const PageRun: Run := Run("", None, None, true)

  /** The paragraph `footer.add_paragraph()` makes. */
  const EmptyParagraph: Paragraph := Paragraph([], None, None, false, false)

  /** The first footer paragraph, right-aligned and ending in a PAGE field. */
  function NumberParagraph(p: Paragraph): (r: Paragraph)
    ensures Alignment(r) == Some(AlignRight)
    ensures r.runs == p.runs + [PageRun] && r.style == p.style
  {
    SetAlign(p, AlignRight).(runs := p.runs + [PageRun])
  }

  /** One footer of `add_page_numbers`: its first paragraph, or a new one
      when it has none, gets the field. */
  function NumberFooter(f: Part): (r: Part)
    ensures |r.paragraphs| > 0 && Alignment(r.paragraphs[0]) == Some(AlignRight)
    ensures |f.paragraphs| > 0 ==> |r.paragraphs| == |f.paragraphs| && r.paragraphs[1..] == f.paragraphs[1..]
    ensures |f.paragraphs| == 0 ==> |r.paragraphs| == 1
    ensures r.linked == f.linked
  {
    if |f.paragraphs| == 0 then f.(paragraphs := [NumberParagraph(EmptyParagraph)])
    else f.(paragraphs := [NumberParagraph(f.paragraphs[0])] + f.paragraphs[1..])
  }

  /** `add_page_numbers(doc)`: every footer numbered; a footer that cannot
      be reached raises and ends the run. */
  function AddPageNumbers(doc: Doc): (r: Option<Doc>)
    ensures r.None? <==> exists i :: 0 <= i < |doc.sections| && doc.sections[i].footer.None?
    ensures r.Some? ==>
      && |r.value.sections| == |doc.sections|
      && (forall i :: 0 <= i < |doc.sections| ==>
            r.value.sections[i] == doc.sections[i].(footer := Some(NumberFooter(doc.sections[i].footer.value))))
      && r.value.body == doc.body && r.value.tables == doc.tables && r.value.styles == doc.styles
  {
    if exists i :: 0 <= i < |doc.sections| && doc.sections[i].footer.None? then None
    else Some(doc.(sections := seq(|doc.sections|, i requires 0 <= i < |doc.sections| =>
      doc.sections[i].(footer := Some(NumberFooter(doc.sections[i].footer.value))))))
  }

  /** Numbering adds exactly one PAGE field to a footer. */
  lemma NumberFooterFields(f: Part)
    ensures PartPageFields(NumberFooter(f).paragraphs) == PartPageFields(f.paragraphs) + 1
  {
    var ps := NumberFooter(f).paragraphs;
    var first := if |f.paragraphs| == 0 then EmptyParagraph else f.paragraphs[0];
    var rest := if |f.paragraphs| == 0 then [] else f.paragraphs[1..];
    NumberParagraphFields(first);
    assert ps[0] == NumberParagraph(first) && ps[1..] == rest;
    assert PartPageFields(f.paragraphs) == PageFields(first.runs) + PartPageFields(rest);
  }

  /** Numbering adds no text to any paragraph of a footer; an empty footer
      gains one blank paragraph. */
  lemma NumberFooterTexts(f: Part)
    ensures |NumberFooter(f).paragraphs| == if |f.paragraphs| == 0 then 1 else |f.paragraphs|
    ensures |f.paragraphs| > 0 ==> forall k :: 0 <= k < |f.paragraphs| ==>
      ParagraphText(NumberFooter(f).paragraphs[k]) == ParagraphText(f.paragraphs[k])
    ensures |f.paragraphs| == 0 ==> ParagraphText(NumberFooter(f).paragraphs[0]) == ""
  {
    var ps := NumberFooter(f).paragraphs;
    if |f.paragraphs| == 0 {
      NumberParagraphFields(EmptyParagraph);
    } else {
      NumberParagraphFields(f.paragraphs[0]);
      forall k | 1 <= k < |f.paragraphs|
        ensures ps[k] == f.paragraphs[k]
      {
        assert ps[k] == ps[1..][k - 1];
      }
    }
  }

  /** The numbered paragraph holds one more PAGE field and reads the same. */
  lemma NumberParagraphFields(p: Paragraph)
    ensures PageFields(NumberParagraph(p).runs) == PageFields(p.runs) + 1
    ensures ParagraphText(NumberParagraph(p)) == ParagraphText(p)
  {
    var runs := p.runs + [PageRun];
    assert runs[..|p.runs|] == p.runs;
  }

  /** A second run of `add_page_numbers` adds a second field: the pass is
      not idempotent. */
  lemma NumberFooterTwice(f: Part)
    ensures PartPageFields(NumberFooter(NumberFooter(f)).paragraphs) == PartPageFields(f.paragraphs) + 2
  {
    NumberFooterFields(f);
    NumberFooterFields(NumberFooter(f));
  }

  // ----- heading sizes -----

  /** The font size, in points, `apply_heading_sizes` gives each heading
      style. */
  const HeadingSizes: map<string, nat> := map[
    "Heading 1" := 14, "Heading 2" := 12, "Heading 3" := 11,
    "Heading 4" := 10, "Heading 5" := 9, "Heading 6" := 9]

  /** The name of the heading style of a level. */
  function HeadingName(level: nat): string
    requires 1 <= level <= 6
  {
    match level
    case 1 => "Heading 1"
    case 2 => "Heading 2"
    case 3 => "Heading 3"
    case 4 => "Heading 4"
    case 5 => "Heading 5"
    case _ => "Heading 6"
  }

  /** A deeper heading never gets a larger size. */
  lemma HeadingSizesDescend(a: nat, b: nat)
    requires 1 <= a <= b <= 6
    ensures HeadingName(a) in HeadingSizes && HeadingName(b) in HeadingSizes
    ensures HeadingSizes[HeadingName(a)] >= HeadingSizes[HeadingName(b)]
  {
  }

  /** Whether a paragraph's style is one of the six headings and a style
      the document defines; python-docx reads an undefined style id as the
      default paragraph style, which is no heading. */
  predicate IsHeading(p: Paragraph, defined: set<string>) {
    p.style.Some? && p.style.value in HeadingSizes && p.style.value in defined
  }

  /** Every run of a paragraph in the given size. */
  function SizeRuns(p: Paragraph, pt: nat): (r: Paragraph)
    ensures Resized(r.runs, p.runs, pt)
    ensures ParagraphText(r) == ParagraphText(p)
    ensures r.style == p.style && r.props == p.props && r.hasDrawing == p.hasDrawing && r.hasPict == p.hasPict
  {
    var runs := seq(|p.runs|, k requires 0 <= k < |p.runs| => p.runs[k].(size := Some(pt)));
    RunsTextSame(p.runs, runs);
    p.(runs := runs)
  }

  /** A body paragraph after `apply_heading_sizes`, in a document that
      defines the styles named in `defined`. */
  function HeadingParagraph(p: Paragraph, defined: set<string>): (r: Paragraph)
    ensures ParagraphText(r) == ParagraphText(p)
    ensures r.style == p.style && r.props == p.props && r.hasDrawing == p.hasDrawing && r.hasPict == p.hasPict
    ensures IsHeading(p, defined) ==> Resized(r.runs, p.runs, HeadingSizes[p.style.value])
    ensures !IsHeading(p, defined) ==> r == p
  {
    if IsHeading(p, defined) then SizeRuns(p, HeadingSizes[p.style.value]) else p
  }

  /** `apply_heading_sizes(doc)`: the heading styles the document defines
      and the runs of its heading paragraphs take the heading sizes;
      nothing else changes. */
  function ApplyHeadingSizes(doc: Doc): (r: Doc)
    ensures r.styles.Keys == doc.styles.Keys
    ensures forall name :: name in doc.styles && name in HeadingSizes ==> r.styles[name] == Some(HeadingSizes[name] as int)
    ensures forall name :: name in doc.styles && name !in HeadingSizes ==> r.styles[name] == doc.styles[name]
    ensures |r.body| == |doc.body|
    ensures forall k :: 0 <= k < |doc.body| ==> r.body[k] == HeadingParagraph(doc.body[k], doc.styles.Keys)
    ensures r.tables == doc.tables && r.sections == doc.sections
  {
    var styles := map name | name in doc.styles :: if name in HeadingSizes then Some(HeadingSizes[name] as int) else doc.styles[name];
    doc.(styles := styles,
         body := seq(|doc.body|, k requires 0 <= k < |doc.body| => HeadingParagraph(doc.body[k], doc.styles.Keys)))
  }

  /** Heading sizes change no text, and only the runs of heading
      paragraphs. */
  lemma HeadingSizesKeepText(doc: Doc, k: nat)
    requires k < |doc.body|
    ensures var p := ApplyHeadingSizes(doc).body[k];
      ParagraphText(p) == ParagraphText(doc.body[k])
      && (p.runs != doc.body[k].runs ==> IsHeading(doc.body[k], doc.styles.Keys))
  {
  }

  /** Applying the heading sizes twice is applying them once. */
  lemma ApplyHeadingSizesIdempotent(doc: Doc)
    ensures ApplyHeadingSizes(ApplyHeadingSizes(doc)) == ApplyHeadingSizes(doc)
  {
    var r := ApplyHeadingSizes(doc);
    var rr := ApplyHeadingSizes(r);
    forall k | 0 <= k < |doc.body|
      ensures rr.body[k] == r.body[k]
    {
      HeadingParagraphTwice(doc.body[k], doc.styles.Keys);
    }
    assert rr.body == r.body;
    assert rr.styles == r.styles;
  }

  lemma HeadingParagraphTwice(p: Paragraph, defined: set<string>)
    ensures HeadingParagraph(HeadingParagraph(p, defined), defined) == HeadingParagraph(p, defined)
  {
    var r := HeadingParagraph(p, defined);
    if IsHeading(p, defined) {
      assert HeadingParagraph(r, defined).runs == r.runs;
    }
  }

  // ----- tables -----

  /** Every table of a document has one cell per grid column in each row. */
  predicate AllRectangular(doc: Doc) {
    forall i :: 0 <= i < |doc.tables| ==> Rectangular(doc.tables[i])
  }

  /** `format_tables(doc)`: nothing to do without tables; otherwise every
      table formatted against the first section's available width, which
      raises when it cannot be read. Giving a table the style "Table"
      raises `KeyError` when the document defines no such style. */
  function FormatTables(doc: Doc): (r: Option<Doc>)
    requires AllRectangular(doc)
    ensures r.None? <==> |doc.tables| > 0 && (AvailableWidth(doc).None? || "Table" !in doc.styles)
    ensures r.Some? ==> r.value.body == doc.body && r.value.sections == doc.sections && r.value.styles == doc.styles
    ensures r.Some? ==> |r.value.tables| == |doc.tables|
    ensures r.Some? && |doc.tables| > 0 ==>
      forall i :: 0 <= i < |doc.tables| ==> r.value.tables[i] == FormatTable(doc.tables[i], AvailableWidth(doc).value)
  {
    if |doc.tables| == 0 then Some(doc)
    else match AvailableWidth(doc)
      case None => None
      case Some(w) =>
        if "Table" !in doc.styles then None
        else Some(doc.(tables := seq(|doc.tables|, i requires 0 <= i < |doc.tables| => FormatTable(doc.tables[i], w))))
  }

  /** Formatting the tables twice is formatting them once. */
  lemma FormatTablesIdempotent(doc: Doc)
    requires AllRectangular(doc) && FormatTables(doc).Some?
    ensures AllRectangular(FormatTables(doc).value)
    ensures FormatTables(FormatTables(doc).value) == FormatTables(doc)
  {
    var r := FormatTables(doc).value;
    if |doc.tables| > 0 {
      var w := AvailableWidth(doc).value;
      forall i | 0 <= i < |doc.tables|
        ensures FormatTable(r.tables[i], w) == r.tables[i]
      {
        FormatTableIdempotent(doc.tables[i], w);
      }
      assert r.tables == seq(|r.tables|, i requires 0 <= i < |r.tables| => FormatTable(r.tables[i], w));
    }
  }

  // ----- the whole run -----

  /** The document after every pass before the page numbers. */
  function Cleaned(doc: Doc): (r: Doc)
    ensures |r.sections| == |doc.sections| && r.tables == doc.tables && r.styles == doc.styles
    ensures forall i :: 0 <= i < |r.sections| ==>
      r.sections[i].geometry == StandardGeometry && r.sections[i].footer.Some? == doc.sections[i].footer.Some?
  {
    var m := ApplyPageMargins(doc);
    var a := m.(body := RemoveLeadingMetadata(m.body));
    var b := RemoveHorizontalRules(a);
    b.(body := RemoveShapeLines(b.body))
  }

  /** `apply_docx_formatting(path)` on the document the path holds: the
      formatted document to save, or `None` when a pass raised. */
  function ApplyDocxFormatting(doc: Doc): (r: Option<Doc>)
    requires AllRectangular(doc)
    ensures r.Some? ==>
      |r.value.sections| == |doc.sections| && |r.value.tables| == |doc.tables| && r.value.styles.Keys == doc.styles.Keys
  {
    match AddPageNumbers(Cleaned(doc))
    case None => None
    case Some(d) => FormatTables(ApplyHeadingSizes(d))
  }

  /** The run fails exactly when a section's footer cannot be reached, or
      when there are tables but no section to measure them against or no
      "Table" style to give them. */
  lemma ApplyDocxFormattingFails(doc: Doc)
    requires AllRectangular(doc)
    ensures ApplyDocxFormatting(doc).None? <==>
      (exists i :: 0 <= i < |doc.sections| && doc.sections[i].footer.None?)
      || (|doc.tables| > 0 && |doc.sections| == 0)
      || (|doc.tables| > 0 && "Table" !in doc.styles)
  {
    NumberingFails(doc);
    var n := AddPageNumbers(Cleaned(doc));
    if n.Some? {
      var h := ApplyHeadingSizes(n.value);
      assert |h.sections| == |doc.sections|;
      if |doc.sections| > 0 {
        StandardAvailable(h);
      }
    }
  }

  /** Numbering the cleaned document fails exactly when the document has a
      section without a footer. */
  lemma NumberingFails(doc: Doc)
    ensures AddPageNumbers(Cleaned(doc)).None? <==>
      exists i :: 0 <= i < |doc.sections| && doc.sections[i].footer.None?
  {
    var c := Cleaned(doc);
    if exists i :: 0 <= i < |doc.sections| && doc.sections[i].footer.None? {
      var i :| 0 <= i < |doc.sections| && doc.sections[i].footer.None?;
      assert c.sections[i].footer.None?;
    }
  }

  /** A document whose first section has the standard geometry leaves
      6748145 EMU for its tables. */
  lemma StandardAvailable(d: Doc)
    requires |d.sections| > 0 && d.sections[0].geometry == StandardGeometry
    ensures AvailableWidth(d) == Some(6748145)
  {
    StandardGeometryTwips();
  }

  /** A run that succeeds formats every table of the document, as it came
      in, against 6748145 EMU, and leaves every section with the standard
      geometry. */
  lemma ApplyDocxFormattingTables(doc: Doc)
    requires AllRectangular(doc) && ApplyDocxFormatting(doc).Some?
    ensures var r := ApplyDocxFormatting(doc).value;
      && |r.tables| == |doc.tables|
      && (forall i :: 0 <= i < |doc.tables| ==> r.tables[i] == FormatTable(doc.tables[i], 6748145))
      && |r.sections| == |doc.sections|
      && (forall i :: 0 <= i < |r.sections| ==> r.sections[i].geometry == StandardGeometry)
  {
    var c := Cleaned(doc);
    if |c.sections| > 0 {
      assert c.sections[0].geometry == StandardGeometry;
    }
    FinishingPasses(c);
  }

  /** The passes after the cleaning keep the tables' count, format each
      table against the first section's width, and keep every section's
      geometry. */
  lemma FinishingPasses(c: Doc)
    requires AllRectangular(c) && AddPageNumbers(c).Some?
    requires FormatTables(ApplyHeadingSizes(AddPageNumbers(c).value)).Some?
    requires |c.sections| > 0 ==> c.sections[0].geometry == StandardGeometry
    ensures var r := FormatTables(ApplyHeadingSizes(AddPageNumbers(c).value)).value;
      && |r.tables| == |c.tables|
      && (forall i :: 0 <= i < |c.tables| ==> r.tables[i] == FormatTable(c.tables[i], 6748145))
      && |r.sections| == |c.sections|
      && (forall i :: 0 <= i < |r.sections| ==> r.sections[i].geometry == c.sections[i].geometry)
  {
    var h := ApplyHeadingSizes(AddPageNumbers(c).value);
    if |c.tables| > 0 {
      assert |h.sections| > 0;
      StandardAvailable(h);
    }
  }

  /** A run that succeeds leaves no horizontal rule and no shape line in
      the body, and numbers every footer. */
  lemma ApplyDocxFormattingBody(doc: Doc)
    requires AllRectangular(doc) && ApplyDocxFormatting(doc).Some?
    ensures var r := ApplyDocxFormatting(doc).value;
      && (forall k :: 0 <= k < |r.body| ==> !HasHorizontalRule(r.body[k]) && !IsShapeLine(r.body[k]))
      && (forall i :: 0 <= i < |r.sections| ==> r.sections[i].footer == Some(NumberFooter(Cleaned(doc).sections[i].footer.value)))
  {
    var c := Cleaned(doc);
    CleanedBody(doc);
    FinishingBody(c);
  }

  /** The cleaned body holds no horizontal rule and no shape line. */
  lemma CleanedBody(doc: Doc)
    ensures var c := Cleaned(doc);
      forall k :: 0 <= k < |c.body| ==> !HasHorizontalRule(c.body[k]) && !IsShapeLine(c.body[k])
  {
    var m := ApplyPageMargins(doc);
    var b := RemoveHorizontalRules(m.(body := RemoveLeadingMetadata(m.body)));
    assert Cleaned(doc).body == RemoveShapeLines(b.body);
    ShapesKeepNoRule(b.body);
  }

  /** Deleting the shape lines of a body without rules leaves a body
      without rules. */
  lemma ShapesKeepNoRule(ps: seq<Paragraph>)
    requires forall k :: 0 <= k < |ps| ==> !HasHorizontalRule(ps[k])
    ensures var r := RemoveShapeLines(ps);
      forall k :: 0 <= k < |r| ==> !HasHorizontalRule(r[k])
  {
    var r := RemoveShapeLines(ps);
    RemoveShapeLinesInOrder(ps);
    forall k | 0 <= k < |r|
      ensures !HasHorizontalRule(r[k])
    {
      assert r[k] in multiset(r);
      assert r[k] in multiset(ps);
    }
  }

  /** The passes after the cleaning bring no rule and no shape line into
      the body, and leave every footer numbered. */
  lemma FinishingBody(c: Doc)
    requires AllRectangular(c) && AddPageNumbers(c).Some?
    requires FormatTables(ApplyHeadingSizes(AddPageNumbers(c).value)).Some?
    requires forall k :: 0 <= k < |c.body| ==> !HasHorizontalRule(c.body[k]) && !IsShapeLine(c.body[k])
    ensures var r := FormatTables(ApplyHeadingSizes(AddPageNumbers(c).value)).value;
      && (forall k :: 0 <= k < |r.body| ==> !HasHorizontalRule(r.body[k]) && !IsShapeLine(r.body[k]))
      && (forall i :: 0 <= i < |r.sections| ==> r.sections[i].footer == Some(NumberFooter(c.sections[i].footer.value)))
  {
  }

  // ----- the converter's call -----

  /** `apply_docx_formatting` takes one parameter: a call with any other
      number of arguments raises `TypeError` before any pass runs. */
  function CallFormatting(doc: Doc, args: nat): (r: Option<Doc>)
    requires AllRectangular(doc)
    ensures args != 1 ==> r.None?
    ensures args == 1 ==> r == ApplyDocxFormatting(doc)
  {
    if args != 1 then None else ApplyDocxFormatting(doc)
  }

  /** The converter's post-processing: a failure is logged and swallowed,
      and the document Pandoc wrote is returned as it is. */
  function PostProcess(doc: Doc, args: nat): (r: Doc)
    requires AllRectangular(doc)
    ensures CallFormatting(doc, args).None? ==> r == doc
    ensures CallFormatting(doc, args).Some? ==> r == CallFormatting(doc, args).value
  {
    match CallFormatting(doc, args)
    case None => doc
    case Some(f) => f
  }

  /** The converter as written passes the path and a profile, so the
      formatter never runs and every document comes back unformatted. */
  function ConverterAsWritten(doc: Doc): (r: Doc)
    requires AllRectangular(doc)
    ensures r == doc
  {
    PostProcess(doc, 2)
  }

  /** The call as the formatter's signature asks for it, the path alone:
      the document comes back formatted whenever formatting succeeds. */
  function ConverterCorrected(doc: Doc): (r: Doc)
    requires AllRectangular(doc)
    ensures ApplyDocxFormatting(doc).Some? ==> r == ApplyDocxFormatting(doc).value
    ensures ApplyDocxFormatting(doc).None? ==> r == doc
  {
    PostProcess(doc, 1)
  }

  /** A one-section document with an empty footer: the corrected call gives
      it a page number, the call as written does not. */
  lemma ConverterDiscrepancy()
    ensures var doc := Doc([], [], [Section(StandardGeometry, Some(Part(false, [])), Some(Part(false, [])))], map[]);
      AllRectangular(doc)
      && ConverterAsWritten(doc) == doc
      && ConverterCorrected(doc) != doc
  {
    var doc := Doc([], [], [Section(StandardGeometry, Some(Part(false, [])), Some(Part(false, [])))], map[]);
    ApplyDocxFormattingFails(doc);
    var r := ApplyDocxFormatting(doc).value;
    ApplyDocxFormattingBody(doc);
    assert |r.sections[0].footer.value.paragraphs| == 1;
  }
}
