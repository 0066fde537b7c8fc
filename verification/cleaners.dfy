/** The clean-up passes run before formatting (pdf3md/formatters/
    docx_cleaners.py): leading metadata, horizontal rules and empty shape
    paragraphs are deleted. Deleting a paragraph is removing it from its
    sequence. */
module Cleaners {
  import opened Wrappers
  import opened Text
  import opened Seqs
  import opened Document

  /** The four edges `has_horizontal_rule` looks at. */
  predicate SideEdge(e: Edge) {
    e.EdgeTop? || e.EdgeBottom? || e.EdgeLeft? || e.EdgeRight?
  }

  /** An edge whose element is present with a non-empty `w:val`. */
  predicate Marked(borders: map<Edge, string>, e: Edge) {
    e in borders && borders[e] != ""
  }

  /** The edges in the order the source tries them. */
  const RuleEdges: seq<Edge> := [EdgeTop, EdgeBottom, EdgeLeft, EdgeRight]

  /** The loop over the edges: true at the first marked one. */
  function AnyMarked(borders: map<Edge, string>, edges: seq<Edge>): (r: bool)
    ensures r <==> exists k :: 0 <= k < |edges| && Marked(borders, edges[k])
  {
    if |edges| == 0 then false
    else if Marked(borders, edges[0]) then true
    else AnyMarked(borders, edges[1..])
  }

  /** `has_horizontal_rule(paragraph)`: the paragraph has properties with a
      border element, and one of top, bottom, left and right carries a
      value. A `between` or `bar` border alone is no rule. */
  function HasHorizontalRule(p: Paragraph): (r: bool)
    ensures r <==> p.props.Some? && p.props.value.borders.Some?
                   && exists e :: SideEdge(e) && Marked(p.props.value.borders.value, e)
  {
    if p.props.None? then false
    else if p.props.value.borders.None? then false
    else
      var b := p.props.value.borders.value;
      var r := AnyMarked(b, RuleEdges);
      assert r ==> exists e :: SideEdge(e) && Marked(b, e);
      assert (exists e :: SideEdge(e) && Marked(b, e)) ==> r by {
        if exists e :: SideEdge(e) && Marked(b, e) {
          var e :| SideEdge(e) && Marked(b, e);
          assert e == RuleEdges[0] || e == RuleEdges[1] || e == RuleEdges[2] || e == RuleEdges[3];
        }
      }
      r
  }

  /** The text of a leading paragraph that marks it as metadata: a wiki-style
      `[[...#...` line or a Markdown thematic break. */
  predicate MetadataText(text: string) {
    ("[[" <= text && Contains(text, "#")) || text == "---" || text == "***" || text == "___"
  }

  /** The test applied to each of the first five paragraphs. */
  predicate IsLeadingMetadata(p: Paragraph) {
    MetadataText(Strip(ParagraphText(p))) || HasHorizontalRule(p)
  }

  /** How many leading paragraphs are examined. */
  const LeadingWindow: nat := 5

  /** The number of paragraphs `paragraphs[:5]` holds. */
  function Window(body: seq<Paragraph>): nat {
    if |body| < LeadingWindow then |body| else LeadingWindow
  }

  predicate NotLeadingMetadata(p: Paragraph) {
    !IsLeadingMetadata(p)
  }

  /** `remove_leading_metadata(doc)` on the body. The result is the
      examined head with its metadata paragraphs deleted, followed by the
      rest of the body as it was. */
  function RemoveLeadingMetadata(body: seq<Paragraph>): (r: seq<Paragraph>)
    ensures var n := Window(body);
      var later := |body| - n;
      && |r| >= later
      && r[|r| - later..] == body[n..]
      && (forall k :: 0 <= k < |r| - later ==> !IsLeadingMetadata(r[k]))
      && (forall p :: multiset(r[..|r| - later])[p] == if IsLeadingMetadata(p) then 0 else multiset(body[..n])[p])
      && Subsequence(r[..|r| - later], body[..n])
    ensures |body| == 0 ==> r == []
  {
    if |body| == 0 then
      assert Embeds([], body, body);
      body
    else
      FilterPrefix(body, Window(body), NotLeadingMetadata);
      Filter(body[..Window(body)], NotLeadingMetadata) + body[Window(body)..]
  }

  /** Every paragraph after the fifth survives, in place at the end. */
  lemma LaterParagraphsSurvive(body: seq<Paragraph>)
    requires |body| >= LeadingWindow
    ensures var r := RemoveLeadingMetadata(body);
      |r| >= |body| - LeadingWindow
      && r[|r| - (|body| - LeadingWindow)..] == body[LeadingWindow..]
  {
  }

  /** A paragraph survives as often as it occurs after the fifth, plus as
      often as it occurs among the first five unless it looks like
      metadata; so it disappears exactly when no copy of it lies after the
      fifth and it looks like metadata. Equal paragraphs share one fate. */
  lemma LeadingDeletedIff(body: seq<Paragraph>, p: Paragraph)
    requires p in body
    ensures var n := Window(body);
      var r := RemoveLeadingMetadata(body);
      && multiset(r)[p] == multiset(body[n..])[p] + (if IsLeadingMetadata(p) then 0 else multiset(body[..n])[p])
      && (p !in r <==> p !in body[n..] && IsLeadingMetadata(p))
  {
    FilterPrefixCount(body, Window(body), NotLeadingMetadata, p);
  }

  /** Whether a body paragraph survives `remove_horizontal_rules`. */
  predicate NoRule(p: Paragraph) {
    !HasHorizontalRule(p)
  }

  /** A header paragraph after the header pass: a rule is deleted (see
      `CleanHeader`), anything else is cleared. */
  function CleanHeader(ps: seq<Paragraph>): (r: seq<Paragraph>)
    ensures |r| <= |ps|
    ensures forall k :: 0 <= k < |r| ==> !HasHorizontalRule(r[k]) && ParagraphText(r[k]) == ""
    ensures forall k :: 0 <= k < |r| ==> r[k] == Clear(r[k])
  {
    if |ps| == 0 then []
    else if HasHorizontalRule(ps[0]) then CleanHeader(ps[1..])
    else [Clear(ps[0])] + CleanHeader(ps[1..])
  }

  /** The cleared header paragraphs are the non-rule ones, cleared, in order. */
  lemma {:induction false} CleanHeaderIsClearedFilter(ps: seq<Paragraph>)
    ensures var kept := Filter(ps, NoRule);
      |CleanHeader(ps)| == |kept|
      && forall k :: 0 <= k < |kept| ==> CleanHeader(ps)[k] == Clear(kept[k])
    decreases |ps|
  {
    if |ps| > 0 {
      CleanHeaderIsClearedFilter(ps[1..]);
      if HasHorizontalRule(ps[0]) {
        assert Filter(ps, NoRule) == Filter(ps[1..], NoRule);
        assert CleanHeader(ps) == CleanHeader(ps[1..]);
      } else {
        assert Filter(ps, NoRule) == [ps[0]] + Filter(ps[1..], NoRule);
        assert CleanHeader(ps) == [Clear(ps[0])] + CleanHeader(ps[1..]);
      }
    }
  }

  /** The body of the document after `remove_horizontal_rules`: no
      paragraph with a rule is left, and every paragraph without one is. */
  function RemoveRules(ps: seq<Paragraph>): (r: seq<Paragraph>)
    ensures forall k :: 0 <= k < |r| ==> !HasHorizontalRule(r[k])
    ensures forall k :: 0 <= k < |ps| && !HasHorizontalRule(ps[k]) ==> ps[k] in r
  {
    Filter(ps, NoRule)
  }

  /** The survivors of `RemoveRules` keep their order, and each paragraph
      without a rule survives as often as it occurs. */
  lemma RemoveRulesInOrder(ps: seq<Paragraph>)
    ensures var r := RemoveRules(ps);
      && Subsequence(r, ps)
      && forall p :: multiset(r)[p] == if HasHorizontalRule(p) then 0 else multiset(ps)[p]
  {
    FilterSubsequence(ps, NoRule);
    FilterMultiset(ps, NoRule);
  }

  /** The one paragraph of a header or footer definition made from the
      default template: empty, styled "Header" or "Footer", no alignment
      and no borders. */
  function TemplateParagraph(style: string): (p: Paragraph)
    ensures ParagraphText(p) == "" && p.style == Some(style)
    ensures Alignment(p) == None && !HasHorizontalRule(p)
    ensures !p.hasDrawing && !p.hasPict
  {
    Paragraph([], Some(style), Some(Props(None, None)), false, false)
  }

  /** `part.is_linked_to_previous = False`: a linked part has no definition
      of its own, so one is added from the template; an unlinked part is
      kept as it is. */
  function Unlink(p: Part, style: string): (r: Part)
    ensures !r.linked
    ensures !p.linked ==> r == p
    ensures p.linked ==> r.paragraphs == [TemplateParagraph(style)]
  {
    if p.linked then Part(false, [TemplateParagraph(style)]) else p
  }

  /** One section of `remove_horizontal_rules`. Both parts are unlinked
      first; an access that raises `FileNotFoundError` ends the work on the
      section (a failing header leaves it untouched, a failing footer leaves
      only the header unlinked). */
  function CleanSection(s: Section): (r: Section)
    ensures r.geometry == s.geometry
    ensures r.header.Some? == s.header.Some? && r.footer.Some? == s.footer.Some?
    ensures s.header.None? ==> r == s
    ensures s.header.Some? && s.footer.None? ==>
      r.header == Some(Unlink(s.header.value, "Header")) && r.footer.None?
    ensures s.header.Some? && s.footer.Some? ==>
      r.header == Some(Part(false, CleanHeader(Unlink(s.header.value, "Header").paragraphs)))
      && r.footer == Some(Part(false, RemoveRules(Unlink(s.footer.value, "Footer").paragraphs)))
  {
    match s.header
    case None => s
    case Some(h) =>
      match s.footer
      case None => s.(header := Some(Unlink(h, "Header")))
      case Some(f) =>
        s.(header := Some(Part(false, CleanHeader(Unlink(h, "Header").paragraphs))),
           footer := Some(Part(false, RemoveRules(Unlink(f, "Footer").paragraphs))))
  }

  /** A header or footer that was linked to the previous section's comes
      out of the pass holding just the template paragraph: it has no rule,
      and clearing it changes nothing. */
  lemma LinkedPartsGetTemplate(s: Section)
    requires s.header.Some? && s.footer.Some?
    ensures s.header.value.linked ==>
      CleanSection(s).header.value.paragraphs == [TemplateParagraph("Header")]
    ensures s.footer.value.linked ==>
      CleanSection(s).footer.value.paragraphs == [TemplateParagraph("Footer")]
  {
    var h, f := TemplateParagraph("Header"), TemplateParagraph("Footer");
    assert !HasHorizontalRule(h) && !HasHorizontalRule(f);
    assert Clear(h) == h;
    if s.header.value.linked {
      assert CleanHeader([h]) == [h];
    }
    if s.footer.value.linked {
      assert RemoveRules([f]) == [f];
    }
  }

  /** `remove_horizontal_rules(doc)`. */
  function RemoveHorizontalRules(doc: Doc): (r: Doc)
    ensures r.body == RemoveRules(doc.body)
    ensures |r.sections| == |doc.sections|
    ensures forall i :: 0 <= i < |doc.sections| ==> r.sections[i] == CleanSection(doc.sections[i])
    ensures r.tables == doc.tables && r.styles == doc.styles
  {
    doc.(body := RemoveRules(doc.body),
         sections := seq(|doc.sections|, i requires 0 <= i < |doc.sections| => CleanSection(doc.sections[i])))
  }

  /** After the pass no body paragraph and no paragraph of an accessible
      header or footer carries a rule, and every accessible part is
      unlinked. */
  lemma NoRulesRemain(doc: Doc, i: nat)
    requires i < |doc.sections| && doc.sections[i].header.Some? && doc.sections[i].footer.Some?
    ensures var r := RemoveHorizontalRules(doc);
      var s := r.sections[i];
      !s.header.value.linked && !s.footer.value.linked
      && (forall k :: 0 <= k < |s.header.value.paragraphs| ==> !HasHorizontalRule(s.header.value.paragraphs[k]))
      && (forall k :: 0 <= k < |s.footer.value.paragraphs| ==> !HasHorizontalRule(s.footer.value.paragraphs[k]))
      && (forall k :: 0 <= k < |r.body| ==> !HasHorizontalRule(r.body[k]))
  {
  }

  /** A second pass changes nothing. */
  lemma RemoveHorizontalRulesIdempotent(doc: Doc)
    ensures RemoveHorizontalRules(RemoveHorizontalRules(doc)) == RemoveHorizontalRules(doc)
  {
    var r := RemoveHorizontalRules(doc);
    FilterIdempotent(doc.body, NoRule);
    forall i | 0 <= i < |doc.sections|
      ensures CleanSection(r.sections[i]) == r.sections[i]
    {
      CleanSectionIdempotent(doc.sections[i]);
    }
  }

  lemma CleanSectionIdempotent(s: Section)
    ensures CleanSection(CleanSection(s)) == CleanSection(s)
  {
    if s.header.Some? && s.footer.Some? {
      var h := CleanHeader(Unlink(s.header.value, "Header").paragraphs);
      CleanHeaderFixed(h);
      FilterIdempotent(Unlink(s.footer.value, "Footer").paragraphs, NoRule);
    }
  }

  /** The header pass leaves a cleaned header as it is. */
  lemma {:induction false} CleanHeaderFixed(ps: seq<Paragraph>)
    requires forall k :: 0 <= k < |ps| ==> !HasHorizontalRule(ps[k]) && ps[k] == Clear(ps[k])
    ensures CleanHeader(ps) == ps
    decreases |ps|
  {
    if |ps| > 0 {
      CleanHeaderFixed(ps[1..]);
      assert [ps[0]] + ps[1..] == ps;
    }
  }

  /** A section whose parts cannot be reached does not stop the pass: every
      other section is cleaned all the same. */
  lemma FailingSectionSkipped(doc: Doc, i: nat, j: nat)
    requires i < |doc.sections| && j < |doc.sections| && i != j
    requires doc.sections[i].header.None?
    ensures RemoveHorizontalRules(doc).sections[i] == doc.sections[i]
    ensures RemoveHorizontalRules(doc).sections[j] == CleanSection(doc.sections[j])
  {
  }

  /** The paragraphs `remove_shape_lines` deletes: no visible text, and a
      drawing or a picture inside. */
  predicate IsShapeLine(p: Paragraph) {
    Strip(ParagraphText(p)) == "" && (p.hasDrawing || p.hasPict)
  }

  predicate NotShapeLine(p: Paragraph) {
    !IsShapeLine(p)
  }

  /** `remove_shape_lines(doc)` on the body. */
  function RemoveShapeLines(body: seq<Paragraph>): (r: seq<Paragraph>)
    ensures forall k :: 0 <= k < |r| ==> !IsShapeLine(r[k])
    ensures forall k :: 0 <= k < |body| && Strip(ParagraphText(body[k])) != "" ==> body[k] in r
    ensures forall k :: 0 <= k < |body| && !body[k].hasDrawing && !body[k].hasPict ==> body[k] in r
  {
    Filter(body, NotShapeLine)
  }

  /** The survivors of `RemoveShapeLines` keep their order, and each
      paragraph that is not a shape line survives as often as it occurs. */
  lemma RemoveShapeLinesInOrder(body: seq<Paragraph>)
    ensures var r := RemoveShapeLines(body);
      && Subsequence(r, body)
      && forall p :: multiset(r)[p] == if IsShapeLine(p) then 0 else multiset(body)[p]
  {
    FilterSubsequence(body, NotShapeLine);
    FilterMultiset(body, NotShapeLine);
  }

  /** A paragraph is deleted exactly when it is a shape line, and a second
      pass deletes nothing. */
  lemma RemoveShapeLinesIff(body: seq<Paragraph>, p: Paragraph)
    requires p in body
    ensures p in RemoveShapeLines(body) <==> !IsShapeLine(p)
    ensures RemoveShapeLines(RemoveShapeLines(body)) == RemoveShapeLines(body)
  {
    FilterIdempotent(body, NotShapeLine);
  }
}
