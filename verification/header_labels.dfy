/** `normalize_header_labels` (pdf3md/formatters/docx_formatter.py): a
    header paragraph whose text mentions a known column is rewritten to that
    column's canonical label, in bold 10 pt. The five tests run one after
    the other on the text as it was, each rewrite clearing the paragraph
    again, so the last test that passes decides the label. */
module HeaderLabels {
  import opened Wrappers
  import opened Text
  import opened Document

  /** The canonical labels. */
  datatype Label = BlockLabel | DeviceLabel | FirstByteLabel | SecondByteLabel | DataLabel

  /** The labels in the order the source tries them. */
  const Labels: seq<Label> := [BlockLabel, DeviceLabel, FirstByteLabel, SecondByteLabel, DataLabel]

  /** The test for each label, on the stripped paragraph text (case
      sensitive, unlike the width heuristics). */
  predicate Matches(text: string, l: Label) {
    match l
    case BlockLabel => Contains(text, "Блок")
    case DeviceLabel => Contains(text, "Устройство")
    case FirstByteLabel => Contains(text, "1-й") && Contains(text, "байт")
    case SecondByteLabel => Contains(text, "2-й") && Contains(text, "байт")
    case DataLabel => Contains(text, "4-7") && Contains(text, "Data")
  }

  /** A run the rewrite adds: bold, 10 pt. */
  function LabelRun(text: string): (r: Run)
    ensures r.text == text && r.size == Some(10) && r.bold == Some(true) && !r.pageField
  {
    Run(text, Some(10), Some(true), false)
  }

  /** The runs each label is written as; the data label has a line break
      after its first run. */
  function LabelRuns(l: Label): seq<Run> {
    match l
    case BlockLabel => [LabelRun("Блок")]
    case DeviceLabel => [LabelRun("Устройство")]
    case FirstByteLabel => [LabelRun("1-й байт")]
    case SecondByteLabel => [LabelRun("2-й байт")]
    case DataLabel => [LabelRun("4-7 ?байт\n"), LabelRun("(Data)")]
  }

  /** One `if` of the source: on a match, clear and write the label. */
  function Rewrite(p: Paragraph, text: string, l: Label): (r: Paragraph)
    ensures Matches(text, l) ==> r == Clear(p).(runs := LabelRuns(l))
    ensures !Matches(text, l) ==> r == p
  {
    if Matches(text, l) then Clear(p).(runs := LabelRuns(l)) else p
  }

  /** The tests in order, each on the original text. */
  function RewriteAll(p: Paragraph, text: string, labels: seq<Label>): (r: Paragraph)
    ensures r.style == p.style && r.props == p.props
    decreases |labels|
  {
    if |labels| == 0 then p else RewriteAll(Rewrite(p, text, labels[0]), text, labels[1..])
  }

  /** The label of the last test the text passes, if any: the reference
      reading of the chain of `if`s. */
  function LastMatch(text: string, labels: seq<Label>): (r: Option<Label>)
    ensures r.Some? ==> Matches(text, r.value) && r.value in labels
    ensures r.None? <==> forall k :: 0 <= k < |labels| ==> !Matches(text, labels[k])
  {
    if |labels| == 0 then None
    else if Matches(text, labels[|labels| - 1]) then Some(labels[|labels| - 1])
    else LastMatch(text, labels[..|labels| - 1])
  }

  /** Running the tests one after another is writing the label of the last
      test passed, or leaving the paragraph alone when none passes. */
  lemma {:induction false} RewriteAllIsLastMatch(p: Paragraph, text: string, labels: seq<Label>)
    ensures RewriteAll(p, text, labels) ==
      match LastMatch(text, labels)
      case None => p
      case Some(l) => Clear(p).(runs := LabelRuns(l))
    decreases |labels|
  {
    if |labels| > 0 {
      var q := Rewrite(p, text, labels[0]);
      RewriteAllIsLastMatch(q, text, labels[1..]);
      LastMatchSplit(text, labels);
    }
  }

  /** The last match of a list is the last match of its tail, failing that
      its head. */
  lemma {:induction false} LastMatchSplit(text: string, labels: seq<Label>)
    requires |labels| > 0
    ensures LastMatch(text, labels) ==
      if LastMatch(text, labels[1..]).Some? then LastMatch(text, labels[1..])
      else if Matches(text, labels[0]) then Some(labels[0]) else None
    decreases |labels|
  {
    if |labels| > 1 {
      var init := labels[..|labels| - 1];
      LastMatchSplit(text, init);
      assert init[1..] == labels[1..][..|labels| - 2];
      assert labels[1..][|labels| - 2] == labels[|labels| - 1];
    }
  }

  /** `normalize_header_labels` on one paragraph of the header row. */
  function Relabel(p: Paragraph): (r: Paragraph)
    ensures r.style == p.style && r.props == p.props
    ensures Strip(ParagraphText(p)) == "" ==> r == p
  {
    var text := Strip(ParagraphText(p));
    if text == "" then p else RewriteAll(p, text, Labels)
  }

  /** The text a label reads as. */
  function LabelText(l: Label): string {
    match l
    case BlockLabel => "Блок"
    case DeviceLabel => "Устройство"
    case FirstByteLabel => "1-й байт"
    case SecondByteLabel => "2-й байт"
    case DataLabel => "4-7 ?байт\n(Data)"
  }

  /** A relabelled paragraph reads as its label, and every run of it is
      bold 10 pt. */
  lemma RelabelText(p: Paragraph)
    requires Strip(ParagraphText(p)) != ""
    requires LastMatch(Strip(ParagraphText(p)), Labels).Some?
    ensures var l := LastMatch(Strip(ParagraphText(p)), Labels).value;
      var r := Relabel(p);
      ParagraphText(r) == LabelText(l)
      && (forall k :: 0 <= k < |r.runs| ==> r.runs[k].size == Some(10) && r.runs[k].bold == Some(true))
  {
    var text := Strip(ParagraphText(p));
    RewriteAllIsLastMatch(p, text, Labels);
    LabelRunsText(LastMatch(text, Labels).value);
  }

  lemma LabelRunsText(l: Label)
    ensures RunsText(LabelRuns(l)) == LabelText(l)
    ensures forall k :: 0 <= k < |LabelRuns(l)| ==> LabelRuns(l)[k].size == Some(10) && LabelRuns(l)[k].bold == Some(true)
  {
    var runs := LabelRuns(l);
    if l == DataLabel {
      assert runs[..1] == [runs[0]];
      assert RunsText(runs) == RunsText(runs[..1]) + runs[1].text;
    }
  }

  /** What a paragraph reading `text` reads as after relabelling: the
      label of the last test its stripped text passes, or itself. */
  function RelabelledText(text: string): string {
    if Strip(text) == "" then text
    else match LastMatch(Strip(text), Labels)
      case None => text
      case Some(l) => LabelText(l)
  }

  /** Relabelling a paragraph reads as relabelling its text, and leaves
      every run either as it was or bold 10 pt. */
  lemma RelabelReads(p: Paragraph)
    ensures ParagraphText(Relabel(p)) == RelabelledText(ParagraphText(p))
    ensures Relabel(p).runs == p.runs
      || forall k :: 0 <= k < |Relabel(p).runs| ==> Relabel(p).runs[k].size == Some(10) && Relabel(p).runs[k].bold == Some(true)
  {
    var text := Strip(ParagraphText(p));
    if text != "" {
      RewriteAllIsLastMatch(p, text, Labels);
      if LastMatch(text, Labels).Some? {
        LabelRunsText(LastMatch(text, Labels).value);
      }
    }
  }

  /** Each label's own text passes its own test and no later one. */
  lemma LabelIsOwnLastMatch(l: Label)
    ensures LastMatch(LabelText(l), Labels) == Some(l)
  {
    match l
    case BlockLabel => BlockFixed();
    case DeviceLabel => DeviceFixed();
    case FirstByteLabel => FirstByteFixed();
    case SecondByteLabel => SecondByteFixed();
    case DataLabel => DataFixed();
  }

  lemma BlockFixed()
    ensures LastMatch("Блок", Labels) == Some(BlockLabel)
  {
    var t := "Блок";
    ContainsAt(t, "Блок", 0);
    NotContains(t, "Устройство", 0);
    NotContains(t, "1-й", 0);
    NotContains(t, "2-й", 0);
    NotContains(t, "4-7", 0);
    LastMatchOf(t, 0);
  }

  lemma DeviceFixed()
    ensures LastMatch("Устройство", Labels) == Some(DeviceLabel)
  {
    DeviceTest("Устройство");
    DeviceFailsLaterTests("Устройство");
    DeviceIsLast("Устройство");
  }

  lemma DeviceTest(t: string)
    requires t == "Устройство"
    ensures Matches(t, DeviceLabel)
  {
    ContainsAt(t, "Устройство", 0);
  }

  lemma DeviceFailsLaterTests(t: string)
    requires t == "Устройство"
    ensures !Matches(t, FirstByteLabel) && !Matches(t, SecondByteLabel) && !Matches(t, DataLabel)
  {
    NotContains(t, "1-й", 0);
    NotContains(t, "2-й", 0);
    NotContains(t, "4-7", 0);
  }

  lemma DeviceIsLast(t: string)
    requires Matches(t, DeviceLabel)
    requires !Matches(t, FirstByteLabel) && !Matches(t, SecondByteLabel) && !Matches(t, DataLabel)
    ensures LastMatch(t, Labels) == Some(DeviceLabel)
  {
    LastMatchOf(t, 1);
  }

  lemma FirstByteFixed()
    ensures LastMatch("1-й байт", Labels) == Some(FirstByteLabel)
  {
    var t := "1-й байт";
    FirstByteTest(t);
    ByteFailsDataTest(t);
    NotContains(t, "2-й", 0);
    LastMatchOf(t, 2);
  }

  lemma FirstByteTest(t: string)
    requires t == "1-й байт"
    ensures Matches(t, FirstByteLabel)
  {
    ContainsAt(t, "1-й", 0);
    ByteWord(t);
  }

  lemma ByteWord(t: string)
    requires t == "1-й байт" || t == "2-й байт"
    ensures Contains(t, "байт")
  {
    assert t[4..8] == "байт";
    ContainsAt(t, "байт", 4);
  }

  lemma ByteFailsDataTest(t: string)
    requires t == "1-й байт" || t == "2-й байт"
    ensures !Matches(t, DataLabel)
  {
    NotContains(t, "4-7", 0);
  }

  lemma SecondByteFixed()
    ensures LastMatch("2-й байт", Labels) == Some(SecondByteLabel)
  {
    var t := "2-й байт";
    ContainsAt(t, "2-й", 0);
    ByteWord(t);
    ByteFailsDataTest(t);
    LastMatchOf(t, 3);
  }

  lemma DataFixed()
    ensures LastMatch("4-7 ?байт\n(Data)", Labels) == Some(DataLabel)
  {
    var t := "4-7 ?байт\n(Data)";
    ContainsAt(t, "4-7", 0);
    ContainsAt(t, "Data", 11);
    LastMatchOf(t, 4);
  }

  /** The last match is the label at `i` when that one passes and no later
      one does. */
  lemma LastMatchOf(text: string, i: nat)
    requires i < |Labels| && Matches(text, Labels[i])
    requires forall k :: i < k < |Labels| ==> !Matches(text, Labels[k])
    ensures LastMatch(text, Labels) == Some(Labels[i])
  {
    LastMatchAt(text, Labels, i);
  }

  lemma {:induction false} LastMatchAt(text: string, labels: seq<Label>, i: nat)
    requires i < |labels| && Matches(text, labels[i])
    requires forall k :: i < k < |labels| ==> !Matches(text, labels[k])
    ensures LastMatch(text, labels) == Some(labels[i])
    decreases |labels|
  {
    if i < |labels| - 1 {
      LastMatchAt(text, labels[..|labels| - 1], i);
    }
  }

  /** Relabelling twice is relabelling once. */
  lemma RelabelIdempotent(p: Paragraph)
    ensures Relabel(Relabel(p)) == Relabel(p)
  {
    var text := Strip(ParagraphText(p));
    if text != "" {
      RewriteAllIsLastMatch(p, text, Labels);
      var m := LastMatch(text, Labels);
      if m.Some? {
        var r := Relabel(p);
        RelabelText(p);
        LabelIsOwnLastMatch(m.value);
        StripLabel(m.value);
        RewriteAllIsLastMatch(r, LabelText(m.value), Labels);
      }
    }
  }

  lemma StripLabel(l: Label)
    ensures Strip(LabelText(l)) == LabelText(l) && LabelText(l) != ""
  {
    var t := LabelText(l);
    StripUnpadded(t);
  }
}
