/** The per-table and per-column decisions of `format_tables`
    (pdf3md/formatters/docx_formatter.py): the size class, the numeric-text
    test, the header-driven minimum widths, the weights of the columns and
    the centring decision. Lengths are EMU (914400 per inch); weights are
    exact reals. */
module TableLayout {
  import opened Wrappers
  import opened Text
  import opened Seqs

  /** `Inches(x)` for x given in hundredths of an inch: `int(x * 914400)`,
      which is exact for every constant the formatter uses. */
  function Inches(hundredths: nat): (emu: nat)
    ensures emu * 100 == hundredths * 914400
  {
    hundredths * 9144
  }

  /** The bounds of a table's column widths (EMU) and its font size (points). */
  datatype SizeClass = SizeClass(minWidth: nat, maxWidth: nat, fontPt: nat)

  /** The size class of a table with the given numbers of rows and columns:
      wide tables first, then long ones, then two-column ones. */
  function ChooseSizeClass(rows: nat, cols: nat): (c: SizeClass)
    ensures c.fontPt == 10 <==> cols >= 6 || rows >= 6
    ensures c.fontPt == 11 <==> cols < 6 && rows < 6
    ensures 0 < c.minWidth < c.maxWidth
    ensures cols >= 6 ==> c.minWidth == Inches(35) && c.maxWidth == Inches(260)
    ensures cols < 6 && rows >= 6 ==> c.minWidth == Inches(45) && c.maxWidth == Inches(300)
    ensures cols < 6 && rows < 6 && cols == 2 ==> c.minWidth == Inches(50) && c.maxWidth == Inches(320)
    ensures cols < 6 && rows < 6 && cols != 2 ==> c.minWidth == Inches(45) && c.maxWidth == Inches(300)
  {
    if cols >= 6 then SizeClass(Inches(35), Inches(260), 10)
    else if rows >= 6 then SizeClass(Inches(45), Inches(300), 10)
    else if cols == 2 then SizeClass(Inches(50), Inches(320), 11)
    else SizeClass(Inches(45), Inches(300), 11)
  }

  /** The column count decides before the row count: a table that is both
      wide and long gets the narrow bounds of a wide table. */
  lemma WideBeatsLong(rows: nat, cols: nat)
    requires cols >= 6 && rows >= 6
    ensures ChooseSizeClass(rows, cols) == ChooseSizeClass(0, cols)
    ensures ChooseSizeClass(rows, cols).minWidth < ChooseSizeClass(rows, 5).minWidth
  {
  }

  // ----- is_numeric_like -----

  /** `\d+`. */
  predicate DigitRun(s: string) {
    |s| > 0 && AllDigits(s)
  }

  /** `\d+(\.\d+)?`. */
  predicate Unsigned(s: string) {
    var parts := Split(s, '.');
    (|parts| == 1 && DigitRun(parts[0])) || (|parts| == 2 && DigitRun(parts[0]) && DigitRun(parts[1]))
  }

  /** `[+-]?\d+(\.\d+)?`. */
  predicate SignedDecimal(s: string) {
    if |s| > 0 && (s[0] == '+' || s[0] == '-') then Unsigned(s[1..]) else Unsigned(s)
  }

  /** `0x[0-9a-fA-F]+`. */
  predicate HexLiteral(s: string) {
    |s| >= 3 && s[0] == '0' && s[1] == 'x' && AllHex(s[2..])
  }

  /** `[0-9a-fA-F]{2,}`. */
  predicate HexRun(s: string) {
    |s| >= 2 && AllHex(s)
  }

  /** `is_numeric_like(text)`: the stripped text, with commas read as
      decimal points, is a signed decimal, a `0x` literal or a run of at
      least two hexadecimal digits. */
  function IsNumericLike(text: string): (r: bool)
    ensures r ==> Strip(text) != ""
    ensures r ==> forall k :: 0 <= k < |Strip(text)| ==> NumericChar(Strip(text)[k])
  {
    var value := Strip(text);
    if value == "" then false
    else
      var v := ReplaceChar(value, ',', '.');
      NumericAlphabet(v);
      SignedDecimal(v) || HexLiteral(v) || HexRun(v)
  }

  /** The characters a numeric-like text can consist of. */
  predicate NumericChar(c: char) {
    IsHexDigit(c) || c == '+' || c == '-' || c == '.' || c == ',' || c == 'x'
  }

  lemma NumericAlphabet(v: string)
    ensures SignedDecimal(v) || HexLiteral(v) || HexRun(v) ==> forall k :: 0 <= k < |v| ==> NumericChar(v[k])
  {
    if SignedDecimal(v) {
      var u := if |v| > 0 && (v[0] == '+' || v[0] == '-') then v[1..] else v;
      UnsignedAlphabet(u);
      forall k | 0 <= k < |v| ensures NumericChar(v[k]) {
        if u != v && k > 0 {
          assert v[k] == u[k - 1];
        }
      }
    } else if HexLiteral(v) {
      forall k | 0 <= k < |v| ensures NumericChar(v[k]) {
        if k >= 2 {
          assert v[k] == v[2..][k - 2];
        }
      }
    }
  }

  lemma UnsignedAlphabet(u: string)
    requires Unsigned(u)
    ensures forall k :: 0 <= k < |u| ==> IsDigit(u[k]) || u[k] == '.'
  {
    var parts := Split(u, '.');
    JoinSplit(u, '.');
    if |parts| == 2 {
      assert Join(parts, '.') == parts[0] + "." + parts[1];
      forall k | 0 <= k < |u| ensures IsDigit(u[k]) || u[k] == '.' {
        if k < |parts[0]| {
          assert u[k] == parts[0][k];
        } else if k > |parts[0]| {
          assert u[k] == parts[1][k - |parts[0]| - 1];
        }
      }
    }
  }

  /** A signed integer or decimal, with either decimal mark, is numeric-like. */
  lemma DecimalsAreNumeric(sign: string, a: string, b: string)
    requires sign == "" || sign == "+" || sign == "-"
    requires DigitRun(a) && DigitRun(b)
    ensures IsNumericLike(sign + a)
    ensures IsNumericLike(sign + (a + "." + b))
    ensures IsNumericLike(sign + a + "," + b)
  {
    NoMarks(a);
    NoMarks(b);
    UnsignedForms(a, b);
    PlainNumeric(sign, a);
    DecimalNumeric(sign, a, b);
    CommaNumeric(sign, a, b);
  }

  lemma UnsignedForms(a: string, b: string)
    requires DigitRun(a) && DigitRun(b) && '.' !in a && '.' !in b
    ensures Unsigned(a) && Unsigned(a + "." + b)
  {
    SplitNoSep(a, '.');
    SplitNoSep(b, '.');
    SplitAppend(a, '.', b);
    assert a + "." + b == a + ['.'] + b;
  }

  lemma DecimalNumeric(sign: string, a: string, b: string)
    requires sign == "" || sign == "+" || sign == "-"
    requires DigitRun(a) && DigitRun(b) && ',' !in a && ',' !in b
    requires Unsigned(a + "." + b)
    ensures IsNumericLike(sign + (a + "." + b))
  {
    DigitEnds(a, b);
    PlainNumeric(sign, a + "." + b);
  }

  lemma DigitEnds(a: string, b: string)
    requires DigitRun(a) && DigitRun(b) && ',' !in a && ',' !in b
    ensures var u := a + "." + b; ',' !in u && |u| > 0 && IsDigit(u[0]) && IsDigit(u[|u| - 1])
  {
    var u := a + "." + b;
    assert ',' !in ".";
    assert u[0] == a[0];
    assert u[|u| - 1] == b[|b| - 1];
  }

  lemma NoMarks(s: string)
    requires AllDigits(s)
    ensures '.' !in s && ',' !in s && NoSpace(s)
  {
    assert forall k :: 0 <= k < |s| ==> s[k] != '.' && s[k] != ',' && !IsSpace(s[k]);
  }

  lemma PlainNumeric(sign: string, u: string)
    requires sign == "" || sign == "+" || sign == "-"
    requires Unsigned(u) && ',' !in u && |u| > 0 && IsDigit(u[0]) && IsDigit(u[|u| - 1])
    ensures IsNumericLike(sign + u)
  {
    var s := sign + u;
    SignedEnds(sign, u);
    StripUnpadded(s);
    SignedNoComma(sign, u);
    ReplaceAbsent(s, ',', '.');
    SignedForm(sign, u);
    NumericFrom(s, s);
  }

  lemma SignedEnds(sign: string, u: string)
    requires sign == "" || sign == "+" || sign == "-"
    requires |u| > 0 && IsDigit(u[0]) && IsDigit(u[|u| - 1])
    ensures var s := sign + u; |s| > 0 && !IsSpace(s[0]) && !IsSpace(s[|s| - 1])
  {
    var s := sign + u;
    assert s[|s| - 1] == u[|u| - 1];
    assert s[0] == if sign == "" then u[0] else sign[0];
  }

  lemma SignedNoComma(sign: string, u: string)
    requires sign == "" || sign == "+" || sign == "-"
    requires ',' !in u
    ensures ',' !in sign + u
  {
    var s := sign + u;
    assert forall k :: 0 <= k < |s| ==> s[k] == (if k < |sign| then sign[k] else u[k - |sign|]);
  }

  /** An unpadded text that reads, commas as points, as a signed decimal is
      numeric-like. */
  lemma NumericFrom(s: string, v: string)
    requires s != "" && Strip(s) == s && ReplaceChar(s, ',', '.') == v && SignedDecimal(v)
    ensures IsNumericLike(s)
  {
  }

  lemma SignedForm(sign: string, u: string)
    requires sign == "" || sign == "+" || sign == "-"
    requires Unsigned(u) && |u| > 0 && IsDigit(u[0])
    ensures SignedDecimal(sign + u)
  {
    if sign == "" {
      assert sign + u == u;
    } else {
      assert (sign + u)[1..] == u;
    }
  }

  lemma CommaNumeric(sign: string, a: string, b: string)
    requires sign == "" || sign == "+" || sign == "-"
    requires DigitRun(a) && DigitRun(b) && Unsigned(a + "." + b)
    requires ',' !in a && ',' !in b
    ensures IsNumericLike(sign + a + "," + b)
  {
    var s := sign + a + "," + b;
    CommaEnds(sign, a, b);
    StripUnpadded(s);
    CommaRead(sign, a, b);
    SignedForm(sign, a + "." + b);
    NumericFrom(s, sign + (a + "." + b));
  }

  lemma CommaEnds(sign: string, a: string, b: string)
    requires sign == "" || sign == "+" || sign == "-"
    requires DigitRun(a) && DigitRun(b)
    ensures var s := sign + a + "," + b; |s| > 0 && !IsSpace(s[0]) && !IsSpace(s[|s| - 1])
  {
    var s := sign + a + "," + b;
    assert s[|s| - 1] == b[|b| - 1];
    assert s[0] == if sign == "" then a[0] else sign[0];
  }

  lemma CommaRead(sign: string, a: string, b: string)
    requires sign == "" || sign == "+" || sign == "-"
    requires ',' !in a && ',' !in b
    ensures ReplaceChar(sign + a + "," + b, ',', '.') == sign + (a + "." + b)
  {
    assert sign + a + "." + b == sign + (a + "." + b);
    var x := sign + a;
    SignedNoComma(sign, a);
    ReplaceAbsent(x, ',', '.');
    ReplaceAbsent(b, ',', '.');
    ReplaceConcat(x + ",", b, ',', '.');
    ReplaceConcat(x, ",", ',', '.');
  }

  /** "12" is numeric. */
  lemma IntegerExample()
    ensures IsNumericLike("12")
  {
    DecimalsAreNumeric("", "12", "5");
    assert "" + "12" == "12";
  }

  /** "07", with its leading zero, is numeric. */
  lemma LeadingZeroExample()
    ensures IsNumericLike("07")
  {
    DecimalsAreNumeric("", "07", "5");
    assert "" + "07" == "07";
  }

  /** "3.5" is numeric. */
  lemma DecimalExample()
    ensures IsNumericLike("3.5")
  {
    var u := "3" + "." + "5";
    assert u == "3.5";
    DecimalsAreNumeric("", "3", "5");
    assert "" + u == u;
  }

  /** Two or more hexadecimal digits are numeric, even when they spell a word. */
  lemma HexRunNumeric(s: string)
    requires HexRun(s)
    ensures IsNumericLike(s)
  {
    assert NoSpace(s) by {
      forall k | 0 <= k < |s| ensures !IsSpace(s[k]) {
        assert IsHexDigit(s[k]);
      }
    }
    assert ',' !in s by {
      forall k | 0 <= k < |s| ensures s[k] != ',' {
        assert IsHexDigit(s[k]);
      }
    }
    ReplaceAbsent(s, ',', '.');
  }

  /** A `0x` literal is numeric. */
  lemma HexLiteralNumeric(s: string)
    requires HexLiteral(s)
    ensures IsNumericLike(s)
  {
    assert NoSpace(s) by {
      forall k | 0 <= k < |s| ensures !IsSpace(s[k]) {
        if k >= 2 {
          assert s[k] == s[2..][k - 2];
        }
      }
    }
    assert ',' !in s by {
      forall k | 0 <= k < |s| ensures s[k] != ',' {
        if k >= 2 {
          assert s[k] == s[2..][k - 2];
        }
      }
    }
    ReplaceAbsent(s, ',', '.');
  }

  /** "0x1F" is numeric. */
  lemma HexLiteralExample()
    ensures IsNumericLike("0x1F")
  {
    HexLiteralNumeric("0x1F");
  }

  /** The word "Bad", made only of the letters a to f, is numeric. */
  lemma HexWordExample()
    ensures IsNumericLike("Bad")
  {
    HexRunNumeric("Bad");
  }

  /** A text with a letter outside a to f (and x) is not numeric. */
  lemma WordNotNumeric(s: string, k: nat)
    requires k < |s| && !NumericChar(s[k])
    requires !IsSpace(s[0]) && !IsSpace(s[|s| - 1])
    ensures !IsNumericLike(s)
  {
    StripUnpadded(s);
  }

  /** A single character other than a digit, a mark or whitespace is not
      numeric: one hexadecimal letter is too short a run. */
  lemma LetterNotNumeric(s: string)
    requires |s| == 1 && !IsDigit(s[0]) && !IsSpace(s[0]) && s[0] != ',' && s[0] != '.'
    ensures !IsNumericLike(s)
  {
    StripUnpadded(s);
    ReplaceAbsent(s, ',', '.');
    SplitNoSep(s, '.');
  }

  /** "Device A" is not numeric. */
  lemma WordExample()
    ensures !IsNumericLike("Device A")
  {
    WordNotNumeric("Device A", 2);
  }

  /** Neither "a" nor the empty text is numeric. */
  lemma LetterExample()
    ensures !IsNumericLike("a") && !IsNumericLike("")
  {
    LetterNotNumeric("a");
  }

  // ----- get_header_min_width -----

  /** The width, in hundredths of an inch, for a header without keywords,
      by its length without whitespace. */
  function LengthStep(cleanLen: nat): (h: nat)
    ensures h == 60 || h == 85 || h == 120 || h == 140
    ensures cleanLen <= 6 <==> h == 60
  {
    if cleanLen <= 6 then 60
    else if cleanLen <= 12 then 85
    else if cleanLen <= 20 then 120
    else 140
  }

  /** A longer header never gets a smaller width. */
  lemma LengthStepMonotone(a: nat, b: nat)
    requires a <= b
    ensures LengthStep(a) <= LengthStep(b)
  {
  }

  predicate DeviceKey(l: string) {
    Contains(l, "устрой") || Contains(l, "device")
  }

  predicate DataKey(l: string) {
    Contains(l, "4-7") && Contains(l, "data")
  }

  /** Whether some keyword of the header matches `get_header_min_width`'s
      list (checked on the lower-cased header). */
  predicate MinWidthKeyword(l: string) {
    DeviceKey(l)
    || (Contains(l, "1-й") && Contains(l, "байт"))
    || (Contains(l, "2-й") && Contains(l, "байт"))
    || Contains(l, "блок")
    || DataKey(l)
  }

  /** `get_header_min_width(header)` in hundredths of an inch. */
  function HeaderMinWidth(header: string): (r: Option<nat>)
    ensures r.None? <==> header == ""
    ensures r.Some? ==> 60 <= r.value <= 140
    ensures header != "" && !MinWidthKeyword(Lower(header)) ==> r == Some(LengthStep(|RemoveSpace(header)|))
    ensures DeviceKey(Lower(header)) ==> r == Some(120)
  {
    if header == "" then None
    else
      var l := Lower(header);
      if DeviceKey(l) then Some(120)
      else if Contains(l, "1-й") && Contains(l, "байт") then Some(70)
      else if Contains(l, "2-й") && Contains(l, "байт") then Some(70)
      else if Contains(l, "блок") then Some(70)
      else if DataKey(l) then Some(95)
      else Some(LengthStep(|RemoveSpace(header)|))
  }

  /** Without keywords, whitespace makes no difference to the width, and a
      header with more non-space characters never gets a smaller one. */
  lemma HeaderMinWidthIgnoresSpace(a: string, b: string)
    requires a != "" && b != ""
    requires !MinWidthKeyword(Lower(a)) && !MinWidthKeyword(Lower(b))
    ensures RemoveSpace(a) == RemoveSpace(b) ==> HeaderMinWidth(a) == HeaderMinWidth(b)
    ensures |RemoveSpace(a)| <= |RemoveSpace(b)| ==> HeaderMinWidth(a).value <= HeaderMinWidth(b).value
  {
    if |RemoveSpace(a)| <= |RemoveSpace(b)| {
      LengthStepMonotone(|RemoveSpace(a)|, |RemoveSpace(b)|);
    }
  }

  // ----- the keyword chain of adjust_table_column_widths -----

  /** The branch of the keyword chain a header takes. */
  datatype Keyword = DataColumn | RemarkColumn | DeviceColumn | CodeColumn | BlockColumn | PlainColumn

  const RemarkKeys: seq<string> := ["примеч", "назнач", "description", "comment"]
  const DeviceKeys: seq<string> := ["устрой", "device"]
  const CodeKeys: seq<string> := ["байт", "byte", "cmd", "code", "op", "id", "№"]

  /** `any(key in text for key in keys)`. */
  predicate AnyKey(text: string, keys: seq<string>) {
    exists k :: 0 <= k < |keys| && Contains(text, keys[k])
  }

  /** The first branch of the chain whose test the lower-cased header passes. */
  function Classify(header: string): (k: Keyword)
    ensures var l := Lower(header);
      && (k == DataColumn <==> DataKey(l))
      && (k == RemarkColumn <==> !DataKey(l) && AnyKey(l, RemarkKeys))
      && (k == DeviceColumn <==> !DataKey(l) && !AnyKey(l, RemarkKeys) && AnyKey(l, DeviceKeys))
      && (k == CodeColumn <==> !DataKey(l) && !AnyKey(l, RemarkKeys) && !AnyKey(l, DeviceKeys) && AnyKey(l, CodeKeys))
      && (k == BlockColumn <==> !DataKey(l) && !AnyKey(l, RemarkKeys) && !AnyKey(l, DeviceKeys) && !AnyKey(l, CodeKeys) && Contains(l, "блок"))
  {
    var l := Lower(header);
    if DataKey(l) then DataColumn
    else if AnyKey(l, RemarkKeys) then RemarkColumn
    else if AnyKey(l, DeviceKeys) then DeviceColumn
    else if AnyKey(l, CodeKeys) then CodeColumn
    else if Contains(l, "блок") then BlockColumn
    else PlainColumn
  }

  /** The factor each branch applies to the weight. */
  function Multiplier(k: Keyword): (m: real)
    ensures 0.6 <= m <= 1.6
    ensures m < 1.0 <==> k == CodeColumn
    ensures m == 1.0 <==> k == PlainColumn
  {
    match k
    case DataColumn => 1.2
    case RemarkColumn => 1.6
    case DeviceColumn => 1.2
    case CodeColumn => 0.6
    case BlockColumn => 1.6
    case PlainColumn => 1.0
  }

  /** The minimum width (hundredths of an inch) a branch imposes outright. */
  function OverrideMin(k: Keyword): (r: Option<nat>)
    ensures r.Some? <==> k == DataColumn || k == BlockColumn
    ensures r.Some? ==> 90 <= r.value <= 95
  {
    match k
    case DataColumn => Some(95)
    case BlockColumn => Some(90)
    case _ => None
  }

  /** The first match wins: an identifier column that mentions a device is
      a device column. */
  lemma DeviceIdIsDevice()
    ensures Classify("Device ID") == DeviceColumn
  {
    var l := Lower("Device ID");
    assert l == "device id" by {
      LowerAscii("Device ID");
    }
    ContainsAt(l, "device", 0);
    NoKeyBeforeDevice(l);
    assert DeviceKeys[1] == "device";
  }

  /** A column named "Option" is taken for a code column, because "op"
      matches inside the word. */
  lemma OptionIsCode()
    ensures Classify("Option") == CodeColumn
  {
    var o := Lower("Option");
    assert o == "option" by {
      LowerAscii("Option");
    }
    ContainsAt(o, "op", 0);
    NoKeyBeforeCode(o);
    assert CodeKeys[4] == "op";
  }

  /** So is a column named "Valid", because "id" matches inside the word. */
  lemma ValidIsCode()
    ensures Classify("Valid") == CodeColumn
  {
    var v := Lower("Valid");
    assert v == "valid" by {
      LowerAscii("Valid");
    }
    IdInValid(v);
    NoKeyBeforeCode(v);
    assert CodeKeys[5] == "id";
  }

  lemma IdInValid(v: string)
    requires v == "valid"
    ensures Contains(v, "id")
  {
    assert v[3..5] == "id";
    ContainsAt(v, "id", 3);
  }

  /** Lower-casing ASCII text moves only the capitals. */
  lemma LowerAscii(s: string)
    requires forall k :: 0 <= k < |s| ==> s[k] < '\U{80}'
    ensures forall k :: 0 <= k < |s| ==> Lower(s)[k] == (if 'A' <= s[k] <= 'Z' then (s[k] as int + 32) as char else s[k])
  {
  }

  lemma NoKeyBeforeDevice(l: string)
    requires '4' !in l && 'ч' !in l && 'p' !in l && 'o' !in l
    ensures !DataKey(l) && !AnyKey(l, RemarkKeys)
  {
    NotContains(l, "4-7", 0);
    NotContains(l, "примеч", 5);
    NotContains(l, "назнач", 5);
    NotContains(l, "description", 6);
    NotContains(l, "comment", 1);
    assert !AnyKey(l, RemarkKeys);
  }

  lemma NoKeyBeforeCode(l: string)
    requires '4' !in l && 'e' !in l && 'ч' !in l && 'у' !in l
    ensures !DataKey(l) && !AnyKey(l, RemarkKeys) && !AnyKey(l, DeviceKeys)
  {
    NotContains(l, "4-7", 0);
    NotContains(l, "примеч", 5);
    NotContains(l, "назнач", 5);
    NotContains(l, "description", 1);
    NotContains(l, "comment", 4);
    NotContains(l, "устрой", 0);
    NotContains(l, "device", 1);
    assert !AnyKey(l, RemarkKeys);
    assert !AnyKey(l, DeviceKeys);
  }

  // ----- weights -----

  /** The non-empty texts of a column, in order. */
  function NonEmpty(texts: seq<string>): (r: seq<string>)
    ensures forall k :: 0 <= k < |r| ==> r[k] != ""
    ensures |r| <= |texts|
  {
    Filter(texts, (t: string) => t != "")
  }

  /** How many texts are numeric-like. */
  function CountNumeric(texts: seq<string>): (n: nat)
    ensures n <= |texts|
  {
    if |texts| == 0 then 0
    else CountNumeric(texts[..|texts| - 1]) + (if IsNumericLike(texts[|texts| - 1]) then 1 else 0)
  }

  /** `numeric_like / len(texts) >= 0.7` over the non-empty texts. */
  predicate MostlyNumeric(texts: seq<string>) {
    var ne := NonEmpty(texts);
    |ne| > 0 && 10 * CountNumeric(ne) >= 7 * |ne|
  }

  /** The longest text length, at least `floor`. */
  function MaxLen(texts: seq<string>, floor: nat): (m: nat)
    ensures m >= floor
    ensures forall k :: 0 <= k < |texts| ==> |texts[k]| <= m
    ensures m == floor || exists k :: 0 <= k < |texts| && |texts[k]| == m
  {
    if |texts| == 0 then floor
    else
      var rest := MaxLen(texts[..|texts| - 1], floor);
      var last := |texts[|texts| - 1]|;
      if last > rest then last else rest
  }

  /** The base weight of a column: its longest text, at least 1, at most 120. */
  function BaseWeight(texts: seq<string>): (b: nat)
    ensures 1 <= b <= 120
    ensures forall k :: 0 <= k < |texts| ==> |texts[k]| <= b || b == 120
    ensures b == 1 || b == 120 || exists k :: 0 <= k < |texts| && |texts[k]| == b
  {
    var m := MaxLen(texts, 1);
    if m < 120 then m else 120
  }

  /** The weight of a column: the base scaled by its keyword branch and by
      0.6 for a mostly numeric column, never below 1. */
  function Weight(texts: seq<string>, header: string): (w: real)
    ensures 1.0 <= w <= 192.0
  {
    WeightOf(BaseWeight(texts), MostlyNumeric(texts), Classify(header))
  }

  /** The weight of a column with base weight `base`, numeric or not, whose
      header takes the branch `k`. */
  function WeightOf(base: nat, numeric: bool, k: Keyword): (w: real)
    requires base <= 120
    ensures 1.0 <= w <= 192.0
  {
    ProductBound(base as real, Multiplier(k));
    Discounted(base as real * Multiplier(k), numeric)
  }

  /** The keyword-scaled weight `bm`, times 0.6 for a mostly numeric
      column, never below 1. */
  function Discounted(bm: real, numeric: bool): (w: real)
    ensures w >= 1.0
    ensures 0.0 <= bm <= 192.0 ==> w <= 192.0
  {
    var scaled := if numeric then bm * 0.6 else bm;
    if scaled < 1.0 then 1.0 else scaled
  }

  lemma ProductBound(base: real, m: real)
    requires 0.0 <= base <= 120.0 && 0.0 <= m <= 1.6
    ensures 0.0 <= base * m <= 192.0
  {
    ScaleLe(base, 120.0, m);
    assert 120.0 * m <= 192.0;
  }

  lemma ScaleLe(a: real, b: real, k: real)
    requires 0.0 <= a <= b && k >= 0.0
    ensures 0.0 <= a * k <= b * k
  {
  }

  /** The numeric discount: a mostly numeric column weighs no more than a
      textual one with the same base weight and header, and exactly 0.6 of
      it unless the floor of 1 applies. */
  lemma NumericDiscount(num: seq<string>, txt: seq<string>, header: string)
    requires BaseWeight(num) == BaseWeight(txt) && MostlyNumeric(num) && !MostlyNumeric(txt)
    ensures Weight(num, header) <= Weight(txt, header)
    ensures Weight(num, header) > 1.0 ==> Weight(num, header) == 0.6 * Weight(txt, header)
  {
    NumericDiscountOf(BaseWeight(txt), Classify(header));
  }

  lemma NumericDiscountOf(base: nat, k: Keyword)
    requires base <= 120
    ensures WeightOf(base, true, k) <= WeightOf(base, false, k)
    ensures WeightOf(base, true, k) > 1.0 ==> WeightOf(base, true, k) == 0.6 * WeightOf(base, false, k)
  {
    ProductBound(base as real, Multiplier(k));
    DiscountedPair(base as real * Multiplier(k));
  }

  lemma DiscountedPair(bm: real)
    requires bm >= 0.0
    ensures Discounted(bm, true) <= Discounted(bm, false)
    ensures Discounted(bm, true) > 1.0 ==> Discounted(bm, true) == 0.6 * Discounted(bm, false)
  {
  }

  /** A plain, mostly textual column weighs exactly its base. */
  lemma PlainWeight(texts: seq<string>, header: string)
    requires Classify(header) == PlainColumn && !MostlyNumeric(texts)
    ensures Weight(texts, header) == BaseWeight(texts) as real
  {
    var b := BaseWeight(texts) as real;
    assert Multiplier(PlainColumn) == 1.0;
    assert WeightOf(BaseWeight(texts), false, PlainColumn) == Discounted(b * 1.0, false);
  }

  /** The minimum width of a column: the table's minimum raised to the
      header's, then replaced outright for data and block columns. */
  function ColumnMin(tableMin: nat, header: string): (m: nat)
    ensures OverrideMin(Classify(header)).None? ==> m >= tableMin
    ensures OverrideMin(Classify(header)).Some? ==> m == Inches(OverrideMin(Classify(header)).value)
    ensures HeaderMinWidth(header).Some? && OverrideMin(Classify(header)).None? ==> m >= Inches(HeaderMinWidth(header).value)
  {
    var raised := match HeaderMinWidth(header)
      case None => tableMin
      case Some(h) => if Inches(h) > tableMin then Inches(h) else tableMin;
    match OverrideMin(Classify(header))
    case None => raised
    case Some(h) => Inches(h)
  }

  // ----- align_table_columns -----

  /** The total length of some texts. */
  function TotalLen(texts: seq<string>): nat
  {
    if |texts| == 0 then 0 else TotalLen(texts[..|texts| - 1]) + |texts[|texts| - 1]|
  }

  /** Whether a column with these cell texts is centred: it has text, and
      it is mostly numeric or its texts average at most four characters. */
  function ShouldCenter(texts: seq<string>): (r: bool)
    ensures r ==> |NonEmpty(texts)| > 0
    ensures MostlyNumeric(texts) ==> r
  {
    var ne := NonEmpty(texts);
    |ne| > 0 && (10 * CountNumeric(ne) >= 7 * |ne| || TotalLen(ne) <= 4 * |ne|)
  }

  /** A column of short texts is centred whatever they say. */
  lemma ShortColumnCentred(texts: seq<string>)
    requires |NonEmpty(texts)| > 0
    requires forall k :: 0 <= k < |texts| ==> |texts[k]| <= 4
    ensures ShouldCenter(texts)
  {
    var ne := NonEmpty(texts);
    TotalLenBound(ne, 4);
  }

  lemma {:induction false} TotalLenBound(texts: seq<string>, bound: nat)
    requires forall k :: 0 <= k < |texts| ==> |texts[k]| <= bound
    ensures TotalLen(texts) <= bound * |texts|
    decreases |texts|
  {
    if |texts| > 0 {
      TotalLenBound(texts[..|texts| - 1], bound);
    }
  }
}
