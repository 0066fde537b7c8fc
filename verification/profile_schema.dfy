/** The formatting-profile schema: the canonical default profile, the
    validator (strict and lenient), the deep merge with the defaults and the
    template constructor (pdf3md/formatters/profile_schema.py). */
module ProfileSchema {
  import opened Wrappers
  import opened Text
  import opened JsonValue

  // ---------------------------------------------------------------------------
  // The default profile
  // ---------------------------------------------------------------------------

  function Font(name: string, size: int): Json {
    JObj(map["name" := JStr(name), "size" := JInt(size)])
  }

  function BoldFont(name: string, size: int, bold: bool): Json {
    JObj(map["name" := JStr(name), "size" := JInt(size), "bold" := JBool(bold)])
  }

  const DefaultPage: map<string, Json> := map[
    "width" := JReal(8.5),
    "height" := JReal(11.0),
    "top_margin" := JReal(0.3),
    "bottom_margin" := JReal(0.3),
    "left_margin" := JReal(0.79),
    "right_margin" := JReal(0.33),
    "header_distance" := JReal(0.0),
    "footer_distance" := JReal(0.2)
  ]

  const DefaultFonts: map<string, Json> := map[
    "body" := Font("Calibri", 11),
    "heading1" := BoldFont("Calibri", 14, true),
    "heading2" := BoldFont("Calibri", 12, true),
    "heading3" := BoldFont("Calibri", 11, true),
    "heading4" := BoldFont("Calibri", 10, true),
    "heading5" := BoldFont("Calibri", 9, true),
    "heading6" := BoldFont("Calibri", 9, true),
    "table_header" := BoldFont("Calibri", 10, true),
    "table_body" := BoldFont("Calibri", 10, false)
  ]

  const DefaultHeadings: map<string, Json> := map[
    "h1_size" := JInt(14),
    "h2_size" := JInt(12),
    "h3_size" := JInt(11),
    "h4_size" := JInt(10),
    "h5_size" := JInt(9),
    "h6_size" := JInt(9),
    "bold" := JBool(true)
  ]

  const DefaultTables: map<string, Json> := map[
    "border_style" := JStr("single"),
    "border_width" := JInt(8),
    "border_color" := JStr("000000"),
    "header_bold" := JBool(true),
    "header_center" := JBool(true),
    "auto_width" := JBool(true),
    "min_col_width" := JReal(0.35),
    "max_col_width" := JReal(3.0)
  ]

  const DefaultPageNumbers: map<string, Json> := map[
    "enabled" := JBool(true),
    "position" := JStr("footer_right"),
    "format" := JStr("PAGE")
  ]

  const DefaultParagraph: map<string, Json> := map[
    "line_spacing" := JReal(1.0),
    "space_before" := JInt(0),
    "space_after" := JInt(0)
  ]

  /** `DEFAULT_PROFILE`. */
  const DefaultFields: map<string, Json> := map[
    "name" := JStr("Default"),
    "description" := JStr("Standard formatting profile with current settings"),
    "version" := JStr("1.0"),
    "page" := JObj(DefaultPage),
    "fonts" := JObj(DefaultFonts),
    "headings" := JObj(DefaultHeadings),
    "tables" := JObj(DefaultTables),
    "page_numbers" := JObj(DefaultPageNumbers),
    "paragraph" := JObj(DefaultParagraph)
  ]

  const Default: Json := JObj(DefaultFields)

  // ---------------------------------------------------------------------------
  // Field lists and value rules
  // ---------------------------------------------------------------------------

  const RequiredFields: seq<string> := ["name", "version", "page", "fonts", "headings", "tables"]
  const PageFields: seq<string> := ["width", "height", "top_margin", "bottom_margin", "left_margin", "right_margin"]
  const FontKeys: seq<string> := [
    "body", "heading1", "heading2", "heading3", "heading4", "heading5", "heading6",
    "table_header", "table_body"
  ]
  const HeadingFields: seq<string> := ["h1_size", "h2_size", "h3_size", "h4_size", "h5_size", "h6_size"]
  const Positions: seq<string> := ["footer_left", "footer_center", "footer_right"]
  const Formats: seq<string> := ["PAGE", "PAGE_OF_PAGES", "custom"]

  /** The verdict of `validate_profile`: `(True, None)`, `(False, error)`, or
      an exception escaping it (a `KeyError` or `TypeError`). */
  datatype Validation = Valid | Invalid(error: string) | Raised

  /** Why a check ends validation early. */
  datatype Stop = Reject(error: string) | Crash

  /** The value tests the validator applies. */
  datatype Rule =
    | NonNegNumber     // a non-bool number >= 0
    | PosNumber        // a non-bool number > 0
    | NonNegInt        // isinstance(v, int) and v >= 0, which admits booleans
    | IsBool
    | IsString
    | OneOf(choices: seq<string>)

  predicate Satisfies(v: Json, rule: Rule) {
    match rule
    case NonNegNumber => IsNumber(v) && Num(v) >= 0.0
    case PosNumber => IsNumber(v) && Num(v) > 0.0
    case NonNegInt => v.JBool? || (v.JInt? && v.i >= 0)
    case IsBool => v.JBool?
    case IsString => v.JStr?
    case OneOf(cs) => v.JStr? && v.s in cs
  }

  // ---------------------------------------------------------------------------
  // The validator. Each check answers None to let validation go on, or the
  // verdict that ends it.
  // ---------------------------------------------------------------------------

  function Then(first: Option<Stop>, next: Option<Stop>): Option<Stop> {
    if first.Some? then first else next
  }

  /** A nested section, `profile_data.get(key, {})`. */
  function Group(p: Json, key: string): Json {
    if p.JObj? && key in p.fields then p.fields[key] else JObj(map[])
  }

  /** The loop over the required top-level fields. */
  function CheckRequired(p: Json, fields: seq<string>, strict: bool): Option<Stop>
    decreases |fields|
  {
    if |fields| == 0 then None
    else
      match Has(p, fields[0])
      case NotIterable => Some(Crash)
      case Absent =>
        if strict then Some(Reject("Missing required field: " + fields[0]))
        else CheckRequired(p, fields[1..], strict)
      case Present => CheckRequired(p, fields[1..], strict)
  }

  /** `profile_data["name"]` must be a str that is not blank. */
  function CheckName(p: Json): Option<Stop> {
    match Index(p, "name")
    case None => Some(Crash)
    case Some(n) =>
      if n.JStr? && Strip(n.s) != "" then None
      else Some(Reject("Profile name must be a non-empty string"))
  }

  /** A loop over required keys of one section, each checked by `rule`. */
  function CheckFields(group: Json, fields: seq<string>, strict: bool, rule: Rule,
                       missingPrefix: string, badPrefix: string, badSuffix: string): Option<Stop>
    decreases |fields|
  {
    if |fields| == 0 then None
    else
      var f := fields[0];
      match Has(group, f)
      case NotIterable => Some(Crash)
      case Absent =>
        if strict then Some(Reject(missingPrefix + f))
        else CheckFields(group, fields[1..], strict, rule, missingPrefix, badPrefix, badSuffix)
      case Present =>
        match Index(group, f)
        case None => Some(Crash)
        case Some(v) =>
          if Satisfies(v, rule) then CheckFields(group, fields[1..], strict, rule, missingPrefix, badPrefix, badSuffix)
          else Some(Reject(badPrefix + f + badSuffix))
  }

  /** One font entry: it needs `name` and `size`, and `size` must be positive. */
  function CheckFont(key: string, font: Json): Option<Stop> {
    match Has(font, "name")
    case NotIterable => Some(Crash)
    case Absent => Some(Reject("Font '" + key + "' missing 'name' or 'size'"))
    case Present =>
      match Has(font, "size")
      case NotIterable => Some(Crash)
      case Absent => Some(Reject("Font '" + key + "' missing 'name' or 'size'"))
      case Present =>
        match Index(font, "size")
        case None => Some(Crash)
        case Some(sz) =>
          if Satisfies(sz, PosNumber) then None
          else Some(Reject("Font '" + key + "' size must be positive"))
  }

  /** The loop over the nine font roles. */
  function CheckFonts(fonts: Json, keys: seq<string>, strict: bool): Option<Stop>
    decreases |keys|
  {
    if |keys| == 0 then None
    else
      var k := keys[0];
      match Has(fonts, k)
      case NotIterable => Some(Crash)
      case Absent =>
        if strict then Some(Reject("Missing required font: " + k))
        else CheckFonts(fonts, keys[1..], strict)
      case Present =>
        match Index(fonts, k)
        case None => Some(Crash)
        case Some(font) => Then(CheckFont(k, font), CheckFonts(fonts, keys[1..], strict))
  }

  /** An optional key, checked only when present. */
  function CheckOptional(group: Json, key: string, rule: Rule, error: string): Option<Stop> {
    match Has(group, key)
    case NotIterable => Some(Crash)
    case Absent => None
    case Present =>
      match Index(group, key)
      case None => Some(Crash)
      case Some(v) => if Satisfies(v, rule) then None else Some(Reject(error))
  }

  function CheckTables(t: Json): Option<Stop> {
    Then(CheckOptional(t, "border_width", NonNegInt, "tables.border_width must be a non-negative integer"),
    Then(CheckOptional(t, "min_col_width", PosNumber, "tables.min_col_width must be positive"),
    Then(CheckOptional(t, "max_col_width", PosNumber, "tables.max_col_width must be positive"),
         CheckOptional(t, "auto_width", IsBool, "tables.auto_width must be boolean"))))
  }

  function CheckParagraph(para: Json): Option<Stop> {
    Then(CheckOptional(para, "line_spacing", PosNumber, "paragraph.line_spacing must be positive"),
    Then(CheckOptional(para, "space_before", NonNegNumber, "paragraph.space_before must be non-negative"),
         CheckOptional(para, "space_after", NonNegNumber, "paragraph.space_after must be non-negative")))
  }

  function CheckPageNumbers(pn: Json): Option<Stop> {
    Then(CheckOptional(pn, "enabled", IsBool, "page_numbers.enabled must be boolean"),
    Then(CheckOptional(pn, "position", OneOf(Positions), "page_numbers.position is invalid"),
    Then(CheckOptional(pn, "format", OneOf(Formats), "page_numbers.format is invalid"),
         CheckOptional(pn, "custom_text", IsString, "page_numbers.custom_text must be string"))))
  }

  function CheckSections(p: Json, strict: bool): Option<Stop> {
    Then(CheckFields(Group(p, "page"), PageFields, strict, NonNegNumber,
                     "Missing required page field: ", "Invalid page.", ": must be a positive number"),
    Then(CheckFonts(Group(p, "fonts"), FontKeys, strict),
    Then(CheckFields(Group(p, "headings"), HeadingFields, strict, PosNumber,
                     "Missing required heading field: ", "Invalid headings.", ": must be positive"),
    Then(CheckTables(Group(p, "tables")),
    Then(CheckParagraph(Group(p, "paragraph")),
         CheckPageNumbers(Group(p, "page_numbers")))))))
  }

  /** `validate_profile(profile_data, strict)`. A profile it accepts is a
      dict whose name is a non-blank string. */
  function Validate(p: Json, strict: bool): Validation {
    match Then(CheckRequired(p, RequiredFields, strict), Then(CheckName(p), CheckSections(p, strict)))
    case None => Valid
    case Some(Reject(e)) => Invalid(e)
    case Some(Crash) => Raised
  }

  lemma ValidIffNoStop(p: Json, strict: bool)
    ensures Validate(p, strict) == Valid <==>
      CheckRequired(p, RequiredFields, strict) == None && CheckName(p) == None && CheckSections(p, strict) == None
  {
  }

  /** A profile either mode accepts is a dict whose name is a non-blank str. */
  lemma ValidHasName(p: Json, strict: bool)
    requires Validate(p, strict) == Valid
    ensures p.JObj? && "name" in p.fields && p.fields["name"].JStr?
    ensures Strip(p.fields["name"].s) != ""
  {
    assert CheckName(p) == None;
  }

  // ---------------------------------------------------------------------------
  // A declarative description of the profiles strict validation accepts
  // ---------------------------------------------------------------------------

  /** `key` of a section, if present, satisfies `rule`: a dict holding the key
      with a good value or not holding it; a str or list that does not
      contain the key. */
  predicate OptionalOk(group: Json, key: string, rule: Rule) {
    match group
    case JObj(fs) => key in fs ==> Satisfies(fs[key], rule)
    case JStr(s) => !Contains(s, key)
    case JArr(xs) => JStr(key) !in xs
    case _ => false
  }

  /** A section that is a dict holding every one of `fields`, each satisfying `rule`. */
  predicate AllFieldsOk(group: Json, fields: seq<string>, rule: Rule) {
    group.JObj? && forall k :: 0 <= k < |fields| ==> fields[k] in group.fields && Satisfies(group.fields[fields[k]], rule)
  }

  predicate FontOk(font: Json) {
    font.JObj? && "name" in font.fields && "size" in font.fields && Satisfies(font.fields["size"], PosNumber)
  }

  predicate AllFontsOk(fonts: Json, keys: seq<string>) {
    fonts.JObj? && forall k :: 0 <= k < |keys| ==> keys[k] in fonts.fields && FontOk(fonts.fields[keys[k]])
  }

  predicate TablesOk(t: Json) {
    OptionalOk(t, "border_width", NonNegInt) && OptionalOk(t, "min_col_width", PosNumber)
    && OptionalOk(t, "max_col_width", PosNumber) && OptionalOk(t, "auto_width", IsBool)
  }

  predicate ParagraphOk(para: Json) {
    OptionalOk(para, "line_spacing", PosNumber) && OptionalOk(para, "space_before", NonNegNumber)
    && OptionalOk(para, "space_after", NonNegNumber)
  }

  predicate PageNumbersOk(pn: Json) {
    OptionalOk(pn, "enabled", IsBool) && OptionalOk(pn, "position", OneOf(Positions))
    && OptionalOk(pn, "format", OneOf(Formats)) && OptionalOk(pn, "custom_text", IsString)
  }

  /** Everything strict validation demands of a profile. */
  predicate Conforms(p: Json) {
    && p.JObj?
    && "name" in p.fields && "version" in p.fields && "page" in p.fields
    && "fonts" in p.fields && "headings" in p.fields && "tables" in p.fields
    && p.fields["name"].JStr? && Strip(p.fields["name"].s) != ""
    && SectionsConform(p)
  }

  /** The sections of a dict profile that holds the required fields. */
  predicate SectionsConform(p: Json)
    requires p.JObj? && "page" in p.fields && "fonts" in p.fields && "headings" in p.fields && "tables" in p.fields
  {
    && AllFieldsOk(p.fields["page"], PageFields, NonNegNumber)
    && AllFontsOk(p.fields["fonts"], FontKeys)
    && AllFieldsOk(p.fields["headings"], HeadingFields, PosNumber)
    && TablesOk(p.fields["tables"])
    && ParagraphOk(Group(p, "paragraph"))
    && PageNumbersOk(Group(p, "page_numbers"))
  }

  lemma {:induction false} CheckRequiredStrict(p: Json, fields: seq<string>)
    requires p.JObj?
    ensures CheckRequired(p, fields, true) == None
        <==> forall k :: 0 <= k < |fields| ==> fields[k] in p.fields
    decreases |fields|
  {
    if |fields| > 0 {
      CheckRequiredStrict(p, fields[1..]);
      if fields[0] in p.fields {
        assert forall k :: 1 <= k < |fields| ==> fields[k] == fields[1..][k - 1];
      }
    }
  }

  lemma {:induction false} CheckFieldsStrict(group: Json, fields: seq<string>, rule: Rule, a: string, b: string, c: string)
    requires |fields| > 0
    ensures CheckFields(group, fields, true, rule, a, b, c) == None <==> AllFieldsOk(group, fields, rule)
    decreases |fields|
  {
    if |fields| > 1 {
      CheckFieldsStrict(group, fields[1..], rule, a, b, c);
      assert forall k :: 1 <= k < |fields| ==> fields[k] == fields[1..][k - 1];
    }
  }

  lemma CheckFontStrict(key: string, font: Json)
    ensures CheckFont(key, font) == None <==> FontOk(font)
  {
  }

  lemma {:induction false} CheckFontsStrict(fonts: Json, keys: seq<string>)
    requires |keys| > 0
    ensures CheckFonts(fonts, keys, true) == None <==> AllFontsOk(fonts, keys)
    decreases |keys|
  {
    if fonts.JObj? && keys[0] in fonts.fields {
      CheckFontStrict(keys[0], fonts.fields[keys[0]]);
    }
    if |keys| > 1 {
      CheckFontsStrict(fonts, keys[1..]);
      assert forall k :: 1 <= k < |keys| ==> keys[k] == keys[1..][k - 1];
    }
  }

  lemma CheckOptionalIff(group: Json, key: string, rule: Rule, error: string)
    ensures CheckOptional(group, key, rule, error) == None <==> OptionalOk(group, key, rule)
  {
  }

  lemma TablesIff(t: Json)
    ensures CheckTables(t) == None <==> TablesOk(t)
  {
    CheckOptionalIff(t, "border_width", NonNegInt, "tables.border_width must be a non-negative integer");
    CheckOptionalIff(t, "min_col_width", PosNumber, "tables.min_col_width must be positive");
    CheckOptionalIff(t, "max_col_width", PosNumber, "tables.max_col_width must be positive");
    CheckOptionalIff(t, "auto_width", IsBool, "tables.auto_width must be boolean");
  }

  lemma ParagraphIff(para: Json)
    ensures CheckParagraph(para) == None <==> ParagraphOk(para)
  {
    CheckOptionalIff(para, "line_spacing", PosNumber, "paragraph.line_spacing must be positive");
    CheckOptionalIff(para, "space_before", NonNegNumber, "paragraph.space_before must be non-negative");
    CheckOptionalIff(para, "space_after", NonNegNumber, "paragraph.space_after must be non-negative");
  }

  lemma PageNumbersIff(pn: Json)
    ensures CheckPageNumbers(pn) == None <==> PageNumbersOk(pn)
  {
    CheckOptionalIff(pn, "enabled", IsBool, "page_numbers.enabled must be boolean");
    CheckOptionalIff(pn, "position", OneOf(Positions), "page_numbers.position is invalid");
    CheckOptionalIff(pn, "format", OneOf(Formats), "page_numbers.format is invalid");
    CheckOptionalIff(pn, "custom_text", IsString, "page_numbers.custom_text must be string");
  }

  /** With the required fields present, the section checks pass exactly when
      the sections conform. */
  lemma SectionsIff(p: Json)
    requires p.JObj? && "page" in p.fields && "fonts" in p.fields && "headings" in p.fields && "tables" in p.fields
    ensures CheckSections(p, true) == None <==> SectionsConform(p)
  {
    CheckFieldsStrict(Group(p, "page"), PageFields, NonNegNumber,
                      "Missing required page field: ", "Invalid page.", ": must be a positive number");
    CheckFontsStrict(Group(p, "fonts"), FontKeys);
    CheckFieldsStrict(Group(p, "headings"), HeadingFields, PosNumber,
                      "Missing required heading field: ", "Invalid headings.", ": must be positive");
    TablesIff(Group(p, "tables"));
    ParagraphIff(Group(p, "paragraph"));
    PageNumbersIff(Group(p, "page_numbers"));
  }

  /** Strict validation accepts exactly the profiles that conform. */
  lemma ValidateStrictIffConforms(p: Json)
    ensures Validate(p, true) == Valid <==> Conforms(p)
  {
    ValidIffNoStop(p, true);
    if p.JObj? {
      CheckRequiredStrict(p, RequiredFields);
      var req := forall k :: 0 <= k < |RequiredFields| ==> RequiredFields[k] in p.fields;
      var present := "name" in p.fields && "version" in p.fields && "page" in p.fields
        && "fonts" in p.fields && "headings" in p.fields && "tables" in p.fields;
      assert req <==> present;
      if present {
        SectionsIff(p);
      }
    }
  }

  /** A profile strict validation accepts is accepted in lenient mode too. */
  lemma {:induction false} StrictImpliesLenient(p: Json)
    requires Validate(p, true) == Valid
    ensures Validate(p, false) == Valid
  {
    ValidIffNoStop(p, true);
    ValidIffNoStop(p, false);
    LenientRequired(p, RequiredFields);
    LenientFields(Group(p, "page"), PageFields, NonNegNumber,
                  "Missing required page field: ", "Invalid page.", ": must be a positive number");
    LenientFonts(Group(p, "fonts"), FontKeys);
    LenientFields(Group(p, "headings"), HeadingFields, PosNumber,
                  "Missing required heading field: ", "Invalid headings.", ": must be positive");
  }

  lemma {:induction false} LenientRequired(p: Json, fields: seq<string>)
    requires CheckRequired(p, fields, true) == None
    ensures CheckRequired(p, fields, false) == None
    decreases |fields|
  {
    if |fields| > 0 {
      LenientRequired(p, fields[1..]);
    }
  }

  lemma {:induction false} LenientFields(group: Json, fields: seq<string>, rule: Rule, a: string, b: string, c: string)
    requires CheckFields(group, fields, true, rule, a, b, c) == None
    ensures CheckFields(group, fields, false, rule, a, b, c) == None
    decreases |fields|
  {
    if |fields| > 0 {
      LenientFields(group, fields[1..], rule, a, b, c);
    }
  }

  lemma {:induction false} LenientFonts(fonts: Json, keys: seq<string>)
    requires CheckFonts(fonts, keys, true) == None
    ensures CheckFonts(fonts, keys, false) == None
    decreases |keys|
  {
    if |keys| > 0 {
      LenientFonts(fonts, keys[1..]);
    }
  }

  /** In strict mode the first required top-level field that is absent is
      the one reported. */
  lemma {:induction false} StrictReportsFirstMissing(p: Json, i: nat)
    requires p.JObj? && i < |RequiredFields|
    requires forall j :: 0 <= j < i ==> RequiredFields[j] in p.fields
    requires RequiredFields[i] !in p.fields
    ensures Validate(p, true) == Invalid("Missing required field: " + RequiredFields[i])
  {
    FirstMissing(p, RequiredFields, i);
  }

  lemma {:induction false} FirstMissing(p: Json, fields: seq<string>, i: nat)
    requires p.JObj? && i < |fields|
    requires forall j :: 0 <= j < i ==> fields[j] in p.fields
    requires fields[i] !in p.fields
    ensures CheckRequired(p, fields, true) == Some(Reject("Missing required field: " + fields[i]))
    decreases i
  {
    if i > 0 {
      FirstMissing(p, fields[1..], i - 1);
    }
  }

  /** Lenient mode tolerates missing sections but not a missing name: the
      lookup of `name` raises. */
  lemma LenientMissingNameRaises(p: Json)
    requires p.JObj? && "name" !in p.fields
    ensures Validate(p, false) == Raised
  {
    LenientRequiredNeverStops(p, RequiredFields);
  }

  lemma {:induction false} LenientRequiredNeverStops(p: Json, fields: seq<string>)
    requires p.JObj?
    ensures CheckRequired(p, fields, false) == None
    decreases |fields|
  {
    if |fields| > 0 {
      LenientRequiredNeverStops(p, fields[1..]);
    }
  }

  /** The name check: present sections do not matter when the name is bad. */
  lemma BadNameRejected(p: Json, strict: bool)
    requires p.JObj? && "name" in p.fields
    requires strict ==> forall k :: 0 <= k < |RequiredFields| ==> RequiredFields[k] in p.fields
    requires !(p.fields["name"].JStr? && Strip(p.fields["name"].s) != "")
    ensures Validate(p, strict) == Invalid("Profile name must be a non-empty string")
  {
    if strict {
      CheckRequiredStrict(p, RequiredFields);
    } else {
      LenientRequiredNeverStops(p, RequiredFields);
    }
  }

  lemma DefaultPageOk() ensures AllFieldsOk(JObj(DefaultPage), PageFields, NonNegNumber) {}
  lemma DefaultFontsOk() ensures AllFontsOk(JObj(DefaultFonts), FontKeys) {}
  lemma DefaultHeadingsOk() ensures AllFieldsOk(JObj(DefaultHeadings), HeadingFields, PosNumber) {}
  lemma DefaultTablesOk() ensures TablesOk(JObj(DefaultTables)) {}
  lemma DefaultParagraphOk() ensures ParagraphOk(JObj(DefaultParagraph)) {}
  lemma DefaultPageNumbersOk() ensures PageNumbersOk(JObj(DefaultPageNumbers)) {}

  lemma DefaultConforms()
    ensures Conforms(Default)
  {
    DefaultKeys();
    DefaultRequiredSections();
    DefaultNameNotBlank("Default");
    DefaultSectionsConform();
  }

  lemma DefaultNameNotBlank(n: string)
    requires n == "Default"
    ensures Strip(n) != ""
  {
    assert !IsSpace(n[0]);
  }

  lemma DefaultSectionsConform()
    ensures "page" in DefaultFields && "fonts" in DefaultFields && "headings" in DefaultFields && "tables" in DefaultFields
    ensures SectionsConform(Default)
  {
    DefaultPageOk(); DefaultFontsOk(); DefaultHeadingsOk();
    DefaultTablesOk(); DefaultParagraphOk(); DefaultPageNumbersOk();
    DefaultRequiredSections();
    DefaultOptionalSections();
  }

  lemma DefaultSections()
    ensures DefaultFields.Keys == {"name", "description", "version", "page", "fonts", "headings", "tables", "page_numbers", "paragraph"}
    ensures DefaultFields["name"] == JStr("Default")
    ensures DefaultFields["page"] == JObj(DefaultPage)
    ensures DefaultFields["fonts"] == JObj(DefaultFonts)
    ensures DefaultFields["headings"] == JObj(DefaultHeadings)
    ensures DefaultFields["tables"] == JObj(DefaultTables)
    ensures DefaultFields["paragraph"] == JObj(DefaultParagraph)
    ensures DefaultFields["page_numbers"] == JObj(DefaultPageNumbers)
  {
    DefaultKeys();
    DefaultRequiredSections();
    DefaultOptionalSections();
  }

  lemma DefaultKeys()
    ensures DefaultFields.Keys == {"name", "description", "version", "page", "fonts", "headings", "tables", "page_numbers", "paragraph"}
  {
  }

  lemma DefaultRequiredSections()
    ensures DefaultFields["name"] == JStr("Default")
    ensures DefaultFields["page"] == JObj(DefaultPage)
    ensures DefaultFields["fonts"] == JObj(DefaultFonts)
  {
  }

  lemma DefaultOptionalSections()
    ensures DefaultFields["headings"] == JObj(DefaultHeadings)
    ensures DefaultFields["tables"] == JObj(DefaultTables)
    ensures DefaultFields["paragraph"] == JObj(DefaultParagraph)
    ensures DefaultFields["page_numbers"] == JObj(DefaultPageNumbers)
  {
  }

  /** The default profile passes validation in both modes. */
  lemma ValidateDefault()
    ensures Validate(Default, true) == Valid
    ensures Validate(Default, false) == Valid
  {
    DefaultConforms();
    ValidateStrictIffConforms(Default);
    StrictImpliesLenient(Default);
  }

  /** `header_distance` and `footer_distance` are never checked: changing
      either one does not change whether a profile is strictly valid. */
  lemma DistancesUnchecked(p: Json, key: string, v: Json)
    requires p.JObj? && "page" in p.fields && p.fields["page"].JObj?
    requires key == "header_distance" || key == "footer_distance"
    ensures var page := p.fields["page"].fields;
      Validate(JObj(p.fields["page" := JObj(page[key := v])]), true) == Valid <==> Validate(p, true) == Valid
  {
    var page := p.fields["page"].fields;
    var q := JObj(p.fields["page" := JObj(page[key := v])]);
    ValidateStrictIffConforms(p);
    ValidateStrictIffConforms(q);
    DistancesConform(p, key, v);
  }

  lemma DistancesConform(p: Json, key: string, v: Json)
    requires p.JObj? && "page" in p.fields && p.fields["page"].JObj?
    requires key == "header_distance" || key == "footer_distance"
    ensures var page := p.fields["page"].fields;
      Conforms(JObj(p.fields["page" := JObj(page[key := v])])) <==> Conforms(p)
  {
    var page := p.fields["page"].fields;
    var q := JObj(p.fields["page" := JObj(page[key := v])]);
    assert q.fields.Keys == p.fields.Keys;
    assert forall k :: k in p.fields && k != "page" ==> q.fields[k] == p.fields[k];
    assert Group(q, "paragraph") == Group(p, "paragraph");
    assert Group(q, "page_numbers") == Group(p, "page_numbers");
    assert forall k :: 0 <= k < |PageFields| ==> PageFields[k] != key;
    assert AllFieldsOk(q.fields["page"], PageFields, NonNegNumber) <==> AllFieldsOk(p.fields["page"], PageFields, NonNegNumber);
    if "fonts" in p.fields && "headings" in p.fields && "tables" in p.fields {
      assert SectionsConform(q) <==> SectionsConform(p);
    }
  }

  /** `border_width` is checked with `isinstance(v, int)`, so a boolean passes. */
  lemma BoolBorderWidthAccepted(p: Json, b: bool)
    requires Validate(p, true) == Valid
    requires p.fields["tables"].JObj?
    ensures var t := p.fields["tables"].fields;
      Validate(JObj(p.fields["tables" := JObj(t["border_width" := JBool(b)])]), true) == Valid
  {
    ValidateStrictIffConforms(p);
    var t := p.fields["tables"].fields;
    var t' := t["border_width" := JBool(b)];
    BoolBorderWidthOk(t, b);
    TablesReplaced(p, t');
    ValidateStrictIffConforms(JObj(p.fields["tables" := JObj(t')]));
  }

  lemma BoolBorderWidthOk(t: map<string, Json>, b: bool)
    requires TablesOk(JObj(t))
    ensures TablesOk(JObj(t["border_width" := JBool(b)]))
  {
  }

  /** Replacing a conforming profile's tables section by another one that is
      fine keeps the profile conforming. */
  lemma TablesReplaced(p: Json, t': map<string, Json>)
    requires Conforms(p) && TablesOk(JObj(t'))
    ensures Conforms(JObj(p.fields["tables" := JObj(t')]))
  {
    var q := JObj(p.fields["tables" := JObj(t')]);
    TablesReplacedSections(p.fields, t');
    assert q.fields["name"] == p.fields["name"];
  }

  /** Replacing the tables section leaves the other sections as they were. */
  lemma TablesReplacedSections(p: map<string, Json>, t': map<string, Json>)
    requires "page" in p && "fonts" in p && "headings" in p && "tables" in p
    requires SectionsConform(JObj(p)) && TablesOk(JObj(t'))
    ensures SectionsConform(JObj(p["tables" := JObj(t')]))
  {
    var q := JObj(p["tables" := JObj(t')]);
    assert q.fields["page"] == p["page"] && q.fields["fonts"] == p["fonts"] && q.fields["headings"] == p["headings"];
    assert Group(q, "paragraph") == Group(JObj(p), "paragraph");
    assert Group(q, "page_numbers") == Group(JObj(p), "page_numbers");
  }

  /** Giving a conforming profile a new name and description keeps it
      conforming exactly when the new name is not blank. */
  lemma Renamed(p: map<string, Json>, name: string, description: string)
    requires Conforms(JObj(p))
    ensures Conforms(JObj(p["name" := JStr(name)]["description" := JStr(description)])) <==> Strip(name) != ""
  {
    var q := JObj(p["name" := JStr(name)]["description" := JStr(description)]);
    RenamedSections(p, name, description);
    assert q.fields["name"] == JStr(name);
  }

  /** A new name and description leave every section as it was. */
  lemma RenamedSections(p: map<string, Json>, name: string, description: string)
    requires "page" in p && "fonts" in p && "headings" in p && "tables" in p
    ensures var q := JObj(p["name" := JStr(name)]["description" := JStr(description)]);
      SectionsConform(q) == SectionsConform(JObj(p))
  {
    var q := JObj(p["name" := JStr(name)]["description" := JStr(description)]);
    assert q.fields["page"] == p["page"] && q.fields["fonts"] == p["fonts"];
    assert q.fields["headings"] == p["headings"] && q.fields["tables"] == p["tables"];
    assert Group(q, "paragraph") == Group(JObj(p), "paragraph");
    assert Group(q, "page_numbers") == Group(JObj(p), "page_numbers");
    SectionsAgree(JObj(p), q);
  }

  /** Whether the sections conform depends on the sections alone. */
  lemma SectionsAgree(p: Json, q: Json)
    requires p.JObj? && "page" in p.fields && "fonts" in p.fields && "headings" in p.fields && "tables" in p.fields
    requires q.JObj? && "page" in q.fields && "fonts" in q.fields && "headings" in q.fields && "tables" in q.fields
    requires q.fields["page"] == p.fields["page"] && q.fields["fonts"] == p.fields["fonts"]
    requires q.fields["headings"] == p.fields["headings"] && q.fields["tables"] == p.fields["tables"]
    requires Group(q, "paragraph") == Group(p, "paragraph") && Group(q, "page_numbers") == Group(p, "page_numbers")
    ensures SectionsConform(q) == SectionsConform(p)
  {
  }

  /** The column-width bounds are checked one by one; `min_col_width` above
      `max_col_width` is accepted. */
  lemma ColumnWidthOrderUnchecked(p: Json, lo: real, hi: real)
    requires Validate(p, true) == Valid
    requires p.fields["tables"].JObj?
    requires lo > 0.0 && hi > 0.0
    ensures var t := p.fields["tables"].fields;
      Validate(JObj(p.fields["tables" := JObj(t["min_col_width" := JReal(lo)]["max_col_width" := JReal(hi)])]), true) == Valid
  {
    ValidateStrictIffConforms(p);
    var t := p.fields["tables"].fields;
    var t' := t["min_col_width" := JReal(lo)]["max_col_width" := JReal(hi)];
    WidthBoundsOk(t, lo, hi);
    TablesReplaced(p, t');
    ValidateStrictIffConforms(JObj(p.fields["tables" := JObj(t')]));
  }

  lemma WidthBoundsOk(t: map<string, Json>, lo: real, hi: real)
    requires TablesOk(JObj(t)) && lo > 0.0 && hi > 0.0
    ensures TablesOk(JObj(t["min_col_width" := JReal(lo)]["max_col_width" := JReal(hi)]))
  {
  }

  // ---------------------------------------------------------------------------
  // Deep merge with the defaults
  // ---------------------------------------------------------------------------

  /** `deep_merge(base, overlay)`: overlay values win, except that two dicts
      under the same key are merged recursively; keys of either side survive. */
  function DeepMerge(base: map<string, Json>, overlay: map<string, Json>): (r: map<string, Json>)
    ensures r.Keys == base.Keys + overlay.Keys
    ensures forall k :: k in base && k !in overlay ==> r[k] == base[k]
    ensures forall k :: k in overlay && !(k in base && base[k].JObj? && overlay[k].JObj?) ==> r[k] == overlay[k]
    ensures forall k :: k in overlay && k in base && base[k].JObj? && overlay[k].JObj? ==>
      r[k] == JObj(DeepMerge(base[k].fields, overlay[k].fields))
    decreases JObj(overlay)
  {
    map k | k in base.Keys + overlay.Keys ::
      if k in overlay then
        if k in base && base[k].JObj? && overlay[k].JObj? then JObj(DeepMerge(base[k].fields, overlay[k].fields))
        else overlay[k]
      else base[k]
  }

  /** `merge_with_defaults(profile_data)` for a dict profile. */
  function MergeWithDefaults(p: map<string, Json>): (r: map<string, Json>)
    ensures DefaultFields.Keys <= r.Keys
    ensures p.Keys <= r.Keys
  {
    DeepMerge(DefaultFields, p)
  }

  /** Merging a value into itself changes nothing. */
  lemma {:induction false} MergeSelf(m: map<string, Json>)
    ensures DeepMerge(m, m) == m
    decreases JObj(m)
  {
    forall k | k in m
      ensures DeepMerge(m, m)[k] == m[k]
    {
      if m[k].JObj? {
        MergeSelf(m[k].fields);
      }
    }
  }

  /** Merging the same base in twice is merging it in once. */
  lemma {:induction false} MergeTwice(base: map<string, Json>, overlay: map<string, Json>)
    ensures DeepMerge(base, DeepMerge(base, overlay)) == DeepMerge(base, overlay)
    decreases JObj(overlay)
  {
    var once := DeepMerge(base, overlay);
    forall k | k in once
      ensures DeepMerge(base, once)[k] == once[k]
    {
      if k in overlay {
        if k in base && base[k].JObj? && overlay[k].JObj? {
          MergeTwice(base[k].fields, overlay[k].fields);
        }
      } else if base[k].JObj? {
        MergeSelf(base[k].fields);
      }
    }
  }

  /** `merge_with_defaults` is idempotent. */
  lemma MergeWithDefaultsIdempotent(p: map<string, Json>)
    ensures MergeWithDefaults(MergeWithDefaults(p)) == MergeWithDefaults(p)
  {
    MergeTwice(DefaultFields, p);
  }

  /** An empty profile merges to the default. */
  lemma MergeEmptyIsDefault()
    ensures MergeWithDefaults(map[]) == DefaultFields
  {
  }

  lemma MergeOptionalOk(b: map<string, Json>, o: Json, key: string, rule: Rule)
    requires key in b ==> Satisfies(b[key], rule)
    requires OptionalOk(o, key, rule)
    ensures OptionalOk(if o.JObj? then JObj(DeepMerge(b, o.fields)) else o, key, rule)
  {
  }

  lemma MergeFieldsOk(b: map<string, Json>, o: Json, fields: seq<string>, rule: Rule)
    requires rule != IsString && !rule.OneOf?
    requires AllFieldsOk(o, fields, rule)
    ensures AllFieldsOk(JObj(DeepMerge(b, o.fields)), fields, rule)
  {
  }

  lemma MergeFontsOk(b: map<string, Json>, o: Json)
    requires AllFontsOk(o, FontKeys)
    ensures AllFontsOk(JObj(DeepMerge(b, o.fields)), FontKeys)
  {
    var m := DeepMerge(b, o.fields);
    forall k | 0 <= k < |FontKeys|
      ensures FontKeys[k] in m && FontOk(m[FontKeys[k]])
    {
      var key := FontKeys[k];
      if key in b && b[key].JObj? {
        assert m[key] == JObj(DeepMerge(b[key].fields, o.fields[key].fields));
      }
    }
  }

  /** Merging a strictly valid profile with the defaults keeps it strictly valid. */
  lemma MergeKeepsValid(p: map<string, Json>)
    requires Validate(JObj(p), true) == Valid
    ensures Validate(JObj(MergeWithDefaults(p)), true) == Valid
  {
    ValidateStrictIffConforms(JObj(p));
    DefaultSections();
    DefaultTablesOk(); DefaultParagraphOk(); DefaultPageNumbersOk();
    MergeConforms(DefaultFields, p);
    ValidateStrictIffConforms(JObj(MergeWithDefaults(p)));
  }

  /** Merging a conforming profile over any base whose optional sections are
      themselves fine gives a conforming profile. */
  lemma MergeConforms(d: map<string, Json>, p: map<string, Json>)
    requires Conforms(JObj(p))
    requires "tables" in d ==> TablesOk(d["tables"])
    requires "paragraph" in d ==> ParagraphOk(d["paragraph"])
    requires "page_numbers" in d ==> PageNumbersOk(d["page_numbers"])
    ensures Conforms(JObj(DeepMerge(d, p)))
  {
    var m := DeepMerge(d, p);
    assert m["name"] == p["name"];
    MergeSectionOk(d, p, "page");
    MergeSectionOk(d, p, "fonts");
    MergeSectionOk(d, p, "headings");
    MergeSectionOk(d, p, "tables");
    MergeFieldsOk(if "page" in d && d["page"].JObj? then d["page"].fields else map[], p["page"], PageFields, NonNegNumber);
    MergeFontsOk(if "fonts" in d && d["fonts"].JObj? then d["fonts"].fields else map[], p["fonts"]);
    MergeFieldsOk(if "headings" in d && d["headings"].JObj? then d["headings"].fields else map[], p["headings"], HeadingFields, PosNumber);
    MergeTablesOk(d, p["tables"]);
    MergeParagraphOk(d, p);
    MergePageNumbersOk(d, p);
  }

  /** A required section that is a dict in the overlay becomes the merge of the
      base's section (or nothing) with it. */
  lemma MergeSectionOk(d: map<string, Json>, p: map<string, Json>, key: string)
    requires key in p
    ensures var b := if key in d && d[key].JObj? then d[key].fields else map[];
      p[key].JObj? ==> DeepMerge(d, p)[key] == JObj(DeepMerge(b, p[key].fields))
    ensures !p[key].JObj? ==> DeepMerge(d, p)[key] == p[key]
  {
    if p[key].JObj? && !(key in d && d[key].JObj?) {
      MergeEmptyBase(p[key].fields);
    }
  }

  /** Merging onto an empty base is the identity. */
  lemma MergeEmptyBase(o: map<string, Json>)
    ensures DeepMerge(map[], o) == o
  {
  }

  lemma MergeTablesOk(d: map<string, Json>, t: Json)
    requires TablesOk(t)
    requires "tables" in d ==> TablesOk(d["tables"])
    ensures var b := if "tables" in d && d["tables"].JObj? then d["tables"].fields else map[];
      TablesOk(if t.JObj? then JObj(DeepMerge(b, t.fields)) else t)
  {
    var b := if "tables" in d && d["tables"].JObj? then d["tables"].fields else map[];
    MergeOptionalOk(b, t, "border_width", NonNegInt);
    MergeOptionalOk(b, t, "min_col_width", PosNumber);
    MergeOptionalOk(b, t, "max_col_width", PosNumber);
    MergeOptionalOk(b, t, "auto_width", IsBool);
  }

  lemma MergeParagraphOk(d: map<string, Json>, p: map<string, Json>)
    requires ParagraphOk(Group(JObj(p), "paragraph"))
    requires "paragraph" in d ==> ParagraphOk(d["paragraph"])
    ensures ParagraphOk(Group(JObj(DeepMerge(d, p)), "paragraph"))
  {
    if "paragraph" in p {
      var para := p["paragraph"];
      var b := if "paragraph" in d && d["paragraph"].JObj? then d["paragraph"].fields else map[];
      MergeSectionOk(d, p, "paragraph");
      MergeOptionalOk(b, para, "line_spacing", PosNumber);
      MergeOptionalOk(b, para, "space_before", NonNegNumber);
      MergeOptionalOk(b, para, "space_after", NonNegNumber);
    }
  }

  lemma MergePageNumbersOk(d: map<string, Json>, p: map<string, Json>)
    requires PageNumbersOk(Group(JObj(p), "page_numbers"))
    requires "page_numbers" in d ==> PageNumbersOk(d["page_numbers"])
    ensures PageNumbersOk(Group(JObj(DeepMerge(d, p)), "page_numbers"))
  {
    if "page_numbers" in p {
      var pn := p["page_numbers"];
      var b := if "page_numbers" in d && d["page_numbers"].JObj? then d["page_numbers"].fields else map[];
      MergeSectionOk(d, p, "page_numbers");
      MergeOptionalOk(b, pn, "enabled", IsBool);
      MergeOptionalOk(b, pn, "position", OneOf(Positions));
      MergeOptionalOk(b, pn, "format", OneOf(Formats));
      MergeOptionalOk(b, pn, "custom_text", IsString);
    }
  }

  // ---------------------------------------------------------------------------
  // Templates
  // ---------------------------------------------------------------------------

  /** The description a template gets: the one given, or a generated one when
      it is empty. */
  function TemplateDescription(name: string, description: string): string {
    if description == "" then "Custom profile: " + name else description
  }

  /** `get_profile_template(name, description)`: the default profile with a
      new name and description; every other field is the default's. */
  function Template(name: string, description: string): (r: Json)
    ensures r.JObj? && r.fields.Keys == DefaultFields.Keys
    ensures r.fields["name"] == JStr(name)
    ensures r.fields["description"] == JStr(TemplateDescription(name, description))
    ensures forall k :: k in DefaultFields && k != "name" && k != "description" ==> r.fields[k] == DefaultFields[k]
  {
    JObj(DefaultFields["name" := JStr(name)]["description" := JStr(TemplateDescription(name, description))])
  }

  /** A template is strictly valid exactly when its name is not blank. */
  lemma TemplateValidIffNamed(name: string, description: string)
    ensures Validate(Template(name, description), true) == Valid <==> Strip(name) != ""
  {
    ValidateStrictIffConforms(Template(name, description));
    TemplateConformsIffNamed(name, description);
  }

  lemma TemplateConformsIffNamed(name: string, description: string)
    ensures Conforms(Template(name, description)) <==> Strip(name) != ""
  {
    var t := Template(name, description);
    DefaultSections();
    DefaultPageOk(); DefaultFontsOk(); DefaultHeadingsOk();
    DefaultTablesOk(); DefaultParagraphOk(); DefaultPageNumbersOk();
    assert t.fields["page"] == JObj(DefaultPage);
    assert t.fields["fonts"] == JObj(DefaultFonts);
    assert t.fields["headings"] == JObj(DefaultHeadings);
    assert t.fields["tables"] == JObj(DefaultTables);
    assert Group(t, "paragraph") == JObj(DefaultParagraph);
    assert Group(t, "page_numbers") == JObj(DefaultPageNumbers);
    assert SectionsConform(t);
  }
}
