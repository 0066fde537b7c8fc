# pdf3md document post-processing, profiles and utilities in Dafny

This project models the pure core of pdf3md, a PDF-to-Markdown/Word converter,
and proves properties of the model. It covers:

- the reformatting of a Word document after Pandoc has written it
  (`pdf3md/formatters/docx_formatter.py`):
  - page geometry, page numbers and heading sizes;
  - table layout (size classes, column weights, widths in EMU, centring,
    header relabelling);
- the clean-up passes run before formatting (`pdf3md/formatters/docx_cleaners.py`);
- formatting profiles: the default profile, the validator, the deep merge and
  templates (`pdf3md/formatters/profile_schema.py`);
- the profile store over a map from file name to stored JSON
  (`pdf3md/formatters/profile_manager.py`);
- versions and the bump command (`scripts/update_version.py`);
- the CORS origin list (`pdf3md/config.py`);
- the file-size label (`pdf3md/utils/file_utils.py`);
- the converter's call into the formatter (`pdf3md/converters/docx_converter.py`).

Modules, one per component:

- `Wrappers`: `Option`.
- `Text`: Python's `strip`, `lower` (ASCII and basic Cyrillic), `split`, `in` on
  strings and decimal printing.
- `Seqs`: filter and sum.
- `JsonValue`: JSON values, with `bool` kept apart from `int`, and `key in x`
  on any value.
- `ProfileSchema` and `ProfileStore`.
- `SemVer`, `Cors` and `FileSize`.
- `Document`: the python-docx objects as records. A paragraph has runs, a
  style, properties with alignment and borders, and drawing/picture flags. A
  section has geometry and an optional header and footer, where `None` stands
  for a part whose access raises `FileNotFoundError`. A table is a grid of
  cells.
- `Cleaners`.
- `TableLayout`: size class, numeric test, header minimum, keyword chain and
  weights.
- `ColumnWidths`: the width arithmetic.
- `HeaderLabels`.
- `TableFormat`: one table of `format_tables`.
- `Formatter`: the passes and `apply_docx_formatting`.

Python exceptions are explicit outcomes in the model:

- `Validation.Raised` when `validate_profile` itself raises;
- `Reply.Throw` for a command or store call that raises;
- `None` when a formatting pass raises.

The file system is a map, and so is the environment variable. The directory
order of `glob` is a parameter. Floats are exact reals, and integer widths are
whole EMU (914400 per inch).

## Model

| member | source | states |
|---|---|---|
| Cleaners.AnyMarked | pdf3md/formatters/docx_cleaners.py:28-35 | the loop over the edges answers true exactly when some edge in the list carries a non-empty value |
| Cleaners.HasHorizontalRule | pdf3md/formatters/docx_cleaners.py:17-36 | true exactly when the paragraph has properties with a border element and one of top, bottom, left or right carries a non-empty value; between/bar borders alone are no rule |
| Cleaners.RemoveLeadingMetadata | pdf3md/formatters/docx_cleaners.py:39-62 | every paragraph after the fifth is kept, in order, at the end; before them stand only paragraphs that do not look like metadata, in their original order (a strictly increasing map of positions into the first five) and each exactly as often as it occurs among the first five; an empty body stays empty |
| Cleaners.IsLeadingMetadata | pdf3md/formatters/docx_cleaners.py:50-59 | the test on each of the first five paragraphs: its stripped text starts with `[[` and contains `#`, or is `---`, `***` or `___`, or the paragraph carries a horizontal rule (a predicate; `LeadingDeletedIff` states its effect) |
| Seqs.FilterPrefix | pdf3md/formatters/docx_cleaners.py:45-62 | filtering the first n elements and keeping the rest leaves the rest in place at the end, and before it only accepted elements, in their order, each as often as among the first n |
| Cleaners.LaterParagraphsSurvive | pdf3md/formatters/docx_cleaners.py:45-50 | every paragraph after the fifth survives, in order, as the tail of the result |
| Cleaners.LeadingDeletedIff | pdf3md/formatters/docx_cleaners.py:45-62 | a paragraph survives as often as it occurs after the fifth, plus as often as among the first five unless it looks like metadata (stripped text starting `[[` and containing `#`, or `---`/`***`/`___`, or a horizontal rule); so it disappears exactly when it looks like metadata and no copy of it follows the fifth |
| Cleaners.CleanHeader | pdf3md/formatters/docx_cleaners.py:79-83 | no header paragraph left carries a rule or any text, and each is already cleared |
| Cleaners.CleanHeaderIsClearedFilter | pdf3md/formatters/docx_cleaners.py:79-83 | the header becomes exactly its non-rule paragraphs, cleared, in order |
| Cleaners.RemoveRules | pdf3md/formatters/docx_cleaners.py:71-73 | no surviving paragraph has a rule and every paragraph without one survives; their order and count are stated by `Cleaners.RemoveRulesInOrder` |
| Cleaners.RemoveRulesInOrder | pdf3md/formatters/docx_cleaners.py:71-73 | the survivors are the body's paragraphs in their original order (a strictly increasing map of positions), a paragraph without a rule survives exactly as often as it occurs and one with a rule not at all |
| Cleaners.Unlink | pdf3md/formatters/docx_cleaners.py:77-78 | a part linked to the previous section's gets a definition of its own holding one empty template paragraph; a part already unlinked is kept as it is |
| Cleaners.TemplateParagraph | pdf3md/formatters/docx_cleaners.py:77-78 | the paragraph of a definition made from the default template: no text, the part's style, no alignment, no rule, no drawing and no picture |
| Cleaners.CleanSection | pdf3md/formatters/docx_cleaners.py:75-90 | a section whose header cannot be reached is untouched; one whose footer cannot be reached only has its header unlinked; otherwise both parts are unlinked, the header's paragraphs cleaned and the footer's stripped of rules; geometry is kept |
| Cleaners.LinkedPartsGetTemplate | pdf3md/formatters/docx_cleaners.py:77-86 | a header or footer that was linked to the previous section's ends up holding just the template paragraph, which neither the header pass nor the footer pass removes or changes |
| Cleaners.RemoveHorizontalRules | pdf3md/formatters/docx_cleaners.py:65-90 | the body loses its rule paragraphs, every section is cleaned independently, tables and styles are untouched |
| Cleaners.NoRulesRemain | pdf3md/formatters/docx_cleaners.py:71-86 | afterwards no body, header or footer paragraph of a reachable section has a rule and both parts are unlinked |
| Cleaners.RemoveHorizontalRulesIdempotent | pdf3md/formatters/docx_cleaners.py:65-90 | a second pass changes nothing |
| Cleaners.CleanSectionIdempotent | pdf3md/formatters/docx_cleaners.py:75-90 | cleaning a cleaned section changes nothing |
| Cleaners.CleanHeaderFixed | pdf3md/formatters/docx_cleaners.py:79-83 | a header of cleared, rule-free paragraphs is left as it is |
| Cleaners.FailingSectionSkipped | pdf3md/formatters/docx_cleaners.py:87-90 | a section whose parts raise is skipped and every other section is still cleaned |
| Cleaners.RemoveShapeLines | pdf3md/formatters/docx_cleaners.py:93-109 | no shape line survives; a paragraph with visible text, or with neither drawing nor picture, always survives; order and count are stated by `Cleaners.RemoveShapeLinesInOrder` |
| Cleaners.RemoveShapeLinesInOrder | pdf3md/formatters/docx_cleaners.py:99-109 | the survivors are the body's paragraphs in their original order (a strictly increasing map of positions), a paragraph that is not a shape line survives exactly as often as it occurs and a shape line not at all |
| Cleaners.RemoveShapeLinesIff | pdf3md/formatters/docx_cleaners.py:99-109 | a paragraph is deleted exactly when its stripped text is empty and it holds a drawing or a picture; the pass is idempotent |
| FileSize.RoundHalfEvenNearest | pdf3md/utils/file_utils.py:22-24 | the rounding used for one decimal place picks a nearest integer, the even one on a tie |
| FileSize.FormatFileSize | pdf3md/utils/file_utils.py:10-24 | below 1024 the decimal integer and " B"; below 1048576 digits, a point, one digit and " KB"; otherwise the same with " MB" |
| FileSize.OneDecimalNearest | pdf3md/utils/file_utils.py:22-24 | the rendered digits read back as the nearest number of tenths of size/unit |
| FileSize.KilobytesNearest | pdf3md/utils/file_utils.py:21-22 | the KB label is within half a tenth of size/1024 |
| FileSize.MegabytesNearest | pdf3md/utils/file_utils.py:23-24 | the MB label is within half a tenth of size/1048576 |
| FileSize.BytesExact | pdf3md/utils/file_utils.py:19-20 | the bytes label reads back as the size itself |
| FileSize.ExampleKilobytes | pdf3md/utils/file_utils.py:21-22 | 1536 bytes render as "1.5 KB" |
| FileSize.ExampleTie | pdf3md/utils/file_utils.py:21-22 | 1280 bytes (1.25 KB, an exact tie) render as "1.2 KB" |
| FileSize.ExampleBytes | pdf3md/utils/file_utils.py:19-20 | 512 bytes render as "512 B" |
| Cors.FirstLine | pdf3md/config.py:99-102 | what `.*` matches: the longest newline-free prefix |
| Cors.SchemeAndHost | pdf3md/config.py:99-102 | an `https://` or `http://` prefix is split off as the protocol, otherwise the protocol is `http://` and the whole origin (first line) is the domain |
| Cors.CustomOrigins | pdf3md/config.py:91-93 | one stripped origin per comma-separated piece, in order |
| Cors.ExpandAll | pdf3md/config.py:95-106 | the expansions of every custom origin and nothing else |
| Cors.CorsOrigins | pdf3md/config.py:73-110 | the five defaults are always allowed, and an absent or empty variable allows exactly them |
| Cors.CorsOriginsExactly | pdf3md/config.py:87-110 | an origin is allowed exactly when it is a default or an expansion of one of the custom origins |
| Cors.CustomOriginAllowed | pdf3md/config.py:91-106 | each stripped custom origin is allowed, together with protocol+domain on ports 3000, 5173 and 6201 |
| Cors.BareHostGetsHttp | pdf3md/config.py:99-104 | a host without a protocol is allowed as `http://host:3000` |
| SemVer.Parse | scripts/update_version.py:37-42 | parsing succeeds exactly when the stripped text is three digit groups joined by dots |
| SemVer.GroupsIff | scripts/update_version.py:39-41 | splitting at the dots finds three digit groups exactly when the text has the `^\d+\.\d+\.\d+$` shape |
| SemVer.ParseToString | scripts/update_version.py:34-42 | parse(str(v)) == v for every version |
| SemVer.ParseIgnoresPadding | scripts/update_version.py:38-39 | surrounding whitespace does not change what is parsed |
| SemVer.BumpPatch | scripts/update_version.py:44-45 | only the patch changes, by one |
| SemVer.BumpMinor | scripts/update_version.py:47-48 | (major, minor + 1, 0) |
| SemVer.BumpMajor | scripts/update_version.py:50-51 | (major + 1, 0, 0) |
| SemVer.BumpsIncrease | scripts/update_version.py:44-51 | every bump is lexicographically greater than its input, and patch < minor < major bump |
| SemVer.PatchIsNext | scripts/update_version.py:44-45 | the patch bump is the least version above its input |
| SemVer.CmdSync | scripts/update_version.py:137-150 | raises exactly when a given version does not parse; success syncs the given version, or the current one when none is given; failure is exit code 1 with nothing synced |
| SemVer.CmdBump | scripts/update_version.py:153-166 | no current version gives 1; an unparsable one raises; an unknown kind gives 1 without syncing |
| SemVer.BumpWritesNext | scripts/update_version.py:158-164 | a known kind syncs the printed bumped version, which parses back and is greater than the current one |
| ProfileSchema.ValidIffNoStop | pdf3md/formatters/profile_schema.py:64-194 | a profile validates exactly when no check along the way stops validation |
| ProfileSchema.Validate | pdf3md/formatters/profile_schema.py:64-194 | `Valid`, `Invalid` with the message of the first failing check, or `Raised` when a check itself raises; a function without its own ensures, characterised by `ValidIffNoStop`, `ValidateStrictIffConforms` and `ValidHasName` |
| JsonValue.Has | pdf3md/formatters/profile_schema.py:75-82 | Python's `key in value`: on a dict, present exactly when it is a key; a number, bool or null is not iterable and raises |
| JsonValue.Index | pdf3md/formatters/profile_schema.py:84-86 | `value[key]` succeeds exactly on a dict holding the key, and gives its value |
| ProfileSchema.ValidHasName | pdf3md/formatters/profile_schema.py:84-86 | a valid profile is a dict whose name is a string that is not blank after strip |
| ProfileSchema.CheckRequiredStrict | pdf3md/formatters/profile_schema.py:75-82 | the strict required-field check passes exactly when every listed field is present |
| ProfileSchema.CheckFieldsStrict | pdf3md/formatters/profile_schema.py:92-107 | the strict check of a group of fields passes exactly when every field is present and satisfies its rule |
| ProfileSchema.CheckFontStrict | pdf3md/formatters/profile_schema.py:118-131 | a font passes exactly when it has a name and a positive, non-bool size |
| ProfileSchema.CheckFontsStrict | pdf3md/formatters/profile_schema.py:110-131 | the strict font check passes exactly when every listed font is present and passes |
| ProfileSchema.CheckOptionalIff | pdf3md/formatters/profile_schema.py:152-192 | an optional key passes exactly when it is absent or satisfies its rule |
| ProfileSchema.TablesIff | pdf3md/formatters/profile_schema.py:152-163 | the tables checks pass exactly when each present tables key has the right kind of value |
| ProfileSchema.ParagraphIff | pdf3md/formatters/profile_schema.py:166-173 | the same for the paragraph keys |
| ProfileSchema.PageNumbersIff | pdf3md/formatters/profile_schema.py:176-192 | the same for the page-number keys, position and format from their fixed sets |
| ProfileSchema.SectionsIff | pdf3md/formatters/profile_schema.py:92-192 | the strict section checks pass exactly when the sections conform |
| ProfileSchema.ValidateStrictIffConforms | pdf3md/formatters/profile_schema.py:64-194 | strict validation accepts exactly the profiles that conform to the schema, stated declaratively |
| ProfileSchema.StrictImpliesLenient | pdf3md/formatters/profile_schema.py:64-194 | whatever passes strict validation passes lenient validation |
| ProfileSchema.StrictReportsFirstMissing | pdf3md/formatters/profile_schema.py:75-82 | strict validation reports "Missing required field: X" for the first absent field in the order name, version, page, fonts, headings, tables |
| ProfileSchema.LenientMissingNameRaises | pdf3md/formatters/profile_schema.py:84-86 | in lenient mode a dict without a name makes the validator raise |
| ProfileSchema.LenientRequiredNeverStops | pdf3md/formatters/profile_schema.py:75-82 | lenient mode never reports a missing field |
| ProfileSchema.BadNameRejected | pdf3md/formatters/profile_schema.py:84-86 | a present name that is not a non-blank string is rejected with its message |
| ProfileSchema.DefaultConforms | pdf3md/formatters/profile_schema.py:7-61 | the default profile conforms to the schema |
| ProfileSchema.DefaultSections | pdf3md/formatters/profile_schema.py:7-61 | the default profile has exactly its nine top-level keys and its named sections |
| ProfileSchema.ValidateDefault | pdf3md/formatters/profile_schema.py:7-61 | the default profile validates in both modes |
| ProfileSchema.DistancesUnchecked | pdf3md/formatters/profile_schema.py:92-107 | any value for header_distance or footer_distance leaves the verdict unchanged |
| ProfileSchema.DistancesConform | pdf3md/formatters/profile_schema.py:92-107 | the same for conformance |
| ProfileSchema.BoolBorderWidthAccepted | pdf3md/formatters/profile_schema.py:154-155 | a boolean border_width is accepted |
| ProfileSchema.ColumnWidthOrderUnchecked | pdf3md/formatters/profile_schema.py:156-161 | any positive min and max column widths are accepted, even with min > max |
| ProfileSchema.TablesReplaced | pdf3md/formatters/profile_schema.py:152-163 | replacing the tables of a conforming profile by a well-formed tables object keeps it conforming |
| ProfileSchema.Renamed | pdf3md/formatters/profile_schema.py:84-86 | a conforming profile renamed still conforms exactly when the new name is not blank |
| ProfileSchema.DeepMerge | pdf3md/formatters/profile_schema.py:206-217 | keys of both sides; overlay values win except where both are objects, which merge recursively; base-only keys keep their value |
| ProfileSchema.MergeWithDefaults | pdf3md/formatters/profile_schema.py:197-217 | every default key and every profile key is present |
| ProfileSchema.MergeSelf | pdf3md/formatters/profile_schema.py:206-217 | merging a map into itself gives it back |
| ProfileSchema.MergeTwice | pdf3md/formatters/profile_schema.py:206-217 | merging the same base again changes nothing |
| ProfileSchema.MergeWithDefaultsIdempotent | pdf3md/formatters/profile_schema.py:197-217 | merge(merge(p)) == merge(p) |
| ProfileSchema.MergeEmptyIsDefault | pdf3md/formatters/profile_schema.py:197-217 | merging the empty profile gives the default |
| ProfileSchema.MergeKeepsValid | pdf3md/formatters/profile_schema.py:197-217 | merging a valid profile with the defaults keeps it valid |
| ProfileSchema.MergeConforms | pdf3md/formatters/profile_schema.py:206-217 | merging a conforming profile over a base with well-formed optional sections conforms |
| ProfileSchema.Template | pdf3md/formatters/profile_schema.py:220-233 | the default profile with the given name and the description, or "Custom profile: name" when the description is empty |
| ProfileSchema.TemplateValidIffNamed | pdf3md/formatters/profile_schema.py:220-233 | a template validates exactly when its name is not blank |
| ProfileSchema.TemplateConformsIffNamed | pdf3md/formatters/profile_schema.py:220-233 | a template conforms exactly when its name is not blank |
| ProfileStore.KeepSafe | pdf3md/formatters/profile_manager.py:56 | only alphanumerics, space, `-` and `_` are kept, and a name made of them is kept whole |
| ProfileStore.SlugStem | pdf3md/formatters/profile_manager.py:55-57 | the stem is safe, lower-case and without spaces |
| ProfileStore.KeepSafeLower | pdf3md/formatters/profile_manager.py:56-57 | filtering and lower-casing commute |
| ProfileStore.SlugIgnoresCase | pdf3md/formatters/profile_manager.py:55-58 | names that differ only in case share one file |
| ProfileStore.SlugStemFixed | pdf3md/formatters/profile_manager.py:55-57 | slugging a slug changes nothing |
| ProfileStore.LowerDefaultFile | pdf3md/formatters/profile_manager.py:55-58 | every spelling of "default" maps to default.json |
| ProfileStore.Load | pdf3md/formatters/profile_manager.py:86-119 | a profile loads exactly when its file exists, parses and validates, and then the result conforms and has every default key |
| ProfileStore.MergedConforms | pdf3md/formatters/profile_manager.py:106-112 | a valid stored profile merged with the defaults conforms |
| ProfileStore.LoadedNonEmpty | pdf3md/formatters/profile_manager.py:193-195 | a loaded profile is never the empty dict, so the duplicate guard only fails on a failed load |
| ProfileStore.Save | pdf3md/formatters/profile_manager.py:121-152 | raises exactly when the validator raises; succeeds exactly for conforming profiles, writing the slug's file and nothing else; otherwise the store is unchanged |
| ProfileStore.SavedNameTruthy | pdf3md/formatters/profile_manager.py:136-139 | a validated profile always has a truthy name, so that guard never fires |
| ProfileStore.SaveThenLoad | pdf3md/formatters/profile_manager.py:121-152 | loading any name with the same slug after a save gives the saved profile merged with the defaults |
| ProfileStore.SaveTouchesOneFile | pdf3md/formatters/profile_manager.py:141-147 | every other file is left as it was, and a failed save touches nothing |
| ProfileStore.DeleteAsWritten | pdf3md/formatters/profile_manager.py:154-181 | deletes the slug's file exactly when the lower-cased name is not "default" and the file exists; otherwise nothing changes |
| ProfileStore.DeleteAsWrittenRemovesDefault | pdf3md/formatters/profile_manager.py:163-175 | "default!" passes the guard and deletes default.json |
| ProfileStore.BangPassesGuard | pdf3md/formatters/profile_manager.py:163-166 | "default!" lower-cased is not "default" |
| ProfileStore.BangIsDefaultFile | pdf3md/formatters/profile_manager.py:55-58 | "default!" is stored as default.json |
| ProfileStore.PlainDefaultFile | pdf3md/formatters/profile_manager.py:55-58 | "default" is kept whole and stored as default.json |
| ProfileStore.Delete | pdf3md/formatters/profile_manager.py:154-181 | the guard applied to the file name: deletes exactly when the file exists and is not default.json |
| ProfileStore.DeleteKeepsDefault | pdf3md/formatters/profile_manager.py:163-166 | no name deletes or changes default.json |
| ProfileStore.DeleteRefinesAsWritten | pdf3md/formatters/profile_manager.py:154-181 | the guarded delete agrees with the code on every name except those that reach default.json without spelling "default" |
| ProfileStore.Duplicate | pdf3md/formatters/profile_manager.py:183-201 | never raises, and succeeds exactly when the source loads and the new name is not blank |
| ProfileStore.SaveCopy | pdf3md/formatters/profile_manager.py:197-201 | saving the renamed copy of a loaded profile succeeds exactly when the new name is not blank |
| ProfileStore.CopyConforms | pdf3md/formatters/profile_manager.py:197-201 | the renamed copy conforms exactly when the new name is not blank |
| ProfileStore.CopyBlankRejected | pdf3md/formatters/profile_manager.py:197-201 | a blank new name is rejected with the name message |
| ProfileStore.DuplicateThenLoad | pdf3md/formatters/profile_manager.py:183-201 | after a duplicate, the new name loads as the source with the new name and "Copy of source", whether or not that file existed |
| ProfileStore.DuplicateSaves | pdf3md/formatters/profile_manager.py:193-201 | a successful duplicate is exactly the save of the renamed copy |
| ProfileStore.CopyName | pdf3md/formatters/profile_manager.py:197-199 | the copy carries the new name |
| ProfileStore.GetDefault | pdf3md/formatters/profile_manager.py:203-215 | the default profile always conforms, whether loaded or the built-in fallback |
| ProfileStore.EnsureDefault | pdf3md/formatters/profile_manager.py:39-44 | default.json exists afterwards, and an existing one is left alone |
| ProfileStore.SaveDefault | pdf3md/formatters/profile_manager.py:39-44 | saving the built-in default succeeds and writes default.json |
| ProfileStore.GetDefaultAfterSave | pdf3md/formatters/profile_manager.py:203-212 | after saving a conforming profile to default.json, the default profile is it merged with the defaults |
| ProfileStore.FreshDefault | pdf3md/formatters/profile_manager.py:39-44 | in a store without default.json, seeding then asking for the default gives the built-in default |
| ProfileStore.InfoOf | pdf3md/formatters/profile_manager.py:68-80 | a file gives a listing line exactly when it parses to a dict |
| JsonValue.Get | pdf3md/formatters/profile_manager.py:72-78 | `dict.get`: the stored value when the key is present, the default otherwise |
| ProfileStore.ListedDefaults | pdf3md/formatters/profile_manager.py:72-78 | a line shows the stored fields, else the file stem, "" and "1.0" |
| ProfileStore.CollectHas | pdf3md/formatters/profile_manager.py:68-80 | every readable dict file has its line in the collected list |
| ProfileStore.NameLeTotal | pdf3md/formatters/profile_manager.py:83 | any two comparable names are ordered one way or the other |
| ProfileStore.Insert | pdf3md/formatters/profile_manager.py:83 | insertion into a sorted list keeps it sorted and adds exactly one element |
| ProfileStore.SortByName | pdf3md/formatters/profile_manager.py:83 | the result is a permutation of the input, sorted by name |
| ProfileStore.ListProfiles | pdf3md/formatters/profile_manager.py:60-84 | over the store's `*.json` files, each once: raises exactly when two names cannot be compared; otherwise a permutation of the collected lines sorted by name |
| ProfileStore.ProfileFileEndsJson | pdf3md/formatters/profile_manager.py:56-58 | every profile file name ends in `.json`, so the listing's glob finds it |
| ProfileStore.SavedIsListed | pdf3md/formatters/profile_manager.py:60-84 | a saved profile shows up in every listing that does not raise, under its name |
| ProfileStore.StoredIsListed | pdf3md/formatters/profile_manager.py:60-84 | every stored `.json` file holding a dict with a name shows up under that name |
| TableLayout.Inches | pdf3md/formatters/docx_formatter.py:133-148 | hundredths of an inch converted exactly at 914400 EMU per inch |
| TableLayout.ChooseSizeClass | pdf3md/formatters/docx_formatter.py:133-148 | six or more columns give (0.35in, 2.6in, 10pt); else six or more rows (0.45, 3.0, 10); else two columns (0.5, 3.2, 11); else (0.45, 3.0, 11) |
| TableLayout.WideBeatsLong | pdf3md/formatters/docx_formatter.py:133-140 | the column test comes first: a wide long table gets the wide class, narrower than the long one |
| TableLayout.IsNumericLike | pdf3md/formatters/docx_formatter.py:310-329 | true only of non-blank text made of hex digits, signs, points, commas and `x` |
| TableLayout.NumericAlphabet | pdf3md/formatters/docx_formatter.py:322-328 | each of the three patterns admits only that alphabet |
| TableLayout.DecimalsAreNumeric | pdf3md/formatters/docx_formatter.py:322-324 | signed integers and decimals, with point or comma, are numeric-like |
| TableLayout.HexRunNumeric | pdf3md/formatters/docx_formatter.py:327-328 | two or more hex digits are numeric-like |
| TableLayout.HexLiteralNumeric | pdf3md/formatters/docx_formatter.py:325-326 | a `0x` literal is numeric-like |
| TableLayout.HexLiteralExample | pdf3md/formatters/docx_formatter.py:325-326 | "0x1F" is numeric-like |
| TableLayout.WordNotNumeric | pdf3md/formatters/docx_formatter.py:319-329 | text holding a character outside the alphabet is not numeric-like |
| TableLayout.LetterNotNumeric | pdf3md/formatters/docx_formatter.py:319-329 | a single character that is no digit, space, comma or point is not numeric-like, hex letters included |
| TableLayout.IntegerExample | pdf3md/formatters/docx_formatter.py:323-324 | "12" is numeric-like |
| TableLayout.LeadingZeroExample | pdf3md/formatters/docx_formatter.py:323-324 | "07" is numeric-like |
| TableLayout.DecimalExample | pdf3md/formatters/docx_formatter.py:323-324 | "3.5" is numeric-like |
| TableLayout.HexWordExample | pdf3md/formatters/docx_formatter.py:327-328 | "Bad" is numeric-like, being three hex digits |
| TableLayout.WordExample | pdf3md/formatters/docx_formatter.py:319-329 | "Device A" is not numeric-like |
| TableLayout.LetterExample | pdf3md/formatters/docx_formatter.py:319-329 | "a" and "" are not numeric-like |
| TableLayout.LengthStep | pdf3md/formatters/docx_formatter.py:398-405 | one of 0.6, 0.85, 1.2, 1.4 inches, 0.6 exactly up to six characters |
| TableLayout.LengthStepMonotone | pdf3md/formatters/docx_formatter.py:398-405 | the step never decreases with length |
| TableLayout.HeaderMinWidth | pdf3md/formatters/docx_formatter.py:374-405 | None exactly for an empty header; always within 0.6–1.4 in; a device header gets 1.2; a header without keywords gets the length step |
| TableLayout.HeaderMinWidthIgnoresSpace | pdf3md/formatters/docx_formatter.py:398-405 | without keywords, whitespace does not matter and the minimum grows with whitespace-free length |
| TableLayout.Classify | pdf3md/formatters/docx_formatter.py:221-245 | each branch is taken exactly when its test passes on the lower-cased header and no earlier one does |
| TableLayout.Multiplier | pdf3md/formatters/docx_formatter.py:226-243 | every branch scales the weight by a factor between 0.6 and 1.6; only the code branch shrinks it and only the plain branch keeps it |
| TableLayout.OverrideMin | pdf3md/formatters/docx_formatter.py:226-245 | exactly the data and block branches set the column minimum outright, to 0.95 in and 0.9 in, both within 0.90–0.95 in |
| TableLayout.DeviceIdIsDevice | pdf3md/formatters/docx_formatter.py:230-236 | "Device ID" takes the device branch, not the id one |
| TableLayout.OptionIsCode | pdf3md/formatters/docx_formatter.py:237-241 | "Option" takes the code branch through its "op" |
| TableLayout.ValidIsCode | pdf3md/formatters/docx_formatter.py:237-241 | "Valid" takes the code branch through its "id" |
| TableLayout.MaxLen | pdf3md/formatters/docx_formatter.py:206-211 | the longest text length, at least the floor, and attained by some text unless it is the floor |
| TableLayout.BaseWeight | pdf3md/formatters/docx_formatter.py:204-213 | within [1, 120], at least every text length unless capped, and equal to some text length unless 1 or 120 |
| TableLayout.Weight | pdf3md/formatters/docx_formatter.py:215-254 | every column weight lies in [1, 192] |
| TableLayout.MostlyNumeric | pdf3md/formatters/docx_formatter.py:248-252 | the column has non-empty texts and at least 70% of them are numeric-like, in integers (10 × numeric ≥ 7 × count) so no float rounding enters (a predicate; `NumericDiscount` and `ShouldCenter` state its use) |
| TableLayout.NumericDiscount | pdf3md/formatters/docx_formatter.py:247-254 | a mostly numeric column weighs no more than a textual one of the same base and header, and exactly 0.6 of it above the floor of 1 |
| TableLayout.PlainWeight | pdf3md/formatters/docx_formatter.py:215-254 | a textual column with no keyword weighs exactly its base |
| TableLayout.ColumnMin | pdf3md/formatters/docx_formatter.py:213-245 | a data or block header sets the minimum outright; otherwise it is at least the table's and at least the header's |
| TableLayout.ShouldCenter | pdf3md/formatters/docx_formatter.py:290-302 | never for a column without non-empty texts; always for a mostly numeric one |
| TableLayout.ShortColumnCentred | pdf3md/formatters/docx_formatter.py:301-302 | a column whose texts have at most four characters is centred |
| ColumnWidths.RawWidthsFill | pdf3md/formatters/docx_formatter.py:256-259 | with a non-zero total the raw widths add up to the available width |
| ColumnWidths.Weights | pdf3md/formatters/docx_formatter.py:215-254 | column j's weight is the weight of its texts under its header, and never below 1 |
| ColumnWidths.RawWidths | pdf3md/formatters/docx_formatter.py:256-259 | one raw width per weight; `RawWidthsFill` states that they share out the available width |
| ColumnWidths.Clamp | pdf3md/formatters/docx_formatter.py:261-269 | the raw width when within bounds, the minimum below it, the maximum above it |
| ColumnWidths.Trunc | pdf3md/formatters/docx_formatter.py:273 | Python's `int` on a float: truncation toward zero |
| ColumnWidths.TruncsSum | pdf3md/formatters/docx_formatter.py:273 | truncating non-negative widths loses less than one per width |
| ColumnWidths.Truncs | pdf3md/formatters/docx_formatter.py:273 | one width per input, each Python's `int` of it (truncation toward zero), in order |
| ColumnWidths.FinalWidthsFit | pdf3md/formatters/docx_formatter.py:271-273 | positive clamped widths rescale to whole widths summing to more than available − n and at most available |
| ColumnWidths.FinalWidths | pdf3md/formatters/docx_formatter.py:271-273 | one whole width per clamped width; `FinalWidthsFit` and `FinalWidthsOrdered` state the fill and the order |
| ColumnWidths.FinalWidthsOrdered | pdf3md/formatters/docx_formatter.py:271-273 | rescaling keeps the order of the clamped widths |
| ColumnWidths.Clamped | pdf3md/formatters/docx_formatter.py:256-269 | each clamped width is the clamp of its raw share between the column's minimum and the table's maximum |
| ColumnWidths.ClampedPositive | pdf3md/formatters/docx_formatter.py:261-269 | with positive bounds every clamped width is positive |
| ColumnWidths.AdjustWidthsFit | pdf3md/formatters/docx_formatter.py:178-278 | the widths of a table fill its available width short of less than one EMU per column and keep the order of the clamped widths |
| ColumnWidths.AdjustWidths | pdf3md/formatters/docx_formatter.py:178-273 | one whole width per column; `AdjustWidthsFit` states that they fill the available width and keep the order of the clamped widths |
| HeaderLabels.Rewrite | pdf3md/formatters/docx_formatter.py:343-371 | one test of the chain: on a match the paragraph is cleared and holds the label runs, otherwise it is unchanged |
| HeaderLabels.LabelRun | pdf3md/formatters/docx_formatter.py:345-347 | a run the rewrite adds carries the label text, bold, in 10 pt |
| HeaderLabels.RewriteAll | pdf3md/formatters/docx_formatter.py:343-371 | running the tests never changes the paragraph's style or properties |
| HeaderLabels.LastMatch | pdf3md/formatters/docx_formatter.py:343-371 | the last label whose test passes, None exactly when none does |
| HeaderLabels.RewriteAllIsLastMatch | pdf3md/formatters/docx_formatter.py:343-371 | running the five independent tests in order leaves the label of the last passing one |
| HeaderLabels.Relabel | pdf3md/formatters/docx_formatter.py:338-342 | a blank paragraph is skipped; style and properties are kept |
| HeaderLabels.RelabelText | pdf3md/formatters/docx_formatter.py:343-371 | a relabelled paragraph reads as its label and every run is bold 10 pt |
| HeaderLabels.RelabelReads | pdf3md/formatters/docx_formatter.py:338-371 | the text after relabelling depends only on the text before; runs are kept or all bold 10 pt |
| HeaderLabels.LabelIsOwnLastMatch | pdf3md/formatters/docx_formatter.py:343-371 | each label's own text selects that label again |
| HeaderLabels.LabelRunsText | pdf3md/formatters/docx_formatter.py:343-371 | the runs written for a label read as its text, all bold 10 pt, the Data label over two runs split by a line break |
| HeaderLabels.LastMatchOf | pdf3md/formatters/docx_formatter.py:343-371 | a label that matches and after which no test matches is the one that stays |
| HeaderLabels.BlockFixed | pdf3md/formatters/docx_formatter.py:343-347 | "Блок" relabels to itself |
| HeaderLabels.DeviceFixed | pdf3md/formatters/docx_formatter.py:348-352 | "Устройство" relabels to itself |
| HeaderLabels.FirstByteFixed | pdf3md/formatters/docx_formatter.py:353-357 | "1-й байт" relabels to itself |
| HeaderLabels.SecondByteFixed | pdf3md/formatters/docx_formatter.py:358-362 | "2-й байт" relabels to itself |
| HeaderLabels.DataFixed | pdf3md/formatters/docx_formatter.py:363-371 | the two-line Data label relabels to itself |
| HeaderLabels.RelabelIdempotent | pdf3md/formatters/docx_formatter.py:332-371 | relabelling twice is relabelling once |
| Document.SetAlign | pdf3md/formatters/docx_formatter.py:165 | the paragraph gets the alignment; runs, style, flags and borders are kept |
| Document.Clear | pdf3md/formatters/docx_cleaners.py:83 | `paragraph.clear()`: no text, no drawing, style and properties kept |
| Document.CellText | pdf3md/formatters/docx_formatter.py:457-470 | the cell text has no surrounding whitespace |
| Document.ParagraphText | pdf3md/formatters/docx_cleaners.py:51 | `paragraph.text`: the texts of the paragraph's runs joined in order (a definition; `HeadingSizesKeepText` and `FormatParagraph` state what keeps it) |
| Document.BlankCellText | pdf3md/formatters/docx_formatter.py:457-470 | a cell of blank paragraphs reads as "" |
| Document.SingleParagraphText | pdf3md/formatters/docx_formatter.py:457-470 | a one-paragraph cell reads as its stripped paragraph text |
| Document.ColumnTexts | pdf3md/formatters/docx_formatter.py:208-209 | the texts of column j, one per row |
| Document.CellTextSame | pdf3md/formatters/docx_formatter.py:457-470 | cells whose paragraphs read alike read alike |
| TableFormat.FormatParagraph | pdf3md/formatters/docx_formatter.py:159-165 | every run takes the table's size, header runs become bold, header paragraphs are centred; text is kept |
| TableFormat.FormatRun | pdf3md/formatters/docx_formatter.py:159-163 | a run keeps its text and field, takes the table's size, and is bold in the header row and otherwise keeps its boldness |
| TableFormat.FormatCell | pdf3md/formatters/docx_formatter.py:157-167 | every paragraph formatted, header cells centred vertically, text kept |
| TableFormat.FormatCells | pdf3md/formatters/docx_formatter.py:156-167 | the table keeps its shape, widths, style and autofit |
| TableFormat.FormatCellsAt | pdf3md/formatters/docx_formatter.py:156-167 | cell (i, j) is formatted as a header cell exactly when i is 0 |
| TableFormat.RelabelHeaderAt | pdf3md/formatters/docx_formatter.py:169-170 | only the first row is relabelled |
| TableFormat.RelabelHeader | pdf3md/formatters/docx_formatter.py:169-170 | the table keeps its shape, widths, style and autofit; `RelabelHeaderAt` states which cells change |
| TableFormat.Labelled | pdf3md/formatters/docx_formatter.py:150-170 | after styling, cell formatting and relabelling, the table has the "Table" style, autofit off and its shape |
| TableFormat.LabelledAt | pdf3md/formatters/docx_formatter.py:156-170 | each cell of that table is its input cell formatted, and relabelled exactly in row 0 |
| TableFormat.AlignColumnsAt | pdf3md/formatters/docx_formatter.py:281-307 | a cell is centred exactly when its column should be, and otherwise left as it is |
| TableFormat.AlignColumns | pdf3md/formatters/docx_formatter.py:281-307 | the table keeps its shape, widths, style and autofit; `AlignColumnsAt` states which cells are centred |
| TableFormat.HeaderTexts | pdf3md/formatters/docx_formatter.py:197-202 | the first row's texts, or "" per column for a table without rows |
| TableFormat.Columns | pdf3md/formatters/docx_formatter.py:206-209 | the column texts of every column |
| TableFormat.SetWidthsAt | pdf3md/formatters/docx_formatter.py:275-278 | every cell of column j gets the column's width |
| TableFormat.FormatTable | pdf3md/formatters/docx_formatter.py:129-175 | the table keeps its shape and gets the "Table" style with autofit off |
| TableFormat.FinalCell | pdf3md/formatters/docx_formatter.py:156-175 | a final cell has its paragraphs formatted, relabelled in the header, centred as decided, the column width, and reads as the labelled cell |
| TableFormat.AssembleAt | pdf3md/formatters/docx_formatter.py:156-175 | assembling places at (i, j) the final cell of the input cell with row 0 as header, column j's centring and width |
| TableFormat.FinalAt | pdf3md/formatters/docx_formatter.py:150-175 | each final cell is its input cell formatted, relabelled in row 0, centred as its column decides, with its column width |
| TableFormat.FormatTableAssembled | pdf3md/formatters/docx_formatter.py:150-175 | the whole table is assembled cell by cell from the table's decisions |
| TableFormat.CentringAt | pdf3md/formatters/docx_formatter.py:172-173 | column j is centred exactly when its texts after relabelling should be |
| TableFormat.FormatTableWidths | pdf3md/formatters/docx_formatter.py:275-278 | every column and each of its cells carry the same width |
| TableFormat.FormatTableFills | pdf3md/formatters/docx_formatter.py:271-278 | the widths written are whole twips, and for n columns their total lies above the available width less 318 n EMU and at most 317 n EMU beyond it: less than one EMU per column short before storing, then each moved by at most 317 EMU |
| TableFormat.Widths | pdf3md/formatters/docx_formatter.py:178-278 | one stored width per grid column; `FormatTableFills` bounds their total and `FormatTableWidths` places them |
| TableFormat.FormatTableAlignment | pdf3md/formatters/docx_formatter.py:164-167 | header paragraphs are centred and header cells centred vertically; body paragraphs are centred exactly when their column is, else keep their alignment |
| TableFormat.FormatTableBodyFonts | pdf3md/formatters/docx_formatter.py:159-161 | a body run keeps everything but takes the table's size |
| TableFormat.FormatTableHeaderFonts | pdf3md/formatters/docx_formatter.py:159-170 | every header run is bold, in the table's size or, when relabelled, 10 pt |
| TableFormat.LabelledTexts | pdf3md/formatters/docx_formatter.py:156-170 | body texts are kept; header paragraphs read as their relabelled text |
| TableFormat.AlignKeepsTexts | pdf3md/formatters/docx_formatter.py:281-307 | centring changes no text |
| TableFormat.FormatTableIdempotent | pdf3md/formatters/docx_formatter.py:129-175 | formatting a formatted table against the same width changes nothing |
| ColumnWidths.Twips | pdf3md/formatters/docx_formatter.py:44-52 | a length is stored as the nearest whole number of twips |
| ColumnWidths.StoredWidth | pdf3md/formatters/docx_formatter.py:275-278 | a column or cell width written in EMU reads back as a multiple of 635 EMU within 317 EMU of it |
| ColumnWidths.StoredSum | pdf3md/formatters/docx_formatter.py:275-278 | storing n widths moves their total by at most 317 n EMU |
| ColumnWidths.Stored | pdf3md/formatters/docx_formatter.py:275-278 | each width as written and read back: a multiple of 635 EMU within 317 EMU of the computed width |
| Formatter.StandardGeometryTwips | pdf3md/formatters/docx_formatter.py:44-52 | the eight lengths as stored: 12240, 15840, 432, 432, 1138, 475, 0 and 288 twips |
| Formatter.TwipsOf | pdf3md/formatters/docx_formatter.py:44-52 | a whole number of twips strictly nearest to a length is its stored value |
| Formatter.ApplyPageMargins | pdf3md/formatters/docx_formatter.py:38-52 | every section gets the standard geometry; nothing else changes |
| Formatter.ApplyPageMarginsIdempotent | pdf3md/formatters/docx_formatter.py:38-52 | a second application changes nothing |
| Formatter.AvailableWidth | pdf3md/formatters/docx_formatter.py:126-127 | defined exactly when the first section has width and both side margins, and then a whole number of twips |
| Formatter.AvailableAfterMargins | pdf3md/formatters/docx_formatter.py:44-52 | after the margins, tables get 6748145 EMU, within one twip of 8.5 − 0.79 − 0.33 in |
| Formatter.NumberParagraph | pdf3md/formatters/docx_formatter.py:67-86 | the paragraph is right-aligned and gains one page-field run at the end |
| Formatter.NumberFooter | pdf3md/formatters/docx_formatter.py:61-86 | the first footer paragraph, added when there is none, is right-aligned; the others are unchanged |
| Formatter.NumberParagraphFields | pdf3md/formatters/docx_formatter.py:69-86 | numbering adds one page field to a paragraph and keeps its text |
| Formatter.AddPageNumbers | pdf3md/formatters/docx_formatter.py:55-86 | fails exactly when some footer cannot be reached; otherwise numbers every footer and changes nothing else |
| Formatter.NumberFooterFields | pdf3md/formatters/docx_formatter.py:69-86 | each run adds exactly one page field to a footer |
| Formatter.NumberFooterTexts | pdf3md/formatters/docx_formatter.py:61-86 | the footer's texts are unchanged |
| Formatter.NumberFooterTwice | pdf3md/formatters/docx_formatter.py:69-86 | numbering twice adds two fields: the pass is not idempotent |
| Formatter.HeadingSizesDescend | pdf3md/formatters/docx_formatter.py:95-102 | the sizes of Heading 1 to Heading 6 (14, 12, 11, 10, 9 and 9 pt) never grow with the level |
| Formatter.SizeRuns | pdf3md/formatters/docx_formatter.py:110-114 | every run takes the size; text, style, properties and flags are kept |
| Formatter.HeadingParagraph | pdf3md/formatters/docx_formatter.py:110-114 | a paragraph whose style is a heading the document defines has its runs take its level's size; any other paragraph, including one naming a heading style the document lacks, is unchanged |
| Formatter.ApplyHeadingSizes | pdf3md/formatters/docx_formatter.py:89-114 | the six heading styles present get their sizes, other styles and the rest of the document are kept, and each body paragraph is resized by its style when the document defines that style |
| Formatter.HeadingSizesKeepText | pdf3md/formatters/docx_formatter.py:110-114 | resizing keeps the text and only touches paragraphs styled with a heading the document defines |
| Formatter.ApplyHeadingSizesIdempotent | pdf3md/formatters/docx_formatter.py:89-114 | a second application changes nothing |
| Formatter.HeadingParagraphTwice | pdf3md/formatters/docx_formatter.py:110-114 | resizing a heading paragraph twice is resizing it once |
| Formatter.FormatTables | pdf3md/formatters/docx_formatter.py:117-175 | nothing to do without tables; fails exactly when there are tables and either no measurable first section or no style named "Table"; otherwise every table is formatted against the first section's available width |
| Formatter.FormatTablesIdempotent | pdf3md/formatters/docx_formatter.py:117-175 | a second application changes nothing |
| Formatter.Cleaned | pdf3md/formatters/docx_formatter.py:27-30 | after the cleaners and the margins every section has the standard geometry, keeps whether its footer can be reached, and the tables and styles are unchanged |
| Formatter.NumberingFails | pdf3md/formatters/docx_formatter.py:27-31 | numbering the cleaned document fails exactly when some footer cannot be reached |
| Formatter.StandardAvailable | pdf3md/formatters/docx_formatter.py:126-127 | a first section with the standard geometry leaves 6748145 EMU for tables |
| Formatter.ApplyDocxFormattingFails | pdf3md/formatters/docx_formatter.py:17-35 | the run fails exactly when some footer cannot be reached, or there are tables but no section or no "Table" style |
| Formatter.ApplyDocxFormatting | pdf3md/formatters/docx_formatter.py:17-35 | the seven passes in the source's order, `None` when one raises; a run that succeeds keeps the number of sections and tables and the set of style names. When it fails is stated by `ApplyDocxFormattingFails`, what it does to tables and body by `ApplyDocxFormattingTables` and `ApplyDocxFormattingBody` |
| Formatter.ApplyDocxFormattingTables | pdf3md/formatters/docx_formatter.py:17-35 | a successful run formats every table against 6748145 EMU and gives every section the standard geometry |
| Formatter.ApplyDocxFormattingBody | pdf3md/formatters/docx_formatter.py:27-31 | after a successful run the body has no rule and no shape line, and every footer is numbered |
| Formatter.CallFormatting | pdf3md/formatters/docx_formatter.py:17 | a call with other than one argument fails before any pass |
| Formatter.PostProcess | pdf3md/converters/docx_converter.py:58-61 | a failure is swallowed and the unformatted document kept |
| Formatter.ConverterAsWritten | pdf3md/converters/docx_converter.py:58-61 | as written, the converter returns every document unformatted |
| Formatter.ConverterCorrected | pdf3md/converters/docx_converter.py:58-61 | with the one-argument call, the converter returns the formatted document whenever formatting succeeds, and the document unchanged when formatting fails |
| Formatter.ConverterDiscrepancy | pdf3md/converters/docx_converter.py:58-61 | a one-section document that the corrected call changes and the call as written does not |
| Seqs.Filter | pdf3md/formatters/docx_cleaners.py:71-73 | no longer than its input; every survivor comes from the input and is accepted, and every accepted element survives |
| Seqs.FilterSubsequence | pdf3md/formatters/docx_cleaners.py:71-73 | the survivors keep their order: a strictly increasing map of positions takes them into the input |
| Seqs.FilterMultiset | pdf3md/formatters/docx_cleaners.py:71-73 | an accepted value survives exactly as often as it occurs; any other value not at all |
| Text.Strip | pdf3md/formatters/docx_cleaners.py:51 | `str.strip()`: a slice of the input with only whitespace before and after it, whose first and last characters are not whitespace; empty exactly when the input is all whitespace; the input itself when it holds no whitespace |
| Text.Lower | pdf3md/formatters/docx_formatter.py:221 | `str.lower()`: same length, each character lower-cased on its own |

## Left out

- File and directory I/O are not modelled. Profiles live in a map from file
  name to parsed JSON or "unreadable", and `glob`'s order is a parameter.
  Logging, `doc.save` and Pandoc are also left out.
- The environment lookup in `get_cors_origins` is a parameter.
- `Cors.CorsOrigins`: the result is a set, so the order of `list(set(...))`,
  which Python does not fix, is not modelled.
- The git, file-rewriting and printing steps of `scripts/update_version.py` are
  not modelled. `cmd_sync` reports what it would sync; `_current_version` is a
  parameter.
- `SemVer.Parse`: `\d` is read as the ASCII digits. Python also accepts other
  Unicode decimal digits there.
- `Text.Lower` covers ASCII and the basic Cyrillic alphabet (with Ё). Other
  Unicode case mappings are not modelled. `Text.IsSpace`, used by
  `Text.Strip`, is Python's full `str.isspace` set.
- `ProfileStore.KeepSafe`: `str.isalnum` is read as the ASCII letters and
  digits plus the basic Cyrillic block (U+0400–U+0481, U+048A–U+04FF). Python
  keeps every Unicode letter and digit: "Café" keeps its "é" in Python but not
  in the model.
- `ProfileStore.SlugStem`: it inherits that alphabet, so its results, and
  which names share a file, are stated for that alphabet only. "报告" and
  "表格" both map to ".json" in the model, but to different files in Python.
- `TableLayout.IsNumericLike`: `\d` in the signed-decimal pattern is read as
  the ASCII digits. Python's `re` also accepts other Unicode decimal digits,
  such as "٣"; the model calls such text not numeric.
- Floats are exact reals. Column weights, raw and clamped widths, and the
  rescaling factor carry no binary rounding.
- `FileSize.FormatFileSize`: `.1f` is modelled as round-half-even of the exact
  quotient. That matches Python for every size below 2^53, where size/1024 and
  size/1048576 are exact binary fractions.
- `FileSize.RoundHalfEven`, `ProfileSchema.Validate` and
  `Formatter.ApplyDocxFormatting` carry no contract of their own. Their
  properties are stated by `FileSize.RoundHalfEvenNearest`,
  `ProfileSchema.ValidateStrictIffConforms` / `ValidIffNoStop` and the
  `Formatter.ApplyDocxFormatting*` lemmas.
- Page geometry and table column and cell widths are stored as whole twips
  (1/1440 in, 635 EMU), as the Word file keeps them. The available width of a table is therefore read back after
  rounding (6748145 EMU rather than the exact 6748272).
- `set_table_borders` and `set_cell_borders` (docx_formatter.py:408-454) write
  constant XML attributes and are not modelled.
- Style objects are a map from style name to an optional size. Style
  inheritance and the truthiness of `style.font` are not modelled.
- `Formatter.HeadingParagraph`: a paragraph with no style, or with a style the
  document does not define, reads in python-docx as the default paragraph
  style. The model takes that style to be no heading; a document whose default
  paragraph style is a heading is not modelled.
- A section's parts are either reachable or raise. A linked part's paragraphs
  stand for what its section shows. A footer that is still linked when page
  numbers are added is numbered through those paragraphs; python-docx would
  write to the previous section's footer. This happens when the header's
  unlink raised, so the footer's unlink was skipped.
- `Formatter.AddPageNumbers`: a footer whose unlink raises is encoded as
  `None`, which the model reads as a footer that cannot be reached, so the run
  fails. In python-docx this holds only for a footer that has no earlier
  definition. A later section's linked footer whose unlink raises (the footer
  template is missing) is read through the previous section's footer. The
  cleaners catch that raise, `add_page_numbers` numbers the previous
  section's footer a second time, and the run completes.
- `Formatter.NumberingFails`: inherits the case above and states a failure for
  a document whose only unreachable footer is a later section's linked one;
  python-docx numbers that document.
- `Formatter.ApplyDocxFormattingFails`: inherits the same case; the whole
  formatting pass is stated to fail where python-docx completes it.
- `TableFormat.FormatTable`: a negative available width (margins wider than
  the page) is not modelled as an error. python-docx refuses to store a
  negative twips value, but the model stores the rounded negative widths. The
  run sets the standard margins first, so it never meets this case.
- `Formatter.FormatTables`: a "Table" style that exists but is not a table
  style raises `ValueError` in python-docx. Styles carry no type in the
  model, so this failure is not modelled.
- The cells of merged table regions are not modelled: tables are rectangular
  grids (`Formatter.AllRectangular`).
- `Formatter.FormatTables`: the header-row check `if header_row` is true for
  every table with rows. A table without rows is formatted with empty headers.
- The JSON text encoding (`json.load`/`json.dump`) is not modelled. Stored
  profiles are JSON values; a file that does not parse is "unreadable".
- `ProfileStore.ListProfiles`: Python's sort raises when two names cannot be
  compared (a string and a number). That is the modelled error. Only
  string–string and number–number pairs are comparable in the model. Python
  also orders two list names element by element, so a listing with two array
  names raises in the model but may sort in Python. Among equal
  names, the stable order of the sort is not stated; the result is a sorted
  permutation.
- `validate_profile` never modifies its input. In the model this holds by
  construction, because values are immutable.

## Findings

| source | as written | input that shows it | evidently intended | confidence | as-written member | corrected member |
|---|---|---|---|---|---|---|
| pdf3md/formatters/profile_manager.py:163-175 | the default profile is protected by comparing `name.lower()` with "default", but the file removed is chosen from the sanitised name | `delete_profile("default!")`: the guard passes, and the slug is `default`, so default.json is unlinked | no name deletes default.json | not executed | ProfileStore.DeleteAsWritten | ProfileStore.Delete |
| pdf3md/converters/docx_converter.py:58-61 | the converter calls `apply_docx_formatting(temp_docx_path, profile)`, but the function takes only a path (docx_formatter.py:17); the `TypeError` is caught and logged | any conversion, e.g. a document with one section whose header and footer are reachable: its footer never gets a page number | the formatter runs on the converted document | not executed | Formatter.ConverterAsWritten | Formatter.ConverterCorrected |

`ProfileStore.DeleteAsWrittenRemovesDefault` exhibits the first discrepancy
and `ProfileStore.DeleteKeepsDefault` proves the corrected guard.
`Formatter.ConverterDiscrepancy` exhibits the second on a one-section document.
