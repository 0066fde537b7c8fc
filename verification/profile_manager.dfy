/** The profile store (pdf3md/formatters/profile_manager.py): profiles are
    JSON files in one directory, one file per profile, named after a slug of
    the profile's name. The directory is a map from file name to what reading
    that file gives; saving, deleting and duplicating return the new map. */
module ProfileStore {
  import opened Wrappers
  import opened Text
  import opened JsonValue
  import opened ProfileSchema

  /** What `json.load` makes of a file: a value, or an error (unreadable
      file, malformed JSON). */
  datatype Stored = Parsed(data: Json) | Unreadable

  /** The storage directory: file name to file contents. */
  type Store = map<string, Stored>

  /** One line of the profile listing. */
  datatype Info = Info(name: Json, description: Json, version: Json)

  // ---------------------------------------------------------------------------
  // File names
  // ---------------------------------------------------------------------------

  /** The characters the file-name sanitiser keeps. */
  predicate SafeChar(c: char) {
    IsAlnum(c) || c == ' ' || c == '-' || c == '_'
  }

  /** The kept characters of `s`, in order. */
  function KeepSafe(s: string): (r: string)
    ensures |r| <= |s|
    ensures forall k :: 0 <= k < |r| ==> SafeChar(r[k])
    ensures (forall k :: 0 <= k < |s| ==> SafeChar(s[k])) ==> r == s
  {
    if |s| == 0 then ""
    else if SafeChar(s[0]) then [s[0]] + KeepSafe(s[1..])
    else KeepSafe(s[1..])
  }

  /** The stem of a profile's file name: the kept characters, lower-cased,
      with spaces turned into underscores. */
  function SlugStem(name: string): (r: string)
    ensures forall k :: 0 <= k < |r| ==> SafeChar(r[k]) && r[k] != ' ' && LowerChar(r[k]) == r[k]
  {
    var kept := KeepSafe(name);
    var r := ReplaceChar(Lower(kept), ' ', '_');
    forall k | 0 <= k < |r|
      ensures SafeChar(r[k]) && r[k] != ' ' && LowerChar(r[k]) == r[k]
    {
      LowerCharIdempotent(kept[k]);
    }
    r
  }

  /** `_get_profile_path(name)`, as a file name inside the storage directory. */
  function ProfileFile(name: string): string {
    SlugStem(name) + ".json"
  }

  lemma LowerSafe(c: char)
    ensures SafeChar(LowerChar(c)) == SafeChar(c)
    ensures LowerChar(c) == ' ' <==> c == ' '
  {
  }

  /** Sanitising commutes with lower-casing. */
  lemma {:induction false} KeepSafeLower(s: string)
    ensures KeepSafe(Lower(s)) == Lower(KeepSafe(s))
    decreases |s|
  {
    if |s| > 0 {
      KeepSafeLower(s[1..]);
      LowerSafe(s[0]);
      LowerSplit(s);
      if SafeChar(s[0]) {
        LowerCons(s[0], KeepSafe(s[1..]));
      }
    }
  }

  lemma LowerSplit(s: string)
    requires |s| > 0
    ensures Lower(s)[0] == LowerChar(s[0]) && Lower(s)[1..] == Lower(s[1..])
  {
  }

  lemma LowerCons(c: char, s: string)
    ensures Lower([c] + s) == [LowerChar(c)] + Lower(s)
  {
  }

  /** Names that differ only in letter case share a file. */
  lemma SlugIgnoresCase(name: string)
    ensures ProfileFile(Lower(name)) == ProfileFile(name)
  {
    KeepSafeLower(name);
    LowerIdempotent(KeepSafe(name));
  }

  /** A stem is its own stem: saving a profile named after a file's stem
      writes that same file. */
  lemma SlugStemFixed(name: string)
    ensures SlugStem(SlugStem(name)) == SlugStem(name)
  {
    var r := SlugStem(name);
    assert KeepSafe(r) == r;
    assert Lower(r) == r;
  }

  /** Every name that lower-cases to `default` maps to `default.json`. */
  lemma LowerDefaultFile(name: string)
    requires Lower(name) == "default"
    ensures ProfileFile(name) == "default.json"
  {
    forall k | 0 <= k < |name|
      ensures SafeChar(name[k])
    {
      assert IsAlnum(LowerChar(name[k]));
    }
    assert KeepSafe(name) == name;
    assert ReplaceChar(Lower(name), ' ', '_') == "default";
  }

  /** The default profile is stored as `default.json`. */
  lemma DefaultFile()
    ensures ProfileFile("Default") == "default.json"
  {
    assert Lower("Default") == "default";
    LowerDefaultFile("Default");
  }

  // ---------------------------------------------------------------------------
  // Loading and saving
  // ---------------------------------------------------------------------------

  /** `load_profile(name)`: nothing when the file is missing or unreadable or
      its contents fail strict validation (a validator exception included);
      otherwise the contents merged with the defaults. */
  function Load(store: Store, name: string): (r: Option<map<string, Json>>)
    ensures var f := ProfileFile(name);
      r.Some? <==> f in store && store[f].Parsed? && Conforms(store[f].data)
    ensures r.Some? ==> Conforms(JObj(r.value)) && DefaultFields.Keys <= r.value.Keys
  {
    var f := ProfileFile(name);
    if f !in store then None
    else match store[f]
      case Unreadable => None
      case Parsed(d) =>
        ValidateStrictIffConforms(d);
        if Validate(d, true) == Valid then
          MergedConforms(d);
          Some(MergeWithDefaults(d.fields))
        else None
  }

  /** A profile strict validation accepts still conforms once merged with
      the defaults, and holds every default key. */
  lemma MergedConforms(d: Json)
    requires Validate(d, true) == Valid
    ensures d.JObj? && Conforms(JObj(MergeWithDefaults(d.fields))) && DefaultFields.Keys <= MergeWithDefaults(d.fields).Keys
  {
    ValidateStrictIffConforms(d);
    MergeKeepsValid(d.fields);
    ValidateStrictIffConforms(JObj(MergeWithDefaults(d.fields)));
  }

  /** A loaded profile holds every default key, so it is never empty and the
      caller's falsy test of a loaded profile never fires. */
  lemma LoadedNonEmpty(store: Store, name: string)
    requires Load(store, name).Some?
    ensures Load(store, name).value != map[]
  {
    DefaultSections();
    assert "name" in Load(store, name).value;
  }

  /** `save_profile(profile_data)`: a profile strict validation rejects is
      not written; one whose validation raises propagates the exception; a
      valid one is written to the file named after it, replacing whatever
      was there. */
  function Save(store: Store, p: Json): (r: (Reply<bool>, Store))
    ensures r.0 == Throw <==> Validate(p, true) == Raised
    ensures r.0 == Return(true) <==> Conforms(p)
    ensures r.0 == Return(true) ==> r.1 == store[ProfileFile(p.fields["name"].s) := Parsed(p)]
    ensures r.0 != Return(true) ==> r.1 == store
  {
    ValidateStrictIffConforms(p);
    match Validate(p, true)
    case Raised => (Throw, store)
    case Invalid(_) => (Return(false), store)
    case Valid =>
      ValidHasName(p, true);
      (Return(true), store[ProfileFile(p.fields["name"].s) := Parsed(p)])
  }

  /** The name test that follows validation in the source never fails: a
      profile strict validation accepts has a non-empty string name. */
  lemma SavedNameTruthy(p: Json)
    requires Validate(p, true) == Valid
    ensures p.JObj? && "name" in p.fields && Truthy(p.fields["name"])
  {
    ValidHasName(p, true);
  }

  /** What is saved loads back, merged with the defaults, under its own name
      and under every name with the same slug. */
  lemma SaveThenLoad(store: Store, p: Json, name: string)
    requires Save(store, p).0 == Return(true)
    requires ProfileFile(name) == ProfileFile(p.fields["name"].s)
    ensures Load(Save(store, p).1, name) == Some(MergeWithDefaults(p.fields))
  {
    ValidateStrictIffConforms(p);
  }

  /** Saving touches one file only. */
  lemma SaveTouchesOneFile(store: Store, p: Json, f: string)
    requires f in store
    requires Save(store, p).0 != Return(true) || f != ProfileFile(p.fields["name"].s)
    ensures f in Save(store, p).1 && Save(store, p).1[f] == store[f]
  {
  }

  // ---------------------------------------------------------------------------
  // Deleting
  // ---------------------------------------------------------------------------

  /** `delete_profile(name)` as written: the guard compares the lower-cased
      name with `default`, but the file removed is named after the
      sanitised name. */
  function DeleteAsWritten(store: Store, name: string): (r: (bool, Store))
    ensures r.0 <==> Lower(name) != "default" && ProfileFile(name) in store
    ensures r.0 ==> r.1 == store - {ProfileFile(name)}
    ensures !r.0 ==> r.1 == store
  {
    if Lower(name) == "default" then (false, store)
    else if ProfileFile(name) !in store then (false, store)
    else (true, store - {ProfileFile(name)})
  }

  /** A name with punctuation slips past the guard and removes the default
      profile's file. */
  lemma DeleteAsWrittenRemovesDefault(store: Store)
    requires "default.json" in store
    ensures DeleteAsWritten(store, "default!").0
    ensures "default.json" !in DeleteAsWritten(store, "default!").1
  {
    BangPassesGuard("default!");
    BangIsDefaultFile("default!");
  }

  lemma BangPassesGuard(name: string)
    requires name == "default!"
    ensures Lower(name) != "default"
  {
    assert |Lower(name)| == 8;
  }

  lemma BangIsDefaultFile(name: string)
    requires name == "default!"
    ensures ProfileFile(name) == "default.json"
  {
    assert name == "default" + ['!'];
    KeepSafeDropsUnsafe("default", '!');
    PlainDefaultFile("default");
  }

  lemma PlainDefaultFile(name: string)
    requires name == "default"
    ensures KeepSafe(name) == name && ProfileFile(name) == "default.json"
  {
    assert Lower(name) == "default";
    LowerDefaultFile(name);
  }

  lemma {:induction false} KeepSafeDropsUnsafe(s: string, c: char)
    requires !SafeChar(c)
    ensures KeepSafe(s + [c]) == KeepSafe(s)
    decreases |s|
  {
    if |s| == 0 {
      assert KeepSafe([c]) == KeepSafe([c][1..]);
    } else {
      assert (s + [c])[1..] == s[1..] + [c];
      KeepSafeDropsUnsafe(s[1..], c);
    }
  }

  /** `delete_profile(name)` with the guard applied to the file the name
      maps to: the default profile's file is never removed. */
  function Delete(store: Store, name: string): (r: (bool, Store))
    ensures r.0 <==> ProfileFile(name) != "default.json" && ProfileFile(name) in store
    ensures r.0 ==> r.1 == store - {ProfileFile(name)}
    ensures !r.0 ==> r.1 == store
  {
    var f := ProfileFile(name);
    if f == "default.json" then (false, store)
    else if f !in store then (false, store)
    else (true, store - {f})
  }

  /** The default profile survives every deletion. */
  lemma DeleteKeepsDefault(store: Store, name: string)
    requires "default.json" in store
    ensures "default.json" in Delete(store, name).1
    ensures Delete(store, name).1["default.json"] == store["default.json"]
  {
  }

  /** The corrected guard refuses every name the original guard refuses, and
      otherwise behaves as the original does. */
  lemma DeleteRefinesAsWritten(store: Store, name: string)
    ensures Lower(name) == "default" ==> Delete(store, name) == DeleteAsWritten(store, name)
    ensures ProfileFile(name) != "default.json" ==> Delete(store, name) == DeleteAsWritten(store, name)
  {
    if Lower(name) == "default" {
      LowerDefaultFile(name);
    } else if ProfileFile(name) != "default.json" {
    }
  }

  // ---------------------------------------------------------------------------
  // Duplicating, the default profile
  // ---------------------------------------------------------------------------

  /** `duplicate_profile(source_name, new_name)`: load the source, rename it,
      describe it as a copy and save it. An existing profile of the new name
      is overwritten. */
  function Duplicate(store: Store, source: string, newName: string): (r: (Reply<bool>, Store))
    ensures r.0 != Throw
    ensures r.0 == Return(true) <==> Load(store, source).Some? && Strip(newName) != ""
  {
    match Load(store, source)
    case None => (Return(false), store)
    case Some(m) =>
      SaveCopy(store, m, newName, source);
      Save(store, Copy(m, newName, source))
  }

  /** Saving a renamed copy of a conforming profile never raises and
      succeeds exactly when the new name is not blank. */
  lemma SaveCopy(store: Store, m: map<string, Json>, newName: string, source: string)
    requires Conforms(JObj(m))
    ensures Save(store, Copy(m, newName, source)).0 != Throw
    ensures Save(store, Copy(m, newName, source)).0 == Return(true) <==> Strip(newName) != ""
  {
    CopyConforms(m, newName, source);
  }

  /** A renamed copy of a conforming profile conforms exactly when the new
      name is not blank, and validating it never raises. */
  lemma CopyConforms(m: map<string, Json>, newName: string, source: string)
    requires Conforms(JObj(m))
    ensures Validate(Copy(m, newName, source), true) != Raised
    ensures Conforms(Copy(m, newName, source)) <==> Strip(newName) != ""
  {
    Renamed(m, newName, "Copy of " + source);
    if Strip(newName) == "" {
      CopyBlankRejected(m, newName, source);
    } else {
      ValidateStrictIffConforms(Copy(m, newName, source));
    }
  }

  lemma CopyBlankRejected(m: map<string, Json>, newName: string, source: string)
    requires Conforms(JObj(m)) && Strip(newName) == ""
    ensures Validate(Copy(m, newName, source), true) == Invalid("Profile name must be a non-empty string")
  {
    var c := Copy(m, newName, source);
    CopyKeepsRequired(m, newName, source);
    BadNameRejected(c, true);
  }

  /** A copy of a dict holding the required fields holds them too, with
      the new name. */
  lemma CopyKeepsRequired(m: map<string, Json>, newName: string, source: string)
    requires "name" in m && "version" in m && "page" in m && "fonts" in m && "headings" in m && "tables" in m
    ensures var c := Copy(m, newName, source);
      c.fields["name"] == JStr(newName)
      && forall k :: 0 <= k < |RequiredFields| ==> RequiredFields[k] in c.fields
  {
  }

  /** The profile a duplicate writes. */
  function Copy(m: map<string, Json>, newName: string, source: string): Json {
    JObj(m["name" := JStr(newName)]["description" := JStr("Copy of " + source)])
  }

  /** A successful duplicate loads back under the new name with the source's
      settings. */
  lemma DuplicateThenLoad(store: Store, source: string, newName: string)
    requires Duplicate(store, source, newName).0 == Return(true)
    ensures var m := Load(store, source).value;
      Load(Duplicate(store, source, newName).1, newName) == Some(MergeWithDefaults(Copy(m, newName, source).fields))
  {
    DuplicateSaves(store, source, newName);
    var m := Load(store, source).value;
    CopyName(m, newName, source);
    SaveThenLoad(store, Copy(m, newName, source), newName);
  }

  /** A successful duplicate is the save of the renamed copy. */
  lemma DuplicateSaves(store: Store, source: string, newName: string)
    requires Duplicate(store, source, newName).0 == Return(true)
    ensures Load(store, source).Some?
    ensures var c := Copy(Load(store, source).value, newName, source);
      Duplicate(store, source, newName) == Save(store, c)
  {
  }

  lemma CopyName(m: map<string, Json>, newName: string, source: string)
    ensures Copy(m, newName, source).fields["name"] == JStr(newName)
  {
  }

  /** `get_default_profile()`: the stored default profile, or the built-in
      one when it cannot be loaded. */
  function GetDefault(store: Store): (r: Json)
    ensures Conforms(r)
  {
    match Load(store, "default")
    case Some(m) => JObj(m)
    case None => DefaultConforms(); Default
  }

  /** `_ensure_default_profile()`: write the built-in default profile when
      `default.json` is missing. */
  function EnsureDefault(store: Store): (r: Store)
    ensures "default.json" in r
    ensures "default.json" in store ==> r == store
  {
    if "default.json" in store then store
    else
      SaveDefault(store);
      Save(store, Default).1
  }

  /** The built-in default profile is saved to `default.json`. */
  lemma SaveDefault(store: Store)
    ensures Save(store, Default).0 == Return(true)
    ensures Save(store, Default).1 == store["default.json" := Parsed(Default)]
  {
    DefaultConforms();
    DefaultFile();
    DefaultSections();
  }

  /** Once a conforming profile is stored as `default.json`, it is the
      default profile, merged with the built-in one. */
  lemma GetDefaultAfterSave(store: Store, p: Json)
    requires Conforms(p)
    requires ProfileFile(p.fields["name"].s) == "default.json"
    ensures GetDefault(Save(store, p).1) == JObj(MergeWithDefaults(p.fields))
  {
    DefaultLowerFile();
    SaveThenLoad(store, p, "default");
  }

  lemma DefaultLowerFile()
    ensures ProfileFile("default") == "default.json"
  {
    assert Lower("default") == "default";
    LowerDefaultFile("default");
  }

  /** On a fresh directory the default profile is the built-in one. */
  lemma FreshDefault(store: Store)
    requires "default.json" !in store
    ensures GetDefault(EnsureDefault(store)) == Default
  {
    SaveDefault(store);
    DefaultConforms();
    DefaultFile();
    DefaultSections();
    GetDefaultAfterSave(store, Default);
    MergeSelf(DefaultFields);
  }

  // ---------------------------------------------------------------------------
  // Listing
  // ---------------------------------------------------------------------------

  predicate EndsJson(f: string) {
    |f| >= 5 && f[|f| - 5..] == ".json"
  }

  /** The files `glob("*.json")` yields from the store, in some directory
      order: every stored file whose name ends in `.json`, each once. */
  predicate Listing(store: Store, files: seq<string>) {
    && (forall i :: 0 <= i < |files| ==> files[i] in store && EndsJson(files[i]))
    && (forall f :: f in store && EndsJson(f) ==> f in files)
    && (forall i, j :: 0 <= i < j < |files| ==> files[i] != files[j])
  }

  /** Every profile file name ends in `.json`. */
  lemma ProfileFileEndsJson(name: string)
    ensures EndsJson(ProfileFile(name))
  {
    var f := ProfileFile(name);
    assert f[|f| - 5..] == ".json";
  }

  /** `Path(f).stem` for a file name ending in `.json`; a name that is only
      `.json` is a hidden file without a suffix. */
  function Stem(f: string): string
    requires EndsJson(f)
  {
    if |f| == 5 then f else f[..|f| - 5]
  }

  /** The listing line of one file, if it has one: unreadable files and files
      holding something other than an object are skipped. */
  function InfoOf(f: string, s: Stored): (r: Option<Info>)
    requires EndsJson(f)
    ensures r.Some? <==> s.Parsed? && s.data.JObj?
  {
    match s
    case Parsed(JObj(fs)) =>
      Some(Info(Get(fs, "name", JStr(Stem(f))), Get(fs, "description", JStr("")), Get(fs, "version", JStr("1.0"))))
    case _ => None
  }

  /** A listing line shows the stored name, description and version, and in
      their absence the file stem, an empty description and "1.0". */
  lemma ListedDefaults(f: string, fs: map<string, Json>)
    requires EndsJson(f)
    ensures var line := InfoOf(f, Parsed(JObj(fs))).value;
      && line.name == (if "name" in fs then fs["name"] else JStr(Stem(f)))
      && line.description == (if "description" in fs then fs["description"] else JStr(""))
      && line.version == (if "version" in fs then fs["version"] else JStr("1.0"))
  {
  }

  /** The listing lines of the files, in directory order. */
  function Collect(store: Store, files: seq<string>): (r: seq<Info>)
    requires forall i :: 0 <= i < |files| ==> files[i] in store && EndsJson(files[i])
    ensures |r| <= |files|
  {
    if |files| == 0 then []
    else
      var rest := Collect(store, files[1..]);
      match InfoOf(files[0], store[files[0]])
      case Some(info) => [info] + rest
      case None => rest
  }

  /** Every file holding an object contributes its line. */
  lemma {:induction false} CollectHas(store: Store, files: seq<string>, i: nat)
    requires forall j :: 0 <= j < |files| ==> files[j] in store && EndsJson(files[j])
    requires i < |files| && store[files[i]].Parsed? && store[files[i]].data.JObj?
    ensures InfoOf(files[i], store[files[i]]).value in Collect(store, files)
    decreases i
  {
    if i > 0 {
      CollectHas(store, files[1..], i - 1);
    }
  }

  /** Profile names are compared with Python's `<`: strings with strings,
      numbers (booleans included) with numbers; any other pair raises. */
  predicate Numeric(v: Json) {
    v.JInt? || v.JReal? || v.JBool?
  }

  function NumericValue(v: Json): real
    requires Numeric(v)
  {
    match v
    case JInt(i) => i as real
    case JReal(x) => x
    case JBool(b) => if b then 1.0 else 0.0
  }

  predicate Comparable(a: Json, b: Json) {
    (a.JStr? && b.JStr?) || (Numeric(a) && Numeric(b))
  }

  /** Python's `a <= b` on two comparable names. */
  predicate NameLe(a: Json, b: Json) {
    if a.JStr? && b.JStr? then StrLe(a.s, b.s)
    else if Numeric(a) && Numeric(b) then NumericValue(a) <= NumericValue(b)
    else true
  }

  lemma NameLeTotal(a: Json, b: Json)
    requires Comparable(a, b)
    ensures NameLe(a, b) || NameLe(b, a)
  {
    if a.JStr? {
      StrLeTotal(a.s, b.s);
    }
  }

  /** Every two lines' names compare; otherwise the sort raises. */
  predicate AllComparable(xs: seq<Info>) {
    forall i, j :: 0 <= i < |xs| && 0 <= j < |xs| && i != j ==> Comparable(xs[i].name, xs[j].name)
  }

  /** Ascending by name, each line against the next. */
  predicate SortedByName(xs: seq<Info>) {
    forall i :: 0 <= i < |xs| - 1 ==> NameLe(xs[i].name, xs[i + 1].name)
  }

  /** Insert `x` before the first line it does not follow. */
  function Insert(x: Info, s: seq<Info>): (r: seq<Info>)
    requires SortedByName(s)
    requires forall i :: 0 <= i < |s| ==> Comparable(x.name, s[i].name)
    ensures |r| == |s| + 1
    ensures multiset(r) == multiset(s) + multiset{x}
    ensures forall y :: y in r ==> y == x || y in s
    ensures |s| > 0 ==> r[0] == x || r[0] == s[0]
    ensures SortedByName(r)
  {
    if |s| == 0 then [x]
    else if NameLe(x.name, s[0].name) then [x] + s
    else
      NameLeTotal(x.name, s[0].name);
      var t := Insert(x, s[1..]);
      assert s == [s[0]] + s[1..];
      [s[0]] + t
  }

  /** `list.sort(key=name)`: stable insertion of each line into the sorted
      rest. */
  function SortByName(xs: seq<Info>): (r: seq<Info>)
    requires AllComparable(xs)
    ensures multiset(r) == multiset(xs)
    ensures forall y :: y in r ==> y in xs
    ensures SortedByName(r)
  {
    if |xs| == 0 then []
    else
      AllComparableTail(xs);
      var rest := SortByName(xs[1..]);
      HeadComparable(xs, rest);
      assert xs == [xs[0]] + xs[1..];
      Insert(xs[0], rest)
  }

  lemma AllComparableTail(xs: seq<Info>)
    requires |xs| > 0 && AllComparable(xs)
    ensures AllComparable(xs[1..])
  {
    forall i, j | 0 <= i < |xs| - 1 && 0 <= j < |xs| - 1 && i != j
      ensures Comparable(xs[1..][i].name, xs[1..][j].name)
    {
      assert xs[1..][i] == xs[i + 1] && xs[1..][j] == xs[j + 1];
    }
  }

  lemma HeadComparable(xs: seq<Info>, rest: seq<Info>)
    requires |xs| > 0 && AllComparable(xs)
    requires forall y :: y in rest ==> y in xs[1..]
    ensures forall i :: 0 <= i < |rest| ==> Comparable(xs[0].name, rest[i].name)
  {
    forall i | 0 <= i < |rest|
      ensures Comparable(xs[0].name, rest[i].name)
    {
      assert rest[i] in xs[1..];
      var j :| 0 <= j < |xs| - 1 && xs[1..][j] == rest[i];
      assert xs[j + 1] == rest[i];
    }
  }

  /** `list_profiles()`: the listing lines of the `*.json` files, sorted by
      name; the sort raises when two names cannot be compared. The directory
      order of the files is a parameter. */
  function ListProfiles(store: Store, files: seq<string>): (r: Reply<seq<Info>>)
    requires Listing(store, files)
    ensures r.Return? <==> AllComparable(Collect(store, files))
    ensures r.Return? ==> multiset(r.value) == multiset(Collect(store, files))
    ensures r.Return? ==> SortedByName(r.value)
  {
    var lines := Collect(store, files);
    if AllComparable(lines) then Return(SortByName(lines)) else Throw
  }

  /** A profile that was saved shows up in every complete listing, under its
      own name. */
  lemma SavedIsListed(store: Store, p: Json, files: seq<string>)
    requires Save(store, p).0 == Return(true)
    requires Listing(Save(store, p).1, files)
    requires ListProfiles(Save(store, p).1, files).Return?
    ensures exists line :: line in ListProfiles(Save(store, p).1, files).value && line.name == p.fields["name"]
  {
    ValidateStrictIffConforms(p);
    ProfileFileEndsJson(p.fields["name"].s);
    StoredIsListed(Save(store, p).1, p, files, ProfileFile(p.fields["name"].s));
  }

  /** A file holding an object with a name shows up in every complete
      listing under that name. */
  lemma StoredIsListed(s: Store, p: Json, files: seq<string>, f: string)
    requires Listing(s, files)
    requires f in s && EndsJson(f) && s[f] == Parsed(p) && p.JObj? && "name" in p.fields
    requires ListProfiles(s, files).Return?
    ensures exists line :: line in ListProfiles(s, files).value && line.name == p.fields["name"]
  {
    var i :| 0 <= i < |files| && files[i] == f;
    CollectHas(s, files, i);
    var line := InfoOf(files[i], s[files[i]]).value;
    assert line.name == p.fields["name"];
    assert line in multiset(ListProfiles(s, files).value);
  }
}
