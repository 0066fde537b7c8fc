/** `MAJOR.MINOR.PATCH` versions and the `bump` command of the release
    script (scripts/update_version.py). The files the script rewrites are
    not modelled: the version read from `pyproject.toml` is a parameter and
    the outcome of a command records the version it would write. */
module SemVer {
  import opened Wrappers
  import opened Text

  datatype Version = Version(major: nat, minor: nat, patch: nat)

  /** `str(version)`. */
  function ToString(v: Version): string {
    NatToString(v.major) + "." + NatToString(v.minor) + "." + NatToString(v.patch)
  }

  /** A non-empty run of ASCII digits, one group of the version pattern. */
  predicate DigitGroup(s: string) {
    |s| > 0 && AllDigits(s)
  }

  /** `Version.parse(value)`: the stripped text must be three digit groups
      separated by dots; anything else raises `ValueError` (here `None`).
      Leading zeros are accepted, so `01.2.3` reads as 1.2.3. */
  function Parse(value: string): (r: Option<Version>)
    ensures r.Some? <==> ThreeGroups(Strip(value))
  {
    var groups := Split(Strip(value), '.');
    GroupsIff(Strip(value));
    if |groups| == 3 && DigitGroup(groups[0]) && DigitGroup(groups[1]) && DigitGroup(groups[2]) then
      Some(Version(DigitsValue(groups[0]), DigitsValue(groups[1]), DigitsValue(groups[2])))
    else
      None
  }

  /** The pattern `^(\d+)\.(\d+)\.(\d+)$`, stated directly. */
  ghost predicate ThreeGroups(t: string) {
    exists a, b, c :: DigitGroup(a) && DigitGroup(b) && DigitGroup(c) && t == a + "." + b + "." + c
  }

  /** Splitting at the dots finds three digit groups exactly when the text
      is three digit groups joined by dots. */
  lemma GroupsIff(t: string)
    ensures var groups := Split(t, '.');
      (|groups| == 3 && DigitGroup(groups[0]) && DigitGroup(groups[1]) && DigitGroup(groups[2])) <==> ThreeGroups(t)
  {
    var groups := Split(t, '.');
    if |groups| == 3 && DigitGroup(groups[0]) && DigitGroup(groups[1]) && DigitGroup(groups[2]) {
      JoinSplit(t, '.');
      assert Join(groups, '.') == groups[0] + "." + Join(groups[1..], '.');
      assert Join(groups[1..], '.') == groups[1] + "." + groups[2];
      assert t == groups[0] + "." + groups[1] + "." + groups[2];
    } else {
      NoThreeGroups(t, groups);
    }
  }

  /** No split into three digit groups exists when the pieces are not
      three digit groups. */
  lemma NoThreeGroups(t: string, groups: seq<string>)
    requires groups == Split(t, '.')
    requires !(|groups| == 3 && DigitGroup(groups[0]) && DigitGroup(groups[1]) && DigitGroup(groups[2]))
    ensures !ThreeGroups(t)
  {
    if ThreeGroups(t) {
      var a, b, c :| DigitGroup(a) && DigitGroup(b) && DigitGroup(c) && t == a + "." + b + "." + c;
      SplitGroups(a, b, c);
      assert false;
    }
  }

  lemma DigitsHaveNoDot(s: string)
    requires AllDigits(s)
    ensures '.' !in s
  {
    assert forall k :: 0 <= k < |s| ==> s[k] != '.';
  }

  /** Splitting three dot-free groups joined by dots gives them back. */
  lemma SplitGroups(a: string, b: string, c: string)
    requires AllDigits(a) && AllDigits(b) && AllDigits(c)
    ensures Split(a + "." + b + "." + c, '.') == [a, b, c]
  {
    DigitsHaveNoDot(a);
    DigitsHaveNoDot(b);
    DigitsHaveNoDot(c);
    SplitNoSep(c, '.');
    SplitAppend(b, '.', c);
    assert a + "." + b + "." + c == a + ['.'] + (b + ['.'] + c);
    SplitAppend(a, '.', b + ['.'] + c);
  }

  /** Printing and parsing back gives the same version. */
  lemma ParseToString(v: Version)
    ensures Parse(ToString(v)) == Some(v)
  {
    var a, b, c := NatToString(v.major), NatToString(v.minor), NatToString(v.patch);
    var s := ToString(v);
    assert NoSpace(s) by {
      assert forall k :: 0 <= k < |s| ==> s[k] == '.' || s[k] in a || s[k] in b || s[k] in c;
    }
    SplitGroups(a, b, c);
    NatToStringRoundTrip(v.major);
    NatToStringRoundTrip(v.minor);
    NatToStringRoundTrip(v.patch);
  }

  /** Surrounding whitespace is ignored. */
  lemma ParseIgnoresPadding(v: Version, pad: string)
    requires AllSpace(pad)
    ensures Parse(pad + ToString(v) + pad) == Some(v)
  {
    var s := ToString(v);
    var t := pad + s + pad;
    assert |s| > 0 && !IsSpace(s[0]) && !IsSpace(s[|s| - 1]) by {
      assert s[0] in NatToString(v.major);
      assert s[|s| - 1] in NatToString(v.patch);
    }
    StripPadded(pad, s);
    ParseToString(v);
  }

  lemma StripPadded(pad: string, s: string)
    requires AllSpace(pad)
    requires |s| > 0 && !IsSpace(s[0]) && !IsSpace(s[|s| - 1])
    ensures Strip(pad + s + pad) == Strip(s)
  {
    var t := pad + s + pad;
    TrimStartPadded(pad, s + pad);
    assert t == pad + (s + pad);
    TrimEndPadded(s, pad);
    var u := TrimStart(s);
    assert u == s;
    TrimEndNoPad(s);
  }

  lemma {:induction false} TrimStartPadded(pad: string, s: string)
    requires AllSpace(pad)
    requires |s| > 0 && !IsSpace(s[0])
    ensures TrimStart(pad + s) == s
    decreases |pad|
  {
    if |pad| > 0 {
      assert (pad + s)[1..] == pad[1..] + s;
      TrimStartPadded(pad[1..], s);
    } else {
      assert pad + s == s;
    }
  }

  lemma {:induction false} TrimEndPadded(s: string, pad: string)
    requires AllSpace(pad)
    requires |s| > 0 && !IsSpace(s[|s| - 1])
    ensures TrimEnd(s + pad) == s
    decreases |pad|
  {
    if |pad| > 0 {
      assert (s + pad)[..|s + pad| - 1] == s + pad[..|pad| - 1];
      TrimEndPadded(s, pad[..|pad| - 1]);
    } else {
      assert s + pad == s;
    }
  }

  lemma TrimEndNoPad(s: string)
    requires |s| > 0 && !IsSpace(s[|s| - 1])
    ensures TrimEnd(s) == s
  {
  }

  /** Strict lexicographic order on (major, minor, patch). */
  predicate Less(a: Version, b: Version) {
    a.major < b.major
    || (a.major == b.major && a.minor < b.minor)
    || (a.major == b.major && a.minor == b.minor && a.patch < b.patch)
  }

  /** `bump_patch()`. */
  function BumpPatch(v: Version): (r: Version)
    ensures r.major == v.major && r.minor == v.minor && r.patch == v.patch + 1
  {
    Version(v.major, v.minor, v.patch + 1)
  }

  /** `bump_minor()`. */
  function BumpMinor(v: Version): (r: Version)
    ensures r.major == v.major && r.minor == v.minor + 1 && r.patch == 0
  {
    Version(v.major, v.minor + 1, 0)
  }

  /** `bump_major()`. */
  function BumpMajor(v: Version): (r: Version)
    ensures r.major == v.major + 1 && r.minor == 0 && r.patch == 0
  {
    Version(v.major + 1, 0, 0)
  }

  /** Every bump moves strictly forward, and the bumps are ordered:
      patch below minor below major. */
  lemma BumpsIncrease(v: Version)
    ensures Less(v, BumpPatch(v)) && Less(v, BumpMinor(v)) && Less(v, BumpMajor(v))
    ensures Less(BumpPatch(v), BumpMinor(v)) && Less(BumpMinor(v), BumpMajor(v))
  {
  }

  /** No version lies strictly between a version and its patch bump. */
  lemma PatchIsNext(v: Version, w: Version)
    requires Less(v, w)
    ensures w == BumpPatch(v) || Less(BumpPatch(v), w)
  {
  }

  /** What a command did: its exit code and the version it wrote, if any. */
  datatype Outcome = Outcome(code: int, synced: Option<string>)

  /** `cmd_sync(version)`. With a version given, it is parsed first and the
      parse error propagates; the given text, not a normalised form, is
      written. With none, the version already in `pyproject.toml` is
      written back, and its absence exits with 1. */
  function CmdSync(version: Option<string>, current: Option<string>): (r: Reply<Outcome>)
    ensures r == Throw <==> version.Some? && Parse(version.value).None?
    ensures r.Return? && r.value.code == 0 ==> r.value.synced == (if version.Some? then version else current)
    ensures r.Return? && r.value.code != 0 ==> r.value == Outcome(1, None)
  {
    match version
    case Some(v) => if Parse(v).None? then Throw else Return(Outcome(0, Some(v)))
    case None =>
      if current.None? || current.value == "" then Return(Outcome(1, None))
      else Return(Outcome(0, current))
  }

  /** `cmd_bump(kind)`: read the current version, parse it, bump the part
      `kind` names and sync the result; an unknown kind exits with 1 and
      writes nothing. */
  function CmdBump(kind: string, current: Option<string>): (r: Reply<Outcome>)
    ensures current.Some? && current.value != "" && Parse(current.value).None? ==> r == Throw
    ensures current.None? || current.value == "" ==> r == Return(Outcome(1, None))
    ensures kind != "patch" && kind != "minor" && kind != "major" ==> r.Return? ==> r.value == Outcome(1, None)
  {
    if current.None? || current.value == "" then Return(Outcome(1, None))
    else match Parse(current.value)
      case None => Throw
      case Some(v) =>
        if kind == "patch" then CmdSync(Some(ToString(BumpPatch(v))), current)
        else if kind == "minor" then CmdSync(Some(ToString(BumpMinor(v))), current)
        else if kind == "major" then CmdSync(Some(ToString(BumpMajor(v))), current)
        else Return(Outcome(1, None))
  }

  /** A bump of a readable version writes the bumped version, which reads
      back as the bump and is later than the current one. */
  lemma BumpWritesNext(kind: string, current: string, v: Version)
    requires Parse(current) == Some(v)
    requires kind == "patch" || kind == "minor" || kind == "major"
    ensures var next := if kind == "patch" then BumpPatch(v) else if kind == "minor" then BumpMinor(v) else BumpMajor(v);
      CmdBump(kind, Some(current)) == Return(Outcome(0, Some(ToString(next))))
      && Parse(ToString(next)) == Some(next) && Less(v, next)
  {
    var a, b, c :| DigitGroup(a) && DigitGroup(b) && DigitGroup(c) && Strip(current) == a + "." + b + "." + c;
    assert |Strip(current)| >= 5;
    ParseToString(BumpPatch(v));
    ParseToString(BumpMinor(v));
    ParseToString(BumpMajor(v));
  }
}
