/** internal/mediainfo/mediainfo.go: running the MediaInfo tool and gating on
    its version.  The tool itself is not run here: its output (or its failure)
    is an input of the functions below. */
module MediaInfo {
  import opened Wrappers
  import opened Types
  import opened Decimal

  /** The oldest accepted MediaInfo, 23.00, encoded as major * 100 + minor. */
  const MinMediaInfoVersion: int := 2300

  // ---------------------------------------------------------------------------
  // strings.TrimSpace

  /** Go's `unicode.IsSpace`. */
  predicate IsSpace(c: char) {
    c == '\t' || c == '\n' || c == '\U{000B}' || c == '\U{000C}' || c == '\r' || c == ' '
    || c == '\U{0085}' || c == '\U{00A0}' || c == '\U{1680}'
    || ('\U{2000}' <= c <= '\U{200A}')
    || c == '\U{2028}' || c == '\U{2029}' || c == '\U{202F}' || c == '\U{205F}' || c == '\U{3000}'
  }

  predicate AllSpace(s: string) {
    forall i :: 0 <= i < |s| ==> IsSpace(s[i])
  }

  function TrimLeft(s: string): (r: string)
    ensures |r| <= |s| && r == s[|s| - |r|..]
    ensures AllSpace(s[..|s| - |r|])
    ensures r == [] || !IsSpace(r[0])
  {
    if |s| > 0 && IsSpace(s[0]) then
      var r := TrimLeft(s[1..]);
      assert s[..|s| - |r|] == [s[0]] + s[1..][..|s| - 1 - |r|];
      assert s[|s| - |r|..] == s[1..][|s| - 1 - |r|..];
      r
    else s
  }

  function TrimRight(s: string): (r: string)
    ensures |r| <= |s| && r == s[..|r|]
    ensures AllSpace(s[|r|..])
    ensures r == [] || !IsSpace(r[|r| - 1])
  {
    if |s| > 0 && IsSpace(s[|s| - 1]) then
      var r := TrimRight(s[..|s| - 1]);
      assert s[|r|..] == s[..|s| - 1][|r|..] + [s[|s| - 1]];
      r
    else s
  }

  /** `strings.TrimSpace`: the text between the leading and the trailing white space. */
  function TrimSpace(s: string): (r: string)
    ensures |r| <= |s|
    ensures r == [] || (!IsSpace(r[0]) && !IsSpace(r[|r| - 1]))
  {
    TrimRight(TrimLeft(s))
  }

  lemma TrimLeftSplit(s: string) returns (pre: string)
    ensures s == pre + TrimLeft(s) && AllSpace(pre)
  {
    pre := s[..|s| - |TrimLeft(s)|];
  }

  lemma TrimRightSplit(s: string) returns (post: string)
    ensures s == TrimRight(s) + post && AllSpace(post)
  {
    post := s[|TrimRight(s)|..];
  }

  /** What TrimSpace removes is white space on both ends. */
  lemma TrimSpaceSpan(s: string) returns (pre: string, post: string)
    ensures s == pre + TrimSpace(s) + post && AllSpace(pre) && AllSpace(post)
  {
    pre := TrimLeftSplit(s);
    post := TrimRightSplit(TrimLeft(s));
    ConcatThree(pre, TrimSpace(s), post);
  }

  lemma {:induction false} TrimLeftOfSpaces(l: string, s: string)
    requires AllSpace(l)
    ensures TrimLeft(l + s) == TrimLeft(s)
    decreases |l|
  {
    if l != [] {
      assert (l + s)[0] == l[0] && (l + s)[1..] == l[1..] + s;
      assert IsSpace(l[0]);
      assert TrimLeft(l + s) == TrimLeft(l[1..] + s);
      TrimLeftOfSpaces(l[1..], s);
    } else {
      assert l + s == s;
    }
  }

  lemma {:induction false} TrimRightOfSpaces(s: string, r: string)
    requires AllSpace(r)
    ensures TrimRight(s + r) == TrimRight(s)
    decreases |r|
  {
    if r != [] {
      assert (s + r)[|s + r| - 1] == r[|r| - 1] && (s + r)[..|s + r| - 1] == s + r[..|r| - 1];
      assert IsSpace(r[|r| - 1]);
      assert TrimRight(s + r) == TrimRight(s + r[..|r| - 1]);
      TrimRightOfSpaces(s, r[..|r| - 1]);
    } else {
      assert s + r == s;
    }
  }

  lemma {:induction false} TrimBothOfSpaces(s: string, r: string)
    requires AllSpace(r)
    ensures TrimRight(TrimLeft(s + r)) == TrimRight(TrimLeft(s))
    decreases |s|
  {
    if s == [] {
      assert s + r == r + [];
      TrimLeftOfSpaces(r, []);
    } else if IsSpace(s[0]) {
      assert (s + r)[1..] == s[1..] + r;
      TrimBothOfSpaces(s[1..], r);
    } else {
      TrimRightOfSpaces(s, r);
    }
  }

  /** White space around a text does not change what TrimSpace keeps. */
  lemma TrimSpaceOfPadded(l: string, s: string, r: string)
    requires AllSpace(l) && AllSpace(r)
    ensures TrimSpace(l + s + r) == TrimSpace(s)
  {
    assert l + s + r == l + (s + r);
    TrimLeftOfSpaces(l, s + r);
    assert TrimLeft(l + s + r) == TrimLeft(s + r);
    TrimBothOfSpaces(s, r);
    assert TrimSpace(l + s + r) == TrimRight(TrimLeft(s + r));
  }

  /** A text that neither starts nor ends with white space is left as it is. */
  lemma TrimSpaceKeeps(s: string)
    requires s == [] || (!IsSpace(s[0]) && !IsSpace(s[|s| - 1]))
    ensures TrimSpace(s) == s
  {
  }

  lemma TrimSpaceIdempotent(s: string)
    ensures TrimSpace(TrimSpace(s)) == TrimSpace(s)
  {
    TrimSpaceKeeps(TrimSpace(s));
  }

  // ---------------------------------------------------------------------------
  // The version pattern `(?:MediaInfoLib\s*-\s*)?v?(\d+)\.(\d+)`
  //
  // The optional prefix and `v` hold no digit, so whichever of them a match
  // uses, the leftmost match captures the digits of the leftmost place where
  // `\d+\.\d+` starts, and `\d+` takes the whole run of digits there.

  /** The end of the run of digits that starts at i. */
  function RunEnd(s: string, i: nat): (e: nat)
    requires i <= |s|
    ensures i <= e <= |s| && AllDigits(s[i..e])
    ensures e == |s| || !IsDigit(s[e])
    decreases |s| - i
  {
    if i < |s| && IsDigit(s[i]) then RunEnd(s, i + 1) else i
  }

  /** `\d+\.\d+` matches at i. */
  predicate VersionAt(s: string, i: nat) {
    i < |s| && IsDigit(s[i]) && RunEnd(s, i) + 1 < |s| && s[RunEnd(s, i)] == '.' && IsDigit(s[RunEnd(s, i) + 1])
  }

  /** The leftmost position from `from` on where `\d+\.\d+` matches. */
  function FindVersion(s: string, from: nat): (r: Option<nat>)
    requires from <= |s|
    ensures r.Some? ==> from <= r.value < |s| && VersionAt(s, r.value)
    ensures r.Some? ==> forall j :: from <= j < r.value ==> !VersionAt(s, j)
    ensures r.None? ==> forall j :: from <= j < |s| ==> !VersionAt(s, j)
    decreases |s| - from
  {
    if from == |s| then None
    else if VersionAt(s, from) then Some(from)
    else FindVersion(s, from + 1)
  }

  /** The digits of the major and of the minor number of a match at i. */
  function MajorDigits(s: string, i: nat): (d: string)
    requires VersionAt(s, i)
    ensures |d| >= 1 && AllDigits(d)
  {
    s[i..RunEnd(s, i)]
  }

  function MinorDigits(s: string, i: nat): (d: string)
    requires VersionAt(s, i)
    ensures |d| >= 1 && AllDigits(d)
  {
    s[RunEnd(s, i) + 1..RunEnd(s, RunEnd(s, i) + 1)]
  }

  /** Why a version output could not be read. */
  datatype VersionError =
    | NoVersion(output: string)   // "could not parse version from: %s"
    | BadMajor(digits: string)    // "invalid major version: %s"
    | BadMinor(digits: string)    // "invalid minor version: %s"

  /** The version read from an already trimmed output: the leftmost
      `digits.digits`, both numbers read with Atoi and combined as
      major * 100 + minor in an `int`. */
  function VersionOf(t: string): (r: Result<int, VersionError>)
    ensures r.Ok? ==> MinInt64 <= r.value <= MaxInt64
    ensures r.Err? && r.error.NoVersion? ==> r.error.output == t
  {
    match FindVersion(t, 0)
    case None => Err(NoVersion(t))
    case Some(i) =>
      var major := MajorDigits(t, i);
      var minor := MinorDigits(t, i);
      match Atoi(major)
      case None => Err(BadMajor(major))
      case Some(ma) =>
        match Atoi(minor)
        case None => Err(BadMinor(minor))
        case Some(mi) => Ok(Int64(ma * 100 + mi))
  }

  /** There is no version exactly when `digits.digits` occurs nowhere. */
  lemma VersionOfNone(t: string)
    ensures VersionOf(t).Err? && VersionOf(t).error.NoVersion? <==> forall j :: 0 <= j < |t| ==> !VersionAt(t, j)
  {
  }

  /** parseMediaInfoVersion: the version of the trimmed output. */
  function ParseMediaInfoVersion(output: string): (r: Result<int, VersionError>)
    ensures r.Ok? ==> MinInt64 <= r.value <= MaxInt64
    ensures r.Err? && r.error.NoVersion? <==>
      forall j :: 0 <= j < |TrimSpace(output)| ==> !VersionAt(TrimSpace(output), j)
    ensures r.Err? && r.error.NoVersion? ==> r.error.output == TrimSpace(output)
  {
    VersionOfNone(TrimSpace(output));
    VersionOf(TrimSpace(output))
  }

  /** The version is that of the leftmost `digits.digits`: with numbers that
      fit in an `int`, it is major * 100 + minor. */
  lemma VersionOfLeftmost(t: string, i: nat, major: string, minor: string)
    requires VersionAt(t, i)
    requires forall j :: 0 <= j < i ==> !VersionAt(t, j)
    requires MajorDigits(t, i) == major && MinorDigits(t, i) == minor
    requires Value(major) * 100 + Value(minor) <= MaxInt64
    ensures VersionOf(t) == Ok(Value(major) * 100 + Value(minor))
  {
    FindVersionIs(t, 0, i);
    assert Atoi(major) == Some(Value(major));
    assert Atoi(minor) == Some(Value(minor));
  }

  lemma {:induction false} FindVersionIs(t: string, from: nat, i: nat)
    requires from <= i && VersionAt(t, i)
    requires forall j :: from <= j < i ==> !VersionAt(t, j)
    ensures FindVersion(t, from) == Some(i)
    decreases i - from
  {
    if from < i {
      FindVersionIs(t, from + 1, i);
    }
  }

  /** White space around the tool's output, blank lines included, does not
      change the parsed version. */
  lemma ParseIgnoresPadding(l: string, s: string, r: string)
    requires AllSpace(l) && AllSpace(r)
    ensures ParseMediaInfoVersion(l + s + r) == ParseMediaInfoVersion(s)
  {
    TrimSpaceOfPadded(l, s, r);
  }

  // ---------------------------------------------------------------------------
  // Outputs of the shape prefix + major + "." + minor + rest

  predicate NoDigit(s: string) {
    forall i :: 0 <= i < |s| ==> !IsDigit(s[i])
  }

  /** A run of digits that ends at e ends at e. */
  lemma {:induction false} RunEndFrom(s: string, i: nat, e: nat)
    requires i <= e <= |s| && AllDigits(s[i..e]) && (e == |s| || !IsDigit(s[e]))
    ensures RunEnd(s, i) == e
    decreases e - i
  {
    if i < e {
      assert s[i..e][0] == s[i] && s[i + 1..e] == s[i..e][1..];
      RunEndFrom(s, i + 1, e);
    }
  }

  /** Digits from i to e, a dot, and digits from e + 1 to f: a version at i. */
  lemma VersionSpan(s: string, i: nat, e: nat, f: nat)
    requires i < e && e + 1 < f <= |s|
    requires AllDigits(s[i..e]) && s[e] == '.' && AllDigits(s[e + 1..f]) && (f == |s| || !IsDigit(s[f]))
    ensures VersionAt(s, i) && MajorDigits(s, i) == s[i..e] && MinorDigits(s, i) == s[e + 1..f]
  {
    RunEndFrom(s, i, e);
    RunEndFrom(s, e + 1, f);
    assert s[i..e][0] == s[i] && s[e + 1..f][0] == s[e + 1];
  }

  lemma NothingBefore(s: string, n: nat)
    requires n <= |s| && NoDigit(s[..n])
    ensures forall j :: 0 <= j < n ==> !VersionAt(s, j)
  {
    forall j | 0 <= j < n
      ensures !VersionAt(s, j)
    {
      assert s[..n][j] == s[j];
    }
  }

  lemma ShapedSpan(p: string, major: string, minor: string, q: string)
    requires NoDigit(p) && |major| >= 1 && AllDigits(major) && |minor| >= 1 && AllDigits(minor)
    requires q == [] || !IsDigit(q[0])
    ensures VersionAt(p + major + "." + minor + q, |p|)
    ensures MajorDigits(p + major + "." + minor + q, |p|) == major
    ensures MinorDigits(p + major + "." + minor + q, |p|) == minor
    ensures forall j :: 0 <= j < |p| ==> !VersionAt(p + major + "." + minor + q, j)
  {
    var s := p + major + "." + minor + q;
    var i, e := |p|, |p| + |major|;
    var f := e + 1 + |minor|;
    assert s[..i] == p && s[i..e] == major && s[e] == '.' && s[e + 1..f] == minor;
    assert f < |s| ==> s[f] == q[0];
    VersionSpan(s, i, e, f);
    NothingBefore(s, i);
  }

  lemma ShapedUntrimmed(output: string, p: string, major: string, minor: string, q: string)
    requires |major| >= 1 && AllDigits(major) && |minor| >= 1 && AllDigits(minor)
    requires p == [] || !IsSpace(p[0])
    requires q == [] || !IsSpace(q[|q| - 1])
    requires output == p + major + "." + minor + q
    ensures TrimSpace(output) == output
  {
    assert IsDigit(major[0]) && IsDigit(minor[|minor| - 1]);
    assert output[|output| - 1] == (if q == [] then minor[|minor| - 1] else q[|q| - 1]);
    assert output[0] == (if p == [] then major[0] else p[0]);
    TrimSpaceKeeps(output);
  }

  /** How a version output that has no digit before its version reads. */
  lemma ParseShaped(output: string, p: string, major: string, minor: string, q: string)
    requires NoDigit(p) && |major| >= 1 && AllDigits(major) && |minor| >= 1 && AllDigits(minor)
    requires q == [] || !IsDigit(q[0])
    requires p == [] || !IsSpace(p[0])
    requires q == [] || !IsSpace(q[|q| - 1])
    requires Value(major) * 100 + Value(minor) <= MaxInt64
    requires output == p + major + "." + minor + q
    ensures ParseMediaInfoVersion(output) == Ok(Value(major) * 100 + Value(minor))
  {
    ShapedVersionOf(output, p, major, minor, q);
    ShapedUntrimmed(output, p, major, minor, q);
  }

  lemma ShapedVersionOf(output: string, p: string, major: string, minor: string, q: string)
    requires NoDigit(p) && |major| >= 1 && AllDigits(major) && |minor| >= 1 && AllDigits(minor)
    requires q == [] || !IsDigit(q[0])
    requires Value(major) * 100 + Value(minor) <= MaxInt64
    requires output == p + major + "." + minor + q
    ensures VersionOf(output) == Ok(Value(major) * 100 + Value(minor))
  {
    ShapedSpan(p, major, minor, q);
    VersionOfLeftmost(output, |p|, major, minor);
  }

  lemma NoDigitSlice(s: string, a: nat, b: nat)
    requires a <= b <= |s| && NoDigit(s)
    ensures NoDigit(s[a..b])
  {
    assert forall j :: 0 <= j < b - a ==> s[a..b][j] == s[a + j];
  }

  lemma TrimSpaceNoDigit(s: string)
    requires NoDigit(s)
    ensures NoDigit(TrimSpace(s))
  {
    var l := TrimLeft(s);
    NoDigitSlice(s, |s| - |l|, |s|);
    assert s[|s| - |l|..|s|] == l;
    var r := TrimRight(l);
    NoDigitSlice(l, 0, |r|);
    assert l[0..|r|] == r;
  }

  /** An output without any digit has no version. */
  lemma ParseNoDigits(s: string)
    requires NoDigit(s)
    ensures ParseMediaInfoVersion(s) == Err(NoVersion(TrimSpace(s)))
  {
    var t := TrimSpace(s);
    VersionOfNone(t);
    TrimSpaceNoDigit(s);
    NothingBefore(t, |t|);
    assert t[..|t|] == t;
  }

  // ---------------------------------------------------------------------------
  // The outputs of internal/mediainfo/mediainfo_test.go

  const Banner: string := "MediaInfo Command line,\n"
  const LibPrefix: string := "MediaInfoLib - v"

  lemma BannerHasNoDigit() ensures NoDigit(Banner) {}
  lemma NewlineHasNoDigit() ensures NoDigit("\n") {}
  lemma LibPrefixHasNoDigit() ensures NoDigit(LibPrefix) {}
  lemma BarePrefixHasNoDigit() ensures NoDigit("MediaInfoLib - ") {}

  lemma NoDigitConcat(a: string, b: string)
    requires NoDigit(a) && NoDigit(b)
    ensures NoDigit(a + b)
  {
  }

  lemma Reads2507() ensures Value("25") * 100 + Value("07") == 2507 {}
  lemma Reads2406() ensures Value("24") * 100 + Value("06") == 2406 {}
  lemma Reads2300() ensures Value("23") * 100 + Value("0") == 2300 {}
  lemma Reads2301() ensures Value("23") * 100 + Value("1") == 2301 {}
  lemma Reads2300Padded() ensures Value("23") * 100 + Value("00") == 2300 {}
  lemma Reads2311() ensures Value("23") * 100 + Value("11") == 2311 {}
  lemma Reads2009() ensures Value("20") * 100 + Value("09") == 2009 {}

  /** A version printed right after a digit-free prefix that does not start
      with white space. */
  lemma ParsesAfter(output: string, p: string, major: string, minor: string)
    requires NoDigit(p) && (p == [] || !IsSpace(p[0]))
    requires |major| >= 1 && AllDigits(major) && |minor| >= 1 && AllDigits(minor)
    requires Value(major) * 100 + Value(minor) <= MaxInt64
    requires output == p + major + "." + minor
    ensures ParseMediaInfoVersion(output) == Ok(Value(major) * 100 + Value(minor))
  {
    assert output == p + major + "." + minor + "";
    ParseShaped(output, p, major, minor, "");
  }

  lemma SpellsCurrentFormat(output: string)
    requires output == "MediaInfo Command line,\nMediaInfoLib - v25.07"
    ensures output == (Banner + LibPrefix) + "25" + "." + "07"
  {
  }

  /** The current output format, "MediaInfoLib - v25.07" after a banner line, reads 2507. */
  lemma ParsesCurrentFormat(output: string)
    requires output == "MediaInfo Command line,\nMediaInfoLib - v25.07"
    ensures ParseMediaInfoVersion(output) == Ok(2507)
  {
    SpellsCurrentFormat(output);
    BannerHasNoDigit();
    LibPrefixHasNoDigit();
    NoDigitConcat(Banner, LibPrefix);
    Reads2507();
    ParsesAfter(output, Banner + LibPrefix, "25", "07");
  }

  lemma SpellsMinorTwoZeros(output: string)
    requires output == "MediaInfo Command line,\nMediaInfoLib - v23.00"
    ensures output == (Banner + LibPrefix) + "23" + "." + "00"
  {
  }

  /** The oldest accepted release in the current format, 23.00, reads 2300. */
  lemma ParsesMinorTwoZeros(output: string)
    requires output == "MediaInfo Command line,\nMediaInfoLib - v23.00"
    ensures ParseMediaInfoVersion(output) == Ok(2300)
  {
    SpellsMinorTwoZeros(output);
    BannerHasNoDigit();
    LibPrefixHasNoDigit();
    NoDigitConcat(Banner, LibPrefix);
    Reads2300Padded();
    ParsesAfter(output, Banner + LibPrefix, "23", "00");
  }

  lemma SpellsBannerFormat(output: string)
    requires output == "MediaInfo Command line,\nMediaInfoLib - v24.06"
    ensures output == (Banner + LibPrefix) + "24" + "." + "06"
  {
  }

  /** Release 24.06 in the current format reads 2406. */
  lemma ParsesBannerFormat(output: string)
    requires output == "MediaInfo Command line,\nMediaInfoLib - v24.06"
    ensures ParseMediaInfoVersion(output) == Ok(2406)
  {
    SpellsBannerFormat(output);
    BannerHasNoDigit();
    LibPrefixHasNoDigit();
    NoDigitConcat(Banner, LibPrefix);
    Reads2406();
    ParsesAfter(output, Banner + LibPrefix, "24", "06");
  }

  lemma SpellsLegacyFormat(output: string)
    requires output == "MediaInfo v23.11"
    ensures output == "MediaInfo v" + "23" + "." + "11"
  {
  }

  /** The legacy format "MediaInfo v23.11", without the library name, reads 2311. */
  lemma ParsesLegacyFormat(output: string)
    requires output == "MediaInfo v23.11"
    ensures ParseMediaInfoVersion(output) == Ok(2311)
  {
    SpellsLegacyFormat(output);
    assert NoDigit("MediaInfo v");
    Reads2311();
    ParsesAfter(output, "MediaInfo v", "23", "11");
  }

  lemma SpellsOldRelease(output: string)
    requires output == "MediaInfoLib - v20.09"
    ensures output == LibPrefix + "20" + "." + "09"
  {
  }

  /** An old release, 20.09, reads 2009 (and is below the minimum). */
  lemma ParsesOldRelease(output: string)
    requires output == "MediaInfoLib - v20.09"
    ensures ParseMediaInfoVersion(output) == Ok(2009)
    ensures CheckMediaInfoVersion("mediainfo", Ok(output)) == Some(TooOld(2009))
  {
    SpellsOldRelease(output);
    LibPrefixHasNoDigit();
    Reads2009();
    ParsesAfter(output, LibPrefix, "20", "09");
  }

  lemma SpellsBlankLine(output: string)
    requires output == "MediaInfo Command line,\n\nMediaInfoLib - v24.06"
    ensures output == (Banner + "\n" + LibPrefix) + "24" + "." + "06"
  {
  }

  /** A blank line between the banner and the version changes nothing. */
  lemma ParsesBlankLine(output: string)
    requires output == "MediaInfo Command line,\n\nMediaInfoLib - v24.06"
    ensures ParseMediaInfoVersion(output) == Ok(2406)
  {
    SpellsBlankLine(output);
    BannerHasNoDigit();
    NewlineHasNoDigit();
    LibPrefixHasNoDigit();
    NoDigitConcat(Banner, "\n");
    NoDigitConcat(Banner + "\n", LibPrefix);
    Reads2406();
    ParsesAfter(output, Banner + "\n" + LibPrefix, "24", "06");
  }

  lemma SpellsWithoutV(output: string)
    requires output == "MediaInfoLib - 24.06"
    ensures output == "MediaInfoLib - " + "24" + "." + "06"
  {
  }

  /** The `v` is optional. */
  lemma ParsesWithoutV(output: string)
    requires output == "MediaInfoLib - 24.06"
    ensures ParseMediaInfoVersion(output) == Ok(2406)
  {
    SpellsWithoutV(output);
    BarePrefixHasNoDigit();
    Reads2406();
    ParsesAfter(output, "MediaInfoLib - ", "24", "06");
  }

  lemma SpellsMinorZero(output: string)
    requires output == "MediaInfoLib - v23.0"
    ensures output == LibPrefix + "23" + "." + "0"
  {
  }

  /** A one-digit minor is taken at face value: 23.0 is 2300 ... */
  lemma ParsesMinorZero(output: string)
    requires output == "MediaInfoLib - v23.0"
    ensures ParseMediaInfoVersion(output) == Ok(2300)
  {
    SpellsMinorZero(output);
    LibPrefixHasNoDigit();
    Reads2300();
    ParsesAfter(output, LibPrefix, "23", "0");
  }

  lemma SpellsMinorOne(output: string)
    requires output == "MediaInfoLib - v23.1"
    ensures output == LibPrefix + "23" + "." + "1"
  {
  }

  /** ... and 23.1 is 2301. */
  lemma ParsesMinorOne(output: string)
    requires output == "MediaInfoLib - v23.1"
    ensures ParseMediaInfoVersion(output) == Ok(2301)
  {
    SpellsMinorOne(output);
    LibPrefixHasNoDigit();
    Reads2301();
    ParsesAfter(output, LibPrefix, "23", "1");
  }

  /** The banner alone and the empty output have no version. */
  lemma RejectsNoVersion()
    ensures ParseMediaInfoVersion("MediaInfo Command line").Err?
    ensures ParseMediaInfoVersion("").Err?
  {
    assert NoDigit("MediaInfo Command line");
    ParseNoDigits("MediaInfo Command line");
    ParseNoDigits("");
  }

  // ---------------------------------------------------------------------------
  // The version gate

  /** Why CheckMediaInfoVersion refused. */
  datatype CheckError =
    | EmptyPath                         // "MediaInfo path is empty"
    | RunFailed(cause: Error)           // "failed to get MediaInfo version: %v"
    | Unparsable(reason: VersionError)  // "failed to parse MediaInfo version: %v"
    | TooOld(version: int)              // "MediaInfo version %d is too old (minimum required: %d)"

  /** CheckMediaInfoVersion.  `versionOutput` is what `<path> --Version`
      printed, or why it could not be run; it is not consulted for an empty path. */
  function CheckMediaInfoVersion(mediaInfoPath: string, versionOutput: Result<string, Error>): (r: Option<CheckError>)
    ensures mediaInfoPath == "" ==> r == Some(EmptyPath)
    ensures r.None? <==>
      mediaInfoPath != "" && versionOutput.Ok? && ParseMediaInfoVersion(versionOutput.value).Ok?
      && ParseMediaInfoVersion(versionOutput.value).value >= MinMediaInfoVersion
    ensures r.Some? && r.value.TooOld? ==> r.value.version < 2300
  {
    if mediaInfoPath == "" then Some(EmptyPath)
    else if versionOutput.Err? then Some(RunFailed(versionOutput.error))
    else
      match ParseMediaInfoVersion(versionOutput.value)
      case Err(e) => Some(Unparsable(e))
      case Ok(v) => if v < MinMediaInfoVersion then Some(TooOld(v)) else None
  }

  /** For versions printed as major.minor with at most two minor digits, the
      gate accepts exactly the releases from 23.00 on: 22.99 is refused, 23.0 passes. */
  lemma CheckAcceptsFrom2300(path: string, major: string, minor: string)
    requires path != ""
    requires |major| >= 1 && AllDigits(major) && |minor| >= 1 && AllDigits(minor)
    requires Value(major) < 1_000_000 && Value(minor) < 100
    ensures CheckMediaInfoVersion(path, Ok(LibPrefix + major + "." + minor)).None?
        <==> Value(major) >= 23
  {
    LibPrefixHasNoDigit();
    ParsesAfter(LibPrefix + major + "." + minor, LibPrefix, major, minor);
  }

  /** major * 100 + minor orders versions like (major, minor) does when the
      minor number has at most two digits. */
  lemma VersionOrder(ma1: nat, mi1: nat, ma2: nat, mi2: nat)
    requires mi1 < 100 && mi2 < 100
    ensures ma1 * 100 + mi1 < ma2 * 100 + mi2 <==> ma1 < ma2 || (ma1 == ma2 && mi1 < mi2)
  {
    if ma1 < ma2 {
      assert ma1 * 100 + mi1 < (ma1 + 1) * 100 <= ma2 * 100;
    } else if ma1 > ma2 {
      assert ma2 * 100 + mi2 < (ma2 + 1) * 100 <= ma1 * 100;
    }
  }

  // ---------------------------------------------------------------------------
  // GenerateMediaInfoJSON

  /** Why GenerateMediaInfoJSON failed. */
  datatype GenerateError =
    | NotAvailable          // "MediaInfo is not available"
    | ToolFailed(cause: Error)  // "failed to run MediaInfo: %v"

  /** GenerateMediaInfoJSON.  `run` is the outcome of `<path> --Output=JSON <file>`,
      not consulted for an empty tool path. */
  function GenerateMediaInfoJson(mediaInfoPath: string, run: Result<seq<Byte>, Error>): (r: Result<seq<Byte>, GenerateError>)
    ensures mediaInfoPath == "" ==> r == Err(NotAvailable)
    ensures mediaInfoPath != "" && run.Ok? ==> r == Ok(run.value)
    ensures mediaInfoPath != "" && run.Err? ==> r == Err(ToolFailed(run.error))
  {
    if mediaInfoPath == "" then Err(NotAvailable)
    else if run.Err? then Err(ToolFailed(run.error))
    else Ok(run.value)
  }
}
