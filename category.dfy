/** crowdnfo.go, category resolution: the eight CrowdNFO categories, the
    built-in detection rules and getCategory. */
module Category {
  import opened Patterns

  /** validCategories, in the order of the source. */
  const ValidCategories: seq<string> := ["Movies", "TV", "Games", "Software", "Music", "Audiobooks", "Books", "Other"]

  /** isValidCategory: an exact, case-sensitive scan of the list. */
  function IsValidCategory(category: string): (r: bool)
    ensures r <==> category in ValidCategories
  {
    OccursInList(category, ValidCategories)
  }

  function OccursInList(category: string, list: seq<string>): (r: bool)
    ensures r <==> category in list
  {
    if list == [] then false
    else if category == list[0] then true
    else
      var r := OccursInList(category, list[1..]);
      assert forall c :: c in list <==> c == list[0] || c in list[1..];
      r
  }

  /** One detection rule: a pattern and the category it stands for. */
  datatype Rule = Rule(pattern: Pattern, category: string)

  // ---------------------------------------------------------------------------
  // The built-in patterns, written as alternatives of pieces (module Patterns).

  /** `(?i)\b(audiobook|abook|abookde|h√∂rbuch|hoerbuch|horbuch|m4b)\b`, as the
      source spells it: the alternative meant as "hörbuch" reads "h√∂rbuch"
      (U+221A U+2202), the UTF-8 bytes of "ö" read back as Mac Roman. */
  const AudiobooksPattern: Pattern :=
    Words([Lit("audiobook"), Lit("abook"), Lit("abookde"), Lit("h\U{221A}\U{2202}rbuch"), Lit("hoerbuch"), Lit("horbuch"), Lit("m4b")])

  /** The audiobook pattern with the alternative spelled "hörbuch" as intended. */
  const AudiobooksPatternIntended: Pattern :=
    Words([Lit("audiobook"), Lit("abook"), Lit("abookde"), Lit("h\U{00F6}rbuch"), Lit("hoerbuch"), Lit("horbuch"), Lit("m4b")])

  /** `(?i)\b(ebook|epaper|pdf|epub|mobi)\b` */
  const BooksPattern: Pattern :=
    Words([Lit("ebook"), Lit("epaper"), Lit("pdf"), Lit("epub"), Lit("mobi")])

  /** `s\d{1,4}e\d{1,4}` */
  const SeasonEpisode: seq<Piece> := [One('s'), Digits(1, 4), One('e'), Digits(1, 4)]

  /** `(?i)\b((s\d{1,4}e\d{1,4})|(s\d{1,4})|(e\d{1,4})|season|staffel|episode|folge|(\d{4}-\d{2}-\d{2}))\b` */
  const TvPattern: Pattern :=
    Words([SeasonEpisode, [One('s'), Digits(1, 4)], [One('e'), Digits(1, 4)],
           Lit("season"), Lit("staffel"), Lit("episode"), Lit("folge"),
           [Digits(4, 4), One('-'), Digits(2, 2), One('-'), Digits(2, 2)]])

  /** `(?i)\b(elamigos|gog|xbox|xbox360|x360|ps\d|nintendo|nsw|amiga|atari|wii[u]?)\b` */
  const GamesPattern: Pattern :=
    Words([Lit("elamigos"), Lit("gog"), Lit("xbox"), Lit("xbox360"), Lit("x360"), Lit("ps") + [Digits(1, 1)],
           Lit("nintendo"), Lit("nsw"), Lit("amiga"), Lit("atari"), Lit("wii") + [Optional("u")]])

  /** `(?i)\b(patch|crack|cracked|keygen|keymaker|keyfilemaker|x64|dvt|btcr|macos)\b` */
  const SoftwarePattern: Pattern :=
    Words([Lit("patch"), Lit("crack"), Lit("cracked"), Lit("keygen"), Lit("keymaker"), Lit("keyfilemaker"),
           Lit("x64"), Lit("dvt"), Lit("btcr"), Lit("macos")])

  /** `\d{3,4}[pi]` */
  const Resolution: seq<Piece> := [Digits(3, 4), AnyOf("pi")]

  /** `(?i)\b((\d{3,4}[pi])|bluray|dvdrip|webrip|hdtv|bdrip|dvd|remux|mpeg[-]?2|vc[-]?1|avc|hevc|([xh][. ]?26[456]))\b` */
  const MoviesPattern: Pattern :=
    Words([Resolution, Lit("bluray"), Lit("dvdrip"), Lit("webrip"), Lit("hdtv"), Lit("bdrip"), Lit("dvd"), Lit("remux"),
           Lit("mpeg") + [Optional("-"), One('2')], Lit("vc") + [Optional("-"), One('1')], Lit("avc"), Lit("hevc"),
           [AnyOf("xh"), Optional(". "), One('2'), One('6'), AnyOf("456")]])

  /** `(?i)\b(mp3|flac|webflac|aac|wav|album|artist|discography|single|vinyl|cd|\d+bit|\d+khz)\b` */
  const MusicPattern: Pattern :=
    Words([Lit("mp3"), Lit("flac"), Lit("webflac"), Lit("aac"), Lit("wav"), Lit("album"), Lit("artist"),
           Lit("discography"), Lit("single"), Lit("vinyl"), Lit("cd"), [SomeDigits] + Lit("bit"), [SomeDigits] + Lit("khz")])

  /** categoryRegexPatterns, in order, as the source spells them. */
  const CategoryRules: seq<Rule> := [
    Rule(AudiobooksPattern, "Audiobooks"),
    Rule(BooksPattern, "Books"),
    Rule(TvPattern, "TV"),
    Rule(GamesPattern, "Games"),
    Rule(SoftwarePattern, "Software"),
    Rule(MoviesPattern, "Movies"),
    Rule(MusicPattern, "Music")
  ]

  /** The same table with "hörbuch" spelled as intended. */
  const IntendedCategoryRules: seq<Rule> := [Rule(AudiobooksPatternIntended, "Audiobooks")] + CategoryRules[1..]

  // ---------------------------------------------------------------------------
  // matchCategoryByRegex and getCategory

  /** The category of the first rule whose pattern matches; a pattern that
      does not compile is skipped; "" when none matches. */
  function FirstMatch(rules: seq<Rule>, releaseName: string): (r: string)
    ensures r == "" || exists i :: 0 <= i < |rules| && rules[i].category == r
  {
    if rules == [] then ""
    else if PatternMatches(rules[0].pattern, releaseName) then rules[0].category
    else
      var r := FirstMatch(rules[1..], releaseName);
      assert forall i :: 1 <= i < |rules| ==> rules[1..][i - 1] == rules[i];
      r
  }

  /** matchCategoryByRegex. */
  function MatchCategoryByRegex(releaseName: string): (r: string)
    ensures r == "" || (r in ValidCategories && r != "Other")
  {
    FirstMatch(CategoryRules, releaseName)
  }

  /** matchCategoryByRegex over the table with "hörbuch" spelled as intended. */
  function IntendedCategoryByRegex(releaseName: string): (r: string)
    ensures r == "" || (r in ValidCategories && r != "Other")
  {
    FirstMatch(IntendedCategoryRules, releaseName)
  }

  /** The rule table, one rule at a time. */
  lemma RuleOrder()
    ensures |CategoryRules| == 7
    ensures CategoryRules[0] == Rule(AudiobooksPattern, "Audiobooks")
    ensures CategoryRules[1] == Rule(BooksPattern, "Books")
    ensures CategoryRules[2] == Rule(TvPattern, "TV")
    ensures CategoryRules[3] == Rule(GamesPattern, "Games")
    ensures CategoryRules[4] == Rule(SoftwarePattern, "Software")
    ensures CategoryRules[5] == Rule(MoviesPattern, "Movies")
    ensures CategoryRules[6] == Rule(MusicPattern, "Music")
  {
  }

  /** First match wins: the first matching rule decides, whatever later rules match. */
  lemma {:induction false} FirstMatchWins(rules: seq<Rule>, releaseName: string, i: nat)
    requires i < |rules| && PatternMatches(rules[i].pattern, releaseName)
    requires forall j :: 0 <= j < i ==> !PatternMatches(rules[j].pattern, releaseName)
    ensures FirstMatch(rules, releaseName) == rules[i].category
    decreases i
  {
    if i > 0 {
      assert !PatternMatches(rules[0].pattern, releaseName);
      assert forall j :: 0 <= j < i - 1 ==> rules[1..][j] == rules[j + 1];
      FirstMatchWins(rules[1..], releaseName, i - 1);
    }
  }

  /** With no matching rule the result is "". */
  lemma {:induction false} NoMatchNoCategory(rules: seq<Rule>, releaseName: string)
    requires forall j :: 0 <= j < |rules| ==> !PatternMatches(rules[j].pattern, releaseName)
    ensures FirstMatch(rules, releaseName) == ""
    decreases |rules|
  {
    if rules != [] {
      assert forall j :: 0 <= j < |rules| - 1 ==> rules[1..][j] == rules[j + 1];
      NoMatchNoCategory(rules[1..], releaseName);
    }
  }

  /** A non-empty result names a rule that matches and every earlier rule fails. */
  lemma {:induction false} FirstMatchIsFirst(rules: seq<Rule>, releaseName: string)
    requires forall j :: 0 <= j < |rules| ==> rules[j].category != ""
    ensures FirstMatch(rules, releaseName) != "" <==> exists j :: 0 <= j < |rules| && PatternMatches(rules[j].pattern, releaseName)
    ensures FirstMatch(rules, releaseName) != "" ==>
      exists i :: 0 <= i < |rules| && rules[i].category == FirstMatch(rules, releaseName)
        && PatternMatches(rules[i].pattern, releaseName)
        && forall j :: 0 <= j < i ==> !PatternMatches(rules[j].pattern, releaseName)
    decreases |rules|
  {
    if rules != [] {
      var tail := rules[1..];
      assert forall j :: 0 <= j < |tail| ==> tail[j] == rules[j + 1];
      FirstMatchIsFirst(tail, releaseName);
      if !PatternMatches(rules[0].pattern, releaseName) && FirstMatch(tail, releaseName) != "" {
        var i :| 0 <= i < |tail| && tail[i].category == FirstMatch(tail, releaseName)
          && PatternMatches(tail[i].pattern, releaseName)
          && forall j :: 0 <= j < i ==> !PatternMatches(tail[j].pattern, releaseName);
        assert forall j :: 0 <= j < i + 1 ==> !PatternMatches(rules[j].pattern, releaseName) by {
          forall j | 0 <= j < i + 1
            ensures !PatternMatches(rules[j].pattern, releaseName)
          {
            if j > 0 { assert rules[j] == tail[j - 1]; }
          }
        }
      }
      if !PatternMatches(rules[0].pattern, releaseName) {
        assert (exists j :: 0 <= j < |rules| && PatternMatches(rules[j].pattern, releaseName))
           <==> (exists j :: 0 <= j < |tail| && PatternMatches(tail[j].pattern, releaseName)) by {
          if j :| 0 <= j < |rules| && PatternMatches(rules[j].pattern, releaseName) {
            assert PatternMatches(tail[j - 1].pattern, releaseName);
          }
        }
      }
    }
  }

  /** getCategory: an explicit category is kept when it is valid and becomes
      "" otherwise; without one, the category is detected from the name. */
  function GetCategory(category: string, releaseName: string): (r: string)
    ensures r == "" || r in ValidCategories
    ensures category != "" ==> (r == category <==> category in ValidCategories)
    ensures category != "" && r != category ==> r == ""
    ensures category == "" ==> r == MatchCategoryByRegex(releaseName) && r != "Other"
  {
    if category == "" then MatchCategoryByRegex(releaseName)
    else if !IsValidCategory(category) then ""
    else category
  }

  /** Validation is case-sensitive: "tv" is not "TV". */
  lemma CategoryCaseSensitive(releaseName: string)
    ensures GetCategory("tv", releaseName) == ""
    ensures GetCategory("TV", releaseName) == "TV"
  {
  }

  // ---------------------------------------------------------------------------
  // Ruling a pattern out alternative by alternative

  /** A literal word is absent from a name when two of its adjacent letters
      never stand next to each other in the lower-cased name. */
  lemma AbsentLit(w: string, s: string, k: nat, a: char, b: char)
    requires k + 1 < |w| && w[k] == a && w[k + 1] == b
    requires NoAdjacentFrom(s, Chars([a]), Chars([b]), 0)
    ensures !OccursIn(Lit(w), s)
  {
    AbsentByAdjacentPair(Lit(w), s, k);
  }

  /** A literal word is absent from a name when one of its letters does
      not occur in the lower-cased name. */
  lemma AbsentLitLetter(w: string, s: string, k: nat, c: char)
    requires k < |w| && w[k] == c
    requires NoneFrom(s, Chars([c]), 0)
    ensures !OccursIn(Lit(w), s)
  {
    AbsentByClass(Lit(w), s, k);
  }

  /** Two patterns that differ in one alternative only, which occurs in
      neither, match the same names. */
  lemma SameAltsExcept(p: Pattern, q: Pattern, k: nat, s: string)
    requires p.Words? && q.Words? && |p.alts| == |q.alts| && k < |p.alts|
    requires forall i :: 0 <= i < |p.alts| && i != k ==> p.alts[i] == q.alts[i]
    requires !OccursIn(p.alts[k], s) && !OccursIn(q.alts[k], s)
    ensures PatternMatches(p, s) == PatternMatches(q, s)
  {
    if PatternMatches(p, s) {
      var x :| x in p.alts && OccursIn(x, s);
      var i :| 0 <= i < |p.alts| && p.alts[i] == x;
      assert q.alts[i] == x;
    }
    if PatternMatches(q, s) {
      var x :| x in q.alts && OccursIn(x, s);
      var i :| 0 <= i < |q.alts| && q.alts[i] == x;
      assert p.alts[i] == x;
    }
  }

  /** Two tables that agree past their first rule, whose first rules name the
      same category and match the same names, detect the same category. */
  lemma SameFirstMatch(rules: seq<Rule>, other: seq<Rule>, s: string)
    requires |rules| > 0 && |other| > 0 && rules[1..] == other[1..]
    requires rules[0].category == other[0].category
    requires PatternMatches(rules[0].pattern, s) == PatternMatches(other[0].pattern, s)
    ensures FirstMatch(rules, s) == FirstMatch(other, s)
  {
  }

  /** A pattern none of whose alternatives occurs does not match. */
  lemma NoAlternative(p: Pattern, s: string)
    requires p.Words? && forall i :: 0 <= i < |p.alts| ==> !OccursIn(p.alts[i], s)
    ensures !PatternMatches(p, s)
  {
  }

  // ---------------------------------------------------------------------------
  // Example: "S01E02.720p" carries both a TV and a Movies marker.

  const EpisodeName: string := "S01E02.720p"

  lemma EpisodeNameLacksAU() ensures NoAdjacentFrom("S01E02.720p", Chars("a"), Chars("u"), 0) {}
  lemma EpisodeNameLacksAB() ensures NoAdjacentFrom("S01E02.720p", Chars("a"), Chars("b"), 0) {}
  lemma EpisodeNameLacksHRoot() ensures NoAdjacentFrom("S01E02.720p", Chars("h"), Chars("\U{221A}"), 0) {}
  lemma EpisodeNameLacksOE() ensures NoAdjacentFrom("S01E02.720p", Chars("o"), Chars("e"), 0) {}
  lemma EpisodeNameLacksOR() ensures NoAdjacentFrom("S01E02.720p", Chars("o"), Chars("r"), 0) {}
  lemma EpisodeNameLacksM4() ensures NoAdjacentFrom("S01E02.720p", Chars("m"), Chars("4"), 0) {}
  lemma EpisodeNameLacksEB() ensures NoAdjacentFrom("S01E02.720p", Chars("e"), Chars("b"), 0) {}
  lemma EpisodeNameLacksEP() ensures NoAdjacentFrom("S01E02.720p", Chars("e"), Chars("p"), 0) {}
  lemma EpisodeNameLacksPD() ensures NoAdjacentFrom("S01E02.720p", Chars("p"), Chars("d"), 0) {}
  lemma EpisodeNameLacksOB() ensures NoAdjacentFrom("S01E02.720p", Chars("o"), Chars("b"), 0) {}

  lemma NoAudiobookWordInEpisode(s: string)
    requires s == EpisodeName
    ensures !OccursIn(Lit("audiobook"), s) && !OccursIn(Lit("abook"), s) && !OccursIn(Lit("abookde"), s)
    ensures !OccursIn(Lit("h\U{221A}\U{2202}rbuch"), s) && !OccursIn(Lit("hoerbuch"), s) && !OccursIn(Lit("horbuch"), s)
    ensures !OccursIn(Lit("m4b"), s)
  {
    EpisodeNameLacksAU();
    EpisodeNameLacksAB();
    EpisodeNameLacksHRoot();
    EpisodeNameLacksOE();
    EpisodeNameLacksOR();
    EpisodeNameLacksM4();
    AbsentLit("audiobook", s, 0, 'a', 'u');
    AbsentLit("abook", s, 0, 'a', 'b');
    AbsentLit("abookde", s, 0, 'a', 'b');
    AbsentLit("h\U{221A}\U{2202}rbuch", s, 0, 'h', '\U{221A}');
    AbsentLit("hoerbuch", s, 1, 'o', 'e');
    AbsentLit("horbuch", s, 1, 'o', 'r');
    AbsentLit("m4b", s, 0, 'm', '4');
  }

  lemma NotAudiobook(s: string)
    requires s == EpisodeName
    ensures !PatternMatches(AudiobooksPattern, s)
  {
    NoAudiobookWordInEpisode(s);
    NoAlternative(AudiobooksPattern, s);
  }

  lemma NoBookWordInEpisode(s: string)
    requires s == EpisodeName
    ensures !OccursIn(Lit("ebook"), s) && !OccursIn(Lit("epaper"), s) && !OccursIn(Lit("pdf"), s)
    ensures !OccursIn(Lit("epub"), s) && !OccursIn(Lit("mobi"), s)
  {
    EpisodeNameLacksEB();
    EpisodeNameLacksEP();
    EpisodeNameLacksPD();
    EpisodeNameLacksOB();
    AbsentLit("ebook", s, 0, 'e', 'b');
    AbsentLit("epaper", s, 0, 'e', 'p');
    AbsentLit("pdf", s, 0, 'p', 'd');
    AbsentLit("epub", s, 0, 'e', 'p');
    AbsentLit("mobi", s, 1, 'o', 'b');
  }

  lemma NotBook(s: string)
    requires s == EpisodeName
    ensures !PatternMatches(BooksPattern, s)
  {
    NoBookWordInEpisode(s);
    NoAlternative(BooksPattern, s);
  }

  lemma EpisodeMarkerWord()
    ensures MatchesAll(SeasonEpisode, "s01e02")
  {
    assert "s01e02" == "s" + "01" + "e" + "02";
    assert AllIn("01", Digit) && AllIn("02", Digit);
    MatchFour(SeasonEpisode, "s", "01", "e", "02");
  }

  lemma EpisodeNameLower(s: string)
    requires s == EpisodeName
    ensures Lower(s) == "s01e02.720p"
  {
  }

  lemma EpisodeMarkerSpan(s: string)
    requires s == EpisodeName
    ensures 6 <= |s| && IsBoundary(Lower(s), 0) && IsBoundary(Lower(s), 6) && Lower(s)[0..6] == "s01e02"
  {
    EpisodeNameLower(s);
    var t := "s01e02.720p";
    assert t[0..6] == "s01e02" && t[6] == '.';
    LiteralSpan(t, 0, 6, "s01e02");
  }

  /** "S01E02" is a season-and-episode marker. */
  lemma EpisodeMarkerIsTv(s: string)
    requires s == EpisodeName
    ensures PatternMatches(TvPattern, s)
  {
    EpisodeMarkerSpan(s);
    EpisodeMarkerWord();
    OccursAt(SeasonEpisode, s, 0, 6);
    assert TvPattern.alts[0] == SeasonEpisode;
  }

  lemma ResolutionWord()
    ensures MatchesAll(Resolution, "720p")
  {
    assert "720p" == "720" + "p";
    assert AllIn("720", Digit);
    MatchTwo(Resolution, "720", "p");
  }

  lemma ResolutionSpan(s: string)
    requires s == EpisodeName
    ensures 11 == |s| && IsBoundary(Lower(s), 7) && IsBoundary(Lower(s), 11) && Lower(s)[7..11] == "720p"
  {
    EpisodeNameLower(s);
    var t := "s01e02.720p";
    assert t[7..11] == "720p" && t[6] == '.';
    LiteralSpan(t, 7, 11, "720p");
  }

  /** "720p" is a resolution marker. */
  lemma ResolutionIsMovie(s: string)
    requires s == EpisodeName
    ensures PatternMatches(MoviesPattern, s)
  {
    ResolutionSpan(s);
    ResolutionWord();
    OccursAt(Resolution, s, 7, 11);
    assert MoviesPattern.alts[0] == Resolution;
  }

  /** With the first two rules failing and the third matching, the third decides. */
  lemma ThirdRuleDecides(rules: seq<Rule>, s: string)
    requires |rules| >= 3 && PatternMatches(rules[2].pattern, s)
    requires !PatternMatches(rules[0].pattern, s) && !PatternMatches(rules[1].pattern, s)
    ensures FirstMatch(rules, s) == rules[2].category
  {
    FirstMatchWins(rules, s, 2);
  }

  /** A name with both an episode marker and a resolution is TV: the TV rule
      comes before the Movies rule, which matches too. */
  lemma EpisodeWithResolutionIsTv(s: string)
    requires s == EpisodeName
    ensures PatternMatches(CategoryRules[5].pattern, s)
    ensures MatchCategoryByRegex(s) == "TV"
  {
    RuleOrder();
    NotAudiobook(s);
    NotBook(s);
    EpisodeMarkerIsTv(s);
    ResolutionIsMovie(s);
    ThirdRuleDecides(CategoryRules, s);
  }

  // ---------------------------------------------------------------------------
  // The misspelt "hörbuch"

  const HoerbuchName: string := "H\U{00F6}rbuch"

  lemma HoerbuchLacksAU() ensures NoAdjacentFrom("H\U{00F6}rbuch", Chars("a"), Chars("u"), 0) {}
  lemma HoerbuchLacksAB() ensures NoAdjacentFrom("H\U{00F6}rbuch", Chars("a"), Chars("b"), 0) {}
  lemma HoerbuchLacksHRoot() ensures NoAdjacentFrom("H\U{00F6}rbuch", Chars("h"), Chars("\U{221A}"), 0) {}
  lemma HoerbuchLacksHO() ensures NoAdjacentFrom("H\U{00F6}rbuch", Chars("h"), Chars("o"), 0) {}
  lemma HoerbuchLacksM4() ensures NoAdjacentFrom("H\U{00F6}rbuch", Chars("m"), Chars("4"), 0) {}

  /** Characters the lower-cased "Hörbuch" does not hold. */
  lemma HoerbuchHasNo()
    ensures NoneFrom("H\U{00F6}rbuch", Chars("a"), 0) && NoneFrom("H\U{00F6}rbuch", Chars("d"), 0)
    ensures NoneFrom("H\U{00F6}rbuch", Chars("e"), 0) && NoneFrom("H\U{00F6}rbuch", Chars("f"), 0)
    ensures NoneFrom("H\U{00F6}rbuch", Chars("g"), 0) && NoneFrom("H\U{00F6}rbuch", Chars("k"), 0)
    ensures NoneFrom("H\U{00F6}rbuch", Chars("l"), 0) && NoneFrom("H\U{00F6}rbuch", Chars("m"), 0)
    ensures NoneFrom("H\U{00F6}rbuch", Chars("n"), 0) && NoneFrom("H\U{00F6}rbuch", Chars("p"), 0)
    ensures NoneFrom("H\U{00F6}rbuch", Chars("s"), 0) && NoneFrom("H\U{00F6}rbuch", Chars("t"), 0)
    ensures NoneFrom("H\U{00F6}rbuch", Chars("v"), 0) && NoneFrom("H\U{00F6}rbuch", Chars("w"), 0)
    ensures NoneFrom("H\U{00F6}rbuch", Chars("x"), 0) && NoneFrom("H\U{00F6}rbuch", Chars("2"), 0)
    ensures NoneFrom("H\U{00F6}rbuch", Digit, 0)
  {
  }

  lemma NoAsWrittenWordInHoerbuch(s: string)
    requires s == HoerbuchName
    ensures !OccursIn(Lit("audiobook"), s) && !OccursIn(Lit("abook"), s) && !OccursIn(Lit("abookde"), s)
    ensures !OccursIn(Lit("h\U{221A}\U{2202}rbuch"), s) && !OccursIn(Lit("hoerbuch"), s) && !OccursIn(Lit("horbuch"), s)
    ensures !OccursIn(Lit("m4b"), s)
  {
    HoerbuchLacksAU();
    HoerbuchLacksAB();
    HoerbuchLacksHRoot();
    HoerbuchLacksHO();
    HoerbuchLacksM4();
    AbsentLit("audiobook", s, 0, 'a', 'u');
    AbsentLit("abook", s, 0, 'a', 'b');
    AbsentLit("abookde", s, 0, 'a', 'b');
    AbsentLit("h\U{221A}\U{2202}rbuch", s, 0, 'h', '\U{221A}');
    AbsentLit("hoerbuch", s, 0, 'h', 'o');
    AbsentLit("horbuch", s, 0, 'h', 'o');
    AbsentLit("m4b", s, 0, 'm', '4');
  }

  lemma NoBookWordInHoerbuch(s: string)
    requires s == HoerbuchName
    ensures !OccursIn(Lit("ebook"), s) && !OccursIn(Lit("epaper"), s) && !OccursIn(Lit("pdf"), s)
    ensures !OccursIn(Lit("epub"), s) && !OccursIn(Lit("mobi"), s)
  {
    HoerbuchHasNo();
    AbsentLitLetter("ebook", s, 0, 'e');
    AbsentLitLetter("epaper", s, 0, 'e');
    AbsentLitLetter("pdf", s, 0, 'p');
    AbsentLitLetter("epub", s, 0, 'e');
    AbsentLitLetter("mobi", s, 0, 'm');
  }

  lemma HoerbuchNotBook(s: string)
    requires s == HoerbuchName
    ensures !PatternMatches(BooksPattern, s)
  {
    NoBookWordInHoerbuch(s);
    NoAlternative(BooksPattern, s);
  }

  lemma NoTvWordInHoerbuch(s: string)
    requires s == HoerbuchName
    ensures !OccursIn(SeasonEpisode, s) && !OccursIn([One('s'), Digits(1, 4)], s) && !OccursIn([One('e'), Digits(1, 4)], s)
    ensures !OccursIn(Lit("season"), s) && !OccursIn(Lit("staffel"), s) && !OccursIn(Lit("episode"), s) && !OccursIn(Lit("folge"), s)
    ensures !OccursIn([Digits(4, 4), One('-'), Digits(2, 2), One('-'), Digits(2, 2)], s)
  {
    HoerbuchHasNo();
    AbsentByClass(SeasonEpisode, s, 1);
    AbsentByClass([One('s'), Digits(1, 4)], s, 1);
    AbsentByClass([One('e'), Digits(1, 4)], s, 1);
    AbsentLitLetter("season", s, 0, 's');
    AbsentLitLetter("staffel", s, 0, 's');
    AbsentLitLetter("episode", s, 0, 'e');
    AbsentLitLetter("folge", s, 0, 'f');
    AbsentByClass([Digits(4, 4), One('-'), Digits(2, 2), One('-'), Digits(2, 2)], s, 0);
  }

  lemma HoerbuchNotTv(s: string)
    requires s == HoerbuchName
    ensures !PatternMatches(TvPattern, s)
  {
    NoTvWordInHoerbuch(s);
    NoAlternative(TvPattern, s);
  }

  lemma NoGameWordInHoerbuch(s: string)
    requires s == HoerbuchName
    ensures !OccursIn(Lit("elamigos"), s) && !OccursIn(Lit("gog"), s) && !OccursIn(Lit("xbox"), s)
    ensures !OccursIn(Lit("xbox360"), s) && !OccursIn(Lit("x360"), s) && !OccursIn(Lit("ps") + [Digits(1, 1)], s)
    ensures !OccursIn(Lit("nintendo"), s) && !OccursIn(Lit("nsw"), s) && !OccursIn(Lit("amiga"), s)
    ensures !OccursIn(Lit("atari"), s) && !OccursIn(Lit("wii") + [Optional("u")], s)
  {
    HoerbuchHasNo();
    AbsentLitLetter("elamigos", s, 0, 'e');
    AbsentLitLetter("gog", s, 0, 'g');
    AbsentLitLetter("xbox", s, 0, 'x');
    AbsentLitLetter("xbox360", s, 0, 'x');
    AbsentLitLetter("x360", s, 0, 'x');
    AbsentByClass(Lit("ps") + [Digits(1, 1)], s, 2);
    AbsentLitLetter("nintendo", s, 0, 'n');
    AbsentLitLetter("nsw", s, 0, 'n');
    AbsentLitLetter("amiga", s, 0, 'a');
    AbsentLitLetter("atari", s, 0, 'a');
    AbsentByClass(Lit("wii") + [Optional("u")], s, 0);
  }

  lemma HoerbuchNotGame(s: string)
    requires s == HoerbuchName
    ensures !PatternMatches(GamesPattern, s)
  {
    NoGameWordInHoerbuch(s);
    NoAlternative(GamesPattern, s);
  }

  lemma NoSoftwareWordInHoerbuch(s: string)
    requires s == HoerbuchName
    ensures !OccursIn(Lit("patch"), s) && !OccursIn(Lit("crack"), s) && !OccursIn(Lit("cracked"), s)
    ensures !OccursIn(Lit("keygen"), s) && !OccursIn(Lit("keymaker"), s) && !OccursIn(Lit("keyfilemaker"), s)
    ensures !OccursIn(Lit("x64"), s) && !OccursIn(Lit("dvt"), s) && !OccursIn(Lit("btcr"), s) && !OccursIn(Lit("macos"), s)
  {
    HoerbuchHasNo();
    AbsentLitLetter("patch", s, 0, 'p');
    AbsentLitLetter("crack", s, 2, 'a');
    AbsentLitLetter("cracked", s, 2, 'a');
    AbsentLitLetter("keygen", s, 0, 'k');
    AbsentLitLetter("keymaker", s, 0, 'k');
    AbsentLitLetter("keyfilemaker", s, 0, 'k');
    AbsentLitLetter("x64", s, 0, 'x');
    AbsentLitLetter("dvt", s, 0, 'd');
    AbsentLitLetter("btcr", s, 1, 't');
    AbsentLitLetter("macos", s, 0, 'm');
  }

  lemma HoerbuchNotSoftware(s: string)
    requires s == HoerbuchName
    ensures !PatternMatches(SoftwarePattern, s)
  {
    NoSoftwareWordInHoerbuch(s);
    NoAlternative(SoftwarePattern, s);
  }

  lemma NoMovieWordInHoerbuch(s: string)
    requires s == HoerbuchName
    ensures !OccursIn(Resolution, s) && !OccursIn(Lit("bluray"), s) && !OccursIn(Lit("dvdrip"), s)
    ensures !OccursIn(Lit("webrip"), s) && !OccursIn(Lit("hdtv"), s) && !OccursIn(Lit("bdrip"), s)
    ensures !OccursIn(Lit("dvd"), s) && !OccursIn(Lit("remux"), s)
    ensures !OccursIn(Lit("mpeg") + [Optional("-"), One('2')], s) && !OccursIn(Lit("vc") + [Optional("-"), One('1')], s)
    ensures !OccursIn(Lit("avc"), s) && !OccursIn(Lit("hevc"), s)
    ensures !OccursIn([AnyOf("xh"), Optional(". "), One('2'), One('6'), AnyOf("456")], s)
  {
    HoerbuchHasNo();
    AbsentByClass(Resolution, s, 0);
    AbsentLitLetter("bluray", s, 1, 'l');
    AbsentLitLetter("dvdrip", s, 0, 'd');
    AbsentLitLetter("webrip", s, 0, 'w');
    AbsentLitLetter("hdtv", s, 1, 'd');
    AbsentLitLetter("bdrip", s, 1, 'd');
    AbsentLitLetter("dvd", s, 0, 'd');
    AbsentLitLetter("remux", s, 1, 'e');
    AbsentByClass(Lit("mpeg") + [Optional("-"), One('2')], s, 0);
    AbsentByClass(Lit("vc") + [Optional("-"), One('1')], s, 0);
    AbsentLitLetter("avc", s, 0, 'a');
    AbsentLitLetter("hevc", s, 1, 'e');
    AbsentByClass([AnyOf("xh"), Optional(". "), One('2'), One('6'), AnyOf("456")], s, 2);
  }

  lemma HoerbuchNotMovie(s: string)
    requires s == HoerbuchName
    ensures !PatternMatches(MoviesPattern, s)
  {
    NoMovieWordInHoerbuch(s);
    NoAlternative(MoviesPattern, s);
  }

  lemma NoMusicWordInHoerbuch(s: string)
    requires s == HoerbuchName
    ensures !OccursIn(Lit("mp3"), s) && !OccursIn(Lit("flac"), s) && !OccursIn(Lit("webflac"), s)
    ensures !OccursIn(Lit("aac"), s) && !OccursIn(Lit("wav"), s) && !OccursIn(Lit("album"), s)
    ensures !OccursIn(Lit("artist"), s) && !OccursIn(Lit("discography"), s) && !OccursIn(Lit("single"), s)
    ensures !OccursIn(Lit("vinyl"), s) && !OccursIn(Lit("cd"), s)
    ensures !OccursIn([SomeDigits] + Lit("bit"), s) && !OccursIn([SomeDigits] + Lit("khz"), s)
  {
    HoerbuchHasNo();
    AbsentLitLetter("mp3", s, 0, 'm');
    AbsentLitLetter("flac", s, 0, 'f');
    AbsentLitLetter("webflac", s, 0, 'w');
    AbsentLitLetter("aac", s, 0, 'a');
    AbsentLitLetter("wav", s, 0, 'w');
    AbsentLitLetter("album", s, 0, 'a');
    AbsentLitLetter("artist", s, 0, 'a');
    AbsentLitLetter("discography", s, 0, 'd');
    AbsentLitLetter("single", s, 0, 's');
    AbsentLitLetter("vinyl", s, 0, 'v');
    AbsentLitLetter("cd", s, 1, 'd');
    AbsentByClass([SomeDigits] + Lit("bit"), s, 0);
    AbsentByClass([SomeDigits] + Lit("khz"), s, 0);
  }

  lemma HoerbuchNotMusic(s: string)
    requires s == HoerbuchName
    ensures !PatternMatches(MusicPattern, s)
  {
    NoMusicWordInHoerbuch(s);
    NoAlternative(MusicPattern, s);
  }

  /** Detection comes out empty when none of the seven rules matches. */
  lemma NoRuleMatches(s: string)
    requires !PatternMatches(AudiobooksPattern, s) && !PatternMatches(BooksPattern, s) && !PatternMatches(TvPattern, s)
    requires !PatternMatches(GamesPattern, s) && !PatternMatches(SoftwarePattern, s)
    requires !PatternMatches(MoviesPattern, s) && !PatternMatches(MusicPattern, s)
    ensures MatchCategoryByRegex(s) == ""
  {
    RuleOrder();
    NoMatchNoCategory(CategoryRules, s);
  }

  /** As written, no rule recognises "Hörbuch", the audiobook rule included:
      without an explicit category the name gets none. */
  lemma AsWrittenMissesHoerbuch(s: string)
    requires s == HoerbuchName
    ensures !PatternMatches(CategoryRules[0].pattern, s)
    ensures MatchCategoryByRegex(s) == "" && GetCategory("", s) == ""
  {
    NoAsWrittenWordInHoerbuch(s);
    NoAlternative(AudiobooksPattern, s);
    HoerbuchNotBook(s);
    HoerbuchNotTv(s);
    HoerbuchNotGame(s);
    HoerbuchNotSoftware(s);
    HoerbuchNotMovie(s);
    HoerbuchNotMusic(s);
    NoRuleMatches(s);
  }

  lemma HoerbuchLower(s: string)
    requires s == HoerbuchName
    ensures Lower(s) == "h\U{00F6}rbuch"
  {
  }

  lemma HoerbuchSpan(s: string)
    requires s == HoerbuchName
    ensures 7 == |s| && IsBoundary(Lower(s), 0) && IsBoundary(Lower(s), 7) && Lower(s)[0..7] == "h\U{00F6}rbuch"
  {
    HoerbuchLower(s);
    var t := "h\U{00F6}rbuch";
    assert t[0..7] == t;
    LiteralSpan(t, 0, 7, t);
  }

  /** With "hörbuch" spelled as intended, the audiobook pattern matches "Hörbuch" ... */
  lemma IntendedWordInHoerbuch(s: string)
    requires s == HoerbuchName
    ensures PatternMatches(AudiobooksPatternIntended, s)
  {
    var w := "h\U{00F6}rbuch";
    HoerbuchSpan(s);
    LitMatchesItself(w);
    OccursAt(Lit(w), s, 0, 7);
    assert AudiobooksPatternIntended.alts[3] == Lit(w);
  }

  /** ... and makes it an audiobook. */
  lemma IntendedMatchesHoerbuch(s: string)
    requires s == HoerbuchName
    ensures PatternMatches(IntendedCategoryRules[0].pattern, s)
    ensures IntendedCategoryByRegex(s) == "Audiobooks"
  {
    IntendedWordInHoerbuch(s);
    FirstMatchWins(IntendedCategoryRules, s, 0);
  }

  /** The two audiobook patterns differ in their fourth alternative only,
      and so do the two tables in their first rule. */
  lemma AudiobookSpellingsDiffer()
    ensures |AudiobooksPattern.alts| == |AudiobooksPatternIntended.alts| == 7
    ensures forall i :: 0 <= i < 7 && i != 3 ==> AudiobooksPattern.alts[i] == AudiobooksPatternIntended.alts[i]
    ensures AudiobooksPattern.alts[3] == Lit("h\U{221A}\U{2202}rbuch")
    ensures AudiobooksPatternIntended.alts[3] == Lit("h\U{00F6}rbuch")
    ensures IntendedCategoryRules[1..] == CategoryRules[1..] && IntendedCategoryRules[0].category == CategoryRules[0].category
    ensures CategoryRules[0].pattern == AudiobooksPattern && IntendedCategoryRules[0].pattern == AudiobooksPatternIntended
  {
  }

  /** The correction changes the detected category only for names in which
      one of the two spellings of the word occurs. */
  lemma CorrectionOnlyAffectsHoerbuch(s: string)
    requires !OccursIn(Lit("h\U{221A}\U{2202}rbuch"), s) && !OccursIn(Lit("h\U{00F6}rbuch"), s)
    ensures MatchCategoryByRegex(s) == IntendedCategoryByRegex(s)
  {
    AudiobookSpellingsDiffer();
    SameAltsExcept(AudiobooksPattern, AudiobooksPatternIntended, 3, s);
    SameFirstMatch(CategoryRules, IntendedCategoryRules, s);
  }
}
