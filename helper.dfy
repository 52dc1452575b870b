/** internal/helper.go: season-pack detection and merging of process results. */
module Helper {
  import opened Wrappers
  import opened Types
  import opened Patterns

  /** `(?i)\bS\d{2,4}\b`: a season marker such as "S02". */
  const SeasonMarker: seq<Piece> := [One('s'), Digits(2, 4)]
  /** `(?i)\bS\d{2,4}E\d{2,4}\b`: an episode marker such as "S02E05". */
  const EpisodeMarker: seq<Piece> := [One('s'), Digits(2, 4), One('e'), Digits(2, 4)]
  /** `(?i)\bS(20\d{2})\b`: a season numbered by year, such as "S2024". */
  const IsoYearMarker: seq<Piece> := [One('s'), One('2'), One('0'), Digits(2, 2)]

  /** Name heuristic: a season marker without an episode marker, or a year
      season.  Every season pack carries a season marker, since a year season
      is one; an episode marker rules a name out unless it has a year season. */
  predicate IsSeasonPack(jobName: string)
    ensures IsSeasonPack(jobName) ==> OccursIn(SeasonMarker, jobName)
    ensures OccursIn(EpisodeMarker, jobName) && !OccursIn(IsoYearMarker, jobName) ==> !IsSeasonPack(jobName)
  {
    assert OccursIn(IsoYearMarker, jobName) ==> OccursIn(SeasonMarker, jobName) by {
      if OccursIn(IsoYearMarker, jobName) {
        IsoYearIsSeasonMarker(jobName);
      }
    }
    (OccursIn(SeasonMarker, jobName) && !OccursIn(EpisodeMarker, jobName))
    || OccursIn(IsoYearMarker, jobName)
  }

  /** Directory heuristic.  `scan` is the number of video files found under the
      release directory, or None when the scan failed. */
  function IsSeasonPackFallback(scan: Option<nat>): (r: bool)
    ensures r <==> scan.Some? && scan.value >= 3
    ensures scan.None? ==> !r
  {
    match scan
    case None => false
    case Some(n) => n >= 3
  }

  /** The warnings a possibly-nil result carries. */
  function WarningsOf(r: Option<ProcessResult>): seq<Error> {
    if r.Some? then r.value.warnings else []
  }

  /** MergeProcessResults: nil-aware; the result is never nil. */
  function MergeProcessResults(a: Option<ProcessResult>, b: Option<ProcessResult>): (r: ProcessResult)
    ensures a.None? && b.None? ==> r.warnings == []
    ensures a.None? && b.Some? ==> r == b.value
    ensures a.Some? && b.None? ==> r == a.value
  {
    if a.None? && b.None? then ProcessResult([])
    else if a.None? then b.value
    else if b.None? then a.value
    else ProcessResult(a.value.warnings + b.value.warnings)
  }

  // ---------------------------------------------------------------------------
  // Season-pack detection

  // Matches of the markers are taken apart and built one piece at a time, each
  // step in a lemma of its own.

  /** What a match of the year marker looks like: "s20" and two digits. */
  lemma IsoYearShape(w: string)
    requires MatchesAll(IsoYearMarker, w)
    ensures |w| == 5 && w[0] == 's' && w[1] == '2' && w[2] == '0' && AllIn(w[1..], Digit)
  {
    IsoYearShapeOf(IsoYearMarker, w);
  }

  lemma IsoYearShapeOf(p: seq<Piece>, w: string)
    requires |p| == 4 && p[0] == One('s') && p[1] == One('2') && p[2] == One('0') && p[3] == Digits(2, 2)
    requires MatchesAll(p, w)
    ensures |w| == 5 && w[0] == 's' && w[1] == '2' && w[2] == '0' && AllIn(w[1..], Digit)
  {
    var a, b, c, d := SplitFour(p, w);
    assert a[0] in "s" && b[0] in "2" && c[0] in "0";
    assert w[0] == a[0] && w[1] == b[0] && w[2] == c[0] && w[1..] == b + c + d;
    AllInConcat(b, c, Digit);
    AllInConcat(b + c, d, Digit);
  }

  /** "s" followed by two to four digits is a season marker. */
  lemma SeasonShape(w: string)
    requires 3 <= |w| <= 5 && w[0] == 's' && AllIn(w[1..], Digit)
    ensures MatchesAll(SeasonMarker, w)
  {
    assert w == w[..1] + w[1..];
    assert AllIn(w[..1], Chars("s"));
    MatchTwo(SeasonMarker, w[..1], w[1..]);
  }

  /** A year season "S20xx" is also a season marker (four digits). */
  lemma IsoYearIsSeasonMarker(s: string)
    requires OccursIn(IsoYearMarker, s)
    ensures OccursIn(SeasonMarker, s)
  {
    var t := Lower(s);
    var i, j :| 0 <= i <= j <= |t| && IsBoundary(t, i) && IsBoundary(t, j) && MatchesAll(IsoYearMarker, t[i..j]);
    IsoYearShape(t[i..j]);
    SeasonShape(t[i..j]);
    OccursAt(SeasonMarker, s, i, j);
  }

  /** Every release the name heuristic calls a season pack carries a season
      marker, and it is one exactly when it has a season marker and either no
      episode marker or a year season. */
  lemma SeasonPackCharacterization(s: string)
    ensures IsSeasonPack(s) ==> OccursIn(SeasonMarker, s)
    ensures IsSeasonPack(s) <==>
      OccursIn(SeasonMarker, s) && (!OccursIn(EpisodeMarker, s) || OccursIn(IsoYearMarker, s))
  {
    if OccursIn(IsoYearMarker, s) {
      IsoYearIsSeasonMarker(s);
    }
  }

  /** A year season makes a season pack even next to an episode marker. */
  lemma IsoYearOverridesEpisode(s: string)
    requires OccursIn(IsoYearMarker, s) && OccursIn(EpisodeMarker, s)
    ensures IsSeasonPack(s)
  {
  }

  /** Detection ignores ASCII case: "s02" behaves like "S02". */
  lemma {:induction false} SeasonPackIgnoresCase(s: string)
    ensures IsSeasonPack(s) == IsSeasonPack(Lower(s))
  {
    OccursIgnoresCase(SeasonMarker, s);
    OccursIgnoresCase(EpisodeMarker, s);
    OccursIgnoresCase(IsoYearMarker, s);
  }

  lemma SeasonIn(s: string, i: nat, j: nat)
    requires i + 3 <= j <= i + 5 && j <= |s| && IsBoundary(Lower(s), i) && IsBoundary(Lower(s), j)
    requires Lower(s)[i] == 's' && AllIn(Lower(s)[i + 1..j], Digit)
    ensures OccursIn(SeasonMarker, s)
  {
    var w := Lower(s)[i..j];
    assert w[1..] == Lower(s)[i + 1..j];
    SeasonShape(w);
    OccursAt(SeasonMarker, s, i, j);
  }

  lemma CompleteSeasonHasSeason()
    ensures OccursIn(SeasonMarker, "Show.S02.COMPLETE")
  {
    var s := "Show.S02.COMPLETE";
    assert Lower(s)[6..8] == "02";
    SeasonIn(s, 5, 8);
  }

  lemma CompleteSeasonHasNoEpisode()
    ensures !OccursIn(EpisodeMarker, "Show.S02.COMPLETE")
  {
    assert NoAdjacentFrom("Show.S02.COMPLETE", Digit, Chars("e"), 0);
    AbsentByAdjacentPair(EpisodeMarker, "Show.S02.COMPLETE", 1);
  }

  /** "Show.S02.COMPLETE" is a season pack. */
  lemma CompleteSeasonIsPack()
    ensures IsSeasonPack("Show.S02.COMPLETE")
  {
    CompleteSeasonHasSeason();
    CompleteSeasonHasNoEpisode();
  }

  /** "sNNeNN" is an episode marker. */
  lemma EpisodeShape(w: string)
    requires |w| == 6 && w[0] == 's' && w[3] == 'e' && AllIn(w[1..3], Digit) && AllIn(w[4..], Digit)
    ensures MatchesAll(EpisodeMarker, w)
  {
    assert w == w[..1] + w[1..3] + w[3..4] + w[4..];
    assert AllIn(w[..1], Chars("s"));
    assert AllIn(w[3..4], Chars("e"));
    MatchFour(EpisodeMarker, w[..1], w[1..3], w[3..4], w[4..]);
  }

  lemma SingleEpisodeLower(s: string)
    requires s == "Show.S02E05"
    ensures Lower(s) == "show.s02e05"
  {
  }

  lemma SingleEpisodeSpan(s: string)
    requires s == "Show.S02E05"
    ensures |s| == 11 && IsBoundary(Lower(s), 5) && IsBoundary(Lower(s), 11)
    ensures Lower(s)[5..11] == "s02e05"
  {
    SingleEpisodeLower(s);
    var t := "show.s02e05";
    assert t[5..11] == "s02e05" && t[4] == '.';
    LiteralSpan(t, 5, 11, "s02e05");
  }

  lemma EpisodeWordExample(w: string)
    requires w == "s02e05"
    ensures MatchesAll(EpisodeMarker, w)
  {
    assert w[1..3] == "02" && w[4..] == "05";
    assert AllIn("02", Digit) && AllIn("05", Digit);
    EpisodeShape(w);
  }

  lemma SingleEpisodeHasEpisode(s: string)
    requires s == "Show.S02E05"
    ensures OccursIn(EpisodeMarker, s)
  {
    SingleEpisodeSpan(s);
    EpisodeWordExample(Lower(s)[5..11]);
    OccursAt(EpisodeMarker, s, 5, 11);
  }

  lemma SingleEpisodeHasNoYear()
    ensures !OccursIn(IsoYearMarker, "Show.S02E05")
  {
    assert NoAdjacentFrom("Show.S02E05", Chars("s"), Chars("2"), 0);
    AbsentByAdjacentPair(IsoYearMarker, "Show.S02E05", 0);
  }

  /** A single episode "Show.S02E05" is not a season pack by name. */
  lemma SingleEpisodeIsNotPack()
    ensures !IsSeasonPack("Show.S02E05")
  {
    SingleEpisodeHasEpisode("Show.S02E05");
    SingleEpisodeHasNoYear();
  }

  /** "s20" and two digits is a year season. */
  lemma IsoYearWord(w: string)
    requires |w| == 5 && w[0] == 's' && w[1] == '2' && w[2] == '0' && AllIn(w[3..], Digit)
    ensures MatchesAll(IsoYearMarker, w)
  {
    assert w == w[..1] + w[1..2] + w[2..3] + w[3..];
    assert AllIn(w[..1], Chars("s"));
    assert AllIn(w[1..2], Chars("2"));
    assert AllIn(w[2..3], Chars("0"));
    MatchFour(IsoYearMarker, w[..1], w[1..2], w[2..3], w[3..]);
  }

  lemma IsoYearIn(s: string, i: nat)
    requires i + 5 <= |s| && IsBoundary(Lower(s), i) && IsBoundary(Lower(s), i + 5)
    requires Lower(s)[i] == 's' && Lower(s)[i + 1] == '2' && Lower(s)[i + 2] == '0'
    requires AllIn(Lower(s)[i + 3..i + 5], Digit)
    ensures OccursIn(IsoYearMarker, s)
  {
    var w := Lower(s)[i..i + 5];
    assert w[3..] == Lower(s)[i + 3..i + 5];
    IsoYearWord(w);
    OccursAt(IsoYearMarker, s, i, i + 5);
  }

  lemma YearSeasonSpecialLower(s: string)
    requires s == "Show.S2024.Extras"
    ensures Lower(s) == "show.s2024.extras"
  {
  }

  lemma YearSeasonSpecialSpan(s: string)
    requires s == "Show.S2024.Extras"
    ensures 10 <= |s| && IsBoundary(Lower(s), 5) && IsBoundary(Lower(s), 10)
    ensures Lower(s)[5] == 's' && Lower(s)[6] == '2' && Lower(s)[7] == '0' && Lower(s)[8..10] == "24"
  {
    YearSeasonSpecialLower(s);
    var t := "show.s2024.extras";
    assert t[5..10] == "s2024" && t[4] == '.' && t[10] == '.';
    LiteralSpan(t, 5, 10, "s2024");
    assert t[8..10] == "24";
  }

  lemma YearSeasonSpecial(s: string)
    requires s == "Show.S2024.Extras"
    ensures OccursIn(IsoYearMarker, s)
  {
    YearSeasonSpecialSpan(s);
    assert AllIn("24", Digit);
    IsoYearIn(s, 5);
  }

  lemma YearSeasonWithEpisodeLower(s: string)
    requires s == "Show.S2024.S01E02"
    ensures Lower(s) == "show.s2024.s01e02"
  {
  }

  lemma YearSeasonWithEpisodeSpan(s: string)
    requires s == "Show.S2024.S01E02"
    ensures 10 <= |s| && IsBoundary(Lower(s), 5) && IsBoundary(Lower(s), 10)
    ensures Lower(s)[5] == 's' && Lower(s)[6] == '2' && Lower(s)[7] == '0' && Lower(s)[8..10] == "24"
  {
    YearSeasonWithEpisodeLower(s);
    var t := "show.s2024.s01e02";
    assert t[5..10] == "s2024" && t[4] == '.' && t[10] == '.';
    LiteralSpan(t, 5, 10, "s2024");
    assert t[8..10] == "24";
  }

  lemma YearSeasonWithEpisode(s: string)
    requires s == "Show.S2024.S01E02"
    ensures OccursIn(IsoYearMarker, s)
  {
    YearSeasonWithEpisodeSpan(s);
    assert AllIn("24", Digit);
    IsoYearIn(s, 5);
  }

  /** Year seasons are season packs, even when an episode marker follows. */
  lemma YearSeasonIsPack()
    ensures IsSeasonPack("Show.S2024.Extras")
    ensures IsSeasonPack("Show.S2024.S01E02")
  {
    YearSeasonSpecial("Show.S2024.Extras");
    YearSeasonWithEpisode("Show.S2024.S01E02");
  }

  // ---------------------------------------------------------------------------
  // Merging

  /** Merging concatenates the warnings of the non-nil arguments, in order. */
  lemma MergeWarnings(a: Option<ProcessResult>, b: Option<ProcessResult>)
    ensures MergeProcessResults(a, b).warnings == WarningsOf(a) + WarningsOf(b)
    ensures |MergeProcessResults(a, b).warnings| == |WarningsOf(a)| + |WarningsOf(b)|
  {
    if a.None? { assert [] + WarningsOf(b) == WarningsOf(b); }
    else if b.None? { assert WarningsOf(a) + [] == WarningsOf(a); }
  }

  /** Merging is associative. */
  lemma {:induction false} MergeAssociative(a: Option<ProcessResult>, b: Option<ProcessResult>, c: Option<ProcessResult>)
    ensures MergeProcessResults(Some(MergeProcessResults(a, b)), c)
         == MergeProcessResults(a, Some(MergeProcessResults(b, c)))
  {
    var ab := MergeProcessResults(a, b);
    var bc := MergeProcessResults(b, c);
    MergeWarnings(a, b);
    MergeWarnings(b, c);
    MergeWarnings(Some(ab), c);
    MergeWarnings(a, Some(bc));
    assert (WarningsOf(a) + WarningsOf(b)) + WarningsOf(c) == WarningsOf(a) + (WarningsOf(b) + WarningsOf(c));
  }
}
