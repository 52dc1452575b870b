/** The fragment of Go's RE2 regular expressions that the release classifier
    uses: `(?i)\b(alt1|alt2|...)\b` where every alternative is a sequence of
    character classes with a repetition count (`s`, `\d{1,4}`, `[pi]`, `[-]?`,
    `\d+`).  Case folding is ASCII only and `\b` is Go's ASCII word boundary.
    MatchString asks only whether SOME match exists, so a pattern matches a
    name iff some alternative occurs between two word boundaries. */
module Patterns {
  import opened Types

  /** How often a piece repeats: `{lo,hi}`, `?` (= {0,1}) or `{lo,}` (`+` is {1,}). */
  datatype Count = Between(lo: nat, hi: nat) | AtLeast(lo: nat)

  /** A character class: the characters listed (`[pi]`, `s`) or `\d`.
      Classes are written in lower case; the name is lower-cased before matching. */
  datatype CharClass = Chars(cs: string) | Digit

  /** One character class with its repetition, e.g. `\d{1,4}` or `[pi]`. */
  datatype Piece = Piece(cls: CharClass, count: Count)

  /** A compiled `(?i)\b(...)\b` pattern, or one that failed to compile. */
  datatype Pattern = Malformed | Words(alts: seq<seq<Piece>>)

  /** `\d` is ASCII only in RE2. */
  predicate InClass(c: char, k: CharClass) {
    match k
    case Chars(cs) => c in cs
    case Digit => '0' <= c <= '9'
  }

  predicate Allows(c: Count, k: nat) {
    match c
    case Between(lo, hi) => lo <= k <= hi
    case AtLeast(lo) => lo <= k
  }

  function MinCount(c: Count): nat {
    match c
    case Between(lo, _) => lo
    case AtLeast(lo) => lo
  }

  /** Go's `\w` in RE2: [0-9A-Za-z_]. */
  predicate IsWordChar(c: char) {
    ('0' <= c <= '9') || ('a' <= c <= 'z') || ('A' <= c <= 'Z') || c == '_'
  }

  function ToLower(c: char): (r: char)
    ensures IsWordChar(r) == IsWordChar(c)
    ensures !('A' <= r <= 'Z')
    ensures !('A' <= c <= 'Z') ==> r == c
  {
    if 'A' <= c <= 'Z' then (c as int + 32) as char else c
  }

  /** ASCII lower-casing, the case folding applied by `(?i)` in this model. */
  function Lower(s: string): (r: string)
    ensures |r| == |s|
    ensures forall i :: 0 <= i < |s| ==> r[i] == ToLower(s[i])
  {
    seq(|s|, i requires 0 <= i < |s| => ToLower(s[i]))
  }

  /** `\b` at position i (0 <= i <= |s|): a word character on exactly one side. */
  predicate IsBoundary(s: string, i: nat)
    requires i <= |s|
  {
    (i > 0 && IsWordChar(s[i - 1])) != (i < |s| && IsWordChar(s[i]))
  }

  predicate AllIn(w: string, cls: CharClass) {
    forall i :: 0 <= i < |w| ==> InClass(w[i], cls)
  }

  /** The pieces p[n..] match the whole of w. */
  predicate MatchesFrom(p: seq<Piece>, n: nat, w: string)
    requires n <= |p|
    decreases |p| - n
  {
    if n == |p| then w == []
    else exists k :: 0 <= k <= |w| && Allows(p[n].count, k) && AllIn(w[..k], p[n].cls) && MatchesFrom(p, n + 1, w[k..])
  }

  /** The alternative p matches the whole of w. */
  predicate MatchesAll(p: seq<Piece>, w: string) {
    MatchesFrom(p, 0, w)
  }

  /** The alternative occurs in s between two word boundaries, ignoring ASCII case. */
  predicate OccursIn(alt: seq<Piece>, s: string) {
    var t := Lower(s);
    exists i, j :: 0 <= i <= j <= |t| && IsBoundary(t, i) && IsBoundary(t, j) && MatchesAll(alt, t[i..j])
  }

  /** `regexp.MatchString` for a pattern of the shape `(?i)\b(a1|...|an)\b`. */
  predicate PatternMatches(p: Pattern, s: string) {
    p.Words? && exists a :: a in p.alts && OccursIn(a, s)
  }

  // Builders for the pieces used by the built-in patterns.

  function One(c: char): Piece { Piece(Chars([c]), Between(1, 1)) }
  /** `[cs]?` */
  function Optional(cs: string): Piece { Piece(Chars(cs), Between(0, 1)) }
  /** `[cs]` */
  function AnyOf(cs: string): Piece { Piece(Chars(cs), Between(1, 1)) }
  /** `\d{lo,hi}` */
  function Digits(lo: nat, hi: nat): Piece { Piece(Digit, Between(lo, hi)) }
  /** `\d+` */
  const SomeDigits: Piece := Piece(Digit, AtLeast(1))
  /** A literal word, one piece per character. */
  function Lit(w: string): (p: seq<Piece>)
    ensures |p| == |w|
    ensures forall i :: 0 <= i < |w| ==> p[i] == One(w[i])
  {
    seq(|w|, i requires 0 <= i < |w| => One(w[i]))
  }

  // ---------------------------------------------------------------------------
  // Case insensitivity

  lemma {:induction false} LowerIdempotent(s: string)
    ensures Lower(Lower(s)) == Lower(s)
  {
    var t := Lower(s);
    assert forall i :: 0 <= i < |s| ==> Lower(t)[i] == ToLower(t[i]) == t[i];
  }

  /** Matching looks at a name only through its lower-cased form, so a name and
      its lower-cased form match the same alternatives. */
  lemma OccursIgnoresCase(alt: seq<Piece>, s: string)
    ensures OccursIn(alt, s) == OccursIn(alt, Lower(s))
  {
    LowerIdempotent(s);
  }

  // ---------------------------------------------------------------------------
  // Building and taking apart matches

  /** A match of p[n..] on w1 + w2 when piece n takes exactly w1. */
  lemma MatchCons(p: seq<Piece>, n: nat, w1: string, w2: string)
    requires n < |p| && Allows(p[n].count, |w1|) && AllIn(w1, p[n].cls) && MatchesFrom(p, n + 1, w2)
    ensures MatchesFrom(p, n, w1 + w2)
  {
    var w := w1 + w2;
    assert w[..|w1|] == w1 && w[|w1|..] == w2;
  }

  /** The split a match makes between piece n and the pieces after it. */
  lemma MatchUncons(p: seq<Piece>, n: nat, w: string) returns (k: nat)
    requires n < |p| && MatchesFrom(p, n, w)
    ensures k <= |w| && Allows(p[n].count, k) && AllIn(w[..k], p[n].cls) && MatchesFrom(p, n + 1, w[k..])
  {
    k :| 0 <= k <= |w| && Allows(p[n].count, k) && AllIn(w[..k], p[n].cls) && MatchesFrom(p, n + 1, w[k..]);
  }

  lemma UnconsOne(p: seq<Piece>, n: nat, w: string)
    requires n < |p| && p[n].count == Between(1, 1) && MatchesFrom(p, n, w)
    ensures |w| >= 1 && InClass(w[0], p[n].cls) && MatchesFrom(p, n + 1, w[1..])
  {
    var k := MatchUncons(p, n, w);
    assert w[..k][0] == w[0];
  }

  /** The last piece takes all of w. */
  lemma ConsLast(p: seq<Piece>, w: string)
    requires |p| >= 1 && Allows(p[|p| - 1].count, |w|) && AllIn(w, p[|p| - 1].cls)
    ensures MatchesFrom(p, |p| - 1, w)
  {
    MatchCons(p, |p| - 1, w, []);
    assert w + [] == w;
  }

  lemma UnconsLast(p: seq<Piece>, w: string)
    requires |p| >= 1 && MatchesFrom(p, |p| - 1, w)
    ensures Allows(p[|p| - 1].count, |w|) && AllIn(w, p[|p| - 1].cls)
  {
    var k := MatchUncons(p, |p| - 1, w);
    assert w[..k] == w;
  }

  /** A two-piece alternative matches a + b when each piece takes its part. */
  lemma MatchTwo(p: seq<Piece>, a: string, b: string)
    requires |p| == 2
    requires Allows(p[0].count, |a|) && AllIn(a, p[0].cls)
    requires Allows(p[1].count, |b|) && AllIn(b, p[1].cls)
    ensures MatchesAll(p, a + b)
  {
    ConsLast(p, b);
    MatchCons(p, 0, a, b);
  }

  lemma MatchFourFrom2(p: seq<Piece>, c: string, d: string)
    requires |p| == 4
    requires Allows(p[2].count, |c|) && AllIn(c, p[2].cls)
    requires Allows(p[3].count, |d|) && AllIn(d, p[3].cls)
    ensures MatchesFrom(p, 2, c + d)
  {
    ConsLast(p, d);
    MatchCons(p, 2, c, d);
  }

  lemma MatchFourFrom1(p: seq<Piece>, b: string, c: string, d: string)
    requires |p| == 4
    requires Allows(p[1].count, |b|) && AllIn(b, p[1].cls)
    requires Allows(p[2].count, |c|) && AllIn(c, p[2].cls)
    requires Allows(p[3].count, |d|) && AllIn(d, p[3].cls)
    ensures MatchesFrom(p, 1, b + c + d)
  {
    MatchFourFrom2(p, c, d);
    MatchCons(p, 1, b, c + d);
    assert b + (c + d) == b + c + d;
  }

  lemma ConcatFour(a: string, b: string, c: string, d: string)
    ensures a + (b + c + d) == a + b + c + d
  {
  }

  /** A four-piece alternative matches a + b + c + d when each piece takes its part. */
  lemma MatchFour(p: seq<Piece>, a: string, b: string, c: string, d: string)
    requires |p| == 4
    requires Allows(p[0].count, |a|) && AllIn(a, p[0].cls)
    requires Allows(p[1].count, |b|) && AllIn(b, p[1].cls)
    requires Allows(p[2].count, |c|) && AllIn(c, p[2].cls)
    requires Allows(p[3].count, |d|) && AllIn(d, p[3].cls)
    ensures MatchesAll(p, a + b + c + d)
  {
    MatchFourFrom1(p, b, c, d);
    ConcatFour(a, b, c, d);
    MatchCons(p, 0, a, b + c + d);
  }

  /** Every literal word matches itself. */
  lemma LitMatchesItself(w: string)
    ensures MatchesAll(Lit(w), w)
  {
    LitMatchesSuffix(w, |w|);
  }

  lemma {:induction false} LitMatchesSuffix(w: string, m: nat)
    requires m <= |w|
    ensures MatchesFrom(Lit(w), |w| - m, w[|w| - m..])
    decreases m
  {
    if m > 0 {
      var n := |w| - m;
      LitMatchesSuffix(w, m - 1);
      MatchCons(Lit(w), n, [w[n]], w[n + 1..]);
      assert [w[n]] + w[n + 1..] == w[n..];
    }
  }

  /** An occurrence from a match of a slice whose two ends are word boundaries. */
  lemma OccursAt(alt: seq<Piece>, s: string, i: nat, j: nat)
    requires i <= j <= |s|
    requires IsBoundary(Lower(s), i) && IsBoundary(Lower(s), j) && MatchesAll(alt, Lower(s)[i..j])
    ensures OccursIn(alt, s)
  {
  }

  // ---------------------------------------------------------------------------
  // Ruling matches out: two adjacent pieces that both consume at least one
  // character leave an adjacent pair of characters from their classes.

  predicate HasAdjacent(t: string, a: CharClass, b: CharClass) {
    exists m :: 0 <= m < |t| - 1 && InClass(t[m], a) && InClass(t[m + 1], b)
  }

  /** A scan of the name s from position i: after lower-casing, no character
      of class a is followed by one of class b.  Written by index, on the name
      itself, so that the verifier can evaluate it on a literal name. */
  predicate NoAdjacentFrom(s: string, a: CharClass, b: CharClass, i: nat)
    decreases |s| - i
  {
    i + 1 >= |s|
    || (!(InClass(ToLower(s[i]), a) && InClass(ToLower(s[i + 1]), b)) && NoAdjacentFrom(s, a, b, i + 1))
  }

  lemma {:induction false} NoAdjacentFromSound(s: string, a: CharClass, b: CharClass, i: nat)
    requires NoAdjacentFrom(s, a, b, i)
    ensures forall m :: i <= m < |s| - 1 ==> !(InClass(Lower(s)[m], a) && InClass(Lower(s)[m + 1], b))
    decreases |s| - i
  {
    if i + 1 < |s| {
      NoAdjacentFromSound(s, a, b, i + 1);
    }
  }

  lemma FirstPieceConsumes(p: seq<Piece>, n: nat, w: string)
    requires n < |p| && MinCount(p[n].count) >= 1 && MatchesFrom(p, n, w)
    ensures |w| >= 1 && InClass(w[0], p[n].cls)
  {
    var k := MatchUncons(p, n, w);
    assert w[..k][0] == w[0];
  }

  lemma {:induction false} AdjacentPieces(p: seq<Piece>, n: nat, w: string, k: nat)
    requires n <= k && k + 1 < |p| && MinCount(p[k].count) >= 1 && MinCount(p[k + 1].count) >= 1
    requires MatchesFrom(p, n, w)
    ensures HasAdjacent(w, p[k].cls, p[k + 1].cls)
    decreases k - n
  {
    var d := MatchUncons(p, n, w);
    if k == n {
      FirstPieceConsumes(p, n + 1, w[d..]);
      assert w[..d][d - 1] == w[d - 1];
      assert w[d..][0] == w[d];
      assert InClass(w[d - 1], p[k].cls) && InClass(w[d], p[k + 1].cls);
    } else {
      AdjacentPieces(p, n + 1, w[d..], k);
      var m :| 0 <= m < |w[d..]| - 1 && InClass(w[d..][m], p[k].cls) && InClass(w[d..][m + 1], p[k + 1].cls);
      assert InClass(w[d + m], p[k].cls) && InClass(w[d + m + 1], p[k + 1].cls);
    }
  }

  /** If the lower-cased name has no character of piece k's class followed by
      one of piece k+1's class, the alternative cannot occur in it. */
  lemma AbsentByAdjacentPair(alt: seq<Piece>, s: string, k: nat)
    requires k + 1 < |alt| && MinCount(alt[k].count) >= 1 && MinCount(alt[k + 1].count) >= 1
    requires NoAdjacentFrom(s, alt[k].cls, alt[k + 1].cls, 0)
    ensures !OccursIn(alt, s)
  {
    var t := Lower(s);
    NoAdjacentFromSound(s, alt[k].cls, alt[k + 1].cls, 0);
    if OccursIn(alt, s) {
      var i, j :| 0 <= i <= j <= |t| && IsBoundary(t, i) && IsBoundary(t, j) && MatchesAll(alt, t[i..j]);
      AdjacentPieces(alt, 0, t[i..j], k);
      assert false;
    }
  }

  /** A scan of the name s from position i: after lower-casing, no character
      belongs to class a.  Written by index, like NoAdjacentFrom. */
  predicate NoneFrom(s: string, a: CharClass, i: nat)
    decreases |s| - i
  {
    i >= |s| || (!InClass(ToLower(s[i]), a) && NoneFrom(s, a, i + 1))
  }

  lemma {:induction false} NoneFromSound(s: string, a: CharClass, i: nat)
    requires NoneFrom(s, a, i)
    ensures forall m :: i <= m < |s| ==> !InClass(Lower(s)[m], a)
    decreases |s| - i
  {
    if i < |s| {
      NoneFromSound(s, a, i + 1);
    }
  }

  /** A piece that consumes at least one character leaves a character of its
      class in every match. */
  lemma {:induction false} PieceConsumes(p: seq<Piece>, n: nat, w: string, k: nat)
    requires n <= k < |p| && MinCount(p[k].count) >= 1 && MatchesFrom(p, n, w)
    ensures exists m :: 0 <= m < |w| && InClass(w[m], p[k].cls)
    decreases k - n
  {
    if k == n {
      FirstPieceConsumes(p, n, w);
    } else {
      var d := MatchUncons(p, n, w);
      PieceConsumes(p, n + 1, w[d..], k);
      var m :| 0 <= m < |w[d..]| && InClass(w[d..][m], p[k].cls);
      assert w[d + m] == w[d..][m];
    }
  }

  /** If no character of the lower-cased name belongs to the class of a piece
      that consumes at least one character, the alternative cannot occur. */
  lemma AbsentByClass(alt: seq<Piece>, s: string, k: nat)
    requires k < |alt| && MinCount(alt[k].count) >= 1
    requires NoneFrom(s, alt[k].cls, 0)
    ensures !OccursIn(alt, s)
  {
    var t := Lower(s);
    NoneFromSound(s, alt[k].cls, 0);
    if OccursIn(alt, s) {
      var i, j :| 0 <= i <= j <= |t| && IsBoundary(t, i) && IsBoundary(t, j) && MatchesAll(alt, t[i..j]);
      PieceConsumes(alt, 0, t[i..j], k);
      assert false;
    }
  }

  /** A word spelt out at t[i..j] between non-word characters (or the ends of
      t) lies between two word boundaries. */
  lemma LiteralSpan(t: string, i: nat, j: nat, w: string)
    requires i < j <= |t| && t[i..j] == w
    requires (i == 0 || !IsWordChar(t[i - 1])) && IsWordChar(w[0])
    requires IsWordChar(w[|w| - 1]) && (j == |t| || !IsWordChar(t[j]))
    ensures IsBoundary(t, i) && IsBoundary(t, j)
  {
    assert t[i] == w[0] && t[j - 1] == w[|w| - 1];
  }

  lemma AllInCons(c: char, s: string, cls: CharClass)
    requires InClass(c, cls) && AllIn(s, cls)
    ensures AllIn([c] + s, cls)
  {
    assert forall k :: 1 <= k < |s| + 1 ==> ([c] + s)[k] == s[k - 1];
  }

  lemma AllInConcat(x: string, y: string, cls: CharClass)
    requires AllIn(x, cls) && AllIn(y, cls)
    ensures AllIn(x + y, cls)
  {
    assert forall k :: |x| <= k < |x| + |y| ==> (x + y)[k] == y[k - |x|];
  }

  /** A match of piece n and the pieces after it, split into its two parts. */
  lemma SplitFrom(p: seq<Piece>, n: nat, w: string) returns (head: string, rest: string)
    requires n < |p| && MatchesFrom(p, n, w)
    ensures w == head + rest && Allows(p[n].count, |head|) && AllIn(head, p[n].cls) && MatchesFrom(p, n + 1, rest)
  {
    var k := MatchUncons(p, n, w);
    head, rest := w[..k], w[k..];
    assert w == head + rest;
  }

  lemma SplitFourFrom2(p: seq<Piece>, w: string) returns (c: string, d: string)
    requires |p| == 4 && MatchesFrom(p, 2, w)
    ensures w == c + d
    ensures Allows(p[2].count, |c|) && AllIn(c, p[2].cls)
    ensures Allows(p[3].count, |d|) && AllIn(d, p[3].cls)
  {
    c, d := SplitFrom(p, 2, w);
    UnconsLast(p, d);
  }

  lemma SplitFourFrom1(p: seq<Piece>, w: string) returns (b: string, c: string, d: string)
    requires |p| == 4 && MatchesFrom(p, 1, w)
    ensures w == b + c + d
    ensures Allows(p[1].count, |b|) && AllIn(b, p[1].cls)
    ensures Allows(p[2].count, |c|) && AllIn(c, p[2].cls)
    ensures Allows(p[3].count, |d|) && AllIn(d, p[3].cls)
  {
    var rest: string;
    b, rest := SplitFrom(p, 1, w);
    c, d := SplitFourFrom2(p, rest);
    ConcatThree(b, c, d);
  }

  /** A match of a four-piece alternative, split into its four parts. */
  lemma SplitFour(p: seq<Piece>, w: string) returns (a: string, b: string, c: string, d: string)
    requires |p| == 4 && MatchesAll(p, w)
    ensures w == a + b + c + d
    ensures Allows(p[0].count, |a|) && AllIn(a, p[0].cls)
    ensures Allows(p[1].count, |b|) && AllIn(b, p[1].cls)
    ensures Allows(p[2].count, |c|) && AllIn(c, p[2].cls)
    ensures Allows(p[3].count, |d|) && AllIn(d, p[3].cls)
  {
    var rest: string;
    a, rest := SplitFrom(p, 0, w);
    b, c, d := SplitFourFrom1(p, rest);
    ConcatFour(a, b, c, d);
  }
}
