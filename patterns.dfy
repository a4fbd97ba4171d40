/**
 * The pattern library: the ten regular expressions compiled at package level
 * (main.go:22-36). Each is given as the exact set of words it matches
 * (`InLang`); `regexp.Match` and `regexp.MatchString` report whether some
 * substring of the subject is such a word (`Matches`). Because every pattern
 * begins and ends with an ASCII character and `.` excludes only the newline,
 * treating the subject byte by byte agrees with Go's rune-by-rune matching.
 *
 * The four patterns that need no backtracking also get a hand-coded scanner
 * (`Scan`) that looks at each start position once; `ScanIsMatch` proves it
 * reports exactly what the regular expression does.
 */
module Patterns {
  import opened ByteStrings

  datatype Pattern =
    | BigNum      // bigNum, main.go:22
    | FormatBug1  // formatBug1, main.go:25
    | FormatBug2  // formatBug2, main.go:26
    | Issue11528  // issue11528, main.go:28
    | Issue11533  // issue11533, main.go:29
    | Issue11531  // issue11531, main.go:30
    | FpRounding  // fpRounding, main.go:32
    | GcCrash     // gcCrash, main.go:34
    | GccgoCrash  // gccgoCrash, main.go:35
    | AsanCrash   // asanCrash, main.go:36

  /** The character classes the patterns use. */
  datatype Class =
    | Digit  // 0 to 9
    | Blank  // space, tab, carriage return, newline (issue11531)
    | Space  // space, tab, newline, carriage return, form feed, vertical tab (formatBug1/2)

  predicate InClass(c: Class, b: byte) {
    match c
    case Digit => ZERO <= b <= NINE
    case Blank => b == SPACE || b == TAB || b == CR || b == NL
    case Space => b == SPACE || b == TAB || b == NL || b == CR || b == FF || b == VT
  }

  predicate AllIn(c: Class, w: Bytes) {
    forall k | 0 <= k < |w| :: InClass(c, w[k])
  }

  /** What `.*` matches: anything but a newline. */
  predicate NoNewline(w: Bytes) {
    forall k | 0 <= k < |w| :: w[k] != NL
  }

  predicate ExponentMark(b: byte) {
    b == LOWER_E || b == UPPER_E
  }

  /** The class that may precede the octal-looking literal in issue11533. */
  predicate OctalLead(b: byte) {
    b in {SPACE, CR, TAB, NL, EQUALS, PLUS, MINUS, STAR, CARET, SLASH, LPAREN, COMMA}
  }

  /** The suffix class of issue11533: imaginary `i` or an exponent mark. */
  predicate ImaginaryOrExponent(b: byte) {
    b == LOWER_I || ExponentMark(b)
  }

  // The literal parts of the longer patterns.
  const FP_OPEN: Bytes := B(" (untyped float constant ")
  const FP_CLOSE: Bytes := B(") truncated to ")
  const GC_FILE: Bytes := B("\n/tmp/fuzz.gc")
  const GC_ICE: Bytes := B(": internal compiler error: ")
  const GCCGO_ICE: Bytes := B("\ngo1: internal compiler error:")
  const ASAN_OPEN: Bytes := B("\n==")
  const ASAN_CLOSE: Bytes := B("==ERROR: AddressSanitizer: ")

  /** `w` starts with `pre` and ends with `post`, the two not overlapping. */
  predicate Framed(w: Bytes, pre: Bytes, post: Bytes) {
    |pre| + |post| <= |w| && w[..|pre|] == pre && w[|w| - |post|..] == post
  }

  function Inner(w: Bytes, pre: Bytes, post: Bytes): Bytes
    requires Framed(w, pre, post)
  {
    w[|pre|..|w| - |post|]
  }

  /** bigNum, first alternative: a dot followed by any number of digits. */
  predicate DotDigits(w: Bytes) {
    |w| >= 1 && w[0] == DOT && AllIn(Digit, w[1..])
  }

  /** Optionally a minus, then optionally a plus, in that order. */
  predicate Signs(u: Bytes) {
    u == [] || u == [MINUS] || u == [PLUS] || u == [MINUS, PLUS]
  }

  /** bigNum, after the exponent mark: the signs, then at least three digits. */
  predicate ExponentTail(t: Bytes) {
    exists m {:trigger t[..m]} | 0 <= m <= 2 && m <= |t| :: Signs(t[..m]) && |t| - m >= 3 && AllIn(Digit, t[m..])
  }

  /** bigNum, second alternative: digits, an exponent mark, and a long exponent. */
  predicate ExponentNumber(w: Bytes) {
    exists k {:trigger w[..k]} | 1 <= k < |w| :: AllIn(Digit, w[..k]) && ExponentMark(w[k]) && ExponentTail(w[k + 1..])
  }

  /** gcCrash, between the file name prefix and the message: line digits, a colon, column digits. */
  predicate LineColumn(mid: Bytes) {
    exists k {:trigger mid[..k]} | 1 <= k < |mid| - 1 :: AllIn(Digit, mid[..k]) && mid[k] == COLON && AllIn(Digit, mid[k + 1..])
  }

  /** formatBug1: star-slash, then spaces, then `;`. */
  predicate CommentThenSemicolon(w: Bytes) {
    |w| >= 3 && w[0] == STAR && w[1] == SLASH && AllIn(Space, w[2..|w| - 1]) && w[|w| - 1] == SEMI
  }

  /** formatBug2: `;`, then spaces, then slash-star. */
  predicate SemicolonThenComment(w: Bytes) {
    |w| >= 3 && w[0] == SEMI && AllIn(Space, w[1..|w| - 2]) && w[|w| - 2] == SLASH && w[|w| - 1] == STAR
  }

  /**
   * issue11528: slash-star, one or more lines each ending in a newline, a last line
   * without one, then star-slash; position k is the newline ending the last full line.
   */
  predicate MultiLineComment(w: Bytes) {
    |w| >= 5 && w[0] == SLASH && w[1] == STAR && w[|w| - 2] == STAR && w[|w| - 1] == SLASH &&
    exists k | 2 <= k < |w| - 2 :: w[k] == NL && NoNewline(w[k + 1..|w| - 2])
  }

  /** issue11533: a lead byte, `0`, one or more digits, then `i`, `e` or `E`. */
  predicate OctalLooking(w: Bytes) {
    |w| >= 4 && OctalLead(w[0]) && w[1] == ZERO && AllIn(Digit, w[2..|w| - 1]) && ImaginaryOrExponent(w[|w| - 1])
  }

  /** issue11531: `,`, then blanks, then `,`. */
  predicate EmptyListElement(w: Bytes) {
    |w| >= 2 && w[0] == COMMA && AllIn(Blank, w[1..|w| - 1]) && w[|w| - 1] == COMMA
  }

  /** asanCrash: the report header with a process number. */
  predicate AsanHeader(w: Bytes) {
    Framed(w, ASAN_OPEN, ASAN_CLOSE) && |Inner(w, ASAN_OPEN, ASAN_CLOSE)| >= 1 &&
    AllIn(Digit, Inner(w, ASAN_OPEN, ASAN_CLOSE))
  }

  /** `w` is, as a whole, a word of the pattern `p`. */
  predicate InLang(p: Pattern, w: Bytes) {
    match p
    case BigNum => DotDigits(w) || ExponentNumber(w)
    case FormatBug1 => CommentThenSemicolon(w)
    case FormatBug2 => SemicolonThenComment(w)
    case Issue11528 => MultiLineComment(w)
    case Issue11533 => OctalLooking(w)
    case Issue11531 => EmptyListElement(w)
    case FpRounding => Framed(w, FP_OPEN, FP_CLOSE) && NoNewline(Inner(w, FP_OPEN, FP_CLOSE))
    case GcCrash => Framed(w, GC_FILE, GC_ICE) && LineColumn(Inner(w, GC_FILE, GC_ICE))
    case GccgoCrash => w == GCCGO_ICE
    case AsanCrash => AsanHeader(w)
  }

  /** regexp.Match(s): some substring of `s` is a word of `p`. */
  predicate Matches(p: Pattern, s: Bytes) {
    exists i, j | 0 <= i <= j <= |s| :: InLang(p, s[i..j])
  }

  /** The first position at or after `i` whose byte is not in class `c`. */
  function RunEnd(c: Class, s: Bytes, i: nat): (j: nat)
    requires i <= |s|
    ensures i <= j <= |s|
    ensures forall k | i <= k < j :: InClass(c, s[k])
    ensures j < |s| ==> !InClass(c, s[j])
    decreases |s| - i
  {
    if i < |s| && InClass(c, s[i]) then RunEnd(c, s, i + 1) else i
  }

  /** Past an optional minus and then an optional plus that start at `p`. */
  function AfterSigns(s: Bytes, p: nat): (q: nat)
    requires p <= |s|
    ensures p <= q <= p + 2 && q <= |s|
    ensures Signs(s[p..q])
  {
    var p1 := if p < |s| && s[p] == MINUS then p + 1 else p;
    if p1 < |s| && s[p1] == PLUS then p1 + 1 else p1
  }

  /** bigNum's test at one start: a dot, or one digit, an exponent mark, the signs and three digits. */
  predicate BigNumAt(s: Bytes, i: nat)
    requires i < |s|
  {
    s[i] == DOT ||
    (InClass(Digit, s[i]) && i + 1 < |s| && ExponentMark(s[i + 1]) &&
     var q := AfterSigns(s, i + 2); RunEnd(Digit, s, q) >= q + 3)
  }

  /** formatBug1's test at one start: star-slash, the run of spaces after it, then `;`. */
  predicate CommentThenSemicolonAt(s: Bytes, i: nat)
    requires i < |s|
  {
    i + 1 < |s| && s[i] == STAR && s[i + 1] == SLASH &&
    var j := RunEnd(Space, s, i + 2); j < |s| && s[j] == SEMI
  }

  /** formatBug2's test at one start: `;`, the run of spaces after it, then slash-star. */
  predicate SemicolonThenCommentAt(s: Bytes, i: nat)
    requires i < |s|
  {
    s[i] == SEMI &&
    var j := RunEnd(Space, s, i + 1); j + 1 < |s| && s[j] == SLASH && s[j + 1] == STAR
  }

  /** issue11531's test at one start: `,`, the run of blanks after it, then `,`. */
  predicate EmptyListElementAt(s: Bytes, i: nat)
    requires i < |s|
  {
    s[i] == COMMA &&
    var j := RunEnd(Blank, s, i + 1); j < |s| && s[j] == COMMA
  }

  /** The patterns that have a hand-coded scanner. */
  predicate Simple(p: Pattern) {
    p.BigNum? || p.FormatBug1? || p.FormatBug2? || p.Issue11531?
  }

  /** The scanner's test at one start position; it never backtracks. */
  predicate StartsAt(p: Pattern, s: Bytes, i: nat)
    requires Simple(p) && i < |s|
  {
    if p.BigNum? then BigNumAt(s, i)
    else if p.FormatBug1? then CommentThenSemicolonAt(s, i)
    else if p.FormatBug2? then SemicolonThenCommentAt(s, i)
    else EmptyListElementAt(s, i)
  }

  /** The hand-coded matcher: some start position passes the scanner's test. */
  predicate Scan(p: Pattern, s: Bytes)
    requires Simple(p)
  {
    exists i | 0 <= i < |s| :: StartsAt(p, s, i)
  }

  lemma AllInRange(c: Class, s: Bytes, a: int, b: int)
    requires 0 <= a <= b <= |s|
    ensures AllIn(c, s[a..b]) <==> forall k | a <= k < b :: InClass(c, s[k])
  {
    if AllIn(c, s[a..b]) {
      forall k | a <= k < b ensures InClass(c, s[k]) {
        assert s[k] == s[a..b][k - a];
      }
    }
  }

  /** A run of class `c` from `i` that stops at `j` is what `RunEnd` finds. */
  lemma RunEndExact(c: Class, s: Bytes, i: nat, j: nat)
    requires i <= j < |s|
    requires forall k | i <= k < j :: InClass(c, s[k])
    requires !InClass(c, s[j])
    ensures RunEnd(c, s, i) == j
  {
  }

  /** The signs the regular expression takes are those `AfterSigns` skips, when a digit follows them. */
  lemma AfterSignsExact(s: Bytes, p: nat, m: nat)
    requires p + m < |s| && m <= 2 && Signs(s[p..p + m]) && InClass(Digit, s[p + m])
    ensures AfterSigns(s, p) == p + m
  {
    if m == 1 {
      assert s[p] == s[p..p + m][0];
    } else if m == 2 {
      assert s[p] == s[p..p + m][0] && s[p + 1] == s[p..p + m][1];
    }
  }

  lemma BigNumAtMatches(s: Bytes, i: nat)
    requires i < |s| && BigNumAt(s, i)
    ensures Matches(BigNum, s)
  {
    if s[i] == DOT {
      assert DotDigits(s[i..i + 1]);
      assert InLang(BigNum, s[i..i + 1]);
    } else {
      var q := AfterSigns(s, i + 2);
      var w := s[i..q + 3];
      var t := w[2..];
      var m := q - (i + 2);
      assert t[..m] == s[i + 2..q];
      AllInRange(Digit, s, q, q + 3);
      assert t[m..] == s[q..q + 3];
      assert ExponentTail(t);
      assert w[..1] == [s[i]];
      assert ExponentNumber(w);
      assert InLang(BigNum, w);
    }
  }

  /**
   * The bytes from `i` on read digit, exponent mark, `m` signs and three digits:
   * the shortest word of bigNum's exponent alternative.
   */
  predicate ExponentShape(s: Bytes, i: nat, m: nat) {
    i + m + 5 <= |s| && m <= 2 &&
    InClass(Digit, s[i]) && ExponentMark(s[i + 1]) && Signs(s[i + 2..i + 2 + m]) &&
    InClass(Digit, s[i + 2 + m]) && InClass(Digit, s[i + 3 + m]) && InClass(Digit, s[i + 4 + m])
  }

  /** The exponent alternative, seen from the digit just before the exponent mark. */
  lemma ExponentStartsAt(s: Bytes, i: nat, m: nat)
    requires ExponentShape(s, i, m)
    ensures BigNumAt(s, i)
  {
    AfterSignsExact(s, i + 2, m);
  }

  /** Every word of the exponent alternative holds that shortest word, ending at its exponent mark plus one. */
  lemma ExponentParts(w: Bytes) returns (k: nat, m: nat)
    requires ExponentNumber(w)
    ensures 1 <= k && ExponentShape(w, k - 1, m)
  {
    k :| 1 <= k < |w| && AllIn(Digit, w[..k]) && ExponentMark(w[k]) && ExponentTail(w[k + 1..]);
    var t := w[k + 1..];
    m :| 0 <= m <= 2 && m <= |t| && Signs(t[..m]) && |t| - m >= 3 && AllIn(Digit, t[m..]);
    assert w[k - 1] == w[..k][k - 1];
    assert t[..m] == w[k + 1..k + 1 + m];
    AllInRange(Digit, t, m, |t|);
    assert t[m] == w[k + 1 + m] && t[m + 1] == w[k + 2 + m] && t[m + 2] == w[k + 3 + m];
  }

  /** The shape found in a slice is found in the subject it was cut from. */
  lemma ExponentShapeIn(s: Bytes, a: nat, b: nat, j: nat, m: nat)
    requires a <= b <= |s| && ExponentShape(s[a..b], j, m)
    ensures ExponentShape(s, a + j, m)
  {
    var w := s[a..b];
    var i := a + j;
    assert s[i] == w[j] && s[i + 1] == w[j + 1];
    assert s[i + 2 + m] == w[j + 2 + m] && s[i + 3 + m] == w[j + 3 + m] && s[i + 4 + m] == w[j + 4 + m];
    SliceOfSlice(s, a, b, j + 2, j + 2 + m);
  }

  lemma BigNumMatchStarts(s: Bytes, a: nat, b: nat) returns (i: nat)
    requires a <= b <= |s| && InLang(BigNum, s[a..b])
    ensures i < |s| && BigNumAt(s, i)
  {
    if DotDigits(s[a..b]) {
      assert s[a] == s[a..b][0];
      i := a;
    } else {
      var k, m := ExponentParts(s[a..b]);
      ExponentShapeIn(s, a, b, k - 1, m);
      i := a + k - 1;
      ExponentStartsAt(s, i, m);
    }
  }

  lemma CommentThenSemicolonAtMatches(s: Bytes, i: nat)
    requires i < |s| && CommentThenSemicolonAt(s, i)
    ensures Matches(FormatBug1, s)
  {
    var j := RunEnd(Space, s, i + 2);
    var w := s[i..j + 1];
    SliceOfSlice(s, i, j + 1, 2, |w| - 1);
    AllInRange(Space, s, i + 2, j);
    assert InLang(FormatBug1, w);
  }

  lemma CommentThenSemicolonStarts(s: Bytes, a: nat, b: nat)
    requires a <= b <= |s| && InLang(FormatBug1, s[a..b])
    ensures a < |s| && CommentThenSemicolonAt(s, a)
  {
    var w := s[a..b];
    assert CommentThenSemicolon(w);
    SliceOfSlice(s, a, b, 2, |w| - 1);
    AllInRange(Space, s, a + 2, b - 1);
    assert s[b - 1] == w[|w| - 1];
    RunEndExact(Space, s, a + 2, b - 1);
    assert s[a] == w[0] && s[a + 1] == w[1];
  }

  lemma SemicolonThenCommentAtMatches(s: Bytes, i: nat)
    requires i < |s| && SemicolonThenCommentAt(s, i)
    ensures Matches(FormatBug2, s)
  {
    var j := RunEnd(Space, s, i + 1);
    var w := s[i..j + 2];
    SliceOfSlice(s, i, j + 2, 1, |w| - 2);
    AllInRange(Space, s, i + 1, j);
    assert InLang(FormatBug2, w);
  }

  lemma SemicolonThenCommentStarts(s: Bytes, a: nat, b: nat)
    requires a <= b <= |s| && InLang(FormatBug2, s[a..b])
    ensures a < |s| && SemicolonThenCommentAt(s, a)
  {
    var w := s[a..b];
    assert SemicolonThenComment(w);
    SliceOfSlice(s, a, b, 1, |w| - 2);
    AllInRange(Space, s, a + 1, b - 2);
    assert s[b - 2] == w[|w| - 2] && s[b - 1] == w[|w| - 1];
    RunEndExact(Space, s, a + 1, b - 2);
    assert s[a] == w[0];
  }

  lemma EmptyListElementAtMatches(s: Bytes, i: nat)
    requires i < |s| && EmptyListElementAt(s, i)
    ensures Matches(Issue11531, s)
  {
    var j := RunEnd(Blank, s, i + 1);
    var w := s[i..j + 1];
    SliceOfSlice(s, i, j + 1, 1, |w| - 1);
    AllInRange(Blank, s, i + 1, j);
    assert InLang(Issue11531, w);
  }

  lemma EmptyListElementStarts(s: Bytes, a: nat, b: nat)
    requires a <= b <= |s| && InLang(Issue11531, s[a..b])
    ensures a < |s| && EmptyListElementAt(s, a)
  {
    var w := s[a..b];
    assert EmptyListElement(w);
    SliceOfSlice(s, a, b, 1, |w| - 1);
    AllInRange(Blank, s, a + 1, b - 1);
    assert s[b - 1] == w[|w| - 1];
    RunEndExact(Blank, s, a + 1, b - 1);
    assert s[a] == w[0];
  }

  /** The hand-coded scanners report a match exactly when the regular expression does. */
  lemma ScanIsMatch(p: Pattern, s: Bytes)
    requires Simple(p)
    ensures Scan(p, s) <==> Matches(p, s)
  {
    if Scan(p, s) {
      var i :| 0 <= i < |s| && StartsAt(p, s, i);
      match p
      case BigNum => BigNumAtMatches(s, i);
      case FormatBug1 => CommentThenSemicolonAtMatches(s, i);
      case FormatBug2 => SemicolonThenCommentAtMatches(s, i);
      case Issue11531 => EmptyListElementAtMatches(s, i);
    }
    if Matches(p, s) {
      var a, b :| 0 <= a <= b <= |s| && InLang(p, s[a..b]);
      match p
      case BigNum =>
        var i := BigNumMatchStarts(s, a, b);
        assert StartsAt(p, s, i);
      case FormatBug1 =>
        CommentThenSemicolonStarts(s, a, b);
        assert StartsAt(p, s, a);
      case FormatBug2 =>
        SemicolonThenCommentStarts(s, a, b);
        assert StartsAt(p, s, a);
      case Issue11531 =>
        EmptyListElementStarts(s, a, b);
        assert StartsAt(p, s, a);
    }
  }

  /**
   * The first alternative of bigNum needs no digit after the dot, so every
   * subject holding a `.` byte matches bigNum.
   */
  lemma DotMatchesBigNum(s: Bytes, i: nat)
    requires i < |s| && s[i] == DOT
    ensures Matches(BigNum, s)
  {
    BigNumAtMatches(s, i);
  }

  /** gccgoCrash has no operators: matching it is containing its text. */
  lemma GccgoCrashIsLiteral(s: Bytes)
    ensures Matches(GccgoCrash, s) <==> Contains(s, GCCGO_ICE)
  {
    if Matches(GccgoCrash, s) {
      var i, j :| 0 <= i <= j <= |s| && InLang(GccgoCrash, s[i..j]);
      assert OccursAt(s, GCCGO_ICE, i);
    }
    if Contains(s, GCCGO_ICE) {
      var i :| 0 <= i <= |s| - |GCCGO_ICE| && OccursAt(s, GCCGO_ICE, i);
      assert InLang(GccgoCrash, s[i..i + |GCCGO_ICE|]);
    }
  }

  /**
   * issue11528 in plain terms: slash-star, later star-slash, with at least one newline
   * between them (the regular expression's lines end at the last such newline).
   */
  lemma Issue11528Shape(w: Bytes)
    ensures InLang(Issue11528, w) <==>
      (|w| >= 5 && w[0] == SLASH && w[1] == STAR && w[|w| - 2] == STAR && w[|w| - 1] == SLASH &&
       NL in w[2..|w| - 2])
  {
    if |w| >= 5 && NL in w[2..|w| - 2] {
      var k := LastNewline(w[2..|w| - 2]);
      assert w[2 + k] == NL;
      assert w[2 + k + 1..|w| - 2] == w[2..|w| - 2][k + 1..];
    }
    if InLang(Issue11528, w) {
      var k :| 2 <= k < |w| - 2 && w[k] == NL && NoNewline(w[k + 1..|w| - 2]);
      assert w[2..|w| - 2][k - 2] == NL;
    }
  }

  /** The position of the last newline of `m`. */
  function LastNewline(m: Bytes): (k: nat)
    requires NL in m
    ensures k < |m| && m[k] == NL && NoNewline(m[k + 1..])
  {
    if m[|m| - 1] == NL then |m| - 1
    else
      assert NL in m[..|m| - 1] by { var i :| 0 <= i < |m| && m[i] == NL; assert m[..|m| - 1][i] == NL; }
      var k := LastNewline(m[..|m| - 1]);
      assert m[k + 1..] == m[..|m| - 1][k + 1..] + [m[|m| - 1]];
      k
  }

}
