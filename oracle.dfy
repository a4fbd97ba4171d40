/**
 * The gotypes differential oracle (main.go:38-310). One input program is given
 * to go/types, gc and gccgo; Fuzz compares their verdicts and either skips the
 * input (return 0), keeps it as interesting (return 1) or aborts with a finding
 * (panic). The checks run first-match-wins in the code's order:
 *
 *   1. pre-filters on the raw bytes (main.go:39-46);
 *   2. known divergences that are suppressed (main.go:51-174);
 *   3. compiler-crash signatures with their allow-lists (main.go:177-280);
 *   4. the disagreement check (main.go:282-287);
 *   5. all checkers reject: skip (main.go:288-290);
 *   6. all accept: the formatter round trip (main.go:291-309).
 *
 * gc is not run: its verdict is the go/types verdict (main.go:48-49). `Decide`
 * takes the three verdicts separately and `Fuzz` ties gc to go/types.
 */
module Oracle {
  import opened Wrappers
  import opened ByteStrings
  import opened Patterns
  import opened Rules

  /** What a checker said about the program: None when it accepted it, else the text of its error. */
  type Verdict = Option<Bytes>

  /** format.Source reduced to its error result: None when formatting succeeds. */
  type Formatter = Bytes -> Verdict

  /** Why Fuzz panics. */
  datatype Finding =
    | GcCrashed(gcOutput: Bytes)                             // main.go:190-191
    | GccgoCrashed(gccgoOutput: Bytes)                       // main.go:269-270, 278-279
    | Disagreement(goTypes: Verdict, gc: Verdict, gccgo: Verdict)  // main.go:282-287
    | FormatFailed(formatErr: Bytes)                         // main.go:298-300

  /** return 0, return 1, or panic. */
  datatype Outcome = Skip | Pass | Fatal(finding: Finding)

  /** The checker rejected the program with an error whose text contains `text`. */
  predicate RejectsWith(v: Verdict, text: string) {
    v.Some? && Contains(v.value, B(text))
  }

  /** Inputs no checker is asked about (main.go:39-46). */
  predicate PreFiltered(data: Bytes) {
    Matches(BigNum, data) || Matches(Issue11531, data)
  }

  /** Known ways in which gc and go/types disagree (main.go:51-77). */
  predicate KnownGcDivergence(goErr: Verdict, gcErr: Verdict) {
    (goErr.None? &&
      (RejectsWith(gcErr, "line number out of range") ||
       RejectsWith(gcErr, "stupid shift:") ||
       RejectsWith(gcErr, "overflow in int -> string") ||
       RejectsWith(gcErr, "larger than address space") ||
       RejectsWith(gcErr, "non-canonical import path"))) ||
    (gcErr.None? &&
      (RejectsWith(goErr, "untyped float constant") ||
       RejectsWith(goErr, "illegal character U+")))
  }

  /** go/types rejects, gccgo accepts, and the reason is a known go/types quirk (main.go:79-132). */
  predicate GoTypesOnlyExcused(data: Bytes, goErr: Verdict, gccgoErr: Verdict) {
    gccgoErr.None? && goErr.Some? && AnyHolds(GoTypesOnlyRejects, data, goErr.value)
  }

  /** go/types accepts, gccgo rejects, and the reason is a known gccgo quirk (main.go:134-162). */
  predicate GccgoOnlyExcused(data: Bytes, goErr: Verdict, gccgoErr: Verdict) {
    goErr.None? && gccgoErr.Some? && AnyHolds(GccgoOnlyRejects, data, gccgoErr.value)
  }

  /** gccgo cannot find an import file: a broken installation, not a bug (main.go:165-169). */
  predicate BrokenGccgoInstall(goErr: Verdict, gccgoErr: Verdict) {
    goErr.None? && RejectsWith(gccgoErr, ": error: import file ")
  }

  /** go/types and gccgo disagree on a program with a multi-line comment (main.go:171-174). */
  predicate MultiLineCommentDivergence(data: Bytes, goErr: Verdict, gccgoErr: Verdict) {
    goErr.None? != gccgoErr.None? && Matches(Issue11528, data)
  }

  /** Some suppression of stage 2 returns 0. */
  predicate Suppressed(data: Bytes, goErr: Verdict, gcErr: Verdict, gccgoErr: Verdict) {
    KnownGcDivergence(goErr, gcErr) ||
    GoTypesOnlyExcused(data, goErr, gccgoErr) ||
    GccgoOnlyExcused(data, goErr, gccgoErr) ||
    BrokenGccgoInstall(goErr, gccgoErr) ||
    MultiLineCommentDivergence(data, goErr, gccgoErr)
  }

  /**
   * Stage 3 (main.go:177-280): the first crash signature found in an error
   * decides, skipping the input when that crash is already reported and
   * aborting otherwise; None when no signature is present.
   */
  function CrashTriage(data: Bytes, gcErr: Verdict, gccgoErr: Verdict): Option<Outcome> {
    if gcErr.Some? && Matches(GcCrash, gcErr.value) then
      Some(if AnyHolds(GcKnownCrashes, data, gcErr.value) then Skip else Fatal(GcCrashed(gcErr.value)))
    else if gccgoErr.Some? && Matches(GccgoCrash, gccgoErr.value) then
      Some(if AnyHolds(GccgoKnownCrashes, data, gccgoErr.value) then Skip else Fatal(GccgoCrashed(gccgoErr.value)))
    else if gccgoErr.Some? && Matches(AsanCrash, gccgoErr.value) then
      Some(if AnyHolds(AsanKnownCrashes, data, gccgoErr.value) then Skip else Fatal(GccgoCrashed(gccgoErr.value)))
    else None
  }

  /** The checkers do not all agree on whether the program is valid (main.go:282). */
  predicate Disagree(goErr: Verdict, gcErr: Verdict, gccgoErr: Verdict) {
    goErr.None? != gcErr.None? || goErr.None? != gccgoErr.None?
  }

  /** The body of Fuzz, with gc's verdict as a separate input. */
  function Decide(data: Bytes, goErr: Verdict, gcErr: Verdict, gccgoErr: Verdict, format: Formatter): (o: Outcome)
    ensures o == Pass ==> goErr.None? && gcErr.None? && gccgoErr.None? && !PreFiltered(data)
    ensures o.Fatal? && o.finding.Disagreement? ==>
      Disagree(goErr, gcErr, gccgoErr) && o.finding == Disagreement(goErr, gcErr, gccgoErr)
    ensures o.Fatal? && o.finding.FormatFailed? ==>
      !Disagree(goErr, gcErr, gccgoErr) && format(ReplaceByte(data, CR, SPACE)) == Some(o.finding.formatErr)
    ensures o.Fatal? && o.finding.GcCrashed? ==> gcErr == Some(o.finding.gcOutput)
    ensures o.Fatal? && o.finding.GccgoCrashed? ==> gccgoErr == Some(o.finding.gccgoOutput)
  {
    if PreFiltered(data) then Skip
    else if Suppressed(data, goErr, gcErr, gccgoErr) then Skip
    else if CrashTriage(data, gcErr, gccgoErr).Some? then CrashTriage(data, gcErr, gccgoErr).value
    else if Disagree(goErr, gcErr, gccgoErr) then Fatal(Disagreement(goErr, gcErr, gccgoErr))
    else if goErr.Some? then Skip
    else if Matches(FormatBug1, data) || Matches(FormatBug2, data) then Pass
    else
      match format(ReplaceByte(data, CR, SPACE))
      case Some(err) => Fatal(FormatFailed(err))
      case None => Pass
  }

  /** Fuzz(data) for the verdicts of go/types and gccgo on `data`; gc's verdict is go/types' (main.go:49). */
  function Fuzz(data: Bytes, goErr: Verdict, gccgoErr: Verdict, format: Formatter): Outcome {
    Decide(data, goErr, goErr, gccgoErr, format)
  }

  /** The pre-filters, read with the hand-coded scanners, skip the input whatever the checkers say. */
  lemma PreFilterWins(data: Bytes, goErr: Verdict, gccgoErr: Verdict, format: Formatter)
    requires Scan(BigNum, data) || Scan(Issue11531, data)
    ensures Fuzz(data, goErr, gccgoErr, format) == Skip
  {
    ScanIsMatch(BigNum, data);
    ScanIsMatch(Issue11531, data);
  }

  /** bigNum's first alternative matches a lone `.`: every input holding a dot is skipped. */
  lemma DotAlwaysSkipped(data: Bytes, goErr: Verdict, gccgoErr: Verdict, format: Formatter)
    requires DOT in data
    ensures Fuzz(data, goErr, gccgoErr, format) == Skip
  {
    var i :| 0 <= i < |data| && data[i] == DOT;
    DotMatchesBigNum(data, i);
  }

  /**
   * With gc's verdict equal to go/types', none of the gc suppressions can
   * fire, and the disagreement test reduces to go/types against gccgo.
   */
  lemma GcArmIsDead(v: Verdict, c: Verdict)
    ensures !KnownGcDivergence(v, v)
    ensures Disagree(v, v, c) <==> v.None? != c.None?
  {
  }

  /**
   * A listed go/types quirk wins over the disagreement check: the checkers
   * disagree, yet the input is skipped.
   */
  lemma GoTypesOnlyRejectionWins(data: Bytes, msg: Bytes, format: Formatter)
    requires AnyHolds(GoTypesOnlyRejects, data, msg)
    ensures Disagree(Some(msg), Some(msg), None)
    ensures Fuzz(data, Some(msg), None, format) == Skip
  {
  }

  /** A listed gccgo quirk wins over the disagreement check likewise. */
  lemma GccgoOnlyRejectionWins(data: Bytes, msg: Bytes, format: Formatter)
    requires AnyHolds(GccgoOnlyRejects, data, msg)
    ensures Disagree(None, None, Some(msg))
    ensures Fuzz(data, None, Some(msg), format) == Skip
  {
  }

  /** One entry read off the table: a redeclaration reported by go/types alone is skipped (main.go:120-123). */
  lemma RedeclarationIsExcused(data: Bytes, msg: Bytes, format: Formatter)
    requires Contains(msg, B("redeclared in this block"))
    ensures Fuzz(data, Some(msg), None, format) == Skip
  {
    assert ClauseHolds(GoTypesOnlyRejects[9].clauses[0], data, msg) by {
      assert TestHolds(GoTypesOnlyRejects[9].clauses[0][0], data, msg);
    }
    assert Holds(GoTypesOnlyRejects[9], data, msg);
  }

  /**
   * A gccgo internal compiler error that gets past stages 1 and 2 and is not
   * preceded by a gc crash is skipped exactly when it is on the allow-list,
   * and is a finding otherwise (main.go:194-270).
   */
  lemma GccgoCrashTriage(data: Bytes, goErr: Verdict, msg: Bytes, format: Formatter)
    requires !PreFiltered(data) && !Suppressed(data, goErr, goErr, Some(msg))
    requires !(goErr.Some? && Matches(GcCrash, goErr.value))
    requires Contains(msg, GCCGO_ICE)
    ensures Fuzz(data, goErr, Some(msg), format) == Skip <==> AnyHolds(GccgoKnownCrashes, data, msg)
    ensures Fuzz(data, goErr, Some(msg), format) != Skip ==>
      Fuzz(data, goErr, Some(msg), format) == Fatal(GccgoCrashed(msg))
  {
    GccgoCrashIsLiteral(msg);
  }

  /** The AddressSanitizer signature is triaged the same way, with its one-entry list (main.go:273-280). */
  lemma AsanCrashTriage(data: Bytes, goErr: Verdict, msg: Bytes, format: Formatter)
    requires !PreFiltered(data) && !Suppressed(data, goErr, goErr, Some(msg))
    requires !(goErr.Some? && Matches(GcCrash, goErr.value)) && !Matches(GccgoCrash, msg)
    requires Matches(AsanCrash, msg)
    ensures Fuzz(data, goErr, Some(msg), format) == Skip <==> AnyHolds(AsanKnownCrashes, data, msg)
    ensures Fuzz(data, goErr, Some(msg), format) != Skip ==>
      Fuzz(data, goErr, Some(msg), format) == Fatal(GccgoCrashed(msg))
  {
  }

  /**
   * The suppressions run before the crash checks (main.go:51-174 before
   * main.go:177-280): a suppressed input is skipped even when an error carries
   * a crash signature that no allow-list excuses.
   */
  lemma SuppressionsPrecedeCrashChecks(data: Bytes, goErr: Verdict, gccgoErr: Verdict, format: Formatter)
    requires Suppressed(data, goErr, goErr, gccgoErr)
    ensures Fuzz(data, goErr, gccgoErr, format) == Skip
  {
  }

  /**
   * The gc crash signature is looked for in gc's verdict, which is go/types'
   * (main.go:177-192): minding the allow-list, it aborts with that message.
   */
  lemma GcCrashTriage(data: Bytes, msg: Bytes, gccgoErr: Verdict, format: Formatter)
    requires !PreFiltered(data) && !Suppressed(data, Some(msg), Some(msg), gccgoErr)
    requires Matches(GcCrash, msg)
    ensures Fuzz(data, Some(msg), gccgoErr, format) == Skip <==> AnyHolds(GcKnownCrashes, data, msg)
    ensures Fuzz(data, Some(msg), gccgoErr, format) != Skip ==>
      Fuzz(data, Some(msg), gccgoErr, format) == Fatal(GcCrashed(msg))
  {
  }

  /**
   * The safety net (main.go:282-287): when go/types and gccgo disagree the
   * input is never kept; it is skipped only by a suppression or a known
   * crash, and otherwise aborts with the three verdicts.
   */
  lemma SafetyNet(data: Bytes, goErr: Verdict, gccgoErr: Verdict, format: Formatter)
    requires goErr.None? != gccgoErr.None?
    ensures Fuzz(data, goErr, gccgoErr, format) != Pass
    ensures Fuzz(data, goErr, gccgoErr, format) == Fatal(Disagreement(goErr, goErr, gccgoErr)) <==>
      !PreFiltered(data) && !Suppressed(data, goErr, goErr, gccgoErr) && CrashTriage(data, goErr, gccgoErr).None?
  {
  }

  /**
   * When both go/types and gccgo reject, the input is skipped unless a crash
   * signature outside the allow-lists aborts; it is never kept (main.go:177-290).
   */
  lemma BothRejectIsNeverPass(data: Bytes, goErr: Verdict, gccgoErr: Verdict, format: Formatter)
    requires goErr.Some? && gccgoErr.Some?
    ensures var o := Fuzz(data, goErr, gccgoErr, format);
      o == Skip || (o.Fatal? && (o.finding.GcCrashed? || o.finding.GccgoCrashed?))
    ensures CrashTriage(data, goErr, gccgoErr).None? ==> Fuzz(data, goErr, gccgoErr, format) == Skip
  {
  }

  /**
   * An input is kept only when both go/types and gccgo accept it, no
   * pre-filter applies, and either a formatter bug pattern is present or the
   * formatter accepts the input with carriage returns blanked (main.go:288-309).
   */
  lemma PassMeansBothAccept(data: Bytes, goErr: Verdict, gccgoErr: Verdict, format: Formatter)
    requires Fuzz(data, goErr, gccgoErr, format) == Pass
    ensures goErr.None? && gccgoErr.None? && !PreFiltered(data)
    ensures Matches(FormatBug1, data) || Matches(FormatBug2, data) || format(ReplaceByte(data, CR, SPACE)).None?
  {
  }

  /**
   * When both accept and no pre-filter applies, nothing before stage 6 fires:
   * the input is kept exactly when a formatter bug pattern spares it the
   * formatter or the formatter succeeds, and a formatter error is a finding.
   */
  lemma BothAcceptFormats(data: Bytes, format: Formatter)
    requires !PreFiltered(data)
    ensures Fuzz(data, None, None, format) == Pass <==>
      Matches(FormatBug1, data) || Matches(FormatBug2, data) || format(ReplaceByte(data, CR, SPACE)).None?
    ensures Fuzz(data, None, None, format) != Pass ==>
      Fuzz(data, None, None, format) == Fatal(FormatFailed(format(ReplaceByte(data, CR, SPACE)).value))
  {
  }

  /**
   * The formatter is consulted only on the input with carriage returns
   * blanked, and not at all when a formatter bug pattern matches
   * (main.go:292-297).
   */
  lemma OnlyFormatterImageMatters(data: Bytes, goErr: Verdict, gccgoErr: Verdict, f: Formatter, g: Formatter)
    requires f(ReplaceByte(data, CR, SPACE)) == g(ReplaceByte(data, CR, SPACE)) ||
             Matches(FormatBug1, data) || Matches(FormatBug2, data)
    ensures Fuzz(data, goErr, gccgoErr, f) == Fuzz(data, goErr, gccgoErr, g)
  {
  }

  /**
   * One asymmetric block of stage 2 (main.go:79-132, 134-162): when the
   * `accepting` checker accepts and the `rejecting` one rejects, the table is
   * walked in order against the rejecting checker's error.
   */
  method RunExcused(rules: seq<Rule>, data: Bytes, accepting: Verdict, rejecting: Verdict) returns (skip: bool)
    ensures skip <==> accepting.None? && rejecting.Some? && AnyHolds(rules, data, rejecting.value)
  {
    if accepting.None? && rejecting.Some? {
      var k := FirstMatch(rules, data, rejecting.value);
      return k.Some?;
    }
    return false;
  }

  /**
   * Stage 2 as the code runs it (main.go:51-174): the guarded suppressions,
   * with the two allow-lists walked in order; true when one of them returns 0.
   */
  method RunSuppressions(data: Bytes, goErr: Verdict, gcErr: Verdict, gccgoErr: Verdict) returns (skip: bool)
    ensures skip == Suppressed(data, goErr, gcErr, gccgoErr)
  {
    if KnownGcDivergence(goErr, gcErr) {
      return true;
    }
    skip := RunExcused(GoTypesOnlyRejects, data, gccgoErr, goErr);
    if skip {
      assert GoTypesOnlyExcused(data, goErr, gccgoErr);
      return true;
    }
    skip := RunExcused(GccgoOnlyRejects, data, goErr, gccgoErr);
    if skip {
      assert GccgoOnlyExcused(data, goErr, gccgoErr);
      return true;
    }
    assert !GoTypesOnlyExcused(data, goErr, gccgoErr) && !GccgoOnlyExcused(data, goErr, gccgoErr);
    return BrokenGccgoInstall(goErr, gccgoErr) || MultiLineCommentDivergence(data, goErr, gccgoErr);
  }

  /**
   * Stage 3 as the code runs it (main.go:177-280): the first crash signature
   * found decides, its allow-list walked in order; None when there is none.
   */
  method RunCrashTriage(data: Bytes, gcErr: Verdict, gccgoErr: Verdict) returns (t: Option<Outcome>)
    ensures t == CrashTriage(data, gcErr, gccgoErr)
  {
    if gcErr.Some? && Matches(GcCrash, gcErr.value) {
      var k := FirstMatch(GcKnownCrashes, data, gcErr.value);
      return Some(if k.Some? then Skip else Fatal(GcCrashed(gcErr.value)));
    }
    if gccgoErr.Some? && Matches(GccgoCrash, gccgoErr.value) {
      var k := FirstMatch(GccgoKnownCrashes, data, gccgoErr.value);
      return Some(if k.Some? then Skip else Fatal(GccgoCrashed(gccgoErr.value)));
    }
    if gccgoErr.Some? && Matches(AsanCrash, gccgoErr.value) {
      var k := FirstMatch(AsanKnownCrashes, data, gccgoErr.value);
      return Some(if k.Some? then Skip else Fatal(GccgoCrashed(gccgoErr.value)));
    }
    return None;
  }

  /**
   * Fuzz as the Go code runs it: guarded early returns, the allow-lists
   * walked in order, the hand-coded scanners for the simple patterns, and the
   * input rebound to its carriage-return-free copy before formatting.
   */
  method RunFuzz(data: Bytes, goErr: Verdict, gccgoErr: Verdict, format: Formatter) returns (o: Outcome)
    ensures o == Fuzz(data, goErr, gccgoErr, format)
  {
    ScanIsMatch(BigNum, data);
    ScanIsMatch(Issue11531, data);
    if Scan(BigNum, data) || Scan(Issue11531, data) {
      return Skip;
    }
    var gcErr := goErr;
    var skip := RunSuppressions(data, goErr, gcErr, gccgoErr);
    if skip {
      return Skip;
    }
    var crash := RunCrashTriage(data, gcErr, gccgoErr);
    if crash.Some? {
      return crash.value;
    }
    if Disagree(goErr, gcErr, gccgoErr) {
      return Fatal(Disagreement(goErr, gcErr, gccgoErr));
    }
    if goErr.Some? {
      return Skip;
    }
    ScanIsMatch(FormatBug1, data);
    ScanIsMatch(FormatBug2, data);
    if Scan(FormatBug1, data) || Scan(FormatBug2, data) {
      return Pass;
    }
    var src := data;
    src := ReplaceByte(src, CR, SPACE);
    var err := format(src);
    if err.Some? {
      return Fatal(FormatFailed(err.value));
    }
    return Pass;
  }

}
