# gotypes differential oracle, modelled in Dafny

go-fuzz's `gotypes` example feeds one candidate Go program to three
implementations of the language front end: the go/types library, the gc
compiler and the gccgo compiler. Its `Fuzz` function compares their verdicts
and returns one of three results:

- skip the input (`return 0`);
- keep it as interesting (`return 1`);
- abort with a finding (`panic`).

The comparison first filters out inputs that expose already-filed bugs. Most
of `Fuzz` is the ordered list of such known divergences and known compiler
crashes. The list stands between the verdicts and a generic "the checkers
disagree" safety net.

The model covers the decision procedure of `Fuzz` (examples/gotypes/main.go)
and the ten regular expressions it uses.

- `ByteStrings` has Go strings and byte slices as `seq<byte>`. It defines
  `strings.Contains`/`bytes.Contains` as a substring predicate and the
  one-byte `bytes.Replace`.
- `Patterns` defines each of the ten regular expressions as the exact set of
  words it matches. `Matches` ("some substring is such a word") is
  `regexp.Match`. The four patterns that need no backtracking (bigNum,
  formatBug1, formatBug2, issue11531) also get a hand-coded scanner. That
  scanner looks at every start position once and is proved to agree with the
  regular expression.
- `Rules` holds the allow-lists as ordered tables of rules, each rule being
  the guard of one `if ... { return 0 }` written as an and of ors. It also has
  a method that walks a table in order and stops at the first rule that
  fires.
- `Oracle` has `Decide`, the body of `Fuzz`, as a total function of:
  - the input;
  - the verdicts of go/types, gc and gccgo (None for a nil error, else the
    error text);
  - the formatter.

  `Fuzz` is `Decide` with gc's verdict equal to go/types', as in the code.
  The lemmas prove the properties of the rule order. `RunFuzz` is the same
  procedure written as the code runs it: early returns, table scans,
  hand-coded scanners, and the input rebound before formatting. It is proved
  equal to `Fuzz`, through `RunSuppressions` and `RunCrashTriage`, one
  method per stage.

Notes on the code's rule order and results:

- The suppressions (main.go:51-174) run before the crash-signature checks
  (main.go:177-280). A suppressed input is skipped even when an error carries
  a crash signature (`SuppressionsPrecedeCrashChecks`).
- An input that go/types and gccgo both reject can still abort. This happens
  when an error carries a crash signature that is not on the allow-list;
  `BothRejectIsNeverPass` states exactly which results are possible.
- There are only three results: `return 0`, `return 1` and `panic`.
- When formatBug1 or formatBug2 matches, the input is kept without running
  the formatter at all (main.go:292-294).
- Crash signatures are recognised by matching the error text inside `Fuzz`
  (main.go:177, 194, 273), not in the compiler adapters.
- bigNum's top-level alternation lets `\.[0-9]*` stand alone. Every input
  containing a `.` is therefore skipped. The model keeps this, as written,
  and proves it (`DotAlwaysSkipped`).

## Model

| member | source | states |
|---|---|---|
| ByteStrings.ReplaceByte | examples/gotypes/main.go:296 | replacing every `\r` by a space keeps the length, turns every `\r` into a space, leaves every other byte unchanged, and leaves no `\r` |
| Patterns.ScanIsMatch | examples/gotypes/main.go:22-30 | the hand-coded scanners for bigNum, formatBug1, formatBug2 and issue11531 report a match exactly when the regular expression matches some substring |
| Patterns.DotMatchesBigNum | examples/gotypes/main.go:22 | any subject holding a `.` byte matches bigNum, through its alternative `\.[0-9]*` |
| Patterns.GccgoCrashIsLiteral | examples/gotypes/main.go:35 | gccgoCrash matches exactly the subjects that contain its literal text |
| Patterns.Issue11528Shape | examples/gotypes/main.go:28 | a word of issue11528 is exactly: slash-star, then star-slash, with at least one newline between them |
| Patterns.LastNewline | examples/gotypes/main.go:28 | the position of the newline that ends the last full line of a comment body, with no newline after it |
| Rules.FirstMatch | examples/gotypes/main.go:79-131 | walking an allow-list in order finds a rule exactly when some rule fires; the rule returned fires and no earlier one does |
| Oracle.Decide | examples/gotypes/main.go:38-310 | the input is kept only when all three checkers accept it and no pre-filter applies; a disagreement finding carries the three verdicts, which do disagree; a formatter finding carries the formatter's error on the input with `\r` blanked; a crash finding carries the crashing checker's own error text |
| Oracle.PreFilterWins | examples/gotypes/main.go:39-46 | when the bigNum or issue11531 scanner fires on the input, the result is skip whatever the checkers say |
| Oracle.DotAlwaysSkipped | examples/gotypes/main.go:39-41 | every input that contains a `.` byte is skipped |
| Oracle.GcArmIsDead | examples/gotypes/main.go:49-77 | with gc's verdict equal to go/types', none of the gc suppressions can fire, and the disagreement test reduces to go/types against gccgo |
| Oracle.GoTypesOnlyRejectionWins | examples/gotypes/main.go:79-132 | when go/types rejects, gccgo accepts and a listed go/types quirk fires, the checkers disagree, yet the result is skip and not the disagreement panic |
| Oracle.GccgoOnlyRejectionWins | examples/gotypes/main.go:134-162 | when go/types accepts, gccgo rejects and a listed gccgo quirk fires, the checkers disagree, yet the result is skip |
| Oracle.RedeclarationIsExcused | examples/gotypes/main.go:120-123 | a go/types-only error mentioning "redeclared in this block" is skipped |
| Oracle.SuppressionsPrecedeCrashChecks | examples/gotypes/main.go:51-192 | a suppressed input is skipped even when an error carries a crash signature that no allow-list excuses |
| Oracle.GcCrashTriage | examples/gotypes/main.go:177-192 | past the suppressions, a gc crash signature in gc's (that is, go/types') error gives skip exactly when the error is on the gc allow-list, and otherwise a gc crash finding with that error |
| Oracle.GccgoCrashTriage | examples/gotypes/main.go:194-271 | past the suppressions and the gc check, a gccgo internal compiler error gives skip exactly when it is on the gccgo allow-list, and otherwise a gccgo crash finding with that error |
| Oracle.AsanCrashTriage | examples/gotypes/main.go:273-280 | past the earlier checks, an AddressSanitizer report from gccgo gives skip exactly when it is the listed one, and otherwise a gccgo crash finding |
| Oracle.SafetyNet | examples/gotypes/main.go:282-287 | when go/types and gccgo disagree on validity, the input is never kept; the result is the disagreement finding with the three verdicts exactly when no pre-filter, suppression or crash rule decided first |
| Oracle.BothRejectIsNeverPass | examples/gotypes/main.go:177-290 | when both go/types and gccgo reject, the result is skip or a crash finding, never keep; without a crash signature it is skip |
| Oracle.PassMeansBothAccept | examples/gotypes/main.go:288-309 | a kept input was accepted by go/types and gccgo, escaped the pre-filters, and either matched a formatter bug pattern or was accepted by the formatter with `\r` blanked |
| Oracle.BothAcceptFormats | examples/gotypes/main.go:291-300 | when both accept and no pre-filter applies, the input is kept exactly when a formatter bug pattern matches or the formatter succeeds; otherwise the result is the formatter finding with its error |
| Oracle.OnlyFormatterImageMatters | examples/gotypes/main.go:292-297 | the formatter is consulted only on the input with `\r` blanked, and not at all when a formatter bug pattern matches |
| Oracle.RunExcused | examples/gotypes/main.go:79-162 | one asymmetric suppression block fires exactly when the accepting checker accepts, the rejecting one rejects, and some rule of its table holds for the rejecting checker's error |
| Oracle.RunSuppressions | examples/gotypes/main.go:51-174 | the suppressions, run in the code's order and walking the tables, return 0 exactly when some suppression of stage 2 applies |
| Oracle.RunCrashTriage | examples/gotypes/main.go:177-280 | the crash checks, run in the code's order and walking the allow-lists, reach exactly the decision of the crash-triage stage, or none when no crash signature is present |
| Oracle.RunFuzz | examples/gotypes/main.go:38-310 | the step-by-step procedure returns exactly what `Fuzz` does: it has the early returns, walks the allow-list tables in order, uses the hand-coded scanners, and rebinds the input to its `\r`-free copy |

## Left out

- The go/types pipeline `gotypes` (main.go:312-338) is not modelled. It parses, type-checks and builds SSA through library code. Only its verdict is modelled, as an input.
- A panic inside that pipeline's SSA loop (main.go:333-335) is not modelled either. It is part of `gotypes`.
- The `gc` and `gccgo` adapters (main.go:340-368) are left out. They write temporary files and run subprocesses, which is I/O. Only the verdict each returns is an input, with the error text as the message.
- `format.Source` (main.go:297) is an arbitrary function from bytes to an optional error. Its formatted output is never used by live code.
- The `fmt.Printf` diagnostics before each panic are output only. Each finding carries the messages they print.
- A panic is an `Outcome` value. Stack unwinding is outside the model.
- The dead `if false` re-validation block (main.go:301-308) is left out because it never runs.
- The commented-out gc call (main.go:48) is left out because the code aliases gc's verdict to go/types'. `Decide` still keeps the gc verdict as a separate input.
- Go's regexp engine is replaced by the exact language of each pattern. Matching is byte by byte, while Go matches rune by rune. The two agree for these patterns: each starts and ends with an ASCII byte, and the only non-ASCII-sensitive operator is `.`, which excludes just the newline.
- The issue numbers attached to each rule are carried as plain integers. They have no effect on the outcome.
