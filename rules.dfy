/**
 * The oracle's allow-lists as ordered tables. Each run of `if` statements in
 * Fuzz that ends in `return 0` (main.go:79-131, 134-161, 178-189, 195-268,
 * 273-276) becomes a sequence of rules in the code's order: a rule fires when
 * every clause holds, a clause when one of its tests holds, so a rule is the
 * guard of one `if` written as an and of ors. A test looks for a literal in the
 * error message or in the input, or matches one of the patterns.
 */
module Rules {
  import opened Wrappers
  import opened ByteStrings
  import opened Patterns

  datatype Test =
    | MsgHas(text: Bytes)            // strings.Contains(err.Error(), text)
    | DataHas(text: Bytes)           // bytes.Contains(data, text)
    | MsgMatches(pattern: Pattern)   // pattern.MatchString(err.Error())
    | DataMatches(pattern: Pattern)  // pattern.Match(data)

  /** One guarded `return 0`, with the issue numbers its comment cites. */
  datatype Rule = Rule(issues: seq<int>, clauses: seq<seq<Test>>)

  predicate TestHolds(t: Test, data: Bytes, msg: Bytes) {
    match t
    case MsgHas(text) => Contains(msg, text)
    case DataHas(text) => Contains(data, text)
    case MsgMatches(p) => Matches(p, msg)
    case DataMatches(p) => Matches(p, data)
  }

  predicate ClauseHolds(clause: seq<Test>, data: Bytes, msg: Bytes) {
    exists t | 0 <= t < |clause| :: TestHolds(clause[t], data, msg)
  }

  predicate Holds(rule: Rule, data: Bytes, msg: Bytes) {
    forall c | 0 <= c < |rule.clauses| :: ClauseHolds(rule.clauses[c], data, msg)
  }

  /** Some rule of the table fires: the `if` chain returns 0. */
  predicate AnyHolds(rules: seq<Rule>, data: Bytes, msg: Bytes) {
    exists j | 0 <= j < |rules| :: Holds(rules[j], data, msg)
  }

  /** The common rule: the message contains one literal. */
  function MsgRule(issues: seq<int>, text: string): Rule {
    Rule(issues, [[MsgHas(B(text))]])
  }

  /** go/types rejects a program gccgo accepts (main.go:79-131). */
  const GoTypesOnlyRejects: seq<Rule> := [
    MsgRule([11524], "invalid operation: stupid shift count"),
    Rule([11527], [[DataHas(B("//line")), DataHas(B("/*"))],
                   [MsgHas(B("illegal UTF-8 encoding")), MsgHas(B("illegal character NUL"))]]),
    MsgRule([11529], "invalid operation: operator ^ not defined for"),
    Rule([], [[MsgMatches(FpRounding)]]),
    Rule([11547, 11535], [[DataHas(B("_"))],
                          [MsgHas(B(": undeclared name: ")), MsgHas(B("invalid array length"))]]),
    MsgRule([11561], "not enough arguments for complex"),
    MsgRule([11566], "operator | not defined for"),
    MsgRule([11567], "nil (untyped nil value) is not a type"),
    MsgRule([11570], "(built-in) must be called"),
    MsgRule([11573], "redeclared in this block"),
    MsgRule([], "illegal byte order mark"),
    MsgRule([11575], "unknown escape sequence")
  ]

  /** gccgo rejects a program go/types accepts (main.go:134-161). */
  const GccgoOnlyRejects: seq<Rule> := [
    MsgRule([11522], "error: string index out of bounds"),
    MsgRule([11525], "error: integer constant overflow"),
    Rule([11532, 11533], [[DataMatches(Issue11533)]]),
    Rule([11564, 11563], [[DataHas(B("0i"))],
                          [MsgHas(B("incompatible types in binary expression")),
                           MsgHas(B("initialization expression has wrong type"))]]),
    MsgRule([11569], "invalid character 0x37f in input file"),
    MsgRule([11572], "error: incompatible types in binary expression")
  ]

  /** Known gc internal compiler errors (main.go:178-189). */
  const GcKnownCrashes: seq<Rule> := [
    MsgRule([11352], "internal compiler error: out of fixed registers"),
    MsgRule([11358], "internal compiler error: naddr: bad HMUL"),
    MsgRule([11361], "internal compiler error: treecopy Name")
  ]

  /** The one non-ASCII literal: the quotes around `print` are U+2018 and U+2019 in UTF-8. */
  const NO_PRINT_ARGUMENTS: Bytes :=
    B("warning: no arguments for builtin function ") + [0xE2, 0x80, 0x98] + B("print") + [0xE2, 0x80, 0x99]

  /** Known gccgo internal compiler errors (main.go:195-268). */
  const GccgoKnownCrashes: seq<Rule> := [
    Rule([11526], [[MsgHas(NO_PRINT_ARGUMENTS)]]),
    MsgRule([11536], "error: constant refers to itself"),
    MsgRule([11537], "go1: internal compiler error: in set_type, at go/gofrontend/expressions.cc"),
    MsgRule([11541], "go1: internal compiler error: in global_variable_set_init, at go/go-gcc.cc"),
    MsgRule([11542], "go1: internal compiler error: in wide_int_to_tree, at tree.c"),
    MsgRule([11543], "go1: internal compiler error: in record_var_depends_on, at go/gofrontend/gogo.h"),
    MsgRule([11544], "go1: internal compiler error: in Builtin_call_expression, at go/gofrontend/expressions.cc"),
    MsgRule([11545], "go1: internal compiler error: in check_bounds, at go/gofrontend/expressions.cc"),
    MsgRule([11546], "go1: internal compiler error: in do_determine_type, at go/gofrontend/expressions.h"),
    MsgRule([11548], "go1: internal compiler error: in backend_numeric_constant_expression, at go/gofrontend/expressions.cc"),
    MsgRule([11557], "go1: internal compiler error: in declare_function, at go/gofrontend/gogo.cc"),
    MsgRule([11558], "gcc/go/gofrontend/expressions.cc:5756"),
    MsgRule([11559], "Send_statement::do_flatten"),
    MsgRule([11560], "internal compiler error: in do_get_backend, at go/gofrontend/expressions.cc"),
    MsgRule([11554, 11555, 11556], "go1: internal compiler error: in type_size, at go/go-gcc.cc"),
    MsgRule([11568], "go1: internal compiler error: in create_tmp_var, at gimple-expr.c"),
    MsgRule([11576], "go1: internal compiler error: in start_function, at go/gofrontend/gogo.cc"),
    MsgRule([11579], "go1: internal compiler error: in methods, at go/gofrontend/types.cc")
  ]

  /** Known AddressSanitizer reports from gccgo (main.go:273-276). */
  const AsanKnownCrashes: seq<Rule> := [
    MsgRule([11577], " in Lex::skip_cpp_comment() ../../gcc/go/gofrontend/lex.cc")
  ]

  /**
   * Walks a table in order and stops at the first rule that fires, as the
   * `if` chain does; None when no rule fires and control falls through.
   */
  method FirstMatch(rules: seq<Rule>, data: Bytes, msg: Bytes) returns (k: Option<nat>)
    ensures k.None? <==> !AnyHolds(rules, data, msg)
    ensures k.Some? ==> k.value < |rules| && Holds(rules[k.value], data, msg)
    ensures k.Some? ==> forall j | 0 <= j < k.value :: !Holds(rules[j], data, msg)
  {
    var i := 0;
    while i < |rules|
      invariant 0 <= i <= |rules|
      invariant forall j | 0 <= j < i :: !Holds(rules[j], data, msg)
    {
      if Holds(rules[i], data, msg) {
        return Some(i);
      }
      i := i + 1;
    }
    return None;
  }

}
