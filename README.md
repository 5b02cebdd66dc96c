# while_pop_unwrap, modelled in Dafny

This project models clippy's `while_pop_unwrap` lint
(`clippy_lints/src/loops/while_pop_unwrap.rs`). The lint looks at a `while`
loop, given as its condition, its body and the span of its header. It fires
when all of these hold:

- the condition is `!R.is_empty()`, with `is_empty` resolved to `Vec::is_empty`;
- the body is a block with at least one statement;
- the first statement takes `R.pop().unwrap()` or `R.pop().expect(..)`, with
  the calls resolved to `Vec::pop` and `Option::unwrap`/`Option::expect`.

The first statement can take the value in one of two ways:

- **local form**: `let pat = R.pop().unwrap();`. The lint points at the whole
  `let`, the new header reuses the text of `pat`, and the `let` is deleted.
- **inline form**: a call or method-call statement whose argument is the
  popped value. The arguments are scanned in order and the first matching one
  is reported. That argument is replaced by `element`, the name the new
  header binds.

The fix has exactly two machine-applicable edits. The loop header becomes
`while let Some(<pat>) = <R>.pop()`, and the pop is replaced by its
replacement text.

The lint only reads an immutable syntax tree, so every part of it is a Dafny
function, with lemmas about those functions. There are four files:

- `syntax.dfy` (`Syntax`) holds the part of the compiler IR the lint reads:
  expressions, statements and patterns with their spans. A method call
  carries its resolved definition as `Option<DefId>`. It is `None` when type
  information is missing. `DefId` has the four library paths the lint compares
  against, plus `OtherDef(index)` for every other definition.
- `spanless_eq.dfy` (`SpanlessEquality`) holds a structural equality that
  ignores spans and resolutions. It is proved to be exactly "equal after
  erasing positions", so it is an equivalence relation.
- `while_pop_unwrap.dfy` (`WhilePopUnwrap`) holds the lint itself: `PopStmt`,
  `report_lint`, `match_method_call`, `is_vec_pop_unwrap`, `check_local`,
  `check_call_arguments` and `check`. It also holds a declarative description
  of what may be reported (`Reports`), and the proof that `Check` reports
  exactly that.
- `examples_while_pop_unwrap.dfy` (`WhilePopUnwrapExamples`) instantiates
  the lint with the structural `SpanlessEq` and proves the two reported shapes for every
  receiver expression. It also states concrete loops: the local form, the
  inline form, mismatched vectors, a pop in the second statement, `expect`, a
  bare `pop`, an unresolved `pop`, and a call as the block's trailing expression next to the same call as a statement.

The lint does not see two things directly; the model passes them in as
parameters:

- `eq: (Expr, Expr) -> bool` stands for clippy's `SpanlessEq`, whose
  definition is not part of this model. All general properties hold for any
  `eq`, and the examples use the structural `SpanlessEq`.
- `snippet: Span -> string` stands for the source map's text lookup, including
  its `..` fallback.

`check` runs both `check_local` and `check_call_arguments` on the first
statement, and each may emit a lint. The model therefore returns the emitted
lints as a `seq<Finding>` (the local one first) and proves that it never holds
more than one.

Two consequences of the code that the model keeps:

- `match_method_call` (clippy_lints/src/loops/while_pop_unwrap.rs:55-56)
  requires `ExprKind::MethodCall` and a `type_dependent_def_id`, so a free
  call or an unresolved call never matches.
- A block's trailing expression is not among `stmts`, so
  `body.stmts.first()` does not see it. `{ f(v.pop().unwrap()) }` is not
  reported, while `{ f(v.pop().unwrap()); }` is. `Block` keeps the trailing
  expression apart so that this case is modelled.
- A pop-unwrap whose value is thrown away (`v.pop().unwrap();`, with or
  without the semicolon) is never reported: it is not a `let`, and the
  argument list of the outer `unwrap` call is empty (the receiver is not
  searched).

## Model

| member | source | states |
|---|---|---|
| `WhilePopUnwrap.MatchMethodCall` | clippy_lints/src/loops/while_pop_unwrap.rs:54-62 | true only for a method call, and for a method call exactly when its resolution is present and equal to the path; an unresolved call or a non-method-call never matches |
| `WhilePopUnwrap.IsVecPopUnwrap` | clippy_lints/src/loops/while_pop_unwrap.rs:64-75 | true exactly when the expression is a method call resolved to `Option::unwrap` or `Option::expect`, its receiver is a method call resolved to `Vec::pop`, and the pop's receiver is `eq` to the `is_empty` receiver |
| `WhilePopUnwrap.ExpectLikeUnwrap` | clippy_lints/src/loops/while_pop_unwrap.rs:65 | `.expect(msg)` on a pop is recognised exactly when `.unwrap()` on the same pop is, whatever the message, name or span |
| `WhilePopUnwrap.FindMap` | clippy_lints/src/loops/while_pop_unwrap.rs:89-91 | `None` exactly when no element maps to `Some`; otherwise the result is the image of an element before which every element mapped to `None` (first match) |
| `WhilePopUnwrap.OffendingSpan` | clippy_lints/src/loops/while_pop_unwrap.rs:91 | the argument's span when the argument is a matching pop-unwrap, and `None` otherwise |
| `WhilePopUnwrap.FirstOffendingUnique` | clippy_lints/src/loops/while_pop_unwrap.rs:89-91 | at most one argument index is the first matching one |
| `WhilePopUnwrap.CheckLocal` | clippy_lints/src/loops/while_pop_unwrap.rs:77-84 | reports exactly when the statement is a `let` with an initializer that is a matching pop-unwrap (never a `let` without initializer); the report is at the whole statement, of kind `Local` with the `let`'s pattern |
| `WhilePopUnwrap.CheckArgs` | clippy_lints/src/loops/while_pop_unwrap.rs:89-95 | reports when some argument matches, and then at the first matching argument with kind `Anonymous` |
| `WhilePopUnwrap.CheckArgsOf` | clippy_lints/src/loops/while_pop_unwrap.rs:88-96 | only a method call or a free call is searched, through its argument list; reports at the first matching argument, and does report when one matches |
| `WhilePopUnwrap.CheckCallArguments` | clippy_lints/src/loops/while_pop_unwrap.rs:86-98 | only a `;` or expression statement holding a call can report; it reports at the first matching argument, and does report when any argument matches |
| `WhilePopUnwrap.FirstOffendingArgReported` | clippy_lints/src/loops/while_pop_unwrap.rs:86-95 | for a call statement whose first matching argument is `i`, the report is exactly the anonymous lint at argument `i`'s span |
| `WhilePopUnwrap.MethodReceiverNotScanned` | clippy_lints/src/loops/while_pop_unwrap.rs:88 | for a `;`-terminated or expression statement holding a method call, the call's receiver does not influence the inline check: only the arguments are searched |
| `WhilePopUnwrap.Check` | clippy_lints/src/loops/while_pop_unwrap.rs:100-110 | at most one lint per loop; a lint needs a `!` over a call resolved to `Vec::is_empty` and a block body with at least one statement; its fix has two edits, the first at the loop header, and is machine-applicable |
| `WhilePopUnwrap.CheckReportsExactly` | clippy_lints/src/loops/while_pop_unwrap.rs:100-110 | a finding is emitted if and only if it is the one the declarative `Reports` describes: guard shape, first statement, local or first-matching-argument form, and matching receivers |
| `WhilePopUnwrap.GuardedLoopChecksFirstStatement` | clippy_lints/src/loops/while_pop_unwrap.rs:100-108 | behind a `!v.is_empty()` guard with a non-empty block, the loop emits what the local check and then the argument check emit on the first statement |
| `WhilePopUnwrap.OnlyFirstStatementMatters` | clippy_lints/src/loops/while_pop_unwrap.rs:105-108 | the outcome does not depend on the statements after the first, the block's trailing expression or the block's span |
| `WhilePopUnwrap.LaterStatementsNeverReported` | clippy_lints/src/loops/while_pop_unwrap.rs:105-108 | if the first statement yields nothing alone, no later statement can make the loop report |
| `WhilePopUnwrap.Replacements` | clippy_lints/src/loops/while_pop_unwrap.rs:38-41 | local form: the header binds the pattern's source text and the pop is replaced by nothing; anonymous form: the header binds `element` and the pop is replaced by the same `element` |
| `WhilePopUnwrap.LoopReplacement` | clippy_lints/src/loops/while_pop_unwrap.rs:43 | the header is `while let Some(` + pattern + `) = ` + receiver + `.pop()`, with the pattern and receiver texts recoverable at fixed offsets |
| `WhilePopUnwrap.LoopReplacementInjective` | clippy_lints/src/loops/while_pop_unwrap.rs:43 | two headers with equally long patterns are equal only if they bind the same pattern text to the same receiver text |
| `WhilePopUnwrap.ReportLint` | clippy_lints/src/loops/while_pop_unwrap.rs:31-52 | the lint is at the pop span, machine-applicable, with exactly two edits: the loop span gets the `while let` header over the receiver's text, and the pop span gets the kind's replacement (empty for `Local`, the bound placeholder for `Anonymous`) |
| `SpanlessEquality.SpanlessEqIsErasedEq` | clippy_lints/src/loops/while_pop_unwrap.rs:71 | the structural comparison holds exactly when both expressions are equal once spans and resolutions are erased |
| `SpanlessEquality.SpanlessEqReflexive` | clippy_lints/src/loops/while_pop_unwrap.rs:71 | every expression is spanless-equal to itself |
| `SpanlessEquality.SpanlessEqSymmetric` | clippy_lints/src/loops/while_pop_unwrap.rs:71 | the comparison does not depend on argument order |
| `SpanlessEquality.SpanlessEqTransitive` | clippy_lints/src/loops/while_pop_unwrap.rs:71 | the comparison is transitive |
| `WhilePopUnwrapExamples.LetPopUnwrapReported` | clippy_lints/src/loops/while_pop_unwrap.rs:77-84 | for any vector `v` and any `w` spanless-equal to it, `let pat = w.pop().unwrap();` first in a `while !v.is_empty()` body gives exactly the `Local` lint at the `let`, whatever follows |
| `WhilePopUnwrapExamples.ArgPopUnwrapReported` | clippy_lints/src/loops/while_pop_unwrap.rs:86-95 | `f(before.., w.pop().unwrap(), after..);` with no earlier matching argument gives exactly the `Anonymous` lint at that argument |
| `WhilePopUnwrapExamples.OtherVecNotReported` | clippy_lints/src/loops/while_pop_unwrap.rs:70-71 | `let pat = w.pop().unwrap();` first in a `while !v.is_empty()` body, with `w` not spanless-equal to `v`, yields nothing, whatever follows it |
| `WhilePopUnwrapExamples.OtherVecArgNotReported` | clippy_lints/src/loops/while_pop_unwrap.rs:70-71 | `f(before.., w.pop().unwrap(), after..);` first in a `while !v.is_empty()` body, with `w` not spanless-equal to `v` and no other argument popping `v`, yields nothing, whatever follows it |
| `WhilePopUnwrapExamples.DiscardedPopUnwrapNotReported` | clippy_lints/src/loops/while_pop_unwrap.rs:77-95 | `w.pop().unwrap()` as the first statement, with or without a semicolon, yields nothing for any `v` and `w`, whatever follows: it is not a `let`, and the unwrap call has no argument to search |
| `WhilePopUnwrapExamples.HeaderTexts` | clippy_lints/src/loops/while_pop_unwrap.rs:43 | the headers for `x`/`v` and `element`/`v` are `while let Some(x) = v.pop()` and `while let Some(element) = v.pop()` |
| `WhilePopUnwrapExamples.LocalFormRewritten` | clippy_lints/src/loops/while_pop_unwrap.rs:38-48 | `while !v.is_empty() { let x = v.pop().unwrap(); use(x); }` yields one lint whose edits are the header `while let Some(x) = v.pop()` and the deletion of the `let` |
| `WhilePopUnwrapExamples.InlineFormRewritten` | clippy_lints/src/loops/while_pop_unwrap.rs:40-48 | `while !v.is_empty() { process(other_arg, v.pop().unwrap()); }` yields one lint that binds `element` in the header and replaces only the popping argument by `element` |
| `WhilePopUnwrapExamples.MismatchedVecsNotReported` | clippy_lints/src/loops/while_pop_unwrap.rs:70-71 | `while !a.is_empty() { let x = b.pop().unwrap(); }` yields nothing |
| `WhilePopUnwrapExamples.SecondStatementNotReported` | clippy_lints/src/loops/while_pop_unwrap.rs:105-108 | a pop-unwrap in the second statement yields nothing |
| `WhilePopUnwrapExamples.ExpectFormRewritten` | clippy_lints/src/loops/while_pop_unwrap.rs:65 | `let x = v.pop().expect("empty");` yields the same `Local` lint as `.unwrap()` |
| `WhilePopUnwrapExamples.BarePopNotReported` | clippy_lints/src/loops/while_pop_unwrap.rs:65-68 | `let x = v.pop();` without unwrap yields nothing |
| `WhilePopUnwrapExamples.UnresolvedPopNotReported` | clippy_lints/src/loops/while_pop_unwrap.rs:54-61 | a `pop` call without resolution information is not recognised, so nothing is reported |
| `WhilePopUnwrapExamples.TrailingExpressionNotReported` | clippy_lints/src/loops/while_pop_unwrap.rs:104-105 | `while !v.is_empty() { f(v.pop().unwrap()) }`, where the call is the block's trailing expression and there is no statement, yields nothing |
| `WhilePopUnwrapExamples.TrailingStatementReported` | clippy_lints/src/loops/while_pop_unwrap.rs:86-108 | `while !v.is_empty() { f(v.pop().unwrap()); }`, the same call as a statement, yields the `Anonymous` lint at the popping argument |

## Left out

- Type checking and name resolution (`LateContext`, `typeck_results().type_dependent_def_id`). They are replaced by the `resolved` field of a method call.
- `match_def_path` and the `paths::*` constants. They are replaced by equality against the tags `VecPop`, `VecIsEmpty`, `OptionUnwrap` and `OptionExpect`; the tags stand for those library paths, whose exact segments are not modelled.
- The definition of `SpanlessEq`. It is not part of this model, so the lint takes it as the parameter `eq`. The structural `SpanlessEquality.SpanlessEq` is one instance: it compares method names, paths, field names, literals and shapes. Clippy's own comparison has more cases, for example side-effect checks and expression kinds this model does not represent.
- `snippet` and the source map. Source text is the parameter `snippet: Span -> string`, so its `..` fallback is whatever that function returns.
- Emitting the diagnostic (`span_lint_and_then`, `multispan_sugg_with_applicability`), its message and help strings, and the lint's registration. A `Finding` carries the primary span, the `PopStmt` kind, the applicability and the two edits. Applying the edits to the text is the diagnostics renderer's job and is not modelled.
- The HIR parts the lint never reads: a `let`'s type ascription and `else` block, generic arguments of method segments, block labels and rules, and the other expression kinds. They are absent from the datatypes.
- `OtherDef(index)` stands for any definition other than the four the lint compares against; the model relies on it never denoting `Vec::pop`, `Vec::is_empty`, `Option::unwrap` or `Option::expect`, which are always the tagged constructors. How definition paths are spelled is not modelled.
- The driver that finds `while` loops and computes the header span, and any parallel running of lint passes.
