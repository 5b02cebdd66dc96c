/**
 The lint instantiated with the structural `SpanlessEq` as its equality:
 the two reported shapes and a popped vector other than the tested one, for
 every vector expression; and concrete loops: `let x = v.pop().unwrap();`,
 `process(other_arg, v.pop().unwrap());`, mismatched vectors, a pop-unwrap
 in the second statement, `.expect(..)`, a bare `pop`, an unresolved `pop`
 and a pop-unwrap as the block's trailing expression.
 */
module WhilePopUnwrapExamples {
  import opened Syntax
  import opened SpanlessEquality
  import opened WhilePopUnwrap

  /** `!<v>.is_empty()` */
  function NotIsEmpty(v: Expr, callSpan: Span, notSpan: Span): Expr
  {
    Unary(Not, MethodCall("is_empty", Some(VecIsEmpty), v, [], callSpan), notSpan)
  }

  /** `<v>.pop()` */
  function Pop(v: Expr, popSpan: Span): Expr
  {
    MethodCall("pop", Some(VecPop), v, [], popSpan)
  }

  /** `<v>.pop().unwrap()` */
  function PopUnwrap(v: Expr, popSpan: Span, unwrapSpan: Span): Expr
  {
    MethodCall("unwrap", Some(OptionUnwrap), Pop(v, popSpan), [], unwrapSpan)
  }

  // ---------------------------------------------------------------------------
  // The two reported shapes, for every vector expression
  // ---------------------------------------------------------------------------

  /**
   `while !v.is_empty() { let pat = w.pop().unwrap(); .. }` is reported at the
   `let` whenever `w` is spanless-equal to `v` (the same vector, possibly
   written elsewhere), whatever follows the `let`.
   */
  lemma LetPopUnwrapReported(
    snippet: Span -> string, v: Expr, w: Expr, pat: Pat, rest: seq<Stmt>, tail: Option<Expr>,
    callSpan: Span, notSpan: Span, popSpan: Span, unwrapSpan: Span, letSpan: Span, blockSpan: Span, loopSpan: Span)
    requires SpanlessEq(w, v)
    ensures Check(SpanlessEq, snippet, NotIsEmpty(v, callSpan, notSpan),
                  Block([Let(pat, Some(PopUnwrap(w, popSpan, unwrapSpan)), letSpan)] + rest, tail, blockSpan), loopSpan)
         == [ReportLint(snippet, letSpan, Local(pat), loopSpan, v.span)]
  {
    var first := Let(pat, Some(PopUnwrap(w, popSpan, unwrapSpan)), letSpan);
    assert ([first] + rest)[0] == first;
    GuardedLoopChecksFirstStatement(SpanlessEq, snippet, NotIsEmpty(v, callSpan, notSpan), Block([first] + rest, tail, blockSpan), loopSpan);
    assert IsVecPopUnwrap(SpanlessEq, PopUnwrap(w, popSpan, unwrapSpan), v);
    assert CheckLocal(SpanlessEq, snippet, first, v, loopSpan) == Some(ReportLint(snippet, letSpan, Local(pat), loopSpan, v.span));
    assert CheckCallArguments(SpanlessEq, snippet, first, v, loopSpan) == None;
  }

  /**
   `while !v.is_empty() { f(before.., w.pop().unwrap(), after..); .. }` is
   reported at the popping argument when no earlier argument pops `v`.
   */
  lemma ArgPopUnwrapReported(
    snippet: Span -> string, v: Expr, w: Expr, callee: Expr, before: seq<Expr>, after: seq<Expr>, rest: seq<Stmt>,
    callSpan: Span, notSpan: Span, popSpan: Span, unwrapSpan: Span, fnSpan: Span, stmtSpan: Span, blockSpan: Span, loopSpan: Span)
    requires SpanlessEq(w, v)
    requires forall j :: 0 <= j < |before| ==> !IsVecPopUnwrap(SpanlessEq, before[j], v)
    ensures Check(SpanlessEq, snippet, NotIsEmpty(v, callSpan, notSpan),
                  Block([Semi(Call(callee, before + [PopUnwrap(w, popSpan, unwrapSpan)] + after, fnSpan), stmtSpan)] + rest, None, blockSpan), loopSpan)
         == [ReportLint(snippet, unwrapSpan, Anonymous, loopSpan, v.span)]
  {
    var args := before + [PopUnwrap(w, popSpan, unwrapSpan)] + after;
    var first := Semi(Call(callee, args, fnSpan), stmtSpan);
    assert ([first] + rest)[0] == first;
    assert args[|before|] == PopUnwrap(w, popSpan, unwrapSpan);
    assert forall j :: 0 <= j < |before| ==> args[j] == before[j];
    assert FirstOffending(SpanlessEq, args, v, |before|);
    FirstOffendingArgReported(SpanlessEq, snippet, first, v, loopSpan, |before|);
    GuardedLoopChecksFirstStatement(SpanlessEq, snippet, NotIsEmpty(v, callSpan, notSpan), Block([first] + rest, None, blockSpan), loopSpan);
    assert CheckLocal(SpanlessEq, snippet, first, v, loopSpan) == None;
  }

  /**
   `while !v.is_empty() { let pat = w.pop().unwrap(); .. }` is not reported
   when `w` is not spanless-equal to `v`, whatever follows the `let`.
   */
  lemma OtherVecNotReported(
    snippet: Span -> string, v: Expr, w: Expr, pat: Pat, rest: seq<Stmt>, tail: Option<Expr>,
    callSpan: Span, notSpan: Span, popSpan: Span, unwrapSpan: Span, letSpan: Span, blockSpan: Span, loopSpan: Span)
    requires !SpanlessEq(w, v)
    ensures Check(SpanlessEq, snippet, NotIsEmpty(v, callSpan, notSpan),
                  Block([Let(pat, Some(PopUnwrap(w, popSpan, unwrapSpan)), letSpan)] + rest, tail, blockSpan), loopSpan)
         == []
  {
    var first := Let(pat, Some(PopUnwrap(w, popSpan, unwrapSpan)), letSpan);
    assert ([first] + rest)[0] == first;
  }

  /**
   `while !v.is_empty() { f(before.., w.pop().unwrap(), after..); .. }` is not
   reported when `w` is not spanless-equal to `v` and no other argument pops
   `v`, whatever follows the statement.
   */
  lemma OtherVecArgNotReported(
    snippet: Span -> string, v: Expr, w: Expr, callee: Expr, before: seq<Expr>, after: seq<Expr>, rest: seq<Stmt>, tail: Option<Expr>,
    callSpan: Span, notSpan: Span, popSpan: Span, unwrapSpan: Span, fnSpan: Span, stmtSpan: Span, blockSpan: Span, loopSpan: Span)
    requires !SpanlessEq(w, v)
    requires forall j :: 0 <= j < |before| ==> !IsVecPopUnwrap(SpanlessEq, before[j], v)
    requires forall j :: 0 <= j < |after| ==> !IsVecPopUnwrap(SpanlessEq, after[j], v)
    ensures Check(SpanlessEq, snippet, NotIsEmpty(v, callSpan, notSpan),
                  Block([Semi(Call(callee, before + [PopUnwrap(w, popSpan, unwrapSpan)] + after, fnSpan), stmtSpan)] + rest, tail, blockSpan), loopSpan)
         == []
  {
    var args := before + [PopUnwrap(w, popSpan, unwrapSpan)] + after;
    var first := Semi(Call(callee, args, fnSpan), stmtSpan);
    assert ([first] + rest)[0] == first;
    forall i | 0 <= i < |args|
      ensures !IsVecPopUnwrap(SpanlessEq, args[i], v)
    {
      if i < |before| {
        assert args[i] == before[i];
      } else if i == |before| {
        assert args[i] == PopUnwrap(w, popSpan, unwrapSpan);
      } else {
        assert args[i] == after[i - |before| - 1];
      }
    }
    GuardedLoopChecksFirstStatement(SpanlessEq, snippet, NotIsEmpty(v, callSpan, notSpan), Block([first] + rest, tail, blockSpan), loopSpan);
    assert CheckLocal(SpanlessEq, snippet, first, v, loopSpan) == None;
    assert CheckCallArguments(SpanlessEq, snippet, first, v, loopSpan) == None;
  }

  /**
   `while !v.is_empty() { w.pop().unwrap(); .. }` (with or without the
   semicolon) is never reported, whatever `w` is: the value is thrown away,
   and the unwrap call itself has no argument to search.
   */
  lemma DiscardedPopUnwrapNotReported(
    snippet: Span -> string, v: Expr, w: Expr, semi: bool, rest: seq<Stmt>, tail: Option<Expr>,
    callSpan: Span, notSpan: Span, popSpan: Span, unwrapSpan: Span, stmtSpan: Span, blockSpan: Span, loopSpan: Span)
    ensures Check(SpanlessEq, snippet, NotIsEmpty(v, callSpan, notSpan),
                  Block([if semi then Semi(PopUnwrap(w, popSpan, unwrapSpan), stmtSpan)
                         else ExprStmt(PopUnwrap(w, popSpan, unwrapSpan), stmtSpan)] + rest, tail, blockSpan), loopSpan)
         == []
  {
    var first := if semi then Semi(PopUnwrap(w, popSpan, unwrapSpan), stmtSpan)
                 else ExprStmt(PopUnwrap(w, popSpan, unwrapSpan), stmtSpan);
    assert ([first] + rest)[0] == first;
    GuardedLoopChecksFirstStatement(SpanlessEq, snippet, NotIsEmpty(v, callSpan, notSpan), Block([first] + rest, tail, blockSpan), loopSpan);
  }

  // ---------------------------------------------------------------------------
  // Concrete loops; `snippet` is only constrained on the spans the fix quotes
  // ---------------------------------------------------------------------------

  /** The two headers the loops below are rewritten to. */
  lemma HeaderTexts()
    ensures LoopReplacement("x", "v") == "while let Some(x) = v.pop()"
    ensures LoopReplacement(Placeholder, "v") == "while let Some(element) = v.pop()"
  {
  }

  /**
   `while !v.is_empty() { let x = v.pop().unwrap(); use(x); }`: the `let` is
   deleted and its pattern `x` moves into the header `while let Some(x) = v.pop()`.
   */
  lemma LocalFormRewritten(snippet: Span -> string)
    requires snippet(Span(26, 27)) == "x" && snippet(Span(7, 8)) == "v"
    ensures Check(SpanlessEq, snippet,
                  NotIsEmpty(Path(["v"], Span(7, 8)), Span(7, 19), Span(6, 19)),
                  Block([Let(Pat("x", Span(26, 27)), Some(PopUnwrap(Path(["v"], Span(30, 31)), Span(30, 37), Span(30, 46))), Span(22, 47)),
                         Semi(Call(Path(["use"], Span(48, 51)), [Path(["x"], Span(52, 53))], Span(48, 54)), Span(48, 55))],
                        None, Span(20, 57)),
                  Span(0, 19))
         == [Finding(Span(22, 47), Local(Pat("x", Span(26, 27))), MachineApplicable,
                     [Edit(Span(0, 19), LoopReplacement("x", "v")), Edit(Span(22, 47), "")])]
  {
    var pat := Pat("x", Span(26, 27));
    LetPopUnwrapReported(snippet, Path(["v"], Span(7, 8)), Path(["v"], Span(30, 31)), pat,
      [Semi(Call(Path(["use"], Span(48, 51)), [Path(["x"], Span(52, 53))], Span(48, 54)), Span(48, 55))], None,
      Span(7, 19), Span(6, 19), Span(30, 37), Span(30, 46), Span(22, 47), Span(20, 57), Span(0, 19));
    var f := ReportLint(snippet, Span(22, 47), Local(pat), Span(0, 19), Span(7, 8));
    assert f.edits == [Edit(Span(0, 19), LoopReplacement("x", "v")), Edit(Span(22, 47), "")];
  }

  /**
   `while !v.is_empty() { process(other_arg, v.pop().unwrap()); }`: the
   popping argument becomes `element`, which the header
   `while let Some(element) = v.pop()` binds; `other_arg` stays.
   */
  lemma InlineFormRewritten(snippet: Span -> string)
    requires snippet(Span(7, 8)) == "v"
    ensures Check(SpanlessEq, snippet,
                  NotIsEmpty(Path(["v"], Span(7, 8)), Span(7, 19), Span(6, 19)),
                  Block([Semi(Call(Path(["process"], Span(22, 29)),
                                   [Path(["other_arg"], Span(30, 39)), PopUnwrap(Path(["v"], Span(41, 42)), Span(41, 48), Span(41, 57))],
                                   Span(22, 58)), Span(22, 59))],
                        None, Span(20, 61)),
                  Span(0, 19))
         == [Finding(Span(41, 57), Anonymous, MachineApplicable,
                     [Edit(Span(0, 19), LoopReplacement(Placeholder, "v")), Edit(Span(41, 57), Placeholder)])]
  {
    var v := Path(["v"], Span(7, 8));
    var otherArg := Path(["other_arg"], Span(30, 39));
    var popped := PopUnwrap(Path(["v"], Span(41, 42)), Span(41, 48), Span(41, 57));
    var stmt := Semi(Call(Path(["process"], Span(22, 29)), [otherArg, popped], Span(22, 58)), Span(22, 59));
    assert [otherArg] + [popped] + [] == [otherArg, popped];
    assert [stmt] + [] == [stmt];
    ArgPopUnwrapReported(snippet, v, Path(["v"], Span(41, 42)), Path(["process"], Span(22, 29)), [otherArg], [], [],
      Span(7, 19), Span(6, 19), Span(41, 48), Span(41, 57), Span(22, 58), Span(22, 59), Span(20, 61), Span(0, 19));
    var f := ReportLint(snippet, Span(41, 57), Anonymous, Span(0, 19), Span(7, 8));
    assert f.edits == [Edit(Span(0, 19), LoopReplacement(Placeholder, "v")), Edit(Span(41, 57), Placeholder)];
  }

  /** `while !a.is_empty() { let x = b.pop().unwrap(); }` */
  lemma MismatchedVecsNotReported(snippet: Span -> string)
    ensures Check(SpanlessEq, snippet,
                  NotIsEmpty(Path(["a"], Span(7, 8)), Span(7, 19), Span(6, 19)),
                  Block([Let(Pat("x", Span(26, 27)), Some(PopUnwrap(Path(["b"], Span(30, 31)), Span(30, 37), Span(30, 46))), Span(22, 47))],
                        None, Span(20, 49)),
                  Span(0, 19))
         == []
  {
  }

  /** `while !v.is_empty() { use(y); let x = v.pop().unwrap(); }` — the pop is the second statement. */
  lemma SecondStatementNotReported(snippet: Span -> string)
    ensures Check(SpanlessEq, snippet,
                  NotIsEmpty(Path(["v"], Span(7, 8)), Span(7, 19), Span(6, 19)),
                  Block([Semi(Call(Path(["use"], Span(22, 25)), [Path(["y"], Span(26, 27))], Span(22, 28)), Span(22, 29)),
                         Let(Pat("x", Span(34, 35)), Some(PopUnwrap(Path(["v"], Span(38, 39)), Span(38, 45), Span(38, 54))), Span(30, 55))],
                        None, Span(20, 57)),
                  Span(0, 19))
         == []
  {
  }

  /** `let x = v.pop().expect("empty");` is reported like `.unwrap()`. */
  lemma ExpectFormRewritten(snippet: Span -> string)
    ensures Check(SpanlessEq, snippet,
                  NotIsEmpty(Path(["v"], Span(7, 8)), Span(7, 19), Span(6, 19)),
                  Block([Let(Pat("x", Span(26, 27)),
                             Some(MethodCall("expect", Some(OptionExpect), Pop(Path(["v"], Span(30, 31)), Span(30, 37)),
                                             [Lit("\"empty\"", Span(45, 52))], Span(30, 53))),
                             Span(22, 54))],
                        None, Span(20, 56)),
                  Span(0, 19))
         == [ReportLint(snippet, Span(22, 54), Local(Pat("x", Span(26, 27))), Span(0, 19), Span(7, 8))]
  {
  }

  /** `let x = v.pop();` already handles the empty case and is not reported. */
  lemma BarePopNotReported(snippet: Span -> string)
    ensures Check(SpanlessEq, snippet,
                  NotIsEmpty(Path(["v"], Span(7, 8)), Span(7, 19), Span(6, 19)),
                  Block([Let(Pat("x", Span(26, 27)), Some(Pop(Path(["v"], Span(30, 31)), Span(30, 37))), Span(22, 38))],
                        None, Span(20, 40)),
                  Span(0, 19))
         == []
  {
  }

  /** Without type information for `pop`, nothing is reported. */
  lemma UnresolvedPopNotReported(snippet: Span -> string)
    ensures Check(SpanlessEq, snippet,
                  NotIsEmpty(Path(["v"], Span(7, 8)), Span(7, 19), Span(6, 19)),
                  Block([Let(Pat("x", Span(26, 27)),
                             Some(MethodCall("unwrap", Some(OptionUnwrap), MethodCall("pop", None, Path(["v"], Span(30, 31)), [], Span(30, 37)), [], Span(30, 46))),
                             Span(22, 47))],
                        None, Span(20, 49)),
                  Span(0, 19))
         == []
  {
  }

  /**
   `while !v.is_empty() { f(v.pop().unwrap()) }`: the call is the block's
   trailing expression, not a statement, so nothing is reported (with a
   semicolon it is reported, see `TrailingStatementReported`).
   */
  lemma TrailingExpressionNotReported(snippet: Span -> string)
    ensures Check(SpanlessEq, snippet,
                  NotIsEmpty(Path(["v"], Span(7, 8)), Span(7, 19), Span(6, 19)),
                  Block([], Some(Call(Path(["f"], Span(22, 23)), [PopUnwrap(Path(["v"], Span(24, 25)), Span(24, 30), Span(24, 39))], Span(22, 40))),
                        Span(20, 42)),
                  Span(0, 19))
         == []
  {
  }

  /**
   `while !v.is_empty() { f(v.pop().unwrap()); }`: the same call as a
   statement is reported at its popping argument.
   */
  lemma TrailingStatementReported(snippet: Span -> string)
    ensures Check(SpanlessEq, snippet,
                  NotIsEmpty(Path(["v"], Span(7, 8)), Span(7, 19), Span(6, 19)),
                  Block([Semi(Call(Path(["f"], Span(22, 23)), [PopUnwrap(Path(["v"], Span(24, 25)), Span(24, 30), Span(24, 39))], Span(22, 40)),
                              Span(22, 41))],
                        None, Span(20, 43)),
                  Span(0, 19))
         == [ReportLint(snippet, Span(24, 39), Anonymous, Span(0, 19), Span(7, 8))]
  {
    ArgPopUnwrapReported(snippet, Path(["v"], Span(7, 8)), Path(["v"], Span(24, 25)), Path(["f"], Span(22, 23)), [], [], [],
                         Span(7, 19), Span(6, 19), Span(24, 30), Span(24, 39), Span(22, 40), Span(22, 41), Span(20, 43), Span(0, 19));
    assert [] + [PopUnwrap(Path(["v"], Span(24, 25)), Span(24, 30), Span(24, 39))] + [] == [PopUnwrap(Path(["v"], Span(24, 25)), Span(24, 30), Span(24, 39))];
    assert [Semi(Call(Path(["f"], Span(22, 23)), [PopUnwrap(Path(["v"], Span(24, 25)), Span(24, 30), Span(24, 39))], Span(22, 40)), Span(22, 41))] + []
        == [Semi(Call(Path(["f"], Span(22, 23)), [PopUnwrap(Path(["v"], Span(24, 25)), Span(24, 30), Span(24, 39))], Span(22, 40)), Span(22, 41))];
  }
}
