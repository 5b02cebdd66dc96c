/**
 The `while_pop_unwrap` lint: a `while !v.is_empty()` loop whose body starts
 by taking `v.pop().unwrap()` (or `.expect(..)`) drains the vector by hand;
 the lint suggests `while let Some(pat) = v.pop()` instead.

 The lint reads but never changes the syntax tree, so every step is a
 function. What the surrounding compiler provides is passed in:
 `eq` compares two expressions the way clippy's `SpanlessEq` does, and
 `snippet` returns the source text of a span.
 */
module WhilePopUnwrap {
  import opened Syntax

  /** How the popped element was used in the loop's first statement. */
  datatype PopStmt =
      /** `let pat = v.pop().unwrap();` — the pattern is reused, the statement deleted. */
    | Local(pat: Pat)
      /** `v.pop().unwrap()` is an argument of a call — it becomes a placeholder name. */
    | Anonymous

  datatype Applicability = MachineApplicable | MaybeIncorrect | HasPlaceholders | Unspecified

  /** Replace the text of `span` by `replacement`. */
  datatype Edit = Edit(span: Span, replacement: string)

  /** One emitted lint: where it points, what kind of statement it saw, and the suggested fix. */
  datatype Finding = Finding(span: Span, kind: PopStmt, applicability: Applicability, edits: seq<Edit>)

  /** The name bound in the rewritten loop when the popped value had none. */
  const Placeholder := "element"

  const HeaderPrefix := "while let Some("
  const HeaderMiddle := ") = "
  const HeaderSuffix := ".pop()"

  // ---------------------------------------------------------------------------
  // Suggestion text
  // ---------------------------------------------------------------------------

  /**
   The new loop header `while let Some(<pat>) = <receiver>.pop()`. Both texts
   appear verbatim at fixed offsets, so the header determines them.
   */
  function LoopReplacement(pat: string, receiver: string): (h: string)
    ensures |h| == |HeaderPrefix| + |pat| + |HeaderMiddle| + |receiver| + |HeaderSuffix|
    ensures h[..|HeaderPrefix|] == HeaderPrefix
    ensures h[|HeaderPrefix|..|HeaderPrefix| + |pat|] == pat
    ensures h[|HeaderPrefix| + |pat|..|HeaderPrefix| + |pat| + |HeaderMiddle|] == HeaderMiddle
    ensures h[|h| - |HeaderSuffix| - |receiver|..|h| - |HeaderSuffix|] == receiver
    ensures h[|h| - |HeaderSuffix|..] == HeaderSuffix
  {
    HeaderPrefix + pat + HeaderMiddle + receiver + HeaderSuffix
  }

  /** Two headers are equal only when they bind the same pattern text to the same receiver text. */
  lemma LoopReplacementInjective(p1: string, r1: string, p2: string, r2: string)
    requires LoopReplacement(p1, r1) == LoopReplacement(p2, r2)
    requires |p1| == |p2|
    ensures p1 == p2 && r1 == r2
  {
    var h := LoopReplacement(p1, r1);
    assert p1 == h[|HeaderPrefix|..|HeaderPrefix| + |p1|];
    assert r1 == h[|h| - |HeaderSuffix| - |r1|..|h| - |HeaderSuffix|];
  }

  /**
   The pattern text of the new header and the text that replaces the pop
   expression: the local's own pattern and nothing (the `let` goes away), or
   the placeholder twice.
   */
  function Replacements(snippet: Span -> string, kind: PopStmt): (r: (string, string))
    ensures kind.Local? ==> r.0 == snippet(kind.pat.span) && r.1 == ""
    ensures kind.Anonymous? ==> r.0 == r.1 == Placeholder
  {
    match kind
    case Local(pat) => (snippet(pat.span), "")
    case Anonymous => (Placeholder, Placeholder)
  }

  /**
   The lint at `popSpan` with its two-part, machine-applicable fix: the loop
   header becomes `while let Some(..) = <receiver>.pop()` and the pop
   expression (or the whole `let`) is replaced.
   */
  function ReportLint(snippet: Span -> string, popSpan: Span, kind: PopStmt, loopSpan: Span, receiverSpan: Span): (f: Finding)
    ensures f.span == popSpan && f.kind == kind && f.applicability == MachineApplicable
    ensures |f.edits| == 2 && f.edits[0].span == loopSpan && f.edits[1].span == popSpan
    ensures kind.Local? ==>
      f.edits[0].replacement == LoopReplacement(snippet(kind.pat.span), snippet(receiverSpan))
      && f.edits[1].replacement == ""
    ensures kind.Anonymous? ==>
      f.edits[0].replacement == LoopReplacement(Placeholder, snippet(receiverSpan))
      && f.edits[1].replacement == Placeholder
  {
    var (pat, popReplacement) := Replacements(snippet, kind);
    var loopReplacement := LoopReplacement(pat, snippet(receiverSpan));
    Finding(popSpan, kind, MachineApplicable, [Edit(loopSpan, loopReplacement), Edit(popSpan, popReplacement)])
  }

  // ---------------------------------------------------------------------------
  // Recognising calls
  // ---------------------------------------------------------------------------

  /**
   `expr` is a method call that resolved to `path`. A call whose resolution
   is unknown never matches, nor does anything that is not a method call.
   */
  function MatchMethodCall(expr: Expr, path: DefId): (r: bool)
    ensures r ==> expr.MethodCall?
    ensures expr.MethodCall? ==> (r <==> expr.resolved == Some(path))
  {
    match expr
    case MethodCall(_, resolved, _, _, _) =>
      (match resolved
       case Some(id) => id == path
       case None => false)
    case _ => false
  }

  /**
   `expr` is `<pop_recv>.pop().unwrap()` or `<pop_recv>.pop().expect(..)`, both
   calls resolved to those library methods, and `pop_recv` is `eq` to the
   receiver of the loop's `is_empty` call.
   */
  function IsVecPopUnwrap(eq: (Expr, Expr) -> bool, expr: Expr, isEmptyRecv: Expr): (r: bool)
    ensures r <==>
      && expr.MethodCall?
      && (expr.resolved == Some(OptionUnwrap) || expr.resolved == Some(OptionExpect))
      && expr.receiver.MethodCall?
      && expr.receiver.resolved == Some(VecPop)
      && eq(expr.receiver.receiver, isEmptyRecv)
  {
    if (MatchMethodCall(expr, OptionUnwrap) || MatchMethodCall(expr, OptionExpect))
       && expr.MethodCall?
       && MatchMethodCall(expr.receiver, VecPop)
       && expr.receiver.MethodCall?
    then
      eq(expr.receiver.receiver, isEmptyRecv)
    else
      false
  }

  /**
   The first `f(x)` that is `Some`, scanning `s` from the front, as Rust's
   `Iterator::find_map` computes it.
   */
  function FindMap<T, U(==)>(s: seq<T>, f: T -> Option<U>): (r: Option<U>)
    ensures r.None? <==> forall i :: 0 <= i < |s| ==> f(s[i]).None?
    ensures r.Some? ==> exists i :: 0 <= i < |s| && f(s[i]) == r && forall j :: 0 <= j < i ==> f(s[j]).None?
  {
    if s == [] then None
    else
      match f(s[0])
      case Some(u) => Some(u)
      case None =>
        var r := FindMap(s[1..], f);
        if r.Some? then
          assert exists i :: 0 <= i < |s| && f(s[i]) == r && forall j :: 0 <= j < i ==> f(s[j]).None? by {
            var k :| 0 <= k < |s[1..]| && f(s[1..][k]) == r && forall j :: 0 <= j < k ==> f(s[1..][j]).None?;
            assert s[1..][k] == s[k + 1];
            forall j | 0 <= j < k + 1 ensures f(s[j]).None? {
              if j > 0 { assert s[j] == s[1..][j - 1]; }
            }
          }
          r
        else
          assert forall i :: 0 <= i < |s| ==> f(s[i]).None? by {
            forall i | 0 <= i < |s| ensures f(s[i]).None? {
              if i > 0 { assert s[i] == s[1..][i - 1]; }
            }
          }
          r
  }

  // ---------------------------------------------------------------------------
  // The loop body's first statement
  // ---------------------------------------------------------------------------

  /** `let pat = v.pop().unwrap();` — reported at the whole statement. */
  function CheckLocal(eq: (Expr, Expr) -> bool, snippet: Span -> string, stmt: Stmt, isEmptyRecv: Expr, loopSpan: Span): (r: Option<Finding>)
    ensures r.Some? <==> stmt.Let? && stmt.init.Some? && IsVecPopUnwrap(eq, stmt.init.value, isEmptyRecv)
    ensures r.Some? ==> r.value.span == stmt.span && r.value.kind == Local(stmt.pat)
    ensures r.Some? ==> r.value == ReportLint(snippet, stmt.span, Local(stmt.pat), loopSpan, isEmptyRecv.span)
  {
    match stmt
    case Let(pat, Some(init), span) =>
      if IsVecPopUnwrap(eq, init, isEmptyRecv) then
        Some(ReportLint(snippet, span, Local(pat), loopSpan, isEmptyRecv.span))
      else None
    case _ => None
  }

  /** The span of `arg` when it is a matching pop-unwrap. */
  function OffendingSpan(eq: (Expr, Expr) -> bool, isEmptyRecv: Expr, arg: Expr): (r: Option<Span>)
    ensures r.Some? <==> IsVecPopUnwrap(eq, arg, isEmptyRecv)
    ensures r.Some? ==> r.value == arg.span
  {
    if IsVecPopUnwrap(eq, arg, isEmptyRecv) then Some(arg.span) else None
  }

  /** `i` is the first argument that is a matching pop-unwrap. */
  ghost predicate FirstOffending(eq: (Expr, Expr) -> bool, args: seq<Expr>, isEmptyRecv: Expr, i: int)
  {
    && 0 <= i < |args|
    && IsVecPopUnwrap(eq, args[i], isEmptyRecv)
    && forall j :: 0 <= j < i ==> !IsVecPopUnwrap(eq, args[j], isEmptyRecv)
  }

  /**
   `f(.., v.pop().unwrap(), ..);` or `x.m(.., v.pop().unwrap(), ..)` — the
   arguments (never the method's receiver) are scanned in order, and only the
   first matching one is reported.
   */
  function CheckCallArguments(eq: (Expr, Expr) -> bool, snippet: Span -> string, stmt: Stmt, isEmptyRecv: Expr, loopSpan: Span): (r: Option<Finding>)
    ensures r.Some? ==> (stmt.Semi? || stmt.ExprStmt?) && (stmt.expr.MethodCall? || stmt.expr.Call?)
    ensures r.Some? ==> exists i ::
      FirstOffending(eq, stmt.expr.args, isEmptyRecv, i)
      && r.value == ReportLint(snippet, stmt.expr.args[i].span, Anonymous, loopSpan, isEmptyRecv.span)
    ensures (stmt.Semi? || stmt.ExprStmt?) && (stmt.expr.MethodCall? || stmt.expr.Call?)
      && (exists i :: 0 <= i < |stmt.expr.args| && IsVecPopUnwrap(eq, stmt.expr.args[i], isEmptyRecv))
      ==> r.Some?
  {
    match stmt
    case Semi(expr, _) => CheckArgsOf(eq, snippet, expr, isEmptyRecv, loopSpan)
    case ExprStmt(expr, _) => CheckArgsOf(eq, snippet, expr, isEmptyRecv, loopSpan)
    case _ => None
  }

  function CheckArgsOf(eq: (Expr, Expr) -> bool, snippet: Span -> string, expr: Expr, isEmptyRecv: Expr, loopSpan: Span): (r: Option<Finding>)
    ensures r.Some? ==> expr.MethodCall? || expr.Call?
    ensures r.Some? ==> exists i ::
      FirstOffending(eq, expr.args, isEmptyRecv, i)
      && r.value == ReportLint(snippet, expr.args[i].span, Anonymous, loopSpan, isEmptyRecv.span)
    ensures (expr.MethodCall? || expr.Call?)
      && (exists i :: 0 <= i < |expr.args| && IsVecPopUnwrap(eq, expr.args[i], isEmptyRecv))
      ==> r.Some?
  {
    match expr
    case MethodCall(_, _, _, args, _) => CheckArgs(eq, snippet, args, isEmptyRecv, loopSpan)
    case Call(_, args, _) => CheckArgs(eq, snippet, args, isEmptyRecv, loopSpan)
    case _ => None
  }

  function CheckArgs(eq: (Expr, Expr) -> bool, snippet: Span -> string, args: seq<Expr>, isEmptyRecv: Expr, loopSpan: Span): (r: Option<Finding>)
    ensures r.Some? ==> exists i ::
      FirstOffending(eq, args, isEmptyRecv, i)
      && r.value == ReportLint(snippet, args[i].span, Anonymous, loopSpan, isEmptyRecv.span)
    ensures (exists i :: 0 <= i < |args| && IsVecPopUnwrap(eq, args[i], isEmptyRecv)) ==> r.Some?
  {
    var offendingArg := FindMap(args, arg => OffendingSpan(eq, isEmptyRecv, arg));
    match offendingArg
    case Some(offending) => Some(ReportLint(snippet, offending, Anonymous, loopSpan, isEmptyRecv.span))
    case None => None
  }

  // ---------------------------------------------------------------------------
  // The loop
  // ---------------------------------------------------------------------------

  function OptionToSeq<T>(o: Option<T>): (s: seq<T>)
    ensures |s| <= 1
    ensures o.None? ==> s == []
    ensures o.Some? ==> s == [o.value]
  {
    match o
    case Some(x) => [x]
    case None => []
  }

  /**
   The lints emitted for `while <fullCond> <body>` whose header is at
   `loopSpan`: both statement checks run on the body's first statement, and
   whatever they report is emitted in that order.
   */
  function Check(eq: (Expr, Expr) -> bool, snippet: Span -> string, fullCond: Expr, body: Expr, loopSpan: Span): (r: seq<Finding>)
    ensures |r| <= 1
    ensures r != [] ==>
      && fullCond.Unary? && fullCond.op == Not
      && MatchMethodCall(fullCond.operand, VecIsEmpty)
      && body.Block? && |body.stmts| > 0
    ensures r != [] ==> r[0].applicability == MachineApplicable && |r[0].edits| == 2 && r[0].edits[0].span == loopSpan
  {
    match fullCond
    case Unary(Not, cond, _) =>
      (match cond
       case MethodCall(_, _, isEmptyRecv, _, _) =>
         if MatchMethodCall(cond, VecIsEmpty) then
           (match body
            case Block(stmts, _, _) =>
              if |stmts| > 0 then
                OptionToSeq(CheckLocal(eq, snippet, stmts[0], isEmptyRecv, loopSpan))
                + OptionToSeq(CheckCallArguments(eq, snippet, stmts[0], isEmptyRecv, loopSpan))
              else []
            case _ => [])
         else []
       case _ => [])
    case _ => []
  }

  // ---------------------------------------------------------------------------
  // What the lint reports, stated without its control flow
  // ---------------------------------------------------------------------------

  /**
   `f` is a correct report for `while <fullCond> <body>`: the guard is `!R.is_empty()`
   with `is_empty` resolved to `Vec::is_empty`, the body is a block with at least
   one statement, and that first statement either binds `R.pop().unwrap()` with
   `let` (reported at the statement), or is a call whose first matching argument
   is `R.pop().unwrap()` (reported at that argument).
   */
  ghost predicate Reports(eq: (Expr, Expr) -> bool, snippet: Span -> string, fullCond: Expr, body: Expr, loopSpan: Span, f: Finding)
  {
    && fullCond.Unary? && fullCond.op == Not
    && fullCond.operand.MethodCall? && fullCond.operand.resolved == Some(VecIsEmpty)
    && body.Block? && |body.stmts| > 0
    && var recv, first := fullCond.operand.receiver, body.stmts[0];
       || (&& first.Let? && first.init.Some?
           && IsVecPopUnwrap(eq, first.init.value, recv)
           && f == ReportLint(snippet, first.span, Local(first.pat), loopSpan, recv.span))
       || (&& (first.Semi? || first.ExprStmt?)
           && (first.expr.MethodCall? || first.expr.Call?)
           && exists i :: FirstOffending(eq, first.expr.args, recv, i)
                && f == ReportLint(snippet, first.expr.args[i].span, Anonymous, loopSpan, recv.span))
  }

  lemma FirstOffendingUnique(eq: (Expr, Expr) -> bool, args: seq<Expr>, isEmptyRecv: Expr, i: int, k: int)
    requires FirstOffending(eq, args, isEmptyRecv, i) && FirstOffending(eq, args, isEmptyRecv, k)
    ensures i == k
  {
  }

  /** A call statement with a matching argument is reported at the first such argument. */
  lemma FirstOffendingArgReported(eq: (Expr, Expr) -> bool, snippet: Span -> string, stmt: Stmt, isEmptyRecv: Expr, loopSpan: Span, i: int)
    requires (stmt.Semi? || stmt.ExprStmt?) && (stmt.expr.MethodCall? || stmt.expr.Call?)
    requires FirstOffending(eq, stmt.expr.args, isEmptyRecv, i)
    ensures CheckCallArguments(eq, snippet, stmt, isEmptyRecv, loopSpan)
         == Some(ReportLint(snippet, stmt.expr.args[i].span, Anonymous, loopSpan, isEmptyRecv.span))
  {
    var r := CheckCallArguments(eq, snippet, stmt, isEmptyRecv, loopSpan);
    var k :| FirstOffending(eq, stmt.expr.args, isEmptyRecv, k)
      && r.value == ReportLint(snippet, stmt.expr.args[k].span, Anonymous, loopSpan, isEmptyRecv.span);
    FirstOffendingUnique(eq, stmt.expr.args, isEmptyRecv, i, k);
  }

  /** `Check` emits exactly the reports `Reports` allows, and never two. */
  lemma CheckReportsExactly(eq: (Expr, Expr) -> bool, snippet: Span -> string, fullCond: Expr, body: Expr, loopSpan: Span, f: Finding)
    ensures f in Check(eq, snippet, fullCond, body, loopSpan) <==> Reports(eq, snippet, fullCond, body, loopSpan, f)
  {
    if && fullCond.Unary? && fullCond.op == Not && MatchMethodCall(fullCond.operand, VecIsEmpty)
       && body.Block? && |body.stmts| > 0
    {
      var recv, first := fullCond.operand.receiver, body.stmts[0];
      GuardedLoopChecksFirstStatement(eq, snippet, fullCond, body, loopSpan);
      var local := CheckLocal(eq, snippet, first, recv, loopSpan);
      var call := CheckCallArguments(eq, snippet, first, recv, loopSpan);
      if local.Some? {
        assert call.None?;
      } else if call.Some? {
        var i :| FirstOffending(eq, first.expr.args, recv, i)
          && call.value == ReportLint(snippet, first.expr.args[i].span, Anonymous, loopSpan, recv.span);
        if Reports(eq, snippet, fullCond, body, loopSpan, f) {
          var k :| FirstOffending(eq, first.expr.args, recv, k)
            && f == ReportLint(snippet, first.expr.args[k].span, Anonymous, loopSpan, recv.span);
          FirstOffendingUnique(eq, first.expr.args, recv, i, k);
        }
      }
    }
  }

  /** Behind a `!v.is_empty()` guard, the loop reports what the two checks report on its first statement. */
  lemma GuardedLoopChecksFirstStatement(eq: (Expr, Expr) -> bool, snippet: Span -> string, fullCond: Expr, body: Expr, loopSpan: Span)
    requires fullCond.Unary? && fullCond.op == Not && MatchMethodCall(fullCond.operand, VecIsEmpty)
    requires body.Block? && |body.stmts| > 0
    ensures Check(eq, snippet, fullCond, body, loopSpan)
         == OptionToSeq(CheckLocal(eq, snippet, body.stmts[0], fullCond.operand.receiver, loopSpan))
          + OptionToSeq(CheckCallArguments(eq, snippet, body.stmts[0], fullCond.operand.receiver, loopSpan))
  {
  }

  /** Statements after the first, the trailing expression and the block's span never change the outcome. */
  lemma OnlyFirstStatementMatters(
    eq: (Expr, Expr) -> bool, snippet: Span -> string, fullCond: Expr, loopSpan: Span,
    first: Stmt, rest1: seq<Stmt>, tail1: Option<Expr>, span1: Span,
    rest2: seq<Stmt>, tail2: Option<Expr>, span2: Span)
    ensures Check(eq, snippet, fullCond, Block([first] + rest1, tail1, span1), loopSpan)
         == Check(eq, snippet, fullCond, Block([first] + rest2, tail2, span2), loopSpan)
  {
    assert ([first] + rest1)[0] == first == ([first] + rest2)[0];
  }

  /**
   A loop whose first statement yields nothing on its own yields nothing
   however many statements follow it, whatever they contain.
   */
  lemma LaterStatementsNeverReported(
    eq: (Expr, Expr) -> bool, snippet: Span -> string, fullCond: Expr, loopSpan: Span,
    first: Stmt, rest: seq<Stmt>, tail: Option<Expr>, span: Span)
    requires Check(eq, snippet, fullCond, Block([first], None, span), loopSpan) == []
    ensures Check(eq, snippet, fullCond, Block([first] + rest, tail, span), loopSpan) == []
  {
    OnlyFirstStatementMatters(eq, snippet, fullCond, loopSpan, first, [], None, span, rest, tail, span);
    assert [first] + [] == [first];
  }

  /** The receiver of the statement's method call is not one of the scanned arguments. */
  lemma MethodReceiverNotScanned(
    eq: (Expr, Expr) -> bool, snippet: Span -> string, isEmptyRecv: Expr, loopSpan: Span,
    name: string, resolved: Option<DefId>, recv1: Expr, recv2: Expr, args: seq<Expr>, callSpan: Span, stmtSpan: Span)
    ensures CheckCallArguments(eq, snippet, Semi(MethodCall(name, resolved, recv1, args, callSpan), stmtSpan), isEmptyRecv, loopSpan)
         == CheckCallArguments(eq, snippet, Semi(MethodCall(name, resolved, recv2, args, callSpan), stmtSpan), isEmptyRecv, loopSpan)
    ensures CheckCallArguments(eq, snippet, ExprStmt(MethodCall(name, resolved, recv1, args, callSpan), stmtSpan), isEmptyRecv, loopSpan)
         == CheckCallArguments(eq, snippet, ExprStmt(MethodCall(name, resolved, recv2, args, callSpan), stmtSpan), isEmptyRecv, loopSpan)
  {
  }

  /** `.expect(msg)` is recognised exactly where `.unwrap()` is, whatever the message. */
  lemma ExpectLikeUnwrap(eq: (Expr, Expr) -> bool, popCall: Expr, isEmptyRecv: Expr,
    name1: string, args1: seq<Expr>, span1: Span, name2: string, args2: seq<Expr>, span2: Span)
    ensures IsVecPopUnwrap(eq, MethodCall(name1, Some(OptionUnwrap), popCall, args1, span1), isEmptyRecv)
        <==> IsVecPopUnwrap(eq, MethodCall(name2, Some(OptionExpect), popCall, args2, span2), isEmptyRecv)
  {
  }
}
