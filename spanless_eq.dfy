/**
 Structural equality of expressions that ignores where they are written.
 Two expressions are spanless-equal when they have the same shape and the
 same names and literals at every node; source spans are ignored, and so is
 what a method call resolved to (the comparison is syntactic: the method's
 name is compared instead).
 */
module SpanlessEquality {
  import opened Syntax

  function SpanlessEq(a: Expr, b: Expr): bool
    decreases a
  {
    match (a, b)
    case (MethodCall(n1, _, r1, xs1, _), MethodCall(n2, _, r2, xs2, _)) =>
      n1 == n2 && SpanlessEq(r1, r2) && SpanlessEqs(xs1, xs2)
    case (Call(c1, xs1, _), Call(c2, xs2, _)) =>
      SpanlessEq(c1, c2) && SpanlessEqs(xs1, xs2)
    case (Unary(o1, e1, _), Unary(o2, e2, _)) =>
      o1 == o2 && SpanlessEq(e1, e2)
    case (Block(ss1, t1, _), Block(ss2, t2, _)) =>
      SpanlessEqStmts(ss1, ss2) && SpanlessEqTail(t1, t2)
    case (Path(p1, _), Path(p2, _)) => p1 == p2
    case (Field(b1, f1, _), Field(b2, f2, _)) => f1 == f2 && SpanlessEq(b1, b2)
    case (Lit(l1, _), Lit(l2, _)) => l1 == l2
    case _ => false
  }

  function SpanlessEqs(xs: seq<Expr>, ys: seq<Expr>): bool
    decreases xs
  {
    if xs == [] then ys == []
    else ys != [] && SpanlessEq(xs[0], ys[0]) && SpanlessEqs(xs[1..], ys[1..])
  }

  function SpanlessEqTail(a: Option<Expr>, b: Option<Expr>): bool
    decreases a
  {
    match (a, b)
    case (None, None) => true
    case (Some(x), Some(y)) => SpanlessEq(x, y)
    case _ => false
  }

  function SpanlessEqStmt(a: Stmt, b: Stmt): bool
    decreases a
  {
    match (a, b)
    case (Let(p1, i1, _), Let(p2, i2, _)) => p1.binding == p2.binding && SpanlessEqTail(i1, i2)
    case (Semi(e1, _), Semi(e2, _)) => SpanlessEq(e1, e2)
    case (ExprStmt(e1, _), ExprStmt(e2, _)) => SpanlessEq(e1, e2)
    case (Item(_), Item(_)) => true
    case _ => false
  }

  function SpanlessEqStmts(xs: seq<Stmt>, ys: seq<Stmt>): bool
    decreases xs
  {
    if xs == [] then ys == []
    else ys != [] && SpanlessEqStmt(xs[0], ys[0]) && SpanlessEqStmts(xs[1..], ys[1..])
  }

  /** The span every node gets once positions are forgotten. */
  const NoSpan := Span(0, 0)

  /** `e` with every span set to `NoSpan` and every resolution forgotten. */
  function Erase(e: Expr): Expr
    decreases e
  {
    match e
    case MethodCall(n, _, r, xs, _) => MethodCall(n, None, Erase(r), EraseAll(xs), NoSpan)
    case Call(c, xs, _) => Call(Erase(c), EraseAll(xs), NoSpan)
    case Unary(o, x, _) => Unary(o, Erase(x), NoSpan)
    case Block(ss, t, _) => Block(EraseStmts(ss), EraseTail(t), NoSpan)
    case Path(p, _) => Path(p, NoSpan)
    case Field(b, f, _) => Field(Erase(b), f, NoSpan)
    case Lit(l, _) => Lit(l, NoSpan)
  }

  function EraseAll(es: seq<Expr>): (r: seq<Expr>)
    decreases es
    ensures |r| == |es|
  {
    if es == [] then [] else [Erase(es[0])] + EraseAll(es[1..])
  }

  function EraseTail(t: Option<Expr>): Option<Expr>
    decreases t
  {
    match t
    case None => None
    case Some(x) => Some(Erase(x))
  }

  function EraseStmt(s: Stmt): Stmt
    decreases s
  {
    match s
    case Let(p, i, _) => Let(Pat(p.binding, NoSpan), EraseTail(i), NoSpan)
    case Semi(x, _) => Semi(Erase(x), NoSpan)
    case ExprStmt(x, _) => ExprStmt(Erase(x), NoSpan)
    case Item(_) => Item(NoSpan)
  }

  function EraseStmts(ss: seq<Stmt>): (r: seq<Stmt>)
    decreases ss
    ensures |r| == |ss|
  {
    if ss == [] then [] else [EraseStmt(ss[0])] + EraseStmts(ss[1..])
  }

  /**
   Spanless equality is exactly equality after erasing positions and
   resolutions: the comparison neither misses a syntactic difference nor
   reports one that is only a difference of position.
   */
  lemma {:induction false} SpanlessEqIsErasedEq(a: Expr, b: Expr)
    ensures SpanlessEq(a, b) <==> Erase(a) == Erase(b)
    decreases a
  {
    match (a, b)
    case (MethodCall(_, _, r1, xs1, _), MethodCall(_, _, r2, xs2, _)) =>
      SpanlessEqIsErasedEq(r1, r2);
      SpanlessEqsIsErasedEq(xs1, xs2);
    case (Call(c1, xs1, _), Call(c2, xs2, _)) =>
      SpanlessEqIsErasedEq(c1, c2);
      SpanlessEqsIsErasedEq(xs1, xs2);
    case (Unary(_, e1, _), Unary(_, e2, _)) =>
      SpanlessEqIsErasedEq(e1, e2);
    case (Block(ss1, t1, _), Block(ss2, t2, _)) =>
      SpanlessEqStmtsIsErasedEq(ss1, ss2);
      SpanlessEqTailIsErasedEq(t1, t2);
    case (Field(b1, _, _), Field(b2, _, _)) =>
      SpanlessEqIsErasedEq(b1, b2);
    case _ =>
  }

  lemma {:induction false} SpanlessEqsIsErasedEq(xs: seq<Expr>, ys: seq<Expr>)
    ensures SpanlessEqs(xs, ys) <==> EraseAll(xs) == EraseAll(ys)
    decreases xs
  {
    if xs != [] && ys != [] {
      SpanlessEqIsErasedEq(xs[0], ys[0]);
      SpanlessEqsIsErasedEq(xs[1..], ys[1..]);
      var ea, eb := EraseAll(xs), EraseAll(ys);
      assert ea == [Erase(xs[0])] + EraseAll(xs[1..]);
      assert eb == [Erase(ys[0])] + EraseAll(ys[1..]);
      if ea == eb {
        assert ea[0] == eb[0];
        assert ea[1..] == eb[1..];
      }
    }
  }

  lemma {:induction false} SpanlessEqTailIsErasedEq(a: Option<Expr>, b: Option<Expr>)
    ensures SpanlessEqTail(a, b) <==> EraseTail(a) == EraseTail(b)
    decreases a
  {
    if a.Some? && b.Some? {
      SpanlessEqIsErasedEq(a.value, b.value);
    }
  }

  lemma {:induction false} SpanlessEqStmtIsErasedEq(a: Stmt, b: Stmt)
    ensures SpanlessEqStmt(a, b) <==> EraseStmt(a) == EraseStmt(b)
    decreases a
  {
    match (a, b)
    case (Let(_, i1, _), Let(_, i2, _)) => SpanlessEqTailIsErasedEq(i1, i2);
    case (Semi(e1, _), Semi(e2, _)) => SpanlessEqIsErasedEq(e1, e2);
    case (ExprStmt(e1, _), ExprStmt(e2, _)) => SpanlessEqIsErasedEq(e1, e2);
    case _ =>
  }

  lemma {:induction false} SpanlessEqStmtsIsErasedEq(xs: seq<Stmt>, ys: seq<Stmt>)
    ensures SpanlessEqStmts(xs, ys) <==> EraseStmts(xs) == EraseStmts(ys)
    decreases xs
  {
    if xs != [] && ys != [] {
      SpanlessEqStmtIsErasedEq(xs[0], ys[0]);
      SpanlessEqStmtsIsErasedEq(xs[1..], ys[1..]);
      var ea, eb := EraseStmts(xs), EraseStmts(ys);
      assert ea == [EraseStmt(xs[0])] + EraseStmts(xs[1..]);
      assert eb == [EraseStmt(ys[0])] + EraseStmts(ys[1..]);
      if ea == eb {
        assert ea[0] == eb[0];
        assert ea[1..] == eb[1..];
      }
    }
  }

  /** Every expression is spanless-equal to itself. */
  lemma SpanlessEqReflexive(a: Expr)
    ensures SpanlessEq(a, a)
  {
    SpanlessEqIsErasedEq(a, a);
  }

  /** The comparison does not depend on the order of its arguments. */
  lemma SpanlessEqSymmetric(a: Expr, b: Expr)
    ensures SpanlessEq(a, b) <==> SpanlessEq(b, a)
  {
    SpanlessEqIsErasedEq(a, b);
    SpanlessEqIsErasedEq(b, a);
  }

  lemma SpanlessEqTransitive(a: Expr, b: Expr, c: Expr)
    requires SpanlessEq(a, b) && SpanlessEq(b, c)
    ensures SpanlessEq(a, c)
  {
    SpanlessEqIsErasedEq(a, b);
    SpanlessEqIsErasedEq(b, c);
    SpanlessEqIsErasedEq(a, c);
  }
}
