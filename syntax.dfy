/**
 The slice of the compiler's high-level IR that the `while_pop_unwrap` lint
 reads: expressions, statements and patterns, each carrying its source span,
 and the resolved identity of a method call as the type checker reports it.
 */
module Syntax {

  datatype Option<+T> = None | Some(value: T)

  /** A byte range `[lo, hi)` of the source file. */
  datatype Span = Span(lo: nat, hi: nat)

  /**
   The definition a method call resolves to. The four named paths are the
   ones the lint compares against; every other definition is `OtherDef`,
   identified by an index that never denotes one of those four, so a
   definition is recognised exactly when it is tagged.
   */
  datatype DefId =
    | VecPop        // alloc::vec::Vec::pop
    | VecIsEmpty    // alloc::vec::Vec::is_empty
    | OptionUnwrap  // core::option::Option::unwrap
    | OptionExpect  // core::option::Option::expect
    | OtherDef(index: nat)

  datatype UnOp = Not | Neg | Deref

  /** A binding pattern; `binding` is its structure, `span` where it is written. */
  datatype Pat = Pat(binding: string, span: Span)

  datatype Expr =
      /** `receiver.name(args)`; `resolved` is `None` when type information is missing. */
    | MethodCall(name: string, resolved: Option<DefId>, receiver: Expr, args: seq<Expr>, span: Span)
      /** `callee(args)` */
    | Call(callee: Expr, args: seq<Expr>, span: Span)
    | Unary(op: UnOp, operand: Expr, span: Span)
      /** `{ stmts; tail }` — the trailing expression is not one of the statements. */
    | Block(stmts: seq<Stmt>, tail: Option<Expr>, span: Span)
    | Path(segments: seq<string>, span: Span)
    | Field(base: Expr, field: string, span: Span)
    | Lit(text: string, span: Span)

  datatype Stmt =
      /** `let pat = init;` or `let pat;` */
    | Let(pat: Pat, init: Option<Expr>, span: Span)
      /** `expr;` */
    | Semi(expr: Expr, span: Span)
      /** an expression statement without a semicolon */
    | ExprStmt(expr: Expr, span: Span)
      /** a nested item declaration */
    | Item(span: Span)
}
