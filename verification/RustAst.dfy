/** The part of the Rust syntax tree that the rule engine receives from its parser. */
module RustAst {
  import opened Wrappers

  /** Values without components; they double as literals. `Enum` is a unit variant such as `Status::Open`. */
  datatype Scalar =
    | Unit
    | Int(n: int)
    | Bool(b: bool)
    | Str(s: string)
    | Enum(path: seq<string>)

  datatype Member = Named(name: string) | Unnamed(index: nat)

  /** `Operator("+")` is `+` and `Compound("+")` is `+=`. */
  datatype BinOp = And | Or | Operator(symbol: string) | Compound(symbol: string)

  datatype UnOp = Not | Neg | Deref

  datatype Pat =
    | PWild
    | PLit(lit: Scalar)
    | PIdent(ident: string)
    | PTuple(elems: seq<Pat>)
    | PTupleStruct(path: seq<string>, elems: seq<Pat>)
    | PStruct(name: string, fields: seq<FieldPat>)
    | PReference(inner: Pat)

  datatype FieldPat = FieldPat(member: string, pat: Pat)

  /**
   * The first fifteen constructors are the ones the traversal descends into.
   * The last four stand for the expressions its catch-all arm ignores.
   */
  datatype Expr =
    | Path(segments: seq<string>)
    | Field(base: Expr, member: Member)
    | Assign(left: Expr, right: Expr)
    | MethodCall(receiver: Expr, method_: string, args: seq<Expr>)
    | Binary(op: BinOp, lhs: Expr, rhs: Expr)
    | Unary(uop: UnOp, operand: Expr)
    | Call(func: Expr, args: seq<Expr>)
    | Block(stmts: seq<Stmt>)
    | If(cond: Expr, thenBranch: seq<Stmt>, elseBranch: Option<Expr>)
    | Match(scrutinee: Expr, arms: seq<Arm>)
    | While(cond: Expr, body: seq<Stmt>)
    | ForLoop(pat: Pat, iter: Expr, body: seq<Stmt>)
    | Return(result: Option<Expr>)
    | Struct(name: string, inits: seq<FieldValue>, rest: Option<Expr>)
    | Lit(lit: Scalar)
    | Reference(inner: Expr)
    | Paren(inner: Expr)
    | Tuple(elems: seq<Expr>)
    | Range(lo: Expr, hi: Expr)

  datatype FieldValue = FieldValue(member: string, expr: Expr)

  datatype Arm = Arm(pat: Pat, guard: Option<Expr>, body: Expr)

  /** `MacroStmt(e)` is `assert!(e);`. An item inside a body is a nested function or has no code of its own. */
  datatype Stmt =
    | Local(pat: Pat, init: Option<Expr>)
    | ItemStmt(nested: Option<Fn>)
    | ExprStmt(expr: Expr, semi: bool)
    | MacroStmt(arg: Expr)

  /** A function of an impl block; a method has `self` as its first parameter. */
  datatype Fn = Fn(name: string, params: seq<string>, body: seq<Stmt>)

  datatype ImplBlock = ImplBlock(selfType: string, fns: seq<Fn>)

  datatype Attr = ListAttr(path: string) | PathAttr(path: string) | NameValueAttr(path: string)

  datatype StructItem = StructItem(name: string, attrs: seq<Attr>, fields: seq<string>)

  /** A trait carries its default methods, a module its own items; `OtherItem` has no code. */
  datatype Item =
    | StructDecl(decl: StructItem)
    | ImplDecl(block: ImplBlock)
    | FnDecl(fn: Fn)
    | TraitDecl(defaults: seq<Fn>)
    | ModDecl(name: string, items: seq<Item>)
    | OtherItem
}
