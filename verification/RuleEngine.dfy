/**
 * The traversal that collects the names an impl block uses.
 *
 * `ExprVars` and its companions say which names a complete traversal has inserted;
 * the `Extract…` methods are the traversal, inserting into a shared set.
 */
module RuleEngine {
  import opened Wrappers
  import opened RustAst

  const RUST_KEYWORDS: set<string> := {
    "self", "Self", "super", "crate", "mod", "use", "pub", "const", "static", "let",
    "fn", "struct", "enum", "impl", "trait", "where", "for", "while", "loop",
    "if", "else", "match", "break", "continue", "return", "async", "await",
    "move", "ref", "mut", "unsafe", "extern", "type", "union", "macro", "Some",
    "None", "Ok", "Err", "Result", "Option", "Vec", "String", "str", "bool",
    "u8", "u16", "u32", "u64", "u128", "i8", "i16", "i32", "i64", "i128",
    "f32", "f64", "usize", "isize"
  }

  predicate IsRustKeyword(ident: string) {
    ident in RUST_KEYWORDS
  }

  // ----- Names the traversal inserts -----

  function PatVars(p: Pat): set<string> {
    match p
    case PIdent(x) => {x}
    case PTuple(ps) => PatsVars(ps)
    case PTupleStruct(_, ps) => PatsVars(ps)
    case PStruct(_, fs) => FieldPatsVars(fs)
    case PReference(q) => PatVars(q)
    case _ => {}
  }

  function PatsVars(ps: seq<Pat>): set<string> {
    if ps == [] then {} else PatVars(ps[0]) + PatsVars(ps[1..])
  }

  function FieldPatsVars(fs: seq<FieldPat>): set<string> {
    if fs == [] then {} else PatVars(fs[0].pat) + FieldPatsVars(fs[1..])
  }

  function PathVars(segments: seq<string>): set<string> {
    if segments != [] && !IsRustKeyword(segments[|segments| - 1]) then {segments[|segments| - 1]} else {}
  }

  function ExprVars(e: Expr): set<string>
    decreases e, 0
  {
    match e
    case Path(segments) => PathVars(segments)
    case Field(base, member) => ExprVars(base) + (if member.Named? then {member.name} else {})
    case Assign(l, r) => ExprVars(l) + ExprVars(r)
    case MethodCall(recv, _, args) => ExprVars(recv) + ExprsVars(args)
    case Binary(_, l, r) => ExprVars(l) + ExprVars(r)
    case Unary(_, x) => ExprVars(x)
    case Call(func, args) => ExprVars(func) + ExprsVars(args)
    case Block(stmts) => StmtsVars(stmts)
    case If(c, thn, els) => ExprVars(c) + StmtsVars(thn) + OptVars(els)
    case Match(x, arms) => ExprVars(x) + ArmsVars(arms)
    case While(c, body) => ExprVars(c) + StmtsVars(body)
    case ForLoop(p, x, body) => PatVars(p) + ExprVars(x) + StmtsVars(body)
    case Return(x) => OptVars(x)
    case Struct(_, inits, rest) => InitsVars(inits) + OptVars(rest)
    case _ => {}
  }

  function OptVars(o: Option<Expr>): set<string>
    decreases o, 0
  {
    if o.Some? then ExprVars(o.value) else {}
  }

  function ExprsVars(es: seq<Expr>): set<string>
    decreases es, 0
  {
    if es == [] then {} else ExprVars(es[0]) + ExprsVars(es[1..])
  }

  function InitsVars(fs: seq<FieldValue>): set<string>
    decreases fs, 0
  {
    if fs == [] then {} else ExprVars(fs[0].expr) + InitsVars(fs[1..])
  }

  function ArmsVars(arms: seq<Arm>): set<string>
    decreases arms, 0
  {
    if arms == [] then {} else ArmVars(arms[0]) + ArmsVars(arms[1..])
  }

  function ArmVars(arm: Arm): set<string>
    decreases arm, 0
  {
    match arm
    case Arm(_, _, body) => ExprVars(body)
  }

  function StmtVars(s: Stmt): set<string>
    decreases s, 0
  {
    match s
    case Local(p, init) => PatVars(p) + OptVars(init)
    case ExprStmt(e, _) => ExprVars(e)
    case _ => {}
  }

  function StmtsVars(ss: seq<Stmt>): set<string>
    decreases ss, 0
  {
    if ss == [] then {} else StmtVars(ss[0]) + StmtsVars(ss[1..])
  }

  function FnsVars(fns: seq<Fn>): set<string> {
    if fns == [] then {} else StmtsVars(fns[0].body) + FnsVars(fns[1..])
  }

  // ----- The traversal itself -----

  class UsedNames {
    var names: set<string>

    constructor ()
      ensures names == {}
    {
      names := {};
    }

    method Insert(name: string)
      modifies this
      ensures names == old(names) + {name}
    {
      names := names + {name};
    }
  }

  method FindVariableUsage(block: ImplBlock) returns (used: set<string>)
    ensures used == FnsVars(block.fns)
  {
    var acc := new UsedNames();
    for i := 0 to |block.fns|
      invariant acc.names + FnsVars(block.fns[i..]) == FnsVars(block.fns)
    {
      ExtractFromStmts(block.fns[i].body, acc);
    }
    used := acc.names;
  }

  method ExtractFromStmts(ss: seq<Stmt>, used: UsedNames)
    modifies used
    ensures used.names == old(used.names) + StmtsVars(ss)
    decreases ss, 1
  {
    for i := 0 to |ss|
      invariant used.names + StmtsVars(ss[i..]) == old(used.names) + StmtsVars(ss)
    {
      ExtractFromStmt(ss[i], used);
    }
  }

  method ExtractFromStmt(s: Stmt, used: UsedNames)
    modifies used
    ensures used.names == old(used.names) + StmtVars(s)
    decreases s, 1
  {
    match s
    case Local(pat, init) =>
      ExtractFromPat(pat, used);
      if init.Some? {
        ExtractFromExpr(init.value, used);
      }
    case ExprStmt(e, _) =>
      ExtractFromExpr(e, used);
    case ItemStmt(_) =>
    case MacroStmt(_) =>
  }

  method ExtractFromExprs(es: seq<Expr>, used: UsedNames)
    modifies used
    ensures used.names == old(used.names) + ExprsVars(es)
    decreases es, 1
  {
    for i := 0 to |es|
      invariant used.names + ExprsVars(es[i..]) == old(used.names) + ExprsVars(es)
    {
      ExtractFromExpr(es[i], used);
    }
  }

  method ExtractFromArms(arms: seq<Arm>, used: UsedNames)
    modifies used
    ensures used.names == old(used.names) + ArmsVars(arms)
    decreases arms, 1
  {
    for i := 0 to |arms|
      invariant used.names + ArmsVars(arms[i..]) == old(used.names) + ArmsVars(arms)
    {
      ExtractFromArm(arms[i], used);
    }
  }

  method ExtractFromArm(arm: Arm, used: UsedNames)
    modifies used
    ensures used.names == old(used.names) + ArmVars(arm)
    decreases arm, 1
  {
    match arm
    case Arm(_, _, body) => ExtractFromExpr(body, used);
  }

  method ExtractFromInits(inits: seq<FieldValue>, used: UsedNames)
    modifies used
    ensures used.names == old(used.names) + InitsVars(inits)
    decreases inits, 1
  {
    for i := 0 to |inits|
      invariant used.names + InitsVars(inits[i..]) == old(used.names) + InitsVars(inits)
    {
      ExtractFromExpr(inits[i].expr, used);
    }
  }

  method ExtractFromExpr(e: Expr, used: UsedNames)
    modifies used
    ensures used.names == old(used.names) + ExprVars(e)
    decreases e, 1
  {
    match e
    case Path(segments) =>
      if segments != [] {
        var ident := segments[|segments| - 1];
        if !IsRustKeyword(ident) {
          used.Insert(ident);
        }
      }
    case Field(base, member) =>
      ExtractFromExpr(base, used);
      if member.Named? {
        used.Insert(member.name);
      }
    case Assign(left, right) =>
      ExtractFromExpr(left, used);
      ExtractFromExpr(right, used);
    case MethodCall(receiver, _, args) =>
      ExtractFromExpr(receiver, used);
      ExtractFromExprs(args, used);
    case Binary(_, left, right) =>
      ExtractFromExpr(left, used);
      ExtractFromExpr(right, used);
    case Unary(_, operand) =>
      ExtractFromExpr(operand, used);
    case Call(func, args) =>
      ExtractFromExpr(func, used);
      ExtractFromExprs(args, used);
    case Block(stmts) =>
      ExtractFromStmts(stmts, used);
    case If(cond, thenBranch, elseBranch) =>
      ExtractFromExpr(cond, used);
      ExtractFromStmts(thenBranch, used);
      if elseBranch.Some? {
        ExtractFromExpr(elseBranch.value, used);
      }
    case Match(scrutinee, arms) =>
      ExtractFromExpr(scrutinee, used);
      ExtractFromArms(arms, used);
    case While(cond, body) =>
      ExtractFromExpr(cond, used);
      ExtractFromStmts(body, used);
    case ForLoop(pat, iter, body) =>
      ExtractFromPat(pat, used);
      ExtractFromExpr(iter, used);
      ExtractFromStmts(body, used);
    case Return(result) =>
      if result.Some? {
        ExtractFromExpr(result.value, used);
      }
    case Struct(_, inits, rest) =>
      ExtractFromInits(inits, used);
      if rest.Some? {
        ExtractFromExpr(rest.value, used);
      }
    case _ =>
  }

  method ExtractFromPat(p: Pat, used: UsedNames)
    modifies used
    ensures used.names == old(used.names) + PatVars(p)
    decreases p
  {
    match p
    case PIdent(x) =>
      used.Insert(x);
    case PStruct(_, fields) =>
      for i := 0 to |fields|
        invariant used.names + FieldPatsVars(fields[i..]) == old(used.names) + FieldPatsVars(fields)
      {
        ExtractFromPat(fields[i].pat, used);
      }
    case PTuple(elems) =>
      for i := 0 to |elems|
        invariant used.names + PatsVars(elems[i..]) == old(used.names) + PatsVars(elems)
      {
        ExtractFromPat(elems[i], used);
      }
    case PTupleStruct(_, elems) =>
      for i := 0 to |elems|
        invariant used.names + PatsVars(elems[i..]) == old(used.names) + PatsVars(elems)
      {
        ExtractFromPat(elems[i], used);
      }
    case PReference(inner) =>
      ExtractFromPat(inner, used);
    case _ =>
  }
}
