/**
 * The field names a program reads or assigns, wherever they occur, and the part of them
 * that lies where the rule's traversal does not look.
 */
module FieldMentions {
  import opened Wrappers
  import opened RustAst
  import opened RuleEngine

  // ----- Every field name mentioned -----

  function PatFields(p: Pat): set<string>
    decreases p, 0
  {
    match p
    case PTuple(ps) => PatsFields(ps)
    case PTupleStruct(_, ps) => PatsFields(ps)
    case PStruct(_, fs) => FieldPatsFields(fs)
    case PReference(q) => PatFields(q)
    case _ => {}
  }

  function PatsFields(ps: seq<Pat>): set<string>
    decreases ps, 0
  {
    if ps == [] then {} else PatFields(ps[0]) + PatsFields(ps[1..])
  }

  function FieldPatsFields(fs: seq<FieldPat>): set<string>
    decreases fs, 0
  {
    if fs == [] then {} else {fs[0].member} + PatFields(fs[0].pat) + FieldPatsFields(fs[1..])
  }

  function ExprFields(e: Expr): set<string>
    decreases e, 0
  {
    match e
    case Path(_) => {}
    case Lit(_) => {}
    case Field(base, member) => ExprFields(base) + (if member.Named? then {member.name} else {})
    case Assign(l, r) => ExprFields(l) + ExprFields(r)
    case MethodCall(recv, _, args) => ExprFields(recv) + ExprsFields(args)
    case Binary(_, l, r) => ExprFields(l) + ExprFields(r)
    case Unary(_, x) => ExprFields(x)
    case Call(func, args) => ExprFields(func) + ExprsFields(args)
    case Block(stmts) => StmtsFields(stmts)
    case If(c, thn, els) => ExprFields(c) + StmtsFields(thn) + OptFields(els)
    case Match(x, arms) => ExprFields(x) + ArmsFields(arms)
    case While(c, body) => ExprFields(c) + StmtsFields(body)
    case ForLoop(p, x, body) => PatFields(p) + ExprFields(x) + StmtsFields(body)
    case Return(x) => OptFields(x)
    case Struct(_, inits, rest) => InitsFields(inits) + OptFields(rest)
    case Reference(x) => ExprFields(x)
    case Paren(x) => ExprFields(x)
    case Tuple(es) => ExprsFields(es)
    case Range(lo, hi) => ExprFields(lo) + ExprFields(hi)
  }

  function OptFields(o: Option<Expr>): set<string>
    decreases o, 0
  {
    if o.Some? then ExprFields(o.value) else {}
  }

  function ExprsFields(es: seq<Expr>): set<string>
    decreases es, 0
  {
    if es == [] then {} else ExprFields(es[0]) + ExprsFields(es[1..])
  }

  function InitsFields(fs: seq<FieldValue>): set<string>
    decreases fs, 0
  {
    if fs == [] then {} else ExprFields(fs[0].expr) + InitsFields(fs[1..])
  }

  function ArmFields(arm: Arm): set<string>
    decreases arm, 0
  {
    match arm
    case Arm(pat, guard, body) => PatFields(pat) + OptFields(guard) + ExprFields(body)
  }

  function ArmsFields(arms: seq<Arm>): set<string>
    decreases arms, 0
  {
    if arms == [] then {} else ArmFields(arms[0]) + ArmsFields(arms[1..])
  }

  function StmtFields(s: Stmt): set<string>
    decreases s, 0
  {
    match s
    case Local(p, init) => PatFields(p) + OptFields(init)
    case ItemStmt(nested) => (match nested case Some(Fn(_, _, body)) => StmtsFields(body) case None => {})
    case ExprStmt(e, _) => ExprFields(e)
    case MacroStmt(arg) => ExprFields(arg)
  }

  function StmtsFields(ss: seq<Stmt>): set<string>
    decreases ss, 0
  {
    if ss == [] then {} else StmtFields(ss[0]) + StmtsFields(ss[1..])
  }

  function FnsFields(fns: seq<Fn>): set<string> {
    if fns == [] then {} else StmtsFields(fns[0].body) + FnsFields(fns[1..])
  }

  function ItemFields(item: Item): set<string>
    decreases item, 0
  {
    match item
    case ImplDecl(block) => FnsFields(block.fns)
    case FnDecl(fn) => StmtsFields(fn.body)
    case TraitDecl(defaults) => FnsFields(defaults)
    case ModDecl(_, items) => ItemsFields(items)
    case _ => {}
  }

  function ItemsFields(items: seq<Item>): set<string>
    decreases items, 0
  {
    if items == [] then {} else ItemFields(items[0]) + ItemsFields(items[1..])
  }

  // ----- Mentions in places the traversal skips -----

  // References, parentheses, tuples, ranges, macro arguments, arm patterns, guards and nested functions
  // are skipped entirely; a struct pattern contributes the variables it binds but not the fields it reads.

  function ExprHidden(e: Expr): set<string>
    decreases e, 0
  {
    match e
    case Path(_) => {}
    case Lit(_) => {}
    case Field(base, _) => ExprHidden(base)
    case Assign(l, r) => ExprHidden(l) + ExprHidden(r)
    case MethodCall(recv, _, args) => ExprHidden(recv) + ExprsHidden(args)
    case Binary(_, l, r) => ExprHidden(l) + ExprHidden(r)
    case Unary(_, x) => ExprHidden(x)
    case Call(func, args) => ExprHidden(func) + ExprsHidden(args)
    case Block(stmts) => StmtsHidden(stmts)
    case If(c, thn, els) => ExprHidden(c) + StmtsHidden(thn) + OptHidden(els)
    case Match(x, arms) => ExprHidden(x) + ArmsHidden(arms)
    case While(c, body) => ExprHidden(c) + StmtsHidden(body)
    case ForLoop(p, x, body) => PatFields(p) + ExprHidden(x) + StmtsHidden(body)
    case Return(x) => OptHidden(x)
    case Struct(_, inits, rest) => InitsHidden(inits) + OptHidden(rest)
    case Reference(x) => ExprFields(x)
    case Paren(x) => ExprFields(x)
    case Tuple(es) => ExprsFields(es)
    case Range(lo, hi) => ExprFields(lo) + ExprFields(hi)
  }

  function OptHidden(o: Option<Expr>): set<string>
    decreases o, 0
  {
    if o.Some? then ExprHidden(o.value) else {}
  }

  function ExprsHidden(es: seq<Expr>): set<string>
    decreases es, 0
  {
    if es == [] then {} else ExprHidden(es[0]) + ExprsHidden(es[1..])
  }

  function InitsHidden(fs: seq<FieldValue>): set<string>
    decreases fs, 0
  {
    if fs == [] then {} else ExprHidden(fs[0].expr) + InitsHidden(fs[1..])
  }

  function ArmHidden(arm: Arm): set<string>
    decreases arm, 0
  {
    match arm
    case Arm(pat, guard, body) => PatFields(pat) + OptFields(guard) + ExprHidden(body)
  }

  function ArmsHidden(arms: seq<Arm>): set<string>
    decreases arms, 0
  {
    if arms == [] then {} else ArmHidden(arms[0]) + ArmsHidden(arms[1..])
  }

  function StmtHidden(s: Stmt): set<string>
    decreases s, 0
  {
    match s
    case Local(p, init) => PatFields(p) + OptHidden(init)
    case ItemStmt(_) => StmtFields(s)
    case ExprStmt(e, _) => ExprHidden(e)
    case MacroStmt(arg) => ExprFields(arg)
  }

  function StmtsHidden(ss: seq<Stmt>): set<string>
    decreases ss, 0
  {
    if ss == [] then {} else StmtHidden(ss[0]) + StmtsHidden(ss[1..])
  }

  function FnsHidden(fns: seq<Fn>): set<string> {
    if fns == [] then {} else StmtsHidden(fns[0].body) + FnsHidden(fns[1..])
  }

  // ----- A mention is collected or hidden -----

  lemma {:induction false} ExprMention(e: Expr, f: string)
    requires f !in ExprVars(e)
    ensures f in ExprFields(e) <==> f in ExprHidden(e)
    decreases e, 0
  {
    match e
    case Field(base, _) => ExprMention(base, f);
    case Assign(l, r) => ExprMention(l, f); ExprMention(r, f);
    case MethodCall(recv, _, args) => ExprMention(recv, f); ExprsMention(args, f);
    case Binary(_, l, r) => ExprMention(l, f); ExprMention(r, f);
    case Unary(_, x) => ExprMention(x, f);
    case Call(func, args) => ExprMention(func, f); ExprsMention(args, f);
    case Block(stmts) => StmtsMention(stmts, f);
    case If(c, thn, els) => ExprMention(c, f); StmtsMention(thn, f); OptMention(els, f);
    case Match(x, arms) => ExprMention(x, f); ArmsMention(arms, f);
    case While(c, body) => ExprMention(c, f); StmtsMention(body, f);
    case ForLoop(p, x, body) => ExprMention(x, f); StmtsMention(body, f);
    case Return(x) => OptMention(x, f);
    case Struct(_, inits, rest) => InitsMention(inits, f); OptMention(rest, f);
    case _ =>
  }

  lemma {:induction false} OptMention(o: Option<Expr>, f: string)
    requires f !in OptVars(o)
    ensures f in OptFields(o) <==> f in OptHidden(o)
    decreases o, 0
  {
    if o.Some? { ExprMention(o.value, f); }
  }

  lemma {:induction false} ExprsMention(es: seq<Expr>, f: string)
    requires f !in ExprsVars(es)
    ensures f in ExprsFields(es) <==> f in ExprsHidden(es)
    decreases es, 0
  {
    if es == [] {
    } else {
      ExprMention(es[0], f);
      ExprsMention(es[1..], f);
    }
  }

  lemma {:induction false} InitsMention(fs: seq<FieldValue>, f: string)
    requires f !in InitsVars(fs)
    ensures f in InitsFields(fs) <==> f in InitsHidden(fs)
    decreases fs, 0
  {
    if fs == [] {
    } else {
      ExprMention(fs[0].expr, f);
      InitsMention(fs[1..], f);
    }
  }

  lemma {:induction false} ArmMention(arm: Arm, f: string)
    requires f !in ArmVars(arm)
    ensures f in ArmFields(arm) <==> f in ArmHidden(arm)
    decreases arm, 0
  {
    match arm
    case Arm(_, _, body) => ExprMention(body, f);
  }

  lemma {:induction false} ArmsMention(arms: seq<Arm>, f: string)
    requires f !in ArmsVars(arms)
    ensures f in ArmsFields(arms) <==> f in ArmsHidden(arms)
    decreases arms, 0
  {
    if arms == [] {
    } else {
      ArmMention(arms[0], f);
      ArmsMention(arms[1..], f);
    }
  }

  lemma {:induction false} StmtMention(s: Stmt, f: string)
    requires f !in StmtVars(s)
    ensures f in StmtFields(s) <==> f in StmtHidden(s)
    decreases s, 0
  {
    match s
    case Local(_, init) => OptMention(init, f);
    case ExprStmt(e, _) => ExprMention(e, f);
    case _ =>
  }

  lemma {:induction false} StmtsMention(ss: seq<Stmt>, f: string)
    requires f !in StmtsVars(ss)
    ensures f in StmtsFields(ss) <==> f in StmtsHidden(ss)
    decreases ss, 0
  {
    if ss == [] {
    } else {
      StmtMention(ss[0], f);
      StmtsMention(ss[1..], f);
    }
  }

  /** For a name the traversal did not collect, being mentioned means being mentioned where it does not look. */
  lemma {:induction false} FnsMention(fns: seq<Fn>, f: string)
    requires f !in FnsVars(fns)
    ensures f in FnsFields(fns) <==> f in FnsHidden(fns)
  {
    if fns == [] {
    } else {
      StmtsMention(fns[0].body, f);
      FnsMention(fns[1..], f);
    }
  }
}
