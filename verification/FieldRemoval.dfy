/**
 * Removing a field from the text of a program: its declaration goes, and so do its initializers in
 * the literals of its struct, which the compiler would reject. An initializer that goes is not
 * evaluated any more, so the program keeps its meaning only if evaluating it does nothing.
 */
module FieldRemoval {
  import opened Wrappers
  import opened RustAst
  import opened RustSemantics
  import opened FieldMentions
  import opened Erasure

  // ----- The edit -----

  /** `self` tells whether `Self` means the struct; literals of any other type stay as they are. */
  predicate IsLiteralOf(name: string, self: bool, d: FieldId) {
    if name == "Self" then self else name == d.owner
  }

  function CutExpr(e: Expr, self: bool, d: FieldId): Expr
    decreases e, 0
  {
    match e
    case Path(_) => e
    case Lit(_) => e
    case Field(base, m) => Field(CutExpr(base, self, d), m)
    case Assign(l, r) => Assign(CutExpr(l, self, d), CutExpr(r, self, d))
    case MethodCall(recv, m, args) => MethodCall(CutExpr(recv, self, d), m, CutExprs(args, self, d))
    case Binary(op, l, r) => Binary(op, CutExpr(l, self, d), CutExpr(r, self, d))
    case Unary(op, x) => Unary(op, CutExpr(x, self, d))
    case Call(func, args) => Call(CutExpr(func, self, d), CutExprs(args, self, d))
    case Block(stmts) => Block(CutStmts(stmts, self, d))
    case If(c, thn, els) => If(CutExpr(c, self, d), CutStmts(thn, self, d), CutOpt(els, self, d))
    case Match(x, arms) => Match(CutExpr(x, self, d), CutArms(arms, self, d))
    case While(c, body) => While(CutExpr(c, self, d), CutStmts(body, self, d))
    case ForLoop(p, x, body) => ForLoop(p, CutExpr(x, self, d), CutStmts(body, self, d))
    case Return(x) => Return(CutOpt(x, self, d))
    case Struct(name, inits, rest) =>
      Struct(name, CutInits(inits, IsLiteralOf(name, self, d), self, d), CutOpt(rest, self, d))
    case Reference(x) => Reference(CutExpr(x, self, d))
    case Paren(x) => Paren(CutExpr(x, self, d))
    case Tuple(es) => Tuple(CutExprs(es, self, d))
    case Range(lo, hi) => Range(CutExpr(lo, self, d), CutExpr(hi, self, d))
  }

  function CutOpt(o: Option<Expr>, self: bool, d: FieldId): Option<Expr>
    decreases o, 0
  {
    if o.Some? then Some(CutExpr(o.value, self, d)) else None
  }

  function CutExprs(es: seq<Expr>, self: bool, d: FieldId): seq<Expr>
    decreases es, 0
  {
    if es == [] then [] else [CutExpr(es[0], self, d)] + CutExprs(es[1..], self, d)
  }

  /** In a literal of the struct, the field's own initializers are left out. */
  function CutInits(fs: seq<FieldValue>, literal: bool, self: bool, d: FieldId): seq<FieldValue>
    decreases fs, 0
  {
    if fs == [] then []
    else if literal && fs[0].member == d.name then CutInits(fs[1..], literal, self, d)
    else [FieldValue(fs[0].member, CutExpr(fs[0].expr, self, d))] + CutInits(fs[1..], literal, self, d)
  }

  function CutArm(arm: Arm, self: bool, d: FieldId): Arm
    decreases arm, 0
  {
    match arm
    case Arm(pat, guard, body) => Arm(pat, CutOpt(guard, self, d), CutExpr(body, self, d))
  }

  function CutArms(arms: seq<Arm>, self: bool, d: FieldId): seq<Arm>
    decreases arms, 0
  {
    if arms == [] then [] else [CutArm(arms[0], self, d)] + CutArms(arms[1..], self, d)
  }

  function CutStmt(s: Stmt, self: bool, d: FieldId): Stmt
    decreases s, 0
  {
    match s
    case Local(p, init) => Local(p, CutOpt(init, self, d))
    case ItemStmt(nested) =>
      (match nested
       case Some(Fn(name, params, body)) => ItemStmt(Some(Fn(name, params, CutStmts(body, self, d))))
       case None => s)
    case ExprStmt(e, semi) => ExprStmt(CutExpr(e, self, d), semi)
    case MacroStmt(arg) => MacroStmt(CutExpr(arg, self, d))
  }

  function CutStmts(ss: seq<Stmt>, self: bool, d: FieldId): seq<Stmt>
    decreases ss, 0
  {
    if ss == [] then [] else [CutStmt(ss[0], self, d)] + CutStmts(ss[1..], self, d)
  }

  function CutFn(fn: Fn, self: bool, d: FieldId): Fn {
    Fn(fn.name, fn.params, CutStmts(fn.body, self, d))
  }

  function CutFns(fns: seq<Fn>, self: bool, d: FieldId): seq<Fn> {
    if fns == [] then [] else [CutFn(fns[0], self, d)] + CutFns(fns[1..], self, d)
  }

  function Without(fields: seq<string>, f: string): seq<string> {
    if fields == [] then []
    else if fields[0] == f then Without(fields[1..], f)
    else [fields[0]] + Without(fields[1..], f)
  }

  /** `Self` literals are written in impl blocks; in free functions and trait defaults the compiler has none. */
  function CutItem(item: Item, d: FieldId): Item
    decreases item, 0
  {
    match item
    case StructDecl(decl) =>
      if decl.name == d.owner then StructDecl(decl.(fields := Without(decl.fields, d.name))) else item
    case ImplDecl(block) => ImplDecl(ImplBlock(block.selfType, CutFns(block.fns, block.selfType == d.owner, d)))
    case FnDecl(fn) => FnDecl(CutFn(fn, false, d))
    case TraitDecl(defaults) => TraitDecl(CutFns(defaults, false, d))
    case ModDecl(name, items) => ModDecl(name, CutItems(items, d))
    case OtherItem => item
  }

  function CutItems(items: seq<Item>, d: FieldId): seq<Item>
    decreases items, 0
  {
    if items == [] then [] else [CutItem(items[0], d)] + CutItems(items[1..], d)
  }

  // ----- The initializers that go -----

  function ExprInits(e: Expr, self: bool, d: FieldId): set<Expr>
    decreases e, 0
  {
    match e
    case Path(_) => {}
    case Lit(_) => {}
    case Field(base, _) => ExprInits(base, self, d)
    case Assign(l, r) => ExprInits(l, self, d) + ExprInits(r, self, d)
    case MethodCall(recv, _, args) => ExprInits(recv, self, d) + ExprsInits(args, self, d)
    case Binary(_, l, r) => ExprInits(l, self, d) + ExprInits(r, self, d)
    case Unary(_, x) => ExprInits(x, self, d)
    case Call(func, args) => ExprInits(func, self, d) + ExprsInits(args, self, d)
    case Block(stmts) => StmtsInits(stmts, self, d)
    case If(c, thn, els) => ExprInits(c, self, d) + StmtsInits(thn, self, d) + OptInits(els, self, d)
    case Match(x, arms) => ExprInits(x, self, d) + ArmsInits(arms, self, d)
    case While(c, body) => ExprInits(c, self, d) + StmtsInits(body, self, d)
    case ForLoop(_, x, body) => ExprInits(x, self, d) + StmtsInits(body, self, d)
    case Return(x) => OptInits(x, self, d)
    case Struct(name, inits, rest) => LiteralInits(inits, IsLiteralOf(name, self, d), self, d) + OptInits(rest, self, d)
    case Reference(x) => ExprInits(x, self, d)
    case Paren(x) => ExprInits(x, self, d)
    case Tuple(es) => ExprsInits(es, self, d)
    case Range(lo, hi) => ExprInits(lo, self, d) + ExprInits(hi, self, d)
  }

  function OptInits(o: Option<Expr>, self: bool, d: FieldId): set<Expr>
    decreases o, 0
  {
    if o.Some? then ExprInits(o.value, self, d) else {}
  }

  function ExprsInits(es: seq<Expr>, self: bool, d: FieldId): set<Expr>
    decreases es, 0
  {
    if es == [] then {} else ExprInits(es[0], self, d) + ExprsInits(es[1..], self, d)
  }

  function LiteralInits(fs: seq<FieldValue>, literal: bool, self: bool, d: FieldId): set<Expr>
    decreases fs, 0
  {
    if fs == [] then {}
    else
      (if literal && fs[0].member == d.name then {fs[0].expr} else {}) + ExprInits(fs[0].expr, self, d)
      + LiteralInits(fs[1..], literal, self, d)
  }

  function ArmInits(arm: Arm, self: bool, d: FieldId): set<Expr>
    decreases arm, 0
  {
    match arm
    case Arm(_, guard, body) => OptInits(guard, self, d) + ExprInits(body, self, d)
  }

  function ArmsInits(arms: seq<Arm>, self: bool, d: FieldId): set<Expr>
    decreases arms, 0
  {
    if arms == [] then {} else ArmInits(arms[0], self, d) + ArmsInits(arms[1..], self, d)
  }

  function StmtInits(s: Stmt, self: bool, d: FieldId): set<Expr>
    decreases s, 0
  {
    match s
    case Local(_, init) => OptInits(init, self, d)
    case ItemStmt(nested) => (match nested case Some(Fn(_, _, body)) => StmtsInits(body, self, d) case None => {})
    case ExprStmt(e, _) => ExprInits(e, self, d)
    case MacroStmt(arg) => ExprInits(arg, self, d)
  }

  function StmtsInits(ss: seq<Stmt>, self: bool, d: FieldId): set<Expr>
    decreases ss, 0
  {
    if ss == [] then {} else StmtInits(ss[0], self, d) + StmtsInits(ss[1..], self, d)
  }

  function FnsInits(fns: seq<Fn>, self: bool, d: FieldId): set<Expr> {
    if fns == [] then {} else StmtsInits(fns[0].body, self, d) + FnsInits(fns[1..], self, d)
  }

  function ItemInits(item: Item, d: FieldId): set<Expr>
    decreases item, 0
  {
    match item
    case ImplDecl(block) => FnsInits(block.fns, block.selfType == d.owner, d)
    case FnDecl(fn) => StmtsInits(fn.body, false, d)
    case TraitDecl(defaults) => FnsInits(defaults, false, d)
    case ModDecl(_, items) => ItemsInits(items, d)
    case _ => {}
  }

  /** Every expression that initializes the field in a literal of its struct. */
  function ItemsInits(items: seq<Item>, d: FieldId): set<Expr>
    decreases items, 0
  {
    if items == [] then {} else ItemInits(items[0], d) + ItemsInits(items[1..], d)
  }

  /** Expressions that compute a value and do nothing else, whatever the program around them. */
  predicate Inert(e: Expr) {
    match e
    case Lit(_) => true
    case Path(segments) => |segments| >= 2
    case Tuple(es) => forall i :: 0 <= i < |es| ==> Inert(es[i])
    case Paren(x) => Inert(x)
    case Reference(x) => Inert(x)
    case _ => false
  }

  /** Expressions that compute a value or abort, and do nothing else. */
  predicate Quiet(e: Expr) {
    match e
    case Lit(_) => true
    case Path(_) => true
    case Field(base, _) => Quiet(base)
    case Unary(_, x) => Quiet(x)
    case Binary(op, l, r) => !op.Compound? && Quiet(l) && Quiet(r)
    case Range(lo, hi) => Quiet(lo) && Quiet(hi)
    case Tuple(es) => forall i :: 0 <= i < |es| ==> Quiet(es[i])
    case Paren(x) => Quiet(x)
    case Reference(x) => Quiet(x)
    case _ => false
  }

  /** Which expressions are removable without further thought. */
  lemma RemovableAre(s: Scalar, segments: seq<string>, es: seq<Expr>, x: Expr)
    ensures Inert(Lit(s)) && (|segments| >= 2 ==> Inert(Path(segments))) && Quiet(Path(segments))
    ensures Inert(Tuple(es)) <==> forall i :: 0 <= i < |es| ==> Inert(es[i])
    ensures (Inert(Paren(x)) <==> Inert(x)) && (Inert(Reference(x)) <==> Inert(x))
    ensures Inert(x) ==> Quiet(x)
  {
    if Inert(x) {
      InertIsQuiet(x);
    }
  }

  lemma {:induction false} InertIsQuiet(x: Expr)
    requires Inert(x)
    ensures Quiet(x)
  {
    match x
    case Paren(y) => InertIsQuiet(y);
    case Reference(y) => InertIsQuiet(y);
    case Tuple(es) =>
      forall i | 0 <= i < |es|
        ensures Quiet(es[i])
      {
        InertIsQuiet(es[i]);
      }
    case _ =>
  }

  /** `strict` forbids the expressions that could abort. */
  predicate Removable(es: set<Expr>, strict: bool) {
    forall e :: e in es ==> if strict then Inert(e) else Quiet(e)
  }

  /** An evaluation that ends normally and changes nothing, or aborts when that is not excluded. */
  predicate DoesNothing(o: Outcome, st: State, strict: bool) {
    (o.Done? && o.st == st) || (!strict && o.Failed?)
  }

  predicate DoNothing(o: Outcomes, st: State, strict: bool) {
    (o.DoneAll? && o.st == st) || (!strict && o == Stopped(Failed))
  }

  lemma {:induction false} InertDoesNothing(ctx: Context, cur: string, e: Expr, st: State, fuel: nat)
    requires Inert(e)
    ensures DoesNothing(Eval(ctx, cur, e, st, fuel), st, true)
    decreases e, 0
  {
    match e
    case Tuple(es) => InertListDoesNothing(ctx, cur, es, st, fuel);
    case Paren(x) => InertDoesNothing(ctx, cur, x, st, fuel);
    case Reference(x) => InertDoesNothing(ctx, cur, x, st, fuel);
    case _ =>
  }

  lemma {:induction false} InertListDoesNothing(ctx: Context, cur: string, es: seq<Expr>, st: State, fuel: nat)
    requires forall i :: 0 <= i < |es| ==> Inert(es[i])
    ensures DoNothing(EvalAll(ctx, cur, es, st, fuel), st, true)
    decreases es, 0
  {
    if es == [] {
    } else {
      InertDoesNothing(ctx, cur, es[0], st, fuel);
      InertListDoesNothing(ctx, cur, es[1..], st, fuel);
    }
  }

  lemma {:induction false} QuietDoesNothing(ctx: Context, cur: string, e: Expr, st: State, fuel: nat)
    requires Quiet(e)
    ensures DoesNothing(Eval(ctx, cur, e, st, fuel), st, false)
    decreases e, 1
  {
    match e
    case Field(base, _) => QuietDoesNothing(ctx, cur, base, st, fuel);
    case Unary(_, x) => QuietDoesNothing(ctx, cur, x, st, fuel);
    case Binary(_, l, r) => QuietOperator(ctx, cur, e, st, fuel);
    case Range(lo, hi) =>
      QuietDoesNothing(ctx, cur, lo, st, fuel);
      QuietDoesNothing(ctx, cur, hi, st, fuel);
    case Tuple(es) => QuietListDoesNothing(ctx, cur, es, st, fuel);
    case Paren(x) => QuietDoesNothing(ctx, cur, x, st, fuel);
    case Reference(x) => QuietDoesNothing(ctx, cur, x, st, fuel);
    case _ =>
  }

  lemma {:induction false} QuietOperator(ctx: Context, cur: string, e: Expr, st: State, fuel: nat)
    requires e.Binary? && Quiet(e)
    ensures DoesNothing(EvalOperator(ctx, cur, e, st, fuel), st, false)
    decreases e, 0
  {
    QuietDoesNothing(ctx, cur, e.lhs, st, fuel);
    QuietDoesNothing(ctx, cur, e.rhs, st, fuel);
  }

  lemma {:induction false} QuietListDoesNothing(ctx: Context, cur: string, es: seq<Expr>, st: State, fuel: nat)
    requires forall i :: 0 <= i < |es| ==> Quiet(es[i])
    ensures DoNothing(EvalAll(ctx, cur, es, st, fuel), st, false)
    decreases es, 0
  {
    if es == [] {
    } else {
      QuietDoesNothing(ctx, cur, es[0], st, fuel);
      QuietListDoesNothing(ctx, cur, es[1..], st, fuel);
    }
  }

  /** A literal keeps its meaning without the initializer exactly when evaluating that ends normally and changes nothing. */
  lemma LiteralSurvivesExactly(ctx: Context, cur: string, d: FieldId, e: Expr, st: State, fuel: nat)
    requires d.owner in ctx.layout && d.name !in ctx.layout[d.owner] && d.owner != "Self"
    ensures Eval(ctx, cur, Struct(d.owner, [], None), st, fuel) == Eval(ctx, cur, Struct(d.owner, [FieldValue(d.name, e)], None), st, fuel)
       <==> Eval(ctx, cur, e, st, fuel).Done? && Eval(ctx, cur, e, st, fuel).st == st
  {
    var inits := [FieldValue(d.name, e)];
    assert inits[1..] == [] && inits[0].expr == e;
    var o := Eval(ctx, cur, e, st, fuel);
    assert BuildStruct(ctx, d.owner, map[], st) == Done(VStruct(d.owner, map[]), st);
    assert Eval(ctx, cur, Struct(d.owner, [], None), st, fuel) == Done(VStruct(d.owner, map[]), st);
    if o.Done? {
      assert EvalInits(ctx, cur, inits[1..], o.st, fuel) == DoneAll([], o.st);
      assert EvalInits(ctx, cur, inits, st, fuel) == DoneAll([o.value], o.st);
      assert Initialize(inits, [o.value], map[]) == map[d.name := o.value];
    } else {
      assert EvalInits(ctx, cur, inits, st, fuel) == Stopped(o);
    }
  }

  // ----- Nothing of the field is left -----

  /** The edit leaves no initializer of the field behind and mentions no field that was not mentioned before. */
  lemma {:induction false} ExprGone(e: Expr, self: bool, d: FieldId)
    ensures ExprInits(CutExpr(e, self, d), self, d) == {} && ExprFields(CutExpr(e, self, d)) <= ExprFields(e)
    decreases e, 1
  {
    match e
    case Path(_) =>
    case Lit(_) =>
    case Field(base, _) => ExprGone(base, self, d);
    case Unary(_, x) => ExprGone(x, self, d);
    case Block(stmts) => StmtsGone(stmts, self, d);
    case Return(x) => OptGone(x, self, d);
    case Reference(x) => ExprGone(x, self, d);
    case Paren(x) => ExprGone(x, self, d);
    case Tuple(es) => ExprsGone(es, self, d);
    case Assign(_, _) => OperandsGone(e, self, d);
    case Binary(_, _, _) => OperandsGone(e, self, d);
    case Range(_, _) => OperandsGone(e, self, d);
    case MethodCall(_, _, _) => OperandsGone(e, self, d);
    case Call(_, _) => OperandsGone(e, self, d);
    case Struct(_, _, _) => BranchesGone(e, self, d);
    case If(_, _, _) => BranchesGone(e, self, d);
    case Match(_, _) => BranchesGone(e, self, d);
    case While(_, _) => BranchesGone(e, self, d);
    case ForLoop(_, _, _) => BranchesGone(e, self, d);
  }

  lemma {:induction false} OperandsGone(e: Expr, self: bool, d: FieldId)
    requires e.Assign? || e.Binary? || e.Range? || e.MethodCall? || e.Call?
    ensures ExprInits(CutExpr(e, self, d), self, d) == {} && ExprFields(CutExpr(e, self, d)) <= ExprFields(e)
    decreases e, 0
  {
    match e
    case Assign(l, r) => ExprGone(l, self, d); ExprGone(r, self, d);
    case Binary(_, l, r) => ExprGone(l, self, d); ExprGone(r, self, d);
    case Range(lo, hi) => ExprGone(lo, self, d); ExprGone(hi, self, d);
    case MethodCall(recv, _, args) => ExprGone(recv, self, d); ExprsGone(args, self, d);
    case Call(func, args) => ExprGone(func, self, d); ExprsGone(args, self, d);
  }

  lemma {:induction false} BranchesGone(e: Expr, self: bool, d: FieldId)
    requires e.Struct? || e.If? || e.Match? || e.While? || e.ForLoop?
    ensures ExprInits(CutExpr(e, self, d), self, d) == {} && ExprFields(CutExpr(e, self, d)) <= ExprFields(e)
    decreases e, 0
  {
    match e
    case Struct(name, inits, rest) => InitsGone(inits, IsLiteralOf(name, self, d), self, d); OptGone(rest, self, d);
    case If(c, thn, els) => ExprGone(c, self, d); StmtsGone(thn, self, d); OptGone(els, self, d);
    case Match(x, arms) => ExprGone(x, self, d); ArmsGone(arms, self, d);
    case While(c, body) => ExprGone(c, self, d); StmtsGone(body, self, d);
    case ForLoop(_, x, body) => ExprGone(x, self, d); StmtsGone(body, self, d);
  }

  lemma {:induction false} OptGone(o: Option<Expr>, self: bool, d: FieldId)
    ensures OptInits(CutOpt(o, self, d), self, d) == {} && OptFields(CutOpt(o, self, d)) <= OptFields(o)
    decreases o, 2
  {
    if o.Some? {
      ExprGone(o.value, self, d);
    }
  }

  lemma {:induction false} ExprsGone(es: seq<Expr>, self: bool, d: FieldId)
    ensures ExprsInits(CutExprs(es, self, d), self, d) == {} && ExprsFields(CutExprs(es, self, d)) <= ExprsFields(es)
    decreases es, 0
  {
    if es == [] {
    } else {
      ExprGone(es[0], self, d);
      ExprsGone(es[1..], self, d);
      assert CutExprs(es, self, d)[1..] == CutExprs(es[1..], self, d);
    }
  }

  lemma {:induction false} InitsGone(fs: seq<FieldValue>, literal: bool, self: bool, d: FieldId)
    ensures LiteralInits(CutInits(fs, literal, self, d), literal, self, d) == {}
    ensures InitsFields(CutInits(fs, literal, self, d)) <= InitsFields(fs)
    decreases fs, 0
  {
    if fs == [] {
    } else {
      ExprGone(fs[0].expr, self, d);
      InitsGone(fs[1..], literal, self, d);
      if !(literal && fs[0].member == d.name) {
        assert CutInits(fs, literal, self, d)[1..] == CutInits(fs[1..], literal, self, d);
      }
    }
  }

  lemma {:induction false} ArmGone(arm: Arm, self: bool, d: FieldId)
    ensures ArmInits(CutArm(arm, self, d), self, d) == {} && ArmFields(CutArm(arm, self, d)) <= ArmFields(arm)
    decreases arm, 0
  {
    match arm
    case Arm(_, guard, body) => OptGone(guard, self, d); ExprGone(body, self, d);
  }

  lemma {:induction false} ArmsGone(arms: seq<Arm>, self: bool, d: FieldId)
    ensures ArmsInits(CutArms(arms, self, d), self, d) == {} && ArmsFields(CutArms(arms, self, d)) <= ArmsFields(arms)
    decreases arms, 0
  {
    if arms == [] {
    } else {
      ArmGone(arms[0], self, d);
      ArmsGone(arms[1..], self, d);
      assert CutArms(arms, self, d)[1..] == CutArms(arms[1..], self, d);
    }
  }

  lemma {:induction false} StmtGone(s: Stmt, self: bool, d: FieldId)
    ensures StmtInits(CutStmt(s, self, d), self, d) == {} && StmtFields(CutStmt(s, self, d)) <= StmtFields(s)
    decreases s, 0
  {
    match s
    case Local(_, init) => OptGone(init, self, d);
    case ItemStmt(nested) => if nested.Some? { StmtsGone(nested.value.body, self, d); }
    case ExprStmt(e, _) => ExprGone(e, self, d);
    case MacroStmt(arg) => ExprGone(arg, self, d);
  }

  lemma {:induction false} StmtsGone(ss: seq<Stmt>, self: bool, d: FieldId)
    ensures StmtsInits(CutStmts(ss, self, d), self, d) == {} && StmtsFields(CutStmts(ss, self, d)) <= StmtsFields(ss)
    decreases ss, 0
  {
    if ss == [] {
    } else {
      StmtGone(ss[0], self, d);
      StmtsGone(ss[1..], self, d);
      assert CutStmts(ss, self, d)[1..] == CutStmts(ss[1..], self, d);
    }
  }

  lemma {:induction false} FnsGone(fns: seq<Fn>, self: bool, d: FieldId)
    ensures FnsInits(CutFns(fns, self, d), self, d) == {} && FnsFields(CutFns(fns, self, d)) <= FnsFields(fns)
  {
    if fns == [] {
    } else {
      StmtsGone(fns[0].body, self, d);
      FnsGone(fns[1..], self, d);
      assert CutFns(fns, self, d)[1..] == CutFns(fns[1..], self, d);
    }
  }

  predicate Declares(item: Item, d: FieldId)
    decreases item, 0
  {
    match item
    case StructDecl(decl) => decl.name == d.owner && d.name in decl.fields
    case ModDecl(_, items) => SomeDeclares(items, d)
    case _ => false
  }

  predicate SomeDeclares(items: seq<Item>, d: FieldId)
    decreases items, 0
  {
    items != [] && (Declares(items[0], d) || SomeDeclares(items[1..], d))
  }

  lemma {:induction false} WithoutIsGone(fields: seq<string>, f: string)
    ensures forall g :: g in Without(fields, f) <==> g in fields && g != f
  {
    if fields == [] {
    } else {
      WithoutIsGone(fields[1..], f);
    }
  }

  lemma {:induction false} ItemGone(item: Item, d: FieldId)
    ensures ItemInits(CutItem(item, d), d) == {} && ItemFields(CutItem(item, d)) <= ItemFields(item)
    ensures !Declares(CutItem(item, d), d)
    decreases item, 0
  {
    match item
    case StructDecl(decl) => WithoutIsGone(decl.fields, d.name);
    case ImplDecl(block) => FnsGone(block.fns, block.selfType == d.owner, d);
    case FnDecl(fn) => StmtsGone(fn.body, false, d);
    case TraitDecl(defaults) => FnsGone(defaults, false, d);
    case ModDecl(_, items) => FieldIsGone(items, d);
    case OtherItem =>
  }

  /** The edited file neither declares nor initializes the field, and mentions no further field. */
  lemma {:induction false} FieldIsGone(items: seq<Item>, d: FieldId)
    ensures !SomeDeclares(CutItems(items, d), d) && ItemsInits(CutItems(items, d), d) == {}
    ensures ItemsFields(CutItems(items, d)) <= ItemsFields(items)
    decreases items, 0
  {
    if items == [] {
    } else {
      ItemGone(items[0], d);
      FieldIsGone(items[1..], d);
      assert CutItems(items, d)[1..] == CutItems(items[1..], d);
    }
  }
}
