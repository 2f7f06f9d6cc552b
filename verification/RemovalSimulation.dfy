/**
 * A program with the field's initializers removed runs like the program with all of them, once the
 * field is not declared and the removed initializers are inert. The lemmas follow the evaluator.
 */
module RemovalSimulation {
  import opened Wrappers
  import opened RustAst
  import opened RustSemantics
  import opened Erasure
  import opened FieldRemoval

  /**
   * The contexts before and after the edit inside code where `Self` means `cur`; `self` tells whether
   * `Self` literals were edited there.
   */
  datatype Edit = Edit(before: Context, after: Context, cur: string, self: bool, strict: bool, d: FieldId)

  predicate CutAs(fn: Fn, fn': Fn, self: bool, strict: bool, d: FieldId) {
    fn' == CutFn(fn, self, d) && Removable(StmtsInits(fn.body, self, d), strict)
  }

  /** `fn'` is `fn` edited, with its `Self` literals only if `Self` is the struct. */
  predicate Rewritten(fn: Fn, fn': Fn, cur: string, strict: bool, d: FieldId) {
    CutAs(fn, fn', false, strict, d) || (cur == d.owner && CutAs(fn, fn', true, strict, d))
  }

  ghost predicate Valid(c: Edit) {
    && (c.self ==> c.cur == c.d.owner)
    && c.d.owner != DEFAULTS
    && c.after.operator == c.before.operator && c.after.host == c.before.host
    && c.after.layout == c.before.layout
    && (c.d.owner in c.before.layout ==> c.d.name !in c.before.layout[c.d.owner])
    && c.after.fns.Keys == c.before.fns.Keys
    && (forall key :: key in c.before.fns ==> Rewritten(c.before.fns[key], c.after.fns[key], key.0, c.strict, c.d))
    && c.after.local.Keys == c.before.local.Keys
    && (forall name :: name in c.before.local ==> Rewritten(c.before.local[name], c.after.local[name], c.cur, c.strict, c.d))
  }


  // ----- Places, scopes and callees -----

  lemma {:induction false} CutPlace(e: Expr, self: bool, d: FieldId)
    ensures ToPlace(CutExpr(e, self, d)) == ToPlace(e)
  {
    match e
    case Field(base, _) => CutPlace(base, self, d);
    case Reference(x) => CutPlace(x, self, d);
    case Unary(_, x) => CutPlace(x, self, d);
    case Paren(x) => CutPlace(x, self, d);
    case _ =>
  }

  lemma {:induction false} CutNested(ss: seq<Stmt>, self: bool, strict: bool, d: FieldId)
    requires Removable(StmtsInits(ss, self, d), strict)
    ensures NestedIn(CutStmts(ss, self, d)).Keys == NestedIn(ss).Keys
    ensures forall name :: name in NestedIn(ss) ==> CutAs(NestedIn(ss)[name], NestedIn(CutStmts(ss, self, d))[name], self, strict, d)
  {
    if ss == [] {
    } else {
      CutNested(ss[1..], self, strict, d);
      assert CutStmts(ss, self, d)[1..] == CutStmts(ss[1..], self, d);
      if ss[0].ItemStmt? && ss[0].nested.Some? {
        var fn := ss[0].nested.value;
        assert fn == Fn(fn.name, fn.params, fn.body);
        assert CutStmt(ss[0], self, d) == ItemStmt(Some(CutFn(fn, self, d)));
        assert StmtInits(ss[0], self, d) == StmtsInits(fn.body, self, d);
      }
    }
  }

  function Entered(c: Edit, ss: seq<Stmt>): Edit {
    c.(before := Enter(c.before, ss), after := Enter(c.after, CutStmts(ss, c.self, c.d)))
  }

  lemma EnteredIsValid(c: Edit, ss: seq<Stmt>)
    requires Valid(c) && Removable(StmtsInits(ss, c.self, c.d), c.strict)
    ensures Valid(Entered(c, ss))
  {
    CutNested(ss, c.self, c.strict, c.d);
  }

  /** Two callees that are one function before and after the edit. */
  predicate SameCallee(c: Edit, callee: Callee, callee': Callee) {
    && callee.Nested? == callee'.Nested?
    && SelfType(callee, c.cur) == SelfType(callee', c.cur)
    && Rewritten(callee.fn, callee'.fn, SelfType(callee, c.cur), c.strict, c.d)
  }

  predicate SameCallees(c: Edit, callee: Option<Callee>, callee': Option<Callee>) {
    callee.Some? == callee'.Some? && (callee.Some? ==> SameCallee(c, callee.value, callee'.value))
  }

  lemma CutTarget(c: Edit, segments: seq<string>)
    requires Valid(c) && segments != []
    ensures SameCallees(c, Target(c.before, c.cur, segments), Target(c.after, c.cur, segments))
  {
  }

  lemma CutMethodTarget(c: Edit, recv: Value, m: string)
    requires Valid(c)
    ensures SameCallees(c, MethodTarget(c.before, recv, m), MethodTarget(c.after, recv, m))
    ensures MethodTarget(c.before, recv, m).Some? ==> MethodTarget(c.before, recv, m).value.Global?
  {
  }

  function InsideEdit(c: Edit, callee: Callee, callee': Callee): Edit {
    Edit(Inside(c.before, callee), Inside(c.after, callee'), SelfType(callee, c.cur), !CutAs(callee.fn, callee'.fn, false, c.strict, c.d), c.strict, c.d)
  }

  lemma InsideIsValid(c: Edit, callee: Callee, callee': Callee)
    requires Valid(c) && SameCallee(c, callee, callee')
    ensures Valid(InsideEdit(c, callee, callee'))
    ensures CutAs(callee.fn, callee'.fn, InsideEdit(c, callee, callee').self, c.strict, c.d)
  {
  }

  // ----- Struct literals -----

  /** The values of the initializers that stay. */
  function Kept(fs: seq<FieldValue>, vs: seq<Value>, literal: bool, d: FieldId): seq<Value>
    requires |fs| == |vs|
  {
    if fs == [] then []
    else if literal && fs[0].member == d.name then Kept(fs[1..], vs[1..], literal, d)
    else [vs[0]] + Kept(fs[1..], vs[1..], literal, d)
  }

  lemma {:induction false} KeptFits(fs: seq<FieldValue>, vs: seq<Value>, literal: bool, self: bool, d: FieldId)
    requires |fs| == |vs|
    ensures |CutInits(fs, literal, self, d)| == |Kept(fs, vs, literal, d)|
  {
    if fs == [] {
    } else {
      KeptFits(fs[1..], vs[1..], literal, self, d);
    }
  }

  /** The initializers that stay give every other field the value it had. */
  lemma {:induction false} KeptInitialize(
      fs: seq<FieldValue>, vs: seq<Value>, base: map<string, Value>, base': map<string, Value>, literal: bool, self: bool, d: FieldId)
    requires |fs| == |vs| && |CutInits(fs, literal, self, d)| == |Kept(fs, vs, literal, d)|
    requires if literal then base' - {d.name} == base - {d.name} else base' == base
    ensures var all, some := Initialize(fs, vs, base), Initialize(CutInits(fs, literal, self, d), Kept(fs, vs, literal, d), base');
            if literal then some - {d.name} == all - {d.name} else some == all
    decreases |fs|
  {
    if fs == [] {
    } else {
      var g, next := fs[0].member, base[fs[0].member := vs[0]];
      KeptFits(fs[1..], vs[1..], literal, self, d);
      if literal && g == d.name {
        assert next - {d.name} == base - {d.name};
        KeptInitialize(fs[1..], vs[1..], next, base', literal, self, d);
      } else {
        var next', cut, kept := base'[g := vs[0]], CutInits(fs, literal, self, d), Kept(fs, vs, literal, d);
        if literal {
          assert next' - {d.name} == (base' - {d.name})[g := vs[0]];
          assert next - {d.name} == (base - {d.name})[g := vs[0]];
        }
        KeptInitialize(fs[1..], vs[1..], next, next', literal, self, d);
        assert cut[1..] == CutInits(fs[1..], literal, self, d) && kept[1..] == Kept(fs[1..], vs[1..], literal, d);
      }
    }
  }

  lemma BuildsTheSame(ctx: Context, name: string, all: map<string, Value>, some: map<string, Value>, st: State, f: string)
    requires some - {f} == all - {f} && (name in ctx.layout ==> f !in ctx.layout[name])
    ensures BuildStruct(ctx, name, some, st) == BuildStruct(ctx, name, all, st)
  {
    if name in ctx.layout {
      forall g | g != f
        ensures g in some <==> g in all
        ensures g in some ==> some[g] == all[g]
      {
        assert g in some - {f} <==> g in all - {f};
        if g in some {
          assert (some - {f})[g] == (all - {f})[g];
        }
      }
      var kept := map g | g in some && g in ctx.layout[name] :: some[g];
      var kept' := map g | g in all && g in ctx.layout[name] :: all[g];
      assert kept == kept';
    }
  }

  // ----- Evaluation -----

  /** The edited program does the same, except that it may go on where the original aborts. */
  predicate Agree(c: Edit, o': Outcome, o: Outcome) {
    o' == o || (!c.strict && o.Failed?)
  }

  predicate AgreeAll(c: Edit, r': Outcomes, r: Outcomes) {
    r' == r || (!c.strict && r == Stopped(Failed))
  }

  predicate AgreeTaken(c: Edit, a': Option<(bool, Outcome)>, a: Option<(bool, Outcome)>) {
    a' == a || (!c.strict && a == Some((true, Failed)))
  }

  lemma {:induction false} EvalCut(c: Edit, e: Expr, st: State, fuel: nat)
    requires Valid(c) && Removable(ExprInits(e, c.self, c.d), c.strict)
    ensures Agree(c, Eval(c.after, c.cur, CutExpr(e, c.self, c.d), st, fuel), Eval(c.before, c.cur, e, st, fuel))
    decreases fuel, e, 2
  {
    match e
    case Lit(_) =>
    case Path(_) =>
    case Field(_, _) => FieldCut(c, e, st, fuel);
    case Assign(_, _) => AssignCut(c, e, st, fuel);
    case Binary(_, _, _) => BinaryCut(c, e, st, fuel);
    case Unary(_, _) => UnaryCut(c, e, st, fuel);
    case Call(_, _) => CallCut(c, e, st, fuel);
    case MethodCall(_, _, _) => MethodCut(c, e, st, fuel);
    case Block(stmts) => BlockCut(c, stmts, st, fuel);
    case If(_, _, _) => IfCut(c, e, st, fuel);
    case Match(_, _) => MatchCut(c, e, st, fuel);
    case While(_, _) =>
      if fuel > 0 {
        WhileCut(c, e, st, fuel);
      }
    case ForLoop(_, _, _) => LoopCut(c, e, st, fuel);
    case Return(_) => ReturnCut(c, e, st, fuel);
    case Struct(_, _, _) => StructCut(c, e, st, fuel);
    case Reference(x) => EvalCut(c, x, st, fuel);
    case Paren(x) => EvalCut(c, x, st, fuel);
    case Tuple(_) => TupleCut(c, e, st, fuel);
    case Range(_, _) => RangeCut(c, e, st, fuel);
  }

  lemma {:induction false} FieldCut(c: Edit, e: Expr, st: State, fuel: nat)
    requires Valid(c) && e.Field? && Removable(ExprInits(e, c.self, c.d), c.strict)
    ensures Agree(c, Eval(c.after, c.cur, CutExpr(e, c.self, c.d), st, fuel), Eval(c.before, c.cur, e, st, fuel))
    decreases fuel, e, 1
  {
    EvalCut(c, e.base, st, fuel);
  }

  lemma {:induction false} UnaryCut(c: Edit, e: Expr, st: State, fuel: nat)
    requires Valid(c) && e.Unary? && Removable(ExprInits(e, c.self, c.d), c.strict)
    ensures Agree(c, Eval(c.after, c.cur, CutExpr(e, c.self, c.d), st, fuel), Eval(c.before, c.cur, e, st, fuel))
    decreases fuel, e, 1
  {
    EvalCut(c, e.operand, st, fuel);
  }

  lemma {:induction false} ReturnCut(c: Edit, e: Expr, st: State, fuel: nat)
    requires Valid(c) && e.Return? && Removable(ExprInits(e, c.self, c.d), c.strict)
    ensures Agree(c, Eval(c.after, c.cur, CutExpr(e, c.self, c.d), st, fuel), Eval(c.before, c.cur, e, st, fuel))
    decreases fuel, e, 1
  {
    OptCut(c, e.result, st, fuel);
  }

  lemma {:induction false} TupleCut(c: Edit, e: Expr, st: State, fuel: nat)
    requires Valid(c) && e.Tuple? && Removable(ExprInits(e, c.self, c.d), c.strict)
    ensures Agree(c, Eval(c.after, c.cur, CutExpr(e, c.self, c.d), st, fuel), Eval(c.before, c.cur, e, st, fuel))
    decreases fuel, e, 1
  {
    AllCut(c, e.elems, st, fuel);
  }

  lemma {:induction false} OptCut(c: Edit, o: Option<Expr>, st: State, fuel: nat)
    requires Valid(c) && Removable(OptInits(o, c.self, c.d), c.strict)
    ensures o.Some? ==>
              Agree(c, Eval(c.after, c.cur, CutOpt(o, c.self, c.d).value, st, fuel), Eval(c.before, c.cur, o.value, st, fuel))
    decreases fuel, o, 3
  {
    if o.Some? {
      assert OptInits(o, c.self, c.d) == ExprInits(o.value, c.self, c.d);
      EvalCut(c, o.value, st, fuel);
    }
  }

  lemma {:induction false} AssignCut(c: Edit, e: Expr, st: State, fuel: nat)
    requires Valid(c) && e.Assign? && Removable(ExprInits(e, c.self, c.d), c.strict)
    ensures Agree(c, Eval(c.after, c.cur, CutExpr(e, c.self, c.d), st, fuel), Eval(c.before, c.cur, e, st, fuel))
    decreases fuel, e, 1
  {
    EvalCut(c, e.right, st, fuel);
    CutPlace(e.left, c.self, c.d);
  }

  lemma {:induction false} BinaryCut(c: Edit, e: Expr, st: State, fuel: nat)
    requires Valid(c) && e.Binary? && Removable(ExprInits(e, c.self, c.d), c.strict)
    ensures Agree(c, Eval(c.after, c.cur, CutExpr(e, c.self, c.d), st, fuel), Eval(c.before, c.cur, e, st, fuel))
    decreases fuel, e, 1
  {
    if e.op.Compound? {
      EvalCut(c, e.rhs, st, fuel);
      CutPlace(e.lhs, c.self, c.d);
    } else {
      EvalCut(c, e.lhs, st, fuel);
      var o := Eval(c.before, c.cur, e.lhs, st, fuel);
      if o.Done? {
        EvalCut(c, e.rhs, o.st, fuel);
      }
    }
  }

  lemma {:induction false} CallCut(c: Edit, e: Expr, st: State, fuel: nat)
    requires Valid(c) && e.Call? && Removable(ExprInits(e, c.self, c.d), c.strict)
    ensures Agree(c, Eval(c.after, c.cur, CutExpr(e, c.self, c.d), st, fuel), Eval(c.before, c.cur, e, st, fuel))
    decreases fuel, e, 1
  {
    AllCut(c, e.args, st, fuel);
    var o := EvalAll(c.before, c.cur, e.args, st, fuel);
    if o.DoneAll? {
      ApplyCut(c, e.func, o.values, o.st, fuel);
    }
  }

  lemma {:induction false} ApplyCut(c: Edit, func: Expr, args: seq<Value>, st: State, fuel: nat)
    requires Valid(c)
    ensures Agree(c, EvalCall(c.after, c.cur, CutExpr(func, c.self, c.d), args, st, fuel), EvalCall(c.before, c.cur, func, args, st, fuel))
    decreases fuel, func, 0
  {
    if func.Path? && func.segments != [] {
      CutTarget(c, func.segments);
      var callee, callee' := Target(c.before, c.cur, func.segments), Target(c.after, c.cur, func.segments);
      if callee.Some? && fuel > 0 {
        RunCut(c, callee.value, callee'.value, c.cur, args, st.trace, fuel - 1);
      }
    }
  }

  lemma {:induction false} MethodCut(c: Edit, e: Expr, st: State, fuel: nat)
    requires Valid(c) && e.MethodCall? && Removable(ExprInits(e, c.self, c.d), c.strict)
    ensures Agree(c, Eval(c.after, c.cur, CutExpr(e, c.self, c.d), st, fuel), Eval(c.before, c.cur, e, st, fuel))
    decreases fuel, e, 1
  {
    CutPlace(e.receiver, c.self, c.d);
    if ToPlace(e.receiver).Some? {
      PlaceMethodCut(c, e.receiver, e.method_, e.args, st, fuel);
    } else {
      ValueMethodCut(c, e.receiver, e.method_, e.args, st, fuel);
    }
  }

  lemma {:induction false} PlaceMethodCut(c: Edit, recv: Expr, m: string, args: seq<Expr>, st: State, fuel: nat)
    requires Valid(c) && Removable(ExprsInits(args, c.self, c.d), c.strict)
    ensures Agree(c, CallOnPlace(c.after, c.cur, CutExpr(recv, c.self, c.d), m, CutExprs(args, c.self, c.d), st, fuel),
                  CallOnPlace(c.before, c.cur, recv, m, args, st, fuel))
    decreases fuel, MethodCall(recv, m, args), 0
  {
    AllCut(c, args, st, fuel);
    CutPlace(recv, c.self, c.d);
    var o := EvalAll(c.before, c.cur, args, st, fuel);
    if o.DoneAll? && ReadTarget(recv, o.st).Some? {
      InvokeCut(c, ReadTarget(recv, o.st).value, m, o.values, o.st, fuel);
    }
  }

  lemma {:induction false} ValueMethodCut(c: Edit, recv: Expr, m: string, args: seq<Expr>, st: State, fuel: nat)
    requires Valid(c) && Removable(ExprInits(recv, c.self, c.d), c.strict) && Removable(ExprsInits(args, c.self, c.d), c.strict)
    ensures Agree(c, CallOnValue(c.after, c.cur, CutExpr(recv, c.self, c.d), m, CutExprs(args, c.self, c.d), st, fuel),
                  CallOnValue(c.before, c.cur, recv, m, args, st, fuel))
    decreases fuel, MethodCall(recv, m, args), 0
  {
    EvalCut(c, recv, st, fuel);
    var o := Eval(c.before, c.cur, recv, st, fuel);
    if o.Done? {
      AllCut(c, args, o.st, fuel);
      var o' := EvalAll(c.before, c.cur, args, o.st, fuel);
      if o'.DoneAll? {
        InvokeCut(c, o.value, m, o'.values, o'.st, fuel);
      }
    }
  }

  lemma {:induction false} InvokeCut(c: Edit, recv: Value, m: string, args: seq<Value>, st: State, fuel: nat)
    requires Valid(c)
    ensures AgreeAll(c, Invoke(c.after, recv, m, args, st, fuel), Invoke(c.before, recv, m, args, st, fuel))
    decreases fuel, m, 0
  {
    CutMethodTarget(c, recv, m);
    var callee, callee' := MethodTarget(c.before, recv, m), MethodTarget(c.after, recv, m);
    if callee.Some? && fuel > 0 {
      RunCut(c, callee.value, callee'.value, recv.name, [recv] + args, st.trace, fuel - 1);
    }
  }

  lemma {:induction false} RunCut(c: Edit, callee: Callee, callee': Callee, cur: string, args: seq<Value>, trace: seq<HostCall>, fuel: nat)
    requires Valid(c) && SameCallee(c, callee, callee') && (callee.Nested? ==> cur == c.cur)
    ensures Agree(c, RunFn(c.after, callee', cur, args, trace, fuel), RunFn(c.before, callee, cur, args, trace, fuel))
    decreases fuel, callee.fn.body, 2
  {
    if |callee.fn.params| == |args| {
      InsideIsValid(c, callee, callee');
      BlockCut(InsideEdit(c, callee, callee'), callee.fn.body, State(Frame(callee.fn.params, args), trace), fuel);
    }
  }

  lemma {:induction false} IfCut(c: Edit, e: Expr, st: State, fuel: nat)
    requires Valid(c) && e.If? && Removable(ExprInits(e, c.self, c.d), c.strict)
    ensures Agree(c, Eval(c.after, c.cur, CutExpr(e, c.self, c.d), st, fuel), Eval(c.before, c.cur, e, st, fuel))
    decreases fuel, e, 1
  {
    EvalCut(c, e.cond, st, fuel);
    var o := Eval(c.before, c.cur, e.cond, st, fuel);
    if o.Done? {
      BlockCut(c, e.thenBranch, o.st, fuel);
      OptCut(c, e.elseBranch, o.st, fuel);
    }
  }

  lemma {:induction false} MatchCut(c: Edit, e: Expr, st: State, fuel: nat)
    requires Valid(c) && e.Match? && Removable(ExprInits(e, c.self, c.d), c.strict)
    ensures Agree(c, Eval(c.after, c.cur, CutExpr(e, c.self, c.d), st, fuel), Eval(c.before, c.cur, e, st, fuel))
    decreases fuel, e, 1
  {
    EvalCut(c, e.scrutinee, st, fuel);
    var o := Eval(c.before, c.cur, e.scrutinee, st, fuel);
    if o.Done? {
      ArmsCut(c, e.arms, o.value, o.st, fuel);
    }
  }

  lemma {:induction false} WhileCut(c: Edit, e: Expr, st: State, fuel: nat)
    requires Valid(c) && e.While? && fuel > 0 && Removable(ExprInits(e, c.self, c.d), c.strict)
    ensures Agree(c, Eval(c.after, c.cur, CutExpr(e, c.self, c.d), st, fuel), Eval(c.before, c.cur, e, st, fuel))
    decreases fuel, e, 1
  {
    EvalCut(c, e.cond, st, fuel);
    var o := Eval(c.before, c.cur, e.cond, st, fuel);
    if o.Done? {
      BlockCut(c, e.body, o.st, fuel);
      var b := Leave(EvalBlock(c.before, c.cur, e.body, o.st, fuel), |o.st.env|);
      if b.Done? {
        EvalCut(c, e, b.st, fuel - 1);
      }
    }
  }

  lemma {:induction false} LoopCut(c: Edit, e: Expr, st: State, fuel: nat)
    requires Valid(c) && e.ForLoop? && Removable(ExprInits(e, c.self, c.d), c.strict)
    ensures Agree(c, Eval(c.after, c.cur, CutExpr(e, c.self, c.d), st, fuel), Eval(c.before, c.cur, e, st, fuel))
    decreases fuel, e, 1
  {
    EvalCut(c, e.iter, st, fuel);
    var o := Eval(c.before, c.cur, e.iter, st, fuel);
    if o.Done? && o.value.VTuple? {
      ForCut(c, e.pat, o.value.elems, e.body, o.st, fuel);
    }
  }

  lemma {:induction false} RangeCut(c: Edit, e: Expr, st: State, fuel: nat)
    requires Valid(c) && e.Range? && Removable(ExprInits(e, c.self, c.d), c.strict)
    ensures Agree(c, Eval(c.after, c.cur, CutExpr(e, c.self, c.d), st, fuel), Eval(c.before, c.cur, e, st, fuel))
    decreases fuel, e, 1
  {
    EvalCut(c, e.lo, st, fuel);
    var o := Eval(c.before, c.cur, e.lo, st, fuel);
    if o.Done? {
      EvalCut(c, e.hi, o.st, fuel);
    }
  }

  lemma {:induction false} StructCut(c: Edit, e: Expr, st: State, fuel: nat)
    requires Valid(c) && e.Struct? && Removable(ExprInits(e, c.self, c.d), c.strict)
    ensures Agree(c, Eval(c.after, c.cur, CutExpr(e, c.self, c.d), st, fuel), Eval(c.before, c.cur, e, st, fuel))
    decreases fuel, e, 1
  {
    var literal := IsLiteralOf(e.name, c.self, c.d);
    InitsCut(c, e.inits, literal, st, fuel);
    var o := EvalInits(c.before, c.cur, e.inits, st, fuel);
    if o.DoneAll? {
      if e.rest.None? {
        LiteralCut(c, e.name, e.inits, o.values, map[], o.st);
      } else {
        OptCut(c, e.rest, o.st, fuel);
        var o' := Eval(c.before, c.cur, e.rest.value, o.st, fuel);
        if o'.Done? && o'.value.VStruct? {
          LiteralCut(c, e.name, e.inits, o.values, o'.value.fields, o'.st);
        }
      }
    }
  }

  lemma LiteralCut(c: Edit, name: string, inits: seq<FieldValue>, vs: seq<Value>, base: map<string, Value>, st: State)
    requires Valid(c) && |inits| == |vs|
    ensures var literal, owner := IsLiteralOf(name, c.self, c.d), Resolve(name, c.cur);
            && |CutInits(inits, literal, c.self, c.d)| == |Kept(inits, vs, literal, c.d)|
            && BuildStruct(c.after, owner, Initialize(CutInits(inits, literal, c.self, c.d), Kept(inits, vs, literal, c.d), base), st)
            == BuildStruct(c.before, owner, Initialize(inits, vs, base), st)
  {
    var literal, owner := IsLiteralOf(name, c.self, c.d), Resolve(name, c.cur);
    KeptFits(inits, vs, literal, c.self, c.d);
    KeptInitialize(inits, vs, base, base, literal, c.self, c.d);
    if literal {
      var all := Initialize(inits, vs, base);
      var some := Initialize(CutInits(inits, literal, c.self, c.d), Kept(inits, vs, literal, c.d), base);
      BuildsTheSame(c.before, owner, all, some, st, c.d.name);
    }
  }

  lemma {:induction false} AllCut(c: Edit, es: seq<Expr>, st: State, fuel: nat)
    requires Valid(c) && Removable(ExprsInits(es, c.self, c.d), c.strict)
    ensures AgreeAll(c, EvalAll(c.after, c.cur, CutExprs(es, c.self, c.d), st, fuel), EvalAll(c.before, c.cur, es, st, fuel))
    decreases fuel, es, 0
  {
    if es == [] {
    } else {
      EvalCut(c, es[0], st, fuel);
      assert CutExprs(es, c.self, c.d)[1..] == CutExprs(es[1..], c.self, c.d);
      var o := Eval(c.before, c.cur, es[0], st, fuel);
      if o.Done? {
        AllCut(c, es[1..], o.st, fuel);
      }
    }
  }

  predicate AgreeKept(c: Edit, r': Outcomes, r: Outcomes, fs: seq<FieldValue>, literal: bool)
    requires r.DoneAll? ==> |r.values| == |fs|
  {
    match r
    case DoneAll(vs, st) => r' == DoneAll(Kept(fs, vs, literal, c.d), st)
    case Stopped(o) => AgreeAll(c, r', r)
  }

  lemma RemovedDoesNothing(c: Edit, e: Expr, st: State, fuel: nat)
    requires if c.strict then Inert(e) else Quiet(e)
    ensures DoesNothing(Eval(c.before, c.cur, e, st, fuel), st, c.strict)
  {
    if c.strict {
      InertDoesNothing(c.before, c.cur, e, st, fuel);
    } else {
      QuietDoesNothing(c.before, c.cur, e, st, fuel);
    }
  }

  lemma {:induction false} InitsCut(c: Edit, fs: seq<FieldValue>, literal: bool, st: State, fuel: nat)
    requires Valid(c) && Removable(LiteralInits(fs, literal, c.self, c.d), c.strict)
    ensures AgreeKept(c, EvalInits(c.after, c.cur, CutInits(fs, literal, c.self, c.d), st, fuel), EvalInits(c.before, c.cur, fs, st, fuel), fs, literal)
    decreases fuel, fs, 0
  {
    if fs == [] {
    } else {
      var e := fs[0].expr;
      if literal && fs[0].member == c.d.name {
        RemovedDoesNothing(c, e, st, fuel);
        InitsCut(c, fs[1..], literal, st, fuel);
      } else {
        EvalCut(c, e, st, fuel);
        assert CutInits(fs, literal, c.self, c.d)[1..] == CutInits(fs[1..], literal, c.self, c.d);
        var o := Eval(c.before, c.cur, e, st, fuel);
        if o.Done? {
          InitsCut(c, fs[1..], literal, o.st, fuel);
        }
      }
    }
  }

  lemma {:induction false} ArmsCut(c: Edit, arms: seq<Arm>, v: Value, st: State, fuel: nat)
    requires Valid(c) && Removable(ArmsInits(arms, c.self, c.d), c.strict)
    ensures Agree(c, EvalArms(c.after, c.cur, CutArms(arms, c.self, c.d), v, st, fuel), EvalArms(c.before, c.cur, arms, v, st, fuel))
    decreases fuel, arms, 0
  {
    if arms == [] {
    } else {
      ArmCut(c, arms[0], v, st, fuel);
      assert CutArms(arms, c.self, c.d)[1..] == CutArms(arms[1..], c.self, c.d);
      var a := EvalArm(c.before, c.cur, arms[0], v, st, fuel);
      if a.None? {
        ArmsCut(c, arms[1..], v, st, fuel);
      } else {
        var o := Leave(a.value.1, |st.env|);
        if o.Done? {
          ArmsCut(c, arms[1..], v, o.st, fuel);
        }
      }
    }
  }

  lemma {:induction false} ArmCut(c: Edit, arm: Arm, v: Value, st: State, fuel: nat)
    requires Valid(c) && Removable(ArmInits(arm, c.self, c.d), c.strict)
    ensures AgreeTaken(c, EvalArm(c.after, c.cur, CutArm(arm, c.self, c.d), v, st, fuel), EvalArm(c.before, c.cur, arm, v, st, fuel))
    decreases fuel, arm, 0
  {
    match arm
    case Arm(pat, guard, body) =>
      var bound := MatchPat(pat, v, c.cur);
      if bound.Some? {
        var st1 := st.(env := st.env + bound.value);
        if guard.None? {
          EvalCut(c, body, st1, fuel);
        } else {
          OptCut(c, guard, st1, fuel);
          var o := Eval(c.before, c.cur, guard.value, st1, fuel);
          if o.Done? {
            EvalCut(c, body, o.st, fuel);
          }
        }
      }
  }

  lemma {:induction false} ForCut(c: Edit, p: Pat, vs: seq<Value>, body: seq<Stmt>, st: State, fuel: nat)
    requires Valid(c) && Removable(StmtsInits(body, c.self, c.d), c.strict)
    ensures Agree(c, EvalFor(c.after, c.cur, p, vs, CutStmts(body, c.self, c.d), st, fuel), EvalFor(c.before, c.cur, p, vs, body, st, fuel))
    decreases fuel, body, 1 + |vs|
  {
    if vs == [] {
    } else {
      var bound := MatchPat(p, vs[0], c.cur);
      if bound.Some? {
        var st1 := st.(env := st.env + bound.value);
        BlockCut(c, body, st1, fuel);
        var o := Leave(EvalBlock(c.before, c.cur, body, st1, fuel), |st.env|);
        if o.Done? {
          ForCut(c, p, vs[1..], body, o.st, fuel);
        }
      }
    }
  }

  lemma {:induction false} BlockCut(c: Edit, ss: seq<Stmt>, st: State, fuel: nat)
    requires Valid(c) && Removable(StmtsInits(ss, c.self, c.d), c.strict)
    ensures Agree(c, EvalBlock(c.after, c.cur, CutStmts(ss, c.self, c.d), st, fuel), EvalBlock(c.before, c.cur, ss, st, fuel))
    decreases fuel, ss, 1
  {
    EnteredIsValid(c, ss);
    StmtsCut(Entered(c, ss), ss, st, fuel);
  }

  lemma {:induction false} StmtsCut(c: Edit, ss: seq<Stmt>, st: State, fuel: nat)
    requires Valid(c) && Removable(StmtsInits(ss, c.self, c.d), c.strict)
    ensures Agree(c, EvalStmts(c.after, c.cur, CutStmts(ss, c.self, c.d), st, fuel), EvalStmts(c.before, c.cur, ss, st, fuel))
    decreases fuel, ss, 0
  {
    if ss == [] {
    } else {
      StmtCut(c, ss[0], st, fuel);
      var cut := CutStmts(ss, c.self, c.d);
      assert cut[1..] == CutStmts(ss[1..], c.self, c.d) && (|cut| == 1 <==> |ss| == 1);
      var o := EvalStmt(c.before, c.cur, ss[0], st, fuel);
      if o.Done? {
        StmtsCut(c, ss[1..], o.st, fuel);
      }
    }
  }

  lemma {:induction false} StmtCut(c: Edit, s: Stmt, st: State, fuel: nat)
    requires Valid(c) && Removable(StmtInits(s, c.self, c.d), c.strict)
    ensures Agree(c, EvalStmt(c.after, c.cur, CutStmt(s, c.self, c.d), st, fuel), EvalStmt(c.before, c.cur, s, st, fuel))
    decreases fuel, s, 0
  {
    match s
    case ItemStmt(_) =>
    case ExprStmt(e, _) => EvalCut(c, e, st, fuel);
    case MacroStmt(arg) => EvalCut(c, arg, st, fuel);
    case Local(_, init) =>
      OptCut(c, init, st, fuel);
  }
}
