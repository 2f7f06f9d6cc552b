/**
 * Programs for which a report of the unused-state-variable rule is wrong: the field is used where
 * the rule does not look. Each is wrong under every meaning of the operators and every host, but
 * `DerivedEqualityIsMissed`, which is about the operators.
 */
module MissedUses {
  import opened Wrappers
  import opened RustAst
  import opened RuleEngine
  import opened UnusedStateVariables
  import opened RustSemantics
  import opened Erasure
  import opened UnusedFieldSafety

  const SELF_F := Field(Path(["self"]), Named("f"))

  /** A contract `C` with one field `f` and one method `m` with the given body. */
  function OneMethod(body: seq<Stmt>): seq<Item> {
    [StructDecl(StructItem("C", [PathAttr("contracttype")], ["f"])),
     ImplDecl(ImplBlock("C", [Fn("m", ["self"], body)]))]
  }

  function Receiver(b: bool): Value {
    VStruct("C", map["f" := VScalar(Bool(b))])
  }

  /** `f` is reported, and yet two runs of `m` that agree except in `f` disagree in their results. */
  ghost predicate WronglyReported(items: seq<Item>, operator: Operators, host: Host) {
    && Violation("C", "f") in Findings(ContractStructs(items), ContractImpls(items))
    && ("C", "m") in Functions(items)
    && AgreeExcept(Receiver(true), Receiver(false), FieldId("C", "f"))
    && !OutcomesAgreeExcept(Run(Program(items, operator, host), ("C", "m"), [Receiver(true)], [], 1),
                            Run(Program(items, operator, host), ("C", "m"), [Receiver(false)], [], 1),
                            FieldId("C", "f"))
  }

  lemma OneMethodReported(body: seq<Stmt>)
    requires "f" !in StmtsVars(body) && forall u :: u in StmtsVars(body) ==> '.' !in u
    ensures Violation("C", "f") in Findings(ContractStructs(OneMethod(body)), ContractImpls(OneMethod(body)))
  {
    var items := OneMethod(body);
    var block := ImplBlock("C", [Fn("m", ["self"], body)]);
    assert items[..1] == [items[0]] && items[..1][..0] == [];
    assert ContractImpls(items[..1]) == map[];
    assert ContractImpls(items) == map["C" := block];
    assert FnsVars(block.fns) == StmtsVars(body);
    UsageTestIsMembership("f", StmtsVars(body));
    DeclaresF(items);
    FindingsAreReports(items, "C", "f");
  }

  lemma DeclaresF(items: seq<Item>)
    requires items != [] && items[0] == OneMethod([])[0]
    ensures DeclaresContractField(items[0], "C", "f")
  {
    assert "contracttype" <= "contracttype"[0..];
    assert items[0].decl.attrs[0] in items[0].decl.attrs;
  }

  lemma FunctionsCons(item: Item, items: seq<Item>)
    ensures Functions([item] + items) == ItemFunctions(FREE, item) + Functions(items)
  {
    assert ([item] + items)[1..] == items;
  }

  lemma OneMethodFunctions(body: seq<Stmt>, more: seq<Item>)
    ensures Functions(OneMethod(body) + more) == map[("C", "m") := Fn("m", ["self"], body)] + Functions(more)
  {
    var one, fns := OneMethod(body), [Fn("m", ["self"], body)];
    assert one + more == [one[0]] + ([one[1]] + more);
    FunctionsCons(one[0], [one[1]] + more);
    FunctionsCons(one[1], more);
    assert fns[1..] == [] && FunctionsOf("C", fns) == map[("C", "m") := fns[0]];
  }

  /** Another item that is no impl block does not change the report. */
  lemma OneMethodAndReported(body: seq<Stmt>, extra: Item)
    requires "f" !in StmtsVars(body) && forall u :: u in StmtsVars(body) ==> '.' !in u
    requires !extra.ImplDecl?
    ensures var items := OneMethod(body) + [extra];
            Violation("C", "f") in Findings(ContractStructs(items), ContractImpls(items))
  {
    var one := OneMethod(body);
    var items := one + [extra];
    OneMethodReported(body);
    FindingsAreReports(one, "C", "f");
    assert items[|items| - 1] == extra && items[..|items| - 1] == one;
    assert ContractImpls(items) == ContractImpls(one);
    DeclaresF(items);
    FindingsAreReports(items, "C", "f");
  }

  function Entry(b: bool): State {
    State([Binding("self", Receiver(b))], [])
  }

  ghost predicate Yields(o: Outcome, x: Scalar) {
    o.Done? && o.value == VScalar(x)
  }

  /** A reported `f` is wrongly reported when the value of `m`'s body depends on `self.f`. */
  lemma BodyDecides(items: seq<Item>, body: seq<Stmt>, operator: Operators, host: Host, x: Scalar, y: Scalar)
    requires Violation("C", "f") in Findings(ContractStructs(items), ContractImpls(items))
    requires ("C", "m") in Functions(items) && Functions(items)[("C", "m")] == Fn("m", ["self"], body)
    requires x != y
    requires var ctx := Enter(Program(items, operator, host), body);
             && Yields(EvalStmts(ctx, "C", body, Entry(true), 1), x)
             && Yields(EvalStmts(ctx, "C", body, Entry(false), 1), y)
    ensures WronglyReported(items, operator, host)
  {
    AgreeExceptForStructs(Receiver(true).fields, Receiver(false).fields, FieldId("C", "f"));
    RunsBody(Program(items, operator, host), body, true, x);
    RunsBody(Program(items, operator, host), body, false, y);
  }

  lemma RunsBody(ctx: Context, body: seq<Stmt>, b: bool, x: Scalar)
    requires ("C", "m") in ctx.fns && ctx.fns[("C", "m")] == Fn("m", ["self"], body) && ctx.local == map[]
    requires Yields(EvalStmts(Enter(ctx, body), "C", body, Entry(b), 1), x)
    ensures Yields(Run(ctx, ("C", "m"), [Receiver(b)], [], 1), x)
  {
    var callee := Global(ctx.fns[("C", "m")], "C");
    assert Inside(ctx, callee) == ctx;
    assert State(Frame(["self"], [Receiver(b)]), []) == Entry(b);
    assert EvalBlock(ctx, "C", body, Entry(b), 1) == EvalStmts(Enter(ctx, body), "C", body, Entry(b), 1);
  }

  lemma EvalSelfF(ctx: Context, b: bool)
    ensures Eval(ctx, "C", SELF_F, Entry(b), 1) == Done(VScalar(Bool(b)), Entry(b))
  {
    assert Lookup(Entry(b).env, "self") == Some(0);
  }

  lemma EvalLast(ctx: Context, e: Expr, st: State, x: Scalar)
    requires Yields(Eval(ctx, "C", e, st, 1), x)
    ensures Yields(EvalStmts(ctx, "C", [ExprStmt(e, false)], st, 1), x)
  {
    assert EvalStmt(ctx, "C", [ExprStmt(e, false)][0], st, 1) == Eval(ctx, "C", e, st, 1);
  }

  lemma LastVars(e: Expr)
    ensures StmtsVars([ExprStmt(e, false)]) == ExprVars(e)
  {
    assert StmtVars(ExprStmt(e, false)) == ExprVars(e);
  }

  lemma EvalReference(ctx: Context, b: bool)
    ensures Yields(EvalStmts(ctx, "C", [ExprStmt(Reference(SELF_F), false)], Entry(b), 1), Bool(b))
  {
    EvalSelfF(ctx, b);
    EvalLast(ctx, Reference(SELF_F), Entry(b), Bool(b));
  }

  lemma PlainMethod(body: seq<Stmt>)
    ensures Functions(OneMethod(body)) == map[("C", "m") := Fn("m", ["self"], body)]
  {
    OneMethodFunctions(body, []);
    assert OneMethod(body) + [] == OneMethod(body);
  }

  /** `&self.f`: the traversal does not descend into a reference. */
  lemma ReferenceIsMissed(operator: Operators, host: Host)
    ensures WronglyReported(OneMethod([ExprStmt(Reference(SELF_F), false)]), operator, host)
  {
    var body := [ExprStmt(Reference(SELF_F), false)];
    var ctx := Enter(Program(OneMethod(body), operator, host), body);
    LastVars(Reference(SELF_F));
    OneMethodReported(body);
    PlainMethod(body);
    EvalReference(ctx, true);
    EvalReference(ctx, false);
    BodyDecides(OneMethod(body), body, operator, host, Bool(true), Bool(false));
  }

  const GUARD_ARMS := [Arm(PWild, Some(SELF_F), Lit(Int(1))), Arm(PWild, None, Lit(Int(2)))]
  const GUARDED := Match(Lit(Unit), GUARD_ARMS)

  lemma EvalGuarded(ctx: Context, b: bool)
    ensures Yields(Eval(ctx, "C", GUARDED, Entry(b), 1), Int(if b then 1 else 2))
  {
    EvalSelfF(ctx, b);
    var env := Entry(b).env;
    assert env + [] == env && env[..1] == env;
    assert EvalArm(ctx, "C", GUARD_ARMS[0], UNIT, Entry(b), 1)
        == if b then Some((true, Done(VScalar(Int(1)), Entry(b)))) else Some((false, Done(UNIT, Entry(b))));
    assert EvalArm(ctx, "C", GUARD_ARMS[1..][0], UNIT, Entry(b), 1) == Some((true, Done(VScalar(Int(2)), Entry(b))));
    assert EvalArms(ctx, "C", GUARD_ARMS[1..], UNIT, Entry(b), 1) == Done(VScalar(Int(2)), Entry(b));
    assert Yields(EvalArms(ctx, "C", GUARD_ARMS, UNIT, Entry(b), 1), Int(if b then 1 else 2));
    assert Eval(ctx, "C", Lit(Unit), Entry(b), 1) == Done(UNIT, Entry(b));
  }

  /** `match () { _ if self.f => 1, _ => 2 }`: guards are not visited. */
  lemma GuardIsMissed(operator: Operators, host: Host)
    ensures WronglyReported(OneMethod([ExprStmt(GUARDED, false)]), operator, host)
  {
    var body := [ExprStmt(GUARDED, false)];
    var ctx := Enter(Program(OneMethod(body), operator, host), body);
    assert ArmsVars(GUARD_ARMS[1..]) == {};
    assert ArmsVars(GUARD_ARMS) == {};
    assert ExprVars(GUARDED) == {};
    LastVars(GUARDED);
    OneMethodReported(body);
    PlainMethod(body);
    forall b: bool
      ensures Yields(EvalStmts(ctx, "C", body, Entry(b), 1), Int(if b then 1 else 2))
    {
      EvalGuarded(ctx, b);
      EvalLast(ctx, GUARDED, Entry(b), Int(if b then 1 else 2));
    }
    BodyDecides(OneMethod(body), body, operator, host, Int(1), Int(2));
  }

  const RENAMING := Local(PStruct("C", [FieldPat("f", PIdent("x"))]), Some(Path(["self"])))

  lemma EvalRenaming(ctx: Context, b: bool)
    ensures Yields(EvalStmts(ctx, "C", [RENAMING, ExprStmt(Path(["x"]), false)], Entry(b), 1), Bool(b))
  {
    var body := [RENAMING, ExprStmt(Path(["x"]), false)];
    assert Lookup(Entry(b).env, "self") == Some(0);
    assert Eval(ctx, "C", Path(["self"]), Entry(b), 1) == Done(Receiver(b), Entry(b));
    var fields := [FieldPat("f", PIdent("x"))];
    assert MatchPat(fields[0].pat, VScalar(Bool(b)), "C") == Some([Binding("x", VScalar(Bool(b)))]);
    assert MatchFields(fields[1..], Receiver(b), "C") == Some([]);
    var bound := [Binding("x", VScalar(Bool(b)))];
    assert bound + [] == bound;
    assert Project(Receiver(b), Named(fields[0].member)) == Some(VScalar(Bool(b)));
    assert MatchFields(fields, Receiver(b), "C") == Some([Binding("x", VScalar(Bool(b)))]);
    var st1 := State([Binding("self", Receiver(b)), Binding("x", VScalar(Bool(b)))], []);
    assert EvalStmt(ctx, "C", body[0], Entry(b), 1) == Done(UNIT, st1);
    assert Lookup(st1.env, "x") == Some(1);
    assert Eval(ctx, "C", Path(["x"]), st1, 1) == Done(VScalar(Bool(b)), st1);
    EvalLast(ctx, Path(["x"]), st1, Bool(b));
    assert body[1..] == [ExprStmt(Path(["x"]), false)];
  }

  /** `let C { f: x } = self; x`: of a struct pattern only the variables it binds are collected. */
  lemma RenamingPatternIsMissed(operator: Operators, host: Host)
    ensures WronglyReported(OneMethod([RENAMING, ExprStmt(Path(["x"]), false)]), operator, host)
  {
    var body := [RENAMING, ExprStmt(Path(["x"]), false)];
    var fields := [FieldPat("f", PIdent("x"))];
    assert FieldPatsVars(fields[1..]) == {} && FieldPatsVars(fields) == {"x"};
    assert ExprVars(Path(["self"])) <= {"self"} && ExprVars(Path(["x"])) <= {"x"};
    assert StmtVars(RENAMING) <= {"self", "x"};
    LastVars(Path(["x"]));
    assert body[1..] == [ExprStmt(Path(["x"]), false)];
    assert StmtsVars(body) <= {"self", "x"};
    OneMethodReported(body);
    PlainMethod(body);
    var ctx := Enter(Program(OneMethod(body), operator, host), body);
    EvalRenaming(ctx, true);
    EvalRenaming(ctx, false);
    BodyDecides(OneMethod(body), body, operator, host, Bool(true), Bool(false));
  }

  lemma SecondImplReported(body: seq<Stmt>)
    ensures var items := OneMethod(body) + [ImplDecl(ImplBlock("C", []))];
            Violation("C", "f") in Findings(ContractStructs(items), ContractImpls(items))
  {
    var one, last := OneMethod(body), ImplDecl(ImplBlock("C", []));
    var items := one + [last];
    assert items[|items| - 1] == last && items[..|items| - 1] == one;
    assert ContractImpls(items)["C"] == last.block;
    assert FnsVars(last.block.fns) == {};
    UsageTestIsMembership("f", {});
    DeclaresF(items);
    FindingsAreReports(items, "C", "f");
  }

  /** A second impl block of the same struct hides the first, even when the first plainly reads `self.f`. */
  lemma EarlierImplIsMissed(operator: Operators, host: Host)
    ensures WronglyReported(OneMethod([ExprStmt(SELF_F, false)]) + [ImplDecl(ImplBlock("C", []))], operator, host)
  {
    var body, last := [ExprStmt(SELF_F, false)], ImplDecl(ImplBlock("C", []));
    var items := OneMethod(body) + [last];
    SecondImplReported(body);
    OneMethodFunctions(body, [last]);
    FunctionsCons(last, []);
    assert [last] + [] == [last] && Functions([last]) == map[];
    var ctx := Enter(Program(items, operator, host), body);
    forall b: bool
      ensures Yields(EvalStmts(ctx, "C", body, Entry(b), 1), Bool(b))
    {
      EvalSelfF(ctx, b);
      EvalLast(ctx, SELF_F, Entry(b), Bool(b));
    }
    BodyDecides(items, body, operator, host, Bool(true), Bool(false));
  }

  const HELPER := Fn("helper", ["c"], [ExprStmt(Field(Path(["c"]), Named("f")), false)])
  const CALL_HELPER := Call(Path(["helper"]), [Path(["self"])])

  /** A call of a function that returns `c.f`, whether nested or free. */
  lemma EvalHelper(ctx: Context, b: bool)
    requires Target(ctx, "C", ["helper"]).Some? && Target(ctx, "C", ["helper"]).value.fn == HELPER
    ensures Yields(Eval(ctx, "C", CALL_HELPER, Entry(b), 1), Bool(b))
  {
    var callee := Target(ctx, "C", ["helper"]).value;
    var args := [Path(["self"])];
    assert Lookup(Entry(b).env, "self") == Some(0);
    assert Eval(ctx, "C", args[0], Entry(b), 1) == Done(Receiver(b), Entry(b));
    assert args[1..] == [] && EvalAll(ctx, "C", args[1..], Entry(b), 1) == DoneAll([], Entry(b));
    assert [Receiver(b)] + [] == [Receiver(b)];
    assert EvalAll(ctx, "C", args, Entry(b), 1) == DoneAll([Receiver(b)], Entry(b));
    RunHelper(ctx, callee, b);
  }

  lemma RunHelper(ctx: Context, callee: Callee, b: bool)
    requires callee.fn == HELPER
    ensures Yields(RunFn(ctx, callee, "C", [Receiver(b)], [], 0), Bool(b))
  {
    var inner, st := Enter(Inside(ctx, callee), HELPER.body), State([Binding("c", Receiver(b))], []);
    assert State(Frame(["c"], [Receiver(b)]), []) == st;
    assert Lookup(st.env, "c") == Some(0);
    var self := SelfType(callee, "C");
    assert Eval(inner, self, Path(["c"]), st, 0) == Done(Receiver(b), st);
    assert EvalStmt(inner, self, HELPER.body[0], st, 0) == Done(VScalar(Bool(b)), st);
  }

  lemma HelperVars()
    ensures ExprVars(CALL_HELPER) <= {"helper"}
  {
    var args := [Path(["self"])];
    assert ExprVars(args[0]) == {} && ExprsVars(args[1..]) == {};
    assert ExprsVars(args) == {};
    assert ExprVars(Path(["helper"])) <= {"helper"};
  }

  /** `helper(self)`, where the free function `helper(c)` returns `c.f`: only impl blocks are looked at. */
  lemma FreeFunctionIsMissed(operator: Operators, host: Host)
    ensures WronglyReported(OneMethod([ExprStmt(CALL_HELPER, false)]) + [FnDecl(HELPER)], operator, host)
  {
    var body := [ExprStmt(CALL_HELPER, false)];
    var items := OneMethod(body) + [FnDecl(HELPER)];
    FreeHelperProgram(body);
    FreeHelper(Enter(Program(items, operator, host), body), body);
    BodyDecides(items, body, operator, host, Bool(true), Bool(false));
  }

  lemma FreeHelperProgram(body: seq<Stmt>)
    requires body == [ExprStmt(CALL_HELPER, false)]
    ensures var items := OneMethod(body) + [FnDecl(HELPER)];
            && Violation("C", "f") in Findings(ContractStructs(items), ContractImpls(items))
            && ("C", "m") in Functions(items) && Functions(items)[("C", "m")] == Fn("m", ["self"], body)
            && (FREE, "helper") in Functions(items) && Functions(items)[(FREE, "helper")] == HELPER
    ensures NestedIn(body) == map[]
  {
    HelperVars();
    LastVars(CALL_HELPER);
    OneMethodAndReported(body, FnDecl(HELPER));
    OneMethodFunctions(body, [FnDecl(HELPER)]);
    FunctionsCons(FnDecl(HELPER), []);
    assert [FnDecl(HELPER)] + [] == [FnDecl(HELPER)];
    assert NestedIn(body[1..]) == map[];
  }

  lemma FreeHelper(ctx: Context, body: seq<Stmt>)
    requires body == [ExprStmt(CALL_HELPER, false)] && ctx.local == map[]
    requires (FREE, "helper") in ctx.fns && ctx.fns[(FREE, "helper")] == HELPER
    ensures Yields(EvalStmts(ctx, "C", body, Entry(true), 1), Bool(true))
    ensures Yields(EvalStmts(ctx, "C", body, Entry(false), 1), Bool(false))
  {
    EvalHelper(ctx, true);
    EvalLast(ctx, CALL_HELPER, Entry(true), Bool(true));
    EvalHelper(ctx, false);
    EvalLast(ctx, CALL_HELPER, Entry(false), Bool(false));
  }

  const NESTED := [ItemStmt(Some(HELPER)), ExprStmt(CALL_HELPER, false)]

  lemma NestedVars()
    ensures StmtsVars(NESTED) <= {"helper"}
    ensures NestedIn(NESTED) == map["helper" := HELPER]
  {
    HelperVars();
    LastVars(CALL_HELPER);
    var rest := NESTED[1..];
    assert rest == [ExprStmt(CALL_HELPER, false)] && rest[1..] == [];
    assert NestedIn(rest) == map[];
    assert StmtVars(NESTED[0]) == {};
  }

  lemma EvalNested(ctx: Context, b: bool)
    requires "helper" in ctx.local && ctx.local["helper"] == HELPER
    ensures Yields(EvalStmts(ctx, "C", NESTED, Entry(b), 1), Bool(b))
  {
    EvalHelper(ctx, b);
    EvalLast(ctx, CALL_HELPER, Entry(b), Bool(b));
    assert NESTED[1..] == [ExprStmt(CALL_HELPER, false)];
    assert EvalStmt(ctx, "C", NESTED[0], Entry(b), 1) == Done(UNIT, Entry(b));
  }

  /** The same with the function nested in the method: items inside a body are not visited. */
  lemma NestedFunctionIsMissed(operator: Operators, host: Host)
    ensures WronglyReported(OneMethod(NESTED), operator, host)
  {
    var ctx := Enter(Program(OneMethod(NESTED), operator, host), NESTED);
    NestedVars();
    OneMethodReported(NESTED);
    PlainMethod(NESTED);
    EvalNested(ctx, true);
    EvalNested(ctx, false);
    BodyDecides(OneMethod(NESTED), NESTED, operator, host, Bool(true), Bool(false));
  }

  /** The comparison a derived `PartialEq` makes. */
  function DerivedEquality(symbol: string, v: Value, w: Value): Option<Value> {
    if symbol == "==" then Some(VScalar(Bool(v == w))) else None
  }

  const IS_TRUE := Binary(Operator("=="), Path(["self"]), Struct("C", INITS, None))

  const INITS := [FieldValue("f", Lit(Bool(true)))]

  lemma BuildsReceiver(ctx: Context, st: State)
    requires "C" in ctx.layout && "f" in ctx.layout["C"]
    ensures Eval(ctx, "C", Struct("C", INITS, None), st, 1) == Done(Receiver(true), st)
  {
    var values, fields := [VScalar(Bool(true))], map["f" := VScalar(Bool(true))];
    assert Eval(ctx, "C", INITS[0].expr, st, 1) == Done(values[0], st);
    assert INITS[1..] == [] && EvalInits(ctx, "C", INITS[1..], st, 1) == DoneAll([], st);
    assert values + [] == values && values[1..] == [];
    assert EvalInits(ctx, "C", INITS, st, 1) == DoneAll(values, st);
    assert Initialize(INITS, values, map[]) == fields;
    var kept := map g | g in fields && g in ctx.layout["C"] :: fields[g];
    assert kept == Receiver(true).fields;
  }

  lemma EvalIsTrue(ctx: Context, b: bool)
    requires ctx.operator == DerivedEquality && "C" in ctx.layout && "f" in ctx.layout["C"]
    ensures Yields(Eval(ctx, "C", IS_TRUE, Entry(b), 1), Bool(b))
  {
    assert Lookup(Entry(b).env, "self") == Some(0);
    assert Eval(ctx, "C", Path(["self"]), Entry(b), 1) == Done(Receiver(b), Entry(b));
    BuildsReceiver(ctx, Entry(b));
    assert Receiver(b).fields["f"] == VScalar(Bool(b));
  }

  lemma IsTrueVars()
    ensures ExprVars(IS_TRUE) == {}
  {
    assert INITS[1..] == [] && InitsVars(INITS[1..]) == {} && InitsVars(INITS) == {};
    assert ExprVars(IS_TRUE.rhs) == {} && ExprVars(IS_TRUE.lhs) == {};
  }

  /** `*self == C { f: true }` with a derived comparison: the operator itself looks into the field. */
  lemma DerivedEqualityIsMissed(host: Host)
    ensures WronglyReported(OneMethod([ExprStmt(IS_TRUE, false)]), DerivedEquality, host)
    ensures !OperatorIgnores(DerivedEquality, FieldId("C", "f"))
  {
    DerivedEqualityLooks(FieldId("C", "f"));
    var body := [ExprStmt(IS_TRUE, false)];
    var items := OneMethod(body);
    var ctx := Enter(Program(items, DerivedEquality, host), body);
    IsTrueVars();
    LastVars(IS_TRUE);
    OneMethodReported(body);
    PlainMethod(body);
    OneMethodLayout(body);
    forall b: bool
      ensures Yields(EvalStmts(ctx, "C", body, Entry(b), 1), Bool(b))
    {
      EvalIsTrue(ctx, b);
      EvalLast(ctx, IS_TRUE, Entry(b), Bool(b));
    }
    BodyDecides(items, body, DerivedEquality, host, Bool(true), Bool(false));
  }

  /** A derived comparison does not ignore any field of any struct. */
  lemma DerivedEqualityLooks(d: FieldId)
    ensures !OperatorIgnores(DerivedEquality, d)
  {
    var v, w := VStruct(d.owner, map[d.name := UNIT]), VStruct(d.owner, map[]);
    assert d.name in v.fields && d.name !in w.fields;
    assert EraseValue(v, d).fields == map[] && EraseValue(w, d).fields == map[];
    assert DerivedEquality("==", EraseValue(v, d), EraseValue(w, d)) != EraseOption(DerivedEquality("==", v, w), d);
  }

  lemma OneMethodLayout(body: seq<Stmt>)
    ensures Layout(OneMethod(body)) == map["C" := {"f"}]
  {
    var items := OneMethod(body);
    assert items[1..][1..] == [] && Layout(items[1..]) == map[];
    assert (set g | g in ["f"]) == {"f"};
  }
}
