/**
 * Following a report that is right: a constant initializer can go with its field, but an effect in
 * the initializer is lost.
 */
module LostInitializers {
  import opened Wrappers
  import opened RustAst
  import opened RuleEngine
  import opened UnusedStateVariables
  import opened RustSemantics
  import opened FieldMentions
  import opened Erasure
  import opened FieldRemoval
  import opened UnusedFieldSafety
  import opened MissedUses

  function Literal(e: Expr): Expr {
    Struct("C", [FieldValue("f", e)], None)
  }

  /** A contract whose one method builds a new value of it. */
  function Building(e: Expr): seq<Item> {
    OneMethod([ExprStmt(Literal(e), false)])
  }

  lemma LiteralParts(e: Expr)
    ensures ExprVars(Literal(e)) == ExprVars(e) && ExprHidden(Literal(e)) == ExprHidden(e)
    ensures ExprInits(Literal(e), true, FieldId("C", "f")) == {e} + ExprInits(e, true, FieldId("C", "f"))
    ensures CutExpr(Literal(e), true, FieldId("C", "f")) == Struct("C", [], None)
  {
    var inits := [FieldValue("f", e)];
    assert inits[1..] == [] && InitsVars(inits[1..]) == {} && InitsHidden(inits[1..]) == {};
    assert InitsVars(inits) == ExprVars(e) && InitsHidden(inits) == ExprHidden(e);
    assert LiteralInits(inits[1..], true, true, FieldId("C", "f")) == {};
    assert CutInits(inits[1..], true, true, FieldId("C", "f")) == [];
  }

  lemma BuildingImpl(e: Expr)
    ensures ContractImpls(Building(e)) == map["C" := ImplBlock("C", [Fn("m", ["self"], [ExprStmt(Literal(e), false)])])]
  {
    var items := Building(e);
    assert items[..1] == [items[0]] && items[..1][..0] == [];
    assert ContractImpls(items[..1]) == map[];
  }

  lemma NothingIsHidden(e: Expr)
    requires ExprHidden(e) == {}
    ensures "C" in ContractImpls(Building(e)) && HiddenFor(Building(e), "C") == {}
  {
    var body, items := [ExprStmt(Literal(e), false)], Building(e);
    var block := ImplBlock("C", [Fn("m", ["self"], body)]);
    BuildingImpl(e);
    LiteralParts(e);
    assert StmtsHidden(body) == StmtHidden(body[0]) == {};
    assert FnsHidden(block.fns) == {};
    assert items[1..] == [ImplDecl(block)] && items[1..][1..] == [];
    assert HiddenOutside(items[1..], block) == {};
  }

  lemma BuildingIsReported(e: Expr)
    requires ExprVars(e) <= {"tick"} && ExprHidden(e) == {}
    ensures Violation("C", "f") in Findings(ContractStructs(Building(e)), ContractImpls(Building(e)))
    ensures "C" in ContractImpls(Building(e)) && HiddenFor(Building(e), "C") == {}
    ensures Functions(Building(e)) == map[("C", "m") := Fn("m", ["self"], [ExprStmt(Literal(e), false)])]
  {
    var body := [ExprStmt(Literal(e), false)];
    LiteralParts(e);
    LastVars(Literal(e));
    OneMethodReported(body);
    PlainMethod(body);
    NothingIsHidden(e);
  }

  lemma BuildingInits(e: Expr)
    ensures ItemsInits(Building(e), FieldId("C", "f")) == {e} + ExprInits(e, true, FieldId("C", "f"))
  {
    var d, body, items := FieldId("C", "f"), [ExprStmt(Literal(e), false)], Building(e);
    LiteralParts(e);
    assert StmtsInits(body, true, d) == StmtInits(body[0], true, d) + {};
    assert FnsInits(items[1].block.fns, true, d) == StmtsInits(body, true, d) + {};
    assert items[1..][1..] == [] && ItemsInits(items[1..], d) == ItemInits(items[1], d) + {};
    assert ItemsInits(items, d) == {} + ItemsInits(items[1..], d);
  }

  /** A constant as the initializer meets all conditions of the main results. */
  lemma ConstantCanGo(x: Scalar, key: (string, string), args: seq<Value>, trace: seq<HostCall>, fuel: nat)
    requires key in Functions(Building(Lit(x)))
    ensures var d, items := FieldId("C", "f"), Building(Lit(x));
            && key in Functions(CutItems(items, d))
            && Run(Program(CutItems(items, d), IntegerOperators, StorageHost), key, EraseValues(args, d), EraseTrace(trace, d), fuel)
               == EraseOutcome(Run(Program(items, IntegerOperators, StorageHost), key, args, trace, fuel), d)
  {
    BuildingIsReported(Lit(x));
    BuildingInits(Lit(x));
    assert Removable(ItemsInits(Building(Lit(x)), FieldId("C", "f")), true);
    StorageContractsCanDropTheField(Building(Lit(x)), "C", "f", key, args, trace, fuel);
  }

  const TICK := Call(Path(["tick"]), [])

  /** `C { f: tick() }` calls the host. */
  lemma EvalTick(ctx: Context, st: State)
    requires ctx.host == StorageHost && ctx.local == map[] && (FREE, "tick") !in ctx.fns && "C" in ctx.layout
    ensures var o := Eval(ctx, "C", Literal(TICK), st, 1);
            o.Done? && o.st.trace == st.trace + [HostCall("tick", [])]
  {
    var inits, st1 := [FieldValue("f", TICK)], st.(trace := st.trace + [HostCall("tick", [])]);
    assert EvalAll(ctx, "C", [], st, 1) == DoneAll([], st);
    assert CallHost(ctx, "tick", [], st) == Done(UNIT, st1);
    assert Eval(ctx, "C", inits[0].expr, st, 1) == Done(UNIT, st1);
    assert inits[1..] == [] && EvalInits(ctx, "C", inits[1..], st1, 1) == DoneAll([], st1);
    assert EvalInits(ctx, "C", inits, st, 1) == DoneAll([UNIT] + [], st1);
  }

  lemma RunsLast(ctx: Context, e: Expr, b: bool)
    requires ctx.fns == map[("C", "m") := Fn("m", ["self"], [ExprStmt(e, false)])] && ctx.local == map[]
    requires Eval(ctx, "C", e, Entry(b), 1).Done?
    ensures Run(ctx, ("C", "m"), [Receiver(b)], [], 1) == Eval(ctx, "C", e, Entry(b), 1)
  {
    var body, callee := [ExprStmt(e, false)], Global(ctx.fns[("C", "m")], "C");
    assert NestedIn(body[1..]) == map[] && NestedIn(body) == map[];
    assert Inside(ctx, callee) == ctx && ctx.local + map[] == ctx.local && Enter(ctx, body) == ctx;
    assert State(Frame(["self"], [Receiver(b)]), []) == Entry(b);
    assert EvalStmt(ctx, "C", body[0], Entry(b), 1) == Eval(ctx, "C", e, Entry(b), 1);
    assert EvalBlock(ctx, "C", body, Entry(b), 1) == Eval(ctx, "C", e, Entry(b), 1);
  }

  const EMPTY_LITERAL := [ExprStmt(Struct("C", [], None), false)]

  /** `struct C {}` with `fn m(self) { C {} }`. */
  const EDITED := [StructDecl(StructItem("C", [PathAttr("contracttype")], [])),
                   ImplDecl(ImplBlock("C", [Fn("m", ["self"], EMPTY_LITERAL)]))]

  lemma CutBuilding(e: Expr)
    ensures CutItems(Building(e), FieldId("C", "f")) == EDITED
  {
    var d, items, body := FieldId("C", "f"), Building(e), [ExprStmt(Literal(e), false)];
    LiteralParts(e);
    var fns := [Fn("m", ["self"], body)];
    assert body[1..] == [] && CutStmts(body, true, d) == EMPTY_LITERAL;
    assert fns[1..] == [] && CutFns(fns, true, d) == [Fn("m", ["self"], EMPTY_LITERAL)];
    assert items[1..] == [items[1]] && items[1..][1..] == [];
    assert CutItem(items[1], d) == EDITED[1];
    assert CutItems(items[1..], d) == [EDITED[1]];
    assert ["f"][1..] == [] && Without(["f"][1..], "f") == [] && Without(["f"], "f") == [];
    assert CutItem(items[0], d) == EDITED[0];
  }

  lemma EditedFunctions()
    ensures Functions(EDITED) == map[("C", "m") := Fn("m", ["self"], EMPTY_LITERAL)]
    ensures "C" in Layout(EDITED)
  {
    var fns := [Fn("m", ["self"], EMPTY_LITERAL)];
    assert fns[1..] == [] && FunctionsOf("C", fns) == map[("C", "m") := fns[0]];
    assert EDITED[1..] == [EDITED[1]] && EDITED[1..][1..] == [];
    FunctionsCons(EDITED[0], EDITED[1..]);
    FunctionsCons(EDITED[1], []);
    assert [EDITED[1]] + [] == EDITED[1..] && [EDITED[0]] + EDITED[1..] == EDITED;
    assert Layout(EDITED[1..]) == map[];
  }

  function TraceOf(o: Outcome): seq<HostCall>
    requires o.Done?
  {
    o.st.trace
  }

  lemma TickRuns(operator: Operators)
    ensures ("C", "m") in Functions(Building(TICK))
    ensures var o := Run(Program(Building(TICK), operator, StorageHost), ("C", "m"), [Receiver(true)], [], 1);
            o.Done? && TraceOf(o) == [HostCall("tick", [])]
  {
    var ctx := Program(Building(TICK), operator, StorageHost);
    TickIsReported();
    OneMethodLayout([ExprStmt(Literal(TICK), false)]);
    EvalTick(ctx, Entry(true));
    RunsLast(ctx, Literal(TICK), true);
  }

  lemma TickIsReported()
    ensures var items := Building(TICK);
            && Violation("C", "f") in Findings(ContractStructs(items), ContractImpls(items))
            && "C" in ContractImpls(items) && HiddenFor(items, "C") == {}
            && Functions(items) == map[("C", "m") := Fn("m", ["self"], [ExprStmt(Literal(TICK), false)])]
  {
    assert ExprVars(TICK) <= {"tick"} && ExprHidden(TICK) == {};
    BuildingIsReported(TICK);
  }

  lemma EditedRuns(operator: Operators, v: Value)
    ensures ("C", "m") in Functions(CutItems(Building(TICK), FieldId("C", "f")))
    ensures var o := Run(Program(CutItems(Building(TICK), FieldId("C", "f")), operator, StorageHost), ("C", "m"), [v], [], 1);
            o.Done? && TraceOf(o) == []
  {
    CutBuilding(TICK);
    EditedFunctions();
    EvalEmpty(Program(EDITED, operator, StorageHost), v);
  }

  /** The field is reported and mentioned nowhere out of sight, and yet the edited file does something else. */
  ghost predicate EffectIsLost(items: seq<Item>, operator: Operators, host: Host) {
    var d := FieldId("C", "f");
    && Violation("C", "f") in Findings(ContractStructs(items), ContractImpls(items))
    && "C" in ContractImpls(items) && HiddenFor(items, "C") == {}
    && HostIgnores(host, d)
    && ("C", "m") in Functions(items) && ("C", "m") in Functions(CutItems(items, d))
    && Run(Program(CutItems(items, d), operator, host), ("C", "m"), [EraseValue(Receiver(true), d)], [], 1)
       != EraseOutcome(Run(Program(items, operator, host), ("C", "m"), [Receiver(true)], [], 1), d)
  }

  /** `C { f: tick() }`: the call is lost with the field. */
  lemma EffectfulInitializerIsLost(operator: Operators)
    ensures EffectIsLost(Building(TICK), operator, StorageHost)
  {
    TickIsReported();
    StorageHostIgnores(FieldId("C", "f"));
    TickRuns(operator);
    EditedRuns(operator, EraseValue(Receiver(true), FieldId("C", "f")));
  }

  lemma EvalEmpty(ctx: Context, v: Value)
    requires ctx.fns == map[("C", "m") := Fn("m", ["self"], EMPTY_LITERAL)] && ctx.local == map[] && "C" in ctx.layout
    ensures var o := Run(ctx, ("C", "m"), [v], [], 1);
            o.Done? && TraceOf(o) == []
  {
    var body, callee := EMPTY_LITERAL, Global(ctx.fns[("C", "m")], "C");
    var st := State(Frame(["self"], [v]), []);
    assert NestedIn(body[1..]) == map[] && NestedIn(body) == map[];
    assert Inside(ctx, callee) == ctx && ctx.local + map[] == ctx.local && Enter(ctx, body) == ctx;
    assert EvalInits(ctx, "C", [], st, 1) == DoneAll([], st);
    assert EvalStmt(ctx, "C", body[0], st, 1) == BuildStruct(ctx, "C", map[], st);
    assert EvalBlock(ctx, "C", body, st, 1) == BuildStruct(ctx, "C", map[], st);
  }
}
