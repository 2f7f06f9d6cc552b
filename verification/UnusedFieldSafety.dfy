/**
 * What a report of the unused-state-variable rule means for the program.
 *
 * A reported field that is not mentioned where the traversal does not look can be deleted, and its
 * value never influences anything else. `MissedUses` shows that the proviso is needed.
 */
module UnusedFieldSafety {
  import opened Wrappers
  import opened RustAst
  import opened RuleEngine
  import opened UnusedStateVariables
  import opened FieldMentions
  import opened RustSemantics
  import opened Erasure
  import opened NonInterference
  import opened FieldRemoval
  import opened RemovalSimulation

  // ----- The program of a source file -----

  function FunctionsOf(owner: string, fns: seq<Fn>): map<(string, string), Fn> {
    if fns == [] then map[]
    else map[(owner, fns[0].name) := fns[0]] + FunctionsOf(owner, fns[1..])
  }

  /** The functions of an item in module `scope`; a free function can be named with and without its module. */
  function ItemFunctions(scope: string, item: Item): map<(string, string), Fn>
    decreases item, 0
  {
    match item
    case ImplDecl(block) => FunctionsOf(block.selfType, block.fns)
    case FnDecl(fn) => map[(FREE, fn.name) := fn, (scope, fn.name) := fn]
    case TraitDecl(defaults) => FunctionsOf(DEFAULTS, defaults)
    case ModDecl(name, items) => FunctionsIn(name, items)
    case _ => map[]
  }

  function FunctionsIn(scope: string, items: seq<Item>): map<(string, string), Fn>
    decreases items, 0
  {
    if items == [] then map[] else ItemFunctions(scope, items[0]) + FunctionsIn(scope, items[1..])
  }

  function Functions(items: seq<Item>): map<(string, string), Fn> {
    FunctionsIn(FREE, items)
  }

  function ItemLayout(item: Item): map<string, set<string>>
    decreases item, 0
  {
    match item
    case StructDecl(decl) => map[decl.name := (set g | g in decl.fields)]
    case ModDecl(_, items) => Layout(items)
    case _ => map[]
  }

  function Layout(items: seq<Item>): map<string, set<string>>
    decreases items, 0
  {
    if items == [] then map[] else ItemLayout(items[0]) + Layout(items[1..])
  }

  function Program(items: seq<Item>, operator: Operators, host: Host): Context {
    Context(Functions(items), map[], Layout(items), operator, host)
  }

  /**
   * The fields mentioned where the check of one impl block does not look: the skipped places
   * inside that block, and all other items.
   */
  function HiddenOutside(items: seq<Item>, checked: ImplBlock): set<string> {
    if items == [] then {}
    else
      (if items[0] == ImplDecl(checked) then FnsHidden(checked.fns) else ItemFields(items[0]))
      + HiddenOutside(items[1..], checked)
  }

  /** The fields whose reports for struct `s` the rule cannot justify. */
  function HiddenFor(items: seq<Item>, s: string): set<string>
    requires s in ContractImpls(items)
  {
    HiddenOutside(items, ContractImpls(items)[s])
  }

  // ----- A report is justified unless the field is mentioned out of sight -----

  lemma {:induction false} MentionsOutside(items: seq<Item>, checked: ImplBlock, f: string)
    requires f !in FnsVars(checked.fns)
    requires ImplDecl(checked) in items || f !in FnsHidden(checked.fns)
    ensures f in ItemsFields(items) <==> f in HiddenOutside(items, checked)
  {
    if items == [] {
    } else {
      FnsMention(checked.fns, f);
      if f !in FnsHidden(checked.fns) || ImplDecl(checked) in items[1..] {
        MentionsOutside(items[1..], checked, f);
      } else {
        assert items[0] == ImplDecl(checked);
        assert f in FnsFields(checked.fns);
      }
    }
  }

  lemma {:induction false} LastImplIsItem(items: seq<Item>, s: string)
    requires s in ContractImpls(items)
    ensures ImplDecl(ContractImpls(items)[s]) in items
  {
    var last := items[|items| - 1];
    if !(last.ImplDecl? && last.block.selfType == s) {
      LastImplIsItem(items[..|items| - 1], s);
    }
  }

  /** The field is read, assigned or matched somewhere, or initialized in a literal of its struct. */
  predicate Mentioned(items: seq<Item>, d: FieldId) {
    d.name in ItemsFields(items) || ItemsInits(items, d) != {}
  }

  /**
   * The program reads, assigns or matches a reported field exactly when it does so where the rule does
   * not look; apart from that it can only initialize the field, which the rule never counts.
   */
  lemma ReportedMentionsAreHidden(items: seq<Item>, s: string, f: string)
    requires Reported(items, s, f)
    ensures f in ItemsFields(items) <==> f in HiddenFor(items, s)
    ensures Mentioned(items, FieldId(s, f)) <==> f in HiddenFor(items, s) || ItemsInits(items, FieldId(s, f)) != {}
  {
    LastImplIsItem(items, s);
    MentionsOutside(items, ContractImpls(items)[s], f);
  }

  lemma {:induction false} OwnedMentions(owner: string, fns: seq<Fn>, f: string, key: (string, string))
    requires f !in FnsFields(fns) && key in FunctionsOf(owner, fns)
    ensures f !in StmtsFields(FunctionsOf(owner, fns)[key].body)
  {
    if key in FunctionsOf(owner, fns[1..]) {
      OwnedMentions(owner, fns[1..], f, key);
    }
  }

  lemma {:induction false} ItemMentions(scope: string, item: Item, f: string, key: (string, string))
    requires f !in ItemFields(item) && key in ItemFunctions(scope, item)
    ensures f !in StmtsFields(ItemFunctions(scope, item)[key].body)
    decreases item, 0
  {
    match item
    case ImplDecl(block) => OwnedMentions(block.selfType, block.fns, f, key);
    case TraitDecl(defaults) => OwnedMentions(DEFAULTS, defaults, f, key);
    case ModDecl(name, items) => FunctionMentions(name, items, f, key);
    case _ =>
  }

  lemma {:induction false} FunctionMentions(scope: string, items: seq<Item>, f: string, key: (string, string))
    requires f !in ItemsFields(items) && key in FunctionsIn(scope, items)
    ensures f !in StmtsFields(FunctionsIn(scope, items)[key].body)
    decreases items, 0
  {
    if key in FunctionsIn(scope, items[1..]) {
      FunctionMentions(scope, items[1..], f, key);
    } else {
      ItemMentions(scope, items[0], f, key);
    }
  }

  lemma ReportedIsIgnored(items: seq<Item>, operator: Operators, host: Host, s: string, f: string)
    requires Reported(items, s, f) && f !in HiddenFor(items, s)
    requires OperatorIgnores(operator, FieldId(s, f)) && HostIgnores(host, FieldId(s, f))
    ensures Ignores(Program(items, operator, host), FieldId(s, f))
  {
    ReportedMentionsAreHidden(items, s, f);
    forall key | key in Functions(items)
      ensures f !in StmtsFields(Functions(items)[key].body)
    {
      FunctionMentions(FREE, items, f, key);
    }
  }

  // ----- Main results -----

  /** Two values that differ at most in the field `d`, at any depth. */
  ghost predicate AgreeExcept(v: Value, w: Value, d: FieldId) {
    EraseValue(v, d) == EraseValue(w, d)
  }

  /** Two outcomes whose results, variables and host calls differ at most in the field `d`. */
  ghost predicate OutcomesAgreeExcept(o: Outcome, p: Outcome, d: FieldId) {
    match o
    case Done(v, st) => p.Done? && AgreeExcept(v, p.value, d) && StatesAgreeExcept(st, p.st, d)
    case Returned(v, st) => p.Returned? && AgreeExcept(v, p.value, d) && StatesAgreeExcept(st, p.st, d)
    case _ => o == p
  }

  ghost predicate ValuesAgreeExcept(vs: seq<Value>, ws: seq<Value>, d: FieldId) {
    |vs| == |ws| && forall i :: 0 <= i < |vs| ==> AgreeExcept(vs[i], ws[i], d)
  }

  ghost predicate TracesAgreeExcept(t: seq<HostCall>, u: seq<HostCall>, d: FieldId) {
    && |t| == |u|
    && forall i :: 0 <= i < |t| ==> t[i].name == u[i].name && ValuesAgreeExcept(t[i].args, u[i].args, d)
  }

  ghost predicate StatesAgreeExcept(st: State, st': State, d: FieldId) {
    && TracesAgreeExcept(st.trace, st'.trace, d)
    && |st.env| == |st'.env|
    && forall i :: 0 <= i < |st.env| ==>
         st.env[i].name == st'.env[i].name && AgreeExcept(st.env[i].value, st'.env[i].value, d)
  }

  /** For struct values of `d`'s owner, agreeing up to `d` is having the same other fields with agreeing values. */
  lemma AgreeExceptForStructs(fs: map<string, Value>, gs: map<string, Value>, d: FieldId)
    ensures AgreeExcept(VStruct(d.owner, fs), VStruct(d.owner, gs), d) <==>
            && fs.Keys - {d.name} == gs.Keys - {d.name}
            && forall k :: k in fs && k in gs && k != d.name ==> AgreeExcept(fs[k], gs[k], d)
  {
    var l, r := EraseValue(VStruct(d.owner, fs), d).fields, EraseValue(VStruct(d.owner, gs), d).fields;
    assert l.Keys == fs.Keys - {d.name} && r.Keys == gs.Keys - {d.name};
    if l == r {
      forall k | k in fs && k != d.name
        ensures k in gs && AgreeExcept(fs[k], gs[k], d)
      {
        assert k in l && l[k] == r[k];
      }
    }
    if && fs.Keys - {d.name} == gs.Keys - {d.name}
       && forall k :: k in fs && k in gs && k != d.name ==> AgreeExcept(fs[k], gs[k], d)
    {
      forall k | k in l
        ensures k in r && l[k] == r[k]
      {
        assert k in fs.Keys - {d.name};
      }
      assert l == r;
    }
  }

  /**
   * Non-interference: runs of any function on arguments, and after host calls, that agree up to a
   * reported field agree up to that field, in results, in the receiver afterwards and in all host calls.
   */
  lemma ReportedFieldDoesNotInterfere(
      items: seq<Item>, operator: Operators, host: Host, s: string, f: string, key: (string, string),
      args: seq<Value>, args': seq<Value>, trace: seq<HostCall>, trace': seq<HostCall>, fuel: nat)
    requires Violation(s, f) in Findings(ContractStructs(items), ContractImpls(items))
    requires s in ContractImpls(items) ==> f !in HiddenFor(items, s)
    requires OperatorIgnores(operator, FieldId(s, f)) && HostIgnores(host, FieldId(s, f))
    requires key in Functions(items)
    requires ValuesAgreeExcept(args, args', FieldId(s, f)) && TracesAgreeExcept(trace, trace', FieldId(s, f))
    ensures OutcomesAgreeExcept(Run(Program(items, operator, host), key, args, trace, fuel),
                                Run(Program(items, operator, host), key, args', trace', fuel), FieldId(s, f))
  {
    var ctx, d := Program(items, operator, host), FieldId(s, f);
    FindingsAreReports(items, s, f);
    ReportedIsIgnored(items, operator, host, s, f);
    RunErase(ctx, key, args, trace, fuel, d);
    RunErase(ctx, key, args', trace', fuel, d);
    assert EraseValues(args, d) == EraseValues(args', d);
    ErasedTraces(trace, trace', d);
    ErasedEqual(Run(ctx, key, args, trace, fuel), Run(ctx, key, args', trace', fuel), d);
  }

  lemma ErasedTraces(t: seq<HostCall>, u: seq<HostCall>, d: FieldId)
    ensures TracesAgreeExcept(t, u, d) <==> EraseTrace(t, d) == EraseTrace(u, d)
  {
    if TracesAgreeExcept(t, u, d) {
      forall i | 0 <= i < |t|
        ensures EraseTrace(t, d)[i] == EraseTrace(u, d)[i]
      {
        assert EraseValues(t[i].args, d) == EraseValues(u[i].args, d);
      }
    }
    if EraseTrace(t, d) == EraseTrace(u, d) {
      forall i | 0 <= i < |t|
        ensures t[i].name == u[i].name && ValuesAgreeExcept(t[i].args, u[i].args, d)
      {
        assert EraseTrace(t, d)[i] == EraseTrace(u, d)[i];
        ErasedValues(t[i].args, u[i].args, d);
      }
    }
  }

  lemma ErasedValues(vs: seq<Value>, ws: seq<Value>, d: FieldId)
    requires EraseValues(vs, d) == EraseValues(ws, d)
    ensures ValuesAgreeExcept(vs, ws, d)
  {
    forall i | 0 <= i < |vs|
      ensures AgreeExcept(vs[i], ws[i], d)
    {
      assert EraseValues(vs, d)[i] == EraseValues(ws, d)[i];
    }
  }

  lemma ErasedEqual(o: Outcome, p: Outcome, d: FieldId)
    requires EraseOutcome(o, d) == EraseOutcome(p, d)
    ensures OutcomesAgreeExcept(o, p, d)
  {
    if o.Done? || o.Returned? {
      ErasedTraces(o.st.trace, p.st.trace, d);
      var env, env' := EraseEnv(o.st.env, d), EraseEnv(p.st.env, d);
      forall i | 0 <= i < |o.st.env|
        ensures o.st.env[i].name == p.st.env[i].name && AgreeExcept(o.st.env[i].value, p.st.env[i].value, d)
      {
        assert env[i] == env'[i];
      }
    }
  }

  /** The same for the program in which only the declaration is missing, its initializers still being evaluated. */
  lemma UndeclaredFieldIsErased(
      items: seq<Item>, operator: Operators, host: Host, s: string, f: string,
      key: (string, string), args: seq<Value>, trace: seq<HostCall>, fuel: nat)
    requires Violation(s, f) in Findings(ContractStructs(items), ContractImpls(items))
    requires s in ContractImpls(items) ==> f !in HiddenFor(items, s)
    requires OperatorIgnores(operator, FieldId(s, f)) && HostIgnores(host, FieldId(s, f))
    requires key in Functions(items)
    ensures var d := FieldId(s, f);
            Run(DeleteField(Program(items, operator, host), d), key, EraseValues(args, d), EraseTrace(trace, d), fuel)
            == EraseOutcome(Run(Program(items, operator, host), key, args, trace, fuel), d)
  {
    FindingsAreReports(items, s, f);
    ReportedIsIgnored(items, operator, host, s, f);
    RunErase(Program(items, operator, host), key, args, trace, fuel, FieldId(s, f));
  }

  // ----- The program of the edited file -----

  lemma UndeclareConcat(a: map<string, set<string>>, b: map<string, set<string>>, d: FieldId)
    ensures Undeclare(a + b, d) == Undeclare(a, d) + Undeclare(b, d)
  {
  }

  lemma {:induction false} CutItemLayout(item: Item, d: FieldId)
    ensures ItemLayout(CutItem(item, d)) == Undeclare(ItemLayout(item), d)
    decreases item, 0
  {
    match item
    case StructDecl(decl) =>
      WithoutIsGone(decl.fields, d.name);
      assert (set g | g in Without(decl.fields, d.name)) == (set g | g in decl.fields) - {d.name};
    case ModDecl(_, items) => CutLayout(items, d);
    case _ =>
  }

  lemma {:induction false} CutLayout(items: seq<Item>, d: FieldId)
    ensures Layout(CutItems(items, d)) == Undeclare(Layout(items), d)
    decreases items, 0
  {
    if items == [] {
    } else {
      CutItemLayout(items[0], d);
      CutLayout(items[1..], d);
      UndeclareConcat(ItemLayout(items[0]), Layout(items[1..]), d);
      assert CutItems(items, d)[1..] == CutItems(items[1..], d);
    }
  }

  /** The functions of the edited file are those of the file, edited. */
  ghost predicate AllRewritten(fns: map<(string, string), Fn>, fns': map<(string, string), Fn>, strict: bool, d: FieldId) {
    && fns'.Keys == fns.Keys
    && forall key :: key in fns ==> Rewritten(fns[key], fns'[key], key.0, strict, d)
  }

  lemma RewrittenConcat(a: map<(string, string), Fn>, a': map<(string, string), Fn>,
                        b: map<(string, string), Fn>, b': map<(string, string), Fn>, strict: bool, d: FieldId)
    requires AllRewritten(a, a', strict, d) && AllRewritten(b, b', strict, d)
    ensures AllRewritten(a + b, a' + b', strict, d)
  {
  }

  lemma {:induction false} CutOwned(owner: string, fns: seq<Fn>, self: bool, strict: bool, d: FieldId)
    requires Removable(FnsInits(fns, self, d), strict) && (self ==> owner == d.owner)
    ensures AllRewritten(FunctionsOf(owner, fns), FunctionsOf(owner, CutFns(fns, self, d)), strict, d)
  {
    if fns == [] {
    } else {
      CutOwned(owner, fns[1..], self, strict, d);
      var cut := CutFns(fns, self, d);
      assert cut[0] == CutFn(fns[0], self, d) && cut[1..] == CutFns(fns[1..], self, d);
      assert Rewritten(fns[0], cut[0], owner, strict, d);
      RewrittenConcat(map[(owner, fns[0].name) := fns[0]], map[(owner, fns[0].name) := cut[0]],
                      FunctionsOf(owner, fns[1..]), FunctionsOf(owner, cut[1..]), strict, d);
    }
  }

  lemma {:induction false} CutItemFunctions(scope: string, item: Item, strict: bool, d: FieldId)
    requires Removable(ItemInits(item, d), strict)
    ensures AllRewritten(ItemFunctions(scope, item), ItemFunctions(scope, CutItem(item, d)), strict, d)
    decreases item, 0
  {
    match item
    case ImplDecl(block) => CutOwned(block.selfType, block.fns, block.selfType == d.owner, strict, d);
    case FnDecl(fn) => assert CutAs(fn, CutFn(fn, false, d), false, strict, d);
    case TraitDecl(defaults) => CutOwned(DEFAULTS, defaults, false, strict, d);
    case ModDecl(name, items) => CutFunctions(name, items, strict, d);
    case _ =>
  }

  lemma {:induction false} CutFunctions(scope: string, items: seq<Item>, strict: bool, d: FieldId)
    requires Removable(ItemsInits(items, d), strict)
    ensures AllRewritten(FunctionsIn(scope, items), FunctionsIn(scope, CutItems(items, d)), strict, d)
    decreases items, 0
  {
    if items == [] {
    } else {
      CutItemFunctions(scope, items[0], strict, d);
      CutFunctions(scope, items[1..], strict, d);
      assert CutItems(items, d)[1..] == CutItems(items[1..], d);
      RewrittenConcat(ItemFunctions(scope, items[0]), ItemFunctions(scope, CutItem(items[0], d)),
                      FunctionsIn(scope, items[1..]), FunctionsIn(scope, CutItems(items[1..], d)), strict, d);
    }
  }

  /**
   * Removing inert initializers changes nothing: the edited file runs like the undeclared program.
   * Removing quiet ones can only change a run that aborts.
   */
  lemma EditedFileRuns(items: seq<Item>, operator: Operators, host: Host, strict: bool, d: FieldId,
                       key: (string, string), args: seq<Value>, trace: seq<HostCall>, fuel: nat)
    requires Removable(ItemsInits(items, d), strict) && d.owner != DEFAULTS && key in Functions(items)
    ensures key in Functions(CutItems(items, d))
    ensures var o := Run(DeleteField(Program(items, operator, host), d), key, args, trace, fuel);
            Run(Program(CutItems(items, d), operator, host), key, args, trace, fuel) == o || (!strict && o.Failed?)
  {
    CutFunctions(FREE, items, strict, d);
    CutLayout(items, d);
    var before, after := DeleteField(Program(items, operator, host), d), Program(CutItems(items, d), operator, host);
    var c := Edit(before, after, key.0, false, strict, d);
    RunCut(c, Global(before.fns[key], key.0), Global(after.fns[key], key.0), key.0, args, trace, fuel);
  }

  /**
   * Following the advice is safe: the file without the field's declaration and without its
   * initializers, on arguments without the field, does what the original does with the field erased
   * from its outcome. That holds for every run that does not abort if the removed initializers are
   * quiet, and for every run if they are inert. (`dyn` names no struct.)
   */
  lemma ReportedFieldCanBeDeleted(
      items: seq<Item>, operator: Operators, host: Host, s: string, f: string,
      key: (string, string), args: seq<Value>, trace: seq<HostCall>, fuel: nat)
    requires Violation(s, f) in Findings(ContractStructs(items), ContractImpls(items)) && s != DEFAULTS
    requires s in ContractImpls(items) ==> f !in HiddenFor(items, s)
    requires OperatorIgnores(operator, FieldId(s, f)) && HostIgnores(host, FieldId(s, f))
    requires Removable(ItemsInits(items, FieldId(s, f)), false)
    requires key in Functions(items)
    ensures key in Functions(CutItems(items, FieldId(s, f)))
    ensures var d, o := FieldId(s, f), Run(Program(items, operator, host), key, args, trace, fuel);
            !o.Failed? || Removable(ItemsInits(items, d), true) ==>
              Run(Program(CutItems(items, d), operator, host), key, EraseValues(args, d), EraseTrace(trace, d), fuel)
              == EraseOutcome(o, d)
  {
    var d := FieldId(s, f);
    UndeclaredFieldIsErased(items, operator, host, s, f, key, args, trace, fuel);
    var strict := Removable(ItemsInits(items, d), true);
    EditedFileRuns(items, operator, host, strict, d, key, EraseValues(args, d), EraseTrace(trace, d), fuel);
  }

  /** The edited file names the field nowhere. */
  lemma DeletedFieldIsGone(items: seq<Item>, s: string, f: string)
    requires Reported(items, s, f) && f !in HiddenFor(items, s)
    ensures var d := FieldId(s, f);
            !SomeDeclares(CutItems(items, d), d) && !Mentioned(CutItems(items, d), d)
  {
    ReportedMentionsAreHidden(items, s, f);
    FieldIsGone(items, FieldId(s, f));
  }

  // ----- Contracts over storage -----

  /** Arithmetic and comparison of integers. */
  function IntegerOperators(symbol: string, v: Value, w: Value): Option<Value> {
    if !(v.VScalar? && v.s.Int? && w.VScalar? && w.s.Int?) then None
    else if symbol == "+" then Some(VScalar(Int(v.s.n + w.s.n)))
    else if symbol == "-" then Some(VScalar(Int(v.s.n - w.s.n)))
    else if symbol == "*" then Some(VScalar(Int(v.s.n * w.s.n)))
    else if symbol == "<" then Some(VScalar(Bool(v.s.n < w.s.n)))
    else if symbol == "==" then Some(VScalar(Bool(v.s.n == w.s.n)))
    else None
  }

  lemma StorageIgnores(d: FieldId)
    ensures OperatorIgnores(IntegerOperators, d) && HostIgnores(StorageHost, d)
  {
    ScalarOperatorsIgnore(IntegerOperators, d);
    StorageHostIgnores(d);
  }

  /** Computing with integers and storing whole structs leaves no condition but those on the text of the file. */
  lemma StorageContractsCanDropTheField(
      items: seq<Item>, s: string, f: string, key: (string, string), args: seq<Value>, trace: seq<HostCall>, fuel: nat)
    requires Violation(s, f) in Findings(ContractStructs(items), ContractImpls(items)) && s != DEFAULTS
    requires s in ContractImpls(items) ==> f !in HiddenFor(items, s)
    requires Removable(ItemsInits(items, FieldId(s, f)), false)
    requires key in Functions(items)
    ensures key in Functions(CutItems(items, FieldId(s, f)))
    ensures var d, o := FieldId(s, f), Run(Program(items, IntegerOperators, StorageHost), key, args, trace, fuel);
            !o.Failed? || Removable(ItemsInits(items, d), true) ==>
              Run(Program(CutItems(items, d), IntegerOperators, StorageHost), key, EraseValues(args, d), EraseTrace(trace, d), fuel)
              == EraseOutcome(o, d)
  {
    StorageIgnores(FieldId(s, f));
    ReportedFieldCanBeDeleted(items, IntegerOperators, StorageHost, s, f, key, args, trace, fuel);
  }
}
