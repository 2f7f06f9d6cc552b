/**
 * Running a program after one field is deleted from its struct.
 *
 * Erasing the field from every value of the struct commutes with evaluation, as long as the
 * program mentions the field in struct literals at most, and operators and host do not look
 * into it either. The lemmas follow the evaluator.
 */
module Erasure {
  import opened Wrappers
  import opened RustAst
  import opened RustSemantics
  import opened FieldMentions

  /** The field `name` of struct `owner`. */
  datatype FieldId = FieldId(owner: string, name: string)

  function EraseValue(v: Value, d: FieldId): Value
    decreases v
  {
    match v
    case VScalar(_) => v
    case VTuple(vs) => VTuple(EraseValues(vs, d))
    case VVariant(n, vs) => VVariant(n, EraseValues(vs, d))
    case VStruct(n, fs) => VStruct(n, map g | g in fs && FieldId(n, g) != d :: EraseValue(fs[g], d))
  }

  function EraseValues(vs: seq<Value>, d: FieldId): (r: seq<Value>)
    ensures |r| == |vs|
    decreases vs
  {
    seq(|vs|, i requires 0 <= i < |vs| => EraseValue(vs[i], d))
  }

  function EraseFields(owner: string, fs: map<string, Value>, d: FieldId): map<string, Value> {
    map g | g in fs && FieldId(owner, g) != d :: EraseValue(fs[g], d)
  }

  function EraseEnv(env: seq<Binding>, d: FieldId): (r: seq<Binding>)
    ensures |r| == |env|
  {
    seq(|env|, i requires 0 <= i < |env| => Binding(env[i].name, EraseValue(env[i].value, d)))
  }

  function EraseCall(call: HostCall, d: FieldId): HostCall {
    HostCall(call.name, EraseValues(call.args, d))
  }

  function EraseTrace(trace: seq<HostCall>, d: FieldId): (r: seq<HostCall>)
    ensures |r| == |trace|
  {
    seq(|trace|, i requires 0 <= i < |trace| => EraseCall(trace[i], d))
  }

  function EraseState(st: State, d: FieldId): State {
    State(EraseEnv(st.env, d), EraseTrace(st.trace, d))
  }

  function EraseOption(o: Option<Value>, d: FieldId): Option<Value> {
    if o.Some? then Some(EraseValue(o.value, d)) else None
  }

  function EraseOutcome(o: Outcome, d: FieldId): Outcome {
    match o
    case Done(v, st) => Done(EraseValue(v, d), EraseState(st, d))
    case Returned(v, st) => Returned(EraseValue(v, d), EraseState(st, d))
    case _ => o
  }

  function EraseOutcomes(o: Outcomes, d: FieldId): Outcomes {
    match o
    case DoneAll(vs, st) => DoneAll(EraseValues(vs, d), EraseState(st, d))
    case Stopped(o) => Stopped(EraseOutcome(o, d))
  }

  function Undeclare(layout: map<string, set<string>>, d: FieldId): map<string, set<string>> {
    map n | n in layout :: if n == d.owner then layout[n] - {d.name} else layout[n]
  }

  /**
   * The program in which `d` is no longer declared; literals still evaluate its initializer.
   * `RemovalSimulation` relates it to the program without those initializers.
   */
  function DeleteField(ctx: Context, d: FieldId): Context {
    ctx.(layout := Undeclare(ctx.layout, d))
  }

  ghost predicate Unmentioned(ctx: Context, d: FieldId) {
    && (forall key :: key in ctx.fns ==> d.name !in StmtsFields(ctx.fns[key].body))
    && (forall name :: name in ctx.local ==> d.name !in StmtsFields(ctx.local[name].body))
  }

  /** Operators give the same results, up to the field, on values that differ at most in it. */
  ghost predicate OperatorIgnores(operator: Operators, d: FieldId) {
    forall symbol, v, w :: operator(symbol, EraseValue(v, d), EraseValue(w, d)) == EraseOption(operator(symbol, v, w), d)
  }

  /** So does the host, after histories that differ at most in the field. */
  ghost predicate HostIgnores(host: Host, d: FieldId) {
    forall trace, call :: host(EraseTrace(trace, d), EraseCall(call, d)) == EraseOption(host(trace, call), d)
  }

  ghost predicate Ignores(ctx: Context, d: FieldId) {
    Unmentioned(ctx, d) && OperatorIgnores(ctx.operator, d) && HostIgnores(ctx.host, d)
  }

  ghost predicate Avoids(path: seq<Member>, d: FieldId) {
    forall i :: 0 <= i < |path| ==> path[i] != Named(d.name)
  }

  // ----- Components, places and patterns -----

  lemma {:induction false} EraseLookup(env: seq<Binding>, x: string, d: FieldId)
    ensures Lookup(EraseEnv(env, d), x) == Lookup(env, x)
  {
    if env == [] {
    } else {
      var front := env[..|env| - 1];
      assert EraseEnv(env, d)[..|env| - 1] == EraseEnv(front, d);
      EraseLookup(front, x, d);
    }
  }

  lemma EraseProject(v: Value, m: Member, d: FieldId)
    requires m != Named(d.name)
    ensures Project(EraseValue(v, d), m) == EraseOption(Project(v, m), d)
  {
  }

  lemma {:induction false} EraseGet(v: Value, path: seq<Member>, d: FieldId)
    requires Avoids(path, d)
    ensures Get(EraseValue(v, d), path) == EraseOption(Get(v, path), d)
    decreases |path|
  {
    if path == [] {
    } else {
      EraseProject(v, path[0], d);
      var inner := Project(v, path[0]);
      if inner.Some? {
        EraseGet(inner.value, path[1..], d);
      }
    }
  }

  lemma ErasePutStep(v: Value, m: Member, w: Value, d: FieldId)
    requires m != Named(d.name) && Project(v, m).Some?
    ensures m.Named? ==>
              EraseValue(VStruct(v.name, v.fields[m.name := w]), d)
              == VStruct(v.name, EraseFields(v.name, v.fields, d)[m.name := EraseValue(w, d)])
    ensures m.Unnamed? ==>
              EraseValue(VTuple(v.elems[m.index := w]), d)
              == VTuple(EraseValues(v.elems, d)[m.index := EraseValue(w, d)])
  {
    match m
    case Named(g) =>
      var left := EraseFields(v.name, v.fields[g := w], d);
      var right := EraseFields(v.name, v.fields, d)[g := EraseValue(w, d)];
      assert left.Keys == right.Keys;
      assert left == right;
    case Unnamed(i) =>
      assert EraseValues(v.elems[i := w], d) == EraseValues(v.elems, d)[i := EraseValue(w, d)];
  }

  lemma {:induction false} ErasePut(v: Value, path: seq<Member>, w: Value, d: FieldId)
    requires Avoids(path, d)
    ensures Put(EraseValue(v, d), path, EraseValue(w, d)) == EraseOption(Put(v, path, w), d)
    decreases |path|
  {
    if path == [] {
    } else {
      EraseProject(v, path[0], d);
      var inner := Project(v, path[0]);
      if inner.Some? {
        ErasePut(inner.value, path[1..], w, d);
        var updated := Put(inner.value, path[1..], w);
        if updated.Some? {
          ErasePutStep(v, path[0], updated.value, d);
        }
      }
    }
  }

  lemma {:induction false} PlaceAvoids(e: Expr, d: FieldId)
    requires d.name !in ExprFields(e)
    ensures ToPlace(e).Some? ==> Avoids(ToPlace(e).value.path, d)
  {
    match e
    case Field(base, _) => PlaceAvoids(base, d);
    case Reference(x) => PlaceAvoids(x, d);
    case Unary(_, x) => PlaceAvoids(x, d);
    case Paren(x) => PlaceAvoids(x, d);
    case _ =>
  }

  lemma EraseRead(p: Place, st: State, d: FieldId)
    requires Avoids(p.path, d)
    ensures ReadPlace(p, EraseState(st, d)) == EraseOption(ReadPlace(p, st), d)
  {
    EraseLookup(st.env, p.root, d);
    var i := Lookup(st.env, p.root);
    if i.Some? {
      EraseGet(st.env[i.value].value, p.path, d);
    }
  }

  lemma EraseReadTarget(target: Expr, st: State, d: FieldId)
    requires d.name !in ExprFields(target)
    ensures ReadTarget(target, EraseState(st, d)) == EraseOption(ReadTarget(target, st), d)
  {
    PlaceAvoids(target, d);
    if ToPlace(target).Some? {
      EraseRead(ToPlace(target).value, st, d);
    }
  }

  lemma EraseUpdate(env: seq<Binding>, i: nat, x: string, v: Value, d: FieldId)
    requires i < |env|
    ensures EraseEnv(env[i := Binding(x, v)], d) == EraseEnv(env, d)[i := Binding(x, EraseValue(v, d))]
  {
  }

  lemma EraseWrite(p: Place, v: Value, st: State, d: FieldId)
    requires Avoids(p.path, d)
    ensures WritePlace(p, EraseValue(v, d), EraseState(st, d))
         == if WritePlace(p, v, st).Some? then Some(EraseState(WritePlace(p, v, st).value, d)) else None
  {
    EraseLookup(st.env, p.root, d);
    var i := Lookup(st.env, p.root);
    if i.Some? {
      ErasePut(st.env[i.value].value, p.path, v, d);
      var u := Put(st.env[i.value].value, p.path, v);
      if u.Some? {
        EraseUpdate(st.env, i.value, p.root, u.value, d);
      }
    }
  }

  lemma EraseAssign(target: Expr, v: Value, st: State, d: FieldId)
    requires d.name !in ExprFields(target)
    ensures AssignTo(target, EraseValue(v, d), EraseState(st, d)) == EraseOutcome(AssignTo(target, v, st), d)
  {
    PlaceAvoids(target, d);
    if ToPlace(target).Some? {
      EraseWrite(ToPlace(target).value, v, st, d);
    }
  }

  lemma EraseEnvConcat(a: seq<Binding>, b: seq<Binding>, d: FieldId)
    ensures EraseEnv(a + b, d) == EraseEnv(a, d) + EraseEnv(b, d)
  {
  }

  function EraseBound(o: Option<seq<Binding>>, d: FieldId): Option<seq<Binding>> {
    if o.Some? then Some(EraseEnv(o.value, d)) else None
  }

  lemma {:induction false} EraseMatch(p: Pat, v: Value, current: string, d: FieldId)
    requires d.name !in PatFields(p)
    ensures MatchPat(p, EraseValue(v, d), current) == EraseBound(MatchPat(p, v, current), d)
    decreases p, 0
  {
    match p
    case PReference(q) => EraseMatch(q, v, current, d);
    case PTuple(ps) =>
      if v.VTuple? && |v.elems| == |ps| {
        EraseMatches(ps, v.elems, current, d);
      }
    case PTupleStruct(_, ps) =>
      if v.VVariant? && |v.elems| == |ps| {
        EraseMatches(ps, v.elems, current, d);
      }
    case PStruct(_, fs) =>
      if v.VStruct? {
        EraseMatchFields(fs, v, current, d);
      }
    case PIdent(x) =>
      assert EraseEnv([Binding(x, v)], d) == [Binding(x, EraseValue(v, d))];
    case _ =>
      assert EraseEnv([], d) == [];
  }

  lemma {:induction false} EraseMatches(ps: seq<Pat>, vs: seq<Value>, current: string, d: FieldId)
    requires |ps| == |vs| && d.name !in PatsFields(ps)
    ensures MatchPats(ps, EraseValues(vs, d), current) == EraseBound(MatchPats(ps, vs, current), d)
    decreases ps, 0
  {
    if ps == [] {
    } else {
      EraseMatch(ps[0], vs[0], current, d);
      EraseMatches(ps[1..], vs[1..], current, d);
      assert EraseValues(vs, d)[1..] == EraseValues(vs[1..], d);
      var first, others := MatchPat(ps[0], vs[0], current), MatchPats(ps[1..], vs[1..], current);
      if first.Some? && others.Some? {
        EraseEnvConcat(first.value, others.value, d);
      }
    }
  }

  lemma {:induction false} EraseMatchFields(fs: seq<FieldPat>, v: Value, current: string, d: FieldId)
    requires d.name !in FieldPatsFields(fs)
    ensures MatchFields(fs, EraseValue(v, d), current) == EraseBound(MatchFields(fs, v, current), d)
    decreases fs, 0
  {
    if fs == [] {
    } else {
      EraseProject(v, Named(fs[0].member), d);
      var inner := Project(v, Named(fs[0].member));
      if inner.Some? {
        EraseMatch(fs[0].pat, inner.value, current, d);
        EraseMatchFields(fs[1..], v, current, d);
        var first, others := MatchPat(fs[0].pat, inner.value, current), MatchFields(fs[1..], v, current);
        if first.Some? && others.Some? {
          EraseEnvConcat(first.value, others.value, d);
        }
      }
    }
  }

  // ----- Host calls, struct literals and frames -----

  lemma EraseHost(ctx: Context, name: string, args: seq<Value>, st: State, d: FieldId)
    requires HostIgnores(ctx.host, d)
    ensures CallHost(DeleteField(ctx, d), name, EraseValues(args, d), EraseState(st, d))
         == EraseOutcome(CallHost(ctx, name, args, st), d)
  {
    var call := HostCall(name, args);
    assert EraseCall(call, d) == HostCall(name, EraseValues(args, d));
    assert ctx.host(EraseTrace(st.trace, d), EraseCall(call, d)) == EraseOption(ctx.host(st.trace, call), d);
    assert EraseTrace(st.trace + [call], d) == EraseTrace(st.trace, d) + [EraseCall(call, d)];
  }

  lemma {:induction false} EraseInts(lo: int, hi: int, d: FieldId)
    ensures EraseValues(Ints(lo, hi), d) == Ints(lo, hi)
    decreases hi - lo
  {
    if lo < hi {
      EraseInts(lo + 1, hi, d);
      EraseValuesCons(VScalar(Int(lo)), Ints(lo + 1, hi), d);
    }
  }

  lemma EraseRange(v: Value, w: Value, d: FieldId)
    ensures RangeOf(EraseValue(v, d), EraseValue(w, d)) == EraseOption(RangeOf(v, w), d)
  {
    if v.VScalar? && v.s.Int? && w.VScalar? && w.s.Int? {
      EraseInts(v.s.n, w.s.n, d);
    }
  }

  lemma EraseBinaryValues(ctx: Context, op: BinOp, v: Value, w: Value, d: FieldId)
    requires OperatorIgnores(ctx.operator, d)
    ensures BinaryValues(DeleteField(ctx, d), op, EraseValue(v, d), EraseValue(w, d))
         == EraseOption(BinaryValues(ctx, op, v, w), d)
  {
  }

  lemma EraseValuesCons(v: Value, vs: seq<Value>, d: FieldId)
    ensures EraseValues([v] + vs, d) == [EraseValue(v, d)] + EraseValues(vs, d)
  {
  }

  /** The fields of `owner` that deleting `d` takes away. */
  function Lost(owner: string, d: FieldId): set<string> {
    if owner == d.owner then {d.name} else {}
  }

  lemma {:induction false} EraseInitialize(
      owner: string, inits: seq<FieldValue>, vs: seq<Value>,
      base: map<string, Value>, base': map<string, Value>, d: FieldId)
    requires |inits| == |vs|
    requires base' - Lost(owner, d) == EraseFields(owner, base, d)
    ensures Initialize(inits, EraseValues(vs, d), base') - Lost(owner, d)
         == EraseFields(owner, Initialize(inits, vs, base), d)
    decreases |inits|
  {
    if inits == [] {
    } else {
      var g := inits[0].member;
      var next, next' := base[g := vs[0]], base'[g := EraseValue(vs[0], d)];
      assert next' - Lost(owner, d) == EraseFields(owner, next, d) by {
        forall k
          ensures k in next' - Lost(owner, d) <==> k in EraseFields(owner, next, d)
          ensures k in next' - Lost(owner, d) ==> (next' - Lost(owner, d))[k] == EraseFields(owner, next, d)[k]
        {
          assert k in base' - Lost(owner, d) <==> k in EraseFields(owner, base, d);
          if k in base' - Lost(owner, d) {
            assert (base' - Lost(owner, d))[k] == base'[k];
          }
        }
      }
      EraseInitialize(owner, inits[1..], vs[1..], next, next', d);
      assert EraseValues(vs, d)[1..] == EraseValues(vs[1..], d);
    }
  }

  lemma EraseBuild(ctx: Context, name: string, fields: map<string, Value>, fields': map<string, Value>, st: State, d: FieldId)
    requires fields' - Lost(name, d) == EraseFields(name, fields, d)
    ensures BuildStruct(DeleteField(ctx, d), name, fields', EraseState(st, d))
         == EraseOutcome(BuildStruct(ctx, name, fields, st), d)
  {
    assert name in DeleteField(ctx, d).layout <==> name in ctx.layout;
    if name in ctx.layout {
      assert DeleteField(ctx, d).layout[name] == ctx.layout[name] - Lost(name, d);
      var kept' := map g | g in fields' && g in DeleteField(ctx, d).layout[name] :: fields'[g];
      var kept := map g | g in fields && g in ctx.layout[name] :: fields[g];
      forall g
        ensures g in kept' <==> g in EraseFields(name, kept, d)
        ensures g in kept' ==> kept'[g] == EraseFields(name, kept, d)[g]
      {
        assert g in fields' - Lost(name, d) <==> g in EraseFields(name, fields, d);
        if g in kept' {
          assert (fields' - Lost(name, d))[g] == fields'[g];
        }
      }
      assert kept' == EraseFields(name, kept, d);
      assert EraseValue(VStruct(name, kept), d) == VStruct(name, kept');
    }
  }

  lemma EraseFrame(params: seq<string>, args: seq<Value>, d: FieldId)
    requires |params| == |args|
    ensures Frame(params, EraseValues(args, d)) == EraseEnv(Frame(params, args), d)
  {
  }

  lemma EraseLeave(o: Outcome, depth: nat, d: FieldId)
    ensures Leave(EraseOutcome(o, d), depth) == EraseOutcome(Leave(o, depth), d)
  {
    if o.Done? && depth <= |o.st.env| {
      assert EraseEnv(o.st.env, d)[..depth] == EraseEnv(o.st.env[..depth], d);
    }
  }

  lemma EraseResult(r: Outcomes, d: FieldId)
    ensures ResultOf(EraseOutcomes(r, d)) == EraseOutcome(ResultOf(r), d)
  {
    if r.DoneAll? && r.values != [] {
      assert EraseValues(r.values, d)[0] == EraseValue(r.values[0], d);
    }
  }

  lemma EraseExtend(st: State, bs: seq<Binding>, d: FieldId)
    ensures EraseState(st, d).(env := EraseEnv(st.env, d) + EraseEnv(bs, d)) == EraseState(st.(env := st.env + bs), d)
  {
    EraseEnvConcat(st.env, bs, d);
  }

  // ----- Functions and their scopes -----

  lemma {:induction false} NestedAvoids(ss: seq<Stmt>, d: FieldId)
    requires d.name !in StmtsFields(ss)
    ensures forall name :: name in NestedIn(ss) ==> d.name !in StmtsFields(NestedIn(ss)[name].body)
  {
    if ss == [] {
    } else {
      NestedAvoids(ss[1..], d);
    }
  }

  lemma EnterIgnores(ctx: Context, ss: seq<Stmt>, d: FieldId)
    requires Ignores(ctx, d) && d.name !in StmtsFields(ss)
    ensures Ignores(Enter(ctx, ss), d) && Enter(DeleteField(ctx, d), ss) == DeleteField(Enter(ctx, ss), d)
  {
    NestedAvoids(ss, d);
  }

  lemma InsideIgnores(ctx: Context, callee: Callee, d: FieldId)
    requires Ignores(ctx, d)
    ensures Ignores(Inside(ctx, callee), d) && Inside(DeleteField(ctx, d), callee) == DeleteField(Inside(ctx, callee), d)
  {
  }

  // ----- Operators and hosts that ignore a field -----

  /** Operators on numbers, strings and the like ignore every field. */
  lemma ScalarOperatorsIgnore(operator: Operators, d: FieldId)
    requires forall symbol, v, w :: operator(symbol, v, w).Some? ==>
               v.VScalar? && w.VScalar? && operator(symbol, v, w).value.VScalar?
    ensures OperatorIgnores(operator, d)
  {
    forall symbol, v, w
      ensures operator(symbol, EraseValue(v, d), EraseValue(w, d)) == EraseOption(operator(symbol, v, w), d)
    {
      assert operator(symbol, EraseValue(v, d), EraseValue(w, d)).Some? ==> v.VScalar? && w.VScalar?;
    }
  }

  /** A host that clones its argument, stores the argument of `set` and gives it back on `get`. */
  function StorageHost(trace: seq<HostCall>, call: HostCall): Option<Value> {
    if call.name == "clone" && call.args != [] then Some(call.args[0])
    else if call.name == "get" then LastSet(trace)
    else Some(UNIT)
  }

  function LastSet(trace: seq<HostCall>): Option<Value> {
    if trace == [] then None
    else
      var last := trace[|trace| - 1];
      if last.name == "set" && last.args != [] then Some(last.args[|last.args| - 1]) else LastSet(trace[..|trace| - 1])
  }

  lemma {:induction false} EraseLastSet(trace: seq<HostCall>, d: FieldId)
    ensures LastSet(EraseTrace(trace, d)) == EraseOption(LastSet(trace), d)
  {
    if trace == [] {
    } else {
      EraseLastSet(trace[..|trace| - 1], d);
      assert EraseTrace(trace, d)[..|trace| - 1] == EraseTrace(trace[..|trace| - 1], d);
    }
  }

  /** Cloning whole structs, storing them and reading them back ignores every field. */
  lemma StorageHostIgnores(d: FieldId)
    ensures HostIgnores(StorageHost, d)
  {
    forall trace, call
      ensures StorageHost(EraseTrace(trace, d), EraseCall(call, d)) == EraseOption(StorageHost(trace, call), d)
    {
      EraseLastSet(trace, d);
    }
  }
}
