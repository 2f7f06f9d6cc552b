/**
 * A big-step evaluator for the modelled Rust expressions.
 *
 * Struct values are maps from field names to values, variables live on a stack of
 * bindings, and everything outside the program (storage, events, token transfers,
 * clones, library functions) is a host that is given whole values and whose replies
 * may depend on all earlier host calls.
 * `fuel` bounds loop iterations and call depth; the theorems hold for every fuel.
 */
module RustSemantics {
  import opened Wrappers
  import opened RustAst

  datatype Value =
    | VScalar(s: Scalar)
    | VTuple(elems: seq<Value>)
    | VStruct(name: string, fields: map<string, Value>)
    | VVariant(name: string, elems: seq<Value>)

  datatype Binding = Binding(name: string, value: Value)

  datatype HostCall = HostCall(name: string, args: seq<Value>)

  datatype State = State(env: seq<Binding>, trace: seq<HostCall>)

  /** The reply to a call after a history of calls; `None` aborts the execution. */
  type Host = (seq<HostCall>, HostCall) -> Option<Value>

  /** The meaning of `+`, `==`, `<` and so on; `None` stands for overflow and other panics. */
  type Operators = (string, Value, Value) -> Option<Value>

  /**
   * The functions by owner and name, the nested functions in scope, and the declared fields of each
   * struct. The owner of a free function is `FREE`, that of a trait's default method is `DEFAULTS`.
   */
  datatype Context = Context(
    fns: map<(string, string), Fn>,
    local: map<string, Fn>,
    layout: map<string, set<string>>,
    operator: Operators,
    host: Host)

  const FREE := ""
  const DEFAULTS := "dyn"

  datatype Outcome =
    | Done(value: Value, st: State)
    | Returned(value: Value, st: State)
    | Failed
    | OutOfFuel

  datatype Outcomes = DoneAll(values: seq<Value>, st: State) | Stopped(outcome: Outcome)

  const UNIT := VScalar(Unit)

  // ----- Variables, members and places -----

  function Lookup(env: seq<Binding>, x: string): (i: Option<nat>)
    ensures i.Some? ==> i.value < |env| && env[i.value].name == x
  {
    if env == [] then None
    else if env[|env| - 1].name == x then Some(|env| - 1)
    else Lookup(env[..|env| - 1], x)
  }

  function Project(v: Value, m: Member): Option<Value> {
    match m
    case Named(g) => if v.VStruct? && g in v.fields then Some(v.fields[g]) else None
    case Unnamed(i) => if v.VTuple? && i < |v.elems| then Some(v.elems[i]) else None
  }

  function Get(v: Value, path: seq<Member>): Option<Value> {
    if path == [] then Some(v)
    else
      var inner := Project(v, path[0]);
      if inner.None? then None else Get(inner.value, path[1..])
  }

  /** `v` with the component at `path` replaced. */
  function Put(v: Value, path: seq<Member>, w: Value): Option<Value> {
    if path == [] then Some(w)
    else
      var inner := Project(v, path[0]);
      if inner.None? then None
      else
        var updated := Put(inner.value, path[1..], w);
        if updated.None? then None
        else match path[0]
          case Named(g) => Some(VStruct(v.name, v.fields[g := updated.value]))
          case Unnamed(i) => Some(VTuple(v.elems[i := updated.value]))
  }

  datatype Place = Place(root: string, path: seq<Member>)

  function ToPlace(e: Expr): Option<Place> {
    match e
    case Path(segments) => if |segments| == 1 then Some(Place(segments[0], [])) else None
    case Field(base, m) =>
      var p := ToPlace(base);
      if p.None? then None else Some(Place(p.value.root, p.value.path + [m]))
    case Reference(inner) => ToPlace(inner)
    case Unary(op, inner) => if op.Deref? then ToPlace(inner) else None
    case Paren(inner) => ToPlace(inner)
    case _ => None
  }

  function ReadPlace(p: Place, st: State): Option<Value> {
    var i := Lookup(st.env, p.root);
    if i.None? then None else Get(st.env[i.value].value, p.path)
  }

  function WritePlace(p: Place, w: Value, st: State): Option<State> {
    var i := Lookup(st.env, p.root);
    if i.None? then None
    else
      var v := Put(st.env[i.value].value, p.path, w);
      if v.None? then None
      else Some(st.(env := st.env[i.value := Binding(p.root, v.value)]))
  }

  // ----- Patterns -----

  function Resolve(name: string, current: string): string {
    if name == "Self" then current else name
  }

  /** The bindings a pattern makes, or `None` when it does not match. */
  function MatchPat(p: Pat, v: Value, current: string): Option<seq<Binding>>
    decreases p, 0
  {
    match p
    case PWild => Some([])
    case PLit(lit) => if v == VScalar(lit) then Some([]) else None
    case PIdent(x) => Some([Binding(x, v)])
    case PReference(q) => MatchPat(q, v, current)
    case PTuple(ps) =>
      if v.VTuple? && |v.elems| == |ps| then MatchPats(ps, v.elems, current) else None
    case PTupleStruct(path, ps) =>
      if v.VVariant? && path != [] && v.name == path[|path| - 1] && |v.elems| == |ps| then MatchPats(ps, v.elems, current)
      else None
    case PStruct(name, fs) =>
      if v.VStruct? && v.name == Resolve(name, current) then MatchFields(fs, v, current) else None
  }

  function MatchPats(ps: seq<Pat>, vs: seq<Value>, current: string): Option<seq<Binding>>
    requires |ps| == |vs|
    decreases ps, 0
  {
    if ps == [] then Some([])
    else
      var first, others := MatchPat(ps[0], vs[0], current), MatchPats(ps[1..], vs[1..], current);
      if first.None? || others.None? then None else Some(first.value + others.value)
  }

  function MatchFields(fs: seq<FieldPat>, v: Value, current: string): Option<seq<Binding>>
    decreases fs, 0
  {
    if fs == [] then Some([])
    else
      var inner := Project(v, Named(fs[0].member));
      if inner.None? then None
      else
        var first, others := MatchPat(fs[0].pat, inner.value, current), MatchFields(fs[1..], v, current);
        if first.None? || others.None? then None else Some(first.value + others.value)
  }

  // ----- Operators and host calls -----

  function BinaryValues(ctx: Context, op: BinOp, v: Value, w: Value): Option<Value> {
    match op
    case And => BothBools(v, w, (a, b) => a && b)
    case Or => BothBools(v, w, (a, b) => a || b)
    case Operator(symbol) => ctx.operator(symbol, v, w)
    case Compound(symbol) => ctx.operator(symbol, v, w)
  }

  function BothBools(v: Value, w: Value, f: (bool, bool) -> bool): Option<Value> {
    if v.VScalar? && v.s.Bool? && w.VScalar? && w.s.Bool? then Some(VScalar(Bool(f(v.s.b, w.s.b)))) else None
  }

  predicate ShortCircuits(op: BinOp, v: Value) {
    (op.And? && v == VScalar(Bool(false))) || (op.Or? && v == VScalar(Bool(true)))
  }

  function UnaryValue(op: UnOp, v: Value): Option<Value> {
    match op
    case Deref => Some(v)
    case Not => if v.VScalar? && v.s.Bool? then Some(VScalar(Bool(!v.s.b))) else None
    case Neg => if v.VScalar? && v.s.Int? then Some(VScalar(Int(-v.s.n))) else None
  }

  function OfOption(v: Option<Value>, st: State): Outcome {
    if v.Some? then Done(v.value, st) else Failed
  }

  /** A call that leaves the program. */
  function CallHost(ctx: Context, name: string, args: seq<Value>, st: State): Outcome {
    var call := HostCall(name, args);
    var reply := ctx.host(st.trace, call);
    if reply.None? then Failed else Done(reply.value, st.(trace := st.trace + [call]))
  }

  // ----- Functions -----

  /** A function of the program, and the type that `Self` means in it. */
  datatype Callee = Global(fn: Fn, selfType: string) | Nested(fn: Fn)

  /** `crate::f`, `self::f` and `super::f` are the free function `f`. */
  function Owner(segment: string, current: string): string {
    if segment == "crate" || segment == "self" || segment == "super" then FREE else Resolve(segment, current)
  }

  /**
   * The function a path names: a nested one in scope, a free one, an associated one of a type or
   * module, or a trait's default; `None` for functions outside the program.
   */
  function Target(ctx: Context, current: string, segments: seq<string>): Option<Callee>
    requires segments != []
  {
    var name := segments[|segments| - 1];
    if |segments| == 1 then
      if name in ctx.local then Some(Nested(ctx.local[name]))
      else if (FREE, name) in ctx.fns then Some(Global(ctx.fns[(FREE, name)], FREE))
      else None
    else
      var owner := Owner(segments[|segments| - 2], current);
      if (owner, name) in ctx.fns then Some(Global(ctx.fns[(owner, name)], owner))
      else if (DEFAULTS, name) in ctx.fns then Some(Global(ctx.fns[(DEFAULTS, name)], owner))
      else None
  }

  /** The method a receiver has: its type's own, or a trait's default. */
  function MethodTarget(ctx: Context, recv: Value, m: string): Option<Callee> {
    if !recv.VStruct? then None
    else if (recv.name, m) in ctx.fns then Some(Global(ctx.fns[(recv.name, m)], recv.name))
    else if (DEFAULTS, m) in ctx.fns then Some(Global(ctx.fns[(DEFAULTS, m)], recv.name))
    else None
  }

  /** The context a function's body runs in; only nested functions see the nested functions around them. */
  function Inside(ctx: Context, callee: Callee): Context {
    if callee.Nested? then ctx else ctx.(local := map[])
  }

  function SelfType(callee: Callee, current: string): string {
    if callee.Nested? then current else callee.selfType
  }

  function NestedIn(ss: seq<Stmt>): map<string, Fn> {
    if ss == [] then map[]
    else if ss[0].ItemStmt? && ss[0].nested.Some? then NestedIn(ss[1..])[ss[0].nested.value.name := ss[0].nested.value]
    else NestedIn(ss[1..])
  }

  /** The context inside a block: its nested functions are in scope throughout. */
  function Enter(ctx: Context, ss: seq<Stmt>): Context {
    ctx.(local := ctx.local + NestedIn(ss))
  }

  function Ints(lo: int, hi: int): seq<Value>
    decreases hi - lo
  {
    if lo >= hi then [] else [VScalar(Int(lo))] + Ints(lo + 1, hi)
  }

  function RangeOf(v: Value, w: Value): Option<Value> {
    if v.VScalar? && v.s.Int? && w.VScalar? && w.s.Int? then Some(VTuple(Ints(v.s.n, w.s.n))) else None
  }

  /** The fields given by the initializers, later ones winning over earlier ones and over `base`. */
  function Initialize(members: seq<FieldValue>, vs: seq<Value>, base: map<string, Value>): map<string, Value>
    requires |members| == |vs|
  {
    if members == [] then base
    else Initialize(members[1..], vs[1..], base[members[0].member := vs[0]])
  }

  /** A struct literal stores the initialized fields that the struct declares. */
  function BuildStruct(ctx: Context, name: string, fields: map<string, Value>, st: State): Outcome {
    if name !in ctx.layout then Failed
    else Done(VStruct(name, map g | g in fields && g in ctx.layout[name] :: fields[g]), st)
  }

  function Leave(o: Outcome, depth: nat): Outcome {
    match o
    case Done(v, st) => Done(v, if depth <= |st.env| then st.(env := st.env[..depth]) else st)
    case _ => o
  }

  function Frame(params: seq<string>, args: seq<Value>): seq<Binding>
    requires |params| == |args|
  {
    seq(|params|, i requires 0 <= i < |params| => Binding(params[i], args[i]))
  }

  /** The first value, as the outcome of a call. */
  function ResultOf(r: Outcomes): Outcome {
    match r
    case DoneAll(vs, st) => if vs == [] then Failed else Done(vs[0], st)
    case Stopped(o) => o
  }

  function AssignTo(target: Expr, v: Value, st: State): Outcome {
    var p := ToPlace(target);
    if p.None? then Failed
    else
      var st' := WritePlace(p.value, v, st);
      if st'.None? then Failed else Done(UNIT, st'.value)
  }

  function ReadTarget(target: Expr, st: State): Option<Value> {
    var p := ToPlace(target);
    if p.None? then None else ReadPlace(p.value, st)
  }

  // ----- Evaluation -----

  function Eval(ctx: Context, current: string, e: Expr, st: State, fuel: nat): Outcome
    decreases fuel, e, 1
  {
    match e
    case Lit(s) => Done(VScalar(s), st)
    case Path(segments) =>
      if |segments| == 1 then OfOption(ReadPlace(Place(segments[0], []), st), st)
      else Done(VScalar(Enum(segments)), st)
    case Field(base, m) =>
      (match Eval(ctx, current, base, st, fuel)
       case Done(v, st1) => OfOption(Project(v, m), st1)
       case o => o)
    case Assign(l, r) =>
      (match Eval(ctx, current, r, st, fuel)
       case Done(v, st1) => AssignTo(l, v, st1)
       case o => o)
    case Binary(op, _, _) =>
      if op.Compound? then EvalCompound(ctx, current, e, st, fuel)
      else EvalOperator(ctx, current, e, st, fuel)
    case Unary(op, x) =>
      (match Eval(ctx, current, x, st, fuel)
       case Done(v, st1) => OfOption(UnaryValue(op, v), st1)
       case o => o)
    case Call(func, args) =>
      (match EvalAll(ctx, current, args, st, fuel)
       case DoneAll(vs, st1) => EvalCall(ctx, current, func, vs, st1, fuel)
       case Stopped(o) => o)
    case MethodCall(recv, m, args) =>
      if ToPlace(recv).Some? then CallOnPlace(ctx, current, recv, m, args, st, fuel)
      else CallOnValue(ctx, current, recv, m, args, st, fuel)
    case Block(stmts) => Leave(EvalBlock(ctx, current, stmts, st, fuel), |st.env|)
    case If(c, thn, els) =>
      (match Eval(ctx, current, c, st, fuel)
       case Done(v, st1) =>
         if v == VScalar(Bool(true)) then Leave(EvalBlock(ctx, current, thn, st1, fuel), |st1.env|)
         else if v == VScalar(Bool(false)) then
           (if els.Some? then Eval(ctx, current, els.value, st1, fuel) else Done(UNIT, st1))
         else Failed
       case o => o)
    case Match(x, arms) =>
      (match Eval(ctx, current, x, st, fuel)
       case Done(v, st1) => EvalArms(ctx, current, arms, v, st1, fuel)
       case o => o)
    case While(c, body) =>
      if fuel == 0 then OutOfFuel
      else
        (match Eval(ctx, current, c, st, fuel)
         case Done(v, st1) =>
           if v == VScalar(Bool(true)) then
             (match Leave(EvalBlock(ctx, current, body, st1, fuel), |st1.env|)
              case Done(_, st2) => Eval(ctx, current, e, st2, fuel - 1)
              case o => o)
           else if v == VScalar(Bool(false)) then Done(UNIT, st1)
           else Failed
         case o => o)
    case ForLoop(p, x, body) =>
      (match Eval(ctx, current, x, st, fuel)
       case Done(v, st1) => if v.VTuple? then EvalFor(ctx, current, p, v.elems, body, st1, fuel) else Failed
       case o => o)
    case Return(x) =>
      if x.None? then Returned(UNIT, st)
      else
        (match Eval(ctx, current, x.value, st, fuel)
         case Done(v, st1) => Returned(v, st1)
         case o => o)
    case Struct(name, inits, rest) =>
      (match EvalInits(ctx, current, inits, st, fuel)
       case DoneAll(vs, st1) =>
         if rest.None? then BuildStruct(ctx, Resolve(name, current), Initialize(inits, vs, map[]), st1)
         else
           (match Eval(ctx, current, rest.value, st1, fuel)
            case Done(v, st2) =>
              if v.VStruct? && v.name == Resolve(name, current) then
                BuildStruct(ctx, v.name, Initialize(inits, vs, v.fields), st2)
              else Failed
            case o => o)
       case Stopped(o) => o)
    case Reference(x) => Eval(ctx, current, x, st, fuel)
    case Paren(x) => Eval(ctx, current, x, st, fuel)
    case Tuple(es) =>
      (match EvalAll(ctx, current, es, st, fuel)
       case DoneAll(vs, st1) => Done(VTuple(vs), st1)
       case Stopped(o) => o)
    case Range(lo, hi) =>
      (match Eval(ctx, current, lo, st, fuel)
       case Done(v, st1) =>
         (match Eval(ctx, current, hi, st1, fuel)
          case Done(w, st2) => OfOption(RangeOf(v, w), st2)
          case o => o)
       case o => o)
  }

  function EvalCompound(ctx: Context, current: string, e: Expr, st: State, fuel: nat): Outcome
    requires e.Binary?
    decreases fuel, e, 0
  {
    var Binary(op, l, r) := e;
    match Eval(ctx, current, r, st, fuel)
    case Done(w, st1) =>
      var v := ReadTarget(l, st1);
      if v.None? then Failed
      else
        var sum := BinaryValues(ctx, op, v.value, w);
        if sum.None? then Failed else AssignTo(l, sum.value, st1)
    case o => o
  }

  function EvalOperator(ctx: Context, current: string, e: Expr, st: State, fuel: nat): Outcome
    requires e.Binary?
    decreases fuel, e, 0
  {
    var Binary(op, l, r) := e;
    match Eval(ctx, current, l, st, fuel)
    case Done(v, st1) =>
      if ShortCircuits(op, v) then Done(v, st1)
      else
        (match Eval(ctx, current, r, st1, fuel)
         case Done(w, st2) => OfOption(BinaryValues(ctx, op, v, w), st2)
         case o => o)
    case o => o
  }

  /** A receiver that is a place sees the method's changes to `self`. */
  function CallOnPlace(ctx: Context, current: string, recv: Expr, m: string, args: seq<Expr>, st: State, fuel: nat): Outcome
    decreases fuel, MethodCall(recv, m, args), 0
  {
    match EvalAll(ctx, current, args, st, fuel)
    case DoneAll(vs, st1) =>
      var v := ReadTarget(recv, st1);
      if v.None? then Failed
      else
        (match Invoke(ctx, v.value, m, vs, st1, fuel)
         case DoneAll(vs', st2) =>
           (match AssignTo(recv, vs'[1], st2)
            case Done(_, st3) => Done(vs'[0], st3)
            case o => o)
         case Stopped(o) => o)
    case Stopped(o) => o
  }

  function CallOnValue(ctx: Context, current: string, recv: Expr, m: string, args: seq<Expr>, st: State, fuel: nat): Outcome
    decreases fuel, MethodCall(recv, m, args), 0
  {
    match Eval(ctx, current, recv, st, fuel)
    case Done(v, st1) =>
      (match EvalAll(ctx, current, args, st1, fuel)
       case DoneAll(vs, st2) => ResultOf(Invoke(ctx, v, m, vs, st2, fuel))
       case Stopped(o) => o)
    case o => o
  }

  /** A call through a path: a function of the program if there is one of that name, else the host. */
  function EvalCall(ctx: Context, current: string, func: Expr, args: seq<Value>, st: State, fuel: nat): Outcome
    decreases fuel, func, 0
  {
    if !func.Path? || func.segments == [] then Failed
    else
      var callee := Target(ctx, current, func.segments);
      if callee.None? then CallHost(ctx, func.segments[|func.segments| - 1], args, st)
      else if fuel == 0 then OutOfFuel
      else
        match RunFn(ctx, callee.value, current, args, st.trace, fuel - 1)
        case Done(v, st1) => Done(v, st.(trace := st1.trace))
        case o => o
  }

  /** Calls a method; the values are the result and the receiver afterwards. */
  function Invoke(ctx: Context, recv: Value, m: string, args: seq<Value>, st: State, fuel: nat): (r: Outcomes)
    ensures r.DoneAll? ==> |r.values| == 2
    decreases fuel, m, 0
  {
    var callee := MethodTarget(ctx, recv, m);
    if callee.None? then
      match CallHost(ctx, m, [recv] + args, st)
      case Done(v, st1) => DoneAll([v, recv], st1)
      case o => Stopped(o)
    else if fuel == 0 then Stopped(OutOfFuel)
    else
      match RunFn(ctx, callee.value, recv.name, [recv] + args, st.trace, fuel - 1)
      case Done(v, st1) =>
        if st1.env == [] then Stopped(Failed)
        else DoneAll([v, st1.env[0].value], st.(trace := st1.trace))
      case o => Stopped(o)
  }

  /** Runs a function in a fresh frame; the final frame still holds the parameters. */
  function RunFn(ctx: Context, callee: Callee, current: string, args: seq<Value>, trace: seq<HostCall>, fuel: nat): Outcome
    decreases fuel, callee.fn.body, 2
  {
    if |callee.fn.params| != |args| then Failed
    else
      match EvalBlock(Inside(ctx, callee), SelfType(callee, current), callee.fn.body, State(Frame(callee.fn.params, args), trace), fuel)
      case Returned(v, st) => Done(v, st)
      case o => o
  }

  /** Runs a function of the program by owner and name. */
  function Run(ctx: Context, key: (string, string), args: seq<Value>, trace: seq<HostCall>, fuel: nat): Outcome
    requires key in ctx.fns
  {
    RunFn(ctx, Global(ctx.fns[key], key.0), key.0, args, trace, fuel)
  }

  function EvalAll(ctx: Context, current: string, es: seq<Expr>, st: State, fuel: nat): (r: Outcomes)
    decreases fuel, es, 0
  {
    if es == [] then DoneAll([], st)
    else
      match Eval(ctx, current, es[0], st, fuel)
      case Done(v, st1) =>
        (match EvalAll(ctx, current, es[1..], st1, fuel)
         case DoneAll(vs, st2) => DoneAll([v] + vs, st2)
         case Stopped(o) => Stopped(o))
      case o => Stopped(o)
  }

  function EvalInits(ctx: Context, current: string, fs: seq<FieldValue>, st: State, fuel: nat): (r: Outcomes)
    ensures r.DoneAll? ==> |r.values| == |fs|
    decreases fuel, fs, 0
  {
    if fs == [] then DoneAll([], st)
    else
      match Eval(ctx, current, fs[0].expr, st, fuel)
      case Done(v, st1) =>
        (match EvalInits(ctx, current, fs[1..], st1, fuel)
         case DoneAll(vs, st2) => DoneAll([v] + vs, st2)
         case Stopped(o) => Stopped(o))
      case o => Stopped(o)
  }

  function EvalArms(ctx: Context, current: string, arms: seq<Arm>, v: Value, st: State, fuel: nat): Outcome
    decreases fuel, arms, 0
  {
    if arms == [] then Failed
    else
      match EvalArm(ctx, current, arms[0], v, st, fuel)
      case None => EvalArms(ctx, current, arms[1..], v, st, fuel)
      case Some((true, o)) => Leave(o, |st.env|)
      case Some((false, o)) =>
        // the guard was false; its effects on the state remain
        match Leave(o, |st.env|)
        case Done(_, st1) => EvalArms(ctx, current, arms[1..], v, st1, fuel)
        case o' => o'
  }

  /** `None` when the pattern does not match; else whether the arm was taken, and the outcome. */
  function EvalArm(ctx: Context, current: string, arm: Arm, v: Value, st: State, fuel: nat): Option<(bool, Outcome)>
    decreases fuel, arm, 0
  {
    match arm
    case Arm(pat, guard, body) =>
      var bound := MatchPat(pat, v, current);
      if bound.None? then None
      else
        var st1 := st.(env := st.env + bound.value);
        if guard.None? then Some((true, Eval(ctx, current, body, st1, fuel)))
        else
          match Eval(ctx, current, guard.value, st1, fuel)
          case Done(g, st2) =>
            if g == VScalar(Bool(true)) then Some((true, Eval(ctx, current, body, st2, fuel)))
            else if g == VScalar(Bool(false)) then Some((false, Done(UNIT, st2)))
            else Some((true, Failed))
          case o => Some((true, o))
  }

  function EvalFor(ctx: Context, current: string, p: Pat, vs: seq<Value>, body: seq<Stmt>, st: State, fuel: nat): Outcome
    decreases fuel, body, 1 + |vs|
  {
    if vs == [] then Done(UNIT, st)
    else
      var bound := MatchPat(p, vs[0], current);
      if bound.None? then Failed
      else
        match Leave(EvalBlock(ctx, current, body, st.(env := st.env + bound.value), fuel), |st.env|)
        case Done(_, st1) => EvalFor(ctx, current, p, vs[1..], body, st1, fuel)
        case o => o
  }

  function EvalBlock(ctx: Context, current: string, ss: seq<Stmt>, st: State, fuel: nat): Outcome
    decreases fuel, ss, 1
  {
    EvalStmts(Enter(ctx, ss), current, ss, st, fuel)
  }

  /** A block's value is that of its last expression when no semicolon follows it. */
  function EvalStmts(ctx: Context, current: string, ss: seq<Stmt>, st: State, fuel: nat): Outcome
    decreases fuel, ss, 0
  {
    if ss == [] then Done(UNIT, st)
    else
      match EvalStmt(ctx, current, ss[0], st, fuel)
      case Done(v, st1) =>
        if |ss| == 1 && ss[0].ExprStmt? && !ss[0].semi then Done(v, st1)
        else EvalStmts(ctx, current, ss[1..], st1, fuel)
      case o => o
  }

  function EvalStmt(ctx: Context, current: string, s: Stmt, st: State, fuel: nat): Outcome
    decreases fuel, s, 0
  {
    match s
    case ItemStmt(_) => Done(UNIT, st)
    case ExprStmt(e, _) => Eval(ctx, current, e, st, fuel)
    case MacroStmt(arg) =>
      (match Eval(ctx, current, arg, st, fuel)
       case Done(v, st1) => if v == VScalar(Bool(true)) then Done(UNIT, st1) else Failed
       case o => o)
    case Local(p, init) =>
      if init.None? then BindPat(p, UNIT, current, st)
      else
        match Eval(ctx, current, init.value, st, fuel)
        case Done(v, st1) => BindPat(p, v, current, st1)
        case o => o
  }

  function BindPat(p: Pat, v: Value, current: string, st: State): Outcome {
    var bound := MatchPat(p, v, current);
    if bound.None? then Failed else Done(UNIT, st.(env := st.env + bound.value))
  }
}
