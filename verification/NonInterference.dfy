/** A reported field cannot influence execution, and deleting its declaration changes nothing else. */
module NonInterference {
  import opened Wrappers
  import opened RustAst
  import opened RustSemantics
  import opened FieldMentions
  import opened Erasure

  // ----- Evaluation commutes with erasure -----

  lemma {:induction false} EvalErase(ctx: Context, cur: string, e: Expr, st: State, fuel: nat, d: FieldId)
    requires Ignores(ctx, d) && d.name !in ExprFields(e)
    ensures Eval(DeleteField(ctx, d), cur, e, EraseState(st, d), fuel) == EraseOutcome(Eval(ctx, cur, e, st, fuel), d)
    decreases fuel, e, 2
  {
    match e
    case Lit(_) =>
    case Path(_) => PathErase(ctx, cur, e, st, fuel, d);
    case Field(_, _) => FieldErase(ctx, cur, e, st, fuel, d);
    case Assign(_, _) => StoreErase(ctx, cur, e, st, fuel, d);
    case Binary(_, _, _) => BinaryErase(ctx, cur, e, st, fuel, d);
    case Unary(_, _) => UnaryErase(ctx, cur, e, st, fuel, d);
    case Call(_, _) => ApplyErase(ctx, cur, e, st, fuel, d);
    case MethodCall(_, _, _) => MethodErase(ctx, cur, e, st, fuel, d);
    case Block(stmts) => ScopeErase(ctx, cur, stmts, st, fuel, d);
    case If(_, _, _) => IfErase(ctx, cur, e, st, fuel, d);
    case Match(_, _) => MatchErase(ctx, cur, e, st, fuel, d);
    case While(_, _) =>
      if fuel > 0 {
        WhileErase(ctx, cur, e, st, fuel, d);
      }
    case ForLoop(_, _, _) => LoopErase(ctx, cur, e, st, fuel, d);
    case Return(_) => ReturnErase(ctx, cur, e, st, fuel, d);
    case Struct(_, _, _) => StructErase(ctx, cur, e, st, fuel, d);
    case Reference(x) => EvalErase(ctx, cur, x, st, fuel, d);
    case Paren(x) => EvalErase(ctx, cur, x, st, fuel, d);
    case Tuple(_) => TupleErase(ctx, cur, e, st, fuel, d);
    case Range(_, _) => RangeErase(ctx, cur, e, st, fuel, d);
  }

  lemma {:induction false} UnaryErase(ctx: Context, cur: string, e: Expr, st: State, fuel: nat, d: FieldId)
    requires Ignores(ctx, d) && e.Unary? && d.name !in ExprFields(e)
    ensures Eval(DeleteField(ctx, d), cur, e, EraseState(st, d), fuel) == EraseOutcome(Eval(ctx, cur, e, st, fuel), d)
    decreases fuel, e, 1
  {
    EvalErase(ctx, cur, e.operand, st, fuel, d);
  }

  lemma {:induction false} BinaryErase(ctx: Context, cur: string, e: Expr, st: State, fuel: nat, d: FieldId)
    requires Ignores(ctx, d) && e.Binary? && d.name !in ExprFields(e)
    ensures Eval(DeleteField(ctx, d), cur, e, EraseState(st, d), fuel) == EraseOutcome(Eval(ctx, cur, e, st, fuel), d)
    decreases fuel, e, 1
  {
    if e.op.Compound? {
      CompoundErase(ctx, cur, e, st, fuel, d);
    } else {
      OperatorErase(ctx, cur, e, st, fuel, d);
    }
  }

  lemma {:induction false} MethodErase(ctx: Context, cur: string, e: Expr, st: State, fuel: nat, d: FieldId)
    requires Ignores(ctx, d) && e.MethodCall? && d.name !in ExprFields(e)
    ensures Eval(DeleteField(ctx, d), cur, e, EraseState(st, d), fuel) == EraseOutcome(Eval(ctx, cur, e, st, fuel), d)
    decreases fuel, e, 1
  {
    if ToPlace(e.receiver).Some? {
      PlaceMethodErase(ctx, cur, e.receiver, e.method_, e.args, st, fuel, d);
    } else {
      ValueMethodErase(ctx, cur, e.receiver, e.method_, e.args, st, fuel, d);
    }
  }

  lemma {:induction false} ReturnErase(ctx: Context, cur: string, e: Expr, st: State, fuel: nat, d: FieldId)
    requires Ignores(ctx, d) && e.Return? && d.name !in ExprFields(e)
    ensures Eval(DeleteField(ctx, d), cur, e, EraseState(st, d), fuel) == EraseOutcome(Eval(ctx, cur, e, st, fuel), d)
    decreases fuel, e, 1
  {
    if e.result.Some? {
      EvalErase(ctx, cur, e.result.value, st, fuel, d);
    }
  }

  /** A block in its own scope. */
  lemma {:induction false} ScopeErase(ctx: Context, cur: string, ss: seq<Stmt>, st: State, fuel: nat, d: FieldId)
    requires Ignores(ctx, d) && d.name !in StmtsFields(ss)
    ensures Leave(EvalBlock(DeleteField(ctx, d), cur, ss, EraseState(st, d), fuel), |st.env|)
         == EraseOutcome(Leave(EvalBlock(ctx, cur, ss, st, fuel), |st.env|), d)
    decreases fuel, ss, 2
  {
    BlockErase(ctx, cur, ss, st, fuel, d);
    EraseLeave(EvalBlock(ctx, cur, ss, st, fuel), |st.env|, d);
  }

  lemma PathErase(ctx: Context, cur: string, e: Expr, st: State, fuel: nat, d: FieldId)
    requires e.Path?
    ensures Eval(DeleteField(ctx, d), cur, e, EraseState(st, d), fuel) == EraseOutcome(Eval(ctx, cur, e, st, fuel), d)
  {
    if |e.segments| == 1 {
      EraseRead(Place(e.segments[0], []), st, d);
    }
  }

  lemma {:induction false} FieldErase(ctx: Context, cur: string, e: Expr, st: State, fuel: nat, d: FieldId)
    requires Ignores(ctx, d) && e.Field? && d.name !in ExprFields(e)
    ensures Eval(DeleteField(ctx, d), cur, e, EraseState(st, d), fuel) == EraseOutcome(Eval(ctx, cur, e, st, fuel), d)
    decreases fuel, e, 0
  {
    EvalErase(ctx, cur, e.base, st, fuel, d);
    var o := Eval(ctx, cur, e.base, st, fuel);
    if o.Done? {
      EraseProject(o.value, e.member, d);
    }
  }

  lemma {:induction false} StoreErase(ctx: Context, cur: string, e: Expr, st: State, fuel: nat, d: FieldId)
    requires Ignores(ctx, d) && e.Assign? && d.name !in ExprFields(e)
    ensures Eval(DeleteField(ctx, d), cur, e, EraseState(st, d), fuel) == EraseOutcome(Eval(ctx, cur, e, st, fuel), d)
    decreases fuel, e, 0
  {
    EvalErase(ctx, cur, e.right, st, fuel, d);
    var o := Eval(ctx, cur, e.right, st, fuel);
    if o.Done? {
      EraseAssign(e.left, o.value, o.st, d);
    }
  }

  lemma {:induction false} ApplyErase(ctx: Context, cur: string, e: Expr, st: State, fuel: nat, d: FieldId)
    requires Ignores(ctx, d) && e.Call? && d.name !in ExprFields(e)
    ensures Eval(DeleteField(ctx, d), cur, e, EraseState(st, d), fuel) == EraseOutcome(Eval(ctx, cur, e, st, fuel), d)
    decreases fuel, e, 0
  {
    AllErase(ctx, cur, e.args, st, fuel, d);
    var o := EvalAll(ctx, cur, e.args, st, fuel);
    if o.DoneAll? {
      CallErase(ctx, cur, e.func, o.values, o.st, fuel, d);
    }
  }

  lemma {:induction false} MatchErase(ctx: Context, cur: string, e: Expr, st: State, fuel: nat, d: FieldId)
    requires Ignores(ctx, d) && e.Match? && d.name !in ExprFields(e)
    ensures Eval(DeleteField(ctx, d), cur, e, EraseState(st, d), fuel) == EraseOutcome(Eval(ctx, cur, e, st, fuel), d)
    decreases fuel, e, 0
  {
    EvalErase(ctx, cur, e.scrutinee, st, fuel, d);
    var o := Eval(ctx, cur, e.scrutinee, st, fuel);
    if o.Done? {
      ArmsErase(ctx, cur, e.arms, o.value, o.st, fuel, d);
    }
  }

  lemma {:induction false} LoopErase(ctx: Context, cur: string, e: Expr, st: State, fuel: nat, d: FieldId)
    requires Ignores(ctx, d) && e.ForLoop? && d.name !in ExprFields(e)
    ensures Eval(DeleteField(ctx, d), cur, e, EraseState(st, d), fuel) == EraseOutcome(Eval(ctx, cur, e, st, fuel), d)
    decreases fuel, e, 0
  {
    EvalErase(ctx, cur, e.iter, st, fuel, d);
    var o := Eval(ctx, cur, e.iter, st, fuel);
    if o.Done? && o.value.VTuple? {
      ForErase(ctx, cur, e.pat, o.value.elems, e.body, o.st, fuel, d);
    }
  }

  lemma {:induction false} TupleErase(ctx: Context, cur: string, e: Expr, st: State, fuel: nat, d: FieldId)
    requires Ignores(ctx, d) && e.Tuple? && d.name !in ExprFields(e)
    ensures Eval(DeleteField(ctx, d), cur, e, EraseState(st, d), fuel) == EraseOutcome(Eval(ctx, cur, e, st, fuel), d)
    decreases fuel, e, 1
  {
    AllErase(ctx, cur, e.elems, st, fuel, d);
  }

  lemma {:induction false} RangeErase(ctx: Context, cur: string, e: Expr, st: State, fuel: nat, d: FieldId)
    requires Ignores(ctx, d) && e.Range? && d.name !in ExprFields(e)
    ensures Eval(DeleteField(ctx, d), cur, e, EraseState(st, d), fuel) == EraseOutcome(Eval(ctx, cur, e, st, fuel), d)
    decreases fuel, e, 0
  {
    EvalErase(ctx, cur, e.lo, st, fuel, d);
    var o := Eval(ctx, cur, e.lo, st, fuel);
    if o.Done? {
      EvalErase(ctx, cur, e.hi, o.st, fuel, d);
      var o' := Eval(ctx, cur, e.hi, o.st, fuel);
      if o'.Done? {
        EraseRange(o.value, o'.value, d);
      }
    }
  }

  lemma {:induction false} CompoundErase(ctx: Context, cur: string, e: Expr, st: State, fuel: nat, d: FieldId)
    requires Ignores(ctx, d) && e.Binary? && d.name !in ExprFields(e)
    ensures EvalCompound(DeleteField(ctx, d), cur, e, EraseState(st, d), fuel)
         == EraseOutcome(EvalCompound(ctx, cur, e, st, fuel), d)
    decreases fuel, e, 0
  {
    var Binary(op, l, r) := e;
    EvalErase(ctx, cur, r, st, fuel, d);
    var o := Eval(ctx, cur, r, st, fuel);
    if o.Done? {
      EraseReadTarget(l, o.st, d);
      var v := ReadTarget(l, o.st);
      if v.Some? {
        EraseBinaryValues(ctx, op, v.value, o.value, d);
        var sum := BinaryValues(ctx, op, v.value, o.value);
        if sum.Some? {
          EraseAssign(l, sum.value, o.st, d);
        }
      }
    }
  }

  lemma {:induction false} OperatorErase(ctx: Context, cur: string, e: Expr, st: State, fuel: nat, d: FieldId)
    requires Ignores(ctx, d) && e.Binary? && d.name !in ExprFields(e)
    ensures EvalOperator(DeleteField(ctx, d), cur, e, EraseState(st, d), fuel)
         == EraseOutcome(EvalOperator(ctx, cur, e, st, fuel), d)
    decreases fuel, e, 0
  {
    var Binary(op, l, r) := e;
    EvalErase(ctx, cur, l, st, fuel, d);
    var o := Eval(ctx, cur, l, st, fuel);
    if o.Done? {
      EvalErase(ctx, cur, r, o.st, fuel, d);
      var o' := Eval(ctx, cur, r, o.st, fuel);
      if o'.Done? {
        EraseBinaryValues(ctx, op, o.value, o'.value, d);
      }
    }
  }

  lemma {:induction false} PlaceMethodErase(ctx: Context, cur: string, recv: Expr, m: string, args: seq<Expr>, st: State, fuel: nat, d: FieldId)
    requires Ignores(ctx, d) && d.name !in ExprFields(recv) + ExprsFields(args)
    ensures CallOnPlace(DeleteField(ctx, d), cur, recv, m, args, EraseState(st, d), fuel)
         == EraseOutcome(CallOnPlace(ctx, cur, recv, m, args, st, fuel), d)
    decreases fuel, MethodCall(recv, m, args), 0
  {
    AllErase(ctx, cur, args, st, fuel, d);
    var o := EvalAll(ctx, cur, args, st, fuel);
    if o.DoneAll? {
      EraseReadTarget(recv, o.st, d);
      var v := ReadTarget(recv, o.st);
      if v.Some? {
        InvokeErase(ctx, v.value, m, o.values, o.st, fuel, d);
        var o' := Invoke(ctx, v.value, m, o.values, o.st, fuel);
        if o'.DoneAll? {
          EraseAssign(recv, o'.values[1], o'.st, d);
        }
      }
    }
  }

  lemma {:induction false} ValueMethodErase(ctx: Context, cur: string, recv: Expr, m: string, args: seq<Expr>, st: State, fuel: nat, d: FieldId)
    requires Ignores(ctx, d) && d.name !in ExprFields(recv) + ExprsFields(args)
    ensures CallOnValue(DeleteField(ctx, d), cur, recv, m, args, EraseState(st, d), fuel)
         == EraseOutcome(CallOnValue(ctx, cur, recv, m, args, st, fuel), d)
    decreases fuel, MethodCall(recv, m, args), 0
  {
    EvalErase(ctx, cur, recv, st, fuel, d);
    var o := Eval(ctx, cur, recv, st, fuel);
    if o.Done? {
      AllErase(ctx, cur, args, o.st, fuel, d);
      var o' := EvalAll(ctx, cur, args, o.st, fuel);
      if o'.DoneAll? {
        InvokeErase(ctx, o.value, m, o'.values, o'.st, fuel, d);
        EraseResult(Invoke(ctx, o.value, m, o'.values, o'.st, fuel), d);
      }
    }
  }

  lemma {:induction false} IfErase(ctx: Context, cur: string, e: Expr, st: State, fuel: nat, d: FieldId)
    requires Ignores(ctx, d) && e.If? && d.name !in ExprFields(e)
    ensures Eval(DeleteField(ctx, d), cur, e, EraseState(st, d), fuel) == EraseOutcome(Eval(ctx, cur, e, st, fuel), d)
    decreases fuel, e, 1
  {
    EvalErase(ctx, cur, e.cond, st, fuel, d);
    var o := Eval(ctx, cur, e.cond, st, fuel);
    if o.Done? {
      ScopeErase(ctx, cur, e.thenBranch, o.st, fuel, d);
      if e.elseBranch.Some? {
        EvalErase(ctx, cur, e.elseBranch.value, o.st, fuel, d);
      }
    }
  }

  lemma {:induction false} WhileErase(ctx: Context, cur: string, e: Expr, st: State, fuel: nat, d: FieldId)
    requires Ignores(ctx, d) && e.While? && fuel > 0 && d.name !in ExprFields(e)
    ensures Eval(DeleteField(ctx, d), cur, e, EraseState(st, d), fuel) == EraseOutcome(Eval(ctx, cur, e, st, fuel), d)
    decreases fuel, e, 1
  {
    EvalErase(ctx, cur, e.cond, st, fuel, d);
    var o := Eval(ctx, cur, e.cond, st, fuel);
    if o.Done? {
      ScopeErase(ctx, cur, e.body, o.st, fuel, d);
      var b := Leave(EvalBlock(ctx, cur, e.body, o.st, fuel), |o.st.env|);
      if b.Done? {
        EvalErase(ctx, cur, e, b.st, fuel - 1, d);
      }
    }
  }

  lemma {:induction false} StructErase(ctx: Context, cur: string, e: Expr, st: State, fuel: nat, d: FieldId)
    requires Ignores(ctx, d) && e.Struct? && d.name !in ExprFields(e)
    ensures Eval(DeleteField(ctx, d), cur, e, EraseState(st, d), fuel) == EraseOutcome(Eval(ctx, cur, e, st, fuel), d)
    decreases fuel, e, 1
  {
    InitsErase(ctx, cur, e.inits, st, fuel, d);
    var o := EvalInits(ctx, cur, e.inits, st, fuel);
    if o.DoneAll? {
      if e.rest.None? {
        var owner := Resolve(e.name, cur);
        EraseInitialize(owner, e.inits, o.values, map[], map[], d);
        EraseBuild(ctx, owner, Initialize(e.inits, o.values, map[]), Initialize(e.inits, EraseValues(o.values, d), map[]), o.st, d);
      } else {
        EvalErase(ctx, cur, e.rest.value, o.st, fuel, d);
        var o' := Eval(ctx, cur, e.rest.value, o.st, fuel);
        if o'.Done? && o'.value.VStruct? {
          var base, base' := o'.value.fields, EraseValue(o'.value, d).fields;
          assert base' - Lost(o'.value.name, d) == EraseFields(o'.value.name, base, d);
          EraseInitialize(o'.value.name, e.inits, o.values, base, base', d);
          EraseBuild(ctx, o'.value.name, Initialize(e.inits, o.values, base),
                     Initialize(e.inits, EraseValues(o.values, d), base'), o'.st, d);
        }
      }
    }
  }

  lemma {:induction false} CallErase(ctx: Context, cur: string, func: Expr, args: seq<Value>, st: State, fuel: nat, d: FieldId)
    requires Ignores(ctx, d)
    ensures EvalCall(DeleteField(ctx, d), cur, func, EraseValues(args, d), EraseState(st, d), fuel)
         == EraseOutcome(EvalCall(ctx, cur, func, args, st, fuel), d)
    decreases fuel, func, 0
  {
    if func.Path? && func.segments != [] {
      var callee := Target(ctx, cur, func.segments);
      if callee.None? {
        EraseHost(ctx, func.segments[|func.segments| - 1], args, st, d);
      } else if fuel > 0 {
        CalleeErase(ctx, callee.value, cur, args, st.trace, fuel - 1, d);
      }
    }
  }

  lemma {:induction false} InvokeErase(ctx: Context, recv: Value, m: string, args: seq<Value>, st: State, fuel: nat, d: FieldId)
    requires Ignores(ctx, d)
    ensures Invoke(DeleteField(ctx, d), EraseValue(recv, d), m, EraseValues(args, d), EraseState(st, d), fuel)
         == EraseOutcomes(Invoke(ctx, recv, m, args, st, fuel), d)
    decreases fuel, m, 0
  {
    EraseValuesCons(recv, args, d);
    var callee := MethodTarget(ctx, recv, m);
    if callee.None? {
      EraseHost(ctx, m, [recv] + args, st, d);
    } else if fuel > 0 {
      CalleeErase(ctx, callee.value, recv.name, [recv] + args, st.trace, fuel - 1, d);
    }
  }

  lemma {:induction false} CalleeErase(ctx: Context, callee: Callee, cur: string, args: seq<Value>, trace: seq<HostCall>, fuel: nat, d: FieldId)
    requires Ignores(ctx, d) && d.name !in StmtsFields(callee.fn.body)
    ensures RunFn(DeleteField(ctx, d), callee, cur, EraseValues(args, d), EraseTrace(trace, d), fuel)
         == EraseOutcome(RunFn(ctx, callee, cur, args, trace, fuel), d)
    decreases fuel, callee.fn.body, 2
  {
    if |callee.fn.params| == |args| {
      EraseFrame(callee.fn.params, args, d);
      InsideIgnores(ctx, callee, d);
      BlockErase(Inside(ctx, callee), SelfType(callee, cur), callee.fn.body, State(Frame(callee.fn.params, args), trace), fuel, d);
    }
  }

  /** Running any function of the program. */
  lemma RunErase(ctx: Context, key: (string, string), args: seq<Value>, trace: seq<HostCall>, fuel: nat, d: FieldId)
    requires Ignores(ctx, d) && key in ctx.fns
    ensures Run(DeleteField(ctx, d), key, EraseValues(args, d), EraseTrace(trace, d), fuel)
         == EraseOutcome(Run(ctx, key, args, trace, fuel), d)
  {
    CalleeErase(ctx, Global(ctx.fns[key], key.0), key.0, args, trace, fuel, d);
  }

  lemma {:induction false} AllErase(ctx: Context, cur: string, es: seq<Expr>, st: State, fuel: nat, d: FieldId)
    requires Ignores(ctx, d) && d.name !in ExprsFields(es)
    ensures EvalAll(DeleteField(ctx, d), cur, es, EraseState(st, d), fuel)
         == EraseOutcomes(EvalAll(ctx, cur, es, st, fuel), d)
    decreases fuel, es, 0
  {
    if es == [] {
      assert EraseValues([], d) == [];
    } else {
      EvalErase(ctx, cur, es[0], st, fuel, d);
      var o := Eval(ctx, cur, es[0], st, fuel);
      if o.Done? {
        AllErase(ctx, cur, es[1..], o.st, fuel, d);
        var o' := EvalAll(ctx, cur, es[1..], o.st, fuel);
        if o'.DoneAll? {
          EraseValuesCons(o.value, o'.values, d);
        }
      }
    }
  }

  lemma {:induction false} InitsErase(ctx: Context, cur: string, fs: seq<FieldValue>, st: State, fuel: nat, d: FieldId)
    requires Ignores(ctx, d) && d.name !in InitsFields(fs)
    ensures EvalInits(DeleteField(ctx, d), cur, fs, EraseState(st, d), fuel)
         == EraseOutcomes(EvalInits(ctx, cur, fs, st, fuel), d)
    decreases fuel, fs, 0
  {
    if fs == [] {
      assert EraseValues([], d) == [];
    } else {
      EvalErase(ctx, cur, fs[0].expr, st, fuel, d);
      var o := Eval(ctx, cur, fs[0].expr, st, fuel);
      if o.Done? {
        InitsErase(ctx, cur, fs[1..], o.st, fuel, d);
        var o' := EvalInits(ctx, cur, fs[1..], o.st, fuel);
        if o'.DoneAll? {
          EraseValuesCons(o.value, o'.values, d);
        }
      }
    }
  }

  lemma {:induction false} ArmsErase(ctx: Context, cur: string, arms: seq<Arm>, v: Value, st: State, fuel: nat, d: FieldId)
    requires Ignores(ctx, d) && d.name !in ArmsFields(arms)
    ensures EvalArms(DeleteField(ctx, d), cur, arms, EraseValue(v, d), EraseState(st, d), fuel)
         == EraseOutcome(EvalArms(ctx, cur, arms, v, st, fuel), d)
    decreases fuel, arms, 0
  {
    if arms == [] {
    } else {
      ArmErase(ctx, cur, arms[0], v, st, fuel, d);
      var a := EvalArm(ctx, cur, arms[0], v, st, fuel);
      if a.None? {
        ArmsErase(ctx, cur, arms[1..], v, st, fuel, d);
      } else {
        EraseLeave(a.value.1, |st.env|, d);
        var o := Leave(a.value.1, |st.env|);
        if o.Done? {
          ArmsErase(ctx, cur, arms[1..], v, o.st, fuel, d);
        }
      }
    }
  }

  function EraseTaken(a: Option<(bool, Outcome)>, d: FieldId): Option<(bool, Outcome)> {
    if a.Some? then Some((a.value.0, EraseOutcome(a.value.1, d))) else None
  }

  lemma {:induction false} ArmErase(ctx: Context, cur: string, arm: Arm, v: Value, st: State, fuel: nat, d: FieldId)
    requires Ignores(ctx, d) && d.name !in ArmFields(arm)
    ensures EvalArm(DeleteField(ctx, d), cur, arm, EraseValue(v, d), EraseState(st, d), fuel)
         == EraseTaken(EvalArm(ctx, cur, arm, v, st, fuel), d)
    decreases fuel, arm, 0
  {
    match arm
    case Arm(pat, guard, body) =>
      EraseMatch(pat, v, cur, d);
      var bound := MatchPat(pat, v, cur);
      if bound.Some? {
        EraseExtend(st, bound.value, d);
        var st1 := st.(env := st.env + bound.value);
        if guard.None? {
          EvalErase(ctx, cur, body, st1, fuel, d);
        } else {
          EvalErase(ctx, cur, guard.value, st1, fuel, d);
          var o := Eval(ctx, cur, guard.value, st1, fuel);
          if o.Done? {
            EvalErase(ctx, cur, body, o.st, fuel, d);
          }
        }
      }
  }

  lemma {:induction false} ForErase(ctx: Context, cur: string, p: Pat, vs: seq<Value>, body: seq<Stmt>, st: State, fuel: nat, d: FieldId)
    requires Ignores(ctx, d) && d.name !in PatFields(p) + StmtsFields(body)
    ensures EvalFor(DeleteField(ctx, d), cur, p, EraseValues(vs, d), body, EraseState(st, d), fuel)
         == EraseOutcome(EvalFor(ctx, cur, p, vs, body, st, fuel), d)
    decreases fuel, body, 1 + |vs|
  {
    if vs == [] {
    } else {
      EraseMatch(p, vs[0], cur, d);
      assert EraseValues(vs, d)[1..] == EraseValues(vs[1..], d);
      var bound := MatchPat(p, vs[0], cur);
      if bound.Some? {
        EraseExtend(st, bound.value, d);
        var st1 := st.(env := st.env + bound.value);
        BlockErase(ctx, cur, body, st1, fuel, d);
        var b := EvalBlock(ctx, cur, body, st1, fuel);
        EraseLeave(b, |st.env|, d);
        var o := Leave(b, |st.env|);
        if o.Done? {
          ForErase(ctx, cur, p, vs[1..], body, o.st, fuel, d);
        }
      }
    }
  }

  lemma {:induction false} BlockErase(ctx: Context, cur: string, ss: seq<Stmt>, st: State, fuel: nat, d: FieldId)
    requires Ignores(ctx, d) && d.name !in StmtsFields(ss)
    ensures EvalBlock(DeleteField(ctx, d), cur, ss, EraseState(st, d), fuel)
         == EraseOutcome(EvalBlock(ctx, cur, ss, st, fuel), d)
    decreases fuel, ss, 1
  {
    EnterIgnores(ctx, ss, d);
    StmtsErase(Enter(ctx, ss), cur, ss, st, fuel, d);
  }

  lemma {:induction false} StmtsErase(ctx: Context, cur: string, ss: seq<Stmt>, st: State, fuel: nat, d: FieldId)
    requires Ignores(ctx, d) && d.name !in StmtsFields(ss)
    ensures EvalStmts(DeleteField(ctx, d), cur, ss, EraseState(st, d), fuel)
         == EraseOutcome(EvalStmts(ctx, cur, ss, st, fuel), d)
    decreases fuel, ss, 0
  {
    if ss == [] {
    } else {
      StmtErase(ctx, cur, ss[0], st, fuel, d);
      var o := EvalStmt(ctx, cur, ss[0], st, fuel);
      if o.Done? {
        StmtsErase(ctx, cur, ss[1..], o.st, fuel, d);
      }
    }
  }

  lemma {:induction false} StmtErase(ctx: Context, cur: string, s: Stmt, st: State, fuel: nat, d: FieldId)
    requires Ignores(ctx, d) && d.name !in StmtFields(s)
    ensures EvalStmt(DeleteField(ctx, d), cur, s, EraseState(st, d), fuel)
         == EraseOutcome(EvalStmt(ctx, cur, s, st, fuel), d)
    decreases fuel, s, 0
  {
    match s
    case ItemStmt(_) =>
    case ExprStmt(e, _) => EvalErase(ctx, cur, e, st, fuel, d);
    case MacroStmt(arg) => EvalErase(ctx, cur, arg, st, fuel, d);
    case Local(p, init) =>
      if init.None? {
        BindErase(p, UNIT, cur, st, d);
      } else {
        EvalErase(ctx, cur, init.value, st, fuel, d);
        var o := Eval(ctx, cur, init.value, st, fuel);
        if o.Done? {
          BindErase(p, o.value, cur, o.st, d);
        }
      }
  }

  lemma BindErase(p: Pat, v: Value, cur: string, st: State, d: FieldId)
    requires d.name !in PatFields(p)
    ensures BindPat(p, EraseValue(v, d), cur, EraseState(st, d)) == EraseOutcome(BindPat(p, v, cur, st), d)
  {
    EraseMatch(p, v, cur, d);
    var bound := MatchPat(p, v, cur);
    if bound.Some? {
      EraseExtend(st, bound.value, d);
    }
  }
}
