/**
 * Which names the traversal collects, said without the traversal: the places it visits are given by a
 * relation between neighbouring nodes of the syntax tree, and the names by what stands at a place.
 */
module VisitedPlaces {
  import opened Wrappers
  import opened RustAst
  import opened RuleEngine
  import opened Sequences
  import opened UnusedStateVariables

  datatype Node = E(e: Expr) | S(s: Stmt) | P(p: Pat)

  // ----- Visited places -----

  /** The traversal goes from one node straight on to another. */
  predicate Steps(from: Node, to: Node) {
    match from
    case E(e) => ExprSteps(e, to)
    case S(s) => StmtSteps(s, to)
    case P(p) => PatSteps(p, to)
  }

  predicate IsOneOf(to: Node, es: seq<Expr>) {
    to.E? && exists i :: 0 <= i < |es| && es[i] == to.e
  }

  predicate IsStmtOf(to: Node, ss: seq<Stmt>) {
    to.S? && exists i :: 0 <= i < |ss| && ss[i] == to.s
  }

  predicate IsPatOf(to: Node, ps: seq<Pat>) {
    to.P? && exists i :: 0 <= i < |ps| && ps[i] == to.p
  }

  predicate IsValueOf(to: Node, o: Option<Expr>) {
    o.Some? && to == E(o.value)
  }

  predicate ExprSteps(e: Expr, to: Node) {
    match e
    case Field(base, _) => to == E(base)
    case Assign(l, r) => to == E(l) || to == E(r)
    case MethodCall(recv, _, args) => to == E(recv) || IsOneOf(to, args)
    case Binary(_, l, r) => to == E(l) || to == E(r)
    case Unary(_, x) => to == E(x)
    case Call(func, args) => to == E(func) || IsOneOf(to, args)
    case Block(stmts) => IsStmtOf(to, stmts)
    case If(c, thn, els) => to == E(c) || IsStmtOf(to, thn) || IsValueOf(to, els)
    case Match(x, arms) => to == E(x) || (to.E? && exists i :: 0 <= i < |arms| && arms[i].body == to.e)
    case While(c, body) => to == E(c) || IsStmtOf(to, body)
    case ForLoop(p, x, body) => to == P(p) || to == E(x) || IsStmtOf(to, body)
    case Return(x) => IsValueOf(to, x)
    case Struct(_, inits, rest) => (to.E? && exists i :: 0 <= i < |inits| && inits[i].expr == to.e) || IsValueOf(to, rest)
    case _ => false
  }

  predicate StmtSteps(s: Stmt, to: Node) {
    match s
    case Local(p, init) => to == P(p) || IsValueOf(to, init)
    case ExprStmt(e, _) => to == E(e)
    case _ => false
  }

  predicate PatSteps(p: Pat, to: Node) {
    match p
    case PTuple(ps) => IsPatOf(to, ps)
    case PTupleStruct(_, ps) => IsPatOf(to, ps)
    case PStruct(_, fs) => to.P? && exists i :: 0 <= i < |fs| && fs[i].pat == to.p
    case PReference(q) => to == P(q)
    case _ => false
  }

  /** A way of the traversal from one node to another. */
  predicate Leads(way: seq<Node>, from: Node, to: Node) {
    && way != [] && way[0] == from && way[|way| - 1] == to
    && forall i :: 0 <= i < |way| - 1 ==> Steps(way[i], way[i + 1])
  }

  /** What stands at a place: the member of a field access, the last segment of a path that is no keyword, or a bound variable. */
  predicate Names(place: Node, name: string) {
    match place
    case E(Field(_, member)) => member == Named(name)
    case E(Path(segments)) => segments != [] && segments[|segments| - 1] == name && !IsRustKeyword(name)
    case P(PIdent(x)) => x == name
    case _ => false
  }

  ghost predicate NamedFrom(from: Node, name: string) {
    exists way, place :: Leads(way, from, place) && Names(place, name)
  }

  /** The name stands at a place visited from some statement of some function. */
  ghost predicate Occurs(fns: seq<Fn>, name: string) {
    exists k, j :: 0 <= k < |fns| && 0 <= j < |fns[k].body| && NamedFrom(S(fns[k].body[j]), name)
  }

  // ----- A visited name is collected -----

  function Collected(n: Node): set<string> {
    match n
    case E(e) => ExprVars(e)
    case S(s) => StmtVars(s)
    case P(p) => PatVars(p)
  }

  lemma {:induction false} ExprsMember(es: seq<Expr>, i: nat)
    requires i < |es|
    ensures ExprVars(es[i]) <= ExprsVars(es)
  {
    if i == 0 {
    } else {
      ExprsMember(es[1..], i - 1);
    }
  }

  lemma {:induction false} StmtsMember(ss: seq<Stmt>, i: nat)
    requires i < |ss|
    ensures StmtVars(ss[i]) <= StmtsVars(ss)
  {
    if i == 0 {
    } else {
      StmtsMember(ss[1..], i - 1);
    }
  }

  lemma {:induction false} PatsMember(ps: seq<Pat>, i: nat)
    requires i < |ps|
    ensures PatVars(ps[i]) <= PatsVars(ps)
  {
    if i == 0 {
    } else {
      PatsMember(ps[1..], i - 1);
    }
  }

  lemma {:induction false} FieldPatsMember(fs: seq<FieldPat>, i: nat)
    requires i < |fs|
    ensures PatVars(fs[i].pat) <= FieldPatsVars(fs)
  {
    if i == 0 {
    } else {
      FieldPatsMember(fs[1..], i - 1);
    }
  }

  lemma {:induction false} ArmsMember(arms: seq<Arm>, i: nat)
    requires i < |arms|
    ensures ExprVars(arms[i].body) <= ArmsVars(arms)
  {
    if i == 0 {
      assert arms[0] == Arm(arms[0].pat, arms[0].guard, arms[0].body);
    } else {
      ArmsMember(arms[1..], i - 1);
    }
  }

  lemma {:induction false} InitsMember(fs: seq<FieldValue>, i: nat)
    requires i < |fs|
    ensures ExprVars(fs[i].expr) <= InitsVars(fs)
  {
    if i == 0 {
    } else {
      InitsMember(fs[1..], i - 1);
    }
  }

  lemma ListStep(to: Node, es: seq<Expr>, ss: seq<Stmt>, ps: seq<Pat>)
    ensures IsOneOf(to, es) ==> Collected(to) <= ExprsVars(es)
    ensures IsStmtOf(to, ss) ==> Collected(to) <= StmtsVars(ss)
    ensures IsPatOf(to, ps) ==> Collected(to) <= PatsVars(ps)
  {
    if IsOneOf(to, es) {
      var i :| 0 <= i < |es| && es[i] == to.e;
      ExprsMember(es, i);
    }
    if IsStmtOf(to, ss) {
      var i :| 0 <= i < |ss| && ss[i] == to.s;
      StmtsMember(ss, i);
    }
    if IsPatOf(to, ps) {
      var i :| 0 <= i < |ps| && ps[i] == to.p;
      PatsMember(ps, i);
    }
  }

  lemma ExprStepCollects(e: Expr, to: Node)
    requires ExprSteps(e, to)
    ensures Collected(to) <= ExprVars(e)
  {
    match e
    case MethodCall(_, _, args) => ListStep(to, args, [], []);
    case Call(_, args) => ListStep(to, args, [], []);
    case Block(stmts) => ListStep(to, [], stmts, []);
    case If(_, thn, els) => ListStep(to, [], thn, []);
    case While(_, body) => ListStep(to, [], body, []);
    case ForLoop(_, _, body) => ListStep(to, [], body, []);
    case Match(x, arms) =>
      if to != E(x) {
        var i :| 0 <= i < |arms| && arms[i].body == to.e;
        ArmsMember(arms, i);
      }
    case Struct(_, inits, rest) =>
      if !IsValueOf(to, rest) {
        var i :| 0 <= i < |inits| && inits[i].expr == to.e;
        InitsMember(inits, i);
      }
    case _ =>
  }

  lemma StmtStepCollects(s: Stmt, to: Node)
    requires StmtSteps(s, to)
    ensures Collected(to) <= StmtVars(s)
  {
    match s
    case Local(p, init) =>
      if to != P(p) {
        assert OptVars(init) == ExprVars(to.e);
      }
    case _ =>
  }

  lemma PatStepCollects(p: Pat, to: Node)
    requires PatSteps(p, to)
    ensures Collected(to) <= PatVars(p)
  {
    match p
    case PTuple(ps) => ListStep(to, [], [], ps);
    case PTupleStruct(_, ps) => ListStep(to, [], [], ps);
    case PStruct(_, fs) =>
      var i :| 0 <= i < |fs| && fs[i].pat == to.p;
      FieldPatsMember(fs, i);
    case _ =>
  }

  lemma StepCollects(from: Node, to: Node)
    requires Steps(from, to)
    ensures Collected(to) <= Collected(from)
  {
    match from
    case E(e) => ExprStepCollects(e, to);
    case S(s) => StmtStepCollects(s, to);
    case P(p) => PatStepCollects(p, to);
  }

  lemma {:induction false} WayCollects(way: seq<Node>, from: Node, place: Node, name: string)
    requires Leads(way, from, place) && Names(place, name)
    ensures name in Collected(from)
    decreases |way|
  {
    if |way| == 1 {
    } else {
      var rest := way[1..];
      forall i | 0 <= i < |rest| - 1
        ensures Steps(rest[i], rest[i + 1])
      {
        assert rest[i] == way[i + 1] && rest[i + 1] == way[i + 1 + 1];
      }
      WayCollects(rest, way[1], place, name);
      StepCollects(way[0], way[1]);
    }
  }

  // ----- A collected name is visited -----

  lemma FromHere(n: Node, name: string)
    requires Names(n, name)
    ensures NamedFrom(n, name)
  {
    assert Leads([n], n, n);
  }

  lemma FromNext(from: Node, to: Node, name: string)
    requires Steps(from, to) && NamedFrom(to, name)
    ensures NamedFrom(from, name)
  {
    var way, place :| Leads(way, to, place) && Names(place, name);
    var longer := [from] + way;
    forall i | 0 <= i < |longer| - 1
      ensures Steps(longer[i], longer[i + 1])
    {
      if i > 0 {
        assert longer[i] == way[i - 1] && longer[i + 1] == way[i - 1 + 1];
      }
    }
    assert Leads(longer, from, place);
  }

  lemma {:induction false} PatIsVisited(p: Pat, name: string)
    requires name in PatVars(p)
    ensures NamedFrom(P(p), name)
    decreases p, 0
  {
    match p
    case PIdent(_) => FromHere(P(p), name);
    case PReference(q) => PatIsVisited(q, name); FromNext(P(p), P(q), name);
    case PTuple(ps) => PatsAreVisited(P(p), ps, name);
    case PTupleStruct(_, ps) => PatsAreVisited(P(p), ps, name);
    case PStruct(_, fs) => FieldPatsAreVisited(p, fs, name);
  }

  lemma {:induction false} PatsAreVisited(from: Node, ps: seq<Pat>, name: string)
    requires name in PatsVars(ps) && forall q :: q in ps ==> Steps(from, P(q))
    ensures NamedFrom(from, name)
    decreases ps, 0
  {
    if name in PatVars(ps[0]) {
      PatIsVisited(ps[0], name);
      FromNext(from, P(ps[0]), name);
    } else {
      PatsAreVisited(from, ps[1..], name);
    }
  }

  lemma {:induction false} FieldPatsAreVisited(p: Pat, fs: seq<FieldPat>, name: string)
    requires name in FieldPatsVars(fs) && forall i :: 0 <= i < |fs| ==> Steps(P(p), P(fs[i].pat))
    ensures NamedFrom(P(p), name)
    decreases fs, 0
  {
    if name in PatVars(fs[0].pat) {
      PatIsVisited(fs[0].pat, name);
      FromNext(P(p), P(fs[0].pat), name);
    } else {
      assert forall i :: 0 <= i < |fs[1..]| ==> fs[1..][i] == fs[i + 1];
      FieldPatsAreVisited(p, fs[1..], name);
    }
  }

  lemma {:induction false} ExprIsVisited(e: Expr, name: string)
    requires name in ExprVars(e)
    ensures NamedFrom(E(e), name)
    decreases e, 2
  {
    match e
    case Path(_) => FromHere(E(e), name);
    case Field(base, member) =>
      if member == Named(name) {
        FromHere(E(e), name);
      } else {
        PartIsVisited(e, base, name);
      }
    case Assign(l, r) => OneIsVisited(e, l, r, name);
    case Binary(_, l, r) => OneIsVisited(e, l, r, name);
    case Unary(_, x) => PartIsVisited(e, x, name);
    case MethodCall(_, _, _) => CallIsVisited(e, name);
    case Call(_, _) => CallIsVisited(e, name);
    case Block(stmts) => StmtsAreVisited(E(e), stmts, name);
    case Return(x) => OptIsVisited(E(e), x, name);
    case If(_, _, _) => BranchIsVisited(e, name);
    case While(_, _) => BranchIsVisited(e, name);
    case ForLoop(_, _, _) => BranchIsVisited(e, name);
    case Match(x, arms) =>
      if name in ExprVars(x) {
        PartIsVisited(e, x, name);
      } else {
        ArmsAreVisited(e, arms, name);
      }
    case Struct(_, inits, rest) =>
      if name in InitsVars(inits) {
        InitsAreVisited(e, inits, name);
      } else {
        OptIsVisited(E(e), rest, name);
      }
  }

  lemma {:induction false} PartIsVisited(e: Expr, x: Expr, name: string)
    requires ExprSteps(e, E(x)) && name in ExprVars(x)
    ensures NamedFrom(E(e), name)
    decreases x, 3
  {
    ExprIsVisited(x, name);
    FromNext(E(e), E(x), name);
  }

  lemma {:induction false} OneIsVisited(e: Expr, l: Expr, r: Expr, name: string)
    requires ExprSteps(e, E(l)) && ExprSteps(e, E(r)) && l < e && r < e
    requires name in ExprVars(l) + ExprVars(r)
    ensures NamedFrom(E(e), name)
    decreases e, 1
  {
    if name in ExprVars(l) {
      PartIsVisited(e, l, name);
    } else {
      PartIsVisited(e, r, name);
    }
  }

  lemma {:induction false} CallIsVisited(e: Expr, name: string)
    requires e.MethodCall? || e.Call?
    requires name in ExprVars(e)
    ensures NamedFrom(E(e), name)
    decreases e, 1
  {
    match e
    case MethodCall(recv, _, args) =>
      if name in ExprVars(recv) {
        PartIsVisited(e, recv, name);
      } else {
        ArgsAreVisited(e, args, name);
      }
    case Call(func, args) =>
      if name in ExprVars(func) {
        PartIsVisited(e, func, name);
      } else {
        ArgsAreVisited(e, args, name);
      }
  }

  lemma {:induction false} BranchIsVisited(e: Expr, name: string)
    requires e.If? || e.While? || e.ForLoop?
    requires name in ExprVars(e)
    ensures NamedFrom(E(e), name)
    decreases e, 1
  {
    match e
    case If(c, thn, els) =>
      if name in ExprVars(c) {
        PartIsVisited(e, c, name);
      } else if name in StmtsVars(thn) {
        StmtsAreVisited(E(e), thn, name);
      } else {
        OptIsVisited(E(e), els, name);
      }
    case While(c, body) =>
      if name in ExprVars(c) {
        PartIsVisited(e, c, name);
      } else {
        StmtsAreVisited(E(e), body, name);
      }
    case ForLoop(p, x, body) =>
      if name in PatVars(p) {
        PatIsVisited(p, name);
        FromNext(E(e), P(p), name);
      } else if name in ExprVars(x) {
        PartIsVisited(e, x, name);
      } else {
        StmtsAreVisited(E(e), body, name);
      }
  }

  lemma {:induction false} OptIsVisited(from: Node, o: Option<Expr>, name: string)
    requires name in OptVars(o) && (o.Some? ==> Steps(from, E(o.value)))
    ensures NamedFrom(from, name)
    decreases o, 3
  {
    ExprIsVisited(o.value, name);
    FromNext(from, E(o.value), name);
  }

  lemma {:induction false} ArgsAreVisited(e: Expr, args: seq<Expr>, name: string)
    requires name in ExprsVars(args) && forall a :: a in args ==> ExprSteps(e, E(a))
    ensures NamedFrom(E(e), name)
    decreases args, 0
  {
    if name in ExprVars(args[0]) {
      PartIsVisited(e, args[0], name);
    } else {
      ArgsAreVisited(e, args[1..], name);
    }
  }

  lemma {:induction false} InitsAreVisited(e: Expr, fs: seq<FieldValue>, name: string)
    requires name in InitsVars(fs) && forall f :: f in fs ==> ExprSteps(e, E(f.expr))
    ensures NamedFrom(E(e), name)
    decreases fs, 0
  {
    if name in ExprVars(fs[0].expr) {
      PartIsVisited(e, fs[0].expr, name);
    } else {
      InitsAreVisited(e, fs[1..], name);
    }
  }

  lemma {:induction false} ArmsAreVisited(e: Expr, arms: seq<Arm>, name: string)
    requires name in ArmsVars(arms) && forall a :: a in arms ==> ExprSteps(e, E(a.body))
    ensures NamedFrom(E(e), name)
    decreases arms, 0
  {
    if name in ArmVars(arms[0]) {
      ArmIsVisited(e, arms[0], name);
    } else {
      ArmsAreVisited(e, arms[1..], name);
    }
  }

  lemma {:induction false} ArmIsVisited(e: Expr, arm: Arm, name: string)
    requires name in ArmVars(arm) && ExprSteps(e, E(arm.body))
    ensures NamedFrom(E(e), name)
    decreases arm, 0
  {
    match arm
    case Arm(_, _, body) => PartIsVisited(e, body, name);
  }

  lemma {:induction false} StmtIsVisited(s: Stmt, name: string)
    requires name in StmtVars(s)
    ensures NamedFrom(S(s), name)
    decreases s, 4
  {
    match s
    case Local(p, init) =>
      if name in PatVars(p) {
        PatIsVisited(p, name);
        FromNext(S(s), P(p), name);
      } else {
        OptIsVisited(S(s), init, name);
      }
    case ExprStmt(e, _) =>
      ExprIsVisited(e, name);
      FromNext(S(s), E(e), name);
  }

  lemma {:induction false} StmtsAreVisited(from: Node, ss: seq<Stmt>, name: string)
    requires name in StmtsVars(ss) && forall s :: s in ss ==> Steps(from, S(s))
    ensures NamedFrom(from, name)
    decreases ss, 0
  {
    if name in StmtVars(ss[0]) {
      StmtIsVisited(ss[0], name);
      FromNext(from, S(ss[0]), name);
    } else {
      StmtsAreVisited(from, ss[1..], name);
    }
  }

  // ----- The names of an impl block -----

  lemma {:induction false} InSomeStmt(ss: seq<Stmt>, name: string) returns (j: nat)
    requires name in StmtsVars(ss)
    ensures j < |ss| && name in StmtVars(ss[j])
  {
    if name in StmtVars(ss[0]) {
      j := 0;
    } else {
      j := InSomeStmt(ss[1..], name);
      j := j + 1;
    }
  }

  lemma {:induction false} InSomeFn(fns: seq<Fn>, name: string) returns (k: nat)
    requires name in FnsVars(fns)
    ensures k < |fns| && name in StmtsVars(fns[k].body)
  {
    if name in StmtsVars(fns[0].body) {
      k := 0;
    } else {
      k := InSomeFn(fns[1..], name);
      k := k + 1;
    }
  }

  lemma {:induction false} FnsMember(fns: seq<Fn>, k: nat)
    requires k < |fns|
    ensures StmtsVars(fns[k].body) <= FnsVars(fns)
  {
    if k == 0 {
    } else {
      FnsMember(fns[1..], k - 1);
    }
  }

  /** A name is collected exactly if it stands at a visited place. */
  lemma CollectedExactly(fns: seq<Fn>, name: string)
    ensures name in FnsVars(fns) <==> Occurs(fns, name)
  {
    if name in FnsVars(fns) {
      var k := InSomeFn(fns, name);
      var j := InSomeStmt(fns[k].body, name);
      StmtIsVisited(fns[k].body[j], name);
    }
    if Occurs(fns, name) {
      var k, j :| 0 <= k < |fns| && 0 <= j < |fns[k].body| && NamedFrom(S(fns[k].body[j]), name);
      var way, place :| Leads(way, S(fns[k].body[j]), place) && Names(place, name);
      WayCollects(way, S(fns[k].body[j]), place, name);
      StmtsMember(fns[k].body, j);
      FnsMember(fns, k);
    }
  }

  // ----- The reports -----

  /** The text stands somewhere in the path of a list or path attribute. */
  ghost predicate Marked(decl: StructItem, mark: string) {
    exists k, i :: 0 <= k < |decl.attrs| && (decl.attrs[k].ListAttr? || decl.attrs[k].PathAttr?) && StandsAt(mark, decl.attrs[k].path, i)
  }

  predicate StandsAt(part: string, text: string, i: int) {
    0 <= i <= |text| - |part| && text[i..i + |part|] == part
  }

  ghost predicate DeclaresUnder(item: Item, s: string, f: string) {
    && item.StructDecl? && item.decl.name == s && f in item.decl.fields
    && (Marked(item.decl, "contractimpl") || Marked(item.decl, "contracttype") || Marked(item.decl, "stellar_contract"))
  }

  /** The impl block that stands last among those of the type. */
  predicate IsLastImpl(items: seq<Item>, s: string, block: ImplBlock, i: nat) {
    && i < |items| && items[i] == ImplDecl(block) && block.selfType == s
    && forall j :: i < j < |items| ==> !(items[j].ImplDecl? && items[j].block.selfType == s)
  }

  lemma ContainedAt(text: string, part: string, i: nat)
    requires i <= |text|
    ensures part <= text[i..] <==> StandsAt(part, text, i)
  {
    if i <= |text| - |part| {
      assert text[i..][..|part|] == text[i..i + |part|];
    }
  }

  lemma MarkedPaths(decl: StructItem, mark: string)
    ensures Marked(decl, mark) <==> exists a :: a in decl.attrs && !a.NameValueAttr? && Contains(a.path, mark)
  {
    if a :| a in decl.attrs && !a.NameValueAttr? && Contains(a.path, mark) {
      var i :| 0 <= i <= |a.path| && mark <= a.path[i..];
      ContainedAt(a.path, mark, i);
      var k :| 0 <= k < |decl.attrs| && decl.attrs[k] == a;
      assert StandsAt(mark, decl.attrs[k].path, i);
    }
    if Marked(decl, mark) {
      var k, i :| 0 <= k < |decl.attrs| && (decl.attrs[k].ListAttr? || decl.attrs[k].PathAttr?) && StandsAt(mark, decl.attrs[k].path, i);
      ContainedAt(decl.attrs[k].path, mark, i);
      assert Contains(decl.attrs[k].path, mark);
    }
  }

  lemma DeclaresAgrees(item: Item, s: string, f: string)
    ensures DeclaresUnder(item, s, f) <==> DeclaresContractField(item, s, f)
  {
    if item.StructDecl? {
      MarkedPaths(item.decl, "contractimpl");
      MarkedPaths(item.decl, "contracttype");
      MarkedPaths(item.decl, "stellar_contract");
    }
  }

  lemma {:induction false} LastImpl(items: seq<Item>, s: string) returns (i: nat)
    requires s in ContractImpls(items)
    ensures IsLastImpl(items, s, ContractImpls(items)[s], i)
  {
    var n := |items| - 1;
    if items[n].ImplDecl? && items[n].block.selfType == s {
      i := n;
    } else {
      i := LastImpl(items[..n], s);
      assert forall j :: i < j < n ==> items[..n][j] == items[j];
    }
  }

  lemma {:induction false} OnlyLastImpl(items: seq<Item>, s: string, block: ImplBlock, i: nat)
    requires IsLastImpl(items, s, block, i)
    ensures s in ContractImpls(items) && ContractImpls(items)[s] == block
  {
    var n := |items| - 1;
    if i < n {
      assert forall j :: i < j < n ==> items[..n][j] == items[j];
      OnlyLastImpl(items[..n], s, block, i);
    }
  }

  /**
   * A field is reported exactly if a struct marked as a contract declares it, its struct has an impl
   * block, and its name stands at no place the traversal visits in the last of them. (Identifiers
   * contain no dot.)
   */
  lemma ReportedExactly(items: seq<Item>, s: string, f: string)
    requires forall block: ImplBlock, u :: ImplDecl(block) in items && Occurs(block.fns, u) ==> '.' !in u
    ensures Violation(s, f) in Findings(ContractStructs(items), ContractImpls(items))
       <==> && (exists k :: 0 <= k < |items| && DeclaresUnder(items[k], s, f))
            && (exists block, i :: IsLastImpl(items, s, block, i) && !Occurs(block.fns, f))
  {
    FindingsAreReports(items, s, f);
    DeclarationsAgree(items, s, f);
    if s in ContractImpls(items) {
      var block := ContractImpls(items)[s];
      var i := LastImpl(items, s);
      assert ImplDecl(block) in items;
      UsedExactly(block, f);
    }
    if block, i :| IsLastImpl(items, s, block, i) && !Occurs(block.fns, f) {
      OnlyLastImpl(items, s, block, i);
    }
  }

  lemma DeclarationsAgree(items: seq<Item>, s: string, f: string)
    ensures (exists k :: 0 <= k < |items| && DeclaresUnder(items[k], s, f))
       <==> (exists k :: 0 <= k < |items| && DeclaresContractField(items[k], s, f))
  {
    forall k | 0 <= k < |items|
      ensures DeclaresUnder(items[k], s, f) <==> DeclaresContractField(items[k], s, f)
    {
      DeclaresAgrees(items[k], s, f);
    }
  }

  lemma UsedExactly(block: ImplBlock, f: string)
    requires forall u :: Occurs(block.fns, u) ==> '.' !in u
    ensures IsVariableUsed(f, FnsVars(block.fns)) <==> Occurs(block.fns, f)
  {
    CollectedExactly(block.fns, f);
    forall u | u in FnsVars(block.fns)
      ensures '.' !in u
    {
      CollectedExactly(block.fns, u);
    }
    UsageTestIsMembership(f, FnsVars(block.fns));
  }

  // ----- The order of the reports -----

  /** The reports a single item gives rise to: one for each of its unused fields, in order. */
  ghost function ItemReports(items: seq<Item>, item: Item): seq<Violation> {
    if item.StructDecl? && IsSorobanContract(item.decl) && item.decl.name in ContractImpls(items) then
      FlatMap(item.decl.fields, f => FieldReport(item.decl.name, f, ContractImpls(items)[item.decl.name]))
    else []
  }

  ghost function FieldReport(s: string, f: string, block: ImplBlock): seq<Violation> {
    if Occurs(block.fns, f) then [] else [Violation(s, f)]
  }

  lemma {:induction false} UnusedInOrder(s: string, fields: seq<string>, block: ImplBlock)
    requires forall u :: Occurs(block.fns, u) ==> '.' !in u
    ensures UnusedOf(s, fields, FnsVars(block.fns)) == FlatMap(fields, f => FieldReport(s, f, block))
  {
    if fields == [] {
    } else {
      UnusedInOrder(s, fields[1..], block);
      UsedExactly(block, fields[0]);
    }
  }

  lemma {:induction false} FindingsOfItems(items: seq<Item>, rest: seq<Item>)
    requires forall block: ImplBlock, u :: ImplDecl(block) in items && Occurs(block.fns, u) ==> '.' !in u
    ensures Findings(ContractStructs(rest), ContractImpls(items)) == FlatMap(rest, item => ItemReports(items, item))
  {
    if rest == [] {
    } else {
      var item, impls := rest[0], ContractImpls(items);
      FindingsOfItems(items, rest[1..]);
      if item.StructDecl? && IsSorobanContract(item.decl) && item.decl.name in impls {
        var i := LastImpl(items, item.decl.name);
        assert ImplDecl(impls[item.decl.name]) in items;
        UnusedInOrder(item.decl.name, item.decl.fields, impls[item.decl.name]);
      }
    }
  }

  /** The reports stand in the order of the items and of their fields, each once for each declaration. */
  lemma ReportsInOrder(items: seq<Item>)
    requires forall block: ImplBlock, u :: ImplDecl(block) in items && Occurs(block.fns, u) ==> '.' !in u
    ensures Findings(ContractStructs(items), ContractImpls(items)) == FlatMap(items, item => ItemReports(items, item))
  {
    FindingsOfItems(items, items);
  }
}
