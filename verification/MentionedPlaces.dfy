/**
 * Where a field is mentioned, said without the sets of mentions: a place is any part of the syntax tree,
 * given by a relation between a node and its immediate parts.
 */
module MentionedPlaces {
  import opened Wrappers
  import opened RustAst
  import opened FieldMentions
  import opened UnusedStateVariables
  import opened UnusedFieldSafety
  import opened VisitedPlaces

  /** `to` is an immediate part of `from`, visited by the traversal or not. */
  predicate HasPart(from: Node, to: Node) {
    match from
    case E(e) => ExprHas(e, to)
    case S(s) => StmtHas(s, to)
    case P(p) => PatHas(p, to)
  }

  predicate ExprHas(e: Expr, to: Node) {
    match e
    case Path(_) => false
    case Lit(_) => false
    case Field(base, _) => to == E(base)
    case Assign(l, r) => to == E(l) || to == E(r)
    case MethodCall(recv, _, args) => to == E(recv) || IsOneOf(to, args)
    case Binary(_, l, r) => to == E(l) || to == E(r)
    case Unary(_, x) => to == E(x)
    case Call(func, args) => to == E(func) || IsOneOf(to, args)
    case Block(stmts) => IsStmtOf(to, stmts)
    case If(c, thn, els) => to == E(c) || IsStmtOf(to, thn) || IsValueOf(to, els)
    case Match(x, arms) => to == E(x) || exists i :: 0 <= i < |arms| && ArmHas(arms[i], to)
    case While(c, body) => to == E(c) || IsStmtOf(to, body)
    case ForLoop(p, x, body) => to == P(p) || to == E(x) || IsStmtOf(to, body)
    case Return(x) => IsValueOf(to, x)
    case Struct(_, inits, rest) => (to.E? && exists i :: 0 <= i < |inits| && inits[i].expr == to.e) || IsValueOf(to, rest)
    case Reference(x) => to == E(x)
    case Paren(x) => to == E(x)
    case Tuple(es) => IsOneOf(to, es)
    case Range(lo, hi) => to == E(lo) || to == E(hi)
  }

  predicate ArmHas(arm: Arm, to: Node) {
    to == P(arm.pat) || IsValueOf(to, arm.guard) || to == E(arm.body)
  }

  predicate StmtHas(s: Stmt, to: Node) {
    match s
    case Local(p, init) => to == P(p) || IsValueOf(to, init)
    case ItemStmt(nested) => nested.Some? && IsStmtOf(to, nested.value.body)
    case ExprStmt(e, _) => to == E(e)
    case MacroStmt(arg) => to == E(arg)
  }

  predicate PatHas(p: Pat, to: Node) {
    match p
    case PTuple(ps) => IsPatOf(to, ps)
    case PTupleStruct(_, ps) => IsPatOf(to, ps)
    case PStruct(_, fs) => to.P? && exists i :: 0 <= i < |fs| && fs[i].pat == to.p
    case PReference(q) => to == P(q)
    case _ => false
  }

  predicate Descends(way: seq<Node>, from: Node, to: Node) {
    && way != [] && way[0] == from && way[|way| - 1] == to
    && forall i :: 0 <= i < |way| - 1 ==> HasPart(way[i], way[i + 1])
  }

  /** A field access or a struct pattern that names the field. */
  predicate Reads(place: Node, f: string) {
    match place
    case E(Field(_, member)) => member == Named(f)
    case P(PStruct(_, fs)) => exists i :: 0 <= i < |fs| && fs[i].member == f
    case _ => false
  }

  ghost predicate ReadFrom(from: Node, f: string) {
    exists way, place :: Descends(way, from, place) && Reads(place, f)
  }

  // ----- A field read at some place is among the mentions -----

  function Mentions(n: Node): set<string> {
    match n
    case E(e) => ExprFields(e)
    case S(s) => StmtFields(s)
    case P(p) => PatFields(p)
  }

  lemma {:induction false} ExprsMember(es: seq<Expr>, i: nat)
    requires i < |es|
    ensures ExprFields(es[i]) <= ExprsFields(es)
  {
    if i == 0 {
    } else {
      ExprsMember(es[1..], i - 1);
    }
  }

  lemma {:induction false} StmtsMember(ss: seq<Stmt>, i: nat)
    requires i < |ss|
    ensures StmtFields(ss[i]) <= StmtsFields(ss)
  {
    if i == 0 {
    } else {
      StmtsMember(ss[1..], i - 1);
    }
  }

  lemma {:induction false} PatsMember(ps: seq<Pat>, i: nat)
    requires i < |ps|
    ensures PatFields(ps[i]) <= PatsFields(ps)
  {
    if i == 0 {
    } else {
      PatsMember(ps[1..], i - 1);
    }
  }

  lemma {:induction false} FieldPatsMember(fs: seq<FieldPat>, i: nat)
    requires i < |fs|
    ensures PatFields(fs[i].pat) <= FieldPatsFields(fs) && fs[i].member in FieldPatsFields(fs)
  {
    if i == 0 {
    } else {
      FieldPatsMember(fs[1..], i - 1);
    }
  }

  lemma {:induction false} ArmsMember(arms: seq<Arm>, i: nat)
    requires i < |arms|
    ensures ArmFields(arms[i]) <= ArmsFields(arms)
  {
    if i == 0 {
    } else {
      ArmsMember(arms[1..], i - 1);
    }
  }

  lemma {:induction false} InitsMember(fs: seq<FieldValue>, i: nat)
    requires i < |fs|
    ensures ExprFields(fs[i].expr) <= InitsFields(fs)
  {
    if i == 0 {
    } else {
      InitsMember(fs[1..], i - 1);
    }
  }

  lemma ArmPart(arm: Arm, to: Node)
    requires ArmHas(arm, to)
    ensures Mentions(to) <= ArmFields(arm)
  {
    match arm
    case Arm(_, guard, _) =>
      if IsValueOf(to, guard) {
        assert OptFields(guard) == ExprFields(to.e);
      }
  }

  lemma ListPart(to: Node, es: seq<Expr>, ss: seq<Stmt>, ps: seq<Pat>, o: Option<Expr>)
    ensures IsOneOf(to, es) ==> Mentions(to) <= ExprsFields(es)
    ensures IsStmtOf(to, ss) ==> Mentions(to) <= StmtsFields(ss)
    ensures IsPatOf(to, ps) ==> Mentions(to) <= PatsFields(ps)
    ensures IsValueOf(to, o) ==> Mentions(to) <= OptFields(o)
  {
    if IsOneOf(to, es) {
      var i :| 0 <= i < |es| && es[i] == to.e;
      ExprsMember(es, i);
    }
    if IsStmtOf(to, ss) {
      var i :| 0 <= i < |ss| && ss[i] == to.s;
      StmtsMember(ss, i);
    }
    if IsPatOf(to, ps) {
      var i :| 0 <= i < |ps| && ps[i] == to.p;
      PatsMember(ps, i);
    }
  }

  lemma ExprPart(e: Expr, to: Node)
    requires ExprHas(e, to)
    ensures Mentions(to) <= ExprFields(e)
  {
    match e
    case MethodCall(_, _, args) => ListPart(to, args, [], [], None);
    case Call(_, args) => ListPart(to, args, [], [], None);
    case Tuple(es) => ListPart(to, es, [], [], None);
    case Block(stmts) => ListPart(to, [], stmts, [], None);
    case If(_, thn, els) => ListPart(to, [], thn, [], els);
    case While(_, body) => ListPart(to, [], body, [], None);
    case ForLoop(_, _, body) => ListPart(to, [], body, [], None);
    case Return(x) => ListPart(to, [], [], [], x);
    case Match(x, arms) =>
      if to != E(x) {
        var i :| 0 <= i < |arms| && ArmHas(arms[i], to);
        ArmPart(arms[i], to);
        ArmsMember(arms, i);
      }
    case Struct(_, inits, rest) =>
      ListPart(to, [], [], [], rest);
      if !IsValueOf(to, rest) {
        var i :| 0 <= i < |inits| && inits[i].expr == to.e;
        InitsMember(inits, i);
      }
    case _ =>
  }

  lemma StmtPart(s: Stmt, to: Node)
    requires StmtHas(s, to)
    ensures Mentions(to) <= StmtFields(s)
  {
    match s
    case Local(_, init) => ListPart(to, [], [], [], init);
    case ItemStmt(nested) =>
      ListPart(to, [], nested.value.body, [], None);
      assert nested.value == Fn(nested.value.name, nested.value.params, nested.value.body);
    case _ =>
  }

  lemma PatPart(p: Pat, to: Node)
    requires PatHas(p, to)
    ensures Mentions(to) <= PatFields(p)
  {
    match p
    case PTuple(ps) => ListPart(to, [], [], ps, None);
    case PTupleStruct(_, ps) => ListPart(to, [], [], ps, None);
    case PStruct(_, fs) =>
      var i :| 0 <= i < |fs| && fs[i].pat == to.p;
      FieldPatsMember(fs, i);
    case _ =>
  }

  lemma PartMentions(from: Node, to: Node)
    requires HasPart(from, to)
    ensures Mentions(to) <= Mentions(from)
  {
    match from
    case E(e) => ExprPart(e, to);
    case S(s) => StmtPart(s, to);
    case P(p) => PatPart(p, to);
  }

  lemma ReadIsMentioned(place: Node, f: string)
    requires Reads(place, f)
    ensures f in Mentions(place)
  {
    if place.P? {
      var i :| 0 <= i < |place.p.fields| && place.p.fields[i].member == f;
      FieldPatsMember(place.p.fields, i);
    }
  }

  lemma {:induction false} WayMentions(way: seq<Node>, from: Node, place: Node, f: string)
    requires Descends(way, from, place) && Reads(place, f)
    ensures f in Mentions(from)
    decreases |way|
  {
    if |way| == 1 {
      ReadIsMentioned(place, f);
    } else {
      var rest := way[1..];
      forall i | 0 <= i < |rest| - 1
        ensures HasPart(rest[i], rest[i + 1])
      {
        assert rest[i] == way[i + 1] && rest[i + 1] == way[i + 1 + 1];
      }
      WayMentions(rest, way[1], place, f);
      PartMentions(way[0], way[1]);
    }
  }

  // ----- A mention is a place -----

  lemma ReadHere(n: Node, f: string)
    requires Reads(n, f)
    ensures ReadFrom(n, f)
  {
    assert Descends([n], n, n);
  }

  lemma ReadInPart(from: Node, to: Node, f: string)
    requires HasPart(from, to) && ReadFrom(to, f)
    ensures ReadFrom(from, f)
  {
    var way, place :| Descends(way, to, place) && Reads(place, f);
    var longer := [from] + way;
    forall i | 0 <= i < |longer| - 1
      ensures HasPart(longer[i], longer[i + 1])
    {
      if i > 0 {
        assert longer[i] == way[i - 1] && longer[i + 1] == way[i - 1 + 1];
      }
    }
    assert Descends(longer, from, place);
  }

  lemma {:induction false} PatIsRead(p: Pat, f: string)
    requires f in PatFields(p)
    ensures ReadFrom(P(p), f)
    decreases p, 0
  {
    match p
    case PReference(q) => PatIsRead(q, f); ReadInPart(P(p), P(q), f);
    case PTuple(ps) => PatsAreRead(P(p), ps, f);
    case PTupleStruct(_, ps) => PatsAreRead(P(p), ps, f);
    case PStruct(_, fs) => FieldPatsAreRead(p, fs, f);
  }

  lemma {:induction false} PatsAreRead(from: Node, ps: seq<Pat>, f: string)
    requires f in PatsFields(ps) && forall q :: q in ps ==> HasPart(from, P(q))
    ensures ReadFrom(from, f)
    decreases ps, 0
  {
    if f in PatFields(ps[0]) {
      PatIsRead(ps[0], f);
      ReadInPart(from, P(ps[0]), f);
    } else {
      PatsAreRead(from, ps[1..], f);
    }
  }

  lemma {:induction false} FieldPatsAreRead(p: Pat, fs: seq<FieldPat>, f: string)
    requires p.PStruct? && f in FieldPatsFields(fs)
    requires forall x :: x in fs ==> x in p.fields && HasPart(P(p), P(x.pat))
    ensures ReadFrom(P(p), f)
    decreases fs, 0
  {
    if fs[0].member == f {
      assert fs[0] in p.fields;
      ReadHere(P(p), f);
    } else if f in PatFields(fs[0].pat) {
      PatIsRead(fs[0].pat, f);
      ReadInPart(P(p), P(fs[0].pat), f);
    } else {
      FieldPatsAreRead(p, fs[1..], f);
    }
  }

  lemma {:induction false} ExprIsRead(e: Expr, f: string)
    requires f in ExprFields(e)
    ensures ReadFrom(E(e), f)
    decreases e, 2
  {
    match e
    case Field(base, member) =>
      if member == Named(f) {
        ReadHere(E(e), f);
      } else {
        PartIsRead(E(e), base, f);
      }
    case Unary(_, x) => PartIsRead(E(e), x, f);
    case Reference(x) => PartIsRead(E(e), x, f);
    case Paren(x) => PartIsRead(E(e), x, f);
    case Tuple(es) => ExprsAreRead(E(e), es, f);
    case Block(stmts) => StmtsAreRead(E(e), stmts, f);
    case Return(x) => OptIsRead(E(e), x, f);
    case Assign(l, r) => OneIsRead(e, l, r, f);
    case Binary(_, l, r) => OneIsRead(e, l, r, f);
    case Range(lo, hi) => OneIsRead(e, lo, hi, f);
    case MethodCall(_, _, _) => CallIsRead(e, f);
    case Call(_, _) => CallIsRead(e, f);
    case If(_, _, _) => BranchIsRead(e, f);
    case While(_, _) => BranchIsRead(e, f);
    case ForLoop(_, _, _) => BranchIsRead(e, f);
    case Match(x, arms) =>
      if f in ExprFields(x) {
        PartIsRead(E(e), x, f);
      } else {
        ArmsAreRead(e, arms, f);
      }
    case Struct(_, inits, rest) =>
      if f in InitsFields(inits) {
        InitsAreRead(e, inits, f);
      } else {
        OptIsRead(E(e), rest, f);
      }
  }

  lemma {:induction false} PartIsRead(from: Node, x: Expr, f: string)
    requires HasPart(from, E(x)) && f in ExprFields(x)
    ensures ReadFrom(from, f)
    decreases x, 3
  {
    ExprIsRead(x, f);
    ReadInPart(from, E(x), f);
  }

  lemma {:induction false} OneIsRead(e: Expr, l: Expr, r: Expr, f: string)
    requires ExprHas(e, E(l)) && ExprHas(e, E(r)) && l < e && r < e
    requires f in ExprFields(l) + ExprFields(r)
    ensures ReadFrom(E(e), f)
    decreases e, 1
  {
    if f in ExprFields(l) {
      PartIsRead(E(e), l, f);
    } else {
      PartIsRead(E(e), r, f);
    }
  }

  lemma {:induction false} CallIsRead(e: Expr, f: string)
    requires e.MethodCall? || e.Call?
    requires f in ExprFields(e)
    ensures ReadFrom(E(e), f)
    decreases e, 1
  {
    match e
    case MethodCall(recv, _, args) =>
      if f in ExprFields(recv) {
        PartIsRead(E(e), recv, f);
      } else {
        ExprsAreRead(E(e), args, f);
      }
    case Call(func, args) =>
      if f in ExprFields(func) {
        PartIsRead(E(e), func, f);
      } else {
        ExprsAreRead(E(e), args, f);
      }
  }

  lemma {:induction false} BranchIsRead(e: Expr, f: string)
    requires e.If? || e.While? || e.ForLoop?
    requires f in ExprFields(e)
    ensures ReadFrom(E(e), f)
    decreases e, 1
  {
    match e
    case If(c, thn, els) =>
      if f in ExprFields(c) {
        PartIsRead(E(e), c, f);
      } else if f in StmtsFields(thn) {
        StmtsAreRead(E(e), thn, f);
      } else {
        OptIsRead(E(e), els, f);
      }
    case While(c, body) =>
      if f in ExprFields(c) {
        PartIsRead(E(e), c, f);
      } else {
        StmtsAreRead(E(e), body, f);
      }
    case ForLoop(p, x, body) =>
      if f in PatFields(p) {
        PatIsRead(p, f);
        ReadInPart(E(e), P(p), f);
      } else if f in ExprFields(x) {
        PartIsRead(E(e), x, f);
      } else {
        StmtsAreRead(E(e), body, f);
      }
  }

  lemma {:induction false} OptIsRead(from: Node, o: Option<Expr>, f: string)
    requires f in OptFields(o) && (o.Some? ==> HasPart(from, E(o.value)))
    ensures ReadFrom(from, f)
    decreases o, 3
  {
    PartIsRead(from, o.value, f);
  }

  lemma {:induction false} ExprsAreRead(from: Node, es: seq<Expr>, f: string)
    requires f in ExprsFields(es) && forall x :: x in es ==> HasPart(from, E(x))
    ensures ReadFrom(from, f)
    decreases es, 0
  {
    if f in ExprFields(es[0]) {
      PartIsRead(from, es[0], f);
    } else {
      ExprsAreRead(from, es[1..], f);
    }
  }

  lemma {:induction false} InitsAreRead(e: Expr, fs: seq<FieldValue>, f: string)
    requires f in InitsFields(fs) && forall x :: x in fs ==> ExprHas(e, E(x.expr))
    ensures ReadFrom(E(e), f)
    decreases fs, 0
  {
    if f in ExprFields(fs[0].expr) {
      PartIsRead(E(e), fs[0].expr, f);
    } else {
      InitsAreRead(e, fs[1..], f);
    }
  }

  lemma {:induction false} ArmsAreRead(e: Expr, arms: seq<Arm>, f: string)
    requires f in ArmsFields(arms) && forall a, to :: a in arms && ArmHas(a, to) ==> ExprHas(e, to)
    ensures ReadFrom(E(e), f)
    decreases arms, 0
  {
    if f in ArmFields(arms[0]) {
      ArmIsRead(e, arms[0], f);
    } else {
      ArmsAreRead(e, arms[1..], f);
    }
  }

  lemma {:induction false} ArmIsRead(e: Expr, arm: Arm, f: string)
    requires f in ArmFields(arm) && forall to :: ArmHas(arm, to) ==> ExprHas(e, to)
    ensures ReadFrom(E(e), f)
    decreases arm, 0
  {
    match arm
    case Arm(pat, guard, body) =>
      assert ArmHas(arm, P(pat)) && ArmHas(arm, E(body));
      if f in PatFields(pat) {
        PatIsRead(pat, f);
        ReadInPart(E(e), P(pat), f);
      } else if f in OptFields(guard) {
        assert ArmHas(arm, E(guard.value));
        OptIsRead(E(e), guard, f);
      } else {
        PartIsRead(E(e), body, f);
      }
  }

  lemma {:induction false} StmtIsRead(s: Stmt, f: string)
    requires f in StmtFields(s)
    ensures ReadFrom(S(s), f)
    decreases s, 4
  {
    match s
    case Local(p, init) =>
      if f in PatFields(p) {
        PatIsRead(p, f);
        ReadInPart(S(s), P(p), f);
      } else {
        OptIsRead(S(s), init, f);
      }
    case ItemStmt(nested) =>
      match nested {
        case Some(Fn(_, _, body)) => StmtsAreRead(S(s), body, f);
      }
    case ExprStmt(e, _) => PartIsRead(S(s), e, f);
    case MacroStmt(arg) => PartIsRead(S(s), arg, f);
  }

  lemma {:induction false} StmtsAreRead(from: Node, ss: seq<Stmt>, f: string)
    requires f in StmtsFields(ss) && forall s :: s in ss ==> HasPart(from, S(s))
    ensures ReadFrom(from, f)
    decreases ss, 0
  {
    if f in StmtFields(ss[0]) {
      StmtIsRead(ss[0], f);
      ReadInPart(from, S(ss[0]), f);
    } else {
      StmtsAreRead(from, ss[1..], f);
    }
  }

  // ----- The mentions of a file -----

  /** Some function reads, assigns or matches the field at some place of its body. */
  ghost predicate FnsRead(fns: seq<Fn>, f: string) {
    exists k, j :: 0 <= k < |fns| && 0 <= j < |fns[k].body| && ReadFrom(S(fns[k].body[j]), f)
  }

  /** Some function of the file does: in an impl block, free, a trait's default, or in a module. */
  ghost predicate FileReads(items: seq<Item>, f: string)
    decreases items
  {
    exists i :: 0 <= i < |items| && ItemReads(items[i], f)
  }

  ghost predicate ItemReads(item: Item, f: string)
    decreases item
  {
    match item
    case ImplDecl(block) => FnsRead(block.fns, f)
    case FnDecl(fn) => FnsRead([fn], f)
    case TraitDecl(defaults) => FnsRead(defaults, f)
    case ModDecl(_, items) => FileReads(items, f)
    case _ => false
  }

  lemma {:induction false} InSomeStmt(ss: seq<Stmt>, f: string) returns (j: nat)
    requires f in StmtsFields(ss)
    ensures j < |ss| && f in StmtFields(ss[j])
  {
    if f in StmtFields(ss[0]) {
      j := 0;
    } else {
      j := InSomeStmt(ss[1..], f);
      j := j + 1;
    }
  }

  lemma {:induction false} FnsReadExactly(fns: seq<Fn>, f: string)
    ensures f in FnsFields(fns) <==> FnsRead(fns, f)
  {
    if fns == [] {
    } else {
      var rest := fns[1..];
      FnsReadExactly(rest, f);
      if f in StmtsFields(fns[0].body) {
        var j := InSomeStmt(fns[0].body, f);
        StmtIsRead(fns[0].body[j], f);
        assert FnsRead(fns, f);
      }
      if FnsRead(rest, f) {
        var k, j :| 0 <= k < |rest| && 0 <= j < |rest[k].body| && ReadFrom(S(rest[k].body[j]), f);
        assert fns[k + 1] == rest[k];
      }
      if FnsRead(fns, f) {
        var k, j :| 0 <= k < |fns| && 0 <= j < |fns[k].body| && ReadFrom(S(fns[k].body[j]), f);
        if k == 0 {
          var way, place :| Descends(way, S(fns[0].body[j]), place) && Reads(place, f);
          WayMentions(way, S(fns[0].body[j]), place, f);
          StmtsMember(fns[0].body, j);
        } else {
          assert fns[k] == rest[k - 1];
        }
      }
    }
  }

  lemma {:induction false} ItemReadsExactly(item: Item, f: string)
    ensures f in ItemFields(item) <==> ItemReads(item, f)
    decreases item, 0
  {
    match item
    case ImplDecl(block) => FnsReadExactly(block.fns, f);
    case FnDecl(fn) =>
      FnsReadExactly([fn], f);
      assert [fn][1..] == [] && FnsFields([fn][1..]) == {};
    case TraitDecl(defaults) => FnsReadExactly(defaults, f);
    case ModDecl(_, items) => FileReadsExactly(items, f);
    case _ =>
  }

  lemma {:induction false} FileReadsExactly(items: seq<Item>, f: string)
    ensures f in ItemsFields(items) <==> FileReads(items, f)
    decreases items, 0
  {
    if items == [] {
    } else {
      var rest := items[1..];
      ItemReadsExactly(items[0], f);
      FileReadsExactly(rest, f);
      if FileReads(rest, f) {
        var i :| 0 <= i < |rest| && ItemReads(rest[i], f);
        assert items[i + 1] == rest[i];
      }
      if FileReads(items, f) {
        var i :| 0 <= i < |items| && ItemReads(items[i], f);
        assert i > 0 ==> items[i] == rest[i - 1];
      }
    }
  }

  /** A reported field is read, assigned or matched at some place of the file exactly if that place is out of the rule's sight. */
  lemma ReportedReadsAreHidden(items: seq<Item>, s: string, f: string)
    requires Reported(items, s, f)
    ensures FileReads(items, f) <==> f in HiddenFor(items, s)
  {
    FileReadsExactly(items, f);
    ReportedMentionsAreHidden(items, s, f);
  }
}
