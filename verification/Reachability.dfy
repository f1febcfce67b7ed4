/** Which functions are lowered: a depth-first walk over calls from main and the top-level statements. */
module Reachability {
  import opened Wrappers
  import opened Ast

  datatype Program = Program(functions: seq<Function>, tops: seq<Stmt>)

  // ----- calls in the tree -----

  function Calls(e: Expr): set<string>
    decreases e, 1
  {
    match e
    case Binary(_, l, r) => Calls(l) + Calls(r)
    case Call(f, es) => {Resolve(f)} + CallsArgs(es)
    case _ => {}
  }

  function CallsArgs(es: seq<Expr>): set<string>
    decreases es, 0
  {
    if es == [] then {} else Calls(es[0]) + CallsArgs(es[1..])
  }

  function CallsOpt(e: Option<Expr>): set<string> {
    if e.Some? then Calls(e.value) else {}
  }

  function CallsStmt(s: Stmt): set<string>
    decreases s, 1
  {
    match s
    case ExprStmt(e) => Calls(e)
    case Return(e) => CallsOpt(e)
    case Block(body) => CallsList(body)
    case If(cond, thn, els) => Calls(cond) + CallsList(thn) + if els.Else? then CallsList(els.body) else {}
    case While(cond, body) => Calls(cond) + CallsList(body)
    case For(_, init, cond, step, body) => CallsOpt(init) + Calls(cond) + Calls(step.value) + CallsList(body)
    case VarDecl(_, init) => CallsOpt(init)
    case Assign(_, e) => Calls(e)
    case _ => {}
  }

  function CallsList(ss: seq<Stmt>): set<string>
    decreases ss, 0
  {
    if ss == [] then {} else CallsStmt(ss[0]) + CallsList(ss[1..])
  }

  // ----- what reachable means -----

  function Declared(p: Program): set<string> {
    set i | 0 <= i < |p.functions| :: p.functions[i].name
  }

  /** The first declaration of that name counts. */
  function Find(fs: seq<Function>, name: string): Option<Function> {
    if fs == [] then None else if fs[0].name == name then Some(fs[0]) else Find(fs[1..], name)
  }

  /** The declared functions that the body of `name` calls. */
  function Callees(p: Program, name: string): set<string> {
    var f := Find(p.functions, name);
    if f.None? then {} else CallsList(f.value.body) * Declared(p)
  }

  predicate Chain(p: Program, path: seq<string>) {
    forall i | 0 <= i < |path| - 1 :: path[i + 1] in Callees(p, path[i])
  }

  /** There is a chain of calls from a function of `roots` to `name`. */
  ghost predicate ReachableFrom(p: Program, roots: set<string>, name: string) {
    exists path: seq<string> {:trigger Chain(p, path)} ::
      |path| > 0 && path[0] in roots && path[0] in Declared(p) && path[|path| - 1] == name && Chain(p, path)
  }

  function Roots(p: Program): set<string> {
    {"main"} + CallsList(p.tops)
  }

  lemma {:induction false} FindDeclared(fs: seq<Function>, name: string)
    ensures Find(fs, name).Some? <==> exists i :: 0 <= i < |fs| && fs[i].name == name
    decreases fs
  {
    if fs != [] && fs[0].name != name {
      FindDeclared(fs[1..], name);
      if Find(fs[1..], name).Some? {
        var i :| 0 <= i < |fs[1..]| && fs[1..][i].name == name;
        assert fs[i + 1].name == name;
      }
      if exists i :: 0 <= i < |fs| && fs[i].name == name {
        var i :| 0 <= i < |fs| && fs[i].name == name;
        assert fs[1..][i - 1].name == name;
      }
    }
  }

  lemma {:induction false} ReachableMore(p: Program, roots: set<string>, more: set<string>, name: string)
    requires ReachableFrom(p, roots, name) && roots <= more
    ensures ReachableFrom(p, more, name)
  {
  }

  lemma {:induction false} ReachableSelf(p: Program, name: string)
    requires name in Declared(p)
    ensures ReachableFrom(p, {name}, name)
  {
    assert Chain(p, [name]);
  }

  lemma {:induction false} ReachableStep(p: Program, name: string, f: string)
    requires name in Declared(p) && ReachableFrom(p, Callees(p, name), f)
    ensures ReachableFrom(p, {name}, f)
  {
    var path: seq<string> :| |path| > 0 && path[0] in Callees(p, name) && path[0] in Declared(p) && path[|path| - 1]
      == f && Chain(p, path);
    assert Chain(p, [name] + path);
  }

  /** A set with the roots that is closed under calls contains everything reachable. */
  lemma {:induction false} ClosedContains(p: Program, s: set<string>, path: seq<string>, i: nat)
    requires Chain(p, path) && i < |path| && path[0] in s
    requires forall f | f in s :: Callees(p, f) <= s
    ensures path[i] in s
    decreases i
  {
    if i == 0 {
    } else {
      ClosedContains(p, s, path, i - 1);
    }
  }

  // ----- the walk -----

  /** What a step of the walk from `roots` does to the set collected so far: it collects the declared
      roots, everything it adds is reachable from them, and with anything it adds it adds the callees. */
  ghost predicate Walked(p: Program, before: set<string>, after: set<string>, roots: set<string>) {
    && before <= after <= before + Declared(p)
    && roots * Declared(p) <= after
    && (forall f {:trigger Added(p, after, roots, f)} | f in after && f !in before :: Added(p, after, roots, f))
  }

  ghost predicate Added(p: Program, after: set<string>, roots: set<string>, f: string) {
    Callees(p, f) <= after && ReachableFrom(p, roots, f)
  }

  lemma {:induction false} WalkedTrans(p: Program, a: set<string>, b: set<string>, c: set<string>, r: set<string>,
        q: set<string>)
    requires Walked(p, a, b, r) && Walked(p, b, c, q)
    ensures Walked(p, a, c, r + q)
  {
    forall f | f in c && f !in a
      ensures Added(p, c, r + q, f)
    {
      if f in b {
        assert Added(p, b, r, f);
        ReachableMore(p, r, r + q, f);
      } else {
        assert Added(p, c, q, f);
        ReachableMore(p, q, r + q, f);
      }
    }
  }

  /** Entering a function and walking its body. */
  lemma {:induction false} WalkedInto(p: Program, a: set<string>, c: set<string>, name: string, body: seq<Stmt>)
    requires name in Declared(p) && Find(p.functions, name).Some? && Find(p.functions, name).value.body == body
    requires Walked(p, a + {name}, c, CallsList(body))
    ensures Walked(p, a, c, {name})
  {
    forall f | f in c && f !in a
      ensures Added(p, c, {name}, f)
    {
      if f == name {
        ReachableSelf(p, name);
      } else {
        assert Added(p, c, CallsList(body), f);
        Restrict(p, CallsList(body), f);
        ReachableStep(p, name, f);
      }
    }
  }

  lemma {:induction false} Restrict(p: Program, roots: set<string>, name: string)
    requires ReachableFrom(p, roots, name)
    ensures ReachableFrom(p, roots * Declared(p), name)
  {
  }

  class Collector {
    const program: Program
    var reachable: seq<string>   // newest first

    ghost function Set(): set<string>
      reads this
    {
      set f | f in reachable
    }

    ghost predicate Valid()
      reads this
    {
      && Set() <= Declared(program)
      && (forall i, j | 0 <= i < j < |reachable| :: reachable[i] != reachable[j])
    }

    ghost function Left(): nat
      reads this
    {
      |Declared(program) - Set()|
    }

    constructor (program: Program)
      ensures this.program == program && Valid() && Set() == {}
    {
      this.program := program;
      reachable := [];
    }

    lemma {:induction false} LeftShrinks(before: set<string>)
      requires before <= Set()
      ensures Left() <= |Declared(program) - before|
      ensures before != Set() && Set() <= Declared(program) ==> Left() < |Declared(program) - before|
    {
      assert Declared(program) - Set() <= Declared(program) - before;
      SubsetSize(Declared(program) - Set(), Declared(program) - before);
    }

    method MarkFunctionReachable(name: string)
      requires Valid()
      modifies this`reachable
      ensures Valid() && Left() <= old(Left())
      ensures Walked(program, old(Set()), Set(), {name})
      decreases Left(), 0, 0, 0
    {
      var f := Find(program.functions, name);
      FindDeclared(program.functions, name);
      if f.None? || name in reachable {
        return;
      }
      ghost var before := Set();
      reachable := [name] + reachable;
      assert Set() == before + {name};
      LeftShrinks(before);
      CollectList(f.value.body);
      WalkedInto(program, before, Set(), name, f.value.body);
    }

    method CollectBinary(e: Expr)
      requires Valid() && e.Binary?
      modifies this`reachable
      ensures Valid() && Left() <= old(Left())
      ensures Walked(program, old(Set()), Set(), Calls(e))
      decreases Left(), 1, e, 0
    {
      ghost var a := Set();
      CollectExpr(e.left);
      ghost var b := Set();
      CollectExpr(e.right);
      WalkedTrans(program, a, b, Set(), Calls(e.left), Calls(e.right));
    }

    method CollectCall(e: Expr)
      requires Valid() && e.Call?
      modifies this`reachable
      ensures Valid() && Left() <= old(Left())
      ensures Walked(program, old(Set()), Set(), Calls(e))
      decreases Left(), 1, e, 0
    {
      ghost var a := Set();
      MarkFunctionReachable(Resolve(e.callee));
      ghost var b := Set();
      CollectArgs(e.args);
      WalkedTrans(program, a, b, Set(), {Resolve(e.callee)}, CallsArgs(e.args));
    }

    method CollectExpr(e: Expr)
      requires Valid()
      modifies this`reachable
      ensures Valid() && Left() <= old(Left())
      ensures Walked(program, old(Set()), Set(), Calls(e))
      decreases Left(), 1, e, 1
    {
      match e
      case Binary(_, _, _) => CollectBinary(e);
      case Call(_, _) => CollectCall(e);
      case _ =>
    }

    method CollectArgs(es: seq<Expr>)
      requires Valid()
      modifies this`reachable
      ensures Valid() && Left() <= old(Left())
      ensures Walked(program, old(Set()), Set(), CallsArgs(es))
      decreases Left(), 1, es, 0
    {
      ghost var a := Set();
      ghost var roots: set<string> := {};
      assert es[0..] == es;
      for i := 0 to |es|
        invariant Valid() && Left() <= old(Left())
        invariant Walked(program, a, Set(), roots)
        invariant roots + CallsArgs(es[i..]) == CallsArgs(es)
      {
        ghost var b := Set();
        CollectExpr(es[i]);
        WalkedTrans(program, a, b, Set(), roots, Calls(es[i]));
        assert es[i..][1..] == es[i + 1..];
        roots := roots + Calls(es[i]);
      }
    }

    method CollectOpt(e: Option<Expr>)
      requires Valid()
      modifies this`reachable
      ensures Valid() && Left() <= old(Left())
      ensures Walked(program, old(Set()), Set(), CallsOpt(e))
      decreases Left(), 1, e, 2
    {
      if e.Some? {
        CollectExpr(e.value);
      }
    }

    method CollectIf(s: Stmt)
      requires Valid() && s.If?
      modifies this`reachable
      ensures Valid() && Left() <= old(Left())
      ensures Walked(program, old(Set()), Set(), CallsStmt(s))
      decreases Left(), 2, s, 0
    {
      ghost var a := Set();
      CollectExpr(s.cond);
      ghost var b := Set();
      CollectList(s.thn);
      WalkedTrans(program, a, b, Set(), Calls(s.cond), CallsList(s.thn));
      if s.els.Else? {
        ghost var c := Set();
        CollectList(s.els.body);
        WalkedTrans(program, a, c, Set(), Calls(s.cond) + CallsList(s.thn), CallsList(s.els.body));
      }
    }

    method CollectFor(s: Stmt)
      requires Valid() && s.For?
      modifies this`reachable
      ensures Valid() && Left() <= old(Left())
      ensures Walked(program, old(Set()), Set(), CallsStmt(s))
      decreases Left(), 2, s, 0
    {
      ghost var a := Set();
      CollectOpt(s.init);
      ghost var b := Set();
      CollectExpr(s.cond);
      WalkedTrans(program, a, b, Set(), CallsOpt(s.init), Calls(s.cond));
      ghost var c := Set();
      CollectExpr(s.step.value);
      WalkedTrans(program, a, c, Set(), CallsOpt(s.init) + Calls(s.cond), Calls(s.step.value));
      ghost var d := Set();
      CollectList(s.body);
      WalkedTrans(program, a, d, Set(), CallsOpt(s.init) + Calls(s.cond) + Calls(s.step.value), CallsList(s.body));
    }

    method CollectStmt(s: Stmt)
      requires Valid()
      modifies this`reachable
      ensures Valid() && Left() <= old(Left())
      ensures Walked(program, old(Set()), Set(), CallsStmt(s))
      decreases Left(), 2, s, 1
    {
      ghost var a := Set();
      match s
      case ExprStmt(e) => CollectExpr(e);
      case Return(e) => CollectOpt(e);
      case Block(body) => CollectList(body);
      case If(_, _, _) => CollectIf(s);
      case While(cond, body) =>
        CollectExpr(cond);
        ghost var b := Set();
        CollectList(body);
        WalkedTrans(program, a, b, Set(), Calls(cond), CallsList(body));
      case For(_, _, _, _, _) => CollectFor(s);
      case VarDecl(_, init) => CollectOpt(init);
      case Assign(_, e) => CollectExpr(e);
      case _ =>
    }

    method CollectList(ss: seq<Stmt>)
      requires Valid()
      modifies this`reachable
      ensures Valid() && Left() <= old(Left())
      ensures Walked(program, old(Set()), Set(), CallsList(ss))
      decreases Left(), 2, ss, 0
    {
      ghost var a := Set();
      ghost var roots: set<string> := {};
      assert ss[0..] == ss;
      for i := 0 to |ss|
        invariant Valid() && Left() <= old(Left())
        invariant Walked(program, a, Set(), roots)
        invariant roots + CallsList(ss[i..]) == CallsList(ss)
      {
        ghost var b := Set();
        CollectStmt(ss[i]);
        WalkedTrans(program, a, b, Set(), roots, CallsStmt(ss[i]));
        assert ss[i..][1..] == ss[i + 1..];
        roots := roots + CallsStmt(ss[i]);
      }
    }

    /** Exactly the declared functions that main or a top-level statement reaches by calls, each once. */
    method CollectReachable()
      requires Valid() && Set() == {}
      modifies this`reachable
      ensures Valid()
      ensures forall f :: f in reachable <==> ReachableFrom(program, Roots(program), f)
      ensures forall f | f in reachable :: Callees(program, f) <= Set()
      ensures ({"main"} + CallsList(program.tops)) * Declared(program) <= Set()
      ensures forall f | f in reachable :: ReachableFrom(program, {"main"} + CallsList(program.tops), f)
    {
      MarkFunctionReachable("main");
      ghost var b := Set();
      CollectList(program.tops);
      WalkedTrans(program, {}, b, Set(), {"main"}, CallsList(program.tops));
      CollectedExactly(program, Set());
    }
  }

  lemma {:induction false} SubsetSize<T>(a: set<T>, b: set<T>)
    requires a <= b
    ensures |a| <= |b| && (a != b ==> |a| < |b|)
    decreases a
  {
    if a != {} {
      var x :| x in a;
      SubsetSize(a - {x}, b - {x});
    }
  }

  /** A walk from nothing collects exactly what its roots reach. */
  lemma {:induction false} CollectedExactly(p: Program, s: set<string>)
    requires Walked(p, {}, s, Roots(p))
    ensures forall f :: f in s <==> ReachableFrom(p, Roots(p), f)
    ensures forall f | f in s :: Callees(p, f) <= s
  {
    forall f | f in s
      ensures Callees(p, f) <= s && ReachableFrom(p, Roots(p), f)
    {
      assert Added(p, s, Roots(p), f);
    }
    forall f | ReachableFrom(p, Roots(p), f)
      ensures f in s
    {
      var path: seq<string> :|
        |path| > 0 && path[0] in Roots(p) && path[0] in Declared(p) && path[|path| - 1] == f && Chain(p, path);
      ClosedContains(p, s, path, |path| - 1);
    }
  }
}
