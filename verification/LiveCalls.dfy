/** Exactly which calls lowered code holds. */
module LiveCalls {
  import opened Wrappers
  import opened Ast
  import opened Ir
  import opened Source
  import opened Lower
  import opened Scope
  import opened LowerShape
  import opened LowerFacts
  import opened LowerNames
  import opened Preservation
  import opened Reachability
  import opened LoweredCalls

  // ----- the calls of the lowered part -----

  /** The calls of a statement, without those in statements that are never lowered. */
  function LiveStmt(s: Stmt): set<string>
    decreases s
  {
    match s
    case ExprStmt(e) => Calls(e)
    case Return(e) => CallsOpt(e)
    case Block(body) => LiveList(body)
    case If(cond, thn, els) => Calls(cond) + LiveList(thn) + if els.Else? then LiveList(els.body) else {}
    case While(cond, body) => Calls(cond) + LiveList(body)
    case For(_, init, cond, step, body) => CallsOpt(init) + (Calls(cond) + LiveList(body) + Calls(step.value))
    case VarDecl(_, init) => CallsOpt(init)
    case Assign(_, e) => Calls(e)
    case _ => {}
  }

  function LiveList(ss: seq<Stmt>): set<string>
    decreases ss
  {
    if ss == [] then {} else LiveStmt(ss[0]) + if Ends(ss[0]) then {} else LiveList(ss[1..])
  }

  // ----- statements -----

  /** An arm adds the calls of its statements. */
  lemma {:induction false} ArmCalls(
      voids: set<string>, ss: seq<Stmt>, arm: nat, target: nat, scope: set<string>, st: State)
    requires Valid(st) && InRange(arm, |st.blocks|) && st.blocks[arm] == []
    requires scope <= st.syms.Keys && WellScopedList(ss, scope, st.loops != [])
    ensures Called(LowerArm(voids, ss, arm, target, st).blocks) == Called(st.blocks) + LiveList(ss)
    decreases ss, 1
  {
    ListCalls(voids, ss, scope, st.(cur := arm));
    EndCalls(LowerList(voids, ss, st.(cur := arm)), Br(target));
  }

  lemma {:induction false} BothArmsCalls(
      voids: set<string>, s: Stmt, t: nat, scope: set<string>, h: State)
    requires s.If? && s.els.Else? && Valid(h) && 0 < t && |h.blocks| == t + 3
      && forall b | t <= b < |h.blocks| :: h.blocks[b] == []
    requires scope <= h.syms.Keys
    requires WellScoped(s, scope, h.loops != [])
    ensures Called(LowerArms(voids, s, t, h).blocks) == Called(h.blocks) + LiveList(s.thn) + LiveList(s.els.body)
    decreases s, 0
  {
    var c := LowerArm(voids, s.thn, t, t + 2, h);
    ArmCalls(voids, s.thn, t, t + 2, scope, h);
    LowerArmOk(voids, s.thn, t, t + 2, scope, h);
    Kept(h.(cur := t), c, t + 1);
    ArmCalls(voids, s.els.body, t + 1, t + 2, scope, c);
  }

  lemma {:induction false} IfCalls(voids: set<string>, s: Stmt, scope: set<string>, st: State)
    requires s.If? && Valid(st) && !Closed(st)
    requires scope <= st.syms.Keys && WellScoped(s, scope, st.loops != [])
    ensures Called(LowerIf(voids, s, st).blocks) == Called(st.blocks) + LiveStmt(s)
    decreases s, 1
  {
    var t := |st.blocks|;
    var h := IfHead(voids, s, st);
    WiderScope(s.cond, scope, st.syms.Keys);
    IfHeadOk(voids, s, st);
    IfHeadCalls(voids, s, st);
    if s.els.Else? {
      BothArmsCalls(voids, s, t, scope, h);
    } else {
      ArmCalls(voids, s.thn, t, t + 1, scope, h);
    }
  }

  /** The head and the body of a loop. */
  lemma {:induction false} BodyCalls(
      voids: set<string>, cond: Expr, body: seq<Stmt>, n: nat, next: nat, scope: set<string>, st: State)
    requires Valid(st) && !Closed(st) && scope <= st.syms.Keys
    requires ExprIn(cond, scope) && WellScopedList(body, scope, true)
    requires n >= 3 && InRange(next, |st.blocks| + n)
    ensures var out := LowerBody(voids, body, |st.blocks|, n, next, LoopHead(voids, cond, n, st));
      Called(out.blocks) == Called(st.blocks) + (Calls(cond) + LiveList(body))
    decreases body, 2
  {
    var head := |st.blocks|;
    var h := LoopHead(voids, cond, n, st);
    WiderScope(cond, scope, st.syms.Keys);
    LoopHeadOk(voids, cond, n, st);
    LoopHeadCalls(voids, cond, n, st);
    InsideValid(h, head + n - 1, next);
    ArmCalls(voids, body, head + 1, next, scope, Inside(h, head + n - 1, next));
  }

  lemma {:induction false} StepCalls(voids: set<string>, step: Increment, head: nat, next: nat, st: State)
    requires next < |st.blocks| && step.target in st.syms
    ensures Called(LowerStep(voids, Some(step), head, next, st).blocks) == Called(st.blocks) + Calls(step.value)
  {
    AssignCalls(voids, step.target, step.value, st.(cur := next));
    EndCalls(LowerAssign(voids, step.target, step.value, st.(cur := next)), Br(head));
  }

  lemma {:induction false} WhileCalls(voids: set<string>, cond: Expr, body: seq<Stmt>, scope: set<string>, st: State)
    requires Valid(st) && !Closed(st) && scope <= st.syms.Keys
    requires ExprIn(cond, scope) && WellScopedList(body, scope, true)
    ensures Called(LowerLoop(voids, cond, body, None, st).blocks) == Called(st.blocks) + (Calls(cond) + LiveList(body))
    decreases body, 3
  {
    BodyCalls(voids, cond, body, 3, |st.blocks|, scope, st);
    LoopParts(voids, cond, body, None, st, 3, |st.blocks|);
  }

  lemma {:induction false} BodyKeeps(
      voids: set<string>, cond: Expr, body: seq<Stmt>, scope: set<string>, st: State)
    requires Valid(st) && !Closed(st) && scope <= st.syms.Keys
    requires ExprIn(cond, scope) && WellScopedList(body, scope, true)
    ensures var out := LowerBody(voids, body, |st.blocks|, 4, |st.blocks| + 2, LoopHead(voids, cond, 4, st));
      |st.blocks| + 2 < |out.blocks| && scope <= out.syms.Keys
  {
    HeadAndBodyOk(voids, cond, body, 4, |st.blocks| + 2, scope, st);
  }

  lemma {:induction false} SteppedCalls(
      voids: set<string>, cond: Expr, body: seq<Stmt>, step: Increment, scope: set<string>, st: State)
    requires Valid(st) && !Closed(st) && scope <= st.syms.Keys
    requires ExprIn(cond, scope) && WellScopedList(body, scope, true) && StepIn(step, scope)
    ensures Called(LowerLoop(voids, cond, body, Some(step), st).blocks) ==
      Called(st.blocks) + (Calls(cond) + LiveList(body) + Calls(step.value))
    decreases body, 3
  {
    var head := |st.blocks|;
    var out := LowerBody(voids, body, head, 4, head + 2, LoopHead(voids, cond, 4, st));
    BodyCalls(voids, cond, body, 4, head + 2, scope, st);
    BodyKeeps(voids, cond, body, scope, st);
    StepCalls(voids, step, head, head + 2, out);
    LoopParts(voids, cond, body, Some(step), st, 4, head + 2);
  }

  lemma {:induction false} ForCalls(voids: set<string>, s: Stmt, scope: set<string>, st: State)
    requires s.For? && Valid(st) && !Closed(st)
    requires scope <= st.syms.Keys && WellScoped(s, scope, st.loops != [])
    ensures Called(LowerStmt(voids, s, st).blocks) == Called(st.blocks) + LiveStmt(s)
    decreases s, 0
  {
    var st1 := LowerDecl(voids, s.name, s.init, st);
    DeclCalls(voids, s.name, s.init, st);
    LowerDeclOk(voids, s.name, s.init, st);
    SteppedCalls(voids, s.cond, s.body, s.step, scope + {s.name}, st1);
  }

  lemma {:induction false} StmtCalls(voids: set<string>, s: Stmt, scope: set<string>, st: State)
    requires Valid(st) && !Closed(st)
    requires scope <= st.syms.Keys && WellScoped(s, scope, st.loops != [])
    ensures Called(LowerStmt(voids, s, st).blocks) == Called(st.blocks) + LiveStmt(s)
    decreases s, 2
  {
    match s
    case ExprStmt(e) => ExprCalls(voids, e, st);
    case Return(None) => EndCalls(st, Ret(None));
    case Return(Some(e)) =>
      ExprCalls(voids, e, st);
      EndCalls(LowerExpr(voids, e, st).0, Ret(LowerExpr(voids, e, st).1));
    case Block(body) => ListCalls(voids, body, scope, st);
    case If(_, _, _) => IfCalls(voids, s, scope, st);
    case While(cond, body) => WhileCalls(voids, cond, body, scope, st);
    case For(_, _, _, _, _) => ForCalls(voids, s, scope, st);
    case Break => EndCalls(st, Br(st.loops[|st.loops| - 1].onBreak));
    case Continue => EndCalls(st, Br(st.loops[|st.loops| - 1].onContinue));
    case VarDecl(x, init) => DeclCalls(voids, x, init, st);
    case Assign(x, e) => AssignCalls(voids, x, e, st);
  }

  lemma {:induction false} ListCalls(voids: set<string>, ss: seq<Stmt>, scope: set<string>, st: State)
    requires Valid(st) && !Closed(st)
    requires scope <= st.syms.Keys && WellScopedList(ss, scope, st.loops != [])
    ensures Called(LowerList(voids, ss, st).blocks) == Called(st.blocks) + LiveList(ss)
    decreases ss, 0
  {
    if ss == [] {
    } else {
      var st1 := LowerStmt(voids, ss[0], st);
      StmtCalls(voids, ss[0], scope, st);
      LowerStmtOk(voids, ss[0], scope, st);
      if !Closed(st1) {
        ListCalls(voids, ss[1..], ScopeAfter(ss[0], scope), st1);
      }
    }
  }

  // ----- functions -----

  /** A lowered function calls exactly what the lowered part of its source calls, and `main` the
      initialiser of the globals. */
  lemma {:induction false} FunctionCalls(
      globals: set<string>, voids: set<string>, f: Function, syms: Syms, nextTemp: nat)
    requires FunctionScoped(globals, f) && TableCovers(globals, syms, nextTemp)
    ensures Called(LowerFunction(voids, f, syms, nextTemp).blocks) ==
      LiveList(f.body) + if f.name == "main" then {INIT} else {}
  {
    var st := LowerProlog(f, syms, nextTemp);
    PrologOk(f, syms, nextTemp);
    PrologCalls(f, syms, nextTemp);
    ListCalls(voids, f.body, ParamSet(f.params) + globals, st);
    EndCalls(LowerList(voids, f.body, st), Ret(None));
  }
  // ----- what is collected -----

  /** A call in the code of one function, of a declared one: the initialiser is always there. */
  ghost predicate Missing(p: Program, s: set<string>, blocks: seq<Block>, g: string) {
    g in Called(blocks) && g in Declared(p) && g != INIT && g !in s
  }

  /** The declared functions that are called are reached by chains of calls. */
  ghost predicate Reached(p: Program, names: set<string>) {
    forall g | g in names && g in Declared(p) && g != INIT :: ReachableFrom(p, Roots(p), g)
  }

  /** For any function: no call in its code is left without its function exactly if the lowered part of its
      body calls what is reached only. */
  lemma {:induction false} CalleesLowered(
      p: Program, s: set<string>, f: Function, globals: set<string>, voids: set<string>, syms: Syms, nextTemp: nat)
    requires Walked(p, {}, s, Roots(p)) && FunctionScoped(globals, f) && TableCovers(globals, syms, nextTemp)
    ensures var blocks := LowerFunction(voids, f, syms, nextTemp).blocks;
      (forall g :: !Missing(p, s, blocks, g)) <==> Reached(p, LiveList(f.body))
  {
    var blocks := LowerFunction(voids, f, syms, nextTemp).blocks;
    FunctionCalls(globals, voids, f, syms, nextTemp);
    CollectedExactly(p, s);
    assert forall g | g != INIT :: g in Called(blocks) <==> g in LiveList(f.body);
    if Reached(p, LiveList(f.body)) {
      assert forall g :: !Missing(p, s, blocks, g);
    }
    if forall g :: !Missing(p, s, blocks, g) {
      forall g | g in LiveList(f.body) && g in Declared(p) && g != INIT
        ensures ReachableFrom(p, Roots(p), g)
      {
        assert !Missing(p, s, blocks, g);
      }
    }
  }

  // ----- first and later declarations -----

  /** Declaration `j` has the name of an earlier one. */
  predicate Later(p: Program, j: nat)
    requires j < |p.functions|
  {
    exists i :: 0 <= i < j && p.functions[i].name == p.functions[j].name
  }

  lemma {:induction false} LiveAmong(ss: seq<Stmt>)
    ensures LiveList(ss) <= CallsList(ss)
    decreases ss
  {
    if ss == [] {
    } else {
      LiveAmongStmt(ss[0]);
      LiveAmong(ss[1..]);
    }
  }

  lemma {:induction false} LiveAmongStmt(s: Stmt)
    ensures LiveStmt(s) <= CallsStmt(s)
    decreases s
  {
    match s
    case Block(body) => LiveAmong(body);
    case If(_, thn, els) =>
      LiveAmong(thn);
      if els.Else? {
        LiveAmong(els.body);
      }
    case While(_, body) => LiveAmong(body);
    case For(_, _, _, _, body) => LiveAmong(body);
    case _ =>
  }

  lemma {:induction false} FirstFound(fs: seq<Function>, j: nat)
    requires j < |fs| && forall i | 0 <= i < j :: fs[i].name != fs[j].name
    ensures Find(fs, fs[j].name) == Some(fs[j])
    decreases fs
  {
    if j == 0 {
    } else {
      assert fs[1..][j - 1] == fs[j];
      FirstFound(fs[1..], j - 1);
    }
  }

  /** The first declaration of a collected name has been walked, so what it calls is reached. */
  lemma {:induction false} FirstReached(p: Program, s: set<string>, j: nat)
    requires Walked(p, {}, s, Roots(p)) && j < |p.functions| && p.functions[j].name in s && !Later(p, j)
    ensures Reached(p, LiveList(p.functions[j].body))
  {
    CollectedExactly(p, s);
    FirstFound(p.functions, j);
    LiveAmong(p.functions[j].body);
    assert Callees(p, p.functions[j].name) <= s;
  }

  // ----- the program that is lowered -----

  /** The declarations whose names have been collected, in order: these are lowered. */
  function Collected(fs: seq<Function>, s: set<string>): seq<Function> {
    if fs == [] then [] else (if fs[0].name in s then [fs[0]] else []) + Collected(fs[1..], s)
  }

  lemma {:induction false} CollectedAre(fs: seq<Function>, s: set<string>, f: Function)
    ensures f in Collected(fs, s) <==> f in fs && f.name in s
    decreases fs
  {
    if fs == [] {
    } else {
      CollectedAre(fs[1..], s, f);
      assert fs == [fs[0]] + fs[1..];
    }
  }

  /** In all this code there is no call of a declared function that is not lowered. */
  ghost predicate Complete(p: Program, s: set<string>, code: seq<State>) {
    forall k, g | 0 <= k < |code| :: !Missing(p, s, code[k].blocks, g)
  }

  lemma {:induction false} CompleteStep(p: Program, s: set<string>, st: State, rest: seq<State>)
    ensures Complete(p, s, [st] + rest) <==> (forall g :: !Missing(p, s, st.blocks, g)) && Complete(p, s, rest)
  {
    var all := [st] + rest;
    if Complete(p, s, all) {
      assert all[0] == st;
      forall k, g | 0 <= k < |rest|
        ensures !Missing(p, s, rest[k].blocks, g)
      {
        assert all[k + 1] == rest[k];
      }
    }
  }

  lemma {:induction false} AllLowered(
      p: Program, s: set<string>, fs: seq<Function>, globals: set<string>, voids: set<string>, syms: Syms,
      nextTemp: nat)
    requires Walked(p, {}, s, Roots(p)) && TableCovers(globals, syms, nextTemp)
    requires forall f | f in fs :: FunctionScoped(globals, f)
    ensures Complete(p, s, LowerAll(voids, fs, syms, nextTemp)) <==> forall f | f in fs :: Reached(p, LiveList(f.body))
    decreases fs
  {
    if fs == [] {
    } else {
      var st := LowerFunction(voids, fs[0], syms, nextTemp);
      CalleesLowered(p, s, fs[0], globals, voids, syms, nextTemp);
      CoversAfter(globals, voids, fs[0], syms, nextTemp);
      AllLowered(p, s, fs[1..], globals, voids, st.syms, st.nextTemp);
      CompleteStep(p, s, st, LowerAll(voids, fs[1..], st.syms, st.nextTemp));
      assert fs == [fs[0]] + fs[1..];
    }
  }

  lemma {:induction false} CoversAfter(globals: set<string>, voids: set<string>, f: Function, syms: Syms, nextTemp: nat)
    requires FunctionScoped(globals, f) && TableCovers(globals, syms, nextTemp)
    ensures var fin := LowerFunction(voids, f, syms, nextTemp); TableCovers(globals, fin.syms, fin.nextTemp)
  {
    var c := Context(globals, voids, World((_, _, _) => 0, (t, g, _, _) => Answer(0, g, t)));
    FunctionPieces(c, f, syms, nextTemp);
  }

  /** The whole program: every declared function that lowered code calls is lowered too, if and only if this
      holds of what the later declarations of collected names call in their lowered parts. */
  lemma {:induction false} ProgramComplete(p: Program, s: set<string>, globals: set<string>, voids: set<string>)
    requires Walked(p, {}, s, Roots(p)) && forall f | f in p.functions && f.name in s :: FunctionScoped(globals, f)
    ensures Complete(p, s, LowerAll(voids, Collected(p.functions, s), GlobalTable(globals), 1)) <==>
      forall j | 0 <= j < |p.functions| && p.functions[j].name in s && Later(p, j) ::
        Reached(p, LiveList(p.functions[j].body))
  {
    var fs := Collected(p.functions, s);
    forall f
      ensures f in fs <==> f in p.functions && f.name in s
    {
      CollectedAre(p.functions, s, f);
    }
    GlobalTableOk(globals, 1);
    AllLowered(p, s, fs, globals, voids, GlobalTable(globals), 1);
    forall j | 0 <= j < |p.functions| && p.functions[j].name in s
      ensures p.functions[j] in fs && (!Later(p, j) ==> Reached(p, LiveList(p.functions[j].body)))
    {
      if !Later(p, j) {
        FirstReached(p, s, j);
      }
    }
    if forall j | 0 <= j < |p.functions| && p.functions[j].name in s && Later(p, j) ::
         Reached(p, LiveList(p.functions[j].body)) {
      forall f | f in fs
        ensures Reached(p, LiveList(f.body))
      {
        var j :| 0 <= j < |p.functions| && p.functions[j] == f;
      }
    }
  }

  /** function main() { f(); } function f() {} function f() { g(); } function g() {} */
  const TWICE := Program(
    [Function("main", [], [ExprStmt(Call("f", []))]), Function("f", [], []),
     Function("f", [], [ExprStmt(Call("g", []))]), Function("g", [], [])],
    [])

  /** Both declarations of f are lowered, and the code of the second one calls g, which is not lowered. */
  lemma {:induction false} SecondDeclarationMissed(s: set<string>, voids: set<string>)
    requires Walked(TWICE, {}, s, Roots(TWICE))
    ensures TWICE.functions[2] in Collected(TWICE.functions, s)
    ensures Called(LowerFunction(voids, TWICE.functions[2], GlobalTable({}), 1).blocks) == {"g"}
    ensures "g" in Declared(TWICE) && "g" !in s
    ensures !Complete(TWICE, s, LowerAll(voids, Collected(TWICE.functions, s), GlobalTable({}), 1))
  {
    var fs := TWICE.functions;
    TwiceCalls();
    TwiceCollects(s);
    CollectedAre(fs, s, fs[2]);
    GlobalTableOk({}, 1);
    FunctionCalls({}, voids, fs[2], GlobalTable({}), 1);
    ProgramComplete(TWICE, s, {}, voids);
    assert fs[1].name == fs[2].name && Later(TWICE, 2);
  }

  lemma {:induction false} TwiceCollects(s: set<string>)
    requires Walked(TWICE, {}, s, Roots(TWICE))
    ensures "f" in s && "g" !in s && "g" in Declared(TWICE) && !Reached(TWICE, {"g"})
  {
    TwiceCalls();
    CollectedExactly(TWICE, s);
    assert "main" in s && Added(TWICE, s, Roots(TWICE), "main");
    if "g" in s {
      var path: seq<string> :| |path| > 0 && path[0] in Roots(TWICE) && path[0] in Declared(TWICE)
        && path[|path| - 1] == "g" && Chain(TWICE, path);
      StaysInside(path, |path| - 1);
    }
  }

  lemma {:induction false} TwiceCalls()
    ensures var fs := TWICE.functions;
      && "f" in Declared(TWICE) && "main" in Declared(TWICE) && "g" in Declared(TWICE)
      && Callees(TWICE, "main") == {"f"} && Callees(TWICE, "f") == {} && Roots(TWICE) == {"main"}
      && (forall f | f in fs :: FunctionScoped({}, f))
      && LiveList(fs[2].body) == {"g"}
  {
    var fs := TWICE.functions;
    assert CallsList(fs[0].body) == {Resolve("f")} && CallsList(fs[2].body) == {Resolve("g")} by {
      assert fs[0].body[1..] == [] && fs[2].body[1..] == [];
    }
    assert fs[0].body[1..] == [] && fs[2].body[1..] == [];
    assert Find(fs, "main") == Some(fs[0]) && Find(fs[1..], "f") == Some(fs[1]) && Find(fs, "f") == Some(fs[1]);
    assert fs[0].name == "main" && fs[1].name == "f" && fs[3].name == "g";
  }

  lemma {:induction false} StaysInside(path: seq<string>, i: nat)
    requires Chain(TWICE, path) && i < |path| && path[0] == "main"
    requires Callees(TWICE, "main") == {"f"} && Callees(TWICE, "f") == {}
    ensures path[i] == "main" || path[i] == "f"
    decreases i
  {
    if i == 0 {
    } else {
      StaysInside(path, i - 1);
    }
  }
}
