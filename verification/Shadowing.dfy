/** When one flat table serves all functions. */
module Shadowing {
  import opened Wrappers
  import opened Ast
  import opened Ir
  import opened Source
  import opened Lower
  import opened Scope
  import opened LowerNames
  import opened Relation
  import opened Preservation
  import opened Resolution

  // ----- the simple condition is enough -----

  /** Without any shadowing the table is right for everything that is visible. */
  lemma {:induction false} NoShadowFaithful(s: Stmt, scope: set<string>, inLoop: bool)
    requires WellScoped(s, scope, inLoop) && NoShadow(s, scope)
    ensures Faithful(s, scope)
    decreases s
  {
    NoShadowDecls(s, scope);
    match s
    case Block(body) => NoShadowFaithfulList(body, scope, inLoop);
    case If(_, thn, els) =>
      NoShadowFaithfulList(thn, scope, inLoop);
      if els.Else? {
        NoShadowDeclsList(thn, scope);
        assert scope - DeclsList(thn) == scope;
        NoShadowFaithfulList(els.body, scope, inLoop);
      }
    case While(_, body) => NoShadowFaithfulList(body, scope, true);
    case For(x, init, _, _, body) =>
      NoShadowDeclsList(body, scope + {x});
      assert scope - {x} == scope && scope + {x} - DeclsList(body) == scope + {x};
      NoShadowFaithfulList(body, scope + {x}, true);
    case VarDecl(x, init) => assert scope - {x} == scope;
    case _ =>
  }

  lemma {:induction false} NoShadowFaithfulList(ss: seq<Stmt>, scope: set<string>, inLoop: bool)
    requires WellScopedList(ss, scope, inLoop) && NoShadowList(ss, scope)
    ensures FaithfulList(ss, scope)
    decreases ss
  {
    if ss == [] {
    } else {
      NoShadowFaithful(ss[0], scope, inLoop);
      if !Ends(ss[0]) {
        NoShadowDecls(ss[0], scope);
        assert GoodAfter(ss[0], scope) == ScopeAfter(ss[0], scope);
        NoShadowFaithfulList(ss[1..], ScopeAfter(ss[0], scope), inLoop);
      }
    }
  }

  // ----- an inner declaration outlives its block -----

  /** function f(x) { { set x = 2; } return x; } */
  const SHADOWING := Function("f", ["x"], [Block([VarDecl("x", Some(Const(2)))]), Return(Some(Var("x")))])

  const SHADOWING_CODE: Code :=
    [[Alloca(1), Alloca(0), Store(Temp(0), Param(0)), Store(Temp(1), Imm(2)), Load(2, Temp(1)), Load(3, Temp(1)),
      Ret(Some(Temp(3)))]]

  lemma {:induction false} EmitSingle(st: State, b: Block, i: Instr, r: Block)
    requires st.blocks == [b] && st.cur == 0 && b + [i] == r
    ensures Emit(st, i) == st.(blocks := [r])
  {
    assert st.blocks[0 := b + [i]] == [r];
  }

  const I0 := Store(Temp(0), Param(0))
  const I1 := Store(Temp(1), Imm(2))
  const I2 := Load(2, Temp(1))
  const I3 := Load(3, Temp(1))
  const I4 := Ret(Some(Temp(3)))

  /** The state after the parameter, and after the inner declaration. */
  const PROLOG_STATE := State([Alloca(0)], [[I0]], 0, [], map["x" := Temp(0)], 1)
  const DECLARED_STATE := State([Alloca(1), Alloca(0)], [[I0, I1, I2]], 0, [], map["x" := Temp(1)], 3)

  lemma {:induction false} ShadowingProlog()
    ensures LowerProlog(SHADOWING, map[], 0) == PROLOG_STATE
  {
    var a := AddSlot(EmptyState(map[], 0), "x");
    assert a == State([Alloca(0)], [[]], 0, [], map["x" := Temp(0)], 1);
    EmitSingle(a, [], I0, [I0]);
    assert ["x"][1..] == [];
  }

  lemma {:induction false} ShadowingDeclaration()
    ensures LowerStmt({}, Block([VarDecl("x", Some(Const(2)))]), PROLOG_STATE) == DECLARED_STATE
  {
    var st := AddSlot(PROLOG_STATE, "x");
    assert st == State([Alloca(1), Alloca(0)], [[I0]], 0, [], map["x" := Temp(1)], 2);
    EmitSingle(st, [I0], I1, [I0, I1]);
    var stored := st.(blocks := [[I0, I1]]);
    assert LowerStore({}, Temp(1), Some(Const(2)), st) == stored;
    EmitSingle(stored, [I0, I1], I2, [I0, I1, I2]);
    var decl := VarDecl("x", Some(Const(2)));
    assert LowerStmt({}, decl, PROLOG_STATE) == DECLARED_STATE;
    assert [decl][1..] == [] && LowerList({}, [decl], PROLOG_STATE) == DECLARED_STATE;
  }

  lemma {:induction false} ShadowingReturn() returns (st: State)
    ensures LowerList({}, [Return(Some(Var("x")))], DECLARED_STATE) == st
    ensures st == DECLARED_STATE.(blocks := [[I0, I1, I2, I3, I4]], nextTemp := 4)
  {
    EmitSingle(DECLARED_STATE, [I0, I1, I2], I3, [I0, I1, I2, I3]);
    var loaded := DECLARED_STATE.(blocks := [[I0, I1, I2, I3]], nextTemp := 4);
    EmitSingle(loaded, [I0, I1, I2, I3], I4, [I0, I1, I2, I3, I4]);
    st := loaded.(blocks := [[I0, I1, I2, I3, I4]]);
    var r := Return(Some(Var("x")));
    assert LowerStmt({}, r, DECLARED_STATE) == st;
    assert [r][1..] == [];
  }

  lemma {:induction false} ShadowingCode()
    ensures CodeOf(LowerFunction({}, SHADOWING, map[], 0)) == SHADOWING_CODE
  {
    ShadowingProlog();
    ShadowingDeclaration();
    var st := ShadowingReturn();
    assert SHADOWING.body[1..] == [Return(Some(Var("x")))];
    assert LowerList({}, SHADOWING.body, PROLOG_STATE) == st;
    assert st.slots + st.blocks[0] == SHADOWING_CODE[0];
  }

  /** The source returns its argument; the lowered function returns 2. */
  lemma {:induction false} ShadowingChangesMeaning(w: World, a: int, g: Globals)
    ensures var c := Context({}, {}, w);
            && FunctionScoped({}, SHADOWING)
            && CondsValuedList({}, SHADOWING.body)
            && !FaithfulList(SHADOWING.body, {"x"})
            && CallFunction(c, SHADOWING, [a], g, [], 0).Returned?
            && CallFunction(c, SHADOWING, [a], g, [], 0).result == Some(a)
            && Run(Machine(CodeOf(LowerFunction({}, SHADOWING, map[], 0)), [a], w), Start(g, []), 7)
              == Done(Some(2), g, [])
  {
    ShadowingCode();
    ShadowingRun(w, a, g);
    ShadowingSource(w, a, g);
  }

  lemma {:induction false} ShadowingSource(w: World, a: int, g: Globals)
    ensures var c := Context({}, {}, w);
            && FunctionScoped({}, SHADOWING)
            && CondsValuedList({}, SHADOWING.body)
            && !FaithfulList(SHADOWING.body, {"x"})
            && CallFunction(c, SHADOWING, [a], g, [], 0).Returned?
            && CallFunction(c, SHADOWING, [a], g, [], 0).result == Some(a)
  {
    ShadowingScoped();
    ShadowingMeans(Context({}, {}, w), a, g);
  }

  /** Everything is in order with the body but the inner declaration of a name in use. */
  lemma {:induction false} ShadowingScoped()
    ensures FunctionScoped({}, SHADOWING) && CondsValuedList({}, SHADOWING.body) && !FaithfulList(SHADOWING.body, {"x"})
  {
    assert SHADOWING.body[1..] == [Return(Some(Var("x")))];
    assert [Return(Some(Var("x")))][1..] == [];
    assert [VarDecl("x", Some(Const(2)))][1..] == [];
    assert {"x"} - {"x"} == {};
  }

  lemma {:induction false} ShadowingMeans(c: Context, a: int, g: Globals)
    requires c.globals == {} && c.voids == {}
    ensures var o := CallFunction(c, SHADOWING, [a], g, [], 0); o.Returned? && o.result == Some(a)
  {
    var r := Return(Some(Var("x")));
    var outer: Env := [map["x" := a]];
    var s0 := Mem([map[]], g, []);
    var s1 := Mem(outer, g, []);
    var s2 := s1.(env := Push(outer));
    assert BindParams(["x"], [a], s0) == s1 by {
      assert Declare(s0.env, "x", a) == outer;
      assert ["x"][1..] == [];
    }
    InnerBlock(c, s2);
    assert Read(c, s2, "x") == Some(a) by {
      var env := Push(outer);
      assert outer[..0] == [] && env[..1] == outer && env[1] == map[];
      assert "x" in Keys(outer) && Lookup(outer, "x") == a;
      assert "x" in Keys(env) && Lookup(env, "x") == Lookup(outer, "x");
    }
    assert [r][1..] == [] && SHADOWING.body[1..] == [r];
    assert ExecList(c, [r], s2, 0) == Returned(Some(a), s2);
  }

  lemma {:induction false} InnerBlock(c: Context, s: Mem)
    requires |s.env| > 0
    ensures Exec(c, SHADOWING.body[0], s, 0) == Normal(s)
  {
    var decl := VarDecl("x", Some(Const(2)));
    var s1 := s.(env := Push(s.env));
    var s2 := s1.(env := Declare(s1.env, "x", 2));
    assert Exec(c, decl, s1, 0) == Normal(s2);
    assert [decl][1..] == [];
    assert ExecList(c, [decl], s1, 0) == Normal(s2);
    assert Pop(s2.env) == s.env;
  }

  lemma {:induction false} ShadowingRun(w: World, a: int, g: Globals)
    ensures Run(Machine(SHADOWING_CODE, [a], w), Start(g, []), 7) == Done(Some(2), g, [])
  {
    var m := Machine(SHADOWING_CODE, [a], w);
    var m0 := EMPTY_MEMORY.(globals := g);
    var m1 := SetReg(m0, 1, Cell(0)).(next := 1);
    var m2 := SetReg(m1, 0, Cell(1)).(next := 2);
    var m3 := m2.(cells := map[1 := a]);
    var m4 := m3.(cells := map[1 := a, 0 := 2]);
    var m5 := SetReg(m4, 2, Int(2));
    var m6 := SetReg(m5, 3, Int(2));
    assert Ir.Step(m, At(0, 0, m0)) == At(0, 1, m1);
    assert Ir.Step(m, At(0, 1, m1)) == At(0, 2, m2);
    assert Ir.Step(m, At(0, 2, m2)) == At(0, 3, m3);
    assert Ir.Step(m, At(0, 3, m3)) == At(0, 4, m4);
    assert Ir.Step(m, At(0, 4, m4)) == At(0, 5, m5);
    assert Ir.Step(m, At(0, 5, m5)) == At(0, 6, m6);
    assert Ir.Step(m, At(0, 6, m6)) == Done(Some(2), g, []);
    assert Run(m, At(0, 6, m6), 1) == Done(Some(2), g, []);
    assert Run(m, At(0, 4, m4), 3) == Done(Some(2), g, []);
    assert Run(m, At(0, 2, m2), 5) == Done(Some(2), g, []);
  }

  // ----- the condition on a program is exact -----

  /** The slots of the parameters, in the scope that holds them. */
  function ParamFrames(ps: seq<string>, nextTemp: nat, fr: Frames): (r: Frames)
    requires |fr| > 0
    ensures |r| == |fr|
    decreases ps
  {
    if ps == [] then fr else ParamFrames(ps[1..], nextTemp + 1, DeclareSlot(fr, ps[0], Temp(nextTemp)))
  }

  /** Every name looked up while the function is lowered has the entry that it means there. */
  predicate FunctionResolves(voids: set<string>, f: Function, syms: Syms, nextTemp: nat, globals: set<string>) {
    ResolvesList(voids, f.body, LowerProlog(f, syms, nextTemp), ParamFrames(f.params, nextTemp, [map[]]) + [map[]],
      globals)
  }

  /** Every name looked up while all functions are lowered, over one table that is never cleared. */
  predicate ProgramResolves(voids: set<string>, fs: seq<Function>, syms: Syms, nextTemp: nat, globals: set<string>) {
    fs == [] ||
    (FunctionResolves(voids, fs[0], syms, nextTemp, globals) &&
     var fin := LowerFunction(voids, fs[0], syms, nextTemp);
     ProgramResolves(voids, fs[1..], fin.syms, fin.nextTemp, globals))
  }

  lemma {:induction false} FromParams(
      ps: seq<string>, index: nat, st: State, fr: Frames, globals: set<string>, good: set<string>)
    requires InEntry(st) && From(st, fr, globals, good)
    ensures var st' := LowerParams(ps, index, st);
      InEntry(st') && From(st', ParamFrames(ps, st.nextTemp, fr), globals, good + ParamSet(ps))
    decreases ps
  {
    if ps == [] {
      assert good + ParamSet(ps) == good;
    } else {
      var st2 := Emit(AddSlot(st, ps[0]), Store(Temp(st.nextTemp), Param(index)));
      var fr1 := DeclareSlot(fr, ps[0], Temp(st.nextTemp));
      ParamStates(ps[0], index, st);
      ExactDeclared(st.syms, fr, globals, good, ps[0], Temp(st.nextTemp));
      DeclareBelow(fr, ps[0], st.nextTemp);
      FromParams(ps[1..], index + 1, st2, fr1, globals, good + {ps[0]});
      ParamSetStep(good, ps);
    }
  }

  lemma {:induction false} FromProlog(f: Function, syms: Syms, nextTemp: nat, globals: set<string>, known: set<string>)
    requires TableCovers(globals, syms, nextTemp) && Exactly(syms, [], globals, known)
    ensures From(LowerProlog(f, syms, nextTemp), ParamFrames(f.params, nextTemp, [map[]]) + [map[]], globals,
              known + ParamSet(f.params))
  {
    var none: Frames := [];
    var st := InitState(f, syms, nextTemp);
    InitStateOk(f, syms, nextTemp);
    ExactPush(syms, none, globals, known);
    assert none + [map[]] == [map[]];
    FromParams(f.params, 0, st, [map[]], globals, known);
    FromPush(LowerProlog(f, syms, nextTemp), ParamFrames(f.params, nextTemp, [map[]]), globals, known
      + ParamSet(f.params));
  }

  /** The names that a function uses resolve exactly under the static condition. */
  lemma {:induction false} FunctionExactly(
      c: Context, known: set<string>, f: Function, syms: Syms, nextTemp: nat)
    requires FunctionScoped(c.globals, f) && TableCovers(c.globals, syms, nextTemp)
    requires Exactly(syms, [], c.globals, known)
    ensures FunctionResolves(c.voids, f, syms, nextTemp, c.globals) <==>
      FaithfulList(f.body, known + ParamSet(f.params))
  {
    FunctionPieces(c, f, syms, nextTemp);
    FromProlog(f, syms, nextTemp, c.globals, known);
    ResolvesListExactly(c.voids, f.body, ParamSet(f.params) + c.globals, LowerProlog(f, syms, nextTemp),
      ParamFrames(f.params, nextTemp, [map[]]) + [map[]], c.globals, known + ParamSet(f.params));
  }

  /** After a function the table has exactly those globals right that it had right and the function does
      not declare. */
  lemma {:induction false} TableExactly(c: Context, known: set<string>, f: Function, syms: Syms, nextTemp: nat)
    requires FunctionScoped(c.globals, f) && TableCovers(c.globals, syms, nextTemp)
    requires Exactly(syms, [], c.globals, known)
    ensures var fin := LowerFunction(c.voids, f, syms, nextTemp);
      TableCovers(c.globals, fin.syms, fin.nextTemp) && Exactly(fin.syms, [], c.globals, known - Declares(f))
  {
    var st0 := EmptyState(syms, nextTemp);
    var st := LowerProlog(f, syms, nextTemp);
    var st1 := LowerList(c.voids, f.body, st);
    var fin := LowerFunction(c.voids, f, syms, nextTemp);
    FunctionPieces(c, f, syms, nextTemp);
    ExactKept(st0, st, ParamSet(f.params), [], c.globals, known);
    ExactKept(st, st1, DeclsList(f.body), [], c.globals, known - ParamSet(f.params));
    ExactKept(st1, fin, {}, [], c.globals, known - ParamSet(f.params) - DeclsList(f.body));
    assert known - ParamSet(f.params) - DeclsList(f.body) - {} == known - Declares(f);
  }

  /** The part of `ProgramFaithful` that is about names. */
  predicate NamesFaithful(known: set<string>, fs: seq<Function>) {
    fs == [] ||
    (FaithfulList(fs[0].body, known + ParamSet(fs[0].params)) && NamesFaithful(known - Declares(fs[0]), fs[1..]))
  }

  lemma {:induction false} FaithfulParts(c: Context, known: set<string>, fs: seq<Function>)
    ensures ProgramFaithful(c, known, fs) <==>
      NamesFaithful(known, fs) && forall i | 0 <= i < |fs| :: CondsValuedList(c.voids, fs[i].body)
    decreases fs
  {
    if fs == [] {
    } else {
      FaithfulParts(c, known - Declares(fs[0]), fs[1..]);
      assert fs == [fs[0]] + fs[1..];
    }
  }

  /** For any program over any table: every name that is looked up resolves to the declaration in scope if and
      only if each function uses only names that those before it have left right. */
  lemma {:induction false} ProgramResolvesExactly(
      c: Context, known: set<string>, fs: seq<Function>, syms: Syms, nextTemp: nat)
    requires forall i | 0 <= i < |fs| :: FunctionScoped(c.globals, fs[i])
    requires TableCovers(c.globals, syms, nextTemp) && Exactly(syms, [], c.globals, known)
    ensures ProgramResolves(c.voids, fs, syms, nextTemp, c.globals) <==> NamesFaithful(known, fs)
    decreases fs
  {
    if fs == [] {
    } else {
      var fin := LowerFunction(c.voids, fs[0], syms, nextTemp);
      FunctionExactly(c, known, fs[0], syms, nextTemp);
      TableExactly(c, known, fs[0], syms, nextTemp);
      ProgramResolvesExactly(c, known - Declares(fs[0]), fs[1..], fin.syms, fin.nextTemp);
    }
  }

  /** From the table of all globals, as a new lowerer makes it: the condition of the main results is that all
      names resolve and all conditions have values. */
  lemma {:induction false} FaithfulExactly(c: Context, fs: seq<Function>, nextTemp: nat)
    requires forall i | 0 <= i < |fs| :: FunctionScoped(c.globals, fs[i])
    ensures ProgramFaithful(c, c.globals, fs) <==>
      && ProgramResolves(c.voids, fs, GlobalTable(c.globals), nextTemp, c.globals)
      && forall i | 0 <= i < |fs| :: CondsValuedList(c.voids, fs[i].body)
  {
    var syms := GlobalTable(c.globals);
    GlobalTableOk(c.globals, nextTemp);
    forall x
      ensures ExactAt(syms, [], c.globals, c.globals, x)
    {
    }
    ProgramResolvesExactly(c, c.globals, fs, syms, nextTemp);
    FaithfulParts(c, c.globals, fs);
  }

  // ----- a local outlives its function -----

  /** function f() { set x = 5; } where x is also a global, followed by function h() { return x; } */
  const LOCAL := Function("f", [], [VarDecl("x", Some(Const(5)))])
  const READER := Function("h", [], [Return(Some(Var("x")))])

  lemma {:induction false} LocalEntry(syms: Syms)
    ensures LowerFunction({}, LOCAL, syms, 0).syms == syms["x" := Temp(0)]
  {
    var st := LowerProlog(LOCAL, syms, 0);
    var st1 := LowerStmt({}, LOCAL.body[0], st);
    assert st1.syms == syms["x" := Temp(0)];
    assert LOCAL.body[1..] == [];
    assert LowerList({}, LOCAL.body, st) == st1;
  }

  lemma {:induction false} ReaderCode(syms: Syms, n: nat)
    requires "x" in syms && syms["x"] == Temp(0)
    ensures CodeOf(LowerFunction({}, READER, syms, n)) == [[Load(n, Temp(0)), Ret(Some(Temp(n)))]]
  {
    var st := EmptyState(syms, n);
    assert LowerProlog(READER, syms, n) == st;
    var i, r := Load(n, Temp(0)), Ret(Some(Temp(n)));
    EmitSingle(st, [], i, [i]);
    var st1 := st.(blocks := [[i]], nextTemp := n + 1);
    EmitSingle(st1, [i], r, [i, r]);
    var st2 := st1.(blocks := [[i, r]]);
    assert LowerStmt({}, READER.body[0], st) == st2;
    assert READER.body[1..] == [];
    assert LowerList({}, READER.body, st) == st2;
    assert [] + [i, r] == [i, r];
  }

  lemma {:induction false} ReaderMeans(w: World, g: Globals)
    ensures var o := CallFunction(Context({"x"}, {}, w), READER, [], g, [], 0);
            o.Returned? && o.result == Some(ReadGlobal(g, "x"))
  {
    var c := Context({"x"}, {}, w);
    var one: Env := [map[]];
    var s := Mem(Push(one), g, []);
    assert Keys(s.env) == {} by {
      assert Pop(one) == [] && Pop(Push(one)) == one;
    }
    assert Exec(c, READER.body[0], s, 0) == Returned(Some(ReadGlobal(g, "x")), s);
    assert ExecList(c, READER.body, s, 0) == Returned(Some(ReadGlobal(g, "x")), s);
  }

  /** Each function by itself is in order, the second after the first is not. */
  lemma {:induction false} ReaderScoped(c: Context)
    requires c.voids == {}
    ensures FunctionScoped({"x"}, LOCAL) && FunctionScoped({"x"}, READER)
    ensures FunctionFaithful({"x"}, {}, LOCAL) && FunctionFaithful({"x"}, {}, READER)
    ensures !ProgramFaithful(c, {"x"}, [LOCAL, READER])
  {
    var fs := [LOCAL, READER];
    assert fs[1..] == [READER] && fs[1..][1..] == [];
    assert Declares(LOCAL) == {"x"};
    assert READER.body[1..] == [] && LOCAL.body[1..] == [];
    assert {"x"} + ParamSet([]) == {"x"};
    assert {"x"} - Declares(LOCAL) + ParamSet([]) == {};
  }

  /** The reader returns the global; its lowered code reads the other function's slot, which does not
      exist while it runs, and gets stuck. Neither of the two shadows anything it uses. */
  lemma {:induction false} LeakingLocalChangesMeaning(w: World, g: Globals)
    ensures FunctionScoped({"x"}, LOCAL) && FunctionScoped({"x"}, READER)
    ensures FunctionFaithful({"x"}, {}, LOCAL) && FunctionFaithful({"x"}, {}, READER)
    ensures !ProgramFaithful(Context({"x"}, {}, w), {"x"}, [LOCAL, READER])
    ensures !ProgramResolves({}, [LOCAL, READER], GlobalTable({"x"}), 0, {"x"})
    ensures var o := CallFunction(Context({"x"}, {}, w), READER, [], g, [], 0);
            o.Returned? && o.result == Some(ReadGlobal(g, "x"))
    ensures var code := LowerAll({}, [LOCAL, READER], GlobalTable({"x"}), 0);
            |code| == 2 && Run(Machine(CodeOf(code[1]), [], w), Start(g, []), 1) == Stuck
  {
    ReaderScoped(Context({"x"}, {}, w));
    FaithfulExactly(Context({"x"}, {}, w), [LOCAL, READER], 0);
    ReaderMeans(w, g);
    LeakingCode(w, g);
  }

  lemma {:induction false} LeakingCode(w: World, g: Globals)
    ensures var code := LowerAll({}, [LOCAL, READER], GlobalTable({"x"}), 0);
            |code| == 2 && Run(Machine(CodeOf(code[1]), [], w), Start(g, []), 1) == Stuck
  {
    var syms := GlobalTable({"x"});
    var st := LowerFunction({}, LOCAL, syms, 0);
    LocalEntry(syms);
    ReaderCode(st.syms, st.nextTemp);
    var fs := [LOCAL, READER];
    LowerAllLength({}, fs, syms, 0);
    assert fs[1..] == [READER];
    assert LowerAll({}, fs, syms, 0)[1] == LowerFunction({}, READER, st.syms, st.nextTemp);
    var m := Machine([[Load(st.nextTemp, Temp(0)), Ret(Some(Temp(st.nextTemp)))]], [], w);
    assert Run(m, Start(g, []), 1) == Ir.Step(m, Start(g, []));
  }
}
