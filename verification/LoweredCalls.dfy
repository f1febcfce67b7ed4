/** The calls in lowered code are those of the source. */
module LoweredCalls {
  import opened Wrappers
  import opened Ast
  import opened Ir
  import opened Lower
  import opened Reachability

  // ----- the calls in blocks -----

  function Called(blocks: seq<Block>): set<string> {
    set b, k | 0 <= b < |blocks| && 0 <= k < |blocks[b]| && blocks[b][k].CallFn? :: blocks[b][k].callee
  }

  function CallOf(i: Instr): set<string> {
    if i.CallFn? then {i.callee} else {}
  }

  lemma {:induction false} EmitCalls(st: State, i: Instr)
    requires st.cur < |st.blocks|
    ensures Called(Emit(st, i).blocks) == Called(st.blocks) + CallOf(i)
  {
    var before, after := st.blocks, Emit(st, i).blocks;
    var last := |before[st.cur]|;
    assert after[st.cur][last] == i;
    forall g | g in Called(before)
      ensures g in Called(after)
    {
      var b, k :| 0 <= b < |before| && 0 <= k < |before[b]| && before[b][k].CallFn? && before[b][k].callee == g;
      assert after[b][k] == before[b][k];
    }
    forall g | g in Called(after)
      ensures g in Called(before) + CallOf(i)
    {
      var b, k :| 0 <= b < |after| && 0 <= k < |after[b]| && after[b][k].CallFn? && after[b][k].callee == g;
      if b != st.cur || k < last {
        assert before[b][k] == after[b][k];
      }
    }
  }

  /** Code has been added to the current block, with these calls. */
  ghost predicate Adds(st: State, st': State, names: set<string>) {
    st'.cur == st.cur && |st'.blocks| == |st.blocks| && Called(st'.blocks) == Called(st.blocks) + names
  }

  lemma {:induction false} EndCalls(st: State, i: Instr)
    requires i.IsTerminator()
    ensures Adds(st, EmitEnd(st, i), {})
  {
    if !Closed(st) && st.cur < |st.blocks| {
      EmitCalls(st, i);
    }
  }

  lemma {:induction false} AddBlocksCalls(st: State, n: nat)
    ensures Called(AddBlocks(st, n).blocks) == Called(st.blocks)
  {
    var before, after := st.blocks, AddBlocks(st, n).blocks;
    forall g | g in Called(before)
      ensures g in Called(after)
    {
      var b, k :| 0 <= b < |before| && 0 <= k < |before[b]| && before[b][k].CallFn? && before[b][k].callee == g;
      assert after[b][k] == before[b][k];
    }
  }

  // ----- expressions -----

  lemma {:induction false} ExprCalls(voids: set<string>, e: Expr, st: State)
    requires st.cur < |st.blocks|
    ensures Adds(st, LowerExpr(voids, e, st).0, Calls(e))
    decreases e, 1
  {
    match e
    case Const(_) =>
    case Var(x) =>
      if x in st.syms {
        EmitCalls(st, Load(st.nextTemp, st.syms[x]));
      }
    case Binary(op, l, r) =>
      var (st1, a) := LowerExpr(voids, l, st);
      ExprCalls(voids, l, st);
      var (st2, b) := LowerExpr(voids, r, st1);
      ExprCalls(voids, r, st1);
      if a.Some? && b.Some? {
        EmitCalls(st2, BinOp(st2.nextTemp, Opcode(op), a.value, b.value));
      }
    case Call(f, es) =>
      var (st1, os) := LowerArgs(voids, es, st);
      ArgsCalls(voids, es, st);
      EmitCalls(st1, CallFn(None, Resolve(f), os));
      EmitCalls(st1, CallFn(Some(st1.nextTemp), Resolve(f), os));
  }

  lemma {:induction false} ArgsCalls(voids: set<string>, es: seq<Expr>, st: State)
    requires st.cur < |st.blocks|
    ensures Adds(st, LowerArgs(voids, es, st).0, CallsArgs(es))
    decreases es, 0
  {
    if es == [] {
    } else {
      ExprCalls(voids, es[0], st);
      ArgsCalls(voids, es[1..], LowerExpr(voids, es[0], st).0);
    }
  }

  lemma {:induction false} StoreCalls(voids: set<string>, ptr: Operand, e: Option<Expr>, st: State)
    requires st.cur < |st.blocks|
    ensures Adds(st, LowerStore(voids, ptr, e, st), CallsOpt(e))
  {
    if e.Some? {
      ExprCalls(voids, e.value, st);
    }
    var (st1, o) := LowerOr0(voids, e, st);
    EmitCalls(st1, Store(ptr, o));
  }

  lemma {:induction false} DeclCalls(voids: set<string>, x: string, init: Option<Expr>, st: State)
    requires st.cur < |st.blocks|
    ensures Adds(st, LowerDecl(voids, x, init, st), CallsOpt(init))
  {
    var slot := Temp(st.nextTemp);
    StoreCalls(voids, slot, init, AddSlot(st, x));
    var st1 := LowerStore(voids, slot, init, AddSlot(st, x));
    EmitCalls(st1, Load(st1.nextTemp, slot));
  }

  lemma {:induction false} AssignCalls(voids: set<string>, x: string, e: Expr, st: State)
    requires st.cur < |st.blocks| && x in st.syms
    ensures Adds(st, LowerAssign(voids, x, e, st), Calls(e))
  {
    StoreCalls(voids, st.syms[x], Some(e), st);
  }

  // ----- statements -----

  lemma {:induction false} BranchCalls(o: Option<Operand>, t: nat, f: nat, st: State)
    ensures Adds(st, Branch(o, t, f, st), {})
  {
    if o.Some? {
      EndCalls(st, Cbr(o.value, t, f));
    }
  }

  lemma {:induction false} IfHeadCalls(voids: set<string>, s: Stmt, st: State)
    requires s.If? && st.cur < |st.blocks|
    ensures Called(IfHead(voids, s, st).blocks) == Called(st.blocks) + Calls(s.cond)
    ensures |IfHead(voids, s, st).blocks| == |st.blocks| + if s.els.Else? then 3 else 2
  {
    var (st1, o) := LowerExpr(voids, s.cond, st);
    var n := if s.els.Else? then 3 else 2;
    ExprCalls(voids, s.cond, st);
    AddBlocksCalls(st1, n);
    BranchCalls(o, |st1.blocks|, |st1.blocks| + 1, AddBlocks(st1, n));
  }

  lemma {:induction false} LoopHeadCalls(voids: set<string>, cond: Expr, n: nat, st: State)
    requires 0 < n
    ensures Called(LoopHead(voids, cond, n, st).blocks) == Called(st.blocks) + Calls(cond)
    ensures |LoopHead(voids, cond, n, st).blocks| == |st.blocks| + n
  {
    var entry := LoopEntry(n, st);
    assert Called(entry.blocks) == Called(st.blocks) && entry.cur < |entry.blocks| == |st.blocks| + n by {
      AddBlocksCalls(st, n);
      EndCalls(AddBlocks(st, n), Br(|st.blocks|));
    }
    ExprCalls(voids, cond, entry);
    var (st1, o) := LowerExpr(voids, cond, entry);
    BranchCalls(o, |st.blocks| + 1, |st.blocks| + n - 1, st1);
  }

  // ----- nothing but the calls of the source -----

  /** Lowering has gone on to a block that exists, with no calls but these. */
  ghost predicate Within(st: State, st': State, names: set<string>) {
    st'.cur < |st'.blocks| && |st.blocks| <= |st'.blocks| && Called(st'.blocks) <= Called(st.blocks) + names
  }

  lemma {:induction false} AssignWithin(voids: set<string>, x: string, e: Expr, st: State)
    requires st.cur < |st.blocks|
    ensures Within(st, LowerAssign(voids, x, e, st), Calls(e))
  {
    if x in st.syms {
      AssignCalls(voids, x, e, st);
    }
  }

  lemma {:induction false} ArmWithin(voids: set<string>, ss: seq<Stmt>, arm: nat, target: nat, st: State)
    requires arm < |st.blocks|
    ensures Within(st, LowerArm(voids, ss, arm, target, st), CallsList(ss))
    decreases ss, 1
  {
    ListWithin(voids, ss, st.(cur := arm));
    EndCalls(LowerList(voids, ss, st.(cur := arm)), Br(target));
  }

  lemma {:induction false} IfWithin(voids: set<string>, s: Stmt, st: State)
    requires s.If? && st.cur < |st.blocks|
    ensures Within(st, LowerIf(voids, s, st), CallsStmt(s))
    decreases s, 0
  {
    var t := |st.blocks|;
    var h := IfHead(voids, s, st);
    IfHeadCalls(voids, s, st);
    if s.els.Else? {
      ArmWithin(voids, s.thn, t, t + 2, h);
      ArmWithin(voids, s.els.body, t + 1, t + 2, LowerArm(voids, s.thn, t, t + 2, h));
    } else {
      ArmWithin(voids, s.thn, t, t + 1, h);
    }
  }

  lemma {:induction false} StepWithin(voids: set<string>, step: Option<Increment>, head: nat, next: nat, st: State)
    requires next < |st.blocks|
    ensures var st' := LowerStep(voids, step, head, next, st);
      && |st.blocks| <= |st'.blocks|
      && Called(st'.blocks) <= Called(st.blocks) + if step.Some? then Calls(step.value.value) else {}
  {
    if step.Some? {
      AssignWithin(voids, step.value.target, step.value.value, st.(cur := next));
      EndCalls(LowerAssign(voids, step.value.target, step.value.value, st.(cur := next)), Br(head));
    }
  }

  lemma {:induction false} LoopWithin(
      voids: set<string>, cond: Expr, body: seq<Stmt>, step: Option<Increment>, st: State)
    ensures Within(st, LowerLoop(voids, cond, body, step, st),
              Calls(cond) + CallsList(body) + if step.Some? then Calls(step.value.value) else {})
    decreases body, 2
  {
    var head := |st.blocks|;
    var n := if step.Some? then 4 else 3;
    var next := if step.Some? then head + 2 else head;
    var h := LoopHead(voids, cond, n, st);
    LoopHeadCalls(voids, cond, n, st);
    ArmWithin(voids, body, head + 1, next, Inside(h, head + n - 1, next));
    StepWithin(voids, step, head, next, LowerBody(voids, body, head, n, next, h));
    LoopParts(voids, cond, body, step, st, n, next);
  }

  lemma {:induction false} StmtWithin(voids: set<string>, s: Stmt, st: State)
    requires st.cur < |st.blocks|
    ensures Within(st, LowerStmt(voids, s, st), CallsStmt(s))
    decreases s, 1
  {
    match s
    case ExprStmt(e) => ExprCalls(voids, e, st);
    case Return(None) => EndCalls(st, Ret(None));
    case Return(Some(e)) =>
      ExprCalls(voids, e, st);
      EndCalls(LowerExpr(voids, e, st).0, Ret(LowerExpr(voids, e, st).1));
    case Block(body) => ListWithin(voids, body, st);
    case If(_, _, _) => IfWithin(voids, s, st);
    case While(cond, body) => LoopWithin(voids, cond, body, None, st);
    case For(x, init, cond, step, body) =>
      DeclCalls(voids, x, init, st);
      LoopWithin(voids, cond, body, Some(step), LowerDecl(voids, x, init, st));
    case Break =>
      if st.loops != [] {
        EndCalls(st, Br(st.loops[|st.loops| - 1].onBreak));
      }
    case Continue =>
      if st.loops != [] {
        EndCalls(st, Br(st.loops[|st.loops| - 1].onContinue));
      }
    case VarDecl(x, init) => DeclCalls(voids, x, init, st);
    case Assign(x, e) => AssignWithin(voids, x, e, st);
  }

  lemma {:induction false} ListWithin(voids: set<string>, ss: seq<Stmt>, st: State)
    requires st.cur < |st.blocks|
    ensures Within(st, LowerList(voids, ss, st), CallsList(ss))
    decreases ss, 0
  {
    if ss != [] && !Closed(st) {
      StmtWithin(voids, ss[0], st);
      ListWithin(voids, ss[1..], LowerStmt(voids, ss[0], st));
    }
  }

  // ----- functions -----

  lemma {:induction false} ParamsCalls(ps: seq<string>, index: nat, st: State)
    requires st.cur < |st.blocks|
    ensures Adds(st, LowerParams(ps, index, st), {})
    decreases ps
  {
    if ps == [] {
    } else {
      EmitCalls(AddSlot(st, ps[0]), Store(Temp(st.nextTemp), Param(index)));
      ParamsCalls(ps[1..], index + 1, Emit(AddSlot(st, ps[0]), Store(Temp(st.nextTemp), Param(index))));
    }
  }

  lemma {:induction false} PrologCalls(f: Function, syms: map<string, Operand>, nextTemp: nat)
    ensures LowerProlog(f, syms, nextTemp).cur < |LowerProlog(f, syms, nextTemp).blocks|
    ensures Called(LowerProlog(f, syms, nextTemp).blocks) == if f.name == "main" then {INIT} else {}
  {
    var st := EmptyState(syms, nextTemp);
    EmitCalls(st, CallFn(None, INIT, []));
    ParamsCalls(f.params, 0, if f.name == "main" then Emit(st, CallFn(None, INIT, [])) else st);
  }

  /** A lowered function calls only what its source calls, and `main` the initialiser of the globals. */
  lemma {:induction false} FunctionWithin(voids: set<string>, f: Function, syms: map<string, Operand>, nextTemp: nat)
    ensures Called(LowerFunction(voids, f, syms, nextTemp).blocks) <=
      CallsList(f.body) + if f.name == "main" then {INIT} else {}
  {
    PrologCalls(f, syms, nextTemp);
    ListWithin(voids, f.body, LowerProlog(f, syms, nextTemp));
    EndCalls(LowerList(voids, f.body, LowerProlog(f, syms, nextTemp)), Ret(None));
  }
}
