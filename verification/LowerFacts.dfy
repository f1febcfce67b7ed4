/** What lowering a statement keeps, and which blocks it closes. A routine ends in a block that
    exists, with the loop targets it was called with; it extends the block it was called in, and closes
    every other block it makes unless a condition has no value. Proved along the structure of statements. */
module LowerFacts {
  import opened Wrappers
  import opened Ast
  import opened Ir
  import opened Lower
  import opened Scope
  import opened LowerShape

  // ----- expressions: straight-line code in the current block -----

  ghost predicate Straight(st: State, st': State) {
    && Advance(st, st')
    && !Closed(st')
    && st'.cur == st.cur
    && |st'.blocks| == |st.blocks|
    && st'.syms == st.syms
  }

  lemma {:induction false} StraightTrans(a: State, b: State, c: State)
    requires Straight(a, b) && Straight(b, c)
    ensures Straight(a, c)
  {
    AdvanceTrans(a, b, c);
  }

  lemma {:induction false} LowerExprOk(voids: set<string>, e: Expr, st: State)
    requires Valid(st) && !Closed(st)
    ensures var (st', o) := LowerExpr(voids, e, st);
            && Straight(st, st')
            && (ExprIn(e, st.syms.Keys) ==> (o.Some? <==> Valued(voids, e)))
    decreases e, 1
  {
    match e
    case Const(_) =>
    case Var(x) =>
      if x in st.syms {
        EmitDefOk(st, Load(st.nextTemp, st.syms[x]));
      }
    case Binary(op, l, r) =>
      var (st1, a) := LowerExpr(voids, l, st);
      var (st2, b) := LowerExpr(voids, r, st1);
      LowerExprOk(voids, l, st);
      LowerExprOk(voids, r, st1);
      StraightTrans(st, st1, st2);
      if a.Some? && b.Some? {
        var i := BinOp(st2.nextTemp, Opcode(op), a.value, b.value);
        EmitDefOk(st2, i);
        StraightTrans(st, st2, EmitDef(st2, i));
      }
    case Call(f, es) =>
      var (st1, os) := LowerArgs(voids, es, st);
      LowerArgsOk(voids, es, st);
      EmitCallOk(voids, Resolve(f), os, st1);
      StraightTrans(st, st1, EmitCall(voids, Resolve(f), os, st1).0);
  }

  lemma {:induction false} EmitCallOk(voids: set<string>, f: string, os: seq<Option<Operand>>, st: State)
    requires Valid(st) && !Closed(st)
    ensures var (st', o) := EmitCall(voids, f, os, st);
            && Straight(st, st')
            && (o.Some? <==> f !in voids)
  {
    if f in voids {
      EmitOk(st, CallFn(None, f, os));
    } else {
      EmitDefOk(st, CallFn(Some(st.nextTemp), f, os));
    }
  }

  lemma {:induction false} LowerArgsOk(voids: set<string>, es: seq<Expr>, st: State)
    requires Valid(st) && !Closed(st)
    ensures var (st', os) := LowerArgs(voids, es, st);
            && Straight(st, st')
            && |os| == |es|
    decreases es, 0
  {
    if es == [] {
    } else {
      var (st1, o) := LowerExpr(voids, es[0], st);
      var (st2, os) := LowerArgs(voids, es[1..], st1);
      LowerExprOk(voids, es[0], st);
      LowerArgsOk(voids, es[1..], st1);
      StraightTrans(st, st1, st2);
    }
  }

  lemma {:induction false} LowerOr0Ok(voids: set<string>, e: Option<Expr>, st: State)
    requires Valid(st) && !Closed(st)
    ensures Straight(st, LowerOr0(voids, e, st).0)
  {
    if e.Some? {
      LowerExprOk(voids, e.value, st);
    }
  }

  lemma {:induction false} LowerStoreOk(voids: set<string>, ptr: Operand, e: Option<Expr>, st: State)
    requires Valid(st) && !Closed(st)
    ensures Straight(st, LowerStore(voids, ptr, e, st))
  {
    var (st1, o) := LowerOr0(voids, e, st);
    LowerOr0Ok(voids, e, st);
    EmitOk(st1, Store(ptr, o));
    StraightTrans(st, st1, Emit(st1, Store(ptr, o)));
  }

  lemma {:induction false} LowerAssignOk(voids: set<string>, x: string, e: Expr, st: State)
    requires Valid(st) && !Closed(st)
    ensures Straight(st, LowerAssign(voids, x, e, st))
  {
    if x in st.syms {
      LowerStoreOk(voids, st.syms[x], Some(e), st);
    }
  }

  // ----- statements -----

  ghost predicate EndAt(blocks: seq<Block>, b: int) {
    0 <= b < |blocks| ==> Terminated(blocks[b])
  }

  /** Every block written or made on the way to `st'`, other than its current one, has its terminator. */
  ghost predicate AllClosed(st: State, st': State) {
    forall b {:trigger EndAt(st'.blocks, b)} | (b == st.cur || |st.blocks| <= b) && b != st'.cur :: EndAt(st'.blocks, b)
  }

  lemma {:induction false} ClosedTrans(a: State, b: State, c: State)
    requires Local(a, b) && Local(b, c) && b.cur < |b.blocks| && !Closed(b)
    ensures AllClosed(a, c) <==> AllClosed(a, b) && AllClosed(b, c)
  {
    if AllClosed(a, c) {
      forall k | (k == a.cur || |a.blocks| <= k) && k != b.cur
        ensures EndAt(b.blocks, k)
      {
        assert KeptAt(b.blocks, c.blocks, b.cur, k) && (k < |b.blocks| ==> EndAt(c.blocks, k));
      }
      forall k | (k == b.cur || |b.blocks| <= k) && k != c.cur
        ensures EndAt(c.blocks, k)
      {
      }
    }
    if AllClosed(a, b) && AllClosed(b, c) {
      forall k | (k == a.cur || |a.blocks| <= k) && k != c.cur
        ensures EndAt(c.blocks, k)
      {
        assert KeptAt(b.blocks, c.blocks, b.cur, k) && (k < |b.blocks| && k != b.cur ==> EndAt(b.blocks, k));
      }
    }
  }

  ghost predicate StmtSpec(voids: set<string>, s: Stmt, st: State) {
    var st' := LowerStmt(voids, s, st);
    && Advance(st, st')
    && (Closed(st') <==> Ends(s))
    && (CondsValued(voids, s) <==> AllClosed(st, st'))
    && (s.VarDecl? ==> s.name in st'.syms)
  }

  ghost predicate ListSpec(voids: set<string>, ss: seq<Stmt>, st: State) {
    var st' := LowerList(voids, ss, st);
    && Advance(st, st')
    && (Closed(st') <==> EndsList(ss))
    && (CondsValuedList(voids, ss) <==> AllClosed(st, st'))
  }

  lemma {:induction false} LowerDeclOk(voids: set<string>, x: string, init: Option<Expr>, st: State)
    requires Valid(st) && !Closed(st)
    ensures var st' := LowerDecl(voids, x, init, st);
            && Advance(st, st')
            && !Closed(st')
            && st'.cur == st.cur
            && |st'.blocks| == |st.blocks|
            && st'.syms == st.syms[x := Temp(st.nextTemp)]
  {
    var slot := Temp(st.nextTemp);
    var st0 := AddSlot(st, x);
    var st1 := LowerStore(voids, slot, init, st0);
    var st2 := EmitDef(st1, Load(st1.nextTemp, slot));
    AddSlotOk(st, x);
    LowerStoreOk(voids, slot, init, st0);
    EmitDefOk(st1, Load(st1.nextTemp, slot));
    AdvanceTrans(st, st0, st1);
    AdvanceTrans(st, st1, st2);
  }

  lemma {:induction false} LowerStmtOk(voids: set<string>, s: Stmt, scope: set<string>, st: State)
    requires Valid(st) && !Closed(st)
    requires scope <= st.syms.Keys && WellScoped(s, scope, st.loops != [])
    ensures StmtSpec(voids, s, st)
    decreases s, 2
  {
    match s
    case ExprStmt(e) => LowerExprOk(voids, e, st);
    case Return(None) => EmitEndOk(st, Ret(None));
    case Return(Some(e)) =>
      var (st1, o) := LowerExpr(voids, e, st);
      LowerExprOk(voids, e, st);
      EmitEndOk(st1, Ret(o));
      AdvanceTrans(st, st1, EmitEnd(st1, Ret(o)));
    case Block(body) => LowerListOk(voids, body, scope, st);
    case If(_, _, _) => LowerIfOk(voids, s, scope, st);
    case While(cond, body) => LowerLoopOk(voids, cond, body, None, scope, st);
    case For(x, init, cond, step, body) =>
      LowerForOk(voids, s, scope, st);
    case Break =>
      assert LoopAt(st.loops, |st.blocks|, |st.loops| - 1);
      EmitEndOk(st, Br(st.loops[|st.loops| - 1].onBreak));
    case Continue =>
      assert LoopAt(st.loops, |st.blocks|, |st.loops| - 1);
      EmitEndOk(st, Br(st.loops[|st.loops| - 1].onContinue));
    case VarDecl(x, init) => LowerDeclOk(voids, x, init, st);
    case Assign(x, e) => LowerAssignOk(voids, x, e, st);
  }

  lemma {:induction false} LowerForOk(voids: set<string>, s: Stmt, scope: set<string>, st: State)
    requires s.For?
    requires Valid(st) && !Closed(st)
    requires scope <= st.syms.Keys && WellScoped(s, scope, st.loops != [])
    ensures StmtSpec(voids, s, st)
    decreases s, 1
  {
    var st1 := LowerDecl(voids, s.name, s.init, st);
    LowerDeclOk(voids, s.name, s.init, st);
    LowerLoopOk(voids, s.cond, s.body, Some(s.step), scope + {s.name}, st1);
    AdvanceTrans(st, st1, LowerLoop(voids, s.cond, s.body, Some(s.step), st1));
  }

  lemma {:induction false} LowerListOk(voids: set<string>, ss: seq<Stmt>, scope: set<string>, st: State)
    requires Valid(st) && !Closed(st)
    requires scope <= st.syms.Keys && WellScopedList(ss, scope, st.loops != [])
    ensures ListSpec(voids, ss, st)
    decreases ss, 0
  {
    if ss == [] {
    } else {
      var st1 := LowerStmt(voids, ss[0], st);
      LowerStmtOk(voids, ss[0], scope, st);
      if !Closed(st1) {
        LowerListOk(voids, ss[1..], ScopeAfter(ss[0], scope), st1);
        AdvanceTrans(st, st1, LowerList(voids, ss[1..], st1));
        ClosedTrans(st, st1, LowerList(voids, ss[1..], st1));
      }
    }
  }

  /** An arm fills the blocks from `arm` on, closes them all, and leaves the others alone. */
  ghost predicate ArmSpec(voids: set<string>, ss: seq<Stmt>, arm: nat, target: nat, st: State) {
    var st' := LowerArm(voids, ss, arm, target, st);
    && Advance(st.(cur := arm), st')
    && (CondsValuedList(voids, ss) <==> ArmClosed(st, arm, st'))
  }

  ghost predicate ArmClosed(st: State, arm: nat, st': State) {
    forall b {:trigger EndAt(st'.blocks, b)} | b == arm || |st.blocks| <= b :: EndAt(st'.blocks, b)
  }

  /** A head `h` followed by one arm `c`, with lowering going on in the second of the two new blocks. */
  lemma {:induction false} OneArm(a: State, h: State, c: State)
    requires var t := |a.blocks|;
             && Valid(a) && Advance(a, h) && |h.blocks| == t + 2 && h.blocks[t + 1] == []
             && Advance(h.(cur := t), c)
    ensures var t := |a.blocks|;
            var r := c.(cur := t + 1);
            && Advance(a, r)
            && r.blocks[r.cur] == []
            && (AllClosed(a, r) <==> Terminated(h.blocks[a.cur]) && ArmClosed(h, t, c))
  {
    var t := |a.blocks|;
    AdvanceArm(a, h, t, c);
    AdvanceJump(a, c, t + 1);
    Kept(h.(cur := t), c, a.cur);
    Kept(h.(cur := t), c, t + 1);
    OneArmClosed(a, h, c);
  }

  lemma {:induction false} OneArmClosed(a: State, h: State, c: State)
    requires var t := |a.blocks|;
             a.cur < t && |h.blocks| == t + 2 && Local(h.(cur := t), c)
    ensures var t := |a.blocks|;
            AllClosed(a, c.(cur := t + 1)) <==> Terminated(h.blocks[a.cur]) && ArmClosed(h, t, c)
  {
    var t := |a.blocks|;
    Kept(h.(cur := t), c, a.cur);
    if AllClosed(a, c.(cur := t + 1)) {
      assert EndAt(c.blocks, a.cur);
      forall k | k == t || |h.blocks| <= k
        ensures EndAt(c.blocks, k)
      {
      }
    }
    if Terminated(h.blocks[a.cur]) && ArmClosed(h, t, c) {
      forall k | (k == a.cur || |a.blocks| <= k) && k != t + 1
        ensures EndAt(c.blocks, k)
      {
      }
    }
  }

  /** A head followed by two arms, with lowering going on in the third of the three new blocks. */
  lemma {:induction false} TwoArms(a: State, h: State, c: State, d: State)
    requires var t := |a.blocks|;
             && Valid(a) && Advance(a, h) && |h.blocks| == t + 3 && h.blocks[t + 2] == []
             && Advance(h.(cur := t), c) && Advance(c.(cur := t + 1), d)
    ensures var t := |a.blocks|;
            var r := d.(cur := t + 2);
            && Advance(a, r)
            && r.blocks[r.cur] == []
            && (AllClosed(a, r) <==>
                Terminated(h.blocks[a.cur]) && ArmClosed(h, t, c) && ArmClosed(c, t + 1, d))
  {
    var t := |a.blocks|;
    AdvanceArm(a, h, t, c);
    AdvanceArm(a, c, t + 1, d);
    AdvanceJump(a, d, t + 2);
    Kept(h.(cur := t), c, t + 2);
    Kept(c.(cur := t + 1), d, t + 2);
    TwoArmsClosed(a, h, c, d);
  }

  lemma {:induction false} TwoArmsClosed(a: State, h: State, c: State, d: State)
    requires var t := |a.blocks|;
             && a.cur < t && |h.blocks| == t + 3
             && Local(h.(cur := t), c) && Local(c.(cur := t + 1), d)
    ensures var t := |a.blocks|;
            AllClosed(a, d.(cur := t + 2)) <==>
            Terminated(h.blocks[a.cur]) && ArmClosed(h, t, c) && ArmClosed(c, t + 1, d)
  {
    var t := |a.blocks|;
    Kept(h.(cur := t), c, a.cur);
    Kept(c.(cur := t + 1), d, a.cur);
    if AllClosed(a, d.(cur := t + 2)) {
      assert EndAt(d.blocks, a.cur);
      forall k | k == t || |h.blocks| <= k
        ensures EndAt(c.blocks, k)
      {
        assert KeptAt(c.blocks, d.blocks, t + 1, k) && EndAt(d.blocks, k);
      }
    }
    if Terminated(h.blocks[a.cur]) && ArmClosed(h, t, c) && ArmClosed(c, t + 1, d) {
      forall k | (k == a.cur || |a.blocks| <= k) && k != t + 2
        ensures EndAt(d.blocks, k)
      {
        assert KeptAt(c.blocks, d.blocks, t + 1, k) && (k < |c.blocks| && k != t + 1 ==> EndAt(c.blocks, k));
      }
    }
  }

  lemma {:induction false} LowerArmOk(voids: set<string>, ss: seq<Stmt>, arm: nat, target: nat, scope: set<string>,
        st: State)
    requires Valid(st) && InRange(arm, |st.blocks|) && st.blocks[arm] == [] && InRange(target, |st.blocks|)
    requires scope <= st.syms.Keys && WellScopedList(ss, scope, st.loops != [])
    ensures ArmSpec(voids, ss, arm, target, st)
    decreases ss, 1
  {
    var st0 := st.(cur := arm);
    var st1 := LowerList(voids, ss, st0);
    LowerListOk(voids, ss, scope, st0);
    EmitEndOk(st1, Br(target));
    AdvanceTrans(st0, st1, EmitEnd(st1, Br(target)));
    ArmEnds(st0, st1, EmitEnd(st1, Br(target)));
  }

  /** Closing the last block of an arm leaves the others as they are. */
  lemma {:induction false} ArmEnds(a: State, b: State, c: State)
    requires Local(a, b) && Local(b, c) && |c.blocks| == |b.blocks| && b.cur < |b.blocks| && Terminated(c.blocks[b.cur])
    ensures ArmClosed(a, a.cur, c) <==> AllClosed(a, b)
  {
    if AllClosed(a, b) {
      forall k | k == a.cur || |a.blocks| <= k
        ensures EndAt(c.blocks, k)
      {
        assert KeptAt(b.blocks, c.blocks, b.cur, k) && (k < |b.blocks| && k != b.cur ==> EndAt(b.blocks, k));
      }
    }
    if ArmClosed(a, a.cur, c) {
      forall k | (k == a.cur || |a.blocks| <= k) && k != b.cur
        ensures EndAt(b.blocks, k)
      {
        assert KeptAt(b.blocks, c.blocks, b.cur, k) && EndAt(c.blocks, k);
      }
    }
  }

  lemma {:induction false} BranchOk(o: Option<Operand>, t: nat, f: nat, st: State)
    requires Valid(st) && !Closed(st) && InRange(t, |st.blocks|) && InRange(f, |st.blocks|)
    ensures var st' := Branch(o, t, f, st);
            && Advance(st, st')
            && st'.cur == st.cur
            && |st'.blocks| == |st.blocks|
            && (o.Some? <==> Closed(st'))
  {
    if o.Some? {
      EmitEndOk(st, Cbr(o.value, t, f));
    }
  }

  lemma {:induction false} IfHeadOk(voids: set<string>, s: Stmt, st: State)
    requires s.If?
    requires Valid(st) && !Closed(st) && ExprIn(s.cond, st.syms.Keys)
    ensures var st' := IfHead(voids, s, st);
            && Advance(st, st')
            && st'.cur == st.cur
            && |st'.blocks| == |st.blocks| + (if s.els.Else? then 3 else 2)
            && (forall b | |st.blocks| <= b < |st'.blocks| :: st'.blocks[b] == [])
            && (Terminated(st'.blocks[st.cur]) <==> Valued(voids, s.cond))
  {
    var (st1, o) := LowerExpr(voids, s.cond, st);
    LowerExprOk(voids, s.cond, st);
    var t := |st1.blocks|;
    var n := if s.els.Else? then 3 else 2;
    var st2 := AddBlocks(st1, n);
    AddBlocksOk(st1, n);
    AdvanceTrans(st, st1, st2);
    BranchOk(o, t, t + 1, st2);
    AdvanceTrans(st, st2, Branch(o, t, t + 1, st2));
  }

  lemma {:induction false} LowerIfOk(voids: set<string>, s: Stmt, scope: set<string>, st: State)
    requires s.If?
    requires Valid(st) && !Closed(st)
    requires scope <= st.syms.Keys && WellScoped(s, scope, st.loops != [])
    ensures StmtSpec(voids, s, st)
    decreases s, 1
  {
    var h := IfHead(voids, s, st);
    WiderScope(s.cond, scope, st.syms.Keys);
    IfHeadOk(voids, s, st);
    IfArmsOk(voids, s, scope, st, h);
  }

  lemma {:induction false} IfArmsOk(voids: set<string>, s: Stmt, scope: set<string>, a: State, h: State)
    requires s.If? && Valid(a) && Advance(a, h)
    requires |h.blocks| == |a.blocks| + if s.els.Else? then 3 else 2
    requires forall b | |a.blocks| <= b < |h.blocks| :: h.blocks[b] == []
    requires scope <= a.syms.Keys && WellScoped(s, scope, a.loops != [])
    ensures var r := LowerArms(voids, s, |a.blocks|, h);
            && Advance(a, r)
            && r.blocks[r.cur] == []
            && (AllClosed(a, r) <==>
                && Terminated(h.blocks[a.cur])
                && CondsValuedList(voids, s.thn)
                && (s.els.Else? ==> CondsValuedList(voids, s.els.body)))
    decreases s, 0, 1
  {
    if s.els.Else? {
      BothArmsOk(voids, s, scope, a, h);
    } else {
      LowerArmOk(voids, s.thn, |a.blocks|, |a.blocks| + 1, scope, h);
      OneArm(a, h, LowerArm(voids, s.thn, |a.blocks|, |a.blocks| + 1, h));
    }
  }

  lemma {:induction false} BothArmsOk(voids: set<string>, s: Stmt, scope: set<string>, a: State, h: State)
    requires s.If? && s.els.Else? && Valid(a) && Advance(a, h)
    requires |h.blocks| == |a.blocks| + 3
    requires forall b | |a.blocks| <= b < |h.blocks| :: h.blocks[b] == []
    requires scope <= a.syms.Keys && WellScoped(s, scope, a.loops != [])
    ensures var r := LowerArms(voids, s, |a.blocks|, h);
            && Advance(a, r)
            && r.blocks[r.cur] == []
            && (AllClosed(a, r) <==>
                && Terminated(h.blocks[a.cur])
                && CondsValuedList(voids, s.thn)
                && CondsValuedList(voids, s.els.body))
    decreases s, 0, 0
  {
    var t := |a.blocks|;
    var c := LowerArm(voids, s.thn, t, t + 2, h);
    LowerArmOk(voids, s.thn, t, t + 2, scope, h);
    Kept(h.(cur := t), c, t + 1);
    LowerArmOk(voids, s.els.body, t + 1, t + 2, scope, c);
    var d := LowerArm(voids, s.els.body, t + 1, t + 2, c);
    TwoArms(a, h, c, d);
    assert LowerArms(voids, s, t, h) == d.(cur := t + 2);
  }

  lemma {:induction false} AdvanceArm(a: State, b: State, t: nat, c: State)
    requires Advance(a, b) && |a.blocks| <= t < |b.blocks| && Advance(b.(cur := t), c)
    ensures Advance(a, c)
  {
    AdvanceJump(a, b, t);
    AdvanceTrans(a, b.(cur := t), c);
  }

  lemma {:induction false} LoopEntryOk(n: nat, st: State)
    requires Valid(st) && !Closed(st) && 0 < n
    ensures var st' := LoopEntry(n, st);
            && Advance(st, st')
            && st'.syms == st.syms
            && |st'.blocks| == |st.blocks| + n
            && (forall b | |st.blocks| <= b < |st'.blocks| :: st'.blocks[b] == [])
            && Terminated(st'.blocks[st.cur])
  {
    var st0 := AddBlocks(st, n);
    AddBlocksOk(st, n);
    EmitEndOk(st0, Br(|st.blocks|));
    var st1 := EmitEnd(st0, Br(|st.blocks|));
    AdvanceTrans(st, st0, st1);
    AdvanceJump(st, st1, |st.blocks|);
  }

  lemma {:induction false} TestOk(voids: set<string>, cond: Expr, t: nat, f: nat, st: State)
    requires Valid(st) && !Closed(st) && ExprIn(cond, st.syms.Keys)
    requires InRange(t, |st.blocks|) && InRange(f, |st.blocks|)
    ensures var st' := Test(voids, cond, t, f, st);
            && Advance(st, st')
            && st'.cur == st.cur
            && |st'.blocks| == |st.blocks|
            && (Closed(st') <==> Valued(voids, cond))
  {
    var (st1, o) := LowerExpr(voids, cond, st);
    LowerExprOk(voids, cond, st);
    BranchOk(o, t, f, st1);
    AdvanceTrans(st, st1, Branch(o, t, f, st1));
  }

  lemma {:induction false} LoopHeadOk(voids: set<string>, cond: Expr, n: nat, st: State)
    requires Valid(st) && !Closed(st) && ExprIn(cond, st.syms.Keys) && 2 < n
    ensures var st' := LoopHead(voids, cond, n, st);
            && Advance(st, st')
            && st'.cur == |st.blocks|
            && |st'.blocks| == |st.blocks| + n
            && (forall b | |st.blocks| < b < |st'.blocks| :: st'.blocks[b] == [])
            && Terminated(st'.blocks[st.cur])
            && (Terminated(st'.blocks[st'.cur]) <==> Valued(voids, cond))
  {
    var head := |st.blocks|;
    var st1 := LoopEntry(n, st);
    LoopEntryOk(n, st);
    TestOk(voids, cond, head + 1, head + n - 1, st1);
    HeadThenTest(st, st1, Test(voids, cond, head + 1, head + n - 1, st1));
  }

  lemma {:induction false} HeadThenTest(a: State, b: State, c: State)
    requires a.cur < |a.blocks| && Advance(a, b) && Advance(b, c) && b.cur == |a.blocks| && |c.blocks| == |b.blocks|
    ensures Advance(a, c)
    ensures c.blocks[a.cur] == b.blocks[a.cur]
    ensures forall k | |a.blocks| < k < |c.blocks| :: c.blocks[k] == b.blocks[k]
  {
    AdvanceTrans(a, b, c);
    Kept(b, c, a.cur);
    forall k | |a.blocks| < k < |c.blocks|
      ensures c.blocks[k] == b.blocks[k]
    {
      Kept(b, c, k);
    }
  }

  /** The head and the body of a loop: all is closed but the block of the step. */
  lemma {:induction false} HeadAndBodyOk(
      voids: set<string>, cond: Expr, body: seq<Stmt>, n: nat, next: nat, scope: set<string>, st: State)
    requires Valid(st) && !Closed(st)
    requires scope <= st.syms.Keys
    requires ExprIn(cond, scope) && WellScopedList(body, scope, true)
    requires (n == 3 && next == |st.blocks|) || (n == 4 && next == |st.blocks| + 2)
    ensures var head := |st.blocks|;
            var r := LowerBody(voids, body, head, n, next, LoopHead(voids, cond, n, st)).(cur := head + n - 1);
            && Advance(st, r)
            && r.blocks[r.cur] == []
            && r.blocks[head + 2] == []
            && (Valued(voids, cond) && CondsValuedList(voids, body) <==> ClosedExcept(st, r, head + 2))
    decreases body, 3
  {
    var head := |st.blocks|;
    var h := LoopHead(voids, cond, n, st);
    WiderScope(cond, scope, st.syms.Keys);
    LoopHeadOk(voids, cond, n, st);
    BodyOk(voids, body, n, next, scope, st, h);
  }

  lemma {:induction false} BodyOk(
      voids: set<string>, body: seq<Stmt>, n: nat, next: nat, scope: set<string>, a: State, h: State)
    requires Valid(a) && Advance(a, h) && Terminated(h.blocks[a.cur])
    requires scope <= a.syms.Keys && WellScopedList(body, scope, true)
    requires (n == 3 && next == |a.blocks|) || (n == 4 && next == |a.blocks| + 2)
    requires |h.blocks| == |a.blocks| + n && forall b | |a.blocks| < b < |h.blocks| :: h.blocks[b] == []
    ensures var t := |a.blocks|;
            var r := LowerBody(voids, body, t, n, next, h).(cur := t + n - 1);
            && Advance(a, r)
            && r.blocks[r.cur] == []
            && r.blocks[t + 2] == []
            && (ClosedExcept(a, r, t + 2) <==> Terminated(h.blocks[t]) && CondsValuedList(voids, body))
    decreases body, 2
  {
    var t := |a.blocks|;
    var inner := Inside(h, t + n - 1, next);
    var c := LowerArm(voids, body, t + 1, next, inner);
    assert Valid(inner) && ArmSpec(voids, body, t + 1, next, inner) by {
      InsideValid(h, t + n - 1, next);
      LowerArmOk(voids, body, t + 1, next, scope, inner);
    }
    LoopBody(a, h, inner, t + n - 1, t + 2, c);
    BodyParts(voids, body, t, n, next, h);
  }

  lemma {:induction false} LowerLoopOk(
      voids: set<string>, cond: Expr, body: seq<Stmt>, step: Option<Increment>, scope: set<string>, st: State)
    requires Valid(st) && !Closed(st)
    requires scope <= st.syms.Keys
    requires ExprIn(cond, scope) && WellScopedList(body, scope, true)
    ensures var st' := LowerLoop(voids, cond, body, step, st);
            && Advance(st, st')
            && st'.blocks[st'.cur] == []
            && (Valued(voids, cond) && CondsValuedList(voids, body) <==> AllClosed(st, st'))
    decreases body, 5
  {
    var head := |st.blocks|;
    if step.None? {
      HeadAndBodyOk(voids, cond, body, 3, head, scope, st);
      LoopParts(voids, cond, body, None, st, 3, head);
    } else {
      SteppedLoopOk(voids, cond, body, step.value, scope, st);
    }
  }

  lemma {:induction false} SteppedLoopOk(
      voids: set<string>, cond: Expr, body: seq<Stmt>, step: Increment, scope: set<string>, st: State)
    requires Valid(st) && !Closed(st)
    requires scope <= st.syms.Keys
    requires ExprIn(cond, scope) && WellScopedList(body, scope, true)
    ensures var st' := LowerLoop(voids, cond, body, Some(step), st);
            && Advance(st, st')
            && st'.blocks[st'.cur] == []
            && (Valued(voids, cond) && CondsValuedList(voids, body) <==> AllClosed(st, st'))
    decreases body, 4
  {
    var head := |st.blocks|;
    HeadAndBodyOk(voids, cond, body, 4, head + 2, scope, st);
    var out := LowerBody(voids, body, head, 4, head + 2, LoopHead(voids, cond, 4, st));
    LowerStepOk(voids, Some(step), head, head + 2, out);
    var d := LowerStep(voids, Some(step), head, head + 2, out);
    assert out.(cur := head + 3).(cur := head + 2) == out.(cur := head + 2);
    LoopStep(st, out.(cur := head + 3), head + 2, d);
    LoopParts(voids, cond, body, Some(step), st, 4, head + 2);
  }

  /** The arms of an If, seen from its head. */
  lemma {:induction false} LowerArmsOk(voids: set<string>, s: Stmt, t: nat, scope: set<string>, h: State)
    requires s.If? && Valid(h) && 0 < t
    requires |h.blocks| == t + if s.els.Else? then 3 else 2
    requires forall b | t <= b < |h.blocks| :: h.blocks[b] == []
    requires scope <= h.syms.Keys && WellScoped(s, scope, h.loops != [])
    ensures Grows(h, LowerArms(voids, s, t, h))
  {
    if s.els.Else? {
      var c := LowerArm(voids, s.thn, t, t + 2, h);
      LowerArmOk(voids, s.thn, t, t + 2, scope, h);
      Kept(h.(cur := t), c, t + 1);
      LowerArmOk(voids, s.els.body, t + 1, t + 2, scope, c);
      assert Grows(h, c);
      GrowsTrans(h, c, LowerArms(voids, s, t, h));
    } else {
      LowerArmOk(voids, s.thn, t, t + 1, scope, h);
    }
  }

  /** As AllClosed, but saying nothing of block `k`. */
  ghost predicate ClosedExcept(st: State, st': State, k: nat) {
    forall b {:trigger EndAt(st'.blocks, b)} | (b == st.cur || |st.blocks| <= b) && b != st'.cur && b != k ::
      EndAt(st'.blocks, b)
  }

  /** A loop head `h` followed by its body `c`: all is closed but the block of the step, `skip`, if there is one. */
  lemma {:induction false} LoopBody(a: State, h: State, inner: State, onBreak: nat, skip: nat, c: State)
    requires var t := |a.blocks|;
             && Valid(a) && Advance(a, h) && Terminated(h.blocks[a.cur])
             && skip == t + 2 && (onBreak == skip || onBreak == skip + 1)
             && |h.blocks| == onBreak + 1 && h.blocks[onBreak] == h.blocks[skip] == []
             && Valid(inner) && inner.blocks == h.blocks && inner.syms == h.syms && |inner.loops| > 0
             && inner.loops[..|inner.loops| - 1] == h.loops
             && Advance(inner.(cur := t + 1), c)
    ensures var t := |a.blocks|;
            var r := c.(loops := h.loops, cur := onBreak);
            && Advance(a, r)
            && r.blocks[r.cur] == []
            && r.blocks[skip] == []
            && (ClosedExcept(a, r, skip) <==> Terminated(h.blocks[t]) && ArmClosed(h, t + 1, c))
  {
    var t := |a.blocks|;
    var out := c.(loops := h.loops);
    OutsideValid(h, c);
    AdvanceArm(a, h, t + 1, out);
    AdvanceJump(a, out, onBreak);
    Kept(inner.(cur := t + 1), c, onBreak);
    Kept(inner.(cur := t + 1), c, skip);
    BodyClosed(a, h, inner, onBreak, skip, c);
  }

  lemma {:induction false} BodyClosed(a: State, h: State, inner: State, onBreak: nat, skip: nat, c: State)
    requires var t := |a.blocks|;
             && a.cur < t && skip == t + 2 && (onBreak == skip || onBreak == skip + 1)
             && |h.blocks| == onBreak + 1 && inner.blocks == h.blocks && Terminated(h.blocks[a.cur])
             && Local(inner.(cur := t + 1), c)
    ensures var t := |a.blocks|;
            ClosedExcept(a, c.(loops := h.loops, cur := onBreak), skip) <==>
            Terminated(h.blocks[t]) && ArmClosed(h, t + 1, c)
  {
    var t := |a.blocks|;
    Kept(inner.(cur := t + 1), c, a.cur);
    Kept(inner.(cur := t + 1), c, t);
    if ClosedExcept(a, c.(loops := h.loops, cur := onBreak), skip) {
      assert EndAt(c.blocks, t);
      forall k | k == t + 1 || |h.blocks| <= k
        ensures EndAt(c.blocks, k)
      {
      }
    }
    if Terminated(h.blocks[t]) && ArmClosed(h, t + 1, c) {
      forall k | (k == a.cur || |a.blocks| <= k) && k != onBreak && k != skip
        ensures EndAt(c.blocks, k)
      {
      }
    }
  }

  lemma {:induction false} LoopStep(a: State, out: State, next: nat, d: State)
    requires Advance(a, out) && |a.blocks| <= next < |out.blocks| && next != out.cur
    requires |a.blocks| <= out.cur && out.blocks[out.cur] == []
    requires Advance(out.(cur := next), d) && |d.blocks| == |out.blocks| && Terminated(d.blocks[next])
    ensures Advance(a, d.(cur := out.cur))
    ensures d.blocks[out.cur] == []
    ensures AllClosed(a, d.(cur := out.cur)) <==> ClosedExcept(a, out, next)
  {
    AdvanceArm(a, out, next, d);
    AdvanceJump(a, d, out.cur);
    Kept(out.(cur := next), d, out.cur);
    if AllClosed(a, d.(cur := out.cur)) {
      forall k | (k == a.cur || |a.blocks| <= k) && k != out.cur && k != next
        ensures EndAt(out.blocks, k)
      {
        assert KeptAt(out.blocks, d.blocks, next, k) && EndAt(d.blocks, k);
      }
    }
    if ClosedExcept(a, out, next) {
      forall k | (k == a.cur || |a.blocks| <= k) && k != out.cur
        ensures EndAt(d.blocks, k)
      {
        assert KeptAt(out.blocks, d.blocks, next, k) && (k < |out.blocks| && k != next ==> EndAt(out.blocks, k));
      }
    }
  }

  lemma {:induction false} LowerStepOk(voids: set<string>, step: Option<Increment>, head: nat, next: nat, st: State)
    requires step.Some? && Valid(st.(cur := next)) && InRange(head, |st.blocks|) && st.blocks[next] == []
    ensures var st' := LowerStep(voids, step, head, next, st);
            && Advance(st.(cur := next), st')
            && st'.cur == next
            && |st'.blocks| == |st.blocks|
            && Terminated(st'.blocks[next])
  {
    var st0 := st.(cur := next);
    var st1 := LowerAssign(voids, step.value.target, step.value.value, st0);
    LowerAssignOk(voids, step.value.target, step.value.value, st0);
    EmitEndOk(st1, Br(head));
    AdvanceTrans(st0, st1, EmitEnd(st1, Br(head)));
  }
}
