/** The flat symbol table and the temporaries: a name is rebound exactly when it is declared again,
    every declaration gets a slot of its own, and no other instruction defines a slot's temporary. */
module LowerNames {
  import opened Wrappers
  import opened Ast
  import opened Ir
  import opened Lower
  import opened Scope
  import opened LowerShape
  import opened LowerFacts

  ghost predicate SlotAt(slots: seq<Instr>, nextTemp: nat, i: int) {
    0 <= i < |slots| ==> slots[i].Alloca? && slots[i].dest < nextTemp
  }

  ghost predicate SlotsApart(slots: seq<Instr>, i: int, j: int) {
    0 <= i < j < |slots| ==> slots[i] != slots[j]
  }

  ghost predicate SlotsOk(slots: seq<Instr>, nextTemp: nat) {
    && (forall i {:trigger SlotAt(slots, nextTemp, i)} :: SlotAt(slots, nextTemp, i))
    && (forall i, j {:trigger SlotsApart(slots, i, j)} :: SlotsApart(slots, i, j))
  }

  type Syms = map<string, Operand>

  ghost predicate EntryAt(syms: Syms, nextTemp: nat, x: string) {
    x in syms ==> syms[x].Global? || (syms[x].Temp? && syms[x].id < nextTemp)
  }

  ghost predicate SymsOk(syms: Syms, nextTemp: nat) {
    forall x {:trigger EntryAt(syms, nextTemp, x)} :: EntryAt(syms, nextTemp, x)
  }

  ghost predicate DefOk(i: Instr, slots: seq<Instr>, nextTemp: nat) {
    i.Def().Some? ==> i.Def().value < nextTemp && Alloca(i.Def().value) !in slots
  }

  ghost predicate DefAt(blocks: seq<Block>, slots: seq<Instr>, nextTemp: nat, b: int, p: int) {
    0 <= b < |blocks| && 0 <= p < |blocks[b]| ==> DefOk(blocks[b][p], slots, nextTemp)
  }

  /** Slots and names are distinct, and no instruction of a block defines a slot. */
  ghost predicate Names(st: State) {
    && SlotsOk(st.slots, st.nextTemp)
    && SymsOk(st.syms, st.nextTemp)
    && (forall b, p {:trigger DefAt(st.blocks, st.slots, st.nextTemp, b, p)} ::
          DefAt(st.blocks, st.slots, st.nextTemp, b, p))
  }

  ghost predicate SlotKept(a: seq<Instr>, b: seq<Instr>, i: Instr) {
    i in a ==> i in b
  }

  ghost predicate KeepsSlots(st: State, st': State) {
    forall i {:trigger SlotKept(st.slots, st'.slots, i)} :: SlotKept(st.slots, st'.slots, i)
  }

  /** A declared name is bound to a slot made since `nextTemp`, any other name as before. */
  ghost predicate EntryFrom(syms: Syms, nextTemp: nat, syms': Syms, slots': seq<Instr>, decls: set<string>, x: string) {
    x in syms' ==>
      if x in decls then syms'[x].Temp? && nextTemp <= syms'[x].id && Alloca(syms'[x].id) in slots'
      else x in syms && syms'[x] == syms[x]
  }

  /** From `st` to `st'` exactly the names of `decls` were declared. */
  ghost predicate Renames(st: State, st': State, decls: set<string>) {
    && Names(st')
    && st.nextTemp <= st'.nextTemp
    && KeepsSlots(st, st')
    && st'.syms.Keys == st.syms.Keys + decls
    && (forall x {:trigger EntryFrom(st.syms, st.nextTemp, st'.syms, st'.slots, decls, x)} ::
          EntryFrom(st.syms, st.nextTemp, st'.syms, st'.slots, decls, x))
  }

  lemma {:induction false} KeepsSlotsTrans(a: State, b: State, c: State)
    requires KeepsSlots(a, b) && KeepsSlots(b, c)
    ensures KeepsSlots(a, c)
  {
    forall i
      ensures SlotKept(a.slots, c.slots, i)
    {
      assert SlotKept(a.slots, b.slots, i) && SlotKept(b.slots, c.slots, i);
    }
  }

  lemma {:induction false} RenamesTrans(a: State, b: State, c: State, d: set<string>, e: set<string>)
    requires Renames(a, b, d) && Renames(b, c, e)
    ensures Renames(a, c, d + e)
  {
    KeepsSlotsTrans(a, b, c);
    forall x
      ensures EntryFrom(a.syms, a.nextTemp, c.syms, c.slots, d + e, x)
    {
      assert EntryFrom(a.syms, a.nextTemp, b.syms, b.slots, d, x)
        && EntryFrom(b.syms, b.nextTemp, c.syms, c.slots, e, x);
      if x in b.syms && x in d && x !in e {
        assert SlotKept(b.slots, c.slots, Alloca(b.syms[x].id));
      }
    }
  }

  /** Emitting and making blocks binds no name. */
  lemma {:induction false} RenamesNothing(st: State, st': State)
    requires Names(st') && st.nextTemp <= st'.nextTemp && st'.slots == st.slots && st'.syms == st.syms
    ensures Renames(st, st', {})
  {
    forall x
      ensures EntryFrom(st.syms, st.nextTemp, st'.syms, st'.slots, {}, x)
    {
    }
    forall i
      ensures SlotKept(st.slots, st'.slots, i)
    {
    }
  }

  // ----- emissions -----

  lemma {:induction false} EmitNames(st: State, i: Instr)
    requires Names(st) && DefOk(i, st.slots, st.nextTemp)
    ensures Renames(st, Emit(st, i), {})
  {
    var st' := Emit(st, i);
    forall b, p
      ensures DefAt(st'.blocks, st'.slots, st'.nextTemp, b, p)
    {
      assert DefAt(st.blocks, st.slots, st.nextTemp, b, p);
    }
    RenamesNothing(st, st');
  }

  lemma {:induction false} EmitDefNames(st: State, i: Instr)
    requires Names(st) && i.Def() == Some(st.nextTemp)
    ensures Renames(st, EmitDef(st, i), {})
  {
    var st1 := st.(nextTemp := st.nextTemp + 1);
    forall k
      ensures SlotAt(st.slots, st1.nextTemp, k)
    {
      assert SlotAt(st.slots, st.nextTemp, k);
    }
    forall x
      ensures EntryAt(st.syms, st1.nextTemp, x)
    {
      assert EntryAt(st.syms, st.nextTemp, x);
    }
    forall b, p
      ensures DefAt(st1.blocks, st1.slots, st1.nextTemp, b, p)
    {
      assert DefAt(st.blocks, st.slots, st.nextTemp, b, p);
    }
    FreshIsNoSlot(st);
    EmitNames(st1, i);
    assert EmitDef(st, i) == Emit(st1, i);
    RenamesNothing(st, EmitDef(st, i));
  }

  lemma {:induction false} FreshIsNoSlot(st: State)
    requires Names(st)
    ensures Alloca(st.nextTemp) !in st.slots
  {
    forall i | 0 <= i < |st.slots|
      ensures st.slots[i] != Alloca(st.nextTemp)
    {
      assert SlotAt(st.slots, st.nextTemp, i);
    }
  }

  lemma {:induction false} AddBlocksNames(st: State, n: nat)
    requires Names(st)
    ensures Renames(st, AddBlocks(st, n), {})
  {
    var st' := AddBlocks(st, n);
    forall b, p
      ensures DefAt(st'.blocks, st'.slots, st'.nextTemp, b, p)
    {
      assert DefAt(st.blocks, st.slots, st.nextTemp, b, p);
    }
    RenamesNothing(st, st');
  }

  lemma {:induction false} AddSlotNames(st: State, x: string)
    requires Names(st)
    ensures Renames(st, AddSlot(st, x), {x})
  {
    var st' := AddSlot(st, x);
    assert st'.slots[0] == Alloca(st.nextTemp);
    forall i
      ensures SlotAt(st'.slots, st'.nextTemp, i)
    {
      assert SlotAt(st.slots, st.nextTemp, i - 1);
    }
    forall i, j
      ensures SlotsApart(st'.slots, i, j)
    {
      assert SlotsApart(st.slots, i - 1, j - 1) && SlotAt(st.slots, st.nextTemp, j - 1);
    }
    forall y
      ensures EntryAt(st'.syms, st'.nextTemp, y) && EntryFrom(st.syms, st.nextTemp, st'.syms, st'.slots, {x}, y)
    {
      assert EntryAt(st.syms, st.nextTemp, y);
    }
    forall b, p
      ensures DefAt(st'.blocks, st'.slots, st'.nextTemp, b, p)
    {
      assert DefAt(st.blocks, st.slots, st.nextTemp, b, p);
    }
    forall i
      ensures SlotKept(st.slots, st'.slots, i)
    {
    }
  }

  // ----- expressions -----

  ghost predicate OperandOk(o: Option<Operand>, nextTemp: nat) {
    o.Some? ==> o.value.Imm? || (o.value.Temp? && o.value.id < nextTemp)
  }

  lemma {:induction false} LowerExprNames(voids: set<string>, e: Expr, st: State)
    requires Names(st)
    ensures var (st', o) := LowerExpr(voids, e, st);
            Renames(st, st', {}) && OperandOk(o, st'.nextTemp)
    decreases e, 1
  {
    match e
    case Const(_) =>
    case Var(x) =>
      if x in st.syms {
        EmitDefNames(st, Load(st.nextTemp, st.syms[x]));
      }
    case Binary(op, l, r) =>
      var (st1, a) := LowerExpr(voids, l, st);
      var (st2, b) := LowerExpr(voids, r, st1);
      LowerExprNames(voids, l, st);
      LowerExprNames(voids, r, st1);
      RenamesTrans(st, st1, st2, {}, {});
      if a.Some? && b.Some? {
        var i := BinOp(st2.nextTemp, Opcode(op), a.value, b.value);
        EmitDefNames(st2, i);
        RenamesTrans(st, st2, EmitDef(st2, i), {}, {});
      }
    case Call(f, es) =>
      var (st1, os) := LowerArgs(voids, es, st);
      LowerArgsNames(voids, es, st);
      EmitCallNames(voids, Resolve(f), os, st1);
      RenamesTrans(st, st1, EmitCall(voids, Resolve(f), os, st1).0, {}, {});
  }

  lemma {:induction false} EmitCallNames(voids: set<string>, f: string, os: seq<Option<Operand>>, st: State)
    requires Names(st)
    ensures var (st', o) := EmitCall(voids, f, os, st);
            Renames(st, st', {}) && OperandOk(o, st'.nextTemp)
  {
    if f in voids {
      EmitNames(st, CallFn(None, f, os));
    } else {
      EmitDefNames(st, CallFn(Some(st.nextTemp), f, os));
    }
  }

  lemma {:induction false} LowerArgsNames(voids: set<string>, es: seq<Expr>, st: State)
    requires Names(st)
    ensures var (st', os) := LowerArgs(voids, es, st);
            Renames(st, st', {}) && forall i | 0 <= i < |os| :: OperandOk(os[i], st'.nextTemp)
    decreases es, 0
  {
    if es == [] {
    } else {
      var (st1, o) := LowerExpr(voids, es[0], st);
      var (st2, os) := LowerArgs(voids, es[1..], st1);
      LowerExprNames(voids, es[0], st);
      LowerArgsNames(voids, es[1..], st1);
      RenamesTrans(st, st1, st2, {}, {});
    }
  }

  lemma {:induction false} LowerOr0Names(voids: set<string>, e: Option<Expr>, st: State)
    requires Names(st)
    ensures var (st', o) := LowerOr0(voids, e, st);
            Renames(st, st', {}) && OperandOk(Some(o), st'.nextTemp)
  {
    if e.Some? {
      LowerExprNames(voids, e.value, st);
    }
  }

  lemma {:induction false} LowerStoreNames(voids: set<string>, ptr: Operand, e: Option<Expr>, st: State)
    requires Names(st)
    ensures Renames(st, LowerStore(voids, ptr, e, st), {})
  {
    var (st1, o) := LowerOr0(voids, e, st);
    LowerOr0Names(voids, e, st);
    EmitNames(st1, Store(ptr, o));
    RenamesTrans(st, st1, Emit(st1, Store(ptr, o)), {}, {});
  }

  lemma {:induction false} LowerDeclNames(voids: set<string>, x: string, init: Option<Expr>, st: State)
    requires Names(st)
    ensures Renames(st, LowerDecl(voids, x, init, st), {x})
  {
    var slot := Temp(st.nextTemp);
    var st0 := AddSlot(st, x);
    var st1 := LowerStore(voids, slot, init, st0);
    AddSlotNames(st, x);
    LowerStoreNames(voids, slot, init, st0);
    RenamesTrans(st, st0, st1, {x}, {});
    assert {x} + {} == {x};
    EmitDefNames(st1, Load(st1.nextTemp, slot));
    RenamesTrans(st, st1, EmitDef(st1, Load(st1.nextTemp, slot)), {x}, {});
  }

  lemma {:induction false} DeclNext(voids: set<string>, x: string, init: Option<Expr>, st: State)
    requires Names(st)
    ensures st.nextTemp + 1 <= LowerDecl(voids, x, init, st).nextTemp
  {
    AddSlotNames(st, x);
    LowerStoreNames(voids, Temp(st.nextTemp), init, AddSlot(st, x));
  }

  lemma {:induction false} LowerAssignNames(voids: set<string>, x: string, e: Expr, st: State)
    requires Names(st)
    ensures Renames(st, LowerAssign(voids, x, e, st), {})
  {
    if x in st.syms {
      LowerStoreNames(voids, st.syms[x], Some(e), st);
    }
  }

  // ----- statements -----

  /** A visible name keeps its entry through a statement if and only if the statement does not declare it. */
  lemma {:induction false} LowerStmtNames(voids: set<string>, s: Stmt, scope: set<string>, st: State)
    requires Valid(st) && !Closed(st) && Names(st)
    requires scope <= st.syms.Keys && WellScoped(s, scope, st.loops != [])
    ensures Renames(st, LowerStmt(voids, s, st), Decls(s))
    decreases s, 1
  {
    match s
    case ExprStmt(e) => LowerExprNames(voids, e, st);
    case Return(None) => EmitNames(st, Ret(None));
    case Return(Some(e)) =>
      var (st1, o) := LowerExpr(voids, e, st);
      LowerExprNames(voids, e, st);
      EmitNames(st1, Ret(o));
      RenamesTrans(st, st1, Emit(st1, Ret(o)), {}, {});
    case Block(body) => LowerListNames(voids, body, scope, st);
    case If(_, _, _) => LowerIfNames(voids, s, scope, st);
    case While(cond, body) => LowerLoopNames(voids, cond, body, None, scope, st);
    case For(x, init, cond, step, body) =>
      var st1 := LowerDecl(voids, x, init, st);
      LowerDeclOk(voids, x, init, st);
      LowerDeclNames(voids, x, init, st);
      LowerLoopNames(voids, cond, body, Some(step), scope + {x}, st1);
      RenamesTrans(st, st1, LowerLoop(voids, cond, body, Some(step), st1), {x}, DeclsList(body));
    case Break => EmitNames(st, Br(st.loops[|st.loops| - 1].onBreak));
    case Continue => EmitNames(st, Br(st.loops[|st.loops| - 1].onContinue));
    case VarDecl(x, init) => LowerDeclNames(voids, x, init, st);
    case Assign(x, e) => LowerAssignNames(voids, x, e, st);
  }

  lemma {:induction false} LowerListNames(voids: set<string>, ss: seq<Stmt>, scope: set<string>, st: State)
    requires Valid(st) && !Closed(st) && Names(st)
    requires scope <= st.syms.Keys && WellScopedList(ss, scope, st.loops != [])
    ensures Renames(st, LowerList(voids, ss, st), DeclsList(ss))
    decreases ss, 0
  {
    if ss == [] {
    } else {
      var st1 := LowerStmt(voids, ss[0], st);
      LowerStmtOk(voids, ss[0], scope, st);
      LowerStmtNames(voids, ss[0], scope, st);
      if Closed(st1) {
        assert LowerList(voids, ss[1..], st1) == st1;
        assert DeclsList(ss) == Decls(ss[0]);
      } else {
        LowerListNames(voids, ss[1..], ScopeAfter(ss[0], scope), st1);
        RenamesTrans(st, st1, LowerList(voids, ss[1..], st1), Decls(ss[0]), DeclsList(ss[1..]));
      }
    }
  }

  lemma {:induction false} LowerArmNames(voids: set<string>, ss: seq<Stmt>, arm: nat, target: nat, scope: set<string>,
        st: State)
    requires Valid(st) && InRange(arm, |st.blocks|) && st.blocks[arm] == [] && Names(st)
    requires scope <= st.syms.Keys && WellScopedList(ss, scope, st.loops != [])
    ensures Renames(st, LowerArm(voids, ss, arm, target, st), DeclsList(ss))
    decreases ss, 1
  {
    var st0 := st.(cur := arm);
    var st1 := LowerList(voids, ss, st0);
    LowerListNames(voids, ss, scope, st0);
    EmitNames(st1, Br(target));
    RenamesTrans(st, st1, Emit(st1, Br(target)), DeclsList(ss), {});
    assert DeclsList(ss) + {} == DeclsList(ss);
  }

  lemma {:induction false} BranchNames(o: Option<Operand>, t: nat, f: nat, st: State)
    requires Names(st)
    ensures Renames(st, Branch(o, t, f, st), {})
  {
    if o.Some? {
      EmitNames(st, Cbr(o.value, t, f));
    }
  }

  lemma {:induction false} TestNames(voids: set<string>, cond: Expr, t: nat, f: nat, st: State)
    requires Names(st)
    ensures Renames(st, Test(voids, cond, t, f, st), {})
  {
    var (st1, o) := LowerExpr(voids, cond, st);
    LowerExprNames(voids, cond, st);
    BranchNames(o, t, f, st1);
    RenamesTrans(st, st1, Branch(o, t, f, st1), {}, {});
  }

  lemma {:induction false} IfHeadNames(voids: set<string>, s: Stmt, st: State)
    requires s.If? && Names(st)
    ensures Renames(st, IfHead(voids, s, st), {})
  {
    var (st1, o) := LowerExpr(voids, s.cond, st);
    LowerExprNames(voids, s.cond, st);
    var t := |st1.blocks|;
    var n := if s.els.Else? then 3 else 2;
    var st2 := AddBlocks(st1, n);
    AddBlocksNames(st1, n);
    BranchNames(o, t, t + 1, st2);
    RenamesTrans(st, st1, st2, {}, {});
    RenamesTrans(st, st2, Branch(o, t, t + 1, st2), {}, {});
  }

  lemma {:induction false} LowerIfNames(voids: set<string>, s: Stmt, scope: set<string>, st: State)
    requires s.If?
    requires Valid(st) && !Closed(st) && Names(st)
    requires scope <= st.syms.Keys && WellScoped(s, scope, st.loops != [])
    ensures Renames(st, LowerIf(voids, s, st), Decls(s))
    decreases s, 0, 1
  {
    var h := IfHead(voids, s, st);
    WiderScope(s.cond, scope, st.syms.Keys);
    IfHeadOk(voids, s, st);
    IfHeadNames(voids, s, st);
    LowerArmsNames(voids, s, |st.blocks|, scope, h);
    RenamesTrans(st, h, LowerArms(voids, s, |st.blocks|, h), {}, Decls(s));
    assert {} + Decls(s) == Decls(s);
  }

  lemma {:induction false} LowerArmsNames(voids: set<string>, s: Stmt, t: nat, scope: set<string>, h: State)
    requires s.If? && Valid(h) && Names(h) && 0 < t
    requires |h.blocks| == t + if s.els.Else? then 3 else 2
    requires forall b | t <= b < |h.blocks| :: h.blocks[b] == []
    requires scope <= h.syms.Keys && WellScoped(s, scope, h.loops != [])
    ensures Renames(h, LowerArms(voids, s, t, h), Decls(s))
    decreases s, 0, 0
  {
    if s.els.Else? {
      var c := LowerArm(voids, s.thn, t, t + 2, h);
      LowerArmOk(voids, s.thn, t, t + 2, scope, h);
      LowerArmNames(voids, s.thn, t, t + 2, scope, h);
      Kept(h.(cur := t), c, t + 1);
      LowerArmNames(voids, s.els.body, t + 1, t + 2, scope, c);
      RenamesTrans(h, c, LowerArm(voids, s.els.body, t + 1, t + 2, c), DeclsList(s.thn), DeclsList(s.els.body));
    } else {
      LowerArmNames(voids, s.thn, t, t + 1, scope, h);
      assert Decls(s) == DeclsList(s.thn);
    }
  }

  lemma {:induction false} LoopEntryNames(n: nat, st: State)
    requires Names(st)
    ensures Renames(st, LoopEntry(n, st), {})
  {
    var st0 := AddBlocks(st, n);
    AddBlocksNames(st, n);
    EmitNames(st0, Br(|st.blocks|));
    var st1 := EmitEnd(st0, Br(|st.blocks|));
    if Closed(st0) {
      assert st1 == st0;
    } else {
      RenamesTrans(st, st0, st1, {}, {});
    }
  }

  lemma {:induction false} LoopHeadNames(voids: set<string>, cond: Expr, n: nat, st: State)
    requires Names(st) && 0 < n
    ensures Renames(st, LoopHead(voids, cond, n, st), {})
  {
    var head := |st.blocks|;
    var st1 := LoopEntry(n, st);
    LoopEntryNames(n, st);
    TestNames(voids, cond, head + 1, head + n - 1, st1);
    RenamesTrans(st, st1, Test(voids, cond, head + 1, head + n - 1, st1), {}, {});
  }

  lemma {:induction false} LowerLoopNames(
      voids: set<string>, cond: Expr, body: seq<Stmt>, step: Option<Increment>, scope: set<string>, st: State)
    requires Valid(st) && !Closed(st) && Names(st)
    requires scope <= st.syms.Keys
    requires ExprIn(cond, scope) && WellScopedList(body, scope, true)
    ensures Renames(st, LowerLoop(voids, cond, body, step, st), DeclsList(body))
    decreases body, 3
  {
    var head := |st.blocks|;
    var n := if step.Some? then 4 else 3;
    var next := if step.Some? then head + 2 else head;
    var h := LoopHead(voids, cond, n, st);
    var r := LowerStep(voids, step, head, next, LowerBody(voids, body, head, n, next, h));
    assert Renames(st, h, {}) by {
      LoopHeadNames(voids, cond, n, st);
    }
    assert Renames(h, r, DeclsList(body)) by {
      WiderScope(cond, scope, st.syms.Keys);
      LoopHeadOk(voids, cond, n, st);
      BodyThenStepNames(voids, body, step, head, n, next, scope, h);
    }
    assert Renames(st, r, DeclsList(body)) by {
      RenamesTrans(st, h, r, {}, DeclsList(body));
      assert {} + DeclsList(body) == DeclsList(body);
    }
    LoopParts(voids, cond, body, step, st, n, next);
  }

  lemma {:induction false} BodyThenStepNames(
      voids: set<string>, body: seq<Stmt>, step: Option<Increment>, head: nat, n: nat, next: nat, scope: set<string>,
      h: State)
    requires Valid(h) && Names(h) && 0 < head && 2 < n && |h.blocks| == head + n && next < |h.blocks| && 0 < next
    requires h.blocks[head + 1] == []
    requires scope <= h.syms.Keys && WellScopedList(body, scope, true)
    ensures Renames(h, LowerStep(voids, step, head, next, LowerBody(voids, body, head, n, next, h)), DeclsList(body))
    decreases body, 2
  {
    var inner := Inside(h, head + n - 1, next);
    InsideValid(h, head + n - 1, next);
    LowerArmNames(voids, body, head + 1, next, scope, inner);
    var c := LowerBody(voids, body, head, n, next, h);
    LowerStepNames(voids, step, head, next, c);
    RenamesTrans(h, c, LowerStep(voids, step, head, next, c), DeclsList(body), {});
    assert DeclsList(body) + {} == DeclsList(body);
  }

  lemma {:induction false} LowerStepNames(voids: set<string>, step: Option<Increment>, head: nat, next: nat, st: State)
    requires Names(st)
    ensures Renames(st, LowerStep(voids, step, head, next, st), {})
  {
    if step.Some? {
      var st0 := st.(cur := next);
      var st1 := LowerAssign(voids, step.value.target, step.value.value, st0);
        LowerAssignNames(voids, step.value.target, step.value.value, st0);
      EmitNames(st1, Br(head));
      RenamesTrans(st0, st1, Emit(st1, Br(head)), {}, {});
        }
  }
}
