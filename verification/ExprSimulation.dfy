/** Running the code of an expression computes its value and performs its calls. The code is
    straight-line, so one lemma per kind of expression follows the instructions one after the other; the
    value ends up in the operand that the lowering returned, and no local changes on the way. */
module ExprSimulation {
  import opened Wrappers
  import opened Ast
  import opened Ir
  import opened Source
  import opened Lower
  import opened Scope
  import opened LowerShape
  import opened LowerFacts
  import opened LowerNames
  import opened Relation

  // ----- positions in the finished code -----

  function Offset(fin: State, b: nat): nat {
    if b == 0 then |fin.slots| else 0
  }

  /** Where the next instruction of `st` will go. */
  function Here(fin: State, st: State, mem: Memory): Config
    requires st.cur < |st.blocks|
  {
    At(st.cur, Offset(fin, st.cur) + |st.blocks[st.cur]|, mem)
  }

  /** The finished code contains what has been lowered so far. */
  ghost predicate Within(st: State, fin: State) {
    Grows(st, fin) && KeepsSlots(st, fin)
  }

  ghost predicate Linked(c: Context, m: Machine, fin: State) {
    m.code == CodeOf(fin) && m.world == c.world && Names(fin) && fin.blocks != []
  }

  ghost predicate Ready(c: Context, m: Machine, fin: State, s: Mem, fr: Frames, st: State, mem: Memory) {
    Linked(c, m, fin) && Valid(st) && !Closed(st) && Names(st) && Rel(c, s, fr, fin, mem)
  }

  /** The instruction emitted next is the one executed next. */
  lemma {:induction false} StepHere(c: Context, m: Machine, fin: State, st: State, i: Instr, mem: Memory)
    requires Linked(c, m, fin) && st.cur < |st.blocks| && Grows(Emit(st, i), fin)
    ensures var p := Offset(fin, st.cur) + |st.blocks[st.cur]|;
            Run(m, Here(fin, st, mem), 1) == Perform(m, i, st.cur, p, mem)
    ensures DefOk(i, fin.slots, fin.nextTemp)
  {
    var b, k := st.cur, |st.blocks[st.cur]|;
    assert Emit(st, i).blocks[b][k] == i;
    assert GrowsAt(Emit(st, i).blocks, fin.blocks, b);
    assert fin.blocks[b][k] == i;
    assert DefAt(fin.blocks, fin.slots, fin.nextTemp, b, k);
    assert m.code[b][Offset(fin, b) + k] == i;
    assert Run(m, Here(fin, st, mem), 1) == Step(m, Here(fin, st, mem));
  }

  // ----- expressions -----

  ghost predicate RegKept(mem: Memory, mem': Memory, n: nat, t: nat) {
    t < n && t in mem.regs ==> t in mem'.regs && mem'.regs[t] == mem.regs[t]
  }

  /** The temporaries below `n` are as they were. */
  ghost predicate Keeps(mem: Memory, mem': Memory, n: nat) {
    forall t: nat {:trigger RegKept(mem, mem', n, t)} :: RegKept(mem, mem', n, t)
  }

  lemma {:induction false} KeepsTrans(a: Memory, b: Memory, c: Memory, n: nat, n': nat)
    requires Keeps(a, b, n) && Keeps(b, c, n') && n <= n'
    ensures Keeps(a, c, n)
  {
    forall t: nat
      ensures RegKept(a, c, n, t)
    {
      assert RegKept(a, b, n, t) && RegKept(b, c, n', t);
    }
  }

  lemma {:induction false} KeepsSet(mem: Memory, t: nat, v: Value)
    ensures Keeps(mem, SetReg(mem, t, v), t)
  {
    forall u: nat
      ensures RegKept(mem, SetReg(mem, t, v), t, u)
    {
    }
  }

  lemma {:induction false} KeepsSame(mem: Memory, mem': Memory, n: nat)
    requires mem'.regs == mem.regs
    ensures Keeps(mem, mem', n)
  {
    forall u: nat
      ensures RegKept(mem, mem', n, u)
    {
    }
  }

  lemma {:induction false} NumberKept(m: Machine, mem: Memory, mem': Memory, n: nat, o: Operand)
    requires Keeps(mem, mem', n) && OperandOk(Some(o), n) && Number(m, mem, o).Some?
    ensures Number(m, mem', o) == Number(m, mem, o)
  {
    if o.Temp? {
      assert RegKept(mem, mem', n, o.id);
    }
  }

  /** What running the code between `st` and `st'` achieves: it ends at `st'` with store `s'`. */
  ghost predicate Reaches(
      c: Context, m: Machine, fin: State, st: State, mem: Memory, n: nat, st': State, mem': Memory, s': Mem,
      fr': Frames)
  {
    && st.cur < |st.blocks| && st'.cur < |st'.blocks|
    && Run(m, Here(fin, st, mem), n) == Here(fin, st', mem')
    && Rel(c, s', fr', fin, mem')
    && Keeps(mem, mem', st.nextTemp)
  }

  lemma {:induction false} ReachesTrans(
      c: Context, m: Machine, fin: State, st: State, mem: Memory, j: nat, st1: State, mem1: Memory, s1: Mem,
      fr1: Frames, k: nat, st2: State, mem2: Memory, s2: Mem, fr2: Frames)
    requires Reaches(c, m, fin, st, mem, j, st1, mem1, s1, fr1) && Reaches(c, m, fin, st1, mem1, k, st2, mem2, s2, fr2)
    requires st.nextTemp <= st1.nextTemp
    ensures Reaches(c, m, fin, st, mem, j + k, st2, mem2, s2, fr2)
  {
    RunAdd(m, Here(fin, st, mem), j, k);
    KeepsTrans(mem, mem1, mem2, st.nextTemp, st1.nextTemp);
  }

  lemma {:induction false} WithinBefore(st: State, st': State, fin: State)
    requires Grows(st, st') && KeepsSlots(st, st') && Within(st', fin)
    ensures Within(st, fin)
  {
    GrowsTrans(st, st', fin);
    KeepsSlotsTrans(st, st', fin);
  }

  /** One instruction that defines the next temporary as the number `v`. */
  lemma {:induction false} SimDef(c: Context, m: Machine, fin: State, s: Mem, fr: Frames, st: State, i: Instr,
        mem: Memory, v: int)
    requires Ready(c, m, fin, s, fr, st, mem)
    requires i.Def() == Some(st.nextTemp) && Within(EmitDef(st, i), fin)
    requires forall b: nat, p: nat :: Perform(m, i, b, p, mem) == At(b, p + 1, SetReg(mem, st.nextTemp, Int(v)))
    ensures Reaches(c, m, fin, st, mem, 1, EmitDef(st, i), SetReg(mem, st.nextTemp, Int(v)), s, fr)
  {
    StepHere(c, m, fin, st, i, mem);
    RelSetReg(c, s, fr, fin, mem, st.nextTemp, Int(v));
    KeepsSet(mem, st.nextTemp, Int(v));
  }

  lemma {:induction false} SimExpr(c: Context, m: Machine, fin: State, e: Expr, s: Mem, fr: Frames, good: set<string>,
        st: State, mem: Memory)
      returns (n: nat, mem': Memory)
    requires Ready(c, m, fin, s, fr, st, mem)
    requires Within(LowerExpr(c.voids, e, st).0, fin) && Good(st.syms, fr, c.globals, good) && ExprIn(e, good)
    ensures var (st', o) := LowerExpr(c.voids, e, st);
            var (v, s') := Eval(c, e, s);
            && Reaches(c, m, fin, st, mem, n, st', mem', s', fr)
            && (o.Some? <==> v.Some?)
            && (o.Some? ==> Number(m, mem', o.value) == v)
    decreases e, 2
  {
    LowerExprOk(c.voids, e, st);
    LowerExprNames(c.voids, e, st);
    match e
    case Const(_) =>
      n, mem' := 0, mem;
      KeepsSame(mem, mem, st.nextTemp);
    case Var(x) =>
      assert GoodAt(st.syms, fr, c.globals, good, x);
      RelRead(c, s, fr, fin, m, mem, x);
      var v := Read(c, s, x).value;
      n, mem' := 1, SetReg(mem, st.nextTemp, Int(v));
      SimDef(c, m, fin, s, fr, st, Load(st.nextTemp, st.syms[x]), mem, v);
    case Binary(op, l, r) =>
      n, mem' := SimBinary(c, m, fin, op, l, r, s, fr, good, st, mem);
    case Call(f, es) =>
      n, mem' := SimCall(c, m, fin, f, es, s, fr, good, st, mem);
  }

  /** The operation itself, its operands being computed. */
  lemma {:induction false} SimOperate(
      c: Context, m: Machine, fin: State, op: Ast.BinOp, a: Operand, b: Operand, x: int, y: int, s: Mem, fr: Frames,
      st: State, mem: Memory)
      returns (mem': Memory)
    requires Ready(c, m, fin, s, fr, st, mem) && Number(m, mem, a) == Some(x) && Number(m, mem, b) == Some(y)
    requires Within(EmitDef(st, BinOp(st.nextTemp, Opcode(op), a, b)), fin)
    ensures Reaches(c, m, fin, st, mem, 1, EmitDef(st, BinOp(st.nextTemp, Opcode(op), a, b)), mem', s, fr)
    ensures Number(m, mem', Temp(st.nextTemp)) == Some(c.world.op(op, x, y))
  {
    var v := c.world.op(op, x, y);
    SimDef(c, m, fin, s, fr, st, BinOp(st.nextTemp, Opcode(op), a, b), mem, v);
    mem' := SetReg(mem, st.nextTemp, Int(v));
  }

  lemma {:induction false} SimBinary(
      c: Context, m: Machine, fin: State, op: Ast.BinOp, l: Expr, r: Expr, s: Mem, fr: Frames, good: set<string>,
      st: State, mem: Memory)
      returns (n: nat, mem': Memory)
    requires Ready(c, m, fin, s, fr, st, mem)
    requires Within(LowerExpr(c.voids, Binary(op, l, r), st).0, fin)
    requires Good(st.syms, fr, c.globals, good) && ExprIn(l, good) && ExprIn(r, good)
    ensures var (st', o) := LowerExpr(c.voids, Binary(op, l, r), st);
            var (v, s') := Eval(c, Binary(op, l, r), s);
            && Reaches(c, m, fin, st, mem, n, st', mem', s', fr)
            && (o.Some? <==> v.Some?)
            && (o.Some? ==> Number(m, mem', o.value) == v)
    decreases Binary(op, l, r), 1
  {
    var (st2, a, b) := LowerBoth(c.voids, l, r, st);
    var (x, y, s2) := EvalBoth(c, l, r, s);
    if a.Some? && b.Some? {
      var i := BinOp(st2.nextTemp, Opcode(op), a.value, b.value);
      assert Within(st2, fin) by {
        LowerBothOk(c.voids, l, r, st);
        EmitDefNames(st2, i);
        EmitDefOk(st2, i);
        WithinBefore(st2, EmitDef(st2, i), fin);
      }
      var mem2;
      n, mem2 := SimBoth(c, m, fin, op, l, r, s, fr, good, st, mem);
      LowerBothOk(c.voids, l, r, st);
      mem' := SimOperate(c, m, fin, op, a.value, b.value, x.value, y.value, s2, fr, st2, mem2);
      ReachesTrans(c, m, fin, st, mem, n, st2, mem2, s2, fr, 1, EmitDef(st2, i), mem', s2, fr);
      n := n + 1;
    } else {
      n, mem' := SimBoth(c, m, fin, op, l, r, s, fr, good, st, mem);
    }
  }

  function LowerBoth(voids: set<string>, l: Expr, r: Expr, st: State): (State, Option<Operand>, Option<Operand>) {
    var (st1, a) := LowerExpr(voids, l, st);
    var (st2, b) := LowerExpr(voids, r, st1);
    (st2, a, b)
  }

  function EvalBoth(c: Context, l: Expr, r: Expr, s: Mem): (Option<int>, Option<int>, Mem) {
    var (x, s1) := Eval(c, l, s);
    var (y, s2) := Eval(c, r, s1);
    (x, y, s2)
  }

  lemma {:induction false} LowerBothOk(voids: set<string>, l: Expr, r: Expr, st: State)
    requires Valid(st) && !Closed(st) && Names(st)
    ensures var st2 := LowerBoth(voids, l, r, st).0;
            Valid(st2) && !Closed(st2) && Names(st2) && st2.syms == st.syms && st.nextTemp <= st2.nextTemp
  {
    var st1 := LowerExpr(voids, l, st).0;
    LowerExprOk(voids, l, st);
    LowerExprNames(voids, l, st);
    LowerExprOk(voids, r, st1);
    LowerExprNames(voids, r, st1);
  }

  lemma {:induction false} SimBoth(
      c: Context, m: Machine, fin: State, op: Ast.BinOp, l: Expr, r: Expr, s: Mem, fr: Frames, good: set<string>,
      st: State, mem: Memory)
      returns (n: nat, mem': Memory)
    requires Ready(c, m, fin, s, fr, st, mem)
    requires Within(LowerBoth(c.voids, l, r, st).0, fin)
    requires Good(st.syms, fr, c.globals, good) && ExprIn(l, good) && ExprIn(r, good)
    ensures var (st', a, b) := LowerBoth(c.voids, l, r, st);
            var (x, y, s') := EvalBoth(c, l, r, s);
            && Reaches(c, m, fin, st, mem, n, st', mem', s', fr)
            && (a.Some? <==> x.Some?)
            && (b.Some? <==> y.Some?)
            && (a.Some? ==> Number(m, mem', a.value) == x)
            && (b.Some? ==> Number(m, mem', b.value) == y)
    decreases Binary(op, l, r), 0
  {
    assert l < Binary(op, l, r) && r < Binary(op, l, r);
    var (st1, a) := LowerExpr(c.voids, l, st);
    var (st2, b) := LowerExpr(c.voids, r, st1);
    LowerExprOk(c.voids, l, st);
    LowerExprNames(c.voids, l, st);
    assert Within(st1, fin) by {
      LowerExprOk(c.voids, r, st1);
      LowerExprNames(c.voids, r, st1);
      WithinBefore(st1, st2, fin);
    }
    var s1 := Eval(c, l, s).1;
    var s2 := Eval(c, r, s1).1;
    var n1, mem1 := SimExpr(c, m, fin, l, s, fr, good, st, mem);
    var n2, mem2 := SimExpr(c, m, fin, r, s1, fr, good, st1, mem1);
    ReachesTrans(c, m, fin, st, mem, n1, st1, mem1, s1, fr, n2, st2, mem2, s2, fr);
    n, mem' := n1 + n2, mem2;
    if a.Some? {
      NumberKept(m, mem1, mem2, st1.nextTemp, a.value);
    }
  }

  /** The call itself, its arguments being computed. */
  lemma {:induction false} SimInvoke(
      c: Context, m: Machine, fin: State, g: string, os: seq<Option<Operand>>, ns: seq<Option<int>>, s: Mem,
      fr: Frames, st: State, mem: Memory)
      returns (mem': Memory)
    requires Linked(c, m, fin) && st.cur < |st.blocks| && Rel(c, s, fr, fin, mem) && Numbers(m, mem, os) == Some(ns)
    requires Within(EmitCall(c.voids, g, os, st).0, fin) && !Closed(st) && Valid(st) && Names(st)
    ensures var (st', o) := EmitCall(c.voids, g, os, st);
            && Reaches(c, m, fin, st, mem, 1, st', mem', EvalCall(c, g, ns, s).1, fr)
            && (o.Some? ==> Number(m, mem', o.value) == EvalCall(c, g, ns, s).0)
  {
    EmitCallOk(c.voids, g, os, st);
    EmitCallNames(c.voids, g, os, st);
    var t := if g in c.voids then None else Some(st.nextTemp);
    mem' := Invoke(c.world, mem, t, g, ns);
    StepHere(c, m, fin, if t.Some? then st.(nextTemp := st.nextTemp + 1) else st, CallFn(t, g, os), mem);
    RelCall(c, s, fr, fin, mem, g, ns, t);
    CallKeeps(c.world, mem, t, g, ns, st.nextTemp);
  }

  lemma {:induction false} SimCall(
      c: Context, m: Machine, fin: State, f: string, es: seq<Expr>, s: Mem, fr: Frames, good: set<string>, st: State,
      mem: Memory)
      returns (n: nat, mem': Memory)
    requires Ready(c, m, fin, s, fr, st, mem)
    requires Within(LowerExpr(c.voids, Call(f, es), st).0, fin)
    requires Good(st.syms, fr, c.globals, good) && forall i | 0 <= i < |es| :: ExprIn(es[i], good)
    ensures var (st', o) := LowerExpr(c.voids, Call(f, es), st);
            var (v, s') := Eval(c, Call(f, es), s);
            && Reaches(c, m, fin, st, mem, n, st', mem', s', fr)
            && (o.Some? <==> v.Some?)
            && (o.Some? ==> Number(m, mem', o.value) == v)
    decreases Call(f, es), 0
  {
    var g := Resolve(f);
    var (st1, os) := LowerArgs(c.voids, es, st);
    var st2 := EmitCall(c.voids, g, os, st1).0;
    LowerArgsOk(c.voids, es, st);
    LowerArgsNames(c.voids, es, st);
    EmitCallOk(c.voids, g, os, st1);
    EmitCallNames(c.voids, g, os, st1);
    WithinBefore(st1, st2, fin);
    var (ns, s1) := EvalArgs(c, es, s);
    var mem1;
    n, mem1 := SimArgs(c, m, fin, es, s, fr, good, st, mem);
    mem' := SimInvoke(c, m, fin, g, os, ns, s1, fr, st1, mem1);
    ReachesTrans(c, m, fin, st, mem, n, st1, mem1, s1, fr, 1, st2, mem', EvalCall(c, g, ns, s1).1, fr);
    n := n + 1;
  }

  lemma {:induction false} CallKeeps(w: World, mem: Memory, t: Option<nat>, f: string, ns: seq<Option<int>>, n: nat)
    requires t.Some? ==> n <= t.value
    ensures Keeps(mem, Invoke(w, mem, t, f, ns), n)
  {
    forall u: nat
      ensures RegKept(mem, Invoke(w, mem, t, f, ns), n, u)
    {
    }
  }

  lemma {:induction false} SimArgs(c: Context, m: Machine, fin: State, es: seq<Expr>, s: Mem, fr: Frames,
        good: set<string>, st: State, mem: Memory)
      returns (n: nat, mem': Memory)
    requires Ready(c, m, fin, s, fr, st, mem)
    requires Within(LowerArgs(c.voids, es, st).0, fin)
    requires Good(st.syms, fr, c.globals, good) && forall i | 0 <= i < |es| :: ExprIn(es[i], good)
    ensures var (st', os) := LowerArgs(c.voids, es, st);
            var (ns, s') := EvalArgs(c, es, s);
            && Reaches(c, m, fin, st, mem, n, st', mem', s', fr)
            && Numbers(m, mem', os) == Some(ns)
    decreases es, 0
  {
    if es == [] {
      n, mem' := 0, mem;
      KeepsSame(mem, mem, st.nextTemp);
    } else {
      var (st1, o) := LowerExpr(c.voids, es[0], st);
      var (st2, os) := LowerArgs(c.voids, es[1..], st1);
      LowerExprOk(c.voids, es[0], st);
      LowerExprNames(c.voids, es[0], st);
      LowerArgsOk(c.voids, es[1..], st1);
      LowerArgsNames(c.voids, es[1..], st1);
      WithinBefore(st1, st2, fin);
      var (v, s1) := Eval(c, es[0], s);
      var (ns, s2) := EvalArgs(c, es[1..], s1);
      var n1, mem1 := SimExpr(c, m, fin, es[0], s, fr, good, st, mem);
      var n2, mem2 := SimArgs(c, m, fin, es[1..], s1, fr, good, st1, mem1);
      ReachesTrans(c, m, fin, st, mem, n1, st1, mem1, s1, fr, n2, st2, mem2, s2, fr);
      n, mem' := n1 + n2, mem2;
      if o.Some? {
        NumberKept(m, mem1, mem2, st1.nextTemp, o.value);
      }
      assert ([o] + os)[1..] == os;
    }
  }

  // ----- stores -----

  lemma {:induction false} SimOr0(c: Context, m: Machine, fin: State, e: Option<Expr>, s: Mem, fr: Frames,
        good: set<string>, st: State, mem: Memory)
      returns (n: nat, mem': Memory)
    requires Ready(c, m, fin, s, fr, st, mem)
    requires Within(LowerOr0(c.voids, e, st).0, fin) && Good(st.syms, fr, c.globals, good) && InitIn(e, good)
    ensures var (st', o) := LowerOr0(c.voids, e, st);
            var (v, s') := EvalOr0(c, e, s);
            && Reaches(c, m, fin, st, mem, n, st', mem', s', fr)
            && Number(m, mem', o) == Some(v)
  {
    if e.None? {
      n, mem' := 0, mem;
      KeepsSame(mem, mem, st.nextTemp);
    } else {
      n, mem' := SimExpr(c, m, fin, e.value, s, fr, good, st, mem);
    }
  }

  /** One store instruction whose effect on memory is known. */
  lemma {:induction false} SimStore(
      c: Context, m: Machine, fin: State, st: State, ptr: Operand, o: Operand, mem: Memory, v: int, mem': Memory,
      s': Mem, fr: Frames)
    requires Linked(c, m, fin) && st.cur < |st.blocks| && Grows(Emit(st, Store(ptr, o)), fin)
    requires Number(m, mem, o) == Some(v) && StoreTo(mem, Operate(m, mem, ptr), v) == Some(mem')
    requires mem'.regs == mem.regs && Rel(c, s', fr, fin, mem')
    ensures Reaches(c, m, fin, st, mem, 1, Emit(st, Store(ptr, o)), mem', s', fr)
  {
    StepHere(c, m, fin, st, Store(ptr, o), mem);
    KeepsSame(mem, mem', st.nextTemp);
  }

  /** The states a declaration passes through. */
  lemma {:induction false} DeclStates(voids: set<string>, x: string, init: Option<Expr>, st: State, fin: State)
    requires Valid(st) && !Closed(st) && Names(st) && Within(LowerDecl(voids, x, init, st), fin)
    ensures var st0 := AddSlot(st, x);
            var (st1, o) := LowerOr0(voids, init, st0);
            var st2 := Emit(st1, Store(Temp(st.nextTemp), o));
            && Valid(st0) && !Closed(st0) && Names(st0) && Alloca(st.nextTemp) in fin.slots
            && Within(st1, fin) && st1.cur < |st1.blocks| && st1.syms == st0.syms && st0.nextTemp <= st1.nextTemp
            && Within(st2, fin) && Valid(st2) && !Closed(st2) && Names(st2) && st1.nextTemp <= st2.nextTemp
  {
    var st0 := AddSlot(st, x);
    AddSlotOk(st, x);
    AddSlotNames(st, x);
    var (st1, o) := LowerOr0(voids, init, st0);
    LowerOr0Ok(voids, init, st0);
    LowerOr0Names(voids, init, st0);
    var store := Store(Temp(st.nextTemp), o);
    var st2 := Emit(st1, store);
    EmitOk(st1, store);
    EmitNames(st1, store);
    assert Within(st2, fin) by {
      var load := Load(st2.nextTemp, Temp(st.nextTemp));
      EmitDefOk(st2, load);
      EmitDefNames(st2, load);
      WithinBefore(st2, EmitDef(st2, load), fin);
    }
    WithinBefore(st1, st2, fin);
    WithinBefore(st0, st1, fin);
    assert Alloca(st.nextTemp) == st0.slots[0];
    assert SlotKept(st0.slots, fin.slots, Alloca(st.nextTemp));
  }

  /** A declaration up to its store. */
  function DeclStored(voids: set<string>, x: string, init: Option<Expr>, st: State): State {
    LowerStore(voids, Temp(st.nextTemp), init, AddSlot(st, x))
  }

  function Declared(c: Context, x: string, init: Option<Expr>, s: Mem): Mem
    requires |s.env| > 0
  {
    var (v, s1) := EvalOr0(c, init, s);
    s1.(env := Declare(s1.env, x, v))
  }

  /** The first store to the slot of a declaration makes the name visible. */
  lemma {:induction false} SimFirstStore(
      c: Context, m: Machine, fin: State, x: string, o: Operand, v: int, s: Mem, fr: Frames, t: nat, st: State,
      mem: Memory)
      returns (mem': Memory)
    requires Linked(c, m, fin) && Rel(c, s, fr, fin, mem) && |s.env| > 0 && Below(fr, t) && Alloca(t) in fin.slots
    requires st.cur < |st.blocks| && Grows(Emit(st, Store(Temp(t), o)), fin) && Number(m, mem, o) == Some(v)
    ensures Reaches(c, m, fin, st, mem, 1, Emit(st, Store(Temp(t), o)), mem',
                    s.(env := Declare(s.env, x, v)), DeclareSlot(fr, x, Temp(t)))
  {
    RelDeclare(c, s, fr, t, fin, m, mem, x, v);
    mem' := StoreTo(mem, Operate(m, mem, Temp(t)), v).value;
    SimStore(c, m, fin, st, Temp(t), o, mem, v, mem', s.(env := Declare(s.env, x, v)), DeclareSlot(fr, x, Temp(t)));
  }

  lemma {:induction false} SimDeclStore(
      c: Context, m: Machine, fin: State, x: string, init: Option<Expr>, s: Mem, fr: Frames, good: set<string>,
      st: State, mem: Memory)
      returns (n: nat, mem': Memory)
    requires Ready(c, m, fin, s, fr, st, mem) && |s.env| > 0 && Below(fr, st.nextTemp)
    requires Within(LowerDecl(c.voids, x, init, st), fin)
    requires Good(st.syms, fr, c.globals, good) && InitIn(init, good - {x})
    ensures Reaches(c, m, fin, st, mem, n, DeclStored(c.voids, x, init, st), mem',
                    Declared(c, x, init, s), DeclareSlot(fr, x, Temp(st.nextTemp)))
  {
    var t := st.nextTemp;
    var fr' := DeclareSlot(fr, x, Temp(t));
    var st0 := AddSlot(st, x);
    var (st1, o) := LowerOr0(c.voids, init, st0);
    var st2 := Emit(st1, Store(Temp(t), o));
    DeclStates(c.voids, x, init, st, fin);
    AddSlotNames(st, x);
    GoodKept(st, st0, {x}, fr, c.globals, good);
    var (v, s1) := EvalOr0(c, init, s);
    var n1, mem1 := SimOr0(c, m, fin, init, s, fr, good - {x}, st0, mem);
    var s2 := Declared(c, x, init, s);
    mem' := SimFirstStore(c, m, fin, x, o, v, s1, fr, t, st1, mem1);
    ReachesTrans(c, m, fin, st0, mem, n1, st1, mem1, s1, fr, 1, st2, mem', s2, fr');
    n := n1 + 1;
    KeepsLess(mem, mem', t, st0.nextTemp);
  }

  lemma {:induction false} KeepsLess(mem: Memory, mem': Memory, n: nat, n': nat)
    requires Keeps(mem, mem', n') && n <= n'
    ensures Keeps(mem, mem', n)
  {
    forall u: nat
      ensures RegKept(mem, mem', n, u)
    {
      assert RegKept(mem, mem', n', u);
    }
  }

  /** A declaration: its value goes into the new slot. */
  lemma {:induction false} SimDecl(
      c: Context, m: Machine, fin: State, x: string, init: Option<Expr>, s: Mem, fr: Frames, good: set<string>,
      st: State, mem: Memory)
      returns (n: nat, mem': Memory)
    requires Ready(c, m, fin, s, fr, st, mem) && |s.env| > 0 && Below(fr, st.nextTemp)
    requires Within(LowerDecl(c.voids, x, init, st), fin)
    requires Good(st.syms, fr, c.globals, good) && InitIn(init, good - {x})
    ensures Reaches(c, m, fin, st, mem, n, LowerDecl(c.voids, x, init, st), mem',
                    Declared(c, x, init, s), DeclareSlot(fr, x, Temp(st.nextTemp)))
  {
    var st2 := DeclStored(c.voids, x, init, st);
    var s2, fr2 := Declared(c, x, init, s), DeclareSlot(fr, x, Temp(st.nextTemp));
    var load := Load(st2.nextTemp, Temp(st.nextTemp));
    DeclStates(c.voids, x, init, st, fin);
    var n1, mem1 := SimDeclStore(c, m, fin, x, init, s, fr, good, st, mem);
    RelRead(c, s2, fr2, fin, m, mem1, x);
    var v := Read(c, s2, x).value;
    SimDef(c, m, fin, s2, fr2, st2, load, mem1, v);
    mem' := SetReg(mem1, st2.nextTemp, Int(v));
    ReachesTrans(c, m, fin, st, mem, n1, st2, mem1, s2, fr2, 1, EmitDef(st2, load), mem', s2, fr2);
    n := n1 + 1;
  }

  /** An assignment to a name that is right. */
  lemma {:induction false} SimAssign(
      c: Context, m: Machine, fin: State, x: string, e: Expr, s: Mem, fr: Frames, good: set<string>, st: State,
      mem: Memory)
      returns (n: nat, mem': Memory)
    requires Ready(c, m, fin, s, fr, st, mem)
    requires Within(LowerAssign(c.voids, x, e, st), fin)
    requires Good(st.syms, fr, c.globals, good) && x in good && ExprIn(e, good)
    ensures Reaches(c, m, fin, st, mem, n, LowerAssign(c.voids, x, e, st), mem', ExecAssign(c, x, e, s).s, fr)
  {
    assert GoodAt(st.syms, fr, c.globals, good, x);
    var ptr := st.syms[x];
    var (st1, o) := LowerOr0(c.voids, Some(e), st);
    LowerOr0Ok(c.voids, Some(e), st);
    LowerOr0Names(c.voids, Some(e), st);
    var store := Store(ptr, o);
    EmitOk(st1, store);
    EmitNames(st1, store);
    WithinBefore(st1, Emit(st1, store), fin);
    var (v, s1) := EvalOr0(c, Some(e), s);
    var n1, mem1 := SimOr0(c, m, fin, Some(e), s, fr, good, st, mem);
    RelWrite(c, s1, fr, fin, m, mem1, x, v);
    mem' := StoreTo(mem1, Operate(m, mem1, ptr), v).value;
    SimStore(c, m, fin, st1, ptr, o, mem1, v, mem', Write(c, s1, x, v), fr);
    n := n1 + 1;
    ReachesTrans(c, m, fin, st, mem, n1, st1, mem1, s1, fr, 1, Emit(st1, store), mem', Write(c, s1, x, v), fr);
  }
}
