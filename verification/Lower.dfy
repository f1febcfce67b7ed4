/** The effect of each lowering routine of src/backend/lower.c on the lowering state, as a function.
    Lowerer.dfy runs the same routines on mutable state and is proved to have exactly this effect. */
module Lower {
  import opened Wrappers
  import opened Ast
  import opened Ir

  datatype Targets = Targets(onBreak: nat, onContinue: nat)

  /** The lowering state of one function. Slots are the allocas, which are put in front of the
      instructions of the entry block as they are made; `blocks` leaves them out. */
  datatype State = State(
    slots: seq<Instr>,
    blocks: seq<Block>,
    cur: nat,
    loops: seq<Targets>,
    syms: map<string, Operand>,
    nextTemp: nat)

  /** The function body that has been built: the slots come first in the entry block. */
  function CodeOf(st: State): Code {
    if st.blocks == [] then [] else [st.slots + st.blocks[0]] + st.blocks[1..]
  }

  // ----- emitting -----

  function Emit(st: State, i: Instr): State {
    if st.cur < |st.blocks| then st.(blocks := st.blocks[st.cur := st.blocks[st.cur] + [i]]) else st
  }

  /** Emit an instruction that defines the next temporary. */
  function EmitDef(st: State, i: Instr): State {
    Emit(st, i).(nextTemp := st.nextTemp + 1)
  }

  predicate Closed(st: State) {
    st.cur < |st.blocks| && Terminated(st.blocks[st.cur])
  }

  /** Terminators are refused by a block that already has one. */
  function EmitEnd(st: State, i: Instr): State {
    if Closed(st) then st else Emit(st, i)
  }

  function AddBlocks(st: State, n: nat): State {
    st.(blocks := st.blocks + seq(n, _ => []))
  }

  /** Make a slot for `x`; an entry of the same name is overwritten. */
  function AddSlot(st: State, x: string): State {
    st.(slots := [Alloca(st.nextTemp)] + st.slots,
        syms := st.syms[x := Temp(st.nextTemp)],
        nextTemp := st.nextTemp + 1)
  }

  // ----- expressions -----

  /** None stands for the null value: an unknown name, a void call, or an operator over one of them. */
  function LowerExpr(voids: set<string>, e: Expr, st: State): (State, Option<Operand>)
    decreases e, 1
  {
    match e
    case Const(n) => (st, Some(Imm(n)))
    case Var(x) =>
      if x in st.syms then (EmitDef(st, Load(st.nextTemp, st.syms[x])), Some(Temp(st.nextTemp)))
      else (st, None)
    case Binary(op, l, r) =>
      var (st1, a) := LowerExpr(voids, l, st);
      var (st2, b) := LowerExpr(voids, r, st1);
      if a.None? || b.None? then (st2, None)
      else (EmitDef(st2, BinOp(st2.nextTemp, Opcode(op), a.value, b.value)), Some(Temp(st2.nextTemp)))
    case Call(f, es) =>
      var (st1, os) := LowerArgs(voids, es, st);
      EmitCall(voids, Resolve(f), os, st1)
  }

  function EmitCall(voids: set<string>, f: string, os: seq<Option<Operand>>, st: State): (State, Option<Operand>) {
    if f in voids then (Emit(st, CallFn(None, f, os)), None)
    else (EmitDef(st, CallFn(Some(st.nextTemp), f, os)), Some(Temp(st.nextTemp)))
  }

  function LowerArgs(voids: set<string>, es: seq<Expr>, st: State): (State, seq<Option<Operand>>)
    decreases es, 0
  {
    if es == [] then (st, []) else
    var (st1, o) := LowerExpr(voids, es[0], st);
    var (st2, os) := LowerArgs(voids, es[1..], st1);
    (st2, [o] + os)
  }

  /** The value of `e`, or 0 when there is none. */
  function LowerOr0(voids: set<string>, e: Option<Expr>, st: State): (State, Operand) {
    if e.None? then (st, Imm(0)) else
    var (st1, o) := LowerExpr(voids, e.value, st);
    (st1, if o.Some? then o.value else Imm(0))
  }

  function LowerStore(voids: set<string>, ptr: Operand, e: Option<Expr>, st: State): State {
    var (st1, o) := LowerOr0(voids, e, st);
    Emit(st1, Store(ptr, o))
  }

  // ----- statements -----

  function LowerStmt(voids: set<string>, s: Stmt, st: State): State
    decreases s, 1
  {
    match s
    case ExprStmt(e) => LowerExpr(voids, e, st).0
    case Return(None) => EmitEnd(st, Ret(None))
    case Return(Some(e)) => var (st1, o) := LowerExpr(voids, e, st); EmitEnd(st1, Ret(o))
    case Block(body) => LowerList(voids, body, st)
    case If(_, _, _) => LowerIf(voids, s, st)
    case While(cond, body) => LowerLoop(voids, cond, body, None, st)
    case For(x, init, cond, step, body) => LowerLoop(voids, cond, body, Some(step), LowerDecl(voids, x, init, st))
    case Break => if st.loops == [] then st else EmitEnd(st, Br(st.loops[|st.loops| - 1].onBreak))
    case Continue => if st.loops == [] then st else EmitEnd(st, Br(st.loops[|st.loops| - 1].onContinue))
    case VarDecl(x, init) => LowerDecl(voids, x, init, st)
    case Assign(x, e) => LowerAssign(voids, x, e, st)
  }

  /** Statements after a terminator are dropped. */
  function LowerList(voids: set<string>, ss: seq<Stmt>, st: State): State
    decreases ss, 0
  {
    if ss == [] || Closed(st) then st else LowerList(voids, ss[1..], LowerStmt(voids, ss[0], st))
  }

  /** The name is bound before its initialiser is lowered. The final load is never used. */
  function LowerDecl(voids: set<string>, x: string, init: Option<Expr>, st: State): State {
    var slot := Temp(st.nextTemp);
    var st1 := LowerStore(voids, slot, init, AddSlot(st, x));
    EmitDef(st1, Load(st1.nextTemp, slot))
  }

  function LowerAssign(voids: set<string>, x: string, e: Expr, st: State): State {
    if x in st.syms then LowerStore(voids, st.syms[x], Some(e), st) else st
  }

  /** Lower `ss` starting in block `arm`, then go on at `target`. */
  function LowerArm(voids: set<string>, ss: seq<Stmt>, arm: nat, target: nat, st: State): State
    decreases ss, 1, 0
  {
    EmitEnd(LowerList(voids, ss, st.(cur := arm)), Br(target))
  }

  function Branch(o: Option<Operand>, t: nat, f: nat, st: State): State {
    if o.None? then st else EmitEnd(st, Cbr(o.value, t, f))
  }

  /** Lower a condition and branch on it; without a value there is no branch. */
  function Test(voids: set<string>, cond: Expr, t: nat, f: nat, st: State): State {
    var (st1, o) := LowerExpr(voids, cond, st);
    Branch(o, t, f, st1)
  }

  function LowerIf(voids: set<string>, s: Stmt, st: State): State
    requires s.If?
    decreases s, 0, 1
  {
    LowerArms(voids, s, |st.blocks|, IfHead(voids, s, st))
  }

  /** The blocks of an If (then, else if there is one, merge) and the branch into them. The blocks are
      made after the condition is lowered, which makes none. */
  function IfHead(voids: set<string>, s: Stmt, st: State): State
    requires s.If?
  {
    var (st1, o) := LowerExpr(voids, s.cond, st);
    var t := |st1.blocks|;
    Branch(o, t, t + 1, AddBlocks(st1, if s.els.Else? then 3 else 2))
  }

  function LowerArms(voids: set<string>, s: Stmt, t: nat, st: State): State
    requires s.If?
    decreases s, 0, 0
  {
    if s.els.Else? then
      LowerArm(voids, s.els.body, t + 1, t + 2, LowerArm(voids, s.thn, t, t + 2, st)).(cur := t + 2)
    else
      LowerArm(voids, s.thn, t, t + 1, st).(cur := t + 1)
  }

  /** `while` when `step` is None, the part of `for` after its declaration otherwise. The blocks are
      the condition, the body, the step if there is one, and the merge block. */
  function LowerLoop(voids: set<string>, cond: Expr, body: seq<Stmt>, step: Option<Increment>, st: State): State
    decreases body, 2
  {
    var head := |st.blocks|;
    var n := if step.Some? then 4 else 3;
    var next := if step.Some? then head + 2 else head;
    var st1 := LowerBody(voids, body, head, n, next, LoopHead(voids, cond, n, st));
    LowerStep(voids, step, head, next, st1).(cur := head + n - 1)
  }

  /** Make the `n` blocks of a loop and enter the first of them. */
  function LoopEntry(n: nat, st: State): State {
    EmitEnd(AddBlocks(st, n), Br(|st.blocks|)).(cur := |st.blocks|)
  }

  function LoopHead(voids: set<string>, cond: Expr, n: nat, st: State): State
    requires 0 < n
  {
    Test(voids, cond, |st.blocks| + 1, |st.blocks| + n - 1, LoopEntry(n, st))
  }

  function Inside(st: State, onBreak: nat, onContinue: nat): State {
    st.(loops := st.loops + [Targets(onBreak, onContinue)])
  }

  function LowerBody(voids: set<string>, body: seq<Stmt>, head: nat, n: nat, next: nat, st: State): State
    requires 0 < n
    decreases body, 1, 1
  {
    LowerArm(voids, body, head + 1, next, Inside(st, head + n - 1, next)).(loops := st.loops)
  }

  function LowerStep(voids: set<string>, step: Option<Increment>, head: nat, next: nat, st: State): State {
    if step.None? then st
    else EmitEnd(LowerAssign(voids, step.value.target, step.value.value, st.(cur := next)), Br(head))
  }

  // ----- functions -----

  const INIT := "__adan_init"

  /** The state in which a function starts: an empty entry block, and the symbol table as the
      functions before it left it. */
  function EmptyState(syms: map<string, Operand>, nextTemp: nat): State {
    State([], [[]], 0, [], syms, nextTemp)
  }

  function LowerParams(ps: seq<string>, index: nat, st: State): State {
    if ps == [] then st
    else LowerParams(ps[1..], index + 1, Emit(AddSlot(st, ps[0]), Store(Temp(st.nextTemp), Param(index))))
  }

  /** Up to the body: `main` first calls the initialiser of the globals. */
  function LowerProlog(f: Function, syms: map<string, Operand>, nextTemp: nat): State {
    var st := EmptyState(syms, nextTemp);
    LowerParams(f.params, 0, if f.name == "main" then Emit(st, CallFn(None, INIT, [])) else st)
  }

  function LowerFunction(voids: set<string>, f: Function, syms: map<string, Operand>, nextTemp: nat): State {
    EmitEnd(LowerList(voids, f.body, LowerProlog(f, syms, nextTemp)), Ret(None))
  }

  /** Functions are lowered one after the other; the symbol table is never cleared in between. */
  function LowerAll(voids: set<string>, fs: seq<Function>, syms: map<string, Operand>, nextTemp: nat): seq<State> {
    if fs == [] then [] else
    var st := LowerFunction(voids, fs[0], syms, nextTemp);
    [st] + LowerAll(voids, fs[1..], st.syms, st.nextTemp)
  }

  // ----- the initialiser -----

  /** One store for each variable of the top level, of its initial value or 0. */
  function LowerGlobals(voids: set<string>, tops: seq<Stmt>, st: State): State {
    if tops == [] then st
    else
      LowerGlobals(voids, tops[1..],
        match tops[0]
        case VarDecl(x, init) => if x in st.syms then LowerStore(voids, st.syms[x], init, st) else st
        case _ => st)
  }

  /** The assignments and expressions of the top level. */
  function LowerTops(voids: set<string>, tops: seq<Stmt>, st: State): State {
    if tops == [] then st
    else
      LowerTops(voids, tops[1..],
        if tops[0].Assign? || tops[0].ExprStmt? then LowerStmt(voids, tops[0], st) else st)
  }

  /** The initialiser, as yet without a terminator: it is closed when it is written out. */
  function LowerInit(voids: set<string>, tops: seq<Stmt>, syms: map<string, Operand>, nextTemp: nat): State {
    LowerTops(voids, tops, LowerGlobals(voids, tops, EmptyState(syms, nextTemp)))
  }

  // ----- unfoldings -----

  /** A loop is its head, its body and its step, in that order. */
  lemma {:induction false} LoopParts(voids: set<string>, cond: Expr, body: seq<Stmt>, step: Option<Increment>,
        st: State, n: nat, next: nat)
    requires n == (if step.Some? then 4 else 3) && next == |st.blocks| + (if step.Some? then 2 else 0)
    ensures var head := |st.blocks|;
            LowerLoop(voids, cond, body, step, st) ==
            LowerStep(voids, step, head, next,
                      LowerBody(voids, body, head, n, next, LoopHead(voids, cond, n, st))).(cur := head + n - 1)
  {
  }

  lemma {:induction false} BodyParts(voids: set<string>, body: seq<Stmt>, head: nat, n: nat, next: nat, st: State)
    requires 0 < n
    ensures var c := LowerArm(voids, body, head + 1, next, Inside(st, head + n - 1, next));
            LowerBody(voids, body, head, n, next, st).(cur := head + n - 1)
              == c.(loops := st.loops, cur := head + n - 1)
  {
  }

  lemma {:induction false} BodyState(
      voids: set<string>, body: seq<Stmt>, head: nat, n: nat, next: nat, merge: nat, st: State)
    requires 0 < n && merge == head + n - 1
    ensures LowerBody(voids, body, head, n, next, st)
         == LowerArm(voids, body, head + 1, next, Inside(st, merge, next)).(loops := st.loops)
  {
  }

  lemma {:induction false} IfParts(voids: set<string>, s: Stmt, st: State)
    requires s.If?
    ensures LowerStmt(voids, s, st) == LowerArms(voids, s, |st.blocks|, IfHead(voids, s, st))
  {
  }

  lemma {:induction false} ForParts(voids: set<string>, s: Stmt, st: State)
    requires s.For?
    ensures LowerStmt(voids, s, st) ==
      LowerLoop(voids, s.cond, s.body, Some(s.step), LowerDecl(voids, s.name, s.init, st))
  {
  }
}
