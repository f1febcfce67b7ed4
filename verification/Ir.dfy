/** The block-and-branch intermediate representation (src/backend/ir/ir.h) and how it runs. */
module Ir {
  import opened Wrappers
  import opened Ast

  datatype Operand = Temp(id: nat) | Imm(n: int) | Param(index: nat) | Global(name: string)

  datatype Instr =
    | Alloca(dest: nat)
    | Load(dest: nat, ptr: Operand)
    | Store(ptr: Operand, val: Operand)
    | BinOp(dest: nat, opcode: nat, lhs: Operand, rhs: Operand)
    | CallFn(out: Option<nat>, callee: string, args: seq<Option<Operand>>)
    | Ret(result: Option<Operand>)
    | Br(target: nat)
    | Cbr(cond: Operand, ifTrue: nat, ifFalse: nat)
  {
    predicate IsTerminator() {
      Ret? || Br? || Cbr?
    }

    /** The temporary this instruction defines, if it defines one. */
    function Def(): Option<nat> {
      match this
      case Alloca(d) => Some(d)
      case Load(d, _) => Some(d)
      case BinOp(d, _, _, _) => Some(d)
      case CallFn(t, _, _) => t
      case _ => None
    }
  }

  /** A block is its instruction list; a function is its block list, entry first.
      Branch targets are positions in that list. */
  type Block = seq<Instr>
  type Code = seq<Block>

  predicate Terminated(b: Block) {
    |b| > 0 && b[|b| - 1].IsTerminator()
  }

  /** The opcode numbers of ir_emit_binop. */
  function Opcode(op: Ast.BinOp): nat {
    match op
    case Add => 1
    case Sub => 2
    case Mul => 3
    case Div => 4
    case Mod => 5
    case Eq => 6
    case Ne => 7
    case Lt => 8
    case Gt => 9
    case Le => 10
    case Ge => 11
    case Pow => 12
    case Or => 13
    case And => 14
  }

  /** The operators in the order of their numbers, the first of which is 1. */
  const OPERATORS := [Add, Sub, Mul, Div, Mod, Eq, Ne, Lt, Gt, Le, Ge, Pow, Or, And]

  lemma {:induction false} OpcodesInOrder(op: Ast.BinOp)
    ensures 1 <= Opcode(op) <= |OPERATORS| && OPERATORS[Opcode(op) - 1] == op
    ensures Decode(Opcode(op)) == Some(op)
  {
  }

  /** Which operator an opcode stands for. */
  function Decode(opcode: nat): Option<Ast.BinOp> {
    match opcode
    case 1 => Some(Add)
    case 2 => Some(Sub)
    case 3 => Some(Mul)
    case 4 => Some(Div)
    case 5 => Some(Mod)
    case 6 => Some(Eq)
    case 7 => Some(Ne)
    case 8 => Some(Lt)
    case 9 => Some(Gt)
    case 10 => Some(Le)
    case 11 => Some(Ge)
    case 12 => Some(Pow)
    case 13 => Some(Or)
    case 14 => Some(And)
    case _ => None
  }

  // ----- what the outside world does -----

  /** A call that was made; the other event says that the call before it has had no answer. */
  datatype Event = Event(callee: string, args: seq<Option<int>>) | Unanswered

  type Globals = map<string, int>

  function ReadGlobal(g: Globals, x: string): int {
    if x in g then g[x] else 0
  }

  /** What a call gives back: a number (unused when the callee is void), the globals, and all the calls
      made until its end. */
  datatype Answer = Answer(n: int, globals: Globals, trace: seq<Event>)

  /** Every meaning of the operators, and every behaviour of callees: a callee sees the calls made so
      far, itself included, and the globals. */
  datatype World = World(
    op: (Ast.BinOp, int, int) -> int,
    call: (seq<Event>, Globals, string, seq<Option<int>>) -> Answer)

  // ----- running a function -----

  datatype Value = Int(n: int) | Cell(address: nat) | GlobalCell(name: string)

  datatype Memory = Memory(
    regs: map<nat, Value>, cells: map<nat, int>, next: nat, globals: Globals, trace: seq<Event>)

  datatype Config =
    | At(block: nat, pos: nat, mem: Memory)
    | Done(result: Option<int>, globals: Globals, trace: seq<Event>)
    | Stuck

  datatype Machine = Machine(code: Code, args: seq<int>, world: World)

  function Operate(m: Machine, mem: Memory, o: Operand): Option<Value> {
    match o
    case Temp(t) => if t in mem.regs then Some(mem.regs[t]) else None
    case Imm(n) => Some(Int(n))
    case Param(i) => if i < |m.args| then Some(Int(m.args[i])) else None
    case Global(x) => Some(GlobalCell(x))
  }

  function Number(m: Machine, mem: Memory, o: Operand): Option<int> {
    match Operate(m, mem, o)
    case Some(Int(n)) => Some(n)
    case _ => None
  }

  /** The numbers passed to a call, where a missing operand (the value of a void call) stays missing. */
  function Numbers(m: Machine, mem: Memory, os: seq<Option<Operand>>): Option<seq<Option<int>>> {
    if os == [] then Some([]) else
    var rest := Numbers(m, mem, os[1..]);
    if rest.None? then None else
    match os[0]
    case None => Some([None] + rest.value)
    case Some(o) =>
      match Number(m, mem, o)
      case None => None
      case Some(n) => Some([Some(n)] + rest.value)
  }

  function LoadFrom(mem: Memory, v: Option<Value>): Option<int> {
    match v
    case Some(Cell(a)) => if a in mem.cells then Some(mem.cells[a]) else None
    case Some(GlobalCell(x)) => Some(ReadGlobal(mem.globals, x))
    case _ => None
  }

  function StoreTo(mem: Memory, v: Option<Value>, n: int): Option<Memory> {
    match v
    case Some(Cell(a)) => Some(mem.(cells := mem.cells[a := n]))
    case Some(GlobalCell(x)) => Some(mem.(globals := mem.globals[x := n]))
    case _ => None
  }

  function SetReg(mem: Memory, t: nat, v: Value): Memory {
    mem.(regs := mem.regs[t := v])
  }

  function Invoke(w: World, mem: Memory, target: Option<nat>, callee: string, args: seq<Option<int>>): Memory {
    var a := w.call(mem.trace + [Event(callee, args)], mem.globals, callee, args);
    var mem' := mem.(globals := a.globals, trace := a.trace);
    if target.Some? then SetReg(mem', target.value, Int(a.n)) else mem'
  }

  /** The effect of instruction `i` standing at position `p` of block `b`. */
  function Perform(m: Machine, i: Instr, b: nat, p: nat, mem: Memory): Config {
    match i
    case Alloca(d) => At(b, p + 1, SetReg(mem, d, Cell(mem.next)).(next := mem.next + 1))
    case Load(d, ptr) =>
      (match LoadFrom(mem, Operate(m, mem, ptr))
       case Some(n) => At(b, p + 1, SetReg(mem, d, Int(n)))
       case None => Stuck)
    case Store(ptr, v) =>
      (match Number(m, mem, v)
       case None => Stuck
       case Some(n) =>
         match StoreTo(mem, Operate(m, mem, ptr), n)
         case Some(mem') => At(b, p + 1, mem')
         case None => Stuck)
    case BinOp(d, code, l, r) =>
      (match (Decode(code), Number(m, mem, l), Number(m, mem, r))
       case (Some(op), Some(x), Some(y)) => At(b, p + 1, SetReg(mem, d, Int(m.world.op(op, x, y))))
       case _ => Stuck)
    case CallFn(t, f, os) =>
      (match Numbers(m, mem, os)
       case Some(ns) => At(b, p + 1, Invoke(m.world, mem, t, f, ns))
       case None => Stuck)
    case Ret(None) => Done(None, mem.globals, mem.trace)
    case Ret(Some(o)) =>
      (match Number(m, mem, o)
       case Some(n) => Done(Some(n), mem.globals, mem.trace)
       case None => Stuck)
    case Br(l) => At(l, 0, mem)
    case Cbr(o, t, f) =>
      (match Number(m, mem, o)
       case Some(n) => At(if n != 0 then t else f, 0, mem)
       case None => Stuck)
  }

  function Step(m: Machine, c: Config): Config {
    if !c.At? then c
    else if c.block >= |m.code| || c.pos >= |m.code[c.block]| then Stuck
    else Perform(m, m.code[c.block][c.pos], c.block, c.pos, c.mem)
  }

  function Run(m: Machine, c: Config, n: nat): Config
    decreases n
  {
    if n == 0 then c else Run(m, Step(m, c), n - 1)
  }

  const EMPTY_MEMORY := Memory(map[], map[], 0, map[], [])

  function Start(g: Globals, trace: seq<Event>): Config {
    At(0, 0, EMPTY_MEMORY.(globals := g, trace := trace))
  }

  lemma {:induction false} RunAdd(m: Machine, c: Config, j: nat, k: nat)
    ensures Run(m, c, j + k) == Run(m, Run(m, c, j), k)
    decreases j
  {
    if j == 0 {
    } else {
      RunAdd(m, Step(m, c), j - 1, k);
    }
  }

  /** A finished run stays finished. */
  lemma {:induction false} RunHalted(m: Machine, c: Config, n: nat)
    requires !c.At?
    ensures Run(m, c, n) == c
    decreases n
  {
    if n == 0 {
    } else {
      RunHalted(m, c, n - 1);
    }
  }

  /** A configuration has at most one final result: two runs that both stop agree. */
  lemma {:induction false} RunDeterministic(m: Machine, c: Config, j: nat, k: nat)
    requires !Run(m, c, j).At? && !Run(m, c, k).At?
    ensures Run(m, c, j) == Run(m, c, k)
  {
    if j <= k {
      RunAdd(m, c, j, k - j);
      RunHalted(m, Run(m, c, j), k - j);
    } else {
      RunAdd(m, c, k, j - k);
      RunHalted(m, Run(m, c, k), j - k);
    }
  }
}
