/** The lowering routines as they run: one object holds the block list of the current function, the
    current block, the loop target stacks and the symbol table, and every routine updates them. */
module LowererModule {
  import opened Wrappers
  import opened Ast
  import opened Ir
  import opened Scope
  import Lower

  const MAX_LOOPS := 128

  class Lowerer {
    const voids: set<string>
    var blocks: seq<Block>              // current_function->blocks
    var current: nat                    // current_block
    const breakTargets: array<nat>      // loop_break_targets
    const continueTargets: array<nat>   // loop_continue_targets
    var depth: nat                      // loop_target_depth
    var syms: map<string, Operand>      // sym_table
    var nextTemp: nat
    ghost var slotCount: nat            // how many allocas stand in front of the entry block

    ghost predicate Valid()
      reads this
    {
      && breakTargets.Length == continueTargets.Length == MAX_LOOPS
      && breakTargets != continueTargets
      && depth <= MAX_LOOPS
      && current < |blocks|
      && slotCount <= |blocks[0]|
      && (forall i | 0 <= i < slotCount :: blocks[0][i].Alloca?)
    }

    /** The state as Lower.dfy sees it: the slots apart from the rest of the entry block. */
    ghost function State(): Lower.State
      requires Valid()
      reads this, breakTargets, continueTargets
    {
      Lower.State(blocks[0][..slotCount], [blocks[0][slotCount..]] + blocks[1..], current, Loops(), syms, nextTemp)
    }

    ghost function Loops(): (r: seq<Lower.Targets>)
      requires Valid()
      reads this, breakTargets, continueTargets
      ensures |r| == depth
    {
      seq(depth, i requires 0 <= i < depth && Valid() reads this, breakTargets, continueTargets =>
            Lower.Targets(breakTargets[i], continueTargets[i]))
    }

    constructor (voids: set<string>, globals: set<string>)
      ensures Valid() && fresh(breakTargets) && fresh(continueTargets)
      ensures breakTargets.Length == 128 && continueTargets.Length == 128
      ensures this.voids == voids && syms == (map x | x in globals :: Global(x)) && nextTemp == 1 && depth == 0
    {
      this.voids := voids;
      blocks := [[]];
      current := 0;
      breakTargets := new nat[MAX_LOOPS];
      continueTargets := new nat[MAX_LOOPS];
      depth := 0;
      syms := map x | x in globals :: Global(x);
      nextTemp := 1;
      slotCount := 0;
    }

    // ----- emitting -----

    /** Append to the current block. */
    method Emit(i: Instr)
      requires Valid()
      modifies this`blocks
      ensures Valid() && State() == Lower.Emit(old(State()), i)
      ensures |blocks| == old(|blocks|) && Loops() == old(Loops())
    {
      ghost var st := State();
      ghost var entry := blocks[0];
      blocks := blocks[current := blocks[current] + [i]];
      if current == 0 {
        assert blocks[0][slotCount..] == entry[slotCount..] + [i];
      }
      assert State().blocks == Lower.Emit(st, i).blocks;
      assert State().slots == st.slots;
      assert State().loops == st.loops;
    }

    method FreshTemp() returns (t: nat)
      requires Valid()
      modifies this`nextTemp
      ensures Valid() && t == old(nextTemp)
      ensures |blocks| == old(|blocks|) && Loops() == old(Loops())
      ensures State() == old(State()).(nextTemp := t + 1)
    {
      t := nextTemp;
      nextTemp := nextTemp + 1;
      assert State().loops == old(State()).loops;
    }

    /** block_is_terminated(current_block). */
    method IsTerminated() returns (r: bool)
      requires Valid()
      ensures r == Lower.Closed(State())
    {
      var b := blocks[current];
      r := |b| > 0 && b[|b| - 1].IsTerminator();
    }

    /** Append a terminator, unless there is one already. */
    method EmitEnd(i: Instr)
      requires Valid()
      modifies this`blocks
      ensures Valid() && State() == Lower.EmitEnd(old(State()), i)
      ensures |blocks| == old(|blocks|) && Loops() == old(Loops())
    {
      var closed := IsTerminated();
      if !closed {
        Emit(i);
      }
    }

    /** Append an empty block to the function. */
    method AddBlock() returns (b: nat)
      requires Valid()
      modifies this`blocks
      ensures Valid() && b == old(|blocks|) && State() == Lower.AddBlocks(old(State()), 1)
      ensures |blocks| >= old(|blocks|) && Loops() == old(Loops())
    {
      ghost var st := State();
      b := |blocks|;
      blocks := blocks + [[]];
      assert State().blocks == Lower.AddBlocks(st, 1).blocks;
      assert State().loops == st.loops;
    }

    /** Put an alloca in front of the entry block and bind `x` to it. */
    method AddSlot(x: string) returns (slot: Operand)
      requires Valid()
      modifies this`blocks, this`slotCount, this`syms, this`nextTemp
      ensures Valid() && slot == Temp(old(nextTemp)) && State() == Lower.AddSlot(old(State()), x)
      ensures |blocks| == old(|blocks|) && Loops() == old(Loops())
    {
      ghost var st := State();
      ghost var entry := blocks[0];
      var t := FreshTemp();
      blocks := blocks[0 := [Alloca(t)] + blocks[0]];
      slotCount := slotCount + 1;
      assert blocks[0][slotCount..] == entry[slotCount - 1..];
      assert blocks[0][..slotCount] == [Alloca(t)] + entry[..slotCount - 1];
      slot := Temp(t);
      syms := syms[x := slot];
      assert State().slots == [Alloca(t)] + st.slots;
      assert State().blocks == st.blocks;
      assert State().loops == st.loops;
    }

    method SetCurrent(b: nat)
      requires Valid() && b < |blocks|
      modifies this`current
      ensures Valid() && State() == old(State()).(cur := b)
      ensures |blocks| == old(|blocks|) && Loops() == old(Loops())
    {
      current := b;
      assert State().loops == old(State()).loops;
    }

    // ----- expressions -----

    method LowerExpr(e: Expr) returns (o: Option<Operand>)
      requires Valid()
      modifies this`blocks, this`nextTemp
      ensures Valid() && (State(), o) == Lower.LowerExpr(voids, e, old(State()))
      ensures |blocks| == old(|blocks|) && Loops() == old(Loops())
      decreases e, 1
    {
      match e
      case Const(n) => o := Some(Imm(n));
      case Var(x) =>
        if x in syms {
          var ptr := syms[x];
          var t := FreshTemp();
          Emit(Load(t, ptr));
          o := Some(Temp(t));
        } else {
          o := None;
        }
      case Binary(op, l, r) =>
        var a := LowerExpr(l);
        var b := LowerExpr(r);
        if a.None? || b.None? {
          o := None;
        } else {
          var t := FreshTemp();
          Emit(BinOp(t, Opcode(op), a.value, b.value));
          o := Some(Temp(t));
        }
      case Call(f, es) =>
        var os := LowerArgs(es);
        var g := Resolve(f);
        if g in voids {
          Emit(CallFn(None, g, os));
          o := None;
        } else {
          var t := FreshTemp();
          Emit(CallFn(Some(t), g, os));
          o := Some(Temp(t));
        }
    }

    method LowerArgs(es: seq<Expr>) returns (os: seq<Option<Operand>>)
      requires Valid()
      modifies this`blocks, this`nextTemp
      ensures Valid() && (State(), os) == Lower.LowerArgs(voids, es, old(State()))
      ensures |blocks| == old(|blocks|) && Loops() == old(Loops())
      decreases es, 0
    {
      os := [];
      ghost var whole := Lower.LowerArgs(voids, es, State());
      assert es[0..] == es && os + whole.1 == whole.1;
      for i := 0 to |es|
        invariant Valid() && |blocks| == old(|blocks|) && Loops() == old(Loops())
        invariant var (st, rest) := Lower.LowerArgs(voids, es[i..], State());
                  whole == (st, os + rest)
      {
        assert es[i..][1..] == es[i + 1..];
        var o := LowerExpr(es[i]);
        ghost var rest := Lower.LowerArgs(voids, es[i + 1..], State()).1;
        assert os + ([o] + rest) == os + [o] + rest;
        os := os + [o];
      }
      assert es[|es|..] == [] && os + [] == os;
    }

    /** Store the value of `e`, or 0 when there is none, through `ptr`. */
    method LowerStore(ptr: Operand, e: Option<Expr>)
      requires Valid()
      modifies this`blocks, this`nextTemp
      ensures Valid() && State() == Lower.LowerStore(voids, ptr, e, old(State()))
      ensures |blocks| == old(|blocks|) && Loops() == old(Loops())
    {
      var o := None;
      if e.Some? {
        o := LowerExpr(e.value);
      }
      Emit(Store(ptr, if o.Some? then o.value else Imm(0)));
    }

    // ----- statements -----

    method LowerStatement(s: Stmt)
      requires Valid() && depth + Nesting(s) <= MAX_LOOPS
      modifies this`blocks, this`current, this`depth, this`syms, this`nextTemp, this`slotCount, breakTargets,
        continueTargets
      ensures Valid() && depth == old(depth) && State() == Lower.LowerStmt(voids, s, old(State()))
      ensures |blocks| >= old(|blocks|) && Loops() == old(Loops())
      decreases s, 1
    {
      match s
      case ExprStmt(e) => var _ := LowerExpr(e);
      case Return(None) => EmitEnd(Ret(None));
      case Return(Some(e)) =>
        var o := LowerExpr(e);
        EmitEnd(Ret(o));
      case Block(body) => LowerBlock(body);
      case If(_, _, _) => LowerIf(s);
      case While(_, _) => LowerWhile(s);
      case For(_, _, _, _, _) => LowerFor(s);
      case Break =>
        if depth > 0 {
          EmitEnd(Br(breakTargets[depth - 1]));
        }
      case Continue =>
        if depth > 0 {
          EmitEnd(Br(continueTargets[depth - 1]));
        }
      case VarDecl(x, init) => LowerDecl(x, init);
      case Assign(x, e) => LowerAssign(x, e);
    }

    /** Lowering stops at the first statement that closes the current block. */
    method LowerBlock(ss: seq<Stmt>)
      requires Valid() && depth + NestingList(ss) <= MAX_LOOPS
      modifies this`blocks, this`current, this`depth, this`syms, this`nextTemp, this`slotCount, breakTargets,
        continueTargets
      ensures Valid() && depth == old(depth) && State() == Lower.LowerList(voids, ss, old(State()))
      ensures |blocks| >= old(|blocks|) && Loops() == old(Loops())
      decreases ss, 0
    {
      ghost var whole := Lower.LowerList(voids, ss, State());
      var i := 0;
      assert ss[0..] == ss;
      while i < |ss|
        invariant Valid() && depth == old(depth) && i <= |ss|
        invariant |blocks| >= old(|blocks|) && Loops() == old(Loops())
        invariant whole == Lower.LowerList(voids, ss[i..], State())
      {
        var closed := IsTerminated();
        if closed {
          break;
        }
        NestingWithin(ss, i);
        assert ss[i..][1..] == ss[i + 1..];
        LowerStatement(ss[i]);
        i := i + 1;
      }
    }

    method LowerDecl(x: string, init: Option<Expr>)
      requires Valid()
      modifies this`blocks, this`slotCount, this`syms, this`nextTemp
      ensures Valid() && State() == Lower.LowerDecl(voids, x, init, old(State()))
      ensures |blocks| == old(|blocks|) && Loops() == old(Loops())
    {
      var slot := AddSlot(x);
      LowerStore(slot, init);
      var t := FreshTemp();
      Emit(Load(t, slot));
    }

    method LowerAssign(x: string, e: Expr)
      requires Valid()
      modifies this`blocks, this`nextTemp
      ensures Valid() && State() == Lower.LowerAssign(voids, x, e, old(State()))
      ensures |blocks| == old(|blocks|) && Loops() == old(Loops())
    {
      if x in syms {
        LowerStore(syms[x], Some(e));
      }
    }

    /** Lower the statements of an arm into block `arm`, and leave it for `target`. */
    method LowerArm(ss: seq<Stmt>, arm: nat, target: nat)
      requires Valid() && depth + NestingList(ss) <= MAX_LOOPS && arm < |blocks|
      modifies this`blocks, this`current, this`depth, this`syms, this`nextTemp, this`slotCount, breakTargets,
        continueTargets
      ensures Valid() && depth == old(depth) && State() == Lower.LowerArm(voids, ss, arm, target, old(State()))
      ensures |blocks| >= old(|blocks|) && Loops() == old(Loops())
      decreases ss, 1
    {
      SetCurrent(arm);
      LowerBlock(ss);
      EmitEnd(Br(target));
    }

    method LowerIf(s: Stmt)
      requires s.If?
      requires Valid() && depth + Nesting(s) <= MAX_LOOPS
      modifies this`blocks, this`current, this`depth, this`syms, this`nextTemp, this`slotCount, breakTargets,
        continueTargets
      ensures Valid() && depth == old(depth) && State() == Lower.LowerIf(voids, s, old(State()))
      ensures |blocks| >= old(|blocks|) && Loops() == old(Loops())
      decreases s, 0
    {
      var thn, els, merge := LowerIfHead(s);
      LowerArm(s.thn, thn, merge);
      if s.els.Else? {
        LowerArm(s.els.body, els, merge);
      }
      SetCurrent(merge);
    }

    /** The blocks of an If: then, else if there is one, and merge. */
    method AddArms(both: bool) returns (thn: nat, els: nat, merge: nat)
      requires Valid()
      modifies this`blocks
      ensures Valid() && State() == Lower.AddBlocks(old(State()), if both then 3 else 2) && Loops() == old(Loops())
      ensures thn == old(|blocks|) && els == thn + 1 && merge == thn + (if both then 2 else 1) && merge < |blocks|
    {
      ghost var st := State();
      thn := AddBlock();
      els := thn + 1;
      if both {
        els := AddBlock();
        AddBlocksTwice(st, 1, 1);
      }
      merge := AddBlock();
      AddBlocksTwice(st, if both then 2 else 1, 1);
    }

    /** The condition, the blocks and the branch of an If. */
    method LowerIfHead(s: Stmt) returns (thn: nat, els: nat, merge: nat)
      requires s.If? && Valid()
      modifies this`blocks, this`nextTemp
      ensures Valid() && State() == Lower.IfHead(voids, s, old(State())) && Loops() == old(Loops())
      ensures thn == old(|blocks|) && els == thn + 1 && merge == thn + (if s.els.Else? then 2 else 1)
        && merge < |blocks|
    {
      var o := LowerExpr(s.cond);
      thn, els, merge := AddArms(s.els.Else?);
      if o.Some? {
        EmitEnd(Cbr(o.value, thn, if s.els.Else? then els else merge));
      }
    }

    method LowerWhile(s: Stmt)
      requires s.While?
      requires Valid() && depth + Nesting(s) <= MAX_LOOPS
      modifies this`blocks, this`current, this`depth, this`syms, this`nextTemp, this`slotCount, breakTargets,
        continueTargets
      ensures Valid() && depth == old(depth) && State() == Lower.LowerLoop(voids, s.cond, s.body, None, old(State()))
      ensures |blocks| >= old(|blocks|) && Loops() == old(Loops())
      decreases s, 0
    {
      ghost var st := State();
      var head := AddBlock();
      var body := AddBlock();
      var merge := AddBlock();
      AddBlocksTwice(st, 1, 1);
      AddBlocksTwice(st, 2, 1);
      EmitEnd(Br(head));
      SetCurrent(head);
      assert State() == Lower.LoopEntry(3, st);
      LowerTest(s.cond, body, merge);
      assert State() == Lower.LoopHead(voids, s.cond, 3, st);
      LowerLoopBody(s.body, body, merge, head);
      SetCurrent(merge);
      Lower.LoopParts(voids, s.cond, s.body, None, st, 3, head);
    }

    method LowerFor(s: Stmt)
      requires s.For?
      requires Valid() && depth + Nesting(s) <= MAX_LOOPS
      modifies this`blocks, this`current, this`depth, this`syms, this`nextTemp, this`slotCount, breakTargets,
        continueTargets
      ensures Valid() && depth == old(depth) && State() == Lower.LowerStmt(voids, s, old(State()))
      ensures |blocks| >= old(|blocks|) && Loops() == old(Loops())
      decreases s, 0
    {
      LowerDecl(s.name, s.init);
      ghost var st := State();
      var head, body, inc, merge := EnterFor();
      LowerTest(s.cond, body, merge);
      assert State() == Lower.LoopHead(voids, s.cond, 4, st);
      LowerLoopBody(s.body, body, merge, inc);
      assert State() == Lower.LowerBody(voids, s.body, head, 4, inc, Lower.LoopHead(voids, s.cond, 4, st));
      LowerStep(s.step, inc, head);
      SetCurrent(merge);
      Lower.LoopParts(voids, s.cond, s.body, Some(s.step), st, 4, inc);
      Lower.ForParts(voids, s, old(State()));
    }

    /** The step of a `for`, back to its condition. */
    method LowerStep(step: Increment, inc: nat, head: nat)
      requires Valid() && inc < |blocks|
      modifies this`blocks, this`current, this`nextTemp
      ensures Valid() && State() == Lower.LowerStep(voids, Some(step), head, inc, old(State()))
      ensures |blocks| == old(|blocks|) && Loops() == old(Loops())
    {
      SetCurrent(inc);
      LowerAssign(step.target, step.value);
      EmitEnd(Br(head));
    }

    /** Make the four blocks of a `for` and enter its condition. */
    method EnterFor() returns (head: nat, body: nat, inc: nat, merge: nat)
      requires Valid()
      modifies this`blocks, this`current
      ensures Valid() && State() == Lower.LoopEntry(4, old(State())) && Loops() == old(Loops())
      ensures head == old(|blocks|) && body == head + 1 && inc == head + 2 && merge == head + 3 && merge < |blocks|
    {
      ghost var st := State();
      head := AddBlock();
      body := AddBlock();
      inc := AddBlock();
      merge := AddBlock();
      AddBlocksTwice(st, 1, 1);
      AddBlocksTwice(st, 2, 1);
      AddBlocksTwice(st, 3, 1);
      EmitEnd(Br(head));
      SetCurrent(head);
    }

    /** Lower a condition and branch on its value; without one no branch is emitted. */
    method LowerTest(cond: Expr, t: nat, f: nat)
      requires Valid()
      modifies this`blocks, this`nextTemp
      ensures Valid() && State() == Lower.Test(voids, cond, t, f, old(State()))
      ensures |blocks| == old(|blocks|) && Loops() == old(Loops())
    {
      var o := LowerExpr(cond);
      if o.Some? {
        EmitEnd(Cbr(o.value, t, f));
      }
    }

    /** Lower the body of a loop with its targets on top of the loop stack. */
    method LowerLoopBody(ss: seq<Stmt>, body: nat, merge: nat, next: nat)
      requires Valid() && depth + 1 + NestingList(ss) <= MAX_LOOPS && body < |blocks|
      modifies this`blocks, this`current, this`depth, this`syms, this`nextTemp, this`slotCount, breakTargets,
        continueTargets
      ensures Valid() && depth == old(depth)
      ensures |blocks| >= old(|blocks|) && Loops() == old(Loops())
      ensures State() ==
        Lower.LowerArm(voids, ss, body, next, old(State()).(loops := old(State()).loops + [Lower.Targets(merge, next)]))
                             .(loops := old(State()).loops)
      decreases ss, 1
    {
      ghost var st := State();
      SetCurrent(body);
      breakTargets[depth] := merge;
      continueTargets[depth] := next;
      depth := depth + 1;
      assert Loops() == st.loops + [Lower.Targets(merge, next)];
      LowerBlock(ss);
      assert State().loops == st.loops + [Lower.Targets(merge, next)];
      ghost var inner := Loops();
      if depth > 0 {
        depth := depth - 1;
      }
      assert forall i | 0 <= i < depth :: Loops()[i] == inner[i];
      assert Loops() == st.loops;
      EmitEnd(Br(next));
    }

    // ----- functions -----

    /** The blocks of the function, its slots in their place. */
    method Finished() returns (code: Code)
      requires Valid()
      ensures code == Lower.CodeOf(State())
    {
      code := blocks;
      assert blocks[0][..slotCount] + blocks[0][slotCount..] == blocks[0];
    }

    /** A slot for each parameter, which its argument is stored to. */
    method LowerParams(params: seq<string>)
      requires Valid()
      modifies this`blocks, this`slotCount, this`syms, this`nextTemp
      ensures Valid() && State() == Lower.LowerParams(params, 0, old(State()))
      ensures |blocks| == old(|blocks|) && Loops() == old(Loops())
    {
      ghost var whole := Lower.LowerParams(params, 0, State());
      assert params[0..] == params;
      for j := 0 to |params|
        invariant Valid() && |blocks| == old(|blocks|) && Loops() == old(Loops())
        invariant whole == Lower.LowerParams(params[j..], j, State())
      {
        assert params[j..][1..] == params[j + 1..];
        var slot := AddSlot(params[j]);
        Emit(Store(slot, Param(j)));
      }
    }

    /** Lower a function into a fresh block list; the symbol table stays as it is. */
    method LowerFunction(f: Function) returns (code: Code)
      requires Valid() && depth == 0 && NestingList(f.body) <= MAX_LOOPS
      modifies this`blocks, this`current, this`depth, this`syms, this`nextTemp, this`slotCount, breakTargets,
        continueTargets
      ensures Valid() && depth == 0
      ensures State() == Lower.LowerFunction(voids, f, old(syms), old(nextTemp))
      ensures code == Lower.CodeOf(State())
    {
      blocks := [[]];
      current := 0;
      slotCount := 0;
      assert State() == Lower.EmptyState(syms, nextTemp);
      if f.name == "main" {
        Emit(CallFn(None, Lower.INIT, []));
      }
      LowerParams(f.params);
      LowerBlock(f.body);
      EmitEnd(Ret(None));
      code := Finished();
    }

    /** emit_global_inits, and then the loop over the other statements of the top level. */
    method LowerInit(tops: seq<Stmt>) returns (code: Code)
      requires Valid() && depth == 0
      modifies this`blocks, this`current, this`depth, this`syms, this`nextTemp, this`slotCount, breakTargets,
        continueTargets
      ensures Valid() && depth == 0
      ensures State() == Lower.LowerInit(voids, tops, old(syms), old(nextTemp))
      ensures code == Lower.CodeOf(State())
    {
      blocks := [[]];
      current := 0;
      slotCount := 0;
      assert State() == Lower.EmptyState(syms, nextTemp);
      LowerGlobals(tops);
      ghost var whole := Lower.LowerTops(voids, tops, State());
      assert tops[0..] == tops;
      for i := 0 to |tops|
        invariant Valid() && depth == 0
        invariant whole == Lower.LowerTops(voids, tops[i..], State())
      {
        assert tops[i..][1..] == tops[i + 1..];
        if tops[i].Assign? || tops[i].ExprStmt? {
          LowerStatement(tops[i]);
        }
      }
      code := Finished();
    }

    method LowerGlobals(tops: seq<Stmt>)
      requires Valid()
      modifies this`blocks, this`nextTemp
      ensures Valid() && State() == Lower.LowerGlobals(voids, tops, old(State()))
      ensures |blocks| == old(|blocks|) && Loops() == old(Loops())
    {
      ghost var whole := Lower.LowerGlobals(voids, tops, State());
      assert tops[0..] == tops;
      for i := 0 to |tops|
        invariant Valid() && |blocks| == old(|blocks|) && Loops() == old(Loops())
        invariant whole == Lower.LowerGlobals(voids, tops[i..], State())
      {
        assert tops[i..][1..] == tops[i + 1..];
        match tops[i]
        case VarDecl(x, init) =>
          if x in syms {
            LowerStore(syms[x], init);
          }
        case _ =>
      }
    }

    /** All functions in order, over one symbol table. */
    method LowerProgram(fs: seq<Function>) returns (code: seq<Code>)
      requires Valid() && depth == 0 && forall i | 0 <= i < |fs| :: NestingList(fs[i].body) <= MAX_LOOPS
      modifies this`blocks, this`current, this`depth, this`syms, this`nextTemp, this`slotCount, breakTargets,
        continueTargets
      ensures Valid() && depth == 0 && |code| == |fs|
      ensures var sts := Lower.LowerAll(voids, fs, old(syms), old(nextTemp));
              |sts| == |fs| && forall i | 0 <= i < |fs| :: code[i] == Lower.CodeOf(sts[i])
    {
      code := [];
      ghost var sts := Lower.LowerAll(voids, fs, syms, nextTemp);
      ghost var done: seq<Lower.State> := [];
      assert fs[0..] == fs && done + sts == sts;
      for i := 0 to |fs|
        invariant Valid() && depth == 0
        invariant |code| == |done| == i && forall k | 0 <= k < i :: code[k] == Lower.CodeOf(done[k])
        invariant sts == done + Lower.LowerAll(voids, fs[i..], syms, nextTemp)
      {
        assert fs[i..][1..] == fs[i + 1..];
        var c := LowerFunction(fs[i]);
        code := code + [c];
        ghost var rest := Lower.LowerAll(voids, fs[i + 1..], syms, nextTemp);
        assert done + ([State()] + rest) == done + [State()] + rest;
        done := done + [State()];
      }
      assert sts == done;
    }
  }

  lemma {:induction false} AddBlocksTwice(st: Lower.State, a: nat, b: nat)
    ensures Lower.AddBlocks(Lower.AddBlocks(st, a), b) == Lower.AddBlocks(st, a + b)
  {
    assert st.blocks + seq(a, _ => []) + seq(b, _ => []) == st.blocks + seq(a + b, _ => []);
  }

  /** ir_validate_module: every block of every function ends in a terminator. */
  method ValidateModule(functions: seq<Code>) returns (ok: bool)
    ensures ok <==> forall f, b | 0 <= f < |functions| && 0 <= b < |functions[f]| :: Terminated(functions[f][b])
  {
    for f := 0 to |functions|
      invariant forall g, b | 0 <= g < f && 0 <= b < |functions[g]| :: Terminated(functions[g][b])
    {
      for b := 0 to |functions[f]|
        invariant forall k | 0 <= k < b :: Terminated(functions[f][k])
      {
        var block := functions[f][b];
        if |block| == 0 || !block[|block| - 1].IsTerminator() {
          return false;
        }
      }
    }
    return true;
  }
}
